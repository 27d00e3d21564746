/** The registry in the form of the program: entries are objects, the lists hold references to
    them, and a staged removal is matched by identity. Each method is proved against Registry. */
module ProcRegistries {
  import opened Words
  import opened SafeLists
  import opened Keyed
  import opened Text
  import opened StatLine
  import opened ProcEntries
  import opened Registry

  class ContextEntry {
    const id: U64
    const name: string
    var totals: Totals

    constructor (id: U64, name: string)
      ensures Value() == Ctx(id, name, NO_TOTALS)
    {
      this.id, this.name, totals := id, name, NO_TOTALS;
    }

    function Value(): Ctx
      reads this
    {
      Ctx(id, name, totals)
    }

    method ResetData()
      modifies this
      ensures totals == NO_TOTALS
    {
      totals := NO_TOTALS;
    }

    /** Add what one process uses, in the width of each field. */
    method Accumulate(p: ProcEntry)
      modifies this
      ensures totals == Accumulated(old(totals), p.Value())
    {
      totals := totals.(cpuTime := Add64(totals.cpuTime, p.info.cpuTime));
      totals := totals.(cpuPercent := Wrap32(totals.cpuPercent as int + p.info.cpuPercent));
      totals := totals.(memRss := Add64(totals.memRss, p.info.memRss));
      totals := totals.(memPss := Add64(totals.memPss, p.info.memPss));
    }
  }

  function ProcValues(es: seq<ProcEntry>): seq<Proc>
    reads es
  {
    seq(|es|, i requires 0 <= i < |es| reads es => es[i].Value())
  }

  function CtxValues(cs: seq<ContextEntry>): seq<Ctx>
    reads cs
  {
    seq(|cs|, i requires 0 <= i < |cs| reads cs => cs[i].Value())
  }

  function PidsOf(es: seq<ProcEntry>): set<int> { set e | e in es :: e.pid }

  function IdsOf(cs: seq<ContextEntry>): set<U64> { set c | c in cs :: c.id }

  function EntryPid(e: ProcEntry): int { e.pid }

  function EntryId(c: ContextEntry): U64 { c.id }

  ghost predicate DistinctPids(es: seq<ProcEntry>) { OneEach(es, EntryPid) }

  ghost predicate DistinctIds(cs: seq<ContextEntry>) { OneEach(cs, EntryId) }

  lemma ValuePids(es: seq<ProcEntry>)
    ensures Pids(ProcValues(es)) == PidsOf(es)
  {
    var ps := ProcValues(es);
    forall e | e in es
      ensures e.pid in Pids(ps)
    {
      var i :| 0 <= i < |es| && es[i] == e;
      assert ps[i] in ps;
    }
  }

  lemma PidsOfPrefix(es: seq<ProcEntry>, i: nat)
    requires i < |es|
    ensures PidsOf(es[..i + 1]) == PidsOf(es[..i]) + {es[i].pid}
  {
    assert es[..i + 1] == es[..i] + [es[i]];
    assert es[..i + 1][i] == es[i];
  }

  lemma ValueIds(cs: seq<ContextEntry>)
    ensures Ids(CtxValues(cs)) == IdsOf(cs)
  {
    var vs := CtxValues(cs);
    forall c | c in cs
      ensures c.id in Ids(vs)
    {
      var i :| 0 <= i < |cs| && cs[i] == c;
      assert vs[i] in vs;
    }
  }

  /** Whoever shares a pid with a dropped entry is dropped as well. */
  ghost predicate WholePids(es: seq<ProcEntry>, gone: seq<ProcEntry>) {
    forall x, g :: x in es && g in gone && x.pid == g.pid ==> x in gone
  }

  /** Then dropping objects is dropping pids. */
  lemma {:induction false} DropProcs(es: seq<ProcEntry>, gone: seq<ProcEntry>)
    requires WholePids(es, gone)
    ensures ProcValues(Without(es, gone)) == WithoutPids(ProcValues(es), PidsOf(gone))
  {
    if es != [] {
      DropProcs(es[1..], gone);
      assert ProcValues(es)[1..] == ProcValues(es[1..]);
      assert es[0] in gone <==> es[0].pid in PidsOf(gone);
    }
  }

  lemma {:induction false} DropCtxs(cs: seq<ContextEntry>, gone: seq<ContextEntry>)
    requires forall x, g :: x in cs && g in gone && x.id == g.id ==> x == g
    ensures CtxValues(Without(cs, gone)) == WithoutIds(CtxValues(cs), IdsOf(gone))
  {
    if cs != [] {
      DropCtxs(cs[1..], gone);
      assert CtxValues(cs)[1..] == CtxValues(cs[1..]);
      assert cs[0] in gone <==> cs[0].id in IdsOf(gone);
    }
  }

  lemma DistinctAfterDrop(es: seq<ProcEntry>, gone: seq<ProcEntry>)
    requires DistinctPids(es)
    ensures DistinctPids(Without(es, gone))
  {
    WithoutOneEach(es, EntryPid, gone);
    assert forall e :: EntryPid(e) == e.pid;
  }

  lemma DistinctIdsAfterDrop(cs: seq<ContextEntry>, gone: seq<ContextEntry>)
    requires DistinctIds(cs)
    ensures DistinctIds(Without(cs, gone))
  {
    WithoutOneEach(cs, EntryId, gone);
    assert forall c :: EntryId(c) == c.id;
  }

  /** Appending a new object and committing, on the list of objects and on its values. */
  lemma AppendedProc(items: seq<ProcEntry>, removing: seq<ProcEntry>, e: ProcEntry)
    requires WholePids(items, removing) && e !in items
    requires forall x :: x in removing ==> x in items
    ensures var all := Without(items + [e], removing);
            && ProcValues(all) == WithoutPids(ProcValues(items), PidsOf(removing)) + [e.Value()]
            && (forall i :: 0 <= i < |all| ==> all[i] in items + [e])
            && (DistinctPids(items) && e.pid !in PidsOf(items) ==> DistinctPids(all))
  {
    DropProcs(items, removing);
    WithoutConcat(items, [e], removing);
    assert [e][1..] == [];
    WithoutElements(items + [e], removing);
    if DistinctPids(items) && e.pid !in PidsOf(items) {
      DistinctAfterDrop(items + [e], removing);
    }
  }

  lemma AppendedCtx(items: seq<ContextEntry>, removing: seq<ContextEntry>, c: ContextEntry)
    requires DistinctIds(items) && c.id !in IdsOf(items)
    requires forall x :: x in removing ==> x in items
    ensures var all := Without(items + [c], removing);
            && CtxValues(all) == WithoutIds(CtxValues(items), IdsOf(removing)) + [c.Value()]
            && DistinctIds(all)
            && (forall i :: 0 <= i < |all| ==> all[i] in items + [c])
  {
    assert CtxValues(items + [c]) == CtxValues(items) + [c.Value()];
    assert c.id !in IdsOf(removing);
    assert DistinctIds(items + [c]);
    DropCtxs(items + [c], removing);
    DropConcat(CtxValues(items), [c.Value()], IdOf, IdsOf(removing));
    DistinctIdsAfterDrop(items + [c], removing);
    WithoutElements(items + [c], removing);
  }

  /** A step of a pass touches its own entry and no other. */
  lemma PassTouchesOne(r: Reg, change: Proc -> Proc, leaves: Proc -> bool, i: nat)
    requires i < |r.procs|
    ensures PassAt(r, change, leaves, i).procs == r.procs[i := change(r.procs[i])]
  {
  }

  class ProcRegistry {
    const config: Config
    const procList: SafeList<ProcEntry>
    const contextList: SafeList<ContextEntry>
    const queue: AsyncQueue<Action>

    /** What holds of the list also when a pid is listed twice. */
    ghost predicate ProcsLoose()
      reads procList, procList.items
    {
      && procList.adding == []
      && WholePids(procList.items, procList.removing)
      && (forall e :: e in procList.removing ==> e in procList.items)
      && (forall e :: e in procList.items ==> !e.updatePending)
    }

    ghost predicate CtxsValid()
      reads contextList
    {
      && contextList.adding == []
      && DistinctIds(contextList.items)
      && (forall c :: c in contextList.removing ==> c in contextList.items)
    }

    ghost predicate Loose()
      reads procList, procList.items, contextList
    {
      (procList as object) != contextList && ProcsLoose() && CtxsValid()
    }

    ghost predicate Valid()
      reads procList, procList.items, contextList
    {
      Loose() && DistinctPids(procList.items)
    }

    /** Whatever a step put on the lists is a new object. */
    twostate predicate OnlyNew()
      reads procList, contextList
    {
      && (forall i :: 0 <= i < |procList.items| ==>
            procList.items[i] in old(procList.items) || fresh(procList.items[i]))
      && (forall i :: 0 <= i < |contextList.items| ==>
            contextList.items[i] in old(contextList.items) || fresh(contextList.items[i]))
    }

    ghost function Abs(): Reg
      reads procList, procList.items, contextList, contextList.items, queue
    {
      Reg(ProcValues(procList.items), PidsOf(procList.removing),
          CtxValues(contextList.items), IdsOf(contextList.removing),
          queue.pending)
    }

    constructor (config: Config)
      ensures this.config == config
      ensures Valid() && Abs() == EMPTY && fresh(procList) && fresh(contextList) && fresh(queue)
    {
      this.config := config;
      procList := new SafeList();
      contextList := new SafeList();
      queue := new AsyncQueue();
    }

    method CommitProcList()
      requires Valid()
      modifies procList
      ensures Valid() && Abs() == CommitProcs(old(Abs()))
      ensures forall e :: e in procList.items ==> e in old(procList.items)
    {
      ghost var items, removing := procList.items, procList.removing;
      assert items + procList.adding == items;
      DropProcs(items, removing);
      DistinctAfterDrop(items, removing);
      WithoutElements(items, removing);
      procList.Commit();
    }

    method CommitContextList()
      requires Valid()
      modifies contextList
      ensures Valid() && Abs() == CommitCtxs(old(Abs()))
      ensures forall c :: c in contextList.items ==> c in old(contextList.items)
    {
      ghost var items, removing := contextList.items, contextList.removing;
      assert items + contextList.adding == items;
      DropCtxs(items, removing);
      DistinctIdsAfterDrop(items, removing);
      WithoutElements(items, removing);
      contextList.Commit();
    }

    method IsBlacklisted(name: string) returns (found: bool)
      ensures found == Blacklisted(config.blacklist, name)
    {
      for i := 0 to |config.blacklist|
        invariant forall j :: 0 <= j < i ==> !Contains(name, config.blacklist[j])
      {
        if Contains(name, config.blacklist[i]) {
          return true;
        }
      }
      return false;
    }

    method AppendProcEntry(e: ProcEntry)
      requires Loose() && e !in procList.items && !e.updatePending
      modifies procList
      ensures Loose()
      ensures old(Valid()) && e.pid !in old(PidsOf(procList.items)) ==> Valid()
      ensures Abs() == AppendProc(old(Abs()), e.Value())
      ensures forall x :: x in procList.items ==> x in old(procList.items) || x == e
      ensures PidsOf(procList.items) <= old(PidsOf(procList.items)) + {e.pid}
    {
      ghost var items, removing := procList.items, procList.removing;
      assert procList.items + (procList.adding + [e]) == items + [e];
      AppendedProc(items, removing, e);
      hide WithoutPids, Without, ProcValues, DistinctPids;
      procList.Append(e, true);
    }

    method AppendContextEntry(c: ContextEntry)
      requires Loose() && c !in contextList.items
      requires c.id !in IdsOf(contextList.items)
      modifies contextList
      ensures Loose() && (old(Valid()) ==> Valid())
      ensures Abs() == AppendCtx(old(Abs()), c.Value())
      ensures forall x :: x in contextList.items ==> x in old(contextList.items) || x == c
    {
      ghost var items, removing := contextList.items, contextList.removing;
      assert contextList.items + (contextList.adding + [c]) == items + [c];
      AppendedCtx(items, removing, c);
      hide WithoutIds, Without, CtxValues, DistinctPids, WholePids;
      contextList.Append(c, true);
    }

    method EnsureContext(procEntry: ProcEntry)
      requires Loose()
      modifies contextList
      ensures Loose() && (old(Valid()) ==> Valid())
      ensures Abs() == EnsureCtx(old(Abs()), procEntry.info.ctxId, procEntry.info.ctxName)
      ensures forall c :: c in contextList.items ==> c in old(contextList.items) || fresh(c)
    {
      hide DistinctPids, WholePids;
      var found := false;
      for i := 0 to |contextList.items|
        invariant found <==> exists j :: 0 <= j < i && contextList.items[j].id == procEntry.info.ctxId
      {
        if procEntry.info.ctxId == contextList.items[i].id {
          found := true;
        }
      }
      ValueIds(contextList.items);
      assert found <==> procEntry.info.ctxId in IdsOf(contextList.items);
      if !found {
        var ctxEntry := new ContextEntry(procEntry.info.ctxId, procEntry.info.ctxName);
        AppendContextEntry(ctxEntry);
      }
    }

    /** The entry is not created when its stat file does not yield one; it is created also for a pid
        that is listed already. */
    method CreateProcessEntry(pid: int, name: string, probe: Probe)
      requires Loose()
      requires probe.name == Some(name) && !Blacklisted(config.blacklist, name)
      modifies procList, contextList
      ensures Loose() && OnlyNew()
      ensures old(Valid()) && pid !in old(PidsOf(procList.items)) ==> Valid()
      ensures Abs() == Admit(old(Abs()), config, pid, probe)
      ensures PidsOf(procList.items) <= old(PidsOf(procList.items)) + {pid}
    {
      hide ReadInit, CommitProcs, CommitCtxs, AppendProc, EnsureCtx, DistinctPids, WholePids;
      var init := ReadInit(probe.stat);
      if init.None? {
        return;
      }
      var procEntry := new ProcEntry(pid, name, init.value, probe.ctxId, probe.ctxName);
      AppendProcEntry(procEntry);
      EnsureContext(procEntry);
    }

    /** The name is read and checked before an entry is created. */
    method TryCreate(pid: int, probe: Probe)
      requires Loose()
      modifies procList, contextList
      ensures Loose() && OnlyNew()
      ensures old(Valid()) && pid !in old(PidsOf(procList.items)) ==> Valid()
      ensures Abs() == Admit(old(Abs()), config, pid, probe)
      ensures PidsOf(procList.items) <= old(PidsOf(procList.items)) + {pid}
    {
      hide Create, DistinctPids, WholePids;
      if probe.name.Some? {
        var blacklisted := IsBlacklisted(probe.name.value);
        if !blacklisted {
          CreateProcessEntry(pid, probe.name.value, probe);
        }
      }
    }

    method AddProcEntry(pid: int, probe: Probe)
      requires Valid()
      modifies procList, contextList
      ensures Valid() && OnlyNew()
      ensures Abs() == Add(old(Abs()), config, pid, probe)
    {
      var found := false;
      for i := 0 to |procList.items|
        invariant found <==> exists j :: 0 <= j < i && procList.items[j].pid == pid
      {
        if procList.items[i].pid == pid {
          found := true;
        }
      }
      ValuePids(procList.items);
      assert found <==> pid in PidsOf(procList.items);
      if !found {
        TryCreate(pid, probe);
      }
    }

    method StageRemoval(e: ProcEntry)
      requires Valid() && e in procList.items
      modifies procList
      ensures Valid() && procList.items == old(procList.items)
      ensures Abs() == old(Abs()).(marked := old(Abs()).marked + {e.pid})
    {
      procList.Remove(e, false);
    }

    /** What the exec loop does to an entry of the right pid. */
    method UpdateName(e: ProcEntry, name: Option<string>)
      requires Valid() && e in procList.items
      modifies procList, e
      ensures Valid() && procList.items == old(procList.items)
      ensures forall i :: 0 <= i < |procList.items| && procList.items[i] == e ==>
                Abs() == UpdAt(old(Abs()), config, e.pid, name, i)
    {
      if name.None? || e.info.comm == name.value {
        return;
      }
      var blacklisted := IsBlacklisted(name.value);
      if blacklisted {
        StageRemoval(e);
      } else {
        e.SetName(name.value);
      }
    }

    method UpdProcEntry(pid: int, name: Option<string>)
      requires Valid()
      modifies procList, procList.items
      ensures Valid() && OnlyNew()
      ensures Abs() == Upd(old(Abs()), config, pid, name)
    {
      for i := 0 to |procList.items|
        invariant Valid() && procList.items == old(procList.items)
        invariant contextList.items == old(contextList.items)
        invariant UpdFrom(old(Abs()), config, pid, name, 0) == UpdFrom(Abs(), config, pid, name, i)
      {
        if procList.items[i].pid == pid {
          UpdateName(procList.items[i], name);
        }
      }
      CommitProcList();
    }

    method CommitOrPush(sync: bool)
      requires Valid()
      modifies procList, queue
      ensures Valid()
      ensures Abs() == if sync then CommitProcs(old(Abs())) else Push(old(Abs()), Action.CommitProcList)
      ensures forall e :: e in procList.items ==> e in old(procList.items)
      ensures !sync ==> procList.items == old(procList.items)
    {
      if sync {
        CommitProcList();
      } else {
        queue.Push(Action.CommitProcList);
      }
    }

    method RemProcEntry(pid: int, sync: bool)
      requires Valid()
      modifies procList, queue
      ensures Valid()
      ensures Abs() == Remove(old(Abs()), {pid}, sync)
      ensures forall e :: e in procList.items ==> e in old(procList.items)
      ensures !sync ==> procList.items == old(procList.items)
    {
      ghost var r := Abs();
      assert PidsOf(procList.items[..0]) == {};
      hide PidsOf, Pids;
      for i := 0 to |procList.items|
        invariant Valid() && procList.items == old(procList.items)
        invariant Abs() == r.(marked := r.marked + ({pid} * PidsOf(procList.items[..i])))
      {
        PidsOfPrefix(procList.items, i);
        if procList.items[i].pid == pid {
          StageRemoval(procList.items[i]);
        }
      }
      assert procList.items[..|procList.items|] == procList.items;
      ValuePids(procList.items);
      CommitOrPush(sync);
    }

    method RemProcEntryNamed(name: string, sync: bool)
      requires Valid()
      modifies procList, queue
      ensures Valid()
      ensures Abs() == Remove(old(Abs()), PidsNamed(old(Abs()).procs, name), sync)
      ensures forall e :: e in procList.items ==> e in old(procList.items)
    {
      hide PidsNamed, CommitProcs, Pids;
      ghost var r := Abs();
      PidsNamedStart(r.procs, name);
      for i := 0 to |procList.items|
        invariant Valid() && procList.items == old(procList.items)
        invariant Abs() == r.(marked := r.marked + PidsNamed(r.procs[..i], name))
      {
        if procList.items[i].info.comm == name {
          StageRemoval(procList.items[i]);
        }
        assert r.procs[i] == procList.items[i].Value();
        PidsNamedStep(r.procs, i, name);
      }
      assert r.procs[..|r.procs|] == r.procs;
      assert Abs() == Mark(r, PidsNamed(r.procs, name));
      CommitOrPush(sync);
    }

    method UpdateProcessList(found: seq<(int, Probe)>)
      requires Valid()
      modifies procList, contextList
      ensures Valid() && OnlyNew()
      ensures Abs() == Scan(old(Abs()), config, found)
    {
      hide Add;
      for i := 0 to |found|
        invariant Valid() && OnlyNew()
        invariant Scan(old(Abs()), config, found) == Scan(Abs(), config, found[i..])
      {
        AddProcEntry(found[i].0, found[i].1);
      }
    }

    /** The initial scan. It looks for no duplicates, so only a scan that finds each pid once, and none
        that is listed, keeps one entry per pid. */
    method InitFrom(found: seq<(int, Probe)>)
      requires Loose()
      modifies procList, contextList
      ensures Loose() && OnlyNew()
      ensures Abs() == InitFromProc(old(Abs()), config, found)
      ensures old(Valid()) && FoundOnce(found, old(PidsOf(procList.items))) ==> Valid()
    {
      hide Admit, DistinctPids, WholePids;
      ghost var once := Valid() && FoundOnce(found, PidsOf(procList.items));
      for i := 0 to |found|
        invariant Loose() && OnlyNew()
        invariant once ==> Valid() && FoundOnce(found[i..], PidsOf(procList.items))
        invariant InitFromProc(old(Abs()), config, found) == InitFromProc(Abs(), config, found[i..])
      {
        TryCreate(found[i].0, found[i].1);
        assert found[i..][1..] == found[i + 1..];
      }
    }

    method UpdateEntry(i: nat, readings: map<int, Reading>) returns (trapped: bool)
      requires Valid() && i < |procList.items|
      modifies procList, queue, procList.items[i]
      ensures trapped <==>
                DividesByZero(old(Abs()).procs[i], ReadingOf(readings, old(Abs()).procs[i].pid))
      ensures !trapped ==> Valid() && procList.items == old(procList.items)
      ensures !trapped ==> Abs() == PassAt(old(Abs()), ReadBy(readings), FailsBy(readings), i)
    {
      hide Update, Succeeds, DividesByZero;
      var entry := procList.items[i];
      var reading := ReadingOf(readings, entry.pid);
      var status;
      status, trapped := entry.UpdateProcInfo(reading);
      if trapped {
        return;
      }
      assert ProcValues(procList.items) == old(Abs()).procs[i := Update(old(Abs()).procs[i], reading)];
      if !status {
        RemProcEntry(entry.pid, false);
      }
    }

    /** `trapped` reports a division by zero, which stops the program on the spot. */
    method UpdateEntries(readings: map<int, Reading>) returns (trapped: bool)
      requires Valid()
      modifies procList, queue, procList.items
      ensures trapped <==> UpdateStops(old(Abs()), readings)
      ensures !trapped ==> Valid() && procList.items == old(procList.items)
      ensures !trapped ==> Abs() == UpdateAll(old(Abs()), readings)
    {
      hide PassAt, DividesByZero, DistinctPids, DistinctIds, WholePids;
      ghost var r, change, leaves := Abs(), ReadBy(readings), FailsBy(readings);
      for i := 0 to |procList.items|
        invariant Valid() && procList.items == old(procList.items)
        invariant PassFrom(r, change, leaves, 0) == PassFrom(Abs(), change, leaves, i)
        invariant forall j :: i <= j < |r.procs| ==> Abs().procs[j] == r.procs[j]
        invariant forall j :: 0 <= j < i ==>
                    !DividesByZero(r.procs[j], ReadingOf(readings, r.procs[j].pid))
      {
        ghost var s := Abs();
        trapped := UpdateEntry(i, readings);
        if trapped {
          return;
        }
        PassTouchesOne(s, change, leaves, i);
      }
      trapped := false;
    }

    method AskEntry(i: nat, wanted: bool, refused: set<int>)
      requires Valid() && i < |procList.items|
      modifies procList, queue, procList.items[i]
      ensures Valid() && procList.items == old(procList.items)
      ensures Abs() == PassAt(old(Abs()), AskedBy(wanted), DeniedBy(wanted, refused), i)
    {
      var entry := procList.items[i];
      var status := entry.UpdateProcAcct(wanted, entry.pid !in refused);
      assert ProcValues(procList.items) == old(Abs()).procs[i := AskedBy(wanted)(old(Abs()).procs[i])];
      if !status {
        RemProcEntry(entry.pid, false);
      }
    }

    /** The accounting pass; whether the kernel refuses a request is an input. */
    method UpdateAccounting(wanted: bool, refused: set<int>)
      requires Valid()
      modifies procList, queue, procList.items
      ensures Valid() && procList.items == old(procList.items)
      ensures Abs() == AcctAll(old(Abs()), wanted, refused)
    {
      hide PassAt;
      ghost var change, leaves := AskedBy(wanted), DeniedBy(wanted, refused);
      for i := 0 to |procList.items|
        invariant Valid() && procList.items == old(procList.items)
        invariant PassFrom(old(Abs()), change, leaves, 0) == PassFrom(Abs(), change, leaves, i)
      {
        AskEntry(i, wanted, refused);
      }
    }

    method GetProcEntry(pid: int) returns (entry: ProcEntry?, ghost i: int)
      requires Valid()
      ensures i == LastPlace(Abs().procs, pid)
      ensures if i < 0 then entry == null else entry == procList.items[i]
    {
      entry, i := null, -1;
      for k := 0 to |procList.items|
        invariant i == LastPlace(Abs().procs[..k], pid)
        invariant if i < 0 then entry == null else entry == procList.items[i]
      {
        assert Abs().procs[..k + 1][..k] == Abs().procs[..k];
        assert Abs().procs[k] == procList.items[k].Value();
        if procList.items[k].pid == pid {
          entry, i := procList.items[k], k;
        }
      }
      assert Abs().procs[..|procList.items|] == Abs().procs;
    }

    /** An accounting record from the kernel. */
    method AnswerAcct(pid: int, record: seq<nat>)
      requires Valid()
      modifies procList.items
      ensures Valid() && Abs() == Answer(old(Abs()), pid, record)
    {
      hide LastPlace;
      var entry;
      ghost var i;
      entry, i := GetProcEntry(pid);
      if entry != null {
        entry.SetAcct(record);
        assert ProcValues(procList.items)
            == old(Abs()).procs[i := old(Abs()).procs[i].(acct := Acct(record, false))];
      }
    }

    method UpdateLane(lane: Lane, found: seq<(int, Probe)>, readings: map<int, Reading>, wanted: bool,
                      refused: set<int>) returns (trapped: bool)
      requires Valid()
      modifies procList, contextList, queue, procList.items, contextList.items
      ensures trapped <==> Stops(old(Abs()), config, Tick(lane, found, readings, wanted, refused))
      ensures !trapped ==> Valid() && OnlyNew()
      ensures !trapped ==> Abs() == LaneTick(old(Abs()), config, lane, found, readings, wanted, refused)
    {
      hide Scan, UpdateAll, AcctAll, UpdateStops;
      trapped := false;
      if !(config.procEvent && config.updateOnProcEvent) {
        UpdateProcessList(found);
      }
      match lane
      case Fast =>
      case Pace => trapped := UpdateEntries(readings);
      case Slow =>
        if config.procAcct {
          UpdateAccounting(wanted, refused);
        }
    }

    /** The inner loop of a context report. */
    method SumContext(c: ContextEntry) returns (found: bool)
      requires Valid() && c in contextList.items
      modifies c
      ensures Valid()
      ensures c.totals == TotalsFor(ProcValues(procList.items), c.id)
      ensures found <==> c.id in CtxIdsOf(ProcValues(procList.items))
      ensures ProcValues(procList.items) == old(ProcValues(procList.items))
    {
      hide TotalsFor, Accumulated;
      c.ResetData();
      found := false;
      ghost var ps := ProcValues(procList.items);
      NoTotals(ps, c.id);
      for k := 0 to |procList.items|
        invariant Valid() && ProcValues(procList.items) == ps
        invariant c.totals == TotalsFor(ps[..k], c.id)
        invariant found <==> exists j :: 0 <= j < k && ps[j].info.ctxId == c.id
      {
        TotalsStep(ps, k, c.id);
        assert ps[k] == procList.items[k].Value();
        if c.id == procList.items[k].info.ctxId {
          c.Accumulate(procList.items[k]);
          found := true;
        }
      }
      assert ps[..|ps|] == ps;
      assert forall j :: 0 <= j < |ps| ==> ps[j] in ps;
    }

    method RecountContext(i: nat)
      requires Valid() && i < |contextList.items|
      modifies contextList, contextList.items[i]
      ensures Valid() && contextList.items == old(contextList.items)
      ensures Abs() == RecountAt(old(Abs()), i)
    {
      hide TotalsFor, CtxIdsOf;
      var ctxEntry := contextList.items[i];
      var found := SumContext(ctxEntry);
      assert CtxValues(contextList.items)
          == old(Abs()).ctxs[i := ctxEntry.Value()];
      if !found {
        contextList.Remove(ctxEntry, false);
      }
    }

    /** The report sends the contexts after counting, including those it has just staged. */
    method CollectAndSendContextInfo() returns (sent: seq<Ctx>)
      requires Valid()
      modifies contextList, contextList.items, queue
      ensures Valid() && contextList.items == old(contextList.items)
      ensures Abs() == Report(old(Abs())) && sent == Abs().ctxs
    {
      hide RecountAt;
      for i := 0 to |contextList.items|
        invariant Valid() && contextList.items == old(contextList.items)
        invariant queue.pending == old(queue.pending)
        invariant RecountFrom(old(Abs()), 0) == RecountFrom(Abs(), i)
      {
        RecountContext(i);
      }
      queue.Push(Action.CommitContextList);
      sent := CtxValues(contextList.items);
    }

    /** The report sends all listed entries. */
    method CollectAndSendProcInfo() returns (sent: seq<Info>)
      requires Valid()
      ensures sent == Infos(Abs().procs)
    {
      sent := [];
      for i := 0 to |procList.items|
        invariant sent == Infos(Abs().procs[..i])
      {
        assert Abs().procs[i] == procList.items[i].Value();
        sent := sent + [procList.items[i].info];
      }
      assert Abs().procs[..|procList.items|] == Abs().procs;
    }

    /** The report sends one message for every listed entry, if there is accounting. */
    method CollectAndSendProcAcct() returns (sent: seq<seq<nat>>)
      requires Valid()
      ensures sent == Records(Abs().procs)
    {
      sent := [];
      for i := 0 to |procList.items|
        invariant sent == Records(Abs().procs[..i])
      {
        assert Abs().procs[i] == procList.items[i].Value();
        sent := sent + [procList.items[i].acct.record];
      }
      assert Abs().procs[..|procList.items|] == Abs().procs;
    }

    /** One step of the request queue, and what it sends. */
    method HandleNext() returns (sent: Sent)
      requires Valid() && queue.pending != []
      modifies procList, contextList, queue, procList.items, contextList.items
      ensures Valid() && OnlyNew()
      ensures Abs() == Handle(old(Abs())) && sent == SentBy(old(Abs()), config)
    {
      hide Report, CommitProcs, CommitCtxs, Infos, Records;
      var action := queue.Pop();
      sent := Nothing;
      match action
      case CommitProcList => CommitProcList();
      case CommitContextList => CommitContextList();
      case CollectAndSendProcAcct =>
        if config.procAcct {
          var records := CollectAndSendProcAcct();
          sent := ProcAcct(records);
        }
      case CollectAndSendProcInfo =>
        var entries := CollectAndSendProcInfo();
        sent := ProcInfo(entries);
      case CollectAndSendContextInfo =>
        var contexts := CollectAndSendContextInfo();
        sent := ContextInfo(contexts);
    }
  }
}
