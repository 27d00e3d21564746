/** What holds of the registry in every run. */
module RegistryProofs {
  import opened Words
  import opened Keyed
  import opened Text
  import opened StatLine
  import opened ProcEntries
  import opened Registry

  // ---- The invariant ----

  ghost predicate OnePerPid(ps: seq<Proc>) { OneEach(ps, PidOf) }

  ghost predicate OnePerId(cs: seq<Ctx>) { OneEach(cs, IdOf) }

  ghost predicate Clean(ps: seq<Proc>, keys: seq<string>) {
    forall i :: 0 <= i < |ps| ==> !Blacklisted(keys, ps[i].info.comm)
  }

  /** One entry per pid and per context id, staged removals are of listed entries and have a commit
      request queued, and no listed name contains a blacklist key. */
  ghost predicate Inv(r: Reg, cfg: Config) {
    && OnePerPid(r.procs)
    && OnePerId(r.ctxs)
    && r.marked <= Pids(r.procs)
    && r.ctxMarked <= Ids(r.ctxs)
    && (r.marked != {} ==> CommitProcList in r.queue)
    && (r.ctxMarked != {} ==> CommitContextList in r.queue)
    && Clean(r.procs, cfg.blacklist)
  }

  // ---- Removing from the lists ----

  lemma PidKeys(ps: seq<Proc>)
    ensures KeysOf(ps, PidOf) == Pids(ps)
    ensures OneEach(ps, PidOf) <==> OnePerPid(ps)
  {
    forall p | p in ps
      ensures p.pid in KeysOf(ps, PidOf)
    {
      var i :| 0 <= i < |ps| && ps[i] == p;
      assert PidOf(ps[i]) == p.pid;
    }
    assert forall i :: 0 <= i < |ps| ==> PidOf(ps[i]) == ps[i].pid && ps[i] in ps;
  }

  lemma IdKeys(cs: seq<Ctx>)
    ensures KeysOf(cs, IdOf) == Ids(cs)
    ensures OneEach(cs, IdOf) <==> OnePerId(cs)
  {
    forall c | c in cs
      ensures c.id in KeysOf(cs, IdOf)
    {
      var i :| 0 <= i < |cs| && cs[i] == c;
      assert IdOf(cs[i]) == c.id;
    }
    assert forall i :: 0 <= i < |cs| ==> IdOf(cs[i]) == cs[i].id && cs[i] in cs;
  }

  lemma WithoutPidsFacts(ps: seq<Proc>, gone: set<int>)
    ensures var rest := WithoutPids(ps, gone);
            && (forall i :: 0 <= i < |rest| ==> rest[i] in ps && rest[i].pid !in gone)
            && (forall i :: 0 <= i < |ps| && ps[i].pid !in gone ==> ps[i] in rest)
    ensures Pids(WithoutPids(ps, gone)) == Pids(ps) - gone
    ensures OnePerPid(ps) ==> OnePerPid(WithoutPids(ps, gone))
  {
    hide OneEach, OnePerPid, KeysOf, Pids, Drop;
    DropFacts(ps, PidOf, gone);
    PidKeys(ps);
    PidKeys(WithoutPids(ps, gone));
    assert forall p :: PidOf(p) == p.pid;
  }

  lemma WithoutIdsFacts(cs: seq<Ctx>, gone: set<U64>)
    ensures var rest := WithoutIds(cs, gone);
            && (forall i :: 0 <= i < |rest| ==> rest[i] in cs && rest[i].id !in gone)
            && (forall i :: 0 <= i < |cs| && cs[i].id !in gone ==> cs[i] in rest)
    ensures Ids(WithoutIds(cs, gone)) == Ids(cs) - gone
    ensures OnePerId(cs) ==> OnePerId(WithoutIds(cs, gone))
  {
    hide OneEach, OnePerId, KeysOf, Ids, Drop;
    DropFacts(cs, IdOf, gone);
    IdKeys(cs);
    IdKeys(WithoutIds(cs, gone));
    assert forall c :: IdOf(c) == c.id;
  }

  lemma AppendedPids(ps: seq<Proc>, p: Proc)
    ensures Pids(ps + [p]) == Pids(ps) + {p.pid}
  {
    KeysAppended(ps, PidOf, p);
    PidKeys(ps);
    PidKeys(ps + [p]);
  }

  lemma AppendedIds(cs: seq<Ctx>, c: Ctx)
    ensures Ids(cs + [c]) == Ids(cs) + {c.id}
  {
    KeysAppended(cs, IdOf, c);
    IdKeys(cs);
    IdKeys(cs + [c]);
  }

  /** Entries that keep their pids. */
  lemma SamePids(ps: seq<Proc>, qs: seq<Proc>)
    requires |ps| == |qs| && forall j :: 0 <= j < |ps| ==> qs[j].pid == ps[j].pid
    ensures Pids(qs) == Pids(ps)
    ensures OnePerPid(ps) ==> OnePerPid(qs)
  {
    hide OneEach, OnePerPid, KeysOf, Pids;
    KeysReplaced(ps, qs, PidOf);
    PidKeys(ps);
    PidKeys(qs);
  }

  lemma SameIds(cs: seq<Ctx>, ds: seq<Ctx>)
    requires |cs| == |ds| && forall j :: 0 <= j < |cs| ==> cs[j].id == ds[j].id
    ensures Ids(ds) == Ids(cs)
    ensures OnePerId(cs) ==> OnePerId(ds)
  {
    hide OneEach, OnePerId, KeysOf, Ids;
    KeysReplaced(cs, ds, IdOf);
    IdKeys(cs);
    IdKeys(ds);
  }

  // ---- The invariant under each operation ----

  lemma CommitProcsInv(r: Reg, cfg: Config)
    requires Inv(r, cfg)
    ensures Inv(CommitProcs(r), cfg)
  {
    WithoutPidsFacts(r.procs, r.marked);
    CleanSubset(WithoutPids(r.procs, r.marked), r.procs, cfg.blacklist);
  }

  lemma CleanSubset(qs: seq<Proc>, ps: seq<Proc>, keys: seq<string>)
    requires forall i :: 0 <= i < |qs| ==> qs[i] in ps
    requires Clean(ps, keys)
    ensures Clean(qs, keys)
  {
    hide Blacklisted;
    forall i | 0 <= i < |qs|
      ensures !Blacklisted(keys, qs[i].info.comm)
    {
      var k :| 0 <= k < |ps| && ps[k] == qs[i];
    }
  }

  lemma CommitCtxsInv(r: Reg, cfg: Config)
    requires Inv(r, cfg)
    ensures Inv(CommitCtxs(r), cfg)
  {
    hide Clean, OnePerPid, Pids;
    WithoutIdsFacts(r.ctxs, r.ctxMarked);
  }

  lemma EnsureCtxInv(r: Reg, cfg: Config, id: U64, name: string)
    requires Inv(r, cfg)
    ensures Inv(EnsureCtx(r, id, name), cfg)
  {
    hide Clean, OnePerPid, Pids;
    if id !in Ids(r.ctxs) {
      var r' := CommitCtxs(r);
      WithoutIdsFacts(r.ctxs, r.ctxMarked);
      AppendedIds(r'.ctxs, Ctx(id, name, NO_TOTALS));
      forall i | 0 <= i < |r'.ctxs|
        ensures r'.ctxs[i].id != id
      {
        assert r'.ctxs[i] in r.ctxs;
      }
    }
  }

  lemma AppendProcInv(r: Reg, cfg: Config, p: Proc)
    requires Inv(r, cfg) && p.pid !in Pids(r.procs)
    requires !Blacklisted(cfg.blacklist, p.info.comm)
    ensures Inv(AppendProc(r, p), cfg)
  {
    hide OnePerId, Ids, Blacklisted;
    CommitProcsInv(r, cfg);
    var r' := CommitProcs(r);
    WithoutPidsFacts(r.procs, r.marked);
    AppendedPids(r'.procs, p);
    forall i | 0 <= i < |r'.procs|
      ensures r'.procs[i].pid != p.pid
    {
      assert r'.procs[i] in r.procs;
    }
  }

  lemma AdmitInv(r: Reg, cfg: Config, pid: int, probe: Probe)
    requires Inv(r, cfg) && pid !in Pids(r.procs)
    ensures Inv(Admit(r, cfg, pid, probe), cfg)
  {
    hide Inv, ReadInit, AppendProc, EnsureCtx, Blacklisted;
    if Admits(cfg, probe) {
      var p := Entry(pid, probe);
      AppendProcInv(r, cfg, p);
      EnsureCtxInv(AppendProc(r, p), cfg, p.info.ctxId, p.info.ctxName);
    }
  }

  lemma {:induction false} ScanInv(r: Reg, cfg: Config, found: seq<(int, Probe)>)
    requires Inv(r, cfg)
    ensures Inv(Scan(r, cfg, found), cfg)
    decreases |found|
  {
    hide Inv, Admit;
    if found != [] {
      if found[0].0 !in Pids(r.procs) {
        AdmitInv(r, cfg, found[0].0, found[0].1);
      }
      ScanInv(Add(r, cfg, found[0].0, found[0].1), cfg, found[1..]);
    }
  }

  /** The initial scan of a directory that lists each pid once. */
  lemma {:induction false} InitInv(r: Reg, cfg: Config, found: seq<(int, Probe)>)
    requires Inv(r, cfg)
    requires FoundOnce(found, Pids(r.procs))
    ensures Inv(InitFromProc(r, cfg, found), cfg)
    decreases |found|
  {
    hide Inv, Admit;
    if found != [] {
      AdmitInv(r, cfg, found[0].0, found[0].1);
      AdmitPids(r, cfg, found[0].0, found[0].1);
      InitInv(Admit(r, cfg, found[0].0, found[0].1), cfg, found[1..]);
    }
  }

  lemma AdmitPids(r: Reg, cfg: Config, pid: int, probe: Probe)
    ensures Pids(Admit(r, cfg, pid, probe).procs) <= Pids(r.procs) + {pid}
  {
    hide ReadInit, Blacklisted;
    WithoutPidsFacts(r.procs, r.marked);
    if Admits(cfg, probe) {
      AppendedPids(WithoutPids(r.procs, r.marked), Entry(pid, probe));
    }
  }

  /** The pids of a scan that lead to an entry. */
  function Admitted(cfg: Config, found: seq<(int, Probe)>): seq<int> {
    if found == [] then []
    else (if Admits(cfg, found[0].1) then [found[0].0] else []) + Admitted(cfg, found[1..])
  }

  function PidsInOrder(ps: seq<Proc>): seq<int> { seq(|ps|, i requires 0 <= i < |ps| => ps[i].pid) }

  lemma {:induction false} InitListsAdmitted(r: Reg, cfg: Config, found: seq<(int, Probe)>)
    requires r.marked == {}
    ensures PidsInOrder(InitFromProc(r, cfg, found).procs) == PidsInOrder(r.procs) + Admitted(cfg, found)
    decreases |found|
  {
    hide Admits, ReadInit;
    if found != [] {
      var r' := Admit(r, cfg, found[0].0, found[0].1);
      DropNothing(r.procs, PidOf);
      InitListsAdmitted(r', cfg, found[1..]);
      if Admits(cfg, found[0].1) {
        assert PidsInOrder(r'.procs) == PidsInOrder(r.procs) + [found[0].0];
        assert (PidsInOrder(r.procs) + [found[0].0]) + Admitted(cfg, found[1..])
            == PidsInOrder(r.procs) + Admitted(cfg, found);
      } else {
        assert Admitted(cfg, found) == Admitted(cfg, found[1..]);
      }
    }
  }

  /** The initial scan lists the admitted pids in order, so it leaves one entry per pid if and only if
      no admitted pid was found twice. */
  lemma InitOnceIff(cfg: Config, found: seq<(int, Probe)>)
    ensures var ps, pids := InitFromProc(EMPTY, cfg, found).procs, Admitted(cfg, found);
            && PidsInOrder(ps) == pids
            && (OnePerPid(ps) <==> forall i, j :: 0 <= i < j < |pids| ==> pids[i] != pids[j])
  {
    hide OnePerPid, InitFromProc, Admits, PidsInOrder;
    InitListsAdmitted(EMPTY, cfg, found);
    NoPids();
    assert [] + Admitted(cfg, found) == Admitted(cfg, found);
    OnceIff(InitFromProc(EMPTY, cfg, found).procs);
  }

  lemma NoPids()
    ensures PidsInOrder([]) == []
  {
  }

  lemma OnceIff(ps: seq<Proc>)
    ensures var pids := PidsInOrder(ps);
            OnePerPid(ps) <==> forall i, j :: 0 <= i < j < |pids| ==> pids[i] != pids[j]
  {
    assert forall i :: 0 <= i < |ps| ==> PidsInOrder(ps)[i] == ps[i].pid;
  }

  // ---- Exec, in closed form ----

  lemma {:induction false} UpdFromAbsent(r: Reg, cfg: Config, pid: int, name: Option<string>, i: nat)
    requires i <= |r.procs|
    requires forall j :: i <= j < |r.procs| ==> r.procs[j].pid != pid
    ensures UpdFrom(r, cfg, pid, name, i) == r
    decreases |r.procs| - i
  {
    if i < |r.procs| {
      UpdFromAbsent(r, cfg, pid, name, i + 1);
    }
  }

  lemma {:induction false} UpdFromPresent(r: Reg, cfg: Config, pid: int, name: Option<string>, i: nat, k: nat)
    requires i <= k < |r.procs| && OnePerPid(r.procs) && r.procs[k].pid == pid
    ensures UpdFrom(r, cfg, pid, name, i) == UpdAt(r, cfg, pid, name, k)
    decreases |r.procs| - i
  {
    hide Blacklisted;
    if i == k {
      UpdFromAbsent(UpdAt(r, cfg, pid, name, k), cfg, pid, name, k + 1);
    } else {
      assert r.procs[i].pid != pid;
      UpdFromPresent(r, cfg, pid, name, i + 1, k);
    }
  }

  /** At most one entry is touched by an exec. */
  lemma UpdShape(r: Reg, cfg: Config, pid: int, name: Option<string>)
    requires OnePerPid(r.procs)
    ensures pid !in Pids(r.procs) ==> UpdFrom(r, cfg, pid, name, 0) == r
    ensures forall k :: 0 <= k < |r.procs| && r.procs[k].pid == pid ==>
              UpdFrom(r, cfg, pid, name, 0) == UpdAt(r, cfg, pid, name, k)
  {
    if pid !in Pids(r.procs) {
      forall j | 0 <= j < |r.procs|
        ensures r.procs[j].pid != pid
      {
        assert r.procs[j] in r.procs;
      }
      UpdFromAbsent(r, cfg, pid, name, 0);
    } else {
      forall k | 0 <= k < |r.procs| && r.procs[k].pid == pid
        ensures UpdFrom(r, cfg, pid, name, 0) == UpdAt(r, cfg, pid, name, k)
      {
        UpdFromPresent(r, cfg, pid, name, 0, k);
      }
    }
  }

  lemma UpdInv(r: Reg, cfg: Config, pid: int, name: Option<string>)
    requires Inv(r, cfg)
    ensures Inv(Upd(r, cfg, pid, name), cfg)
  {
    hide Blacklisted, CommitProcs;
    UpdShape(r, cfg, pid, name);
    if pid !in Pids(r.procs) {
      CommitProcsInv(r, cfg);
    } else {
      var p :| p in r.procs && p.pid == pid;
      var k :| 0 <= k < |r.procs| && r.procs[k] == p;
      if name.None? || p.info.comm == name.value {
        CommitProcsInv(r, cfg);
      } else if Blacklisted(cfg.blacklist, name.value) {
        MarkThenCommit(r, cfg, {pid});
      } else {
        var p' := p.(info := p.info.(comm := name.value));
        SamePids(r.procs, r.procs[k := p']);
        CommitProcsInv(r.(procs := r.procs[k := p']), cfg);
      }
    }
  }

  // ---- Removal ----

  lemma MarkThenCommit(r: Reg, cfg: Config, pids: set<int>)
    requires Inv(r, cfg)
    ensures Inv(CommitProcs(Mark(r, pids)), cfg)
    ensures CommitProcs(r.(marked := r.marked + pids)) == CommitProcs(Mark(r, pids))
  {
    hide Blacklisted, OnePerId, Ids;
    var gone := Mark(r, pids).marked;
    WithoutPidsFacts(r.procs, gone);
    CleanSubset(WithoutPids(r.procs, gone), r.procs, cfg.blacklist);
    assert forall i :: 0 <= i < |r.procs| ==> r.procs[i] in r.procs;
    DropSame(r.procs, PidOf, r.marked + pids, gone);
  }

  lemma RemoveInv(r: Reg, cfg: Config, pids: set<int>, sync: bool)
    requires Inv(r, cfg)
    ensures Inv(Remove(r, pids, sync), cfg)
  {
    hide Blacklisted;
    if sync {
      MarkThenCommit(r, cfg, pids);
    } else {
      assert (r.queue + [CommitProcList])[|r.queue|] == CommitProcList;
    }
  }

  // ---- Passes, in closed form ----

  /** A change that leaves pid, name and context alone. */
  ghost predicate KeepsIdentity(change: Proc -> Proc) {
    forall p :: && change(p).pid == p.pid
                && change(p).info.comm == p.info.comm
                && change(p).info.ctxId == p.info.ctxId
  }

  lemma PassesKeepIdentity(readings: map<int, Reading>, wanted: bool)
    ensures KeepsIdentity(ReadBy(readings)) && KeepsIdentity(AskedBy(wanted))
  {
    hide ReadTicks;
  }

  function LeavingPids(ps: seq<Proc>, leaves: Proc -> bool): set<int> {
    set p | p in ps && leaves(p) :: p.pid
  }

  lemma LeavingFirst(ps: seq<Proc>, leaves: Proc -> bool)
    ensures ps == [] ==> LeavingPids(ps, leaves) == {}
    ensures ps != [] ==>
              LeavingPids(ps, leaves)
              == (if leaves(ps[0]) then {ps[0].pid} else {}) + LeavingPids(ps[1..], leaves)
  {
    if ps != [] {
      assert ps == [ps[0]] + ps[1..];
    }
  }

  /** After a pass every entry is changed, exactly the leaving pids are marked as well, and a commit is
      queued if there is one. */
  lemma {:induction false} PassShape(r: Reg, change: Proc -> Proc, leaves: Proc -> bool, i: nat)
    requires i <= |r.procs| && KeepsIdentity(change)
    ensures var r' := PassFrom(r, change, leaves, i);
            && |r'.procs| == |r.procs|
            && (forall j :: 0 <= j < i ==> r'.procs[j] == r.procs[j])
            && (forall j :: i <= j < |r.procs| ==> r'.procs[j] == change(r.procs[j]))
            && r'.marked == r.marked + LeavingPids(r.procs[i..], leaves)
            && r'.ctxs == r.ctxs && r'.ctxMarked == r.ctxMarked
            && r.queue <= r'.queue
            && (LeavingPids(r.procs[i..], leaves) != {} ==> CommitProcList in r'.queue)
    decreases |r.procs| - i
  {
    hide LeavingPids;
    LeavingFirst(r.procs[i..], leaves);
    if i < |r.procs| {
      var r1 := PassAt(r, change, leaves, i);
      assert r.procs[i..][1..] == r.procs[i + 1..];
      assert r1.procs[i + 1..] == r.procs[i + 1..];
      PassMarks(r, change, leaves, i);
      PassShape(r1, change, leaves, i + 1);
      if leaves(r.procs[i]) {
        assert r1.queue[|r.queue|] == CommitProcList;
      }
    }
  }

  lemma PassMarks(r: Reg, change: Proc -> Proc, leaves: Proc -> bool, i: nat)
    requires i < |r.procs| && KeepsIdentity(change)
    ensures PassAt(r, change, leaves, i).marked
         == r.marked + (if leaves(r.procs[i]) then {r.procs[i].pid} else {})
  {
    var p := r.procs[i];
    SamePids(r.procs, r.procs[i := change(p)]);
    assert p in r.procs;
  }

  /** The names and contexts of a list are those of another one, entry by entry. */
  ghost predicate SameIdentity(ps: seq<Proc>, qs: seq<Proc>) {
    |ps| == |qs| && forall j :: 0 <= j < |ps| ==>
      && qs[j].pid == ps[j].pid
      && qs[j].info.comm == ps[j].info.comm
      && qs[j].info.ctxId == ps[j].info.ctxId
  }

  lemma SameIdentityKeeps(ps: seq<Proc>, qs: seq<Proc>, keys: seq<string>)
    requires SameIdentity(ps, qs)
    ensures Pids(qs) == Pids(ps)
    ensures OnePerPid(ps) ==> OnePerPid(qs)
    ensures Clean(ps, keys) ==> Clean(qs, keys)
  {
    hide Blacklisted, OnePerPid, Pids;
    SamePids(ps, qs);
  }

  lemma PassKeepsIdentity(r: Reg, change: Proc -> Proc, leaves: Proc -> bool)
    requires KeepsIdentity(change)
    ensures SameIdentity(r.procs, PassFrom(r, change, leaves, 0).procs)
  {
    hide LeavingPids;
    PassShape(r, change, leaves, 0);
  }

  lemma PassInv(r: Reg, cfg: Config, change: Proc -> Proc, leaves: Proc -> bool)
    requires Inv(r, cfg) && KeepsIdentity(change)
    ensures Inv(PassFrom(r, change, leaves, 0), cfg)
  {
    hide Clean, OnePerPid, OnePerId, SameIdentity, KeepsIdentity;
    PassShape(r, change, leaves, 0);
    PassKeepsIdentity(r, change, leaves);
    SameIdentityKeeps(r.procs, PassFrom(r, change, leaves, 0).procs, cfg.blacklist);
    assert r.procs[0..] == r.procs;
  }

  lemma TickInv(r: Reg, cfg: Config, lane: Lane, found: seq<(int, Probe)>, readings: map<int, Reading>,
                wanted: bool, refused: set<int>)
    requires Inv(r, cfg)
    ensures Inv(LaneTick(r, cfg, lane, found, readings, wanted, refused), cfg)
  {
    hide Inv, Scan, PassFrom, KeepsIdentity, ReadBy, FailsBy, AskedBy, DeniedBy;
    ScanInv(r, cfg, found);
    PassesKeepIdentity(readings, wanted);
    PassInv(TickScan(r, cfg, found), cfg, ReadBy(readings), FailsBy(readings));
    PassInv(TickScan(r, cfg, found), cfg, AskedBy(wanted), DeniedBy(wanted, refused));
  }

  lemma AnswerInv(r: Reg, cfg: Config, pid: int, record: seq<nat>)
    requires Inv(r, cfg)
    ensures Inv(Answer(r, pid, record), cfg)
    ensures SameIdentity(r.procs, Answer(r, pid, record).procs)
  {
    hide Clean, OnePerPid, OnePerId, LastPlace, Pids;
    SameIdentityKeeps(r.procs, Answer(r, pid, record).procs, cfg.blacklist);
  }

  // ---- Context report, in closed form ----

  /** The contexts of `cs` that none of the processes belongs to. */
  function Unused(cs: seq<Ctx>, ps: seq<Proc>): set<U64> { Ids(cs) - CtxIdsOf(ps) }

  lemma UnusedFirst(cs: seq<Ctx>, ps: seq<Proc>)
    ensures cs == [] ==> Unused(cs, ps) == {}
    ensures cs != [] ==>
              Unused(cs, ps)
              == Unused(cs[1..], ps) + (if cs[0].id in CtxIdsOf(ps) then {} else {cs[0].id})
  {
    hide CtxIdsOf;
    if cs != [] {
      assert cs == [cs[0]] + cs[1..];
    }
  }

  lemma {:induction false} RecountShape(r: Reg, i: nat)
    requires i <= |r.ctxs|
    ensures var r' := RecountFrom(r, i);
            && |r'.ctxs| == |r.ctxs|
            && (forall j :: 0 <= j < i ==> r'.ctxs[j] == r.ctxs[j])
            && (forall j :: i <= j < |r.ctxs| ==>
                  r'.ctxs[j] == r.ctxs[j].(totals := TotalsFor(r.procs, r.ctxs[j].id)))
            && r'.ctxMarked == r.ctxMarked + Unused(r.ctxs[i..], r.procs)
            && r'.procs == r.procs && r'.marked == r.marked && r'.queue == r.queue
    decreases |r.ctxs| - i
  {
    hide TotalsFor, CtxIdsOf, Ids, Unused;
    UnusedFirst(r.ctxs[i..], r.procs);
    if i < |r.ctxs| {
      var r1 := RecountAt(r, i);
      assert r1.ctxs[i + 1..] == r.ctxs[i..][1..];
      RecountShape(r1, i + 1);
    }
  }

  lemma ReportIds(r: Reg)
    ensures Ids(RecountFrom(r, 0).ctxs) == Ids(r.ctxs)
    ensures OnePerId(r.ctxs) ==> OnePerId(RecountFrom(r, 0).ctxs)
    ensures RecountFrom(r, 0).ctxMarked == r.ctxMarked + Unused(r.ctxs, r.procs)
  {
    hide TotalsFor, CtxIdsOf, Unused, OnePerId;
    RecountShape(r, 0);
    SameIds(r.ctxs, RecountFrom(r, 0).ctxs);
    assert r.ctxs[0..] == r.ctxs;
  }

  lemma ReportInv(r: Reg, cfg: Config)
    requires Inv(r, cfg)
    ensures Inv(Report(r), cfg)
  {
    hide Clean, OnePerPid, OnePerId, Pids;
    RecountShape(r, 0);
    ReportIds(r);
    assert Report(r).queue[|r.queue|] == CommitContextList;
  }

  // ---- Every step and every run ----

  /** Popping a commit request is safe because the commit it asks for is done at once. */
  lemma HandleInv(r: Reg, cfg: Config)
    requires Inv(r, cfg) && r.queue != []
    ensures Inv(Handle(r), cfg)
  {
    hide Clean, OnePerPid, OnePerId, Pids, Ids;
    var r' := r.(queue := r.queue[1..]);
    assert r.queue == [r.queue[0]] + r.queue[1..];
    match r.queue[0]
    case CommitProcList => CommitProcsInv(r, cfg);
    case CommitContextList => CommitCtxsInv(r, cfg);
    case CollectAndSendContextInfo => ReportInv(r', cfg);
    case _ =>
  }

  lemma NextInv(r: Reg, cfg: Config, e: Event)
    requires Inv(r, cfg)
    ensures Inv(Next(r, cfg, e), cfg)
  {
    hide Inv, Admit, Upd, Remove, Scan, LaneTick, Answer, Handle, PidsNamed;
    match e
    case Fork(pid, tgid, probe) =>
      if tgid !in Pids(r.procs) {
        AdmitInv(r, cfg, tgid, probe);
      }
    case Exec(pid, name) => UpdInv(r, cfg, pid, name);
    case Exit(pid, tgid) => RemoveInv(r, cfg, {pid}, true);
    case Uid =>
    case Gid =>
    case Tick(lane, found, readings, wanted, refused) =>
      TickInv(r, cfg, lane, found, readings, wanted, refused);
    case AcctAnswer(pid, record) => AnswerInv(r, cfg, pid, record);
    case Rescan(found) => ScanInv(r, cfg, found);
    case RemoveNamed(name, sync) => RemoveInv(r, cfg, PidsNamed(r.procs, name), sync);
    case Request(a) => PushInv(r, cfg, a);
    case HandleNext =>
      if r.queue != [] {
        HandleInv(r, cfg);
      }
  }

  lemma PushInv(r: Reg, cfg: Config, a: Action)
    requires Inv(r, cfg)
    ensures Inv(Push(r, a), cfg)
  {
    hide Clean, OnePerPid, OnePerId, Pids, Ids;
  }

  /** In every run, whatever the interleaving, from the registry as the initial scan leaves it. */
  lemma {:induction false} RunInv(r: Reg, cfg: Config, es: seq<Event>)
    requires Inv(r, cfg)
    ensures Inv(Run(r, cfg, es), cfg)
    decreases |es|
  {
    hide Inv, Next;
    if es != [] {
      NextInv(r, cfg, es[0]);
      RunInv(Next(r, cfg, es[0]), cfg, es[1..]);
    }
  }

  // ---- The blacklist, whatever else holds ----

  lemma {:induction false} UpdClean(r: Reg, cfg: Config, pid: int, name: Option<string>, i: nat)
    requires i <= |r.procs| && Clean(r.procs, cfg.blacklist)
    ensures Clean(UpdFrom(r, cfg, pid, name, i).procs, cfg.blacklist)
    decreases |r.procs| - i
  {
    hide Blacklisted;
    if i < |r.procs| {
      UpdClean(UpdAt(r, cfg, pid, name, i), cfg, pid, name, i + 1);
    }
  }

  lemma DropClean(ps: seq<Proc>, gone: set<int>, keys: seq<string>)
    requires Clean(ps, keys)
    ensures Clean(WithoutPids(ps, gone), keys)
  {
    hide Clean;
    WithoutPidsFacts(ps, gone);
    CleanSubset(WithoutPids(ps, gone), ps, keys);
  }

  lemma AdmitClean(r: Reg, cfg: Config, pid: int, probe: Probe)
    requires Clean(r.procs, cfg.blacklist)
    ensures Clean(Admit(r, cfg, pid, probe).procs, cfg.blacklist)
  {
    hide Blacklisted, ReadInit;
    DropClean(r.procs, r.marked, cfg.blacklist);
  }

  lemma {:induction false} ScanClean(r: Reg, cfg: Config, found: seq<(int, Probe)>)
    requires Clean(r.procs, cfg.blacklist)
    ensures Clean(Scan(r, cfg, found).procs, cfg.blacklist)
    ensures Clean(InitFromProc(r, cfg, found).procs, cfg.blacklist)
    decreases |found|
  {
    hide Clean, Admit;
    if found != [] {
      AdmitClean(r, cfg, found[0].0, found[0].1);
      ScanClean(Add(r, cfg, found[0].0, found[0].1), cfg, found[1..]);
      ScanClean(Admit(r, cfg, found[0].0, found[0].1), cfg, found[1..]);
    }
  }

  lemma {:induction false} PassClean(r: Reg, cfg: Config, change: Proc -> Proc, leaves: Proc -> bool, i: nat)
    requires i <= |r.procs| && KeepsIdentity(change) && Clean(r.procs, cfg.blacklist)
    ensures Clean(PassFrom(r, change, leaves, i).procs, cfg.blacklist)
    decreases |r.procs| - i
  {
    hide Blacklisted;
    if i < |r.procs| {
      PassClean(PassAt(r, change, leaves, i), cfg, change, leaves, i + 1);
    }
  }

  lemma TickClean(r: Reg, cfg: Config, lane: Lane, found: seq<(int, Probe)>, readings: map<int, Reading>,
                  wanted: bool, refused: set<int>)
    requires Clean(r.procs, cfg.blacklist)
    ensures Clean(LaneTick(r, cfg, lane, found, readings, wanted, refused).procs, cfg.blacklist)
  {
    hide Clean, Scan, PassFrom, KeepsIdentity, ReadBy, FailsBy, AskedBy, DeniedBy;
    ScanClean(r, cfg, found);
    PassesKeepIdentity(readings, wanted);
    PassClean(TickScan(r, cfg, found), cfg, ReadBy(readings), FailsBy(readings), 0);
    PassClean(TickScan(r, cfg, found), cfg, AskedBy(wanted), DeniedBy(wanted, refused), 0);
  }

  lemma HandleClean(r: Reg, cfg: Config)
    requires r.queue != [] && Clean(r.procs, cfg.blacklist)
    ensures Clean(Handle(r).procs, cfg.blacklist)
  {
    hide Clean;
    DropClean(r.procs, r.marked, cfg.blacklist);
    RecountShape(r.(queue := r.queue[1..]), 0);
  }

  lemma NextClean(r: Reg, cfg: Config, e: Event)
    requires Clean(r.procs, cfg.blacklist)
    ensures Clean(Next(r, cfg, e).procs, cfg.blacklist)
  {
    hide Clean, Admit, UpdFrom, Scan, LaneTick, Handle, PidsNamed, WithoutPids;
    match e
    case Fork(pid, tgid, probe) => AdmitClean(r, cfg, tgid, probe);
    case Exec(pid, name) =>
      UpdClean(r, cfg, pid, name, 0);
      DropClean(UpdFrom(r, cfg, pid, name, 0).procs, UpdFrom(r, cfg, pid, name, 0).marked, cfg.blacklist);
    case Exit(pid, tgid) => DropClean(r.procs, Mark(r, {pid}).marked, cfg.blacklist);
    case Tick(lane, found, readings, wanted, refused) =>
      TickClean(r, cfg, lane, found, readings, wanted, refused);
    case AcctAnswer(pid, record) => AnswerClean(r, cfg, pid, record);
    case Rescan(found) => ScanClean(r, cfg, found);
    case RemoveNamed(name, sync) =>
      DropClean(r.procs, Mark(r, PidsNamed(r.procs, name)).marked, cfg.blacklist);
    case HandleNext =>
      if r.queue != [] {
        HandleClean(r, cfg);
      }
    case _ =>
  }

  lemma AnswerClean(r: Reg, cfg: Config, pid: int, record: seq<nat>)
    requires Clean(r.procs, cfg.blacklist)
    ensures Clean(Answer(r, pid, record).procs, cfg.blacklist)
  {
    hide Blacklisted, LastPlace;
  }

  lemma {:induction false} RunClean(r: Reg, cfg: Config, es: seq<Event>)
    requires Clean(r.procs, cfg.blacklist)
    ensures Clean(Run(r, cfg, es).procs, cfg.blacklist)
    decreases |es|
  {
    hide Clean, Next;
    if es != [] {
      NextClean(r, cfg, es[0]);
      RunClean(Next(r, cfg, es[0]), cfg, es[1..]);
    }
  }

  /** From the start, whatever the initial scan finds: in every state of every run no listed process has
      a name that contains a blacklist key. */
  lemma NeverBlacklisted(cfg: Config, found: seq<(int, Probe)>, es: seq<Event>, i: nat, key: string)
    requires i < |Run(InitFromProc(EMPTY, cfg, found), cfg, es).procs| && key in cfg.blacklist
    ensures !Contains(Run(InitFromProc(EMPTY, cfg, found), cfg, es).procs[i].info.comm, key)
  {
    hide Run, InitFromProc, Contains;
    ScanClean(EMPTY, cfg, found);
    RunClean(InitFromProc(EMPTY, cfg, found), cfg, es);
    var k :| 0 <= k < |cfg.blacklist| && cfg.blacklist[k] == key;
  }
}
