/** What becomes of one listed process over a run: its entry evolves by the events that concern it, and
    by nothing that happens to others. */
module Entries {
  import opened Words
  import opened StatLine
  import opened ProcEntries
  import opened Keyed
  import opened Registry
  import opened RegistryProofs
  import opened NameTable

  /** What an event that spares a process makes of its entry. */
  function Evolve(p: Proc, cfg: Config, e: Event): Proc {
    match e
    case Exec(pid, name) =>
      if cfg.updateOnProcEvent && pid == p.pid && name.Some? then p.(info := p.info.(comm := name.value)) else p
    case Tick(lane, _, readings, wanted, _) =>
      if lane.Pace? then Update(p, if p.pid in readings then readings[p.pid] else GONE)
      else if lane.Slow? && cfg.procAcct && wanted then p.(acct := Acct(p.acct.record, true))
      else p
    case AcctAnswer(pid, record) => if pid == p.pid then p.(acct := Acct(record, false)) else p
    case _ => p
  }

  function EvolveAll(p: Proc, cfg: Config, es: seq<Event>): Proc
    decreases |es|
  {
    if es == [] then p else EvolveAll(Evolve(p, cfg, es[0]), cfg, es[1..])
  }

  // ---- One step ----

  ghost predicate Has(r: Reg, p: Proc) { p in r.procs && p.pid !in r.marked }

  lemma CommitHas(r: Reg, p: Proc)
    requires Has(r, p)
    ensures Has(CommitProcs(r), p)
  {
    WithoutPidsFacts(r.procs, r.marked);
    var i :| 0 <= i < |r.procs| && r.procs[i] == p;
  }

  lemma AddHas(r: Reg, cfg: Config, pid: int, probe: Probe, p: Proc)
    requires Has(r, p)
    ensures Has(Add(r, cfg, pid, probe), p)
  {
    hide CommitProcs, Admits;
    CommitHas(r, p);
  }

  lemma {:induction false} ScanHas(r: Reg, cfg: Config, found: seq<(int, Probe)>, p: Proc)
    requires Has(r, p)
    ensures Has(Scan(r, cfg, found), p)
    decreases |found|
  {
    hide Has, Add;
    if found != [] {
      AddHas(r, cfg, found[0].0, found[0].1, p);
      ScanHas(Add(r, cfg, found[0].0, found[0].1), cfg, found[1..], p);
    }
  }

  lemma PassHas(r: Reg, change: Proc -> Proc, leaves: Proc -> bool, p: Proc)
    requires Has(r, p) && OnePerPid(r.procs) && KeepsIdentity(change) && !leaves(p)
    ensures Has(PassFrom(r, change, leaves, 0), change(p))
  {
    PassShape(r, change, leaves, 0);
    assert r.procs[0..] == r.procs;
    var i :| 0 <= i < |r.procs| && r.procs[i] == p;
    var r' := PassFrom(r, change, leaves, 0);
    assert r'.procs[i] == change(p);
    OwnPid(r.procs, leaves, p);
  }

  lemma OwnPid(ps: seq<Proc>, leaves: Proc -> bool, p: Proc)
    requires OnePerPid(ps) && p in ps && !leaves(p)
    ensures p.pid !in LeavingPids(ps, leaves)
  {
    if p.pid in LeavingPids(ps, leaves) {
      var q :| q in ps && leaves(q) && q.pid == p.pid;
      SamePlace(ps, p, q);
    }
  }

  /** Two entries of a list with the same pid are the same entry. */
  lemma SamePlace(ps: seq<Proc>, p: Proc, q: Proc)
    requires OnePerPid(ps) && p in ps && q in ps && p.pid == q.pid
    ensures p == q
  {
    var i :| 0 <= i < |ps| && ps[i] == p;
    var j :| 0 <= j < |ps| && ps[j] == q;
    assert PidOf(ps[i]) == PidOf(ps[j]);
  }

  lemma TickHas(r: Reg, cfg: Config, e: Event, p: Proc)
    requires Inv(r, cfg) && Has(r, p) && e.Tick?
    requires Spares(TableOf(r), cfg, e, SeenAt(r, cfg, e), p.pid)
    ensures Has(Next(r, cfg, e), Evolve(p, cfg, e))
  {
    hide Has, Scan, PassFrom, KeepsIdentity, Update, Succeeds, Clean, OnePerId, OnePerPid, Pids, Names;
    ScanHas(r, cfg, e.found, p);
    ScanInv(r, cfg, e.found);
    var r' := TickScan(r, cfg, e.found);
    InvOnePerPid(r', cfg);
    PassesKeepIdentity(e.readings, e.wanted);
    if e.lane.Pace? {
      PassHas(r', ReadBy(e.readings), FailsBy(e.readings), p);
    } else if e.lane.Slow? && cfg.procAcct {
      NotDenied(r', DeniedBy(e.wanted, e.refused), p);
      PassHas(r', AskedBy(e.wanted), DeniedBy(e.wanted, e.refused), p);
    }
  }

  lemma NotDenied(r: Reg, leaves: Proc -> bool, p: Proc)
    requires Has(r, p) && p.pid !in LeavingPids(r.procs, leaves)
    ensures !leaves(p)
  {
  }

  lemma ExecHas(r: Reg, cfg: Config, pid: int, name: Option<string>, p: Proc)
    requires Inv(r, cfg) && Has(r, p) && cfg.updateOnProcEvent
    requires Spares(TableOf(r), cfg, Exec(pid, name), SeenAt(r, cfg, Exec(pid, name)), p.pid)
    ensures Has(Upd(r, cfg, pid, name), Evolve(p, cfg, Exec(pid, name)))
  {
    EntryName(r, cfg, p);
    hide Blacklisted, Clean, OnePerId, OnePerPid, CommitProcs, UpdFrom, Names, Pids;
    var i :| 0 <= i < |r.procs| && r.procs[i] == p;
    ExecEntry(r, cfg, pid, name, i);
    CommitHas(UpdFrom(r, cfg, pid, name, 0), Evolve(p, cfg, Exec(pid, name)));
  }

  lemma ExecEntry(r: Reg, cfg: Config, pid: int, name: Option<string>, i: nat)
    requires OnePerPid(r.procs) && i < |r.procs| && r.procs[i].pid !in r.marked
    requires r.procs[i].pid == pid && name.Some? && name.value != r.procs[i].info.comm ==>
               !Blacklisted(cfg.blacklist, name.value)
    ensures var p, r' := r.procs[i], UpdFrom(r, cfg, pid, name, 0);
            Has(r', if p.pid == pid && name.Some? then p.(info := p.info.(comm := name.value)) else p)
  {
    hide Blacklisted, UpdFrom;
    UpdShape(r, cfg, pid, name);
    if r.procs[i].pid == pid {
      var r' := UpdAt(r, cfg, pid, name, i);
      assert r'.procs[i] in r'.procs;
    } else if pid in Pids(r.procs) {
      var o :| o in r.procs && o.pid == pid;
      var k :| 0 <= k < |r.procs| && r.procs[k] == o;
      var r' := UpdAt(r, cfg, pid, name, k);
      assert r'.procs[i] in r'.procs;
    }
  }

  lemma RemoveHas(r: Reg, pids: set<int>, sync: bool, p: Proc)
    requires Has(r, p) && p.pid !in pids
    ensures Has(Remove(r, pids, sync), p)
  {
    hide CommitProcs;
    CommitHas(Mark(r, pids), p);
  }

  lemma NamedHas(r: Reg, cfg: Config, name: string, sync: bool, p: Proc)
    requires Inv(r, cfg) && Has(r, p) && p.info.comm != name
    ensures Has(Remove(r, PidsNamed(r.procs, name), sync), p)
  {
    if p.pid in PidsNamed(r.procs, name) {
      var q :| q in r.procs && q.info.comm == name && q.pid == p.pid;
      SamePlace(r.procs, p, q);
    }
    RemoveHas(r, PidsNamed(r.procs, name), sync, p);
  }

  lemma AnswerHas(r: Reg, cfg: Config, pid: int, record: seq<nat>, p: Proc)
    requires Inv(r, cfg) && Has(r, p)
    ensures Has(Answer(r, pid, record), Evolve(p, cfg, AcctAnswer(pid, record)))
  {
    hide Clean, OnePerId, LastPlace;
    var i :| 0 <= i < |r.procs| && r.procs[i] == p;
    var k := LastPlace(r.procs, pid);
    if k >= 0 {
      assert p.pid == pid ==> PidOf(r.procs[i]) == PidOf(r.procs[k]) && i == k;
      assert Answer(r, pid, record).procs[i] == Evolve(p, cfg, AcctAnswer(pid, record));
    }
  }

  lemma HandleHas(r: Reg, p: Proc)
    requires Has(r, p) && r.queue != []
    ensures Has(Handle(r), p)
  {
    hide CommitProcs;
    var r' := r.(queue := r.queue[1..]);
    CommitHas(r', p);
    RecountShape(r', 0);
  }

  /** An event that spares a listed, unmarked process makes of its entry what it makes of it alone,
      whatever it does to other entries. */
  lemma EntryEvolves(r: Reg, cfg: Config, e: Event, p: Proc)
    requires Inv(r, cfg) && Has(r, p)
    requires Spares(TableOf(r), cfg, e, SeenAt(r, cfg, e), p.pid)
    ensures Has(Next(r, cfg, e), Evolve(p, cfg, e))
  {
    InvOnePerPid(r, cfg);
    EntryName(r, cfg, p);
    if e.Tick? {
      TickHas(r, cfg, e, p);
    } else if e.Exec? {
      if cfg.updateOnProcEvent {
        ExecHas(r, cfg, e.pid, e.newName, p);
      }
    } else {
      hide Inv, Has, Add, Upd, Remove, Answer, Scan, Handle, PidsNamed, Pids, OnePerPid, Names;
      match e
      case Fork(pid, tgid, probe) => AddHas(r, cfg, tgid, probe, p);
      case Exit(pid, tgid) =>
        if pid == tgid && cfg.updateOnProcEvent {
          RemoveHas(r, {pid}, true, p);
        }
      case AcctAnswer(pid, record) => AnswerHas(r, cfg, pid, record, p);
      case Rescan(found) => ScanHas(r, cfg, found, p);
      case RemoveNamed(name, sync) => NamedHas(r, cfg, name, sync, p);
      case Request(a) => PushHas(r, a, p);
      case HandleNext =>
        if r.queue != [] {
          HandleHas(r, p);
        }
      case _ =>
    }
  }

  lemma EntryName(r: Reg, cfg: Config, p: Proc)
    requires Inv(r, cfg) && Has(r, p)
    ensures OnePerPid(r.procs) && p.pid in Names(r.procs) && Names(r.procs)[p.pid] == p.info.comm
  {
  }

  lemma PushHas(r: Reg, a: Action, p: Proc)
    requires Has(r, p)
    ensures Has(Push(r, a), p)
  {
  }

  // ---- Whole runs ----

  /** In every run that spares it, a listed, unmarked process has the entry that its own events make. */
  lemma {:induction false} RunEvolves(r: Reg, cfg: Config, es: seq<Event>, p: Proc)
    requires Inv(r, cfg) && Has(r, p) && SparedBy(r, cfg, es, p.pid)
    ensures Has(Run(r, cfg, es), EvolveAll(p, cfg, es))
    decreases |es|
  {
    hide Next, Has, Evolve, Spares, Inv;
    if es != [] {
      NextInv(r, cfg, es[0]);
      EntryEvolves(r, cfg, es[0], p);
      EvolvesPid(p, cfg, es[0]);
      RunEvolves(Next(r, cfg, es[0]), cfg, es[1..], Evolve(p, cfg, es[0]));
    }
  }

  lemma EvolvesPid(p: Proc, cfg: Config, e: Event)
    ensures Evolve(p, cfg, e).pid == p.pid
  {
    hide ReadTicks;
  }

  // ---- What the entry holds at the end ----

  /** The last accounting record that arrived for a pid, and whether it was asked for again since. */
  function AcctAfter(acct: Acct, cfg: Config, es: seq<Event>, pid: int): Acct {
    if es == [] then acct
    else
      var before, e := AcctAfter(acct, cfg, es[..|es| - 1], pid), es[|es| - 1];
      if e.AcctAnswer? && e.pid == pid then Acct(e.record, false)
      else if e.Tick? && e.lane.Slow? && cfg.procAcct && e.wanted then Acct(before.record, true)
      else before
  }

  lemma {:induction false} EvolveSnoc(p: Proc, cfg: Config, es: seq<Event>, e: Event)
    ensures EvolveAll(p, cfg, es + [e]) == Evolve(EvolveAll(p, cfg, es), cfg, e)
    decreases |es|
  {
    hide Evolve;
    if es == [] {
      assert (es + [e])[1..] == [];
    } else {
      assert (es + [e])[1..] == es[1..] + [e];
      EvolveSnoc(Evolve(p, cfg, es[0]), cfg, es[1..], e);
    }
  }

  /** The entry's record is the last one that arrived, and an answer is awaited exactly when a slow tick
      with an interested collector came after it. */
  lemma {:induction false} RecordIsLast(p: Proc, cfg: Config, es: seq<Event>)
    ensures EvolveAll(p, cfg, es).acct == AcctAfter(p.acct, cfg, es, p.pid)
    ensures EvolveAll(p, cfg, es).pid == p.pid
    decreases |es|
  {
    hide ReadTicks, ReadStat;
    if es != [] {
      var init, e := es[..|es| - 1], es[|es| - 1];
      RecordIsLast(p, cfg, init);
      EvolveSnoc(p, cfg, init, e);
      assert init + [e] == es;
      UpdateKeepsAcct(EvolveAll(p, cfg, init), e);
    }
  }

  lemma UpdateKeepsAcct(p: Proc, e: Event)
    ensures e.Tick? ==> Update(p, ReadingOf(e.readings, p.pid)).acct == p.acct
    ensures e.Tick? ==> Update(p, ReadingOf(e.readings, p.pid)).pid == p.pid
  {
    hide ReadTicks;
  }

  /** The readings of a process over a run, one for each pace tick. */
  function Readings(es: seq<Event>, pid: int): seq<Reading> {
    if es == [] then []
    else
      (if es[0].Tick? && es[0].lane.Pace? then [if pid in es[0].readings then es[0].readings[pid] else GONE] else [])
      + Readings(es[1..], pid)
  }

  function UpdateOver(p: Proc, rs: seq<Reading>): Proc
    decreases |rs|
  {
    if rs == [] then p else UpdateOver(Update(p, rs[0]), rs[1..])
  }

  /** Two entries with the same usage and clock. */
  predicate SameUsage(p: Proc, q: Proc) {
    && p.pid == q.pid && p.timed == q.timed
    && p.info.(comm := "", ctxName := "") == q.info.(comm := "", ctxName := "")
  }

  lemma UpdateSameUsage(p: Proc, q: Proc, r: Reading)
    requires SameUsage(p, q)
    ensures SameUsage(Update(p, r), Update(q, r))
  {
    hide ReadTicks, Percentage;
  }

  /** Over a run the usage of an entry is what its own readings make of it: renames, accounting and
      everything else leave it alone. */
  lemma {:induction false} UsageFollowsReadings(p: Proc, q: Proc, cfg: Config, es: seq<Event>)
    requires SameUsage(p, q)
    ensures SameUsage(EvolveAll(p, cfg, es), UpdateOver(q, Readings(es, p.pid)))
    decreases |es|
  {
    hide Update;
    if es != [] {
      var e := es[0];
      EvolvesPid(p, cfg, e);
      if e.Tick? && e.lane.Pace? {
        var rest := Readings(es[1..], p.pid);
        UpdateSameUsage(p, q, ReadingOf(e.readings, p.pid));
        assert ([ReadingOf(e.readings, p.pid)] + rest)[1..] == rest;
        UsageFollowsReadings(Evolve(p, cfg, e), Update(q, ReadingOf(e.readings, p.pid)), cfg, es[1..]);
      } else {
        assert Readings(es, p.pid) == Readings(es[1..], p.pid);
        UsageFollowsReadings(Evolve(p, cfg, e), q, cfg, es[1..]);
      }
    }
  }

  /** Together: after any run that spares it a process has one entry, whose usage is what its readings of
      that run make of it, and whose accounting is the last record that arrived. */
  lemma ListedUsage(r: Reg, cfg: Config, es: seq<Event>, p: Proc) returns (q: Proc)
    requires Inv(r, cfg) && Has(r, p) && SparedBy(r, cfg, es, p.pid)
    ensures Has(Run(r, cfg, es), q) && SameUsage(q, UpdateOver(p, Readings(es, p.pid)))
    ensures q.acct == AcctAfter(p.acct, cfg, es, p.pid)
    ensures forall x :: x in Run(r, cfg, es).procs && x.pid == p.pid ==> x == q
  {
    hide Next, Has, Inv, Evolve, Update;
    RunEvolves(r, cfg, es, p);
    RecordIsLast(p, cfg, es);
    UsageFollowsReadings(p, p, cfg, es);
    q := EvolveAll(p, cfg, es);
    RunInv(r, cfg, es);
    InvOnePerPid(Run(r, cfg, es), cfg);
    Only(Run(r, cfg, es), q);
  }

  lemma Only(r: Reg, q: Proc)
    requires OnePerPid(r.procs) && Has(r, q)
    ensures forall x :: x in r.procs && x.pid == q.pid ==> x == q
  {
    forall x | x in r.procs && x.pid == q.pid
      ensures x == q
    {
      SamePlace(r.procs, x, q);
    }
  }

  // ---- When a tick asks for a removal or stops the program ----

  /** A slow tick keeps a listed, unmarked process unless it asks for its accounting data and is refused;
      and it asks only if a collector wants the data and no answer is awaited. */
  lemma SlowTickKeepsIff(r: Reg, cfg: Config, e: Event, p: Proc)
    requires Inv(r, cfg) && Has(r, p) && e.Tick? && e.lane.Slow? && cfg.procAcct
    ensures Lives(Next(r, cfg, e), p.pid) <==> !(e.wanted && !p.acct.pending && p.pid in e.refused)
  {
    hide Has, Next, Scan, Clean, OnePerId, OnePerPid, Pids, Names;
    HasLives(r, p);
    InvOnePerPid(r, cfg);
    LivesIffSpared(r, cfg, e, p.pid);
    var r' := TickScan(r, cfg, e.found);
    ScanHas(r, cfg, e.found, p);
    ScanInv(r, cfg, e.found);
    InvOnePerPid(r', cfg);
    DeniedIff(r', e.wanted, e.refused, p);
    EntryName(r, cfg, p);
  }

  /** A pace tick keeps it if and only if its files can still be read. */
  lemma PaceTickKeepsIff(r: Reg, cfg: Config, e: Event, p: Proc)
    requires Inv(r, cfg) && Has(r, p) && e.Tick? && e.lane.Pace?
    ensures Lives(Next(r, cfg, e), p.pid) <==> p.pid in e.readings && Succeeds(e.readings[p.pid])
  {
    hide Has, Next, Scan, Clean, OnePerId, OnePerPid, Pids, Names, Succeeds;
    HasLives(r, p);
    InvOnePerPid(r, cfg);
    LivesIffSpared(r, cfg, e, p.pid);
    var r' := TickScan(r, cfg, e.found);
    ScanHas(r, cfg, e.found, p);
    ScanInv(r, cfg, e.found);
    InvOnePerPid(r', cfg);
    FailingIff(r', e.readings, p);
    EntryName(r, cfg, p);
  }

  lemma FailingIff(r: Reg, readings: map<int, Reading>, p: Proc)
    requires OnePerPid(r.procs) && Has(r, p)
    ensures p.pid in LeavingPids(r.procs, FailsBy(readings))
            <==> !(p.pid in readings && Succeeds(readings[p.pid]))
  {
    GoneUnreadable();
    hide Succeeds;
    if p.pid in LeavingPids(r.procs, FailsBy(readings)) {
      var q :| q in r.procs && FailsBy(readings)(q) && q.pid == p.pid;
      SamePlace(r.procs, p, q);
    } else {
      assert FailsBy(readings)(p) ==> p.pid in LeavingPids(r.procs, FailsBy(readings));
    }
  }

  lemma HasLives(r: Reg, p: Proc)
    requires Has(r, p)
    ensures Lives(r, p.pid)
  {
  }

  lemma DeniedIff(r: Reg, wanted: bool, refused: set<int>, p: Proc)
    requires OnePerPid(r.procs) && Has(r, p)
    ensures p.pid in LeavingPids(r.procs, DeniedBy(wanted, refused))
            <==> wanted && !p.acct.pending && p.pid in refused
  {
    if p.pid in LeavingPids(r.procs, DeniedBy(wanted, refused)) {
      var q :| q in r.procs && DeniedBy(wanted, refused)(q) && q.pid == p.pid;
      SamePlace(r.procs, p, q);
    } else {
      assert DeniedBy(wanted, refused)(p) ==> p.pid in LeavingPids(r.procs, DeniedBy(wanted, refused));
    }
  }

  /** A step stops the program if and only if it is a pace tick, and some process listed after its scan was
      read before and its stat file can be read again after no time at all. */
  lemma StopsIff(r: Reg, cfg: Config, e: Event)
    ensures Stops(r, cfg, e)
            <==> && e.Tick? && e.lane.Pace?
                 && exists p :: && p in TickScan(r, cfg, e.found).procs
                                && p.timed && p.pid in e.readings
                                && e.readings[p.pid].elapsed == 0 && Readable(e.readings[p.pid])
  {
    hide Scan, ReadTicks;
    if e.Tick? && e.lane.Pace? {
      var ps := TickScan(r, cfg, e.found).procs;
      GoneUnreadable();
      if Stops(r, cfg, e) {
        var i :| 0 <= i < |ps| && DividesByZero(ps[i], ReadingOf(e.readings, ps[i].pid));
        assert ps[i] in ps;
      }
      if exists p :: p in ps && p.timed && p.pid in e.readings && e.readings[p.pid].elapsed == 0
                     && Readable(e.readings[p.pid]) {
        var p :| p in ps && p.timed && p.pid in e.readings && e.readings[p.pid].elapsed == 0
                 && Readable(e.readings[p.pid]);
        var i :| 0 <= i < |ps| && ps[i] == p;
        assert DividesByZero(ps[i], ReadingOf(e.readings, ps[i].pid));
      }
    }
  }

  lemma GoneUnreadable()
    ensures !Readable(GONE) && !Succeeds(GONE)
  {
  }
}
