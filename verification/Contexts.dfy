/** Context entries: their totals are a partition of the process totals, and they cover every
    process as long as none is admitted to a context that is staged for removal. */
module Contexts {
  import opened Words
  import opened StatLine
  import opened Keyed
  import opened ProcEntries
  import opened Registry
  import opened RegistryProofs
  import opened Draining

  // ---- Conservation ----

  function TotalOf(cs: seq<Ctx>, m: Metric): nat {
    if cs == [] then 0 else TotalOf(cs[..|cs| - 1], m) + cs[|cs| - 1].totals.Of(m)
  }

  /** What the processes of two disjoint sets of contexts use adds up. */
  lemma {:induction false} UseOfDisjoint(ps: seq<Proc>, a: set<U64>, b: set<U64>, m: Metric)
    requires a !! b
    ensures UseIn(ps, a + b, m) == UseIn(ps, a, m) + UseIn(ps, b, m)
  {
    if ps != [] {
      UseOfDisjoint(ps[..|ps| - 1], a, b, m);
    }
  }

  lemma {:induction false} UseOfNobody(ps: seq<Proc>, m: Metric)
    ensures UseIn(ps, {}, m) == 0
  {
    if ps != [] {
      UseOfNobody(ps[..|ps| - 1], m);
    }
  }

  /** Every context shows what its own processes use, in the width of the field. */
  ghost predicate Counted(cs: seq<Ctx>, ps: seq<Proc>) {
    forall i :: 0 <= i < |cs| ==> cs[i].totals == TotalsFor(ps, cs[i].id)
  }

  lemma TotalsAreUse(ps: seq<Proc>, id: U64, m: Metric)
    ensures TotalsFor(ps, id).Of(m) == UseIn(ps, {id}, m) % Width(m)
  {
  }

  /** The contexts' totals add up, in the width of the field, to what all their processes use. */
  lemma {:induction false} Partition(cs: seq<Ctx>, ps: seq<Proc>, m: Metric)
    requires OnePerId(cs) && Counted(cs, ps)
    ensures TotalOf(cs, m) % Width(m) == UseIn(ps, Ids(cs), m) % Width(m)
  {
    hide TotalsFor, UseIn, Width, Totals.Of;
    if cs == [] {
      UseOfNobody(ps, m);
      assert Ids(cs) == {};
    } else {
      var init, last := cs[..|cs| - 1], cs[|cs| - 1];
      assert cs == init + [last];
      Partition(init, ps, m);
      AppendedIds(init, last);
      hide Ids;
      UseOfDisjoint(ps, Ids(init), {last.id}, m);
      TotalsAreUse(ps, last.id, m);
      ModuloTwice(UseIn(ps, {last.id}, m), Width(m));
      AddModulo(TotalOf(init, m), last.totals.Of(m), UseIn(ps, Ids(init), m), UseIn(ps, {last.id}, m),
                Width(m));
    }
  }

  /** When the whole does not outgrow the field, no part does and the sum is exact. */
  lemma {:induction false} ExactPartition(cs: seq<Ctx>, ps: seq<Proc>, m: Metric)
    requires OnePerId(cs) && Counted(cs, ps)
    requires UseIn(ps, Ids(cs), m) < Width(m)
    ensures TotalOf(cs, m) == UseIn(ps, Ids(cs), m)
  {
    hide TotalsFor, UseIn;
    if cs == [] {
      UseOfNobody(ps, m);
      assert Ids(cs) == {};
    } else {
      var init, last := cs[..|cs| - 1], cs[|cs| - 1];
      assert cs == init + [last];
      AppendedIds(init, last);
      UseOfDisjoint(ps, Ids(init), {last.id}, m);
      ExactPartition(init, ps, m);
      TotalsAreUse(ps, last.id, m);
    }
  }

  /** Conservation: a context report leaves totals that together are what the processes of all
      listed contexts use. */
  lemma Conservation(r: Reg, m: Metric)
    requires OnePerId(r.ctxs)
    ensures var cs := Report(r).ctxs;
            && TotalOf(cs, m) % Width(m) == UseIn(r.procs, Ids(r.ctxs), m) % Width(m)
            && (UseIn(r.procs, Ids(r.ctxs), m) < Width(m) ==>
                  TotalOf(cs, m) == UseIn(r.procs, Ids(r.ctxs), m))
  {
    hide TotalsFor, UseIn, Ids, Unused;
    RecountShape(r, 0);
    ReportIds(r);
    var cs := Report(r).ctxs;
    Partition(cs, r.procs, m);
    if UseIn(r.procs, Ids(r.ctxs), m) < Width(m) {
      ExactPartition(cs, r.procs, m);
    }
  }

  // ---- Coverage ----

  /** Every listed process has a context entry; with one entry per id it has exactly one. */
  ghost predicate Covered(r: Reg) { CtxIdsOf(r.procs) <= Ids(r.ctxs) }

  /** Moreover no listed process belongs to a context that is staged for removal. */
  ghost predicate Safe(r: Reg) { Covered(r) && CtxIdsOf(r.procs) !! r.ctxMarked }

  /** A commit of the context list keeps coverage exactly when no listed process belongs to a
      staged context. */
  lemma CommitKeepsCoverageIff(r: Reg)
    requires Covered(r)
    ensures Covered(CommitCtxs(r)) <==> CtxIdsOf(r.procs) !! r.ctxMarked
  {
    hide CtxIdsOf;
    WithoutIdsFacts(r.ctxs, r.ctxMarked);
  }

  lemma CtxIdsOfAppend(ps: seq<Proc>, p: Proc)
    ensures CtxIdsOf(ps + [p]) == CtxIdsOf(ps) + {p.info.ctxId}
  {
    assert (ps + [p])[|ps|] == p;
    forall q | q in ps
      ensures q in ps + [p]
    {
    }
  }

  lemma FewerProcs(r: Reg, gone: set<int>)
    ensures CtxIdsOf(WithoutPids(r.procs, gone)) <= CtxIdsOf(r.procs)
  {
    WithoutPidsFacts(r.procs, gone);
  }

  /** Admitting a process keeps the registry safe exactly when its context is not staged. */
  lemma AdmitSafeIff(r: Reg, cfg: Config, pid: int, probe: Probe)
    requires Inv(r, cfg) && Safe(r)
    ensures Safe(Admit(r, cfg, pid, probe)) <==> !(Admits(cfg, probe) && probe.ctxId in r.ctxMarked)
  {
    hide Clean, OnePerPid, OnePerId, Pids, Ids, CtxIdsOf, Blacklisted, ReadInit;
    if Admits(cfg, probe) {
      var rest := CommitProcs(r).procs;
      FewerProcs(r, r.marked);
      CtxIdsOfAppend(rest, Entry(pid, probe));
      WithoutIdsFacts(r.ctxs, r.ctxMarked);
      AppendedIds(CommitCtxs(r).ctxs, Ctx(probe.ctxId, probe.ctxName, NO_TOTALS));
    }
  }

  // ---- Runs that never admit a process to a staged context ----

  predicate AddIsSafe(r: Reg, cfg: Config, pid: int, probe: Probe) {
    pid in Pids(r.procs) || !Admits(cfg, probe) || probe.ctxId !in r.ctxMarked
  }

  predicate ScanIsSafe(r: Reg, cfg: Config, found: seq<(int, Probe)>)
    decreases |found|
  {
    found == [] || (AddIsSafe(r, cfg, found[0].0, found[0].1)
                    && ScanIsSafe(Add(r, cfg, found[0].0, found[0].1), cfg, found[1..]))
  }

  predicate EventIsSafe(r: Reg, cfg: Config, e: Event) {
    match e
    case Fork(pid, tgid, probe) =>
      pid == tgid && cfg.updateOnProcEvent ==> AddIsSafe(r, cfg, tgid, probe)
    case Tick(_, found, _, _, _) => !(cfg.procEvent && cfg.updateOnProcEvent) ==> ScanIsSafe(r, cfg, found)
    case Rescan(found) => ScanIsSafe(r, cfg, found)
    case _ => true
  }

  predicate RunIsSafe(r: Reg, cfg: Config, es: seq<Event>)
    decreases |es|
  {
    es == [] || (EventIsSafe(r, cfg, es[0]) && RunIsSafe(Next(r, cfg, es[0]), cfg, es[1..]))
  }

  lemma {:induction false} ScanSafe(r: Reg, cfg: Config, found: seq<(int, Probe)>)
    requires Inv(r, cfg) && Safe(r) && ScanIsSafe(r, cfg, found)
    ensures Safe(Scan(r, cfg, found))
    decreases |found|
  {
    hide Inv, Safe, Admit, Admits;
    if found != [] {
      if found[0].0 !in Pids(r.procs) {
        AdmitSafeIff(r, cfg, found[0].0, found[0].1);
        AdmitInv(r, cfg, found[0].0, found[0].1);
      }
      ScanSafe(Add(r, cfg, found[0].0, found[0].1), cfg, found[1..]);
    }
  }

  /** Steps that leave the contexts alone and list no new context id keep the registry safe. */
  lemma SafeByFewer(r: Reg, r': Reg)
    requires Safe(r) && r'.ctxs == r.ctxs && r'.ctxMarked == r.ctxMarked
    requires CtxIdsOf(r'.procs) <= CtxIdsOf(r.procs)
    ensures Safe(r')
  {
  }

  lemma SameCtxIds(ps: seq<Proc>, qs: seq<Proc>)
    requires |ps| == |qs| && forall j :: 0 <= j < |ps| ==> qs[j].info.ctxId == ps[j].info.ctxId
    ensures CtxIdsOf(qs) == CtxIdsOf(ps)
  {
    assert forall j :: 0 <= j < |ps| ==>
      ps[j] in ps && qs[j] in qs && ps[j].info.ctxId == qs[j].info.ctxId;
  }

  lemma {:induction false} UpdFromKeeps(r: Reg, cfg: Config, pid: int, name: Option<string>, i: nat)
    requires i <= |r.procs|
    ensures var r' := UpdFrom(r, cfg, pid, name, i);
            && CtxIdsOf(r'.procs) == CtxIdsOf(r.procs)
            && r'.ctxs == r.ctxs && r'.ctxMarked == r.ctxMarked
    decreases |r.procs| - i
  {
    hide CtxIdsOf, Blacklisted;
    if i < |r.procs| {
      SameCtxIds(r.procs, UpdAt(r, cfg, pid, name, i).procs);
      UpdFromKeeps(UpdAt(r, cfg, pid, name, i), cfg, pid, name, i + 1);
    }
  }

  lemma RemoveSafe(r: Reg, pids: set<int>, sync: bool)
    requires Safe(r)
    ensures Safe(Remove(r, pids, sync))
  {
    hide CtxIdsOf;
    FewerProcs(r, Mark(r, pids).marked);
  }

  lemma PassSafe(r: Reg, change: Proc -> Proc, leaves: Proc -> bool)
    requires Safe(r) && KeepsIdentity(change)
    ensures Safe(PassFrom(r, change, leaves, 0))
  {
    hide CtxIdsOf, LeavingPids, KeepsIdentity;
    PassShape(r, change, leaves, 0);
    PassKeepsIdentity(r, change, leaves);
    SameCtxIds(r.procs, PassFrom(r, change, leaves, 0).procs);
  }

  lemma TickSafe(r: Reg, cfg: Config, e: Event)
    requires Inv(r, cfg) && Safe(r) && e.Tick? && EventIsSafe(r, cfg, e)
    ensures Safe(Next(r, cfg, e))
  {
    hide Inv, Safe, Scan, PassFrom, KeepsIdentity, ReadBy, FailsBy, AskedBy, DeniedBy, ScanIsSafe;
    if !(cfg.procEvent && cfg.updateOnProcEvent) {
      ScanSafe(r, cfg, e.found);
    }
    var r' := TickScan(r, cfg, e.found);
    PassesKeepIdentity(e.readings, e.wanted);
    PassSafe(r', ReadBy(e.readings), FailsBy(e.readings));
    PassSafe(r', AskedBy(e.wanted), DeniedBy(e.wanted, e.refused));
  }

  lemma AnswerSafe(r: Reg, cfg: Config, pid: int, record: seq<nat>)
    requires Inv(r, cfg) && Safe(r)
    ensures Safe(Answer(r, pid, record))
  {
    hide CtxIdsOf, Inv;
    AnswerInv(r, cfg, pid, record);
    SameCtxIds(r.procs, Answer(r, pid, record).procs);
    SafeByFewer(r, Answer(r, pid, record));
  }

  lemma HandleSafe(r: Reg)
    requires Safe(r) && r.queue != []
    ensures Safe(Handle(r))
  {
    hide CtxIdsOf, Ids;
    var r' := r.(queue := r.queue[1..]);
    match r.queue[0]
    case CommitProcList => FewerProcs(r, r.marked);
    case CommitContextList => CommitKeepsCoverageIff(r);
    case CollectAndSendContextInfo =>
      RecountShape(r', 0);
      ReportIds(r');
    case _ =>
  }

  lemma NextSafe(r: Reg, cfg: Config, e: Event)
    requires Inv(r, cfg) && Safe(r) && EventIsSafe(r, cfg, e)
    ensures Safe(Next(r, cfg, e))
  {
    hide Inv, Safe, Admit, Admits, Upd, Remove, Scan, LaneTick, Answer, Handle, PidsNamed, ScanIsSafe;
    match e
    case Fork(pid, tgid, probe) => AdmitSafeIff(r, cfg, tgid, probe);
    case Exec(pid, name) => ExecSafe(r, cfg, pid, name);
    case Exit(pid, tgid) => RemoveSafe(r, {pid}, true);
    case Tick(_, _, _, _, _) => TickSafe(r, cfg, e);
    case AcctAnswer(pid, record) => AnswerSafe(r, cfg, pid, record);
    case Rescan(found) => ScanSafe(r, cfg, found);
    case RemoveNamed(name, sync) => RemoveSafe(r, PidsNamed(r.procs, name), sync);
    case HandleNext =>
      if r.queue != [] {
        HandleSafe(r);
      }
    case Request(a) => SafeByFewer(r, Push(r, a));
    case _ =>
  }

  lemma ExecSafe(r: Reg, cfg: Config, pid: int, name: Option<string>)
    requires Safe(r)
    ensures Safe(Upd(r, cfg, pid, name))
  {
    hide CtxIdsOf, UpdFrom;
    UpdFromKeeps(r, cfg, pid, name, 0);
    FewerProcs(UpdFrom(r, cfg, pid, name, 0), UpdFrom(r, cfg, pid, name, 0).marked);
  }

  /** In every run that admits no process to a staged context, every listed process has its
      context entry in every state, so a context that is dropped has no process left. */
  lemma {:induction false} RunCovers(r: Reg, cfg: Config, es: seq<Event>)
    requires Inv(r, cfg) && Safe(r) && RunIsSafe(r, cfg, es)
    ensures Safe(Run(r, cfg, es))
    decreases |es|
  {
    hide Inv, Safe, Next, EventIsSafe;
    if es != [] {
      NextInv(r, cfg, es[0]);
      NextSafe(r, cfg, es[0]);
      RunCovers(Next(r, cfg, es[0]), cfg, es[1..]);
    }
  }

  lemma NoneListed(found: seq<(int, Probe)>)
    ensures FoundOnce(found, {}) <==> FoundOnce(found, Pids(EMPTY.procs))
  {
  }

  lemma EmptyIsSafe(cfg: Config)
    ensures Inv(EMPTY, cfg) && Safe(EMPTY)
  {
  }

  /** The initial scan stages nothing, so it covers every process it lists. */
  lemma {:induction false} InitSafe(r: Reg, cfg: Config, found: seq<(int, Probe)>)
    requires Inv(r, cfg) && Safe(r) && r.ctxMarked == {}
    requires FoundOnce(found, Pids(r.procs))
    ensures var r' := InitFromProc(r, cfg, found);
            Inv(r', cfg) && Safe(r') && r'.ctxMarked == {}
    decreases |found|
  {
    hide Inv, Safe, Admits, CommitProcs, CommitCtxs, Pids, Ids;
    if found != [] {
      var pid, probe := found[0].0, found[0].1;
      AdmitInv(r, cfg, pid, probe);
      AdmitPids(r, cfg, pid, probe);
      AdmitSafeIff(r, cfg, pid, probe);
      AdmitStagesNothing(r, cfg, pid, probe);
      InitSafe(Admit(r, cfg, pid, probe), cfg, found[1..]);
    }
  }

  lemma AdmitStagesNothing(r: Reg, cfg: Config, pid: int, probe: Probe)
    ensures Admit(r, cfg, pid, probe).ctxMarked <= r.ctxMarked
  {
  }

  /** The same from the start of the program, with exactly one context entry for every process. */
  lemma OneContextForEachProcess(cfg: Config, found: seq<(int, Probe)>, es: seq<Event>, p: Proc)
    requires FoundOnce(found, {})
    requires RunIsSafe(InitFromProc(EMPTY, cfg, found), cfg, es)
    requires p in Run(InitFromProc(EMPTY, cfg, found), cfg, es).procs
    ensures var cs := Run(InitFromProc(EMPTY, cfg, found), cfg, es).ctxs;
            exists i :: 0 <= i < |cs| && cs[i].id == p.info.ctxId
                        && forall j :: 0 <= j < |cs| && j != i ==> cs[j].id != p.info.ctxId
  {
    hide Run, InitFromProc, RunIsSafe, Clean, OnePerPid, OnePerId, Pids, Ids, FoundOnce;
    EmptyIsSafe(cfg);
    NoneListed(found);
    InitSafe(EMPTY, cfg, found);
    var start := InitFromProc(EMPTY, cfg, found);
    RunCovers(start, cfg, es);
    RunInv(start, cfg, es);
    var cs := Run(start, cfg, es).ctxs;
    assert p.info.ctxId in CtxIdsOf(Run(start, cfg, es).procs);
    TheOneContext(cs, p.info.ctxId);
  }

  lemma TheOneContext(cs: seq<Ctx>, id: U64)
    requires OnePerId(cs) && id in Ids(cs)
    ensures exists i :: 0 <= i < |cs| && cs[i].id == id
                        && forall j :: 0 <= j < |cs| && j != i ==> cs[j].id != id
  {
    var c :| c in cs && c.id == id;
    var i :| 0 <= i < |cs| && cs[i] == c;
    forall j | 0 <= j < |cs| && j != i
      ensures cs[j].id != id
    {
      assert IdOf(cs[j]) != IdOf(cs[i]);
    }
  }

  // ---- Exactly when draining loses a context ----

  /** The context ids of the processes that are not marked. */
  function Survivors(r: Reg): set<U64> { CtxIdsOf(WithoutPids(r.procs, r.marked)) }

  lemma {:induction false} DrainKeepsIff(r: Reg, cfg: Config)
    requires Inv(r, cfg)
    ensures Survivors(r) <= Ids(Drained(r).ctxs) <==> Survivors(r) <= Ids(r.ctxs) - r.ctxMarked
    decreases Weight(r.queue)
  {
    hide Inv, CtxIdsOf, Ids, Handle;
    if r.queue == [] {
      NothingStaged(r, cfg);
    } else {
      HandleInv(r, cfg);
      HandleLightens(r);
      DrainKeepsIff(Handle(r), cfg);
      HandleKeepsOutcome(r);
      HandleKeepsNeeded(r);
    }
  }

  lemma HandleKeepsNeeded(r: Reg)
    requires r.queue != []
    ensures Survivors(r) <= Ids(Handle(r).ctxs) - Handle(r).ctxMarked
            <==> Survivors(r) <= Ids(r.ctxs) - r.ctxMarked
  {
    hide CtxIdsOf, Ids;
    var r' := r.(queue := r.queue[1..]);
    match r.queue[0]
    case CommitContextList => WithoutIdsFacts(r.ctxs, r.ctxMarked);
    case CollectAndSendContextInfo =>
      RecountShape(r', 0);
      ReportIds(r');
      FewerProcs(r, r.marked);
    case _ =>
  }

  /** After draining, every process has its context exactly when no unmarked process belongs to a
      context that was staged before. */
  lemma CoveredAfterDrainIff(r: Reg, cfg: Config)
    requires Inv(r, cfg) && Covered(r)
    ensures Covered(Drained(r)) <==> Survivors(r) !! r.ctxMarked
  {
    hide Inv, CtxIdsOf, Ids, Drained;
    DrainCommitsAll(r, cfg);
    DrainKeepsIff(r, cfg);
    FewerProcs(r, r.marked);
  }

  /** So admitting a process to a staged context loses that context, in every safe state. */
  lemma AdmitToStagedLosesContext(r: Reg, cfg: Config, pid: int, probe: Probe)
    requires Inv(r, cfg) && Safe(r) && pid !in Pids(r.procs)
    requires Admits(cfg, probe) && probe.ctxId in r.ctxMarked
    ensures !Covered(Drained(Admit(r, cfg, pid, probe)))
  {
    hide Clean, OnePerPid, OnePerId, Blacklisted, ReadInit, Drained;
    var r' := Admit(r, cfg, pid, probe);
    AdmitInv(r, cfg, pid, probe);
    FewerProcs(r, r.marked);
    CtxIdsOfAppend(CommitProcs(r).procs, Entry(pid, probe));
    DropNothing(r'.procs, PidOf);
    CoveredAfterDrainIff(r', cfg);
  }

  /** Such a state is reachable: the only process of a context exits, a report stages the context,
      a process of the same context is forked, and the commit request is handled. */
  lemma StagedContextIsReachable(cfg: Config, first: int, second: int, probe: Probe)
    requires cfg.updateOnProcEvent && Admits(cfg, probe)
    ensures var es := [Fork(first, first, probe), Exit(first, first), Request(CollectAndSendContextInfo),
                       HandleNext, Fork(second, second, probe), HandleNext];
            var r := Run(EMPTY, cfg, es);
            r.ctxs == [] && |r.procs| == 1 && !Covered(r)
  {
    hide Next;
    var c := Ctx(probe.ctxId, probe.ctxName, NO_TOTALS);
    var es := [Fork(first, first, probe), Exit(first, first), Request(CollectAndSendContextInfo),
               HandleNext, Fork(second, second, probe), HandleNext];
    ForkIntoEmpty(cfg, first, probe);
    ExitOfOnly(cfg, Entry(first, probe), c);
    var cs := ReportWithoutProcs(cfg, c);
    ForkIntoStaged(cfg, second, probe, cs);
    CommitStaged(cfg, Entry(second, probe), cs);
    var r1 := Reg([Entry(first, probe)], {}, [c], {}, []);
    var r2 := Reg([], {}, [c], {}, []);
    var r3 := Reg([], {}, [c], {}, [CollectAndSendContextInfo]);
    var r4 := Reg([], {}, cs, {c.id}, [CommitContextList]);
    var r5 := Reg([Entry(second, probe)], {}, cs, {c.id}, [CommitContextList]);
    var r6 := Reg([Entry(second, probe)], {}, [], {}, []);
    assert Run(EMPTY, cfg, es) == Run(r1, cfg, es[1..]);
    assert Run(r1, cfg, es[1..]) == Run(r2, cfg, es[2..]) by { assert es[1..][1..] == es[2..]; }
    assert Run(r2, cfg, es[2..]) == Run(r3, cfg, es[3..]) by { assert es[2..][1..] == es[3..]; }
    assert Run(r3, cfg, es[3..]) == Run(r4, cfg, es[4..]) by { assert es[3..][1..] == es[4..]; }
    assert Run(r4, cfg, es[4..]) == Run(r5, cfg, es[5..]) by { assert es[4..][1..] == es[5..]; }
    assert Run(r5, cfg, es[5..]) == Run(r6, cfg, []) by { assert es[5..][1..] == []; }
    assert r6.procs[0] in r6.procs && c.id in CtxIdsOf(r6.procs);
  }

  lemma ForkIntoEmpty(cfg: Config, pid: int, probe: Probe)
    requires cfg.updateOnProcEvent && Admits(cfg, probe)
    ensures Next(EMPTY, cfg, Fork(pid, pid, probe))
         == Reg([Entry(pid, probe)], {}, [Ctx(probe.ctxId, probe.ctxName, NO_TOTALS)], {}, [])
  {
    hide Blacklisted, ReadInit;
  }

  lemma ExitOfOnly(cfg: Config, p: Proc, c: Ctx)
    requires cfg.updateOnProcEvent
    ensures Next(Reg([p], {}, [c], {}, []), cfg, Exit(p.pid, p.pid)) == Reg([], {}, [c], {}, [])
    ensures Next(Reg([], {}, [c], {}, []), cfg, Request(CollectAndSendContextInfo))
         == Reg([], {}, [c], {}, [CollectAndSendContextInfo])
  {
    var ps := [p];
    assert ps[0] in ps && p.pid in Pids(ps);
    assert Mark(Reg(ps, {}, [c], {}, []), {p.pid}).marked == {p.pid};
    assert WithoutPids(ps[1..], {p.pid}) == [];
  }

  lemma ReportWithoutProcs(cfg: Config, c: Ctx) returns (cs: seq<Ctx>)
    ensures |cs| == 1 && cs[0].id == c.id
    ensures Next(Reg([], {}, [c], {}, [CollectAndSendContextInfo]), cfg, HandleNext)
         == Reg([], {}, cs, {c.id}, [CommitContextList])
  {
    hide TotalsFor;
    var r := Reg([], {}, [c], {}, []);
    RecountShape(r, 0);
    cs := RecountFrom(r, 0).ctxs;
    assert r.ctxs[0..] == r.ctxs;
    assert r.ctxs[0] == c && c in r.ctxs;
    assert Unused(r.ctxs, []) == {c.id};
    assert Report(r) == Reg([], {}, cs, {c.id}, [CommitContextList]);
    var q := Reg([], {}, [c], {}, [CollectAndSendContextInfo]);
    assert q.(queue := q.queue[1..]) == r;
  }

  lemma ForkIntoStaged(cfg: Config, pid: int, probe: Probe, cs: seq<Ctx>)
    requires cfg.updateOnProcEvent && Admits(cfg, probe)
    requires |cs| == 1 && cs[0].id == probe.ctxId
    ensures Next(Reg([], {}, cs, {probe.ctxId}, [CommitContextList]), cfg, Fork(pid, pid, probe))
         == Reg([Entry(pid, probe)], {}, cs, {probe.ctxId}, [CommitContextList])
  {
    hide Blacklisted, ReadInit;
    assert cs[0] in cs;
  }

  lemma CommitStaged(cfg: Config, p: Proc, cs: seq<Ctx>)
    requires |cs| == 1
    ensures Next(Reg([p], {}, cs, {cs[0].id}, [CommitContextList]), cfg, HandleNext)
         == Reg([p], {}, [], {}, [])
  {
    assert WithoutIds(cs[1..], {cs[0].id}) == [];
  }

  // ---- Coverage makes conservation complete ----

  function UseOfAll(ps: seq<Proc>, m: Metric): nat {
    if ps == [] then 0 else UseOfAll(ps[..|ps| - 1], m) + Use(ps[|ps| - 1], m)
  }

  lemma {:induction false} CoveredUse(ps: seq<Proc>, ids: set<U64>, m: Metric)
    requires CtxIdsOf(ps) <= ids
    ensures UseIn(ps, ids, m) == UseOfAll(ps, m)
  {
    if ps != [] {
      var init, last := ps[..|ps| - 1], ps[|ps| - 1];
      assert ps == init + [last];
      CtxIdsOfAppend(init, last);
      CoveredUse(init, ids, m);
    }
  }

  lemma OnePerContext(r: Reg, cfg: Config)
    requires Inv(r, cfg)
    ensures OnePerId(r.ctxs)
  {
  }

  /** In a covered registry a report accounts for every listed process. */
  lemma CompleteConservation(r: Reg, cfg: Config, m: Metric)
    requires Inv(r, cfg) && Covered(r)
    ensures var cs := Report(r).ctxs;
            && TotalOf(cs, m) % Width(m) == UseOfAll(r.procs, m) % Width(m)
            && (UseOfAll(r.procs, m) < Width(m) ==> TotalOf(cs, m) == UseOfAll(r.procs, m))
  {
    hide Inv, Report, UseIn, CtxIdsOf, Ids;
    OnePerContext(r, cfg);
    Conservation(r, m);
    CoveredUse(r.procs, Ids(r.ctxs), m);
  }
}
