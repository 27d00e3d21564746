/** The simple form of the process list: a table from pid to name and a set of marked pids. The
    registry refines it in every run, and the table shows when a process leaves. */
module NameTable {
  import opened Words
  import opened StatLine
  import opened ProcEntries
  import opened Registry
  import opened RegistryProofs

  datatype Table = Table(names: map<int, string>, marked: set<int>)

  /** A commit drops exactly the marked pids. */
  function Committed(t: Table): Table { Table(t.names - t.marked, {}) }

  function Marked(t: Table, pids: set<int>): Table { t.(marked := t.marked + (pids * t.names.Keys)) }

  function Added(t: Table, cfg: Config, pid: int, probe: Probe): Table {
    if pid in t.names || !Admits(cfg, probe) then t
    else Table((t.names - t.marked)[pid := probe.name.value], {})
  }

  function Scanned(t: Table, cfg: Config, found: seq<(int, Probe)>): Table
    decreases |found|
  {
    if found == [] then t else Scanned(Added(t, cfg, found[0].0, found[0].1), cfg, found[1..])
  }

  function Executed(t: Table, cfg: Config, pid: int, name: Option<string>): Table {
    if pid !in t.names || name.None? || t.names[pid] == name.value then Committed(t)
    else if Blacklisted(cfg.blacklist, name.value) then Committed(Marked(t, {pid}))
    else Committed(t.(names := t.names[pid := name.value]))
  }

  function Removed(t: Table, pids: set<int>, sync: bool): Table {
    if sync then Committed(Marked(t, pids)) else Marked(t, pids)
  }

  function Updated(t: Table, readings: map<int, Reading>): Table {
    t.(marked := t.marked + (set pid | pid in t.names && !Succeeds(ReadingOf(readings, pid))))
  }

  function Named(t: Table, name: string): set<int> {
    set pid | pid in t.names && t.names[pid] == name
  }

  function Ticked(t: Table, cfg: Config, lane: Lane, found: seq<(int, Probe)>, readings: map<int, Reading>,
                  denied: set<int>): Table
  {
    var t' := if cfg.procEvent && cfg.updateOnProcEvent then t else Scanned(t, cfg, found);
    match lane
    case Fast => t'
    case Pace => Updated(t', readings)
    case Slow => if cfg.procAcct then Marked(t', denied) else t'
  }

  /** What a step needs to know that is not in the table: the request at the front of the queue, and the
      pids whose accounting request is made and refused at a slow tick. */
  datatype Seen = Seen(front: Option<Action>, denied: set<int>)

  function Step(t: Table, cfg: Config, e: Event, seen: Seen): Table {
    match e
    case Fork(pid, tgid, probe) =>
      if pid == tgid && cfg.updateOnProcEvent then Added(t, cfg, tgid, probe) else t
    case Exec(pid, name) => if cfg.updateOnProcEvent then Executed(t, cfg, pid, name) else t
    case Exit(pid, tgid) =>
      if pid == tgid && cfg.updateOnProcEvent then Removed(t, {pid}, true) else t
    case Tick(lane, found, readings, _, _) => Ticked(t, cfg, lane, found, readings, seen.denied)
    case Rescan(found) => Scanned(t, cfg, found)
    case RemoveNamed(name, sync) => Removed(t, Named(t, name), sync)
    case HandleNext => if seen.front == Some(CommitProcList) then Committed(t) else t
    case _ => t
  }

  function SeenAt(r: Reg, cfg: Config, e: Event): Seen {
    Seen(if r.queue == [] then None else Some(r.queue[0]),
         if e.Tick? then LeavingPids(TickScan(r, cfg, e.found).procs, DeniedBy(e.wanted, e.refused)) else {})
  }

  // ---- The table of a registry ----

  ghost function Names(ps: seq<Proc>): (m: map<int, string>)
    requires OnePerPid(ps)
    ensures m.Keys == Pids(ps)
    ensures forall i :: 0 <= i < |ps| ==> ps[i].pid in m && m[ps[i].pid] == ps[i].info.comm
  {
    PidsAt(ps);
    map p | p in ps :: p.pid := p.info.comm
  }

  lemma PidsAt(ps: seq<Proc>)
    ensures forall i :: 0 <= i < |ps| ==> ps[i].pid in Pids(ps)
  {
    assert forall i :: 0 <= i < |ps| ==> ps[i] in ps;
  }

  /** A table is the table of a list when it has the same pids and the name of each entry. */
  lemma NamesUnique(ps: seq<Proc>, m: map<int, string>)
    requires OnePerPid(ps)
    requires m.Keys == Pids(ps)
    requires forall i :: 0 <= i < |ps| ==> ps[i].pid in m && m[ps[i].pid] == ps[i].info.comm
    ensures Names(ps) == m
  {
    forall pid | pid in m
      ensures Names(ps)[pid] == m[pid]
    {
      var p :| p in ps && p.pid == pid;
      var i :| 0 <= i < |ps| && ps[i] == p;
    }
  }

  ghost function TableOf(r: Reg): Table
    requires OnePerPid(r.procs)
  {
    Table(Names(r.procs), r.marked)
  }

  // ---- Each operation refines its table form ----

  lemma CommitTable(r: Reg)
    requires OnePerPid(r.procs)
    ensures OnePerPid(CommitProcs(r).procs)
    ensures TableOf(CommitProcs(r)) == Committed(TableOf(r))
  {
    WithoutPidsFacts(r.procs, r.marked);
    var rest := WithoutPids(r.procs, r.marked);
    var m := Names(r.procs) - r.marked;
    forall i | 0 <= i < |rest|
      ensures rest[i].pid in m && m[rest[i].pid] == rest[i].info.comm
    {
      var k :| 0 <= k < |r.procs| && r.procs[k] == rest[i];
    }
    NamesUnique(rest, m);
  }

  lemma AdmitTable(r: Reg, cfg: Config, pid: int, probe: Probe)
    requires Inv(r, cfg) && pid !in Pids(r.procs)
    ensures Inv(Admit(r, cfg, pid, probe), cfg)
    ensures TableOf(Admit(r, cfg, pid, probe)) == Added(TableOf(r), cfg, pid, probe)
  {
    AdmitInv(r, cfg, pid, probe);
    hide Blacklisted, ReadInit, Clean;
    hide OnePerId, EnsureCtx, CommitProcs;
    if Admits(cfg, probe) {
      var p := Entry(pid, probe);
      EnsureCtxKeepsProcs(AppendProc(r, p), p.info.ctxId, p.info.ctxName);
      CommitTable(r);
      AppendTable(CommitProcs(r).procs, p);
    }
  }

  lemma EnsureCtxKeepsProcs(r: Reg, id: U64, name: string)
    ensures EnsureCtx(r, id, name).procs == r.procs && EnsureCtx(r, id, name).marked == r.marked
  {
  }

  lemma AppendTable(ps: seq<Proc>, p: Proc)
    requires OnePerPid(ps) && OnePerPid(ps + [p])
    ensures Names(ps + [p]) == Names(ps)[p.pid := p.info.comm]
  {
    AppendedPids(ps, p);
    var qs := ps + [p];
    forall i | 0 <= i < |ps|
      ensures qs[i].pid != p.pid
    {
      assert qs[i].pid != qs[|ps|].pid;
    }
    NamesUnique(qs, Names(ps)[p.pid := p.info.comm]);
  }

  lemma {:induction false} ScanTable(r: Reg, cfg: Config, found: seq<(int, Probe)>)
    requires Inv(r, cfg)
    ensures Inv(Scan(r, cfg, found), cfg)
    ensures TableOf(Scan(r, cfg, found)) == Scanned(TableOf(r), cfg, found)
    decreases |found|
  {
    hide Admit, Clean, OnePerId;
    if found != [] {
      if found[0].0 !in Pids(r.procs) {
        AdmitTable(r, cfg, found[0].0, found[0].1);
      }
      ScanTable(Add(r, cfg, found[0].0, found[0].1), cfg, found[1..]);
    }
  }

  lemma ExecTable(r: Reg, cfg: Config, pid: int, name: Option<string>)
    requires Inv(r, cfg)
    ensures OnePerPid(Upd(r, cfg, pid, name).procs)
    ensures TableOf(Upd(r, cfg, pid, name)) == Executed(TableOf(r), cfg, pid, name)
  {
    hide Blacklisted, Clean, OnePerPid, OnePerId, Committed, CommitProcs, Names;
    UpdShape(r, cfg, pid, name);
    CommitTable(r);
    if pid in Pids(r.procs) {
      var p :| p in r.procs && p.pid == pid;
      var k :| 0 <= k < |r.procs| && r.procs[k] == p;
      hide Pids;
      if name.Some? && p.info.comm != name.value {
        if Blacklisted(cfg.blacklist, name.value) {
          MarkOne(r, k);
          CommitTable(Mark(r, {pid}));
        } else {
          RenameTable(r, k, name.value);
        }
      }
    }
  }

  lemma MarkOne(r: Reg, k: nat)
    requires k < |r.procs|
    ensures Mark(r, {r.procs[k].pid}) == r.(marked := r.marked + {r.procs[k].pid})
  {
    assert r.procs[k] in r.procs;
  }

  lemma RenameTable(r: Reg, k: nat, name: string)
    requires OnePerPid(r.procs) && k < |r.procs|
    ensures var p := r.procs[k];
            var r' := r.(procs := r.procs[k := p.(info := p.info.(comm := name))]);
            && OnePerPid(r'.procs)
            && TableOf(r') == TableOf(r).(names := Names(r.procs)[p.pid := name])
            && OnePerPid(CommitProcs(r').procs)
            && TableOf(CommitProcs(r')) == Committed(TableOf(r'))
  {
    hide CommitProcs, Committed, Names, Pids;
    var p := r.procs[k];
    var p' := p.(info := p.info.(comm := name));
    SamePids(r.procs, r.procs[k := p']);
    OtherPids(r.procs, k);
    hide OnePerPid;
    NamesUnique(r.procs[k := p'], Names(r.procs)[p.pid := name]);
    CommitTable(r.(procs := r.procs[k := p']));
  }

  lemma OtherPids(ps: seq<Proc>, k: nat)
    requires OnePerPid(ps) && k < |ps|
    ensures ps[k].pid in Pids(ps)
    ensures forall i :: 0 <= i < |ps| && i != k ==> ps[i].pid != ps[k].pid
  {
    assert ps[k] in ps;
    assert forall i :: 0 <= i < |ps| && i != k ==> PidOf(ps[i]) != PidOf(ps[k]);
  }

  lemma RemoveTable(r: Reg, pids: set<int>, sync: bool)
    requires OnePerPid(r.procs)
    ensures OnePerPid(Remove(r, pids, sync).procs)
    ensures TableOf(Remove(r, pids, sync)) == Removed(TableOf(r), pids, sync)
  {
    CommitTable(Mark(r, pids));
  }

  lemma NamedTable(r: Reg, name: string)
    requires OnePerPid(r.procs)
    ensures PidsNamed(r.procs, name) == Named(TableOf(r), name)
  {
    hide OnePerPid;
    var m := Names(r.procs);
    assert forall p :: p in r.procs ==> p.pid in m && m[p.pid] == p.info.comm;
    hide Names;
  }

  lemma FailingTable(ps: seq<Proc>, readings: map<int, Reading>)
    requires OnePerPid(ps)
    ensures LeavingPids(ps, FailsBy(readings))
         == set pid | pid in Names(ps) && !Succeeds(ReadingOf(readings, pid))
  {
    hide Succeeds, OnePerPid;
  }

  lemma PassTable(r: Reg, change: Proc -> Proc, leaves: Proc -> bool)
    requires OnePerPid(r.procs) && KeepsIdentity(change)
    ensures OnePerPid(PassFrom(r, change, leaves, 0).procs)
    ensures TableOf(PassFrom(r, change, leaves, 0))
         == TableOf(r).(marked := r.marked + LeavingPids(r.procs, leaves))
  {
    hide Clean, LeavingPids, OnePerPid, KeepsIdentity;
    PassShape(r, change, leaves, 0);
    PassKeepsIdentity(r, change, leaves);
    assert r.procs[0..] == r.procs;
    var qs := PassFrom(r, change, leaves, 0).procs;
    SameIdentityKeeps(r.procs, qs, []);
    SameNames(r.procs, qs);
  }

  lemma SameNames(ps: seq<Proc>, qs: seq<Proc>)
    requires OnePerPid(ps) && OnePerPid(qs) && |ps| == |qs| && Pids(ps) == Pids(qs)
    requires forall j :: 0 <= j < |ps| ==> qs[j].pid == ps[j].pid && qs[j].info.comm == ps[j].info.comm
    ensures Names(qs) == Names(ps)
  {
    NamesUnique(qs, Names(ps));
  }

  lemma HandleTable(r: Reg)
    requires OnePerPid(r.procs) && r.queue != []
    ensures OnePerPid(Handle(r).procs)
    ensures TableOf(Handle(r))
         == if r.queue[0] == CommitProcList then Committed(TableOf(r)) else TableOf(r)
  {
    var r' := r.(queue := r.queue[1..]);
    match r.queue[0]
    case CommitProcList => CommitTable(r');
    case CollectAndSendContextInfo => RecountShape(r', 0);
    case _ =>
  }

  lemma TickTable(r: Reg, cfg: Config, e: Event)
    requires Inv(r, cfg) && e.Tick?
    ensures OnePerPid(Next(r, cfg, e).procs)
    ensures TableOf(Next(r, cfg, e))
         == Ticked(TableOf(r), cfg, e.lane, e.found, e.readings, SeenAt(r, cfg, e).denied)
  {
    hide Clean, OnePerId, OnePerPid, Ids, Pids, Scan, PassFrom, Scanned, Names, LeavingPids, KeepsIdentity;
    hide ReadBy, FailsBy, AskedBy, DeniedBy, Succeeds;
    ScanTable(r, cfg, e.found);
    var r' := TickScan(r, cfg, e.found);
    PassesKeepIdentity(e.readings, e.wanted);
    PassTable(r', ReadBy(e.readings), FailsBy(e.readings));
    PassTable(r', AskedBy(e.wanted), DeniedBy(e.wanted, e.refused));
    FailingTable(r'.procs, e.readings);
    LeavingListed(r'.procs, DeniedBy(e.wanted, e.refused));
  }

  lemma LeavingListed(ps: seq<Proc>, leaves: Proc -> bool)
    ensures LeavingPids(ps, leaves) * Pids(ps) == LeavingPids(ps, leaves)
  {
  }

  lemma AnswerTable(r: Reg, cfg: Config, pid: int, record: seq<nat>)
    requires Inv(r, cfg)
    ensures OnePerPid(r.procs) && OnePerPid(Answer(r, pid, record).procs)
    ensures TableOf(Answer(r, pid, record)) == TableOf(r)
  {
    hide Clean, OnePerId, Ids, Pids, OnePerPid;
    InvOnePerPid(r, cfg);
    AnswerInv(r, cfg, pid, record);
    InvOnePerPid(Answer(r, pid, record), cfg);
    SameIdentityKeeps(r.procs, Answer(r, pid, record).procs, []);
    SameNames(r.procs, Answer(r, pid, record).procs);
  }

  // ---- Refinement of every step and every run ----

  lemma NextTable(r: Reg, cfg: Config, e: Event)
    requires Inv(r, cfg)
    ensures OnePerPid(r.procs) && OnePerPid(Next(r, cfg, e).procs)
    ensures TableOf(Next(r, cfg, e)) == Step(TableOf(r), cfg, e, SeenAt(r, cfg, e))
  {
    hide *;
    InvOnePerPid(r, cfg);
    NextInv(r, cfg, e);
    InvOnePerPid(Next(r, cfg, e), cfg);
    if e.Fork? || e.Exec? || e.Exit? || e.Uid? || e.Gid? {
      ProcessEventTable(r, cfg, e);
    } else {
      LoopEventTable(r, cfg, e);
    }
  }

  lemma ProcessEventTable(r: Reg, cfg: Config, e: Event)
    requires Inv(r, cfg)
    requires e.Fork? || e.Exec? || e.Exit? || e.Uid? || e.Gid?
    ensures OnePerPid(r.procs) && OnePerPid(Next(r, cfg, e).procs)
    ensures TableOf(Next(r, cfg, e)) == Step(TableOf(r), cfg, e, SeenAt(r, cfg, e))
  {
    InvOnePerPid(r, cfg);
    hide Inv, OnePerPid, Pids, Add, Upd, Remove, TableOf, Added, Executed, Removed;
    match e
    case Fork(pid, tgid, probe) => AddTable(r, cfg, tgid, probe);
    case Exec(pid, name) => ExecTable(r, cfg, pid, name);
    case Exit(pid, tgid) => RemoveTable(r, {pid}, true);
    case _ =>
  }

  lemma LoopEventTable(r: Reg, cfg: Config, e: Event)
    requires Inv(r, cfg)
    requires !(e.Fork? || e.Exec? || e.Exit? || e.Uid? || e.Gid?)
    ensures OnePerPid(r.procs) && OnePerPid(Next(r, cfg, e).procs)
    ensures TableOf(Next(r, cfg, e)) == Step(TableOf(r), cfg, e, SeenAt(r, cfg, e))
  {
    InvOnePerPid(r, cfg);
    hide Inv, OnePerPid, Pids, LaneTick, Remove, Scan, Handle, PidsNamed, TableOf;
    hide Ticked, Removed, Scanned, Committed, Named, Answer, LeavingPids, TickScan, DeniedBy;
    match e
    case Tick(_, _, _, _, _) => TickTable(r, cfg, e);
    case AcctAnswer(pid, record) => AnswerTable(r, cfg, pid, record);
    case Rescan(found) => ScanTable(r, cfg, found);
    case RemoveNamed(name, sync) =>
      NamedTable(r, name);
      RemoveTable(r, PidsNamed(r.procs, name), sync);
    case HandleNext =>
      if r.queue != [] {
        HandleTable(r);
      }
    case Request(a) => PushTable(r, a);
    case _ =>
  }

  lemma InvOnePerPid(r: Reg, cfg: Config)
    requires Inv(r, cfg)
    ensures OnePerPid(r.procs)
  {
  }

  lemma AddTable(r: Reg, cfg: Config, pid: int, probe: Probe)
    requires Inv(r, cfg)
    ensures OnePerPid(Add(r, cfg, pid, probe).procs)
    ensures TableOf(Add(r, cfg, pid, probe)) == Added(TableOf(r), cfg, pid, probe)
  {
    hide Admit, Admits, Clean, OnePerId;
    if pid !in Pids(r.procs) {
      AdmitTable(r, cfg, pid, probe);
    }
  }

  lemma PushTable(r: Reg, a: Action)
    requires OnePerPid(r.procs)
    ensures OnePerPid(Push(r, a).procs) && TableOf(Push(r, a)) == TableOf(r)
  {
  }

  function Steps(t: Table, cfg: Config, es: seq<Event>, seen: seq<Seen>): Table
    requires |seen| == |es|
    decreases |es|
  {
    if es == [] then t else Steps(Step(t, cfg, es[0], seen[0]), cfg, es[1..], seen[1..])
  }

  /** What is seen at each event of a run. */
  function SeenOver(r: Reg, cfg: Config, es: seq<Event>): (seen: seq<Seen>)
    ensures |seen| == |es|
    decreases |es|
  {
    if es == [] then [] else [SeenAt(r, cfg, es[0])] + SeenOver(Next(r, cfg, es[0]), cfg, es[1..])
  }

  /** In every run the process list is the table that the same events produce. */
  lemma {:induction false} RunTable(r: Reg, cfg: Config, es: seq<Event>)
    requires Inv(r, cfg)
    ensures OnePerPid(Run(r, cfg, es).procs)
    ensures TableOf(Run(r, cfg, es)) == Steps(TableOf(r), cfg, es, SeenOver(r, cfg, es))
    decreases |es|
  {
    hide Next, Step, Clean, OnePerPid, OnePerId, Names, SeenAt;
    if es != [] {
      NextTable(r, cfg, es[0]);
      NextInv(r, cfg, es[0]);
      RunTable(Next(r, cfg, es[0]), cfg, es[1..]);
      assert SeenOver(r, cfg, es)[1..] == SeenOver(Next(r, cfg, es[0]), cfg, es[1..]);
    }
  }

  // ---- When a process leaves ----

  predicate Stays(t: Table, pid: int) { pid in t.names && pid !in t.marked }

  /** The event does not ask for the removal of a listed pid: no exit, no exec under a blacklisted
      new name, no failed reading, no refused accounting request, no removal by name. */
  predicate Spares(t: Table, cfg: Config, e: Event, seen: Seen, pid: int) {
    pid in t.names &&
    match e
    case Exec(p, name) =>
      !(cfg.updateOnProcEvent && p == pid && name.Some? && name.value != t.names[pid]
        && Blacklisted(cfg.blacklist, name.value))
    case Exit(p, tgid) => !(cfg.updateOnProcEvent && p == tgid == pid)
    case Tick(lane, _, readings, _, _) =>
      && (lane.Pace? ==> Succeeds(ReadingOf(readings, pid)))
      && (lane.Slow? && cfg.procAcct ==> pid !in seen.denied)
    case RemoveNamed(name, _) => t.names[pid] != name
    case _ => true
  }

  lemma {:induction false} ScanKeeps(t: Table, cfg: Config, found: seq<(int, Probe)>, pid: int)
    requires Stays(t, pid)
    ensures Stays(Scanned(t, cfg, found), pid)
    ensures Scanned(t, cfg, found).names[pid] == t.names[pid]
    decreases |found|
  {
    hide Admits;
    if found != [] {
      ScanKeeps(Added(t, cfg, found[0].0, found[0].1), cfg, found[1..], pid);
    }
  }

  /** One step keeps an unmarked process exactly when the event spares it, whatever request is at
      the front of the queue: a leftover commit request never drops it. */
  lemma StaysIffSpared(t: Table, cfg: Config, e: Event, seen: Seen, pid: int)
    requires Stays(t, pid)
    ensures Stays(Step(t, cfg, e, seen), pid) <==> Spares(t, cfg, e, seen, pid)
  {
    hide Admits, Succeeds, Blacklisted, Scanned;
    match e
    case Tick(_, found, _, _, _) => ScanKeeps(t, cfg, found, pid);
    case Rescan(found) => ScanKeeps(t, cfg, found, pid);
    case _ =>
  }

  // ---- Over whole runs of the registry ----

  /** The process is listed and not marked for removal. */
  predicate Lives(r: Reg, pid: int) { pid in Pids(r.procs) && pid !in r.marked }

  /** No event of the run asks for the removal of the process. */
  ghost predicate SparedBy(r: Reg, cfg: Config, es: seq<Event>, pid: int)
    requires Inv(r, cfg)
    decreases |es|
  {
    es == [] ||
    (NextInv(r, cfg, es[0]);
     Spares(TableOf(r), cfg, es[0], SeenAt(r, cfg, es[0]), pid) && SparedBy(Next(r, cfg, es[0]), cfg, es[1..], pid))
  }

  /** The process lives in every state of the run. */
  predicate LivesThrough(r: Reg, cfg: Config, es: seq<Event>, pid: int)
    decreases |es|
  {
    Lives(r, pid) && (es == [] || LivesThrough(Next(r, cfg, es[0]), cfg, es[1..], pid))
  }

  /** One step of the registry keeps a living process exactly when the event spares it. */
  lemma LivesIffSpared(r: Reg, cfg: Config, e: Event, pid: int)
    requires Inv(r, cfg) && Lives(r, pid)
    ensures Lives(Next(r, cfg, e), pid) <==> Spares(TableOf(r), cfg, e, SeenAt(r, cfg, e), pid)
  {
    hide Next, Step, Spares, Pids, Clean, OnePerPid, OnePerId;
    NextTable(r, cfg, e);
    StaysIffSpared(TableOf(r), cfg, e, SeenAt(r, cfg, e), pid);
  }

  /** In every run of the registry a process lives through all states if and only if no event asks for
      its removal: whatever requests are queued, scans and reports come in between. */
  lemma {:induction false} SurvivesRun(r: Reg, cfg: Config, es: seq<Event>, pid: int)
    requires Inv(r, cfg) && Lives(r, pid)
    ensures LivesThrough(r, cfg, es, pid) <==> SparedBy(r, cfg, es, pid)
    ensures SparedBy(r, cfg, es, pid) ==> Lives(Run(r, cfg, es), pid)
    decreases |es|
  {
    hide Next, Spares, Pids, Inv;
    if es != [] {
      NextInv(r, cfg, es[0]);
      LivesIffSpared(r, cfg, es[0], pid);
      if Lives(Next(r, cfg, es[0]), pid) {
        SurvivesRun(Next(r, cfg, es[0]), cfg, es[1..], pid);
      }
    }
  }

  /** Handling requests asks for the removal of no living process. */
  lemma {:induction false} RequestsSpare(r: Reg, cfg: Config, later: seq<Event>, pid: int)
    requires Inv(r, cfg) && Lives(r, pid)
    requires forall i :: 0 <= i < |later| ==> later[i].HandleNext? || later[i].Request?
    ensures SparedBy(r, cfg, later, pid)
    decreases |later|
  {
    hide Next, Inv, Pids, Names;
    if later != [] {
      NextInv(r, cfg, later[0]);
      LivesIffSpared(r, cfg, later[0], pid);
      ListedName(r, cfg, pid);
      RequestsSpare(Next(r, cfg, later[0]), cfg, later[1..], pid);
    }
  }

  lemma ListedName(r: Reg, cfg: Config, pid: int)
    requires Inv(r, cfg) && Lives(r, pid)
    ensures OnePerPid(r.procs) && pid in TableOf(r).names
  {
  }
}
