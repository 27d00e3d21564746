/** The process and context registry on values: what every operation does to the two lists, the
    changes staged on them and the request queue. The classes in ProcRegistry.dfy are proved
    against these functions, and RegistryProofs.dfy proves what holds in every run. */
module Registry {
  import opened Words
  import opened Keyed
  import opened Text
  import opened StatLine
  import opened ProcEntries

  // ---- State ----

  datatype Metric = CpuTime | CpuPercent | MemRss | MemPss

  datatype Totals = Totals(cpuTime: U64, cpuPercent: U32, memRss: U64, memPss: U64) {
    function Of(m: Metric): nat {
      match m
      case CpuTime => cpuTime
      case CpuPercent => cpuPercent
      case MemRss => memRss
      case MemPss => memPss
    }
  }

  const NO_TOTALS := Totals(0, 0, 0, 0)

  datatype Ctx = Ctx(id: U64, name: string, totals: Totals)

  datatype Action =
    | CommitProcList | CommitContextList
    | CollectAndSendProcAcct | CollectAndSendProcInfo | CollectAndSendContextInfo

  /** `marked` and `ctxMarked` are the pids and context ids whose entries are staged for removal. */
  datatype Reg = Reg(procs: seq<Proc>, marked: set<int>,
                     ctxs: seq<Ctx>, ctxMarked: set<U64>,
                     queue: seq<Action>)

  const EMPTY := Reg([], {}, [], {}, [])

  /** The options that matter: blacklist keys (none without a configuration file), whether process
      events are received, whether the registry follows them, and whether there is accounting. */
  datatype Config = Config(blacklist: seq<string>, procEvent: bool, updateOnProcEvent: bool, procAcct: bool)

  function Pids(ps: seq<Proc>): set<int> { set p | p in ps :: p.pid }

  function Ids(cs: seq<Ctx>): set<U64> { set c | c in cs :: c.id }

  function PidOf(p: Proc): int { p.pid }

  function IdOf(c: Ctx): U64 { c.id }

  function WithoutPids(ps: seq<Proc>, gone: set<int>): seq<Proc> { Drop(ps, PidOf, gone) }

  function WithoutIds(cs: seq<Ctx>, gone: set<U64>): seq<Ctx> { Drop(cs, IdOf, gone) }

  // ---- Blacklist ----

  predicate Blacklisted(keys: seq<string>, name: string) {
    exists i :: 0 <= i < |keys| && Contains(name, keys[i])
  }

  /** A name is blacklisted exactly when it is some key with text before and after it. */
  lemma BlacklistedIff(keys: seq<string>, name: string)
    ensures Blacklisted(keys, name)
            <==> exists i, before, after :: 0 <= i < |keys| && Around(name, before, keys[i], after)
  {
    forall i | 0 <= i < |keys|
      ensures Contains(name, keys[i]) <==> exists before, after :: Around(name, before, keys[i], after)
    {
      ContainsIff(name, keys[i]);
    }
  }

  // ---- Operations ----

  function CommitProcs(r: Reg): Reg {
    r.(procs := WithoutPids(r.procs, r.marked), marked := {})
  }

  function CommitCtxs(r: Reg): Reg {
    r.(ctxs := WithoutIds(r.ctxs, r.ctxMarked), ctxMarked := {})
  }

  /** What the system answers when a pid is examined: the name in its status file, the text of its
      stat file, and its context. `None` is a file that cannot be read. */
  datatype Probe = Probe(name: Option<string>, stat: Option<string>, ctxId: U64, ctxName: string)

  /** Whether examining a pid leads to an entry. */
  predicate Admits(cfg: Config, probe: Probe) {
    && probe.name.Some?
    && !Blacklisted(cfg.blacklist, probe.name.value)
    && ReadInit(probe.stat).Some?
  }

  function Entry(pid: int, probe: Probe): Proc
    requires probe.name.Some? && ReadInit(probe.stat).Some?
  {
    NewProc(pid, probe.name.value, ReadInit(probe.stat).value, probe.ctxId, probe.ctxName)
  }

  /** Appending commits at once, and with it whatever was staged on the same list. */
  function AppendProc(r: Reg, p: Proc): Reg {
    var r' := CommitProcs(r);
    r'.(procs := r'.procs + [p])
  }

  function AppendCtx(r: Reg, c: Ctx): Reg {
    var r' := CommitCtxs(r);
    r'.(ctxs := r'.ctxs + [c])
  }

  /** A context staged for removal still counts as present. */
  function EnsureCtx(r: Reg, id: U64, name: string): Reg {
    if id in Ids(r.ctxs) then r else AppendCtx(r, Ctx(id, name, NO_TOTALS))
  }

  function Create(r: Reg, p: Proc): Reg {
    EnsureCtx(AppendProc(r, p), p.info.ctxId, p.info.ctxName)
  }

  /** Create without looking for an entry of the same pid. */
  function Admit(r: Reg, cfg: Config, pid: int, probe: Probe): Reg {
    if Admits(cfg, probe) then Create(r, Entry(pid, probe)) else r
  }

  function Add(r: Reg, cfg: Config, pid: int, probe: Probe): Reg {
    if pid in Pids(r.procs) then r else Admit(r, cfg, pid, probe)
  }

  /** The entry at `i` after an exec of `pid`: renamed, or staged for removal when the new name is
      blacklisted, or left alone when the name cannot be read or did not change. */
  function UpdAt(r: Reg, cfg: Config, pid: int, name: Option<string>, i: nat): Reg
    requires i < |r.procs|
  {
    var p := r.procs[i];
    if p.pid != pid || name.None? || p.info.comm == name.value then r
    else if Blacklisted(cfg.blacklist, name.value) then r.(marked := r.marked + {pid})
    else r.(procs := r.procs[i := p.(info := p.info.(comm := name.value))])
  }

  function UpdFrom(r: Reg, cfg: Config, pid: int, name: Option<string>, i: nat): Reg
    requires i <= |r.procs|
    decreases |r.procs| - i
  {
    if i == |r.procs| then r else UpdFrom(UpdAt(r, cfg, pid, name, i), cfg, pid, name, i + 1)
  }

  /** Exec. It always commits. */
  function Upd(r: Reg, cfg: Config, pid: int, name: Option<string>): Reg {
    CommitProcs(UpdFrom(r, cfg, pid, name, 0))
  }

  /** Stage the listed entries with one of these pids for removal. */
  function Mark(r: Reg, pids: set<int>): Reg {
    r.(marked := r.marked + (pids * Pids(r.procs)))
  }

  function Push(r: Reg, a: Action): Reg { r.(queue := r.queue + [a]) }

  function Remove(r: Reg, pids: set<int>, sync: bool): Reg {
    if sync then CommitProcs(Mark(r, pids)) else Push(Mark(r, pids), CommitProcList)
  }

  function PidsNamed(ps: seq<Proc>, name: string): set<int> {
    set p | p in ps && p.info.comm == name :: p.pid
  }

  lemma PidsNamedStart(ps: seq<Proc>, name: string)
    ensures PidsNamed(ps[..0], name) == {}
    ensures PidsNamed(ps, name) * Pids(ps) == PidsNamed(ps, name)
  {
  }

  lemma PidsNamedStep(ps: seq<Proc>, i: nat, name: string)
    requires i < |ps|
    ensures PidsNamed(ps[..i + 1], name)
         == PidsNamed(ps[..i], name) + (if ps[i].info.comm == name then {ps[i].pid} else {})
  {
    assert ps[..i + 1] == ps[..i] + [ps[i]];
    if ps[i].info.comm == name {
      assert ps[i] in ps[..i + 1];
    }
  }

  function Scan(r: Reg, cfg: Config, found: seq<(int, Probe)>): Reg
    decreases |found|
  {
    if found == [] then r else Scan(Add(r, cfg, found[0].0, found[0].1), cfg, found[1..])
  }

  /** The scan before the first event. It does not look for duplicates. */
  function InitFromProc(r: Reg, cfg: Config, found: seq<(int, Probe)>): Reg
    decreases |found|
  {
    if found == [] then r else InitFromProc(Admit(r, cfg, found[0].0, found[0].1), cfg, found[1..])
  }

  /** The directory listed each pid once, and none of the given ones. */
  ghost predicate FoundOnce(found: seq<(int, Probe)>, listed: set<int>) {
    && (forall i, j :: 0 <= i < j < |found| ==> found[i].0 != found[j].0)
    && (forall i :: 0 <= i < |found| ==> found[i].0 !in listed)
  }

  // ---- Passes over the list ----

  /** One entry of a pass that changes every entry and lets some of them ask for their own removal. */
  function PassAt(r: Reg, change: Proc -> Proc, leaves: Proc -> bool, i: nat): Reg
    requires i < |r.procs|
  {
    var p := r.procs[i];
    var r' := r.(procs := r.procs[i := change(p)]);
    if leaves(p) then Remove(r', {p.pid}, false) else r'
  }

  function PassFrom(r: Reg, change: Proc -> Proc, leaves: Proc -> bool, i: nat): Reg
    requires i <= |r.procs|
    decreases |r.procs| - i
  {
    if i == |r.procs| then r else PassFrom(PassAt(r, change, leaves, i), change, leaves, i + 1)
  }

  function ReadingOf(readings: map<int, Reading>, pid: int): Reading {
    if pid in readings then readings[pid] else GONE
  }

  /** The periodic update: an entry that fails leaves. */
  function ReadBy(readings: map<int, Reading>): Proc -> Proc {
    (p: Proc) => Update(p, ReadingOf(readings, p.pid))
  }

  function FailsBy(readings: map<int, Reading>): Proc -> bool {
    (p: Proc) => !Succeeds(ReadingOf(readings, p.pid))
  }

  function UpdateAll(r: Reg, readings: map<int, Reading>): Reg {
    PassFrom(r, ReadBy(readings), FailsBy(readings), 0)
  }

  /** Some entry of the list divides by zero in its update, which stops the program. */
  predicate UpdateStops(r: Reg, readings: map<int, Reading>) {
    exists i :: 0 <= i < |r.procs| && DividesByZero(r.procs[i], ReadingOf(readings, r.procs[i].pid))
  }

  /** The accounting pass, when a collector wants the data: an entry that awaits no answer asks for one,
      and leaves when its request is refused. */
  function AskedBy(wanted: bool): Proc -> Proc {
    (p: Proc) => if wanted then AskedAcct(p) else p
  }

  function DeniedBy(wanted: bool, refused: set<int>): Proc -> bool {
    (p: Proc) => wanted && !p.acct.pending && p.pid in refused
  }

  function AcctAll(r: Reg, wanted: bool, refused: set<int>): Reg {
    PassFrom(r, AskedBy(wanted), DeniedBy(wanted, refused), 0)
  }

  /** The last entry with a pid, or -1. */
  function LastPlace(ps: seq<Proc>, pid: int): (i: int)
    ensures -1 <= i < |ps|
    ensures i >= 0 ==> ps[i].pid == pid
    ensures forall j :: i < j < |ps| ==> ps[j].pid != pid
  {
    if ps == [] then -1
    else if ps[|ps| - 1].pid == pid then |ps| - 1
    else LastPlace(ps[..|ps| - 1], pid)
  }

  /** An accounting record arrives; one for a pid that is not listed is dropped. */
  function Answer(r: Reg, pid: int, record: seq<nat>): Reg {
    var i := LastPlace(r.procs, pid);
    if i < 0 then r else r.(procs := r.procs[i := r.procs[i].(acct := Acct(record, false))])
  }

  /** A lane tick scans unless process events drive the registry. */
  function TickScan(r: Reg, cfg: Config, found: seq<(int, Probe)>): Reg {
    if cfg.procEvent && cfg.updateOnProcEvent then r else Scan(r, cfg, found)
  }

  /** After that the pace lane reads process information and the slow lane asks for accounting data. */
  function LaneTick(r: Reg, cfg: Config, lane: Lane, found: seq<(int, Probe)>,
                    readings: map<int, Reading>, wanted: bool, refused: set<int>): Reg
  {
    match lane
    case Fast => TickScan(r, cfg, found)
    case Pace => UpdateAll(TickScan(r, cfg, found), readings)
    case Slow => if cfg.procAcct then AcctAll(TickScan(r, cfg, found), wanted, refused) else TickScan(r, cfg, found)
  }

  // ---- Context report ----

  function Use(p: Proc, m: Metric): nat {
    match m
    case CpuTime => p.info.cpuTime
    case CpuPercent => p.info.cpuPercent
    case MemRss => p.info.memRss
    case MemPss => p.info.memPss
  }

  function Width(m: Metric): Pos { if m.CpuPercent? then TWO32 else TWO64 }

  /** What the listed processes of a set of contexts use together. */
  function UseIn(ps: seq<Proc>, ids: set<U64>, m: Metric): nat {
    if ps == [] then 0
    else (if ps[|ps| - 1].info.ctxId in ids then Use(ps[|ps| - 1], m) else 0)
         + UseIn(ps[..|ps| - 1], ids, m)
  }

  /** The totals of one context, in the width of their fields. */
  function TotalsFor(ps: seq<Proc>, id: U64): Totals {
    Totals(Wrap64(UseIn(ps, {id}, CpuTime)), Wrap32(UseIn(ps, {id}, CpuPercent)),
           Wrap64(UseIn(ps, {id}, MemRss)), Wrap64(UseIn(ps, {id}, MemPss)))
  }

  lemma WrapStep(a: int, b: int)
    ensures Wrap64(a + b) == Add64(Wrap64(a), b)
    ensures Wrap32(a + b) == Wrap32(Wrap32(a) as int + b)
  {
    ModuloTwice(a, TWO64);
    AddModulo(a, b, Wrap64(a), b, TWO64);
    ModuloTwice(a, TWO32);
    AddModulo(a, b, Wrap32(a), b, TWO32);
  }

  function Accumulated(t: Totals, p: Proc): Totals {
    Totals(Add64(t.cpuTime, p.info.cpuTime), Wrap32(t.cpuPercent as int + p.info.cpuPercent),
           Add64(t.memRss, p.info.memRss), Add64(t.memPss, p.info.memPss))
  }

  lemma NoTotals(ps: seq<Proc>, id: U64)
    ensures TotalsFor(ps[..0], id) == NO_TOTALS
  {
  }

  /** Counting one more process of the list. */
  lemma TotalsStep(ps: seq<Proc>, k: nat, id: U64)
    requires k < |ps|
    ensures TotalsFor(ps[..k + 1], id)
         == if ps[k].info.ctxId == id then Accumulated(TotalsFor(ps[..k], id), ps[k])
            else TotalsFor(ps[..k], id)
  {
    hide Wrap64, Wrap32, Add64;
    assert ps[..k + 1][..k] == ps[..k];
    WrapStep(UseIn(ps[..k], {id}, CpuTime), Use(ps[k], CpuTime));
    WrapStep(UseIn(ps[..k], {id}, CpuPercent), Use(ps[k], CpuPercent));
    WrapStep(UseIn(ps[..k], {id}, MemRss), Use(ps[k], MemRss));
    WrapStep(UseIn(ps[..k], {id}, MemPss), Use(ps[k], MemPss));
  }

  function CtxIdsOf(ps: seq<Proc>): set<U64> { set p | p in ps :: p.info.ctxId }

  /** The context at `i` counted again; one without a process is staged for removal. */
  function RecountAt(r: Reg, i: nat): Reg
    requires i < |r.ctxs|
  {
    var c := r.ctxs[i];
    var r' := r.(ctxs := r.ctxs[i := c.(totals := TotalsFor(r.procs, c.id))]);
    if c.id in CtxIdsOf(r.procs) then r' else r'.(ctxMarked := r'.ctxMarked + {c.id})
  }

  function RecountFrom(r: Reg, i: nat): Reg
    requires i <= |r.ctxs|
    decreases |r.ctxs| - i
  {
    if i == |r.ctxs| then r else RecountFrom(RecountAt(r, i), i + 1)
  }

  /** What a context report does to the registry; it sends the contexts as they are afterwards. */
  function Report(r: Reg): Reg {
    Push(RecountFrom(r, 0), CommitContextList)
  }

  // ---- Requests and events ----

  /** The queue hands out its oldest request. */
  function Handle(r: Reg): Reg
    requires r.queue != []
  {
    var r' := r.(queue := r.queue[1..]);
    match r.queue[0]
    case CommitProcList => CommitProcs(r')
    case CommitContextList => CommitCtxs(r')
    case CollectAndSendContextInfo => Report(r')
    case _ => r'
  }

  /** What handling a request sends to the collector that made it: one message with all processes, one
      with all contexts, or one message for each accounting record. */
  datatype Sent =
    | Nothing
    | ProcInfo(entries: seq<Info>)
    | ContextInfo(contexts: seq<Ctx>)
    | ProcAcct(records: seq<seq<nat>>)

  function Infos(ps: seq<Proc>): seq<Info> { seq(|ps|, i requires 0 <= i < |ps| => ps[i].info) }

  function Records(ps: seq<Proc>): seq<seq<nat>> { seq(|ps|, i requires 0 <= i < |ps| => ps[i].acct.record) }

  /** Processes are sent as they are listed, marked ones included; contexts as they are counted, staged
      ones included. Without accounting a request for its data is ignored. */
  function SentBy(r: Reg, cfg: Config): Sent
    requires r.queue != []
  {
    match r.queue[0]
    case CollectAndSendProcAcct => if cfg.procAcct then ProcAcct(Records(r.procs)) else Nothing
    case CollectAndSendProcInfo => ProcInfo(Infos(r.procs))
    case CollectAndSendContextInfo => ContextInfo(Handle(r).ctxs)
    case _ => Nothing
  }

  datatype Event =
    | Fork(pid: int, tgid: int, probe: Probe)
    | Exec(pid: int, newName: Option<string>)
    | Exit(pid: int, tgid: int)
    | Uid
    | Gid
    | Tick(lane: Lane, found: seq<(int, Probe)>, readings: map<int, Reading>, wanted: bool, refused: set<int>)
    | AcctAnswer(pid: int, record: seq<nat>)
    | Rescan(found: seq<(int, Probe)>)
    | RemoveNamed(name: string, sync: bool)
    | Request(action: Action)
    | HandleNext

  /** One step of the event loop. */
  function Next(r: Reg, cfg: Config, e: Event): Reg {
    match e
    case Fork(pid, tgid, probe) =>
      if pid == tgid && cfg.updateOnProcEvent then Add(r, cfg, tgid, probe) else r
    case Exec(pid, name) => if cfg.updateOnProcEvent then Upd(r, cfg, pid, name) else r
    case Exit(pid, tgid) =>
      if pid == tgid && cfg.updateOnProcEvent then Remove(r, {pid}, true) else r
    case Uid => r
    case Gid => r
    case Tick(lane, found, readings, wanted, refused) =>
      LaneTick(r, cfg, lane, found, readings, wanted, refused)
    case AcctAnswer(pid, record) => Answer(r, pid, record)
    case Rescan(found) => Scan(r, cfg, found)
    case RemoveNamed(name, sync) => Remove(r, PidsNamed(r.procs, name), sync)
    case Request(a) => Push(r, a)
    case HandleNext => if r.queue == [] then r else Handle(r)
  }

  /** What one step sends. */
  function SentAt(r: Reg, cfg: Config, e: Event): Sent {
    if e.HandleNext? && r.queue != [] then SentBy(r, cfg) else Nothing
  }

  /** The step stops the program by a division by zero. */
  predicate Stops(r: Reg, cfg: Config, e: Event) {
    e.Tick? && e.lane.Pace? && UpdateStops(TickScan(r, cfg, e.found), e.readings)
  }

  function Run(r: Reg, cfg: Config, es: seq<Event>): Reg
    decreases |es|
  {
    if es == [] then r else Run(Next(r, cfg, es[0]), cfg, es[1..])
  }

  /** What a run sends, in order. */
  function Answers(r: Reg, cfg: Config, es: seq<Event>): (answers: seq<Sent>)
    ensures forall i :: 0 <= i < |answers| ==> !answers[i].Nothing?
    decreases |es|
  {
    if es == [] then []
    else
      (if SentAt(r, cfg, es[0]).Nothing? then [] else [SentAt(r, cfg, es[0])])
      + Answers(Next(r, cfg, es[0]), cfg, es[1..])
  }

  /** Some step of a run stops the program. */
  predicate RunStops(r: Reg, cfg: Config, es: seq<Event>)
    decreases |es|
  {
    es != [] && (Stops(r, cfg, es[0]) || RunStops(Next(r, cfg, es[0]), cfg, es[1..]))
  }
}
