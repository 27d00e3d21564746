/** Every report that is asked for is sent, once and in order, and what a context report says adds up. */
module Reports {
  import opened Words
  import opened ProcEntries
  import opened Registry
  import opened RegistryProofs
  import opened NameTable
  import opened Contexts

  /** Whether a request is answered: the commits are not, and accounting data only if there is some. */
  predicate IsReport(cfg: Config, a: Action) {
    match a
    case CollectAndSendProcInfo => true
    case CollectAndSendContextInfo => true
    case CollectAndSendProcAcct => cfg.procAcct
    case _ => false
  }

  function ReportsIn(cfg: Config, q: seq<Action>): seq<Action> {
    if q == [] then []
    else (if IsReport(cfg, q[0]) then [q[0]] else []) + ReportsIn(cfg, q[1..])
  }

  /** The reports that a run asks for. */
  function Asked(cfg: Config, es: seq<Event>): seq<Action> {
    if es == [] then []
    else (if es[0].Request? then ReportsIn(cfg, [es[0].action]) else []) + Asked(cfg, es[1..])
  }

  /** The request that an answer is for. */
  function KindOf(s: Sent): Action
    requires !s.Nothing?
  {
    match s
    case ProcInfo(_) => CollectAndSendProcInfo
    case ContextInfo(_) => CollectAndSendContextInfo
    case ProcAcct(_) => CollectAndSendProcAcct
  }

  function Kinds(answers: seq<Sent>): seq<Action>
    requires forall i :: 0 <= i < |answers| ==> !answers[i].Nothing?
  {
    seq(|answers|, i requires 0 <= i < |answers| => KindOf(answers[i]))
  }

  lemma {:induction false} ReportsConcat(cfg: Config, q: seq<Action>, p: seq<Action>)
    ensures ReportsIn(cfg, q + p) == ReportsIn(cfg, q) + ReportsIn(cfg, p)
  {
    if q == [] {
      assert q + p == p;
    } else {
      assert (q + p)[1..] == q[1..] + p;
      ReportsConcat(cfg, q[1..], p);
    }
  }

  // ---- What a step adds to the queue ----

  lemma {:induction false} ScanQueue(r: Reg, cfg: Config, found: seq<(int, Probe)>)
    ensures Scan(r, cfg, found).queue == r.queue
    decreases |found|
  {
    hide Admits;
    if found != [] {
      ScanQueue(Add(r, cfg, found[0].0, found[0].1), cfg, found[1..]);
    }
  }

  lemma {:induction false} UpdQueue(r: Reg, cfg: Config, pid: int, name: Option<string>, i: nat)
    requires i <= |r.procs|
    ensures UpdFrom(r, cfg, pid, name, i).queue == r.queue
    decreases |r.procs| - i
  {
    if i < |r.procs| {
      UpdQueue(UpdAt(r, cfg, pid, name, i), cfg, pid, name, i + 1);
    }
  }

  lemma CommitsAreNoReports(cfg: Config, q: seq<Action>)
    ensures ReportsIn(cfg, q + [CommitProcList]) == ReportsIn(cfg, q)
    ensures ReportsIn(cfg, q + [CommitContextList]) == ReportsIn(cfg, q)
  {
    ReportsConcat(cfg, q, [CommitProcList]);
    ReportsConcat(cfg, q, [CommitContextList]);
    assert [CommitProcList][1..] == [] && [CommitContextList][1..] == [];
  }

  lemma {:induction false} PassQueue(r: Reg, cfg: Config, change: Proc -> Proc, leaves: Proc -> bool, i: nat)
    requires i <= |r.procs|
    ensures ReportsIn(cfg, PassFrom(r, change, leaves, i).queue) == ReportsIn(cfg, r.queue)
    decreases |r.procs| - i
  {
    hide ReportsIn;
    if i < |r.procs| {
      CommitsAreNoReports(cfg, r.queue);
      PassQueue(PassAt(r, change, leaves, i), cfg, change, leaves, i + 1);
    }
  }

  lemma TickQueue(r: Reg, cfg: Config, e: Event)
    requires e.Tick?
    ensures ReportsIn(cfg, Next(r, cfg, e).queue) == ReportsIn(cfg, r.queue)
  {
    hide ReportsIn, Scan, PassFrom;
    ScanQueue(r, cfg, e.found);
    PassQueue(TickScan(r, cfg, e.found), cfg, ReadBy(e.readings), FailsBy(e.readings), 0);
    PassQueue(TickScan(r, cfg, e.found), cfg, AskedBy(e.wanted), DeniedBy(e.wanted, e.refused), 0);
  }

  /** Events other than requests and the queue's own steps leave the queued reports alone. */
  lemma OtherQueue(r: Reg, cfg: Config, e: Event)
    requires !e.Request? && !e.HandleNext?
    ensures ReportsIn(cfg, Next(r, cfg, e).queue) == ReportsIn(cfg, r.queue)
  {
    hide ReportsIn, Scan, LaneTick, UpdFrom, Admits, LastPlace, PidsNamed;
    match e
    case Exec(pid, name) => UpdQueue(r, cfg, pid, name, 0);
    case Tick(_, _, _, _, _) => TickQueue(r, cfg, e);
    case Rescan(found) => ScanQueue(r, cfg, found);
    case RemoveNamed(name, sync) => CommitsAreNoReports(cfg, r.queue);
    case _ =>
  }

  /** Handling takes the oldest report off the queue and answers it, or handles something else. */
  lemma HandleQueue(r: Reg, cfg: Config)
    requires r.queue != []
    ensures SentBy(r, cfg).Nothing? <==> !IsReport(cfg, r.queue[0])
    ensures !SentBy(r, cfg).Nothing? ==> KindOf(SentBy(r, cfg)) == r.queue[0]
    ensures ReportsIn(cfg, r.queue)
         == (if IsReport(cfg, r.queue[0]) then [r.queue[0]] else []) + ReportsIn(cfg, Handle(r).queue)
  {
    CommitsAreNoReports(cfg, r.queue[1..]);
    if r.queue[0] == CollectAndSendContextInfo {
      RecountShape(r.(queue := r.queue[1..]), 0);
    }
  }

  lemma StepReports(r: Reg, cfg: Config, e: Event)
    ensures var sent := SentAt(r, cfg, e);
            (if sent.Nothing? then [] else [KindOf(sent)]) + ReportsIn(cfg, Next(r, cfg, e).queue)
            == ReportsIn(cfg, r.queue) + if e.Request? then ReportsIn(cfg, [e.action]) else []
  {
    hide ReportsIn, Handle, SentBy, KindOf, IsReport;
    if e.HandleNext? {
      if r.queue != [] {
        HandleQueue(r, cfg);
      }
    } else if e.Request? {
      ReportsConcat(cfg, r.queue, [e.action]);
    } else {
      hide Next;
      OtherQueue(r, cfg, e);
    }
  }

  /** In every run the answers sent and the reports still queued are, in this order, exactly the reports
      that were queued before and those that were asked for: each is answered once, and none is lost,
      doubled or overtaken. */
  lemma {:induction false} EachReportOnce(r: Reg, cfg: Config, es: seq<Event>)
    ensures var answers := Answers(r, cfg, es);
            Kinds(answers) + ReportsIn(cfg, Run(r, cfg, es).queue) == ReportsIn(cfg, r.queue) + Asked(cfg, es)
    decreases |es|
  {
    hide Next, SentAt, ReportsIn, KindOf;
    if es == [] {
      assert Kinds([]) == [];
    } else {
      var r', sent := Next(r, cfg, es[0]), SentAt(r, cfg, es[0]);
      var first := if es[0].Request? then ReportsIn(cfg, [es[0].action]) else [];
      StepReports(r, cfg, es[0]);
      EachReportOnce(r', cfg, es[1..]);
      var later := Answers(r', cfg, es[1..]);
      var head := if sent.Nothing? then [] else [KindOf(sent)];
      assert Kinds(Answers(r, cfg, es)) == head + Kinds(later);
      Regroup(head, Kinds(later), ReportsIn(cfg, r'.queue), ReportsIn(cfg, Run(r', cfg, es[1..]).queue),
              ReportsIn(cfg, r.queue), first, Asked(cfg, es[1..]));
    }
  }

  lemma Regroup<T>(head: seq<T>, later: seq<T>, mid: seq<T>, end: seq<T>, start: seq<T>, first: seq<T>,
                   rest: seq<T>)
    requires later + end == mid + rest && head + mid == start + first
    ensures (head + later) + end == start + (first + rest)
  {
    assert (head + later) + end == head + (later + end);
    assert head + (mid + rest) == (head + mid) + rest;
    assert (start + first) + rest == start + (first + rest);
  }

  // ---- What the answers say ----

  /** The `k`-th answer of a run is what some turn of it sends, with `k` answers before. */
  lemma {:induction false} AnswerPlace(r: Reg, cfg: Config, es: seq<Event>, k: nat) returns (i: nat)
    requires k < |Answers(r, cfg, es)|
    ensures i < |es| && |Answers(r, cfg, es[..i])| == k
    ensures Answers(r, cfg, es)[k] == SentAt(Run(r, cfg, es[..i]), cfg, es[i])
    decreases |es|
  {
    hide Next, SentAt;
    var own := if SentAt(r, cfg, es[0]).Nothing? then 0 else 1;
    if k < own {
      i := 0;
      assert es[..0] == [];
    } else {
      i := AnswerPlace(Next(r, cfg, es[0]), cfg, es[1..], k - own);
      i := i + 1;
      assert es[..i][1..] == es[1..][..i - 1] && es[..i][0] == es[0];
    }
  }

  /** In every run each context report shows totals that together are what the listed processes of its
      contexts use at that moment, and each process report lists every process once, none of them with a
      blacklisted name. */
  lemma AnswersAddUp(r: Reg, cfg: Config, es: seq<Event>, k: nat, m: Metric) returns (i: nat)
    requires Inv(r, cfg) && k < |Answers(r, cfg, es)|
    ensures i < |es| && |Answers(r, cfg, es[..i])| == k
    ensures var s, sent := Run(r, cfg, es[..i]), Answers(r, cfg, es)[k];
            && (sent.ContextInfo? ==>
                  && Ids(sent.contexts) == Ids(s.ctxs)
                  && TotalOf(sent.contexts, m) % Width(m) == UseIn(s.procs, Ids(s.ctxs), m) % Width(m)
                  && (UseIn(s.procs, Ids(s.ctxs), m) < Width(m) ==>
                        TotalOf(sent.contexts, m) == UseIn(s.procs, Ids(s.ctxs), m)))
            && (sent.ProcInfo? ==>
                  && OnePerPid(s.procs) && |sent.entries| == |s.procs|
                  && forall j :: 0 <= j < |sent.entries| ==>
                       && sent.entries[j] == s.procs[j].info
                       && sent.entries[j].comm == Names(s.procs)[s.procs[j].pid]
                       && !Blacklisted(cfg.blacklist, sent.entries[j].comm))
            && (sent.ProcAcct? ==>
                  && |sent.records| == |s.procs|
                  && forall j :: 0 <= j < |sent.records| ==> sent.records[j] == s.procs[j].acct.record)
  {
    i := AnswerPlace(r, cfg, es, k);
    assert !Answers(r, cfg, es)[k].Nothing?;
    hide Answers, Run, Inv, SentAt, TotalOf, UseIn, Blacklisted, OnePerPid, Ids, Names, Width;
    RunInv(r, cfg, es[..i]);
    SentAddsUp(Run(r, cfg, es[..i]), cfg, es[i], m);
  }

  lemma SentAddsUp(s: Reg, cfg: Config, e: Event, m: Metric)
    requires Inv(s, cfg) && !SentAt(s, cfg, e).Nothing?
    ensures var sent := SentAt(s, cfg, e);
            && (sent.ContextInfo? ==>
                  && Ids(sent.contexts) == Ids(s.ctxs)
                  && TotalOf(sent.contexts, m) % Width(m) == UseIn(s.procs, Ids(s.ctxs), m) % Width(m)
                  && (UseIn(s.procs, Ids(s.ctxs), m) < Width(m) ==>
                        TotalOf(sent.contexts, m) == UseIn(s.procs, Ids(s.ctxs), m)))
            && (sent.ProcInfo? ==>
                  && OnePerPid(s.procs) && |sent.entries| == |s.procs|
                  && forall j :: 0 <= j < |sent.entries| ==>
                       && sent.entries[j] == s.procs[j].info
                       && sent.entries[j].comm == Names(s.procs)[s.procs[j].pid]
                       && !Blacklisted(cfg.blacklist, sent.entries[j].comm))
            && (sent.ProcAcct? ==>
                  && |sent.records| == |s.procs|
                  && forall j :: 0 <= j < |sent.records| ==> sent.records[j] == s.procs[j].acct.record)
  {
    hide TotalOf, UseIn, Blacklisted, OnePerPid, OnePerId, Pids, Ids, Width;
    var sent := SentAt(s, cfg, e);
    if sent.ContextInfo? {
      ReportAddsUp(s, cfg, m);
    }
  }

  lemma ReportAddsUp(s: Reg, cfg: Config, m: Metric)
    requires Inv(s, cfg) && s.queue != [] && s.queue[0] == CollectAndSendContextInfo
    ensures var cs := Handle(s).ctxs;
            && Ids(cs) == Ids(s.ctxs)
            && TotalOf(cs, m) % Width(m) == UseIn(s.procs, Ids(s.ctxs), m) % Width(m)
            && (UseIn(s.procs, Ids(s.ctxs), m) < Width(m) ==>
                  TotalOf(cs, m) == UseIn(s.procs, Ids(s.ctxs), m))
  {
    hide TotalOf, UseIn, Clean, OnePerPid, OnePerId, Pids, Ids, Width, RecountFrom;
    var s' := s.(queue := s.queue[1..]);
    ReportIds(s');
    OnePerContext(s, cfg);
    Conservation(s', m);
  }
}
