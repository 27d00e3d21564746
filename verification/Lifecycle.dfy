/** What holds of the collector lifecycle in every run. */
module Lifecycle {
  import opened SafeLists
  import opened Keyed
  import opened StateManagers

  // ---- Runs ----

  /** What happens to the state manager: a server submits a new collector, a collector's event source
      ends, the sweep finds some collectors idle, a scan of the processes is wanted, or the oldest
      request is handled. */
  datatype Event =
    | Submit(collector: Collector)
    | Finalize(collector: Collector)
    | Sweep(idle: set<Collector>)
    | BufferLost
    | HandleNext(files: Files)

  function Next(s: Sm, enabled: bool, e: Event): Sm {
    match e
    case Submit(c) => s.(queue := s.queue + [MonitorCollector(c)])
    case Finalize(c) => s.(queue := s.queue + [RemoveCollector(c, false)])
    case Sweep(idle) => s.(queue := s.queue + Removals(s.active, idle))
    case BufferLost => s.(queue := s.queue + [UpdateProcessList])
    case HandleNext(files) => if s.queue == [] then s else Handle(s, enabled, files)
  }

  function Run(s: Sm, enabled: bool, es: seq<Event>): Sm
    decreases |es|
  {
    if es == [] then s else Run(Next(s, enabled, es[0]), enabled, es[1..])
  }

  /** A request is taken off the queue, and only a change by a TCP collector asks for an update behind the
      others. */
  lemma OnlyTcpAsks(s: Sm, enabled: bool, files: Files)
    requires s.queue != []
    ensures var rq := s.queue[0];
            Handle(s, enabled, files).queue
            == s.queue[1..] + if (rq.MonitorCollector? || rq.RemoveCollector?) && rq.collector.kind.TCP?
                              then [UpdateWakeLock] else []
  {
  }

  // ---- Rescans ----

  function Scans(q: seq<Request>): nat {
    if q == [] then 0 else (if q[0].UpdateProcessList? then 1 else 0) + Scans(q[1..])
  }

  lemma {:induction false} ScansConcat(q: seq<Request>, p: seq<Request>)
    ensures Scans(q + p) == Scans(q) + Scans(p)
  {
    if q == [] {
      assert q + p == p;
    } else {
      assert (q + p)[1..] == q[1..] + p;
      ScansConcat(q[1..], p);
    }
  }

  lemma {:induction false} RemovalsScanNothing(active: seq<Collector>, idle: set<Collector>)
    ensures Scans(Removals(active, idle)) == 0
  {
    if active != [] {
      var last := active[|active| - 1];
      RemovalsScanNothing(active[..|active| - 1], idle);
      ScansConcat(Removals(active[..|active| - 1], idle), [RemoveCollector(last, true)]);
      assert [RemoveCollector(last, true)][1..] == [];
      assert last !in idle ==> Removals(active, idle) == Removals(active[..|active| - 1], idle);
    }
  }

  /** How many rescans a run carries out. */
  function ScansDone(s: Sm, enabled: bool, es: seq<Event>): nat
    decreases |es|
  {
    if es == [] then 0
    else
      (if es[0].HandleNext? && s.queue != [] && s.queue[0].UpdateProcessList? then 1 else 0)
      + ScansDone(Next(s, enabled, es[0]), enabled, es[1..])
  }

  function Lost(es: seq<Event>): nat {
    if es == [] then 0 else (if es[0].BufferLost? then 1 else 0) + Lost(es[1..])
  }

  lemma NextScans(s: Sm, enabled: bool, e: Event)
    ensures Scans(Next(s, enabled, e).queue)
            + (if e.HandleNext? && s.queue != [] && s.queue[0].UpdateProcessList? then 1 else 0)
         == Scans(s.queue) + if e.BufferLost? then 1 else 0
  {
    hide HasTcp, Removals;
    match e
    case Submit(c) =>
      ScansConcat(s.queue, [MonitorCollector(c)]);
      assert [MonitorCollector(c)][1..] == [];
    case Finalize(c) =>
      ScansConcat(s.queue, [RemoveCollector(c, false)]);
      assert [RemoveCollector(c, false)][1..] == [];
    case Sweep(idle) =>
      ScansConcat(s.queue, Removals(s.active, idle));
      RemovalsScanNothing(s.active, idle);
    case BufferLost =>
      ScansConcat(s.queue, [UpdateProcessList]);
      assert [UpdateProcessList][1..] == [];
    case HandleNext(files) =>
      if s.queue != [] {
        OnlyTcpAsks(s, enabled, files);
        ScansConcat(s.queue[1..], [UpdateWakeLock]);
        assert [UpdateWakeLock][1..] == [];
        assert s.queue[1..] + [] == s.queue[1..];
      }
  }

  /** In every run each loss of netlink messages leads to one rescan of the processes: the ones carried out
      and the ones still queued are as many as were queued before and messages were lost. */
  lemma {:induction false} EachLossRescans(s: Sm, enabled: bool, es: seq<Event>)
    ensures ScansDone(s, enabled, es) + Scans(Run(s, enabled, es).queue) == Scans(s.queue) + Lost(es)
    decreases |es|
  {
    hide Next, Scans;
    if es != [] {
      NextScans(s, enabled, es[0]);
      EachLossRescans(Next(s, enabled, es[0]), enabled, es[1..]);
    }
  }

  // ---- Where the queue leads ----

  function Apply(active: seq<Collector>, r: Request): seq<Collector> {
    match r
    case MonitorCollector(c) => active + [c]
    case RemoveCollector(c, _) => Without(active, [c])
    case _ => active
  }

  /** The active list once the queued requests are handled. */
  function Settled(active: seq<Collector>, q: seq<Request>): seq<Collector>
    decreases |q|
  {
    if q == [] then active else Settled(Apply(active, q[0]), q[1..])
  }

  lemma {:induction false} SettledConcat(active: seq<Collector>, q: seq<Request>, p: seq<Request>)
    ensures Settled(active, q + p) == Settled(Settled(active, q), p)
    decreases |q|
  {
    if q == [] {
      assert q + p == p;
    } else {
      assert (q + p)[1..] == q[1..] + p;
      SettledConcat(Apply(active, q[0]), q[1..], p);
    }
  }

  /** Handling a request only carries out what was already going to happen. */
  lemma HandleSettles(s: Sm, enabled: bool, files: Files)
    requires s.queue != []
    ensures var s' := Handle(s, enabled, files);
            Settled(s'.active, s'.queue) == Settled(s.active, s.queue)
  {
    var s' := Handle(s, enabled, files);
    if s'.queue != s.queue[1..] {
      SettledConcat(s'.active, s.queue[1..], [UpdateWakeLock]);
    }
  }

  // ---- Removals commute and repeat without effect ----

  lemma {:induction false} WithoutTwice<T>(xs: seq<T>, a: seq<T>, b: seq<T>)
    ensures Without(Without(xs, a), b) == Without(xs, a + b)
  {
    if xs != [] {
      WithoutTwice(xs[1..], a, b);
    }
  }

  lemma {:induction false} WithoutAbsent<T>(xs: seq<T>, gone: seq<T>)
    requires forall i :: 0 <= i < |xs| ==> xs[i] !in gone
    ensures Without(xs, gone) == xs
  {
    if xs != [] {
      WithoutAbsent(xs[1..], gone);
    }
  }

  /** A second removal, or the removal of a collector that was never monitored, changes nothing. */
  lemma RemovalOfAbsent(s: Sm, enabled: bool, files: Files)
    requires s.queue != [] && s.queue[0].RemoveCollector? && s.queue[0].collector !in s.active
    ensures Handle(s, enabled, files).active == s.active
  {
    WithoutAbsent(s.active, [s.queue[0].collector]);
  }

  /** The collectors a sweep removes, in list order. */
  function Swept(active: seq<Collector>, idle: set<Collector>): seq<Collector> {
    if active == [] then []
    else Swept(active[..|active| - 1], idle)
         + if active[|active| - 1] in idle then [active[|active| - 1]] else []
  }

  lemma {:induction false} SettledRemovals(list: seq<Collector>, active: seq<Collector>, idle: set<Collector>)
    ensures Settled(list, Removals(active, idle)) == Without(list, Swept(active, idle))
  {
    if active == [] {
      WithoutNothing(list);
    } else {
      var init, last := active[..|active| - 1], active[|active| - 1];
      SettledRemovals(list, init, idle);
      if last in idle {
        SettledConcat(list, Removals(init, idle), [RemoveCollector(last, true)]);
        WithoutTwice(list, Swept(init, idle), [last]);
        assert [RemoveCollector(last, true)][1..] == [];
      } else {
        assert Removals(active, idle) == Removals(init, idle);
        assert Swept(active, idle) == Swept(init, idle);
      }
    }
  }

  // ---- The lifecycle law ----

  /** The collectors submitted so far, and those whose removal was requested, in order. */
  datatype History = History(submitted: seq<Collector>, gone: seq<Collector>)

  function Recorded(h: History, s: Sm, e: Event): History {
    match e
    case Submit(c) => h.(submitted := h.submitted + [c])
    case Finalize(c) => h.(gone := h.gone + [c])
    case Sweep(idle) => h.(gone := h.gone + Swept(s.active, idle))
    case _ => h
  }

  function RunHistory(h: History, s: Sm, enabled: bool, es: seq<Event>): History
    decreases |es|
  {
    if es == [] then h
    else RunHistory(Recorded(h, s, es[0]), Next(s, enabled, es[0]), enabled, es[1..])
  }

  /** A server submits each collector once, as a new object: not before, and not removed before. */
  ghost predicate FreshSubmissions(h: History, s: Sm, enabled: bool, es: seq<Event>)
    decreases |es|
  {
    es == [] ||
    (&& (es[0].Submit? ==> es[0].collector !in h.submitted && es[0].collector !in h.gone)
     && FreshSubmissions(Recorded(h, s, es[0]), Next(s, enabled, es[0]), enabled, es[1..]))
  }

  ghost predicate Tracks(h: History, s: Sm) {
    Settled(s.active, s.queue) == Without(h.submitted, h.gone)
  }

  lemma NextTracks(h: History, s: Sm, enabled: bool, e: Event)
    requires Tracks(h, s)
    requires e.Submit? ==> e.collector !in h.gone
    ensures Tracks(Recorded(h, s, e), Next(s, enabled, e))
  {
    match e
    case Submit(c) =>
      SettledConcat(s.active, s.queue, [MonitorCollector(c)]);
      WithoutConcat(h.submitted, [c], h.gone);
      assert [MonitorCollector(c)][1..] == [] && [c][1..] == [];
    case Finalize(c) =>
      SettledConcat(s.active, s.queue, [RemoveCollector(c, false)]);
      WithoutTwice(h.submitted, h.gone, [c]);
      assert [RemoveCollector(c, false)][1..] == [];
    case Sweep(idle) =>
      SettledConcat(s.active, s.queue, Removals(s.active, idle));
      SettledRemovals(Settled(s.active, s.queue), s.active, idle);
      WithoutTwice(h.submitted, h.gone, Swept(s.active, idle));
    case BufferLost =>
      SettledConcat(s.active, s.queue, [UpdateProcessList]);
      assert [UpdateProcessList][1..] == [];
    case HandleNext(files) =>
      if s.queue != [] {
        HandleSettles(s, enabled, files);
      }
  }

  /** In every run, what the queue leads to is the submitted collectors without the removed ones, in
      the order of submission. Repeated removals and removals of others make no difference. */
  lemma {:induction false} RunTracks(h: History, s: Sm, enabled: bool, es: seq<Event>)
    requires Tracks(h, s) && Distinct(h.submitted) && FreshSubmissions(h, s, enabled, es)
    ensures var h' := RunHistory(h, s, enabled, es);
            Tracks(h', Run(s, enabled, es)) && Distinct(h'.submitted)
    decreases |es|
  {
    hide Next, Tracks;
    if es != [] {
      NextTracks(h, s, enabled, es[0]);
      RunTracks(Recorded(h, s, es[0]), Next(s, enabled, es[0]), enabled, es[1..]);
    }
  }

  /** Whenever the queue is empty, the active list is exactly the submitted collectors whose removal
      was not requested, each once. */
  lemma ActiveWhenQuiet(enabled: bool, es: seq<Event>)
    requires FreshSubmissions(History([], []), START, enabled, es)
    requires Run(START, enabled, es).queue == []
    ensures var h := RunHistory(History([], []), START, enabled, es);
            Run(START, enabled, es).active == Without(h.submitted, h.gone) && Distinct(h.submitted)
  {
    RunTracks(History([], []), START, enabled, es);
  }

  // ---- Wake lock ----

  /** The flag agrees with the active list, or an update is queued. */
  ghost predicate Agrees(s: Sm) {
    s.lock == HasTcp(s.active) || UpdateWakeLock in s.queue
  }

  lemma {:induction false} UdsDoesNotCount(active: seq<Collector>, c: Collector)
    requires c.kind.UDS?
    ensures HasTcp(Without(active, [c])) == HasTcp(active)
    ensures HasTcp(active + [c]) == HasTcp(active)
  {
    WithoutElements(active, [c]);
    var rest := Without(active, [c]);
    if HasTcp(active) {
      var i :| 0 <= i < |active| && active[i].kind.TCP?;
      assert active[i] in rest && (active + [c])[i].kind.TCP?;
      var j :| 0 <= j < |rest| && rest[j] == active[i];
    }
    if HasTcp(rest) {
      var j :| 0 <= j < |rest| && rest[j].kind.TCP?;
      assert rest[j] in active;
    }
  }

  lemma HandleAgrees(s: Sm, files: Files)
    requires Agrees(s) && s.queue != [] && files.wakeLock && files.wakeUnlock
    ensures Agrees(Handle(s, true, files))
  {
    var s' := Handle(s, true, files);
    assert s.queue == [s.queue[0]] + s.queue[1..];
    match s.queue[0]
    case MonitorCollector(c) =>
      if c.kind.TCP? {
        assert s'.queue[|s.queue| - 1] == UpdateWakeLock;
      } else {
        UdsDoesNotCount(s.active, c);
      }
    case RemoveCollector(c, _) =>
      if c.kind.TCP? {
        assert s'.queue[|s.queue| - 1] == UpdateWakeLock;
      } else {
        UdsDoesNotCount(s.active, c);
      }
    case UpdateWakeLock =>
    case UpdateProcessList =>
  }

  /** With the feature on and both sysfs files present, in every reachable state the flag agrees or
      an update is queued; so it agrees whenever the queue is empty. */
  lemma {:induction false} RunAgrees(s: Sm, es: seq<Event>)
    requires Agrees(s)
    requires forall i :: 0 <= i < |es| && es[i].HandleNext? ==> es[i].files == Files(true, true)
    ensures Agrees(Run(s, true, es))
    ensures var r := Run(s, true, es); r.queue == [] ==> r.lock == HasTcp(r.active)
    decreases |es|
  {
    hide HasTcp;
    if es != [] {
      if es[0].HandleNext? && s.queue != [] {
        HandleAgrees(s, es[0].files);
      }
      RunAgrees(Next(s, true, es[0]), es[1..]);
    }
  }

  /** An update brings agreement exactly when there was agreement before, or the feature is on and
      the file for the needed direction is present. */
  lemma UpdateAgreesIff(s: Sm, enabled: bool, files: Files)
    ensures WakeLockAfter(s, enabled, files) == HasTcp(s.active)
            <==> s.lock == HasTcp(s.active)
                 || (enabled && if HasTcp(s.active) then files.wakeLock else files.wakeUnlock)
  {
  }

  /** The turn handles a wake lock update. */
  predicate Updates(s: Sm, e: Event) { e.HandleNext? && s.queue != [] && s.queue[0] == UpdateWakeLock }

  /** An update that finds the lock wrong and cannot set it right, because the option is off or the file
      for the needed direction is missing. */
  predicate Misses(s: Sm, enabled: bool, files: Files) {
    && s.lock != HasTcp(s.active)
    && !(enabled && if HasTcp(s.active) then files.wakeLock else files.wakeUnlock)
  }

  /** Whether the last update handled in a run missed; `missed` if there was none. */
  function LastMissed(s: Sm, enabled: bool, es: seq<Event>, missed: bool): bool
    decreases |es|
  {
    if es == [] then missed
    else
      LastMissed(Next(s, enabled, es[0]), enabled, es[1..],
                 if Updates(s, es[0]) then Misses(s, enabled, es[0].files) else missed)
  }

  /** The lock is wrong exactly when the last update missed, or an update is queued. */
  ghost predicate Explained(s: Sm, missed: bool) {
    UpdateWakeLock in s.queue || (missed <==> s.lock != HasTcp(s.active))
  }

  lemma NextExplained(s: Sm, enabled: bool, e: Event, missed: bool)
    requires Explained(s, missed)
    ensures Explained(Next(s, enabled, e), if Updates(s, e) then Misses(s, enabled, e.files) else missed)
  {
    hide HasTcp;
    if e.HandleNext? && s.queue != [] {
      var s' := Next(s, enabled, e);
      assert s.queue == [s.queue[0]] + s.queue[1..];
      match s.queue[0]
      case UpdateWakeLock => UpdateAgreesIff(s, enabled, e.files);
      case UpdateProcessList =>
      case _ =>
        var c := s.queue[0].collector;
        if c.kind.TCP? {
          assert s'.queue[|s.queue| - 1] == UpdateWakeLock;
        } else {
          UdsDoesNotCount(s.active, c);
        }
    }
  }

  /** With the option on or off and whatever sysfs files come and go: whenever the queue is empty, the
      lock agrees with the list if and only if the last update that was handled did not miss. */
  lemma {:induction false} QuietLockIff(s: Sm, enabled: bool, es: seq<Event>, missed: bool)
    requires Explained(s, missed)
    ensures var r := Run(s, enabled, es);
            && Explained(r, LastMissed(s, enabled, es, missed))
            && (r.queue == [] ==> (r.lock == HasTcp(r.active) <==> !LastMissed(s, enabled, es, missed)))
    decreases |es|
  {
    hide HasTcp, Next, Misses;
    if es != [] {
      NextExplained(s, enabled, es[0], missed);
      QuietLockIff(Next(s, enabled, es[0]), enabled, es[1..],
                   if Updates(s, es[0]) then Misses(s, enabled, es[0].files) else missed);
    }
  }

  // ---- Draining ----

  function Weight(q: seq<Request>): nat {
    if q == [] then 0
    else (if q[0].MonitorCollector? || q[0].RemoveCollector? then 2 else 1) + Weight(q[1..])
  }

  lemma {:induction false} WeightConcat(q: seq<Request>, p: seq<Request>)
    ensures Weight(q + p) == Weight(q) + Weight(p)
  {
    if q == [] {
      assert q + p == p;
    } else {
      assert (q + p)[1..] == q[1..] + p;
      WeightConcat(q[1..], p);
    }
  }

  lemma HandleLightens(s: Sm, enabled: bool, files: Files)
    requires s.queue != []
    ensures Weight(Handle(s, enabled, files).queue) < Weight(s.queue)
  {
    WeightConcat(s.queue[1..], [UpdateWakeLock]);
    assert [UpdateWakeLock][1..] == [];
  }

  /** With no new events the queue runs empty, and then the list is settled. `files` answers for each
      handled request which sysfs files are there. The lock agrees with the list if the option is on,
      both files are always there and it agreed, or an update was queued, before; with the option off
      it stays as it was. */
  method Drain(m: StateManager, files: nat -> Files)
    requires m.Valid()
    modifies m, m.activeList, m.queue
    ensures m.Valid() && m.Abs().queue == []
    ensures m.Abs().active == old(Settled(m.Abs().active, m.Abs().queue))
    ensures !m.wakeLockEnabled ==> m.Abs().lock == old(m.Abs().lock)
    ensures m.wakeLockEnabled && old(Agrees(m.Abs())) && (forall n :: files(n) == Files(true, true)) ==>
              m.Abs().lock == HasTcp(m.Abs().active)
  {
    hide HasTcp, Handle;
    ghost var good := m.wakeLockEnabled && Agrees(m.Abs()) && forall n :: files(n) == Files(true, true);
    var n: nat := 0;
    while m.queue.pending != []
      invariant m.Valid()
      invariant Settled(m.Abs().active, m.Abs().queue) == old(Settled(m.Abs().active, m.Abs().queue))
      invariant !m.wakeLockEnabled ==> m.Abs().lock == old(m.Abs().lock)
      invariant good ==> Agrees(m.Abs())
      decreases Weight(m.queue.pending)
    {
      HandleSettles(m.Abs(), m.wakeLockEnabled, files(n));
      HandleLightens(m.Abs(), m.wakeLockEnabled, files(n));
      OffKeepsLock(m.Abs(), files(n));
      if good {
        HandleAgrees(m.Abs(), files(n));
      }
      m.HandleNext(files(n));
      n := n + 1;
    }
  }

  lemma OffKeepsLock(s: Sm, files: Files)
    requires s.queue != []
    ensures Handle(s, false, files).lock == s.lock
  {
  }
}
