/** The inactivity rule over whole runs: messages refresh a collector's last update time, a periodic
    sweep asks collectors to leave whose last update is too long ago. */
module Inactivity {
  import opened Words
  import opened SafeLists
  import opened StateManagers
  import Lifecycle

  // ---- Runs with time ----

  /** The state manager, and the last update time of every collector that was submitted. */
  datatype World = World(sm: Sm, last: map<Collector, nat>)

  datatype Setup = Setup(timeout: nat, enabled: bool)

  /** A collector that connects was created at some time; its event source may turn up any inputs; the
      other events are those of the state manager, with the time of a sweep. */
  datatype Event =
    | Submit(collector: Collector, created: nat)
    | Received(collector: Collector, inputs: seq<Input>)
    | SweepAt(now: nat)
    | Finalize(collector: Collector)
    | BufferLost
    | HandleNext(files: Files)

  /** The last update time after a turn of the receive loop. */
  function Refreshed(last: nat, inputs: seq<Input>): nat {
    var n := Accepted(inputs);
    if n == 0 then last else inputs[n - 1].now
  }

  /** The active collectors that a sweep finds inactive. */
  function Idle(w: World, timeout: nat, now: nat): set<Collector> {
    set c | c in w.sm.active && c in w.last && Inactive(w.last[c], now, timeout)
  }

  /** What an event is to the state manager. */
  function Seen(w: World, timeout: nat, e: Event): Option<Lifecycle.Event> {
    match e
    case Submit(c, _) => Some(Lifecycle.Submit(c))
    case Received(_, _) => None
    case SweepAt(now) => Some(Lifecycle.Sweep(Idle(w, timeout, now)))
    case Finalize(c) => Some(Lifecycle.Finalize(c))
    case BufferLost => Some(Lifecycle.BufferLost)
    case HandleNext(files) => Some(Lifecycle.HandleNext(files))
  }

  function LastAfter(last: map<Collector, nat>, e: Event): map<Collector, nat> {
    match e
    case Submit(c, created) => last[c := created]
    case Received(c, inputs) => if c in last then last[c := Refreshed(last[c], inputs)] else last
    case _ => last
  }

  function Next(w: World, setup: Setup, e: Event): World {
    var seen := Seen(w, setup.timeout, e);
    World(if seen.Some? then Lifecycle.Next(w.sm, setup.enabled, seen.value) else w.sm,
          LastAfter(w.last, e))
  }

  function Run(w: World, setup: Setup, es: seq<Event>): World
    decreases |es|
  {
    if es == [] then w else Run(Next(w, setup, es[0]), setup, es[1..])
  }

  /** What a run is to the state manager. */
  function SeenRun(w: World, setup: Setup, es: seq<Event>): seq<Lifecycle.Event>
    decreases |es|
  {
    if es == [] then []
    else
      var seen := Seen(w, setup.timeout, es[0]);
      (if seen.Some? then [seen.value] else []) + SeenRun(Next(w, setup, es[0]), setup, es[1..])
  }

  /** So everything proved of runs of the state manager holds of runs with time. */
  lemma {:induction false} RunIsLifecycle(w: World, setup: Setup, es: seq<Event>)
    ensures Run(w, setup, es).sm == Lifecycle.Run(w.sm, setup.enabled, SeenRun(w, setup, es))
    decreases |es|
  {
    hide Lifecycle.Next;
    if es != [] {
      var seen, later := Seen(w, setup.timeout, es[0]), SeenRun(Next(w, setup, es[0]), setup, es[1..]);
      RunIsLifecycle(Next(w, setup, es[0]), setup, es[1..]);
      if seen.Some? {
        assert ([seen.value] + later)[1..] == later;
      } else {
        assert [] + later == later;
      }
    }
  }

  /** How many rescans of the processes a run carries out. */
  function RescansDone(w: World, setup: Setup, es: seq<Event>): nat
    decreases |es|
  {
    if es == [] then 0
    else
      (if es[0].HandleNext? && w.sm.queue != [] && w.sm.queue[0].UpdateProcessList? then 1 else 0)
      + RescansDone(Next(w, setup, es[0]), setup, es[1..])
  }

  function Losses(es: seq<Event>): nat {
    if es == [] then 0 else (if es[0].BufferLost? then 1 else 0) + Losses(es[1..])
  }

  /** Also in runs with time each loss of netlink messages leads to one rescan. */
  lemma {:induction false} EachLossRescans(w: World, setup: Setup, es: seq<Event>)
    ensures RescansDone(w, setup, es) + Lifecycle.Scans(Run(w, setup, es).sm.queue)
         == Lifecycle.Scans(w.sm.queue) + Losses(es)
    decreases |es|
  {
    hide Lifecycle.Next, Lifecycle.Scans;
    if es != [] {
      var seen := Seen(w, setup.timeout, es[0]);
      if seen.Some? {
        Lifecycle.NextScans(w.sm, setup.enabled, seen.value);
      }
      EachLossRescans(Next(w, setup, es[0]), setup, es[1..]);
    }
  }

  /** The event handles a wake lock update. */
  predicate Updates(w: World, e: Event) {
    e.HandleNext? && w.sm.queue != [] && w.sm.queue[0] == UpdateWakeLock
  }

  /** Whether the last update handled in a run missed; `missed` if there was none. */
  function LastMissed(w: World, setup: Setup, es: seq<Event>, missed: bool): bool
    decreases |es|
  {
    if es == [] then missed
    else
      LastMissed(Next(w, setup, es[0]), setup, es[1..],
                 if Updates(w, es[0]) then Lifecycle.Misses(w.sm, setup.enabled, es[0].files) else missed)
  }

  /** And whenever the queue is empty, the lock agrees with the list if and only if the last update that
      was handled did not miss. */
  lemma {:induction false} QuietLockIff(w: World, setup: Setup, es: seq<Event>, missed: bool)
    requires Lifecycle.Explained(w.sm, missed)
    ensures var s := Run(w, setup, es).sm;
            s.queue == [] ==> (s.lock == HasTcp(s.active) <==> !LastMissed(w, setup, es, missed))
    decreases |es|
  {
    hide HasTcp, Lifecycle.Next, Lifecycle.Misses;
    if es != [] {
      var seen := Seen(w, setup.timeout, es[0]);
      if seen.Some? {
        Lifecycle.NextExplained(w.sm, setup.enabled, seen.value, missed);
      }
      QuietLockIff(Next(w, setup, es[0]), setup, es[1..],
                   if Updates(w, es[0]) then Lifecycle.Misses(w.sm, setup.enabled, es[0].files) else missed);
    }
  }

  // ---- What a sweep asks ----

  lemma {:induction false} RemovalsExactly(active: seq<Collector>, idle: set<Collector>, c: Collector)
    ensures RemoveCollector(c, true) in Removals(active, idle) <==> c in active && c in idle
  {
    if active != [] {
      var init, last := active[..|active| - 1], active[|active| - 1];
      RemovalsExactly(init, idle, c);
      assert active == init + [last];
    }
  }

  /** The event adds a request to the queue that the collector be removed with its event source. */
  ghost predicate Asks(w: World, setup: Setup, e: Event, c: Collector) {
    var queue := Next(w, setup, e).sm.queue;
    exists k :: |w.sm.queue| <= k < |queue| && queue[k] == RemoveCollector(c, true)
  }

  /** Only a sweep asks, and it asks exactly the active collectors that are overdue. */
  lemma AsksIff(w: World, setup: Setup, e: Event, c: Collector)
    ensures Asks(w, setup, e, c)
            <==> e.SweepAt? && c in w.sm.active && c in w.last && Inactive(w.last[c], e.now, setup.timeout)
  {
    if e.SweepAt? {
      var more := Removals(w.sm.active, Idle(w, setup.timeout, e.now));
      RemovalsExactly(w.sm.active, Idle(w, setup.timeout, e.now), c);
      assert Next(w, setup, e).sm.queue == w.sm.queue + more;
      forall k | 0 <= k < |more|
        ensures Next(w, setup, e).sm.queue[|w.sm.queue| + k] == more[k]
      {
      }
    }
  }

  /** The event at `i` of a run asks the collector to leave. */
  ghost predicate AskedAt(w: World, setup: Setup, es: seq<Event>, i: int, c: Collector) {
    0 <= i < |es| && Asks(Run(w, setup, es[..i]), setup, es[i], c)
  }

  lemma AskedLater(w: World, setup: Setup, es: seq<Event>, i: int, c: Collector)
    requires 1 <= i < |es|
    ensures Run(w, setup, es[..i]) == Run(Next(w, setup, es[0]), setup, es[1..][..i - 1])
    ensures AskedAt(w, setup, es, i, c) == AskedAt(Next(w, setup, es[0]), setup, es[1..], i - 1, c)
  {
    hide Next, Asks;
    assert es[..i][1..] == es[1..][..i - 1];
  }

  // ---- The time of the last message ----

  /** The collector is submitted once, before the run. */
  predicate Known(es: seq<Event>, c: Collector) {
    forall i :: 0 <= i < |es| && es[i].Submit? ==> es[i].collector != c
  }

  /** The time of the last message of the collector that was handled with success. */
  function LastMessage(last: nat, es: seq<Event>, c: Collector): nat
    decreases |es|
  {
    if es == [] then last
    else if es[0].Received? && es[0].collector == c then
      LastMessage(Refreshed(last, es[0].inputs), es[1..], c)
    else LastMessage(last, es[1..], c)
  }

  lemma {:induction false} LastOverRun(w: World, setup: Setup, es: seq<Event>, c: Collector)
    requires c in w.last && Known(es, c)
    ensures c in Run(w, setup, es).last
    ensures Run(w, setup, es).last[c] == LastMessage(w.last[c], es, c)
    decreases |es|
  {
    hide Refreshed, Seen;
    if es != [] {
      LastOverRun(Next(w, setup, es[0]), setup, es[1..], c);
    }
  }

  /** The rule over whole runs: an event of a run asks a collector to leave if and only if it is a
      sweep, the collector is on the active list then, and its last successful message, wherever in
      the run that was, is longer ago than the timeout. */
  lemma AskedIff(w: World, setup: Setup, es: seq<Event>, i: nat, c: Collector)
    requires i < |es| && c in w.last && Known(es, c)
    ensures AskedAt(w, setup, es, i, c)
            <==> && es[i].SweepAt?
                 && c in Run(w, setup, es[..i]).sm.active
                 && es[i].now - LastMessage(w.last[c], es[..i], c) > setup.timeout
  {
    hide Run, Asks, LastMessage;
    LastOverRun(w, setup, es[..i], c);
    AsksIff(Run(w, setup, es[..i]), setup, es[i], c);
  }

  /** The last update time is that of the last of the messages handled with success, whatever the loop
      meets after them. */
  lemma {:induction false} RefreshedIsLast(last: nat, good: seq<Input>, rest: seq<Input>)
    requires forall i :: 0 <= i < |good| ==> good[i].Message? && good[i].status
    requires rest == [] || !(rest[0].Message? && rest[0].status)
    ensures Accepted(good + rest) == |good|
    ensures Refreshed(last, good + rest) == if good == [] then last else good[|good| - 1].now
  {
    if good == [] {
      assert good + rest == rest;
    } else {
      assert (good + rest)[1..] == good[1..] + rest;
      RefreshedIsLast(last, good[1..], rest);
    }
  }

  /** For a collector that is submitted in the run, the time counts from its creation. */
  lemma AskedIffSinceSubmitted(w: World, setup: Setup, c: Collector, created: nat, es: seq<Event>, i: nat)
    requires i < |es| && Known(es, c)
    ensures var s := Next(w, setup, Submit(c, created));
            AskedAt(s, setup, es, i, c)
            <==> && es[i].SweepAt?
                 && c in Run(s, setup, es[..i]).sm.active
                 && es[i].now - LastMessage(created, es[..i], c) > setup.timeout
  {
    hide Run, AskedAt, LastMessage;
    AskedIff(Next(w, setup, Submit(c, created)), setup, es, i, c);
  }

  // ---- A collector that talks stays ----

  /** The messages that were handled with success are in order of time, from a given time on. */
  predicate MessagesInOrder(from: nat, inputs: seq<Input>)
    decreases |inputs|
  {
    inputs == [] || !inputs[0].Message? || !inputs[0].status
    || (from <= inputs[0].now && MessagesInOrder(inputs[0].now, inputs[1..]))
  }

  /** Time does not run backwards from `from` to `end`. */
  predicate InOrder(from: nat, es: seq<Event>, end: nat)
    decreases |es|
  {
    if es == [] then from <= end
    else match es[0]
    case SweepAt(now) => from <= now && InOrder(now, es[1..], end)
    case Received(_, inputs) =>
      MessagesInOrder(from, inputs) && InOrder(Refreshed(from, inputs), es[1..], end)
    case _ => InOrder(from, es[1..], end)
  }

  /** Each of these messages comes at most `gap` after the one before it. */
  predicate MessagesWithin(last: nat, inputs: seq<Input>, gap: nat)
    decreases |inputs|
  {
    inputs == [] || !inputs[0].Message? || !inputs[0].status
    || (inputs[0].now - last <= gap && MessagesWithin(inputs[0].now, inputs[1..], gap))
  }

  /** The collector never stays silent for longer than `gap`, up to the end of the run. */
  predicate KeepsTalking(last: nat, es: seq<Event>, c: Collector, gap: nat, end: nat)
    decreases |es|
  {
    if es == [] then end - last <= gap
    else if es[0].Received? && es[0].collector == c then
      MessagesWithin(last, es[0].inputs, gap)
      && KeepsTalking(Refreshed(last, es[0].inputs), es[1..], c, gap, end)
    else KeepsTalking(last, es[1..], c, gap, end)
  }

  lemma {:induction false} RefreshedInOrder(from: nat, inputs: seq<Input>)
    requires MessagesInOrder(from, inputs)
    ensures from <= Refreshed(from, inputs)
    decreases |inputs|
  {
    if Accepted(inputs) > 0 {
      RefreshedInOrder(inputs[0].now, inputs[1..]);
    }
  }

  /** At any time of the run the last message is at most the gap ago. */
  lemma {:induction false} NotSilentFor(last: nat, from: nat, es: seq<Event>, c: Collector, gap: nat, end: nat)
    requires InOrder(from, es, end) && KeepsTalking(last, es, c, gap, end)
    ensures from - last <= gap
    decreases |es|
  {
    if es != [] {
      match es[0]
      case SweepAt(now) => NotSilentFor(last, now, es[1..], c, gap, end);
      case Received(d, inputs) =>
        RefreshedInOrder(from, inputs);
        if Accepted(inputs) == 0 || d != c {
          NotSilentFor(last, Refreshed(from, inputs), es[1..], c, gap, end);
        }
      case _ => NotSilentFor(last, from, es[1..], c, gap, end);
    }
  }

  /** A collector that never stays silent for longer than the timeout is asked to leave by no event of
      the run, whatever else happens and whenever sweeps come. */
  lemma {:induction false} KeptWhileTalking(w: World, setup: Setup, es: seq<Event>, c: Collector,
                                            from: nat, end: nat)
    requires c in w.last && Known(es, c)
    requires InOrder(from, es, end) && KeepsTalking(w.last[c], es, c, setup.timeout, end)
    ensures forall i :: !AskedAt(w, setup, es, i, c)
    decreases |es|
  {
    hide Asks, Seen, MessagesWithin, MessagesInOrder;
    if es != [] {
      AsksIff(w, setup, es[0], c);
      if es[0].SweepAt? {
        NotSilentFor(w.last[c], es[0].now, es[1..], c, setup.timeout, end);
      }
      assert es[..0] == [];
      var from' := match es[0]
        case SweepAt(now) => now
        case Received(_, inputs) => Refreshed(from, inputs)
        case _ => from;
      KeptWhileTalking(Next(w, setup, es[0]), setup, es[1..], c, from', end);
      forall i | 1 <= i < |es|
        ensures !AskedAt(w, setup, es, i, c)
      {
        AskedLater(w, setup, es, i, c);
      }
    }
  }

  // ---- A silent collector is asked, once and in time ----

  /** The timer: sweeps come exactly at `due`, one timeout later and so on, and none up to the time
      `until` is missing. */
  predicate Periodic(es: seq<Event>, due: nat, timeout: nat, until: nat)
    decreases |es|
  {
    if es == [] then until < due
    else if es[0].SweepAt? then es[0].now == due && Periodic(es[1..], due + timeout, timeout, until)
    else Periodic(es[1..], due, timeout, until)
  }

  /** No message of the collector is handled with success. */
  predicate Silent(es: seq<Event>, c: Collector) {
    forall i :: 0 <= i < |es| && es[i].Received? && es[i].collector == c ==> Accepted(es[i].inputs) == 0
  }

  /** In a run in which a collector stays silent after time `t`, there is a sweep later than
      `t + timeout` and not later than `t + 2 * timeout` that asks it to leave if and only if it is on
      the active list then; and no event before that one asks it. */
  lemma {:induction false} AskedAfterSilence(w: World, setup: Setup, es: seq<Event>, c: Collector, due: nat)
    returns (i: nat)
    requires c in w.last && Known(es, c) && Silent(es, c)
    requires due <= w.last[c] + 2 * setup.timeout
    requires Periodic(es, due, setup.timeout, w.last[c] + 2 * setup.timeout)
    ensures i < |es| && es[i].SweepAt?
    ensures w.last[c] + setup.timeout < es[i].now <= w.last[c] + 2 * setup.timeout
    ensures AskedAt(w, setup, es, i, c) <==> c in Run(w, setup, es[..i]).sm.active
    ensures forall j :: 0 <= j < i ==> !AskedAt(w, setup, es, j, c)
    decreases |es|
  {
    hide Asks, Seen;
    AsksIff(w, setup, es[0], c);
    assert es[..0] == [];
    if es[0].SweepAt? && w.last[c] + setup.timeout < es[0].now {
      i := 0;
    } else {
      var due' := if es[0].SweepAt? then due + setup.timeout else due;
      i := AskedAfterSilence(Next(w, setup, es[0]), setup, es[1..], c, due');
      i := i + 1;
      AskedLater(w, setup, es, i, c);
      forall j | 1 <= j < i
        ensures !AskedAt(w, setup, es, j, c)
      {
        AskedLater(w, setup, es, j, c);
      }
    }
  }

  // ---- A collector that was asked leaves ----

  /** The queue leads to a list without the collector. */
  ghost predicate Leaving(s: Sm, c: Collector) { c !in Lifecycle.Settled(s.active, s.queue) }

  lemma {:induction false} SweptExactly(active: seq<Collector>, idle: set<Collector>, c: Collector)
    requires c in active && c in idle
    ensures c in Lifecycle.Swept(active, idle)
  {
    var init, last := active[..|active| - 1], active[|active| - 1];
    assert active == init + [last];
    if last != c {
      SweptExactly(init, idle, c);
    }
  }

  lemma AskedIsLeaving(w: World, setup: Setup, e: Event, c: Collector)
    requires Asks(w, setup, e, c)
    ensures Leaving(Next(w, setup, e).sm, c)
  {
    hide Asks;
    AsksIff(w, setup, e, c);
    var idle := Idle(w, setup.timeout, e.now);
    var list := Lifecycle.Settled(w.sm.active, w.sm.queue);
    Lifecycle.SettledConcat(w.sm.active, w.sm.queue, Removals(w.sm.active, idle));
    Lifecycle.SettledRemovals(list, w.sm.active, idle);
    SweptExactly(w.sm.active, idle, c);
    NotAfterWithout(list, Lifecycle.Swept(w.sm.active, idle), c);
  }

  lemma NotAfterWithout(list: seq<Collector>, gone: seq<Collector>, c: Collector)
    requires c in gone || c !in list
    ensures c !in Without(list, gone)
  {
    WithoutElements(list, gone);
  }

  lemma StaysLeaving(w: World, setup: Setup, e: Event, c: Collector)
    requires Leaving(w.sm, c) && !(e.Submit? && e.collector == c)
    ensures Leaving(Next(w, setup, e).sm, c)
  {
    var s, list := w.sm, Lifecycle.Settled(w.sm.active, w.sm.queue);
    match e
    case Submit(d, _) => Lifecycle.SettledConcat(s.active, s.queue, [MonitorCollector(d)]);
    case Received(_, _) =>
    case SweepAt(now) =>
      var idle := Idle(w, setup.timeout, now);
      Lifecycle.SettledConcat(s.active, s.queue, Removals(s.active, idle));
      Lifecycle.SettledRemovals(list, s.active, idle);
      NotAfterWithout(list, Lifecycle.Swept(s.active, idle), c);
    case Finalize(d) =>
      Lifecycle.SettledConcat(s.active, s.queue, [RemoveCollector(d, false)]);
      NotAfterWithout(list, [d], c);
    case BufferLost => Lifecycle.SettledConcat(s.active, s.queue, [UpdateProcessList]);
    case HandleNext(files) =>
      if s.queue != [] {
        Lifecycle.HandleSettles(s, setup.enabled, files);
      }
  }

  lemma {:induction false} RunStaysLeaving(w: World, setup: Setup, es: seq<Event>, c: Collector)
    requires Leaving(w.sm, c) && Known(es, c)
    ensures Leaving(Run(w, setup, es).sm, c)
    decreases |es|
  {
    hide Leaving, Next;
    if es != [] {
      StaysLeaving(w, setup, es[0], c);
      RunStaysLeaving(Next(w, setup, es[0]), setup, es[1..], c);
    }
  }

  /** A collector that was asked to leave by an event of a run is off the list whenever, later in the
      run, the queue is empty. */
  lemma {:induction false} AskedThenGone(w: World, setup: Setup, es: seq<Event>, i: nat, c: Collector)
    requires AskedAt(w, setup, es, i, c) && Known(es, c)
    requires Run(w, setup, es).sm.queue == []
    ensures c !in Run(w, setup, es).sm.active
    decreases i
  {
    hide Asks, Next;
    if i == 0 {
      assert es[..0] == [];
      AskedIsLeaving(w, setup, es[0], c);
      RunStaysLeaving(Next(w, setup, es[0]), setup, es[1..], c);
    } else {
      AskedLater(w, setup, es, i, c);
      AskedThenGone(Next(w, setup, es[0]), setup, es[1..], i - 1, c);
    }
  }

  // ---- Who is on the list ----

  lemma FinalizedIsLeaving(w: World, setup: Setup, c: Collector)
    ensures Leaving(Next(w, setup, Finalize(c)).sm, c)
  {
    var list := Lifecycle.Settled(w.sm.active, w.sm.queue);
    Lifecycle.SettledConcat(w.sm.active, w.sm.queue, [RemoveCollector(c, false)]);
    assert [RemoveCollector(c, false)][1..] == [];
    NotAfterWithout(list, [c], c);
  }

  lemma SubmittedIsStaying(w: World, setup: Setup, c: Collector, created: nat)
    ensures !Leaving(Next(w, setup, Submit(c, created)).sm, c)
  {
    Lifecycle.SettledConcat(w.sm.active, w.sm.queue, [MonitorCollector(c)]);
    assert [MonitorCollector(c)][1..] == [];
  }

  /** Nothing but its own end or a sweep that asks it makes a collector leave. */
  lemma StaysStaying(w: World, setup: Setup, e: Event, c: Collector)
    requires !Leaving(w.sm, c) && e != Finalize(c) && !Asks(w, setup, e, c)
    ensures !Leaving(Next(w, setup, e).sm, c)
  {
    hide Asks, HasTcp, Handle, Removals, Without, Refreshed;
    AsksIff(w, setup, e, c);
    var s, list := w.sm, Lifecycle.Settled(w.sm.active, w.sm.queue);
    match e
    case Submit(d, _) => Lifecycle.SettledConcat(s.active, s.queue, [MonitorCollector(d)]);
    case Received(_, _) =>
    case SweepAt(now) =>
      var idle := Idle(w, setup.timeout, now);
      Lifecycle.SettledConcat(s.active, s.queue, Removals(s.active, idle));
      Lifecycle.SettledRemovals(list, s.active, idle);
      SweepSpares(list, s.active, idle, c);
    case Finalize(d) =>
      Lifecycle.SettledConcat(s.active, s.queue, [RemoveCollector(d, false)]);
      assert [RemoveCollector(d, false)][1..] == [];
      WithoutElements(list, [d]);
    case BufferLost =>
      Lifecycle.SettledConcat(s.active, s.queue, [UpdateProcessList]);
      assert [UpdateProcessList][1..] == [];
    case HandleNext(files) =>
      if s.queue != [] {
        Lifecycle.HandleSettles(s, setup.enabled, files);
      }
  }

  lemma SweepSpares(list: seq<Collector>, active: seq<Collector>, idle: set<Collector>, c: Collector)
    requires c in list && !(c in active && c in idle)
    ensures c in Without(list, Lifecycle.Swept(active, idle))
  {
    hide Without, Lifecycle.Swept;
    SweptOnly(active, idle);
    WithoutElements(list, Lifecycle.Swept(active, idle));
  }

  lemma {:induction false} SweptOnly(active: seq<Collector>, idle: set<Collector>)
    ensures forall i :: 0 <= i < |Lifecycle.Swept(active, idle)| ==>
              Lifecycle.Swept(active, idle)[i] in active && Lifecycle.Swept(active, idle)[i] in idle
  {
    if active != [] {
      SweptOnly(active[..|active| - 1], idle);
      assert active == active[..|active| - 1] + [active[|active| - 1]];
    }
  }

  /** The collector's event source ends in the run, or some sweep of it asks the collector to leave. */
  ghost predicate Ends(w: World, setup: Setup, es: seq<Event>, c: Collector) {
    exists i :: 0 <= i < |es| && (es[i] == Finalize(c) || AskedAt(w, setup, es, i, c))
  }

  lemma {:induction false} LeavingIffEnds(w: World, setup: Setup, es: seq<Event>, c: Collector)
    requires !Leaving(w.sm, c) && Known(es, c)
    ensures Leaving(Run(w, setup, es).sm, c) <==> Ends(w, setup, es, c)
    decreases |es|
  {
    hide Leaving, Next, Asks;
    if es != [] {
      var next := Next(w, setup, es[0]);
      assert es[..0] == [];
      assert AskedAt(w, setup, es, 0, c) == Asks(w, setup, es[0], c);
      if es[0] == Finalize(c) {
        FinalizedIsLeaving(w, setup, c);
        RunStaysLeaving(next, setup, es[1..], c);
      } else if Asks(w, setup, es[0], c) {
        AskedIsLeaving(w, setup, es[0], c);
        RunStaysLeaving(next, setup, es[1..], c);
      } else {
        StaysStaying(w, setup, es[0], c);
        LeavingIffEnds(next, setup, es[1..], c);
        EndsLater(w, setup, es, c);
      }
    }
  }

  lemma EndsLater(w: World, setup: Setup, es: seq<Event>, c: Collector)
    requires es != [] && es[0] != Finalize(c) && !AskedAt(w, setup, es, 0, c)
    ensures Ends(w, setup, es, c) <==> Ends(Next(w, setup, es[0]), setup, es[1..], c)
  {
    hide Next, AskedAt;
    var next, later := Next(w, setup, es[0]), es[1..];
    forall i | 1 <= i < |es|
      ensures AskedAt(w, setup, es, i, c) == AskedAt(next, setup, later, i - 1, c)
    {
      AskedLater(w, setup, es, i, c);
    }
    if Ends(w, setup, es, c) {
      var i :| 0 <= i < |es| && (es[i] == Finalize(c) || AskedAt(w, setup, es, i, c));
      assert later[i - 1] == es[i];
    }
    if Ends(next, setup, later, c) {
      var i :| 0 <= i < |later| && (later[i] == Finalize(c) || AskedAt(next, setup, later, i, c));
      assert es[i + 1] == later[i] && AskedAt(w, setup, es, i + 1, c) == AskedAt(next, setup, later, i, c);
    }
  }

  /** After a collector is submitted: whenever the queue is empty it is on the active list if and only if
      its event source has not ended and no sweep has asked it to leave since. */
  lemma ListedIff(w: World, setup: Setup, c: Collector, created: nat, es: seq<Event>)
    requires Known(es, c)
    ensures var s := Next(w, setup, Submit(c, created));
            Run(s, setup, es).sm.queue == [] ==>
              (c in Run(s, setup, es).sm.active <==> !Ends(s, setup, es, c))
  {
    hide Next, Ends, Run;
    SubmittedIsStaying(w, setup, c, created);
    LeavingIffEnds(Next(w, setup, Submit(c, created)), setup, es, c);
  }

  // ---- The objects follow the values ----

  /** Whoever is listed or about to be was submitted. */
  ghost predicate Listed(w: World) {
    && (forall i :: 0 <= i < |w.sm.active| ==> w.sm.active[i] in w.last)
    && (forall i :: 0 <= i < |w.sm.queue| && w.sm.queue[i].MonitorCollector? ==>
          w.sm.queue[i].collector in w.last)
  }

  lemma RemovalsMonitorNobody(active: seq<Collector>, idle: set<Collector>)
    ensures forall i :: 0 <= i < |Removals(active, idle)| ==> Removals(active, idle)[i].RemoveCollector?
  {
  }

  lemma NextListed(w: World, setup: Setup, e: Event)
    requires Listed(w)
    ensures Listed(Next(w, setup, e))
  {
    hide Without, HasTcp, Removals, Inactive, Refreshed;
    match e
    case SweepAt(now) => RemovalsMonitorNobody(w.sm.active, Idle(w, setup.timeout, now));
    case HandleNext(_) =>
      if w.sm.queue != [] && w.sm.queue[0].RemoveCollector? {
        WithoutElements(w.sm.active, [w.sm.queue[0].collector]);
      }
    case _ =>
  }

  ghost predicate Matches(m: StateManager, w: World)
    reads m, m.activeList, m.queue, w.last.Keys
  {
    m.Valid() && m.Abs() == w.sm && forall c :: c in w.last ==> c.lastUpdate == w.last[c]
  }

  /** A server submits a new collector; only submitted ones receive anything. */
  predicate Feasible(w: World, e: Event) {
    && (e.Submit? ==> e.collector !in w.last)
    && (e.Received? ==> e.collector in w.last)
  }

  predicate FeasibleRun(w: World, setup: Setup, es: seq<Event>)
    decreases |es|
  {
    es == [] || (Feasible(w, es[0]) && FeasibleRun(Next(w, setup, es[0]), setup, es[1..]))
  }

  /** One turn of the objects is one step on values. */
  method Turn(m: StateManager, ghost w: World, ghost setup: Setup, e: Event)
    requires setup == Setup(m.collectorTimeout, m.wakeLockEnabled)
    requires Matches(m, w) && Listed(w) && Feasible(w, e)
    requires e.Submit? ==> e.collector.lastUpdate == e.created
    modifies m, m.activeList, m.queue, w.last.Keys
    ensures Matches(m, Next(w, setup, e)) && Listed(Next(w, setup, e))
  {
    hide Handle;
    NextListed(w, setup, e);
    match e
    case Submit(c, _) => m.queue.Push(MonitorCollector(c));
    case Received(c, inputs) =>
      var _ := c.Receive(inputs);
    case SweepAt(now) =>
      m.Sweep(now);
      assert Idle(w, setup.timeout, now)
          == set c | c in m.activeList.items && Inactive(c.lastUpdate, now, m.collectorTimeout);
    case Finalize(c) => m.queue.Push(RemoveCollector(c, false));
    case BufferLost => m.queue.Push(UpdateProcessList);
    case HandleNext(files) =>
      if m.queue.pending != [] {
        m.HandleNext(files);
      }
  }

  /** The collectors that a run submits. */
  ghost function Submitted(es: seq<Event>): set<Collector> {
    set i | 0 <= i < |es| && es[i].Submit? :: es[i].collector
  }

  lemma {:induction false} SubmittedLater(w: World, setup: Setup, es: seq<Event>)
    requires FeasibleRun(w, setup, es)
    ensures w.last.Keys !! Submitted(es)
    decreases |es|
  {
    hide Seen;
    if es != [] {
      SubmittedLater(Next(w, setup, es[0]), setup, es[1..]);
      SubmittedTail(es);
    }
  }

  lemma SubmittedTail(es: seq<Event>)
    requires es != []
    ensures Submitted(es) == (if es[0].Submit? then {es[0].collector} else {}) + Submitted(es[1..])
  {
    forall c | c in Submitted(es)
      ensures (es[0].Submit? && c == es[0].collector) || c in Submitted(es[1..])
    {
      var i :| 0 <= i < |es| && es[i].Submit? && es[i].collector == c;
      assert i > 0 ==> es[1..][i - 1] == es[i];
    }
    forall c | c in Submitted(es[1..])
      ensures c in Submitted(es)
    {
      var i :| 0 <= i < |es[1..]| && es[1..][i].Submit? && es[1..][i].collector == c;
      assert es[i + 1].collector == c;
    }
  }

  lemma NextKeys(w: World, setup: Setup, e: Event)
    ensures Next(w, setup, e).last.Keys == w.last.Keys + if e.Submit? then {e.collector} else {}
  {
  }

  /** Every run of the objects is a run on values, in which new collectors start from the time at which
      they were created. */
  method RunLoop(m: StateManager, ghost w: World, ghost setup: Setup, es: seq<Event>)
    requires setup == Setup(m.collectorTimeout, m.wakeLockEnabled)
    requires Matches(m, w) && Listed(w) && FeasibleRun(w, setup, es)
    requires forall i :: 0 <= i < |es| && es[i].Submit? ==> es[i].collector.lastUpdate == es[i].created
    modifies m, m.activeList, m.queue, w.last.Keys, Submitted(es)
    ensures Matches(m, Run(w, setup, es)) && Listed(Run(w, setup, es))
  {
    hide Next, Listed;
    ghost var cur := w;
    for i := 0 to |es|
      invariant Matches(m, cur) && Listed(cur) && FeasibleRun(cur, setup, es[i..])
      invariant Run(w, setup, es) == Run(cur, setup, es[i..])
      invariant cur.last.Keys <= w.last.Keys + Submitted(es)
      invariant forall j :: i <= j < |es| && es[j].Submit? ==> es[j].collector.lastUpdate == es[j].created
    {
      SubmittedLater(cur, setup, es[i..]);
      assert es[i..][1..] == es[i + 1..];
      NextKeys(cur, setup, es[i]);
      assert es[i].Submit? ==> es[i].collector in Submitted(es);
      Turn(m, cur, setup, es[i]);
      cur := Next(cur, setup, es[i]);
    }
  }
}
