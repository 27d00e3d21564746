/** The single event loop: process events, lane ticks and queue steps in any order. */
module EventLoop {
  import opened Registry
  import opened ProcRegistries
  import opened Draining

  datatype EventCounts = EventCounts(fork: nat, exec: nat, uid: nat, gid: nat, exit: nat)

  const NO_EVENTS := EventCounts(0, 0, 0, 0, 0)

  function Counted(c: EventCounts, e: Event): EventCounts {
    match e
    case Fork(_, _, _) => c.(fork := c.fork + 1)
    case Exec(_, _) => c.(exec := c.exec + 1)
    case Uid => c.(uid := c.uid + 1)
    case Gid => c.(gid := c.gid + 1)
    case Exit(_, _) => c.(exit := c.exit + 1)
    case _ => c
  }

  function CountedAll(c: EventCounts, es: seq<Event>): EventCounts
    decreases |es|
  {
    if es == [] then c else CountedAll(Counted(c, es[0]), es[1..])
  }

  /** The places of the events of a kind. */
  function Places(es: seq<Event>, kind: Event -> bool): set<int> {
    set i | 0 <= i < |es| && kind(es[i])
  }

  lemma PlacesSnoc(es: seq<Event>, e: Event, kind: Event -> bool)
    ensures |Places(es + [e], kind)| == |Places(es, kind)| + if kind(e) then 1 else 0
  {
    assert Places(es + [e], kind) == Places(es, kind) + if kind(e) then {|es|} else {};
  }

  lemma {:induction false} CountedSnoc(c: EventCounts, es: seq<Event>, e: Event)
    ensures CountedAll(c, es + [e]) == Counted(CountedAll(c, es), e)
    decreases |es|
  {
    hide Counted;
    if es == [] {
      assert (es + [e])[1..] == [];
    } else {
      assert (es + [e])[1..] == es[1..] + [e];
      CountedSnoc(Counted(c, es[0]), es[1..], e);
    }
  }

  /** After any run each counter is the number of events of its kind, threads included, whether or not the
      registry follows them. */
  lemma {:induction false} CountersCount(es: seq<Event>)
    ensures var c := CountedAll(NO_EVENTS, es);
            && c.fork == |Places(es, (e: Event) => e.Fork?)|
            && c.exec == |Places(es, (e: Event) => e.Exec?)|
            && c.uid == |Places(es, (e: Event) => e.Uid?)|
            && c.gid == |Places(es, (e: Event) => e.Gid?)|
            && c.exit == |Places(es, (e: Event) => e.Exit?)|
    decreases |es|
  {
    hide Places;
    if es == [] {
      NoPlaces();
    } else {
      var init, e := es[..|es| - 1], es[|es| - 1];
      assert init + [e] == es;
      CountersCount(init);
      CountedSnoc(NO_EVENTS, init, e);
      PlacesSnoc(init, e, (e: Event) => e.Fork?);
      PlacesSnoc(init, e, (e: Event) => e.Exec?);
      PlacesSnoc(init, e, (e: Event) => e.Uid?);
      PlacesSnoc(init, e, (e: Event) => e.Gid?);
      PlacesSnoc(init, e, (e: Event) => e.Exit?);
    }
  }

  lemma NoPlaces()
    ensures forall kind :: Places([], kind) == {}
  {
  }

  class ProcEvent {
    const registry: ProcRegistry
    var eventData: EventCounts

    constructor (registry: ProcRegistry)
      ensures this.registry == registry && eventData == NO_EVENTS
    {
      this.registry := registry;
      eventData := NO_EVENTS;
    }

    /** The switch over the kernel's process events. A thread has a pid other than its tgid; only an
        exec is followed without looking at the tgid. */
    method Receive(e: Event)
      requires e.Fork? || e.Exec? || e.Uid? || e.Gid? || e.Exit?
      requires registry.Valid()
      modifies this, registry.procList, registry.contextList, registry.queue, registry.procList.items
      ensures registry.Valid() && registry.OnlyNew()
      ensures registry.Abs() == Next(old(registry.Abs()), registry.config, e)
      ensures eventData == Counted(old(eventData), e)
    {
      hide Add, Upd, Remove, ProcRegistry.Abs;
      match e
      case Fork(pid, tgid, probe) =>
        eventData := eventData.(fork := eventData.fork + 1);
        if pid == tgid {
          if registry.config.updateOnProcEvent {
            registry.AddProcEntry(tgid, probe);
          }
        }
      case Exec(pid, newName) =>
        eventData := eventData.(exec := eventData.exec + 1);
        if registry.config.updateOnProcEvent {
          registry.UpdProcEntry(pid, newName);
        }
      case Uid =>
        eventData := eventData.(uid := eventData.uid + 1);
      case Gid =>
        eventData := eventData.(gid := eventData.gid + 1);
      case Exit(pid, tgid) =>
        eventData := eventData.(exit := eventData.exit + 1);
        if pid == tgid {
          if registry.config.updateOnProcEvent {
            registry.RemProcEntry(pid, true);
          }
        }
    }
  }

  /** A run from the place `i` on: its first step, and what is left. */
  lemma RunFrom(r: Reg, cfg: Config, c: EventCounts, es: seq<Event>, i: nat)
    requires i < |es|
    ensures var r' := Next(r, cfg, es[i]);
            && Run(r, cfg, es[i..]) == Run(r', cfg, es[i + 1..])
            && (RunStops(r, cfg, es[i..]) <==> Stops(r, cfg, es[i]) || RunStops(r', cfg, es[i + 1..]))
            && Answers(r, cfg, es[i..])
               == (if SentAt(r, cfg, es[i]).Nothing? then [] else [SentAt(r, cfg, es[i])])
                  + Answers(r', cfg, es[i + 1..])
            && CountedAll(c, es[i..]) == CountedAll(Counted(c, es[i]), es[i + 1..])
  {
    hide Next, Stops, SentAt, Counted;
    assert es[i..][1..] == es[i + 1..];
  }

  lemma RunOver(r: Reg, cfg: Config, c: EventCounts)
    ensures Run(r, cfg, []) == r && !RunStops(r, cfg, []) && Answers(r, cfg, []) == []
    ensures CountedAll(c, []) == c
  {
  }

  class Loop {
    const procEvent: ProcEvent
    const registry: ProcRegistry

    constructor (procEvent: ProcEvent)
      ensures this.procEvent == procEvent && Wired()
    {
      this.procEvent, registry := procEvent, procEvent.registry;
    }

    ghost predicate Wired() { registry == procEvent.registry }

    /** One turn of the loop, and what it sends. `trapped` reports a division by zero, which stops the
        program. */
    method Turn(e: Event) returns (sent: Sent, trapped: bool)
      requires Wired() && registry.Valid()
      modifies procEvent, registry.procList, registry.contextList, registry.queue
      modifies registry.procList.items, registry.contextList.items
      ensures trapped <==> Stops(old(registry.Abs()), registry.config, e)
      ensures sent == SentAt(old(registry.Abs()), registry.config, e)
      ensures !trapped ==>
                && registry.Valid() && registry.OnlyNew()
                && registry.Abs() == Next(old(registry.Abs()), registry.config, e)
                && procEvent.eventData == Counted(old(procEvent.eventData), e)
    {
      hide Handle, Remove, LaneTick, Answer, Scan, PidsNamed, Add, Upd, UpdateStops, SentBy;
      sent, trapped := Nothing, false;
      match e
      case Tick(lane, found, readings, wanted, refused) =>
        trapped := registry.UpdateLane(lane, found, readings, wanted, refused);
      case AcctAnswer(pid, record) => registry.AnswerAcct(pid, record);
      case Rescan(found) => registry.UpdateProcessList(found);
      case RemoveNamed(name, sync) => registry.RemProcEntryNamed(name, sync);
      case Request(action) => registry.queue.Push(action);
      case HandleNext =>
        if registry.queue.pending != [] {
          sent := registry.HandleNext();
        }
      case _ => procEvent.Receive(e);
    }

    /** Every run of the program's objects is a run of the value-level registry, up to a division by
        zero, and sends what that run sends. */
    method Run(es: seq<Event>) returns (answers: seq<Sent>, trapped: bool)
      requires Wired() && registry.Valid()
      modifies procEvent, registry.procList, registry.contextList, registry.queue
      modifies registry.procList.items, registry.contextList.items
      ensures trapped <==> RunStops(old(registry.Abs()), registry.config, es)
      ensures !trapped ==>
                && registry.Valid() && registry.OnlyNew()
                && registry.Abs() == Registry.Run(old(registry.Abs()), registry.config, es)
                && answers == Answers(old(registry.Abs()), registry.config, es)
                && procEvent.eventData == CountedAll(old(procEvent.eventData), es)
    {
      hide Next, Stops, SentAt, Registry.Run, RunStops, Answers, ProcRegistry.Abs, Counted, CountedAll;
      ghost var r, cfg := registry.Abs(), registry.config;
      answers := [];
      assert es[0..] == es;
      for i := 0 to |es|
        invariant registry.Valid() && registry.OnlyNew()
        invariant Registry.Run(r, cfg, es) == Registry.Run(registry.Abs(), cfg, es[i..])
        invariant RunStops(r, cfg, es) <==> RunStops(registry.Abs(), cfg, es[i..])
        invariant CountedAll(old(procEvent.eventData), es) == CountedAll(procEvent.eventData, es[i..])
        invariant Answers(r, cfg, es) == answers + Answers(registry.Abs(), cfg, es[i..])
      {
        RunFrom(registry.Abs(), cfg, procEvent.eventData, es, i);
        var sent;
        sent, trapped := Turn(es[i]);
        if trapped {
          return;
        }
        if !sent.Nothing? {
          answers := answers + [sent];
        }
      }
      trapped := false;
      assert es[|es|..] == [];
      RunOver(registry.Abs(), cfg, procEvent.eventData);
    }

    /** The turns that handle requests until none is left; each takes weight off the queue. */
    method DrainQueue()
      requires Wired() && registry.Valid()
      modifies registry.procList, registry.contextList, registry.queue
      modifies registry.procList.items, registry.contextList.items
      ensures registry.Valid() && registry.OnlyNew()
      ensures registry.Abs() == Drained(old(registry.Abs()))
    {
      hide Handle;
      while registry.queue.pending != []
        invariant registry.Valid() && registry.OnlyNew()
        invariant Drained(old(registry.Abs())) == Drained(registry.Abs())
        decreases Weight(registry.queue.pending)
      {
        HandleLightens(registry.Abs());
        var _ := registry.HandleNext();
      }
    }
  }
}
