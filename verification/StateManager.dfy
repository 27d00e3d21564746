/** The collector lifecycle: the request protocol of the state manager, the wake lock, and the
    periodic sweep for inactive collectors. */
module StateManagers {
  import opened SafeLists

  datatype Kind = TCP | UDS

  /** What one turn of the receive loop meets: nothing more to read, a failed read, the end of the
      stream, a message not from a collector, or a message handled with this status at this time. */
  datatype Input = Again | ReadError | EndOfFile | Foreign | Message(status: bool, now: nat)

  /** How many messages are handled with success before anything else happens. */
  function Accepted(inputs: seq<Input>): (n: nat)
    ensures n <= |inputs|
    ensures forall i :: 0 <= i < n ==> inputs[i].Message? && inputs[i].status
    ensures n < |inputs| ==> !(inputs[n].Message? && inputs[n].status)
  {
    if inputs != [] && inputs[0].Message? && inputs[0].status then 1 + Accepted(inputs[1..]) else 0
  }

  class Collector {
    const kind: Kind
    var lastUpdate: nat

    constructor (kind: Kind, now: nat)
      ensures this.kind == kind && lastUpdate == now
    {
      this.kind, lastUpdate := kind, now;
    }

    /** The receive loop. Only messages handled with success refresh the last update time, and the
        event source survives exactly when the loop ends for want of input. */
    method Receive(inputs: seq<Input>) returns (alive: bool)
      modifies this
      ensures var n := Accepted(inputs);
              && lastUpdate == (if n == 0 then old(lastUpdate) else inputs[n - 1].now)
              && alive == (n == |inputs| || inputs[n].Again?)
    {
      var i := 0;
      var status := true;
      while status
        invariant 0 <= i <= |inputs|
        invariant status ==> Accepted(inputs) == i + Accepted(inputs[i..])
        invariant status ==> lastUpdate == if i == 0 then old(lastUpdate) else inputs[i - 1].now
        invariant !status ==> i < |inputs| && Accepted(inputs) == i && !inputs[i].Again?
        invariant !status ==> lastUpdate == if i == 0 then old(lastUpdate) else inputs[i - 1].now
        decreases status, |inputs| - i
      {
        if i == |inputs| || inputs[i].Again? {
          return true;
        }
        if !inputs[i].Message? {
          return false;
        }
        status := inputs[i].status;
        if status {
          lastUpdate := inputs[i].now;
          i := i + 1;
        }
      }
      return status;
    }
  }

  datatype Request =
    | MonitorCollector(collector: Collector)
    | RemoveCollector(collector: Collector, withEventSource: bool)
    | UpdateWakeLock
    | UpdateProcessList

  /** The state manager on values; collectors keep their identity. */
  datatype Sm = Sm(active: seq<Collector>, queue: seq<Request>, lock: bool)

  const START := Sm([], [], false)

  /** Which of the two sysfs files are there when a wake lock request is handled. */
  datatype Files = Files(wakeLock: bool, wakeUnlock: bool)

  predicate HasTcp(active: seq<Collector>) {
    exists i :: 0 <= i < |active| && active[i].kind.TCP?
  }

  function WakeLockAfter(s: Sm, enabled: bool, files: Files): bool {
    if !enabled then s.lock
    else if HasTcp(s.active) then s.lock || files.wakeLock
    else s.lock && !files.wakeUnlock
  }

  /** A change of the active list by a TCP collector asks for a wake lock update. */
  function Follow(s: Sm, c: Collector): Sm {
    if c.kind.TCP? then s.(queue := s.queue + [UpdateWakeLock]) else s
  }

  function Handle(s: Sm, enabled: bool, files: Files): Sm
    requires s.queue != []
  {
    var s' := s.(queue := s.queue[1..]);
    match s.queue[0]
    case MonitorCollector(c) => Follow(s'.(active := s.active + [c]), c)
    case RemoveCollector(c, _) => Follow(s'.(active := Without(s.active, [c])), c)
    case UpdateWakeLock => s'.(lock := WakeLockAfter(s, enabled, files))
    case UpdateProcessList => s'
  }

  /** The sweep asks a collector to leave when its last update is longer ago than the timeout. */
  predicate Inactive(last: nat, now: nat, timeout: nat) { now - last > timeout }

  function Removals(active: seq<Collector>, idle: set<Collector>): seq<Request> {
    if active == [] then []
    else Removals(active[..|active| - 1], idle)
         + if active[|active| - 1] in idle then [RemoveCollector(active[|active| - 1], true)] else []
  }

  class StateManager {
    const collectorTimeout: nat
    const wakeLockEnabled: bool
    const activeList: SafeList<Collector>
    const queue: AsyncQueue<Request>
    var activeWakeLock: bool

    ghost predicate Valid()
      reads activeList
    {
      activeList.adding == [] && activeList.removing == []
    }

    ghost function Abs(): Sm
      reads this, activeList, queue
    {
      Sm(activeList.items, queue.pending, activeWakeLock)
    }

    constructor (collectorTimeout: nat, wakeLockEnabled: bool)
      ensures Valid() && Abs() == START && fresh(activeList) && fresh(queue)
    {
      this.collectorTimeout, this.wakeLockEnabled := collectorTimeout, wakeLockEnabled;
      activeList := new SafeList();
      queue := new AsyncQueue();
      activeWakeLock := false;
    }

    /** The timer callback. */
    method Sweep(now: nat)
      requires Valid()
      modifies queue
      ensures Valid()
      ensures var idle := set c | c in activeList.items && Inactive(c.lastUpdate, now, collectorTimeout);
              Abs() == old(Abs()).(queue := old(Abs()).queue + Removals(activeList.items, idle))
    {
      ghost var idle :=
        set c | c in activeList.items && Inactive(c.lastUpdate, now, collectorTimeout);
      assert activeList.items[..0] == [];
      for i := 0 to |activeList.items|
        invariant Valid()
        invariant queue.pending == old(queue.pending) + Removals(activeList.items[..i], idle)
      {
        var entry := activeList.items[i];
        assert activeList.items[..i + 1][..i] == activeList.items[..i];
        if now - entry.lastUpdate > collectorTimeout {
          queue.Push(RemoveCollector(entry, true));
        }
      }
      assert activeList.items[..|activeList.items|] == activeList.items;
      assert idle == set c | c in activeList.items && Inactive(c.lastUpdate, now, collectorTimeout);
    }

    method PushUpdateWakeLock(c: Collector)
      modifies queue
      ensures Abs() == Follow(old(Abs()), c)
    {
      if c.kind.TCP? {
        queue.Push(UpdateWakeLock);
      }
    }

    method DoUpdateWakeLock(files: Files)
      requires Valid()
      modifies this
      ensures Valid()
      ensures Abs() == old(Abs()).(lock := WakeLockAfter(old(Abs()), wakeLockEnabled, files))
    {
      if wakeLockEnabled {
        var haveTcpCollector := false;
        for i := 0 to |activeList.items|
          invariant haveTcpCollector <==> exists j :: 0 <= j < i && activeList.items[j].kind.TCP?
        {
          if activeList.items[i].kind.TCP? {
            haveTcpCollector := true;
          }
        }
        if haveTcpCollector && !activeWakeLock {
          if files.wakeLock {
            activeWakeLock := true;
          }
        }
        if !haveTcpCollector && activeWakeLock {
          if files.wakeUnlock {
            activeWakeLock := false;
          }
        }
      }
    }

    /** One step of the request queue. */
    method HandleNext(files: Files)
      requires Valid() && queue.pending != []
      modifies this, activeList, queue
      ensures Valid() && Abs() == Handle(old(Abs()), wakeLockEnabled, files)
    {
      var request := queue.Pop();
      match request
      case MonitorCollector(c) =>
        WithoutNothing(activeList.items + [c]);
        assert activeList.items + (activeList.adding + [c]) == activeList.items + [c];
        activeList.Append(c, true);
        PushUpdateWakeLock(c);
      case RemoveCollector(c, _) =>
        assert activeList.items + activeList.adding == activeList.items;
        assert activeList.removing + [c] == [c];
        activeList.Remove(c, true);
        PushUpdateWakeLock(c);
      case UpdateWakeLock => DoUpdateWakeLock(files);
      case UpdateProcessList =>
    }
  }
}
