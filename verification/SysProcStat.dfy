/** The CPU data source: at most one pending update request, and a list of CPUs updated or appended
    by name. */
module SysProcStats {
  import opened Words
  import opened SafeLists
  import opened Keyed
  import opened Text
  import opened Index
  import opened CpuShare

  // ---- The pending protocol on values ----

  datatype Rq = UpdateStats | CollectAndSend

  datatype Source = Source(queue: seq<Rq>, pending: bool)

  const IDLE := Source([], false)

  /** `returns` says whether the update handler returns; it throws when the file cannot be opened. */
  datatype Event = Tick(lane: Lane) | Collect | HandleNext(ends: bool)

  function Next(s: Source, lane: Lane, e: Event): Source {
    match e
    case Tick(l) => if l == lane && !s.pending then Source(s.queue + [UpdateStats], true) else s
    case Collect => s.(queue := s.queue + [CollectAndSend])
    case HandleNext(ends) =>
      if s.queue == [] then s
      else Source(s.queue[1..], s.pending && !(s.queue[0] == UpdateStats && ends))
  }

  function Run(s: Source, lane: Lane, es: seq<Event>): Source
    decreases |es|
  {
    if es == [] then s else Run(Next(s, lane, es[0]), lane, es[1..])
  }

  function Updates(q: seq<Rq>): nat {
    if q == [] then 0 else (if q[0] == UpdateStats then 1 else 0) + Updates(q[1..])
  }

  /** Some update handler threw during the run. */
  predicate Threw(s: Source, lane: Lane, es: seq<Event>)
    decreases |es|
  {
    es != [] && ((es[0].HandleNext? && !es[0].ends && s.queue != [] && s.queue[0] == UpdateStats)
                 || Threw(Next(s, lane, es[0]), lane, es[1..]))
  }

  lemma {:induction false} UpdatesConcat(q: seq<Rq>, r: Rq)
    ensures Updates(q + [r]) == Updates(q) + (if r == UpdateStats then 1 else 0)
  {
    if q == [] {
      assert (q + [r])[1..] == [];
    } else {
      assert (q + [r])[1..] == q[1..] + [r];
      UpdatesConcat(q[1..], r);
    }
  }

  /** At most one update request is queued, and while one is queued the flag is set. */
  ghost predicate AtMostOne(s: Source) { Updates(s.queue) <= (if s.pending then 1 else 0) }

  /** The flag is set exactly when one update request is queued. */
  ghost predicate InStep(s: Source) { Updates(s.queue) == if s.pending then 1 else 0 }

  lemma NextAtMostOne(s: Source, lane: Lane, e: Event)
    requires AtMostOne(s)
    ensures AtMostOne(Next(s, lane, e))
    ensures InStep(Next(s, lane, e)) <==> InStep(s) && !Threw(s, lane, [e])
  {
    UpdatesConcat(s.queue, UpdateStats);
    UpdatesConcat(s.queue, CollectAndSend);
    assert !Threw(Next(s, lane, e), lane, []);
  }

  /** In every run at most one update is queued; and the flag still tells whether one is, exactly
      when no update handler threw. */
  lemma {:induction false} SinglePending(s: Source, lane: Lane, es: seq<Event>)
    requires AtMostOne(s)
    ensures AtMostOne(Run(s, lane, es))
    ensures InStep(Run(s, lane, es)) <==> InStep(s) && !Threw(s, lane, es)
    decreases |es|
  {
    hide Next, AtMostOne, InStep;
    if es != [] {
      NextAtMostOne(s, lane, es[0]);
      assert !Threw(Next(s, lane, es[0]), lane, []);
      SinglePending(Next(s, lane, es[0]), lane, es[1..]);
    }
  }

  /** Ticks of other lanes queue nothing and set nothing. */
  lemma {:induction false} OtherLanesDoNothing(s: Source, lane: Lane, es: seq<Event>)
    requires !s.pending && Updates(s.queue) == 0
    requires forall i :: 0 <= i < |es| ==> es[i] != Tick(lane)
    ensures !Run(s, lane, es).pending && Updates(Run(s, lane, es).queue) == 0
    decreases |es|
  {
    if es != [] {
      UpdatesConcat(s.queue, CollectAndSend);
      OtherLanesDoNothing(Next(s, lane, es[0]), lane, es[1..]);
    }
  }

  function Collects(q: seq<Rq>): nat {
    if q == [] then 0 else (if q[0] == CollectAndSend then 1 else 0) + Collects(q[1..])
  }

  lemma {:induction false} CollectsConcat(q: seq<Rq>, r: Rq)
    ensures Collects(q + [r]) == Collects(q) + (if r == CollectAndSend then 1 else 0)
  {
    if q == [] {
      assert (q + [r])[1..] == [];
    } else {
      assert (q + [r])[1..] == q[1..] + [r];
      CollectsConcat(q[1..], r);
    }
  }

  /** How many reports a run sends, and how many it is asked for. */
  function Sent(s: Source, lane: Lane, es: seq<Event>): nat
    decreases |es|
  {
    if es == [] then 0
    else
      (if es[0].HandleNext? && s.queue != [] && s.queue[0] == CollectAndSend then 1 else 0)
      + Sent(Next(s, lane, es[0]), lane, es[1..])
  }

  function Asked(es: seq<Event>): nat {
    if es == [] then 0 else (if es[0].Collect? then 1 else 0) + Asked(es[1..])
  }

  /** In every run, whether or not an update threw, each report asked for is sent once or still queued. */
  lemma {:induction false} EachCollectOnce(s: Source, lane: Lane, es: seq<Event>)
    ensures Sent(s, lane, es) + Collects(Run(s, lane, es).queue) == Collects(s.queue) + Asked(es)
    decreases |es|
  {
    if es != [] {
      CollectsConcat(s.queue, UpdateStats);
      CollectsConcat(s.queue, CollectAndSend);
      EachCollectOnce(Next(s, lane, es[0]), lane, es[1..]);
    }
  }

  /** The flag is set although no update is queued, so no tick will queue one. */
  predicate Stuck(s: Source) { s.pending && Updates(s.queue) == 0 }

  lemma {:induction false} StaysStuck(s: Source, lane: Lane, es: seq<Event>)
    requires Stuck(s)
    ensures Stuck(Run(s, lane, es))
    decreases |es|
  {
    if es != [] {
      UpdatesConcat(s.queue, CollectAndSend);
      StaysStuck(Next(s, lane, es[0]), lane, es[1..]);
    }
  }

  /** From the start: the source is stuck exactly when some update handler has thrown, and then it
      queues no update in any continuation. */
  lemma StuckIffThrew(lane: Lane, es: seq<Event>, later: seq<Event>)
    ensures Stuck(Run(IDLE, lane, es)) <==> Threw(IDLE, lane, es)
    ensures Threw(IDLE, lane, es) ==> Updates(Run(Run(IDLE, lane, es), lane, later).queue) == 0
  {
    hide Run, Threw;
    SinglePending(IDLE, lane, es);
    if Threw(IDLE, lane, es) {
      StaysStuck(Run(IDLE, lane, es), lane, later);
    }
  }

  /** One tick while the file cannot be opened is enough to end all updates. */
  lemma FirstUpdateThrows(lane: Lane, later: seq<Event>)
    ensures var s := Run(IDLE, lane, [Tick(lane), HandleNext(false)]);
            s == Source([], true) && Updates(Run(s, lane, later).queue) == 0
  {
    hide Updates;
    var es := [Tick(lane), HandleNext(false)];
    var s1 := Next(IDLE, lane, es[0]);
    assert es[1..] == [HandleNext(false)] && es[1..][1..] == [];
    assert Run(IDLE, lane, es) == Run(s1, lane, es[1..]);
    assert Run(s1, lane, es[1..]) == Source([], true) by {
      assert Next(s1, lane, es[1..][0]) == Source([], true);
    }
    NoUpdates();
    StaysStuck(Source([], true), lane, later);
  }

  lemma NoUpdates()
    ensures Updates([]) == 0
  {
  }

  // ---- The list of CPUs on values ----

  /** The buffer for a name, which ends with a null character. */
  const NAME_SIZE: nat := 64

  /** A line without "cpu", a line whose first word does not fit the buffer, a line from which fewer than
      eleven fields can be read, or a sample. */
  datatype Line = NotCpu | LongName | Short | Sample(name: string, data: CPUStatData)

  function FromCounters(ns: seq<U64>): CPUStatData
    requires |ns| == 10
  {
    CPUStatData(ns[0], ns[1], ns[2], ns[3], ns[4], ns[5], ns[6], ns[7], ns[8], ns[9])
  }

  /** The formatted scan of one line: a word and ten numbers. */
  function Scan(line: string): Line {
    if !Contains(line, "cpu") then NotCpu
    else
      var (name, rest) := ScanWord(line);
      var ns := ScanNumbers(rest, 10);
      if |name| >= NAME_SIZE then LongName
      else if |ns| < 10 then Short
      else Sample(name, FromCounters(ns))
  }

  function ScanAll(lines: seq<string>): seq<Line> {
    seq(|lines|, i requires 0 <= i < |lines| => Scan(lines[i]))
  }

  type View = seq<(string, CpuState)>

  function StateOf(view: View, name: string): CpuState {
    if Get(view, name).Some? then Get(view, name).value else FRESH
  }

  datatype Outcome = Done | Overrun | ParseError | Trapped

  /** Reading stops at the first line that is not a CPU line, at a short one, and at a sample whose
      delta total is zero, which stops the process. Where a name overruns the buffer, what the program
      does is undefined, and the model stops there. */
  function Read(view: View, lines: seq<Line>): (View, Outcome)
    decreases |lines|
  {
    if lines == [] then (view, Done)
    else match lines[0]
    case NotCpu => (view, Done)
    case LongName => (view, Overrun)
    case Short => (view, ParseError)
    case Sample(name, data) =>
      if Traps(StateOf(view, name).last, data) then (view, Trapped)
      else Read(Upsert(view, name, data, Updated, FRESH), lines[1..])
  }

  function Samples(lines: seq<Line>): seq<(string, CPUStatData)>
    requires forall i :: 0 <= i < |lines| ==> lines[i].Sample?
  {
    seq(|lines|, i requires 0 <= i < |lines| => (lines[i].name, lines[i].data))
  }

  function ViewOf(es: seq<CPUStat>): View
    reads es
  {
    seq(|es|, i requires 0 <= i < |es| reads es => (es[i].name, es[i].State()))
  }

  lemma ViewAt(es: seq<CPUStat>, i: nat)
    requires i < |es|
    ensures |ViewOf(es)| == |es| && ViewOf(es)[i] == (es[i].name, es[i].State())
    ensures Keys(ViewOf(es))[i] == es[i].name
  {
  }

  class SysProcStat {
    const lane: Lane
    const cpus: SafeList<CPUStat>
    const queue: AsyncQueue<Rq>
    var updatePending: bool

    constructor (lane: Lane)
      ensures this.lane == lane && Valid() && View() == [] && Pending() == IDLE
      ensures fresh(cpus) && fresh(queue)
    {
      this.lane := lane;
      cpus := new SafeList();
      queue := new AsyncQueue();
      updatePending := false;
    }

    ghost predicate Valid()
      reads cpus, cpus.items
    {
      cpus.adding == [] && cpus.removing == [] && Distinct(Keys(View()))
    }

    ghost function View(): View
      reads cpus, cpus.items
    {
      ViewOf(cpus.items)
    }

    ghost function Pending(): Source
      reads this, queue
    {
      Source(queue.pending, updatePending)
    }

    twostate predicate OnlyNew()
      reads cpus
    {
      forall i :: 0 <= i < |cpus.items| ==> cpus.items[i] in old(cpus.items) || fresh(cpus.items[i])
    }

    /** What a lane tick does to a source of this lane or another. */
    method OnTick(l: Lane)
      modifies this, queue
      ensures Pending() == Next(old(Pending()), lane, Tick(l))
    {
      if l == lane {
        Update();
      }
    }

    method Update()
      modifies this, queue
      ensures Pending() == Next(old(Pending()), lane, Tick(lane))
    {
      if updatePending {
        return;
      }
      queue.Push(UpdateStats);
      updatePending := true;
    }

    /** `file` holds the lines of the file, or `None` when it cannot be opened, which throws before
        the flag is cleared. A trap stops the process, so the flag matters no more. */
    method HandleNext(file: Option<seq<string>>) returns (outcome: Option<Outcome>)
      requires Valid() && queue.pending != []
      modifies this, queue, cpus, cpus.items
      ensures Valid() && OnlyNew()
      ensures Pending() == Next(old(Pending()), lane, Event.HandleNext(file.Some?))
      ensures var updates := file.Some? && old(queue.pending)[0] == UpdateStats;
              && outcome == (if updates then Some(Read(old(View()), ScanAll(file.value)).1) else None)
              && View() == (if updates then Read(old(View()), ScanAll(file.value)).0 else old(View()))
    {
      hide Read, ScanAll;
      var request := queue.Pop();
      outcome := None;
      if request == UpdateStats && file.Some? {
        var o := DoUpdateStats(file.value);
        outcome := Some(o);
        updatePending := false;
      }
    }

    method Append(entry: CPUStat)
      requires Valid() && entry !in cpus.items && entry.name !in Keys(View())
      modifies cpus
      ensures Valid() && cpus.items == old(cpus.items) + [entry]
      ensures View() == old(View()) + [(entry.name, entry.State())]
    {
      hide CPUStat.State;
      cpus.Append(entry, false);
      WithoutNothing(cpus.items + cpus.adding);
      ghost var view := View() + [(entry.name, entry.State())];
      assert Keys(view) == Keys(View()) + [entry.name];
      cpus.Commit();
      assert View() == view;
    }

    /** The loop over the list for one sample. */
    method UpdateFound(name: string, data: CPUStatData) returns (found: bool, trapped: bool)
      requires Valid()
      modifies cpus.items
      ensures Valid()
      ensures found <==> Find(old(View()), name) < |old(View())|
      ensures trapped <==> found && Traps(StateOf(old(View()), name).last, data)
      ensures View() == if found && !trapped then Upsert(old(View()), name, data, Updated, FRESH)
                        else old(View())
    {
      ghost var view := View();
      assert |view| == |cpus.items|;
      hide Traps, Updated, ViewOf, Find;
      ghost var place := Find(view, name);
      found, trapped := false, false;
      for i := 0 to |cpus.items|
        invariant Valid() && Keys(View()) == Keys(view) && |view| == |cpus.items| && !trapped
        invariant found <==> place < i
        invariant found ==> !Traps(StateOf(view, name).last, data)
        invariant View() == if found then Upsert(view, name, data, Updated, FRESH) else view
      {
        ViewAt(cpus.items, i);
        if cpus.items[i].name == name {
          assert Keys(View())[i] == Keys(view)[i];
          FindUnique(view, name, i);
          assert place == i && !found;
          found := true;
          trapped := UpdateAt(cpus.items[i], i, data);
          if trapped {
            return;
          }
        } else {
          assert place != i;
        }
      }
    }

    method UpdateAt(entry: CPUStat, ghost i: nat, data: CPUStatData) returns (trapped: bool)
      requires Valid() && i < |cpus.items| && cpus.items[i] == entry
      modifies entry
      ensures Valid()
      ensures trapped <==> Traps(old(entry.last), data)
      ensures View() == old(View())[i := (entry.name, Updated(old(entry.State()), data))]
      ensures Keys(View()) == Keys(old(View()))
    {
      hide Traps, Updated;
      ghost var view := View();
      assert forall j :: 0 <= j < |view| ==> Keys(view)[j] == cpus.items[j].name;
      trapped := entry.UpdateStats(data);
      assert Keys(View()) == Keys(view);
    }

    method UpdateCpu(name: string, data: CPUStatData) returns (trapped: bool)
      requires Valid()
      modifies cpus, cpus.items
      ensures Valid() && OnlyNew()
      ensures trapped <==> Traps(StateOf(old(View()), name).last, data)
      ensures View() == if trapped then old(View()) else Upsert(old(View()), name, data, Updated, FRESH)
    {
      hide Updated, Traps, Upsert, Find;
      var found;
      found, trapped := UpdateFound(name, data);
      if !found {
        NewName(View(), name, data);
        var entry := new CPUStat(name);
        trapped := entry.UpdateStats(data);
        Append(entry);
      }
    }

    method DoUpdateStats(lines: seq<string>) returns (outcome: Outcome)
      requires Valid()
      modifies cpus, cpus.items
      ensures Valid() && OnlyNew()
      ensures (View(), outcome) == Read(old(View()), ScanAll(lines))
    {
      hide Traps, Upsert, StateOf, Scan;
      ghost var all := ScanAll(lines);
      for i := 0 to |lines|
        invariant Valid() && OnlyNew()
        invariant Read(old(View()), all) == Read(View(), all[i..])
      {
        assert all[i..][1..] == all[i + 1..];
        match Scan(lines[i])
        case NotCpu => return Done;
        case LongName => return Overrun;
        case Short => return ParseError;
        case Sample(name, data) =>
          var trapped := UpdateCpu(name, data);
          if trapped {
            return Trapped;
          }
      }
      return Done;
    }
  }

  /** A name that is not listed gets a new entry, which only remembers its first sample. */
  lemma NewName(view: View, name: string, data: CPUStatData)
    requires Find(view, name) == |view|
    ensures name !in Keys(view) && StateOf(view, name) == FRESH && !Traps(FRESH.last, data)
    ensures Upsert(view, name, data, Updated, FRESH) == view + [(name, Updated(FRESH, data))]
  {
  }

  // ---- Every CPU follows its own samples ----

  /** What was read is a prefix of the file, and the list is the map updated by those samples. */
  lemma {:induction false} ReadRefines(view: View, lines: seq<Line>) returns (n: nat)
    ensures n <= |lines| && forall i :: 0 <= i < n ==> lines[i].Sample?
    ensures var (after, outcome) := Read(view, lines);
            && after == UpsertAll(view, Samples(lines[..n]), Updated, FRESH)
            && (outcome == Done ==> n == |lines| || lines[n].NotCpu?)
            && (outcome == Overrun ==> n < |lines| && lines[n].LongName?)
            && (outcome == ParseError ==> n < |lines| && lines[n].Short?)
            && (outcome == Trapped ==> n < |lines| && lines[n].Sample?
                                       && Traps(StateOf(after, lines[n].name).last, lines[n].data))
    decreases |lines|
  {
    hide Traps, Upsert, StateOf;
    n := 0;
    if lines != [] && lines[0].Sample? && !Traps(StateOf(view, lines[0].name).last, lines[0].data) {
      var name, data := lines[0].name, lines[0].data;
      n := ReadRefines(Upsert(view, name, data, Updated, FRESH), lines[1..]);
      n := n + 1;
      assert Samples(lines[..n])[1..] == Samples(lines[1..][..n - 1]);
    }
  }

  lemma {:induction false} FoldIsAfter(ds: seq<CPUStatData>)
    requires After(ds).Some?
    ensures Folded(None, ds, Updated, FRESH) == if ds == [] then None else After(ds)
  {
    hide Traps, Updated;
    if ds != [] {
      var n := |ds| - 1;
      FoldIsAfter(ds[..n]);
      FoldedSnoc(None, ds[..n], ds[n], Updated, FRESH);
      assert ds[..n] + [ds[n]] == ds;
    }
  }

  /** After any samples that trap no CPU, each listed CPU is where its own samples lead, and it
      publishes the shares between the last of its own samples that was accepted and the one before
      it, which add up to at most 100 in 32 bits. */
  lemma EachCpuFollowsItsSamples(samples: seq<(string, CPUStatData)>, name: string)
    requires After(DataFor(samples, name)).Some?
    ensures var view := UpsertAll([], samples, Updated, FRESH);
            var own := DataFor(samples, name);
            && Distinct(Keys(view))
            && Get(view, name) == (if own == [] then None else After(own))
            && (own != [] ==> StateOf(view, name).data.all <= 100
                              && ShowsLastAccepted(own, StateOf(view, name).data))
  {
    hide Accepted, SharesOf, Upsert, Updated, LastAccepted, NeighbourShares;
    var own := DataFor(samples, name);
    Refines([], samples, Updated, FRESH, name);
    FoldIsAfter(own);
    var i := Recovery(own);
  }

  // ---- The kernel's side of a line ----

  function Counters(d: CPUStatData): seq<U64> {
    [d.userTime, d.niceTime, d.systemTime, d.idleTime, d.ioWaitTime,
     d.irqTime, d.softIRQTime, d.stealTime, d.guestTime, d.guestNiceTime]
  }

  /** A line as the kernel prints it: "cpu" and what numbers the core, spaces, ten counters. */
  function Print(core: string, spaces: string, d: CPUStatData): string {
    ("cpu" + core) + (spaces + Join(Decimals(Counters(d)), ' '))
  }

  /** The round trip: a printed line gives back the name and all ten counters, unless the name does not
      fit the buffer. */
  lemma CpuRoundTrip(core: string, spaces: string, d: CPUStatData)
    requires Free(core, IsSpace)
    requires spaces != [] && forall c :: c in spaces ==> IsSpace(c)
    ensures Scan(Print(core, spaces, d)) == if |"cpu" + core| < NAME_SIZE then Sample("cpu" + core, d) else LongName
  {
    hide Decimals, Join, ScanNumbers, ScanWord, Contains;
    var numbers := spaces + Join(Decimals(Counters(d)), ' ');
    assert [] + "cpu" + (core + numbers) == Print(core, spaces, d);
    ContainsMiddle([], "cpu", core + numbers);
    ScanWordOf("cpu" + core, numbers);
    ScanNumbersOfDecimals(spaces, Counters(d));
  }

  /** A line that mentions "cpu" and whose first word does not fit the buffer, whatever else it holds. */
  lemma LongWord(word: string, rest: string)
    requires word != [] && Free(word, IsSpace) && |word| >= 64
    requires rest == [] || IsSpace(rest[0])
    requires MentionsCpu(word + rest)
    ensures Scan(word + rest) == LongName
  {
    hide Contains, ScanNumbers, ScanWord;
    ContainsIff(word + rest, "cpu");
    ScanWordOf(word, rest);
  }

  /** A printed line that ends after fewer than ten counters. */
  lemma ShortLine(core: string, spaces: string, ns: seq<U64>)
    requires Free(core, IsSpace) && |"cpu" + core| < 64 && |ns| < 10
    requires spaces != [] && forall c :: c in spaces ==> IsSpace(c)
    ensures Scan(("cpu" + core) + (spaces + Join(Decimals(ns), ' '))) == Short
  {
    hide Decimals, Join, ScanNumbers, ScanWord, Contains;
    var numbers := spaces + Join(Decimals(ns), ' ');
    assert [] + "cpu" + (core + numbers) == ("cpu" + core) + numbers;
    ContainsMiddle([], "cpu", core + numbers);
    ScanWordOf("cpu" + core, numbers);
    ScanFewDecimals(spaces, ns, 10);
  }

  // ---- The whole file ----

  /** "cpu" stands somewhere on the line. */
  ghost predicate MentionsCpu(line: string) { exists before, after :: Around(line, before, "cpu", after) }

  lemma NotCpuIff(line: string)
    ensures Scan(line).NotCpu? <==> !MentionsCpu(line)
  {
    hide Contains, ScanNumbers, ScanWord;
    ContainsIff(line, "cpu");
  }

  /** The law on the text of the file: the samples that reach the list are those of the first `n` lines,
      which all mention "cpu"; and the reading is done if and only if the next line does not, or there is
      none. */
  lemma WhichLines(view: View, lines: seq<string>) returns (n: nat)
    ensures n <= |lines|
    ensures forall i :: 0 <= i < n ==> MentionsCpu(lines[i]) && ScanAll(lines)[i].Sample?
    ensures Read(view, ScanAll(lines)).0 == UpsertAll(view, Samples(ScanAll(lines)[..n]), Updated, FRESH)
    ensures Read(view, ScanAll(lines)).1 == Done <==> n == |lines| || !MentionsCpu(lines[n])
  {
    hide Scan, MentionsCpu, UpsertAll, Read, Samples;
    var all := ScanAll(lines);
    n := ReadRefines(view, all);
    forall i | 0 <= i < |lines|
      ensures all[i].NotCpu? <==> !MentionsCpu(lines[i])
    {
      NotCpuIff(lines[i]);
    }
  }

  datatype Cpu = Cpu(core: string, spaces: string, data: CPUStatData) {
    function Name(): string { "cpu" + core }

    ghost predicate Printable() {
      && Free(core, IsSpace) && |Name()| < NAME_SIZE
      && spaces != [] && forall c :: c in spaces ==> IsSpace(c)
    }
  }

  function Printed(cpus: seq<Cpu>): seq<string> {
    seq(|cpus|, i requires 0 <= i < |cpus| => Print(cpus[i].core, cpus[i].spaces, cpus[i].data))
  }

  /** Each CPU with its sample as the baseline, and nothing published yet. */
  function Listed(cpus: seq<Cpu>): View {
    seq(|cpus|, i requires 0 <= i < |cpus| => (cpus[i].Name(), CpuState(cpus[i].data, Shares(0, 0, 0, 0))))
  }

  /** The round trip of a first file: printed lines for different CPUs, followed by a line that does not
      mention "cpu" or by nothing, give exactly these CPUs, in order, behind those listed before; what
      comes after does not matter. */
  lemma {:induction false} CpuFileRoundTrip(view: View, cpus: seq<Cpu>, rest: seq<string>)
    requires forall i :: 0 <= i < |cpus| ==> cpus[i].Printable() && cpus[i].Name() !in Keys(view)
    requires forall i, j :: 0 <= i < j < |cpus| ==> cpus[i].Name() != cpus[j].Name()
    requires rest == [] || !MentionsCpu(rest[0])
    ensures Read(view, ScanAll(Printed(cpus) + rest)) == (view + Listed(cpus), Done)
    decreases |cpus|
  {
    hide Scan, MentionsCpu, Print, Cpu.Name, Read;
    var lines := Printed(cpus) + rest;
    if cpus == [] {
      assert lines == rest && view + Listed(cpus) == view;
      FileEnds(view, rest);
    } else {
      var c, later := cpus[0], cpus[1..];
      var next := view + [(c.Name(), CpuState(c.data, NO_SHARES))];
      assert lines == [Print(c.core, c.spaces, c.data)] + (Printed(later) + rest);
      FirstSample(view, c, Printed(later) + rest);
      assert Keys(next) == Keys(view) + [c.Name()];
      CpuFileRoundTrip(next, later, rest);
      assert next + Listed(later) == view + Listed(cpus);
    }
  }

  lemma FileEnds(view: View, rest: seq<string>)
    requires rest == [] || !MentionsCpu(rest[0])
    ensures Read(view, ScanAll(rest)) == (view, Done)
  {
    hide Scan, MentionsCpu;
    if rest != [] {
      NotCpuIff(rest[0]);
    }
  }

  lemma FirstSample(view: View, c: Cpu, later: seq<string>)
    requires c.Printable() && c.Name() !in Keys(view)
    ensures var next := view + [(c.Name(), CpuState(c.data, NO_SHARES))];
            Read(view, ScanAll([Print(c.core, c.spaces, c.data)] + later)) == Read(next, ScanAll(later))
  {
    hide Scan, Print, Read, ScanAll, Upsert, Traps, Updated;
    CpuRoundTrip(c.core, c.spaces, c.data);
    NotFound(view, c.Name());
    NewName(view, c.Name(), c.data);
    FirstIsBaseline(c.data);
    ReadOne(view, Print(c.core, c.spaces, c.data), later, c.Name(), c.data);
  }

  lemma NotFound(view: View, name: string)
    requires name !in Keys(view)
    ensures Find(view, name) == |view|
  {
    assert forall j :: 0 <= j < |view| ==> view[j].0 == Keys(view)[j] != name;
  }

  lemma ReadOne(view: View, line: string, later: seq<string>, name: string, data: CPUStatData)
    requires Scan(line) == Sample(name, data) && !Traps(StateOf(view, name).last, data)
    ensures Read(view, ScanAll([line] + later))
         == Read(Upsert(view, name, data, Updated, FRESH), ScanAll(later))
  {
    hide Scan, Traps, Updated, Upsert, StateOf;
    var lines := [line] + later;
    assert lines[0] == line && lines[1..] == later;
    assert ScanAll(lines)[0] == Sample(name, data) && ScanAll(lines)[1..] == ScanAll(later);
  }

  lemma FirstIsBaseline(d: CPUStatData)
    ensures Updated(FRESH, d) == CpuState(d, NO_SHARES)
  {
    NothingToCompare();
  }
}
