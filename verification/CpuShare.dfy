/** CPU shares from `/proc/stat`: wrapping deltas, floor percentages, and the rule that a sample
    that looks wrong clears the baseline. */
module CpuShare {
  import opened Words

  datatype DataField =
    | UserTime | NiceTime | SystemTime | IdleTime | IOWaitTime
    | IRQTime | SoftIRQTime | StealTime | GuestTime | GuestNiceTime

  datatype CPUStatData = CPUStatData(
    userTime: U64, niceTime: U64, systemTime: U64, idleTime: U64, ioWaitTime: U64,
    irqTime: U64, softIRQTime: U64, stealTime: U64, guestTime: U64, guestNiceTime: U64)
  {
    function Field(f: DataField): U64 {
      match f
      case UserTime => userTime
      case NiceTime => niceTime
      case SystemTime => systemTime
      case IdleTime => idleTime
      case IOWaitTime => ioWaitTime
      case IRQTime => irqTime
      case SoftIRQTime => softIRQTime
      case StealTime => stealTime
      case GuestTime => guestTime
      case GuestNiceTime => guestNiceTime
    }

    /** The sum of the ten counters, before it is cut to 64 bits. */
    function Sum(): nat {
      Field(UserTime) as int + Field(NiceTime) + Field(SystemTime) + Field(IdleTime) + Field(IOWaitTime)
      + Field(IRQTime) + Field(SoftIRQTime) + Field(StealTime) + Field(GuestTime) + Field(GuestNiceTime)
    }

    function TotalTime(): U64 { Wrap64(Sum()) }

    function Diff(prev: CPUStatData): CPUStatData {
      CPUStatData(
        Sub64(userTime, prev.userTime), Sub64(niceTime, prev.niceTime),
        Sub64(systemTime, prev.systemTime), Sub64(idleTime, prev.idleTime),
        Sub64(ioWaitTime, prev.ioWaitTime), Sub64(irqTime, prev.irqTime),
        Sub64(softIRQTime, prev.softIRQTime), Sub64(stealTime, prev.stealTime),
        Sub64(guestTime, prev.guestTime), Sub64(guestNiceTime, prev.guestNiceTime))
    }

    function Percent(f: DataField): U64
      requires TotalTime() != 0
    {
      Quotient(Wrap64(Field(f) as int * 100), TotalTime())
    }
  }

  /** The total is the sum of all ten counters. */
  lemma TotalOfTen(d: CPUStatData)
    ensures d.TotalTime()
         == (d.userTime as int + d.niceTime + d.systemTime + d.idleTime + d.ioWaitTime
             + d.irqTime + d.softIRQTime + d.stealTime + d.guestTime + d.guestNiceTime) % TWO64
  {
  }

  const NO_TIMES := CPUStatData(0, 0, 0, 0, 0, 0, 0, 0, 0, 0)

  /** The published message. */
  datatype Shares = Shares(usr: U32, sys: U32, iow: U32, all: U32)

  const NO_SHARES := Shares(0, 0, 0, 0)

  function SharesOf(diff: CPUStatData): Shares
    requires diff.TotalTime() != 0
  {
    var usr := Wrap32(diff.Percent(UserTime));
    var sys := Wrap32(diff.Percent(SystemTime));
    var iow := Wrap32(diff.Percent(IOWaitTime));
    Shares(usr, sys, iow, Wrap32(usr as int + sys + iow))
  }

  /** The guard: the 32-bit sum of the three shares is at most 100. */
  predicate Accepted(shares: Shares) { shares.all <= 100 }

  datatype CpuState = CpuState(last: CPUStatData, data: Shares)

  const FRESH := CpuState(NO_TIMES, NO_SHARES)

  /** The update divides by the wrapped total of the delta, which stops the process when it is 0. */
  predicate Traps(last: CPUStatData, data: CPUStatData) {
    last.TotalTime() != 0 && data.Diff(last).TotalTime() == 0
  }

  /** A trap changes nothing, because nothing has been assigned by then. */
  function Updated(s: CpuState, data: CPUStatData): CpuState {
    if s.last.TotalTime() == 0 then s.(last := data)
    else if Traps(s.last, data) then s
    else
      var shares := SharesOf(data.Diff(s.last));
      if Accepted(shares) then CpuState(data, shares) else s.(last := NO_TIMES)
  }

  class CPUStat {
    const name: string
    var last: CPUStatData
    var data: Shares

    constructor (name: string)
      ensures this.name == name && State() == FRESH
    {
      this.name := name;
      last, data := NO_TIMES, NO_SHARES;
    }

    function State(): CpuState
      reads this
    {
      CpuState(last, data)
    }

    /** `trapped` reports the division by zero. */
    method UpdateStats(sample: CPUStatData) returns (trapped: bool)
      modifies this
      ensures trapped <==> Traps(old(last), sample)
      ensures State() == Updated(old(State()), sample)
    {
      hide CPUStatData.Percent, CPUStatData.Sum, CPUStatData.Diff, Wrap32;
      trapped := false;
      if last.TotalTime() == 0 {
        last := sample;
      } else {
        var diffData := sample.Diff(last);
        if diffData.TotalTime() == 0 {
          return true;
        }
        var usr := Wrap32(diffData.Percent(UserTime));
        var sys := Wrap32(diffData.Percent(SystemTime));
        var iow := Wrap32(diffData.Percent(IOWaitTime));
        var all := Wrap32(usr as int + sys + iow);
        if all <= 100 {
          last := sample;
          data := Shares(usr, sys, iow, all);
        } else {
          last := NO_TIMES;
        }
      }
    }
  }

  // ---- Exactness on counters that only grow ----

  ghost predicate Grows(prev: CPUStatData, next: CPUStatData) {
    forall f: DataField :: prev.Field(f) <= next.Field(f)
  }

  /** The increase of one counter, as a mathematical integer. */
  function Delta(prev: CPUStatData, next: CPUStatData, f: DataField): int {
    next.Field(f) as int - prev.Field(f) as int
  }

  /** The true share of a counter in the total increase, rounded down. */
  function TrueShare(prev: CPUStatData, next: CPUStatData, f: DataField): nat
    requires prev.Field(f) <= next.Field(f) && prev.Sum() < next.Sum()
  {
    Quotient(100 * Delta(prev, next, f), next.Sum() - prev.Sum())
  }

  /** The true joint share of user, system and iowait time, rounded down. */
  function TrueBusyShare(prev: CPUStatData, next: CPUStatData): nat
    requires prev.Sum() < next.Sum() && 0 <= BusyDelta(prev, next)
  {
    Quotient(100 * BusyDelta(prev, next), next.Sum() - prev.Sum())
  }

  function BusyDelta(prev: CPUStatData, next: CPUStatData): int {
    Delta(prev, next, UserTime) + Delta(prev, next, SystemTime) + Delta(prev, next, IOWaitTime)
  }

  /** The counters grew, not all of them by nothing, and by less than 2^64/100 in total. */
  ghost predicate Plausible(prev: CPUStatData, next: CPUStatData) {
    && Grows(prev, next)
    && 0 < next.Sum() - prev.Sum()
    && 100 * (next.Sum() - prev.Sum()) < TWO64
  }

  /** What a counter borrows from above when it is subtracted. */
  function Borrow(a: U64, b: U64): int { if a < b then 1 else 0 }

  lemma SubBorrow(a: U64, b: U64)
    ensures Sub64(a, b) == a as int - b + Borrow(a, b) * TWO64
  {
  }

  function Borrows(prev: CPUStatData, next: CPUStatData, f: DataField): int {
    Borrow(next.Field(f), prev.Field(f))
  }

  lemma DiffField(prev: CPUStatData, next: CPUStatData, f: DataField)
    ensures next.Diff(prev).Field(f) == Delta(prev, next, f) + Borrows(prev, next, f) * TWO64
  {
    hide Sub64, Borrow;
    SubBorrow(next.Field(f), prev.Field(f));
  }

  lemma DiffFields(prev: CPUStatData, next: CPUStatData)
    requires Grows(prev, next)
    ensures forall f: DataField :: next.Diff(prev).Field(f) == Delta(prev, next, f)
  {
    hide CPUStatData.Diff, CPUStatData.Field;
    forall f: DataField
      ensures next.Diff(prev).Field(f) == Delta(prev, next, f)
    {
      DiffField(prev, next, f);
      assert prev.Field(f) <= next.Field(f);
    }
  }

  lemma DiffOfGrowth(prev: CPUStatData, next: CPUStatData)
    requires Grows(prev, next)
    ensures forall f: DataField :: next.Diff(prev).Field(f) == Delta(prev, next, f)
    ensures next.Diff(prev).Sum() == next.Sum() - prev.Sum()
    ensures forall f: DataField :: Delta(prev, next, f) <= next.Sum() - prev.Sum()
  {
    hide CPUStatData.Diff;
    DiffFields(prev, next);
    forall f: DataField
      ensures Delta(prev, next, f) <= next.Sum() - prev.Sum()
    {
      assert forall g: DataField :: 0 <= Delta(prev, next, g);
    }
  }

  lemma ShareOfPart(part: nat, total: Pos)
    requires part <= total
    ensures Quotient(100 * part, total) <= 100
  {
    QuotientBounds(100 * part, total);
    if 100 * part / total > 100 {
      MulMono(101, 100 * part / total, total);
    }
  }

  /** Rounding three parts down loses at most 2 against rounding their sum down. */
  lemma FloorsOfParts(a: nat, b: nat, c: nat, total: Pos)
    ensures var sum := Quotient(a, total) + Quotient(b, total) + Quotient(c, total);
            Quotient(a + b + c, total) - 2 <= sum <= Quotient(a + b + c, total)
  {
    QuotientBounds(a, total);
    QuotientBounds(b, total);
    QuotientBounds(c, total);
    SumOfBounds(a, b, c, a / total, b / total, c / total, total);
    QuotientBetween(a + b + c, total, a / total + b / total + c / total,
                    a / total + b / total + c / total + 3);
  }

  lemma SumOfBounds(a: nat, b: nat, c: nat, x: int, y: int, z: int, total: nat)
    requires x * total <= a < (x + 1) * total
    requires y * total <= b < (y + 1) * total
    requires z * total <= c < (z + 1) * total
    ensures (x + y + z) * total <= a + b + c < (x + y + z + 3) * total
  {
    assert (x + y + z) * total == x * total + y * total + z * total;
    assert (x + y + z + 3) * total == (x + 1) * total + (y + 1) * total + (z + 1) * total;
  }

  /** On plausible samples no wrap-around happens anywhere in a percentage. */
  lemma PercentExact(prev: CPUStatData, next: CPUStatData, f: DataField)
    requires Plausible(prev, next)
    ensures next.Diff(prev).TotalTime() == next.Sum() - prev.Sum()
    ensures prev.Field(f) <= next.Field(f)
    ensures next.Diff(prev).Percent(f) == TrueShare(prev, next, f) <= 100
  {
    hide CPUStatData.Sum, CPUStatData.Diff, CPUStatData.Field, Quotient, Wrap64;
    DiffOfGrowth(prev, next);
    assert prev.Field(f) <= next.Field(f);
    var diff := next.Diff(prev);
    WrapSmall(diff.Sum());
    WrapSmall(diff.Field(f) as int * 100);
    ShareOfPart(Delta(prev, next, f), next.Sum() - prev.Sum());
  }

  lemma JointShare(prev: CPUStatData, next: CPUStatData)
    requires Plausible(prev, next)
    ensures 0 <= BusyDelta(prev, next)
    ensures forall f: DataField :: prev.Field(f) <= next.Field(f)
    ensures var sum := TrueShare(prev, next, UserTime) + TrueShare(prev, next, SystemTime)
                       + TrueShare(prev, next, IOWaitTime);
            TrueBusyShare(prev, next) - 2 <= sum <= TrueBusyShare(prev, next) <= 100
  {
    hide Quotient;
    var total := next.Sum() - prev.Sum();
    var usr, sys := Delta(prev, next, UserTime), Delta(prev, next, SystemTime);
    var iow := Delta(prev, next, IOWaitTime);
    assert 0 <= usr && 0 <= sys && 0 <= iow && usr + sys + iow <= total;
    FloorsOfParts(100 * usr, 100 * sys, 100 * iow, total);
    ShareOfPart(usr + sys + iow, total);
  }

  /** On plausible samples the guard accepts, the baseline moves on, each published share is the
      true share rounded down, and `all` is the true joint share rounded down, or up to 2 less. */
  lemma Exact(s: CpuState, next: CPUStatData)
    requires s.last.TotalTime() != 0 && Plausible(s.last, next)
    ensures !Traps(s.last, next)
    ensures 0 <= BusyDelta(s.last, next)
    ensures forall f: DataField :: s.last.Field(f) <= next.Field(f)
    ensures var r := Updated(s, next);
            && r.last == next
            && r.data.usr == TrueShare(s.last, next, UserTime) <= 100
            && r.data.sys == TrueShare(s.last, next, SystemTime) <= 100
            && r.data.iow == TrueShare(s.last, next, IOWaitTime) <= 100
            && r.data.all == r.data.usr as int + r.data.sys + r.data.iow
            && TrueBusyShare(s.last, next) - 2 <= r.data.all <= TrueBusyShare(s.last, next) <= 100
  {
    hide CPUStatData.Percent, CPUStatData.Sum, CPUStatData.TotalTime, CPUStatData.Diff;
    hide TrueShare, TrueBusyShare, BusyDelta, Wrap32;
    PercentExact(s.last, next, UserTime);
    PercentExact(s.last, next, SystemTime);
    PercentExact(s.last, next, IOWaitTime);
    JointShare(s.last, next);
    var diff := next.Diff(s.last);
    WrapSmall(diff.Percent(UserTime));
    WrapSmall(diff.Percent(SystemTime));
    WrapSmall(diff.Percent(IOWaitTime));
    WrapSmall(diff.Percent(UserTime) as int + diff.Percent(SystemTime) + diff.Percent(IOWaitTime));
  }

  // ---- When the update divides by zero ----

  /** However the counters wrapped, the total of the delta is the wrapped difference of the totals. */
  lemma DiffTotal(prev: CPUStatData, next: CPUStatData)
    ensures next.Diff(prev).TotalTime() == Sub64(next.Sum(), prev.Sum())
    ensures next.Diff(prev).TotalTime() == Sub64(next.TotalTime(), prev.TotalTime())
  {
    hide Borrows, CPUStatData.Field, CPUStatData.Diff, Wrap64;
    var diff := next.Diff(prev);
    forall f: DataField
      ensures diff.Field(f) == Delta(prev, next, f) + Borrows(prev, next, f) * TWO64
    {
      DiffField(prev, next, f);
    }
    var k := Borrows(prev, next, UserTime) + Borrows(prev, next, NiceTime)
             + Borrows(prev, next, SystemTime) + Borrows(prev, next, IdleTime)
             + Borrows(prev, next, IOWaitTime) + Borrows(prev, next, IRQTime)
             + Borrows(prev, next, SoftIRQTime) + Borrows(prev, next, StealTime)
             + Borrows(prev, next, GuestTime) + Borrows(prev, next, GuestNiceTime);
    assert diff.Sum() == k * TWO64 + (next.Sum() - prev.Sum());
    WrapShifted(next.Sum() - prev.Sum(), k);
    WrapOfWraps(next.Sum(), prev.Sum());
  }

  lemma WrapShifted(n: int, k: int)
    ensures Wrap64(k * TWO64 + n) == Wrap64(n)
  {
    ModuloShift(n, k, TWO64);
  }

  lemma WrapOfWraps(a: int, b: int)
    ensures Sub64(Wrap64(a), Wrap64(b)) == Sub64(a, b)
  {
    WrapShifted(Wrap64(a) as int - Wrap64(b), a / TWO64 - b / TWO64);
  }

  /** The division by zero, in terms of the two totals: it happens exactly when the new total is the
      one of the baseline again. */
  lemma TrapsIff(last: CPUStatData, d: CPUStatData)
    ensures Traps(last, d) <==> last.TotalTime() != 0 && d.TotalTime() == last.TotalTime()
  {
    hide CPUStatData.TotalTime, CPUStatData.Diff, CPUStatData.Sum, Sub64;
    DiffTotal(last, d);
    NoDifference(d.TotalTime(), last.TotalTime());
  }

  lemma NoDifference(a: U64, b: U64)
    ensures Sub64(a, b) == 0 <==> a == b
  {
  }

  // ---- Whole runs, with samples of any kind ----

  /** The state after a run of samples, or `None` when one of them trapped. */
  function After(samples: seq<CPUStatData>): Option<CpuState> {
    if samples == [] then Some(FRESH)
    else
      var n := |samples| - 1;
      match After(samples[..n])
      case None => None
      case Some(s) => if Traps(s.last, samples[n]) then None else Some(Updated(s, samples[n]))
  }

  /** What becomes of a sample, told from the samples alone: it is taken as a baseline without a
      comparison, or compared with the one before and accepted or rejected, or the comparison divides by
      zero. */
  datatype Fate = Baseline | Compared | Rejected | Fatal

  /** A sample is compared unless it is the first one, or the one before it was rejected or empty. */
  function FateOf(samples: seq<CPUStatData>, i: nat): Fate
    requires i < |samples|
  {
    if i == 0 || FateOf(samples, i - 1).Rejected? || samples[i - 1].TotalTime() == 0 then Baseline
    else if samples[i].TotalTime() == samples[i - 1].TotalTime() then Fatal
    else if Accepted(NeighbourShares(samples, i)) then Compared
    else Rejected
  }

  /** The guard accepted the sample at `i` of the run. */
  predicate AcceptedAt(samples: seq<CPUStatData>, i: nat) {
    i < |samples| && FateOf(samples, i).Compared?
  }

  /** No comparison of the run divides by zero. */
  ghost predicate NoneFatal(samples: seq<CPUStatData>) {
    forall i :: 0 <= i < |samples| ==> !FateOf(samples, i).Fatal?
  }

  /** The shares between the sample at `i` and the one just before it. */
  function NeighbourShares(samples: seq<CPUStatData>, i: nat): Shares
    requires i < |samples|
  {
    if i == 0 || samples[i].Diff(samples[i - 1]).TotalTime() == 0 then NO_SHARES
    else SharesOf(samples[i].Diff(samples[i - 1]))
  }

  /** The sample at `i` is the last one that was accepted; 0 stands for none. */
  ghost predicate LastAccepted(samples: seq<CPUStatData>, i: nat) {
    (i == 0 || AcceptedAt(samples, i)) && forall j :: i < j < |samples| ==> !AcceptedAt(samples, j)
  }

  /** What is published are the shares between the last accepted sample and its predecessor. */
  ghost predicate ShowsLastAccepted(samples: seq<CPUStatData>, shares: Shares) {
    exists i: nat :: LastAccepted(samples, i)
                     && shares == if i == 0 then NO_SHARES else NeighbourShares(samples, i)
  }

  /** In every run, with counters that may jump backwards: the program is still going if and only if no
      comparison divided by zero; the baseline is empty after a rejected sample and the sample just seen
      otherwise, so nothing older is ever compared with; and what is published belongs to the last
      accepted sample, however long ago that was: samples after it changed nothing. */
  lemma {:induction false} Recovery(samples: seq<CPUStatData>) returns (i: nat)
    ensures After(samples).Some? <==> NoneFatal(samples)
    ensures After(samples).Some? ==>
              var s, n := After(samples).value, |samples| - 1;
              && s.last == (if n < 0 || FateOf(samples, n).Rejected? then NO_TIMES else samples[n])
              && s.data.all <= 100
              && LastAccepted(samples, i)
              && (if i == 0 then s.data == Shares(0, 0, 0, 0)
                  else samples[i].Diff(samples[i - 1]).TotalTime() != 0
                       && s.data == NeighbourShares(samples, i))
  {
    hide SharesOf, CPUStatData.TotalTime, CPUStatData.Diff, Updated, Traps, LastAccepted, NoneFatal;
    i := 0;
    if samples == [] {
      NothingYet();
    } else {
      var n := |samples| - 1;
      i := Recovery(samples[..n]);
      OneMore(samples, i);
      if n > 0 {
        SameFate(samples, n, n - 1);
      }
      if After(samples[..n]).Some? {
        FateStep(samples, After(samples[..n]).value);
        if AcceptedAt(samples, n) {
          i := n;
        }
      }
    }
  }

  lemma NothingYet()
    ensures NoneFatal([]) && LastAccepted([], 0)
  {
  }

  /** One more sample, and what it does to the last accepted one. */
  lemma OneMore(samples: seq<CPUStatData>, i: nat)
    requires samples != []
    ensures var n := |samples| - 1;
            && (NoneFatal(samples) <==> NoneFatal(samples[..n]) && !FateOf(samples, n).Fatal?)
            && (LastAccepted(samples[..n], i) ==>
                  && LastAccepted(samples, if AcceptedAt(samples, n) then n else i)
                  && (i > 0 ==> i < n && NeighbourShares(samples[..n], i) == NeighbourShares(samples, i)))
  {
    hide FateOf, SharesOf, CPUStatData.TotalTime, CPUStatData.Diff;
    var n := |samples| - 1;
    SameBefore(samples, n);
    assert forall k :: 0 <= k < n ==> AcceptedAt(samples[..n], k) == AcceptedAt(samples, k);
    if !NoneFatal(samples[..n]) {
      var k :| 0 <= k < n && FateOf(samples[..n], k).Fatal?;
      assert FateOf(samples, k).Fatal?;
    }
  }

  /** The last sample of a run, on a state with the baseline that the ones before it leave. */
  lemma FateStep(samples: seq<CPUStatData>, s: CpuState)
    requires samples != []
    requires var n := |samples| - 1;
             s.last == if n == 0 || FateOf(samples, n - 1).Rejected? then NO_TIMES else samples[n - 1]
    ensures var n := |samples| - 1;
            match FateOf(samples, n)
            case Fatal => Traps(s.last, samples[n])
            case Baseline => !Traps(s.last, samples[n]) && Updated(s, samples[n]) == s.(last := samples[n])
            case Rejected => !Traps(s.last, samples[n]) && Updated(s, samples[n]) == s.(last := NO_TIMES)
            case Compared =>
              && !Traps(s.last, samples[n])
              && n > 0 && samples[n].Diff(samples[n - 1]).TotalTime() != 0
              && Updated(s, samples[n]) == CpuState(samples[n], NeighbourShares(samples, n))
              && NeighbourShares(samples, n).all <= 100
  {
    hide SharesOf, CPUStatData.TotalTime, CPUStatData.Diff;
    NothingToCompare();
    TrapsIff(s.last, samples[|samples| - 1]);
  }

  /** What becomes of a sample does not depend on what comes later. */
  lemma {:induction false} SameFate(samples: seq<CPUStatData>, n: nat, i: nat)
    requires i < n <= |samples|
    ensures FateOf(samples[..n], i) == FateOf(samples, i)
    decreases i
  {
    hide SharesOf, CPUStatData.TotalTime, CPUStatData.Diff;
    if i > 0 {
      SameFate(samples, n, i - 1);
    }
  }

  lemma SameBefore(samples: seq<CPUStatData>, n: nat)
    requires n <= |samples|
    ensures forall i :: 0 <= i < n ==> FateOf(samples[..n], i) == FateOf(samples, i)
  {
    forall i | 0 <= i < n
      ensures FateOf(samples[..n], i) == FateOf(samples, i)
    {
      SameFate(samples, n, i);
    }
  }

  /** The sample after a rejected one is compared with nothing: it becomes the baseline, and what is
      published stays as it was before the rejected one. */
  lemma RejectionClears(samples: seq<CPUStatData>, n: nat)
    requires n + 1 < |samples| && FateOf(samples, n).Rejected?
    ensures !AcceptedAt(samples, n + 1) && !FateOf(samples, n + 1).Fatal?
    ensures After(samples[..n]).Some? ==>
              var data := After(samples[..n]).value.data;
              && After(samples[..n + 1]) == Some(CpuState(NO_TIMES, data))
              && After(samples[..n + 2]) == Some(CpuState(samples[n + 1], data))
  {
    hide SharesOf, CPUStatData.TotalTime, CPUStatData.Diff, FateOf, Updated, Traps;
    var a, b := samples[..n + 1], samples[..n + 2];
    assert a[..n] == samples[..n] && b[..n + 1] == a;
    SameFate(samples, n + 1, n);
    SameFate(samples, n + 2, n);
    SameFate(samples, n + 2, n + 1);
    AfterRejected(samples, n);
    if After(samples[..n]).Some? {
      var i := Recovery(samples[..n]);
      if n > 0 {
        SameFate(samples, n, n - 1);
        SameFate(samples, n + 1, n - 1);
      }
      FateStep(a, After(samples[..n]).value);
      FateStep(b, After(a).value);
    }
  }

  lemma AfterRejected(samples: seq<CPUStatData>, n: nat)
    requires n + 1 < |samples| && FateOf(samples, n).Rejected?
    ensures FateOf(samples, n + 1).Baseline?
  {
  }

  /** The baseline is empty exactly at the start, after a rejected sample, and after an empty one. */
  lemma BaselineEmptyIff(samples: seq<CPUStatData>)
    requires After(samples).Some?
    ensures var n := |samples| - 1;
            After(samples).value.last.TotalTime() == 0
            <==> n < 0 || FateOf(samples, n).Rejected? || samples[n].TotalTime() == 0
  {
    hide CPUStatData.TotalTime, FateOf, After;
    NothingToCompare();
    var i := Recovery(samples);
  }

  lemma NothingToCompare()
    ensures NO_TIMES.TotalTime() == 0
  {
  }

  /** So two samples with the same total in a row, such as two equal ones, stop the process. */
  lemma RepeatedTotalTraps(a: CPUStatData, b: CPUStatData)
    ensures After([a, b]) == None <==> a.TotalTime() != 0 && b.TotalTime() == a.TotalTime()
  {
    hide CPUStatData.TotalTime, SharesOf, CPUStatData.Diff;
    TrapsIff(a, b);
    NothingToCompare();
    assert [a, b][..1] == [a] && [a][..0] == [];
    assert After([a]) == Some(CpuState(a, NO_SHARES));
  }

  /** From any state whatever, the third of three plausible samples is published exactly, unless the
      first one traps. */
  lemma ExactAgainAfterThree(s: CpuState, a: CPUStatData, b: CPUStatData, c: CPUStatData)
    requires a.TotalTime() != 0 && b.TotalTime() != 0
    requires Plausible(a, b) && Plausible(b, c)
    ensures forall f: DataField :: b.Field(f) <= c.Field(f)
    ensures 0 <= BusyDelta(b, c)
    ensures var r := Updated(Updated(Updated(s, a), b), c);
            !Traps(s.last, a) ==>
              && r.last == c
              && r.data.usr == TrueShare(b, c, UserTime) <= 100
              && r.data.sys == TrueShare(b, c, SystemTime) <= 100
              && r.data.iow == TrueShare(b, c, IOWaitTime) <= 100
              && r.data.all == r.data.usr as int + r.data.sys + r.data.iow
              && TrueBusyShare(b, c) - 2 <= r.data.all <= TrueBusyShare(b, c) <= 100
  {
    hide *;
    JointShare(b, c);
    BaselineOf(s, a);
    if !Traps(s.last, a) {
      Rebaseline(Updated(s, a), a, b);
      Exact(Updated(Updated(s, a), b), c);
    }
  }

  lemma BaselineOf(s: CpuState, a: CPUStatData)
    ensures Traps(s.last, a) || Updated(s, a).last == NO_TIMES || Updated(s, a).last == a
  {
    hide SharesOf, CPUStatData.TotalTime, CPUStatData.Diff;
  }

  lemma Rebaseline(s: CpuState, a: CPUStatData, b: CPUStatData)
    requires s.last == NO_TIMES || s.last == a
    requires a.TotalTime() != 0 && Plausible(a, b)
    ensures !Traps(s.last, b) && Updated(s, b).last == b
  {
    hide SharesOf, CPUStatData.TotalTime, CPUStatData.Diff, CPUStatData.Sum, TrueShare, TrueBusyShare;
    hide Plausible, BusyDelta;
    NothingToCompare();
    if s.last == a && s.last != NO_TIMES {
      Exact(s, b);
    }
  }
}
