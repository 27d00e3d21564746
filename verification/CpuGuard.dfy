/** What the guard of the CPU shares is worth: it lets an update through when a 32-bit sum of three
    shares is at most 100, and any of the three, or the sum, may have wrapped on the way. */
module CpuGuard {
  import opened Words
  import opened CpuShare

  /** The share of a counter in the total of the delta, in whole percent and unlimited numbers. */
  function Floor(diff: CPUStatData, f: DataField): nat
    requires diff.TotalTime() != 0
  {
    Quotient(100 * diff.Field(f), diff.TotalTime())
  }

  function Busy(diff: CPUStatData): nat {
    diff.Field(UserTime) as int + diff.Field(SystemTime) + diff.Field(IOWaitTime)
  }

  /** The three shares are percentages, and the right ones. */
  ghost predicate Truthful(diff: CPUStatData)
    requires diff.TotalTime() != 0
  {
    var r := SharesOf(diff);
    && r.usr == Floor(diff, UserTime) <= 100
    && r.sys == Floor(diff, SystemTime) <= 100
    && r.iow == Floor(diff, IOWaitTime) <= 100
  }

  /** A hundred times each counter fits 64 bits. */
  predicate Scalable(diff: CPUStatData) {
    && 100 * diff.Field(UserTime) < TWO64
    && 100 * diff.Field(SystemTime) < TWO64
    && 100 * diff.Field(IOWaitTime) < TWO64
  }

  /** What a caller can check on the delta: nothing wraps in the multiplication, and the joint share
      stays below 2^32 percent. */
  predicate Representable(diff: CPUStatData) {
    Scalable(diff) && 100 * Busy(diff) < TWO32 * diff.TotalTime()
  }

  // ---- One share ----

  lemma ShareBound(diff: CPUStatData, f: DataField)
    requires diff.TotalTime() != 0
    ensures diff.Percent(f) <= Floor(diff, f)
    ensures diff.Percent(f) == Floor(diff, f) <==> 100 * diff.Field(f) < TWO64
  {
    hide Quotient, CPUStatData.Field, CPUStatData.TotalTime;
    var x := 100 * diff.Field(f);
    if x < TWO64 {
      WrapSmall(x);
    } else {
      OverflowMovesQuotient(x, diff.TotalTime());
    }
  }

  lemma FloorBelow(diff: CPUStatData, f: DataField, bound: nat)
    requires diff.TotalTime() != 0
    ensures Floor(diff, f) < bound <==> 100 * diff.Field(f) < bound * diff.TotalTime()
  {
    hide CPUStatData.Field, CPUStatData.TotalTime;
    QuotientBelow(100 * diff.Field(f), diff.TotalTime(), bound);
  }

  lemma FloorsOfBusy(diff: CPUStatData)
    requires diff.TotalTime() != 0
    ensures var sum := Floor(diff, UserTime) + Floor(diff, SystemTime) + Floor(diff, IOWaitTime);
            var joint := Quotient(100 * Busy(diff), diff.TotalTime());
            joint - 2 <= sum <= joint
  {
    hide Quotient, CPUStatData.TotalTime;
    FloorsOfParts(100 * diff.Field(UserTime), 100 * diff.Field(SystemTime),
                  100 * diff.Field(IOWaitTime), diff.TotalTime());
  }

  // ---- All shares ----

  /** Shares that were let through are right and at most 100 exactly when nothing wrapped that the
      counters can tell: on every delta, whichever counters ran backwards. */
  lemma TruthfulIff(diff: CPUStatData)
    requires diff.TotalTime() != 0 && Accepted(SharesOf(diff))
    ensures Truthful(diff) <==> Representable(diff)
  {
    hide CPUStatData.Percent, CPUStatData.Field, CPUStatData.TotalTime, Quotient, Floor, Busy;
    ShareBound(diff, UserTime);
    ShareBound(diff, SystemTime);
    ShareBound(diff, IOWaitTime);
    FloorsOfBusy(diff);
    QuotientBelow(100 * Busy(diff), diff.TotalTime(), TWO32);
    if Truthful(diff) {
      TruthfulIsRepresentable(diff);
    } else if Scalable(diff) {
      WrapSmall(diff.Percent(UserTime));
      WrapSmall(diff.Percent(SystemTime));
      WrapSmall(diff.Percent(IOWaitTime));
      WrapSmall(diff.Percent(UserTime) as int + diff.Percent(SystemTime) + diff.Percent(IOWaitTime));
    }
  }

  lemma TruthfulIsRepresentable(diff: CPUStatData)
    requires diff.TotalTime() != 0 && Truthful(diff)
    ensures Representable(diff)
  {
    hide CPUStatData.Percent, CPUStatData.Field, CPUStatData.TotalTime, Quotient, Floor;
    ShareBound(diff, UserTime);
    ShareBound(diff, SystemTime);
    ShareBound(diff, IOWaitTime);
    FloorBelow(diff, UserTime, 101);
    FloorBelow(diff, SystemTime, 101);
    FloorBelow(diff, IOWaitTime, 101);
  }

  /** The guard of the code, when each single share fits its 32-bit field: the shares that are let
      through are all at most 100 exactly when the joint share is below 2^32 percent. */
  lemma BoundedIff(diff: CPUStatData)
    requires diff.TotalTime() != 0 && Accepted(SharesOf(diff)) && Scalable(diff)
    requires Floor(diff, UserTime) < TWO32 && Floor(diff, SystemTime) < TWO32
    requires Floor(diff, IOWaitTime) < TWO32
    ensures var r := SharesOf(diff);
            (r.usr <= 100 && r.sys <= 100 && r.iow <= 100) <==> Representable(diff)
  {
    hide CPUStatData.Percent, CPUStatData.Field, CPUStatData.TotalTime, Quotient, Floor;
    ShareBound(diff, UserTime);
    ShareBound(diff, SystemTime);
    ShareBound(diff, IOWaitTime);
    WrapSmall(diff.Percent(UserTime));
    WrapSmall(diff.Percent(SystemTime));
    WrapSmall(diff.Percent(IOWaitTime));
    TruthfulIff(diff);
  }

  /** So, in every run of samples: what is published belongs to the last accepted sample and the one
      before it, and it is right if and only if the delta of these two is representable. */
  lemma PublishedTruthfulIff(samples: seq<CPUStatData>) returns (i: nat)
    requires After(samples).Some?
    ensures LastAccepted(samples, i)
    ensures i == 0 ==> After(samples).value.data == NO_SHARES
    ensures i > 0 ==>
              var diff := samples[i].Diff(samples[i - 1]);
              && diff.TotalTime() != 0
              && After(samples).value.data == SharesOf(diff)
              && (Truthful(diff) <==> Representable(diff))
  {
    hide After, LastAccepted, CPUStatData.TotalTime, CPUStatData.Diff, SharesOf, Truthful, Representable;
    i := Recovery(samples);
    if i > 0 {
      AcceptedIndex(samples, i);
      TruthfulIff(samples[i].Diff(samples[i - 1]));
    }
  }

  lemma AcceptedIndex(samples: seq<CPUStatData>, i: nat)
    requires LastAccepted(samples, i)
    ensures i == 0 || i < |samples|
  {
  }

  // ---- On the counters of two samples ----

  /** The wrapped increase of the total, by which an update divides. */
  function Total(prev: CPUStatData, next: CPUStatData): U64 {
    Sub64(next.TotalTime(), prev.TotalTime())
  }

  /** The counter did not run backwards, a hundred times its increase fits 64 bits, and its share of
      the total is below 2^32 percent. */
  predicate Fits(prev: CPUStatData, next: CPUStatData, f: DataField) {
    && 0 <= 100 * Delta(prev, next, f) < TWO64
    && 100 * Delta(prev, next, f) < TWO32 * Total(prev, next)
  }

  lemma FittingField(prev: CPUStatData, next: CPUStatData, f: DataField)
    requires Fits(prev, next, f)
    ensures next.Diff(prev).Field(f) == Delta(prev, next, f)
  {
    hide CPUStatData.Diff, CPUStatData.Field, Total;
    DiffField(prev, next, f);
  }

  /** When each of the three counters fits: an accepted update publishes three shares of at most 100
      exactly when their joint increase is below 2^32 percent of the total as well, and then they
      are the true floors. The idle counter and the others may do what they like. */
  lemma GuardBoundsSharesIff(s: CpuState, next: CPUStatData)
    requires s.last.TotalTime() != 0
    requires Fits(s.last, next, UserTime) && Fits(s.last, next, SystemTime)
    requires Fits(s.last, next, IOWaitTime)
    ensures next.Diff(s.last).TotalTime() == Total(s.last, next) != 0
    ensures var r, total := Updated(s, next).data, Total(s.last, next);
            Accepted(SharesOf(next.Diff(s.last))) ==>
              && (r.usr <= 100 && r.sys <= 100 && r.iow <= 100
                  <==> 100 * BusyDelta(s.last, next) < TWO32 * total)
              && (100 * BusyDelta(s.last, next) < TWO32 * total ==>
                    && r.usr == Quotient(100 * Delta(s.last, next, UserTime), total)
                    && r.sys == Quotient(100 * Delta(s.last, next, SystemTime), total)
                    && r.iow == Quotient(100 * Delta(s.last, next, IOWaitTime), total))
  {
    hide CPUStatData.Percent, CPUStatData.Field, CPUStatData.TotalTime, CPUStatData.Diff, Quotient;
    hide CPUStatData.Sum, Sub64, Delta, SharesOf, Floor;
    DiffTotal(s.last, next);
    FittingField(s.last, next, UserTime);
    FittingField(s.last, next, SystemTime);
    FittingField(s.last, next, IOWaitTime);
    var diff := next.Diff(s.last);
    if Accepted(SharesOf(diff)) {
      BoundedFields(diff, Delta(s.last, next, UserTime), Delta(s.last, next, SystemTime),
                    Delta(s.last, next, IOWaitTime));
    }
  }

  lemma BoundedFields(diff: CPUStatData, usr: nat, sys: nat, iow: nat)
    requires diff.TotalTime() != 0 && Accepted(SharesOf(diff))
    requires diff.Field(UserTime) == usr && diff.Field(SystemTime) == sys
    requires diff.Field(IOWaitTime) == iow
    requires var total := diff.TotalTime();
             && 100 * usr < TWO64 && 100 * usr < TWO32 * total
             && 100 * sys < TWO64 && 100 * sys < TWO32 * total
             && 100 * iow < TWO64 && 100 * iow < TWO32 * total
    ensures var r, total := SharesOf(diff), diff.TotalTime();
            && (r.usr <= 100 && r.sys <= 100 && r.iow <= 100
                <==> 100 * (usr + sys + iow) < TWO32 * total)
            && (100 * (usr + sys + iow) < TWO32 * total ==>
                  && r.usr == Quotient(100 * usr, total)
                  && r.sys == Quotient(100 * sys, total)
                  && r.iow == Quotient(100 * iow, total))
  {
    hide CPUStatData.Percent, CPUStatData.Field, CPUStatData.TotalTime, Quotient, SharesOf, Accepted;
    FloorBelow(diff, UserTime, TWO32);
    FloorBelow(diff, SystemTime, TWO32);
    FloorBelow(diff, IOWaitTime, TWO32);
    BoundedIff(diff);
    TruthfulIff(diff);
  }

  // ---- Busy counters that run backwards ----

  /** A busy counter that ran backwards, by 99% of its range at the most, spoils its sample: if the
      guard lets it through, some published share is wrong or above 100. */
  lemma BackwardsIsNeverTruthful(prev: CPUStatData, next: CPUStatData, f: DataField)
    requires f == UserTime || f == SystemTime || f == IOWaitTime
    requires next.Field(f) < prev.Field(f) && 100 * -Delta(prev, next, f) <= 99 * TWO64
    requires next.TotalTime() != prev.TotalTime()
    ensures next.Diff(prev).TotalTime() != 0
    ensures Accepted(SharesOf(next.Diff(prev))) ==> !Truthful(next.Diff(prev))
  {
    DiffTotal(prev, next);
    var diff := next.Diff(prev);
    BackwardField(prev, next, f);
    hide SharesOf, CPUStatData.TotalTime, CPUStatData.Diff, CPUStatData.Field, Truthful, Delta, Sub64;
    NoDifference(next.TotalTime(), prev.TotalTime());
    if Accepted(SharesOf(diff)) {
      TruthfulIff(diff);
    }
  }

  lemma BackwardField(prev: CPUStatData, next: CPUStatData, f: DataField)
    requires next.Field(f) < prev.Field(f)
    ensures next.Diff(prev).Field(f) == TWO64 + Delta(prev, next, f)
  {
    hide CPUStatData.Diff, CPUStatData.Field, Total;
    DiffField(prev, next, f);
  }

  // ---- Both happen ----

  /** Two samples from the start: the idle counter runs backwards by 2^30 - 1 while system time grows
      by as much, so the delta total is 1, the sum of the shares wraps to 0, and a system share of
      2^32 - 100 percent is published. */
  lemma SharesAbove100(prev: CPUStatData, next: CPUStatData)
    requires prev == NO_TIMES.(idleTime := 0x4000_0000)
    requires next == CPUStatData(1, 0, 0x3fff_ffff, 1, 0, 0, 0, 0, 0, 0)
    ensures After([prev, next]) == Some(CpuState(next, Shares(100, TWO32 - 100, 0, 0)))
  {
    var diff := CPUStatData(1, 0, 0x3fff_ffff, TWO64 - 0x3fff_ffff, 0, 0, 0, 0, 0, 0);
    hide SharesOf, Quotient, After;
    assert next.Diff(prev) == diff && prev.TotalTime() == 0x4000_0000;
    WrappedShares(diff);
    AfterTwo(prev, next, Shares(100, TWO32 - 100, 0, 0));
  }

  lemma WrappedShares(diff: CPUStatData)
    requires diff == CPUStatData(1, 0, 0x3fff_ffff, TWO64 - 0x3fff_ffff, 0, 0, 0, 0, 0, 0)
    ensures diff.TotalTime() == 1 && SharesOf(diff) == Shares(100, TWO32 - 100, 0, 0)
  {
    hide SharesOf;
    assert diff.TotalTime() == 1;
    hide CPUStatData.TotalTime;
    QuotientUnique(100, 1, 100);
    QuotientUnique(0x3fff_ffff * 100, 1, 0x3fff_ffff * 100);
    QuotientUnique(0, 1, 0);
    SharesFrom(diff, 100, 0x3fff_ffff * 100, 0);
  }

  /** Two samples from the start: the user counter runs backwards by 1 while the idle counter grows
      by 2^32 - 49, and a user share of 50 percent is published. */
  lemma BackwardsLooksBusy(prev: CPUStatData, next: CPUStatData)
    requires prev == NO_TIMES.(userTime := 1)
    requires next == NO_TIMES.(idleTime := TWO32 - 49)
    ensures After([prev, next]) == Some(CpuState(next, Shares(50, 0, 0, 50)))
  {
    var diff := CPUStatData(TWO64 - 1, 0, 0, TWO32 - 49, 0, 0, 0, 0, 0, 0);
    hide SharesOf, Quotient, After;
    assert next.Diff(prev) == diff && prev.TotalTime() == 1;
    FiftyPercent(diff);
    AfterTwo(prev, next, Shares(50, 0, 0, 50));
  }

  lemma FiftyPercent(diff: CPUStatData)
    requires diff == CPUStatData(TWO64 - 1, 0, 0, TWO32 - 49, 0, 0, 0, 0, 0, 0)
    ensures diff.TotalTime() == TWO32 - 50 && SharesOf(diff) == Shares(50, 0, 0, 50)
  {
    hide SharesOf;
    assert diff.TotalTime() == TWO32 - 50;
    hide CPUStatData.TotalTime;
    QuotientUnique(TWO64 - 100, TWO32 - 50, TWO32 + 50);
    QuotientUnique(0, TWO32 - 50, 0);
    SharesFrom(diff, TWO32 + 50, 0, 0);
  }

  lemma SharesFrom(diff: CPUStatData, usr: U64, sys: U64, iow: U64)
    requires diff.TotalTime() != 0
    requires Wrap64(diff.Field(UserTime) as int * 100) / diff.TotalTime() == usr
    requires Wrap64(diff.Field(SystemTime) as int * 100) / diff.TotalTime() == sys
    requires Wrap64(diff.Field(IOWaitTime) as int * 100) / diff.TotalTime() == iow
    ensures var u, y, w := Wrap32(usr), Wrap32(sys), Wrap32(iow);
            SharesOf(diff) == Shares(u, y, w, Wrap32(u as int + y + w))
  {
    hide CPUStatData.Field, CPUStatData.TotalTime, Wrap64, Wrap32;
  }

  lemma AfterTwo(prev: CPUStatData, next: CPUStatData, shares: Shares)
    requires prev.TotalTime() != 0 && next.Diff(prev).TotalTime() != 0
    requires SharesOf(next.Diff(prev)) == shares && Accepted(shares)
    ensures After([prev, next]) == Some(CpuState(next, shares))
  {
    hide CPUStatData.TotalTime, SharesOf, CPUStatData.Diff;
    NothingToCompare();
    assert [prev, next][..1] == [prev] && [prev][..0] == [];
    assert After([prev]) == Some(CpuState(prev, NO_SHARES));
  }
}
