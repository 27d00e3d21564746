/** One monitored process: what construction and a periodic reading do to its data. */
module ProcEntries {
  import opened Words
  import opened Text
  import opened StatLine
  import opened Smaps

  const MICROSECONDS: nat := 1000000

  /** The published message of one process. */
  datatype Info = Info(pid: U32, ppid: U32, comm: string, ctxId: U64, ctxName: string,
                       cpuTime: U64, cpuPercent: U32, memRss: U64, memPss: U64, fdCount: nat)

  /** The last accounting record of a process, and whether an answer is awaited. The record is kept as
      it was received. */
  datatype Acct = Acct(record: seq<nat>, pending: bool)

  const NO_ACCT := Acct([], false)

  /** The value of an entry. `timed` says that a previous reading left its time. */
  datatype Proc = Proc(pid: int, info: Info, timed: bool, acct: Acct)

  /** Descriptors are counted when the option is on, and then the directory can fail. */
  datatype Fds = Uncounted | Descriptors(count: nat) | Failed

  /** What the system answers to one periodic update: the texts of two files, `None` for one that
      cannot be opened, and the descriptor count. `elapsed` is the time in microseconds since the
      previous reading. */
  datatype Reading = Reading(stat: Option<string>, elapsed: nat, smaps: Option<seq<string>>, fds: Fds)

  /** The readings an entry gets when its files are gone. */
  const GONE := Reading(None, 1, None, Failed)

  function Percentage(oldTicks: U64, newTicks: U64, elapsed: Pos): U32 {
    Wrap32(Quotient(Wrap64(Sub64(newTicks, oldTicks) * MICROSECONDS), elapsed))
  }

  /** A reading after the first one divides by the elapsed time, which stops the program when it is 0. */
  predicate DividesByZero(p: Proc, r: Reading) {
    ReadTicks(r.stat).Ticks? && p.timed && r.elapsed == 0
  }

  /** Where the program stops, the percentage has no meaning. */
  function ReadStat(p: Proc, ticks: U64, elapsed: nat): Proc {
    var percent := if p.timed && elapsed > 0 then Percentage(p.info.cpuTime, ticks, elapsed) else 0;
    p.(info := p.info.(cpuTime := ticks, cpuPercent := percent), timed := true)
  }

  function ReadMem(p: Proc, mem: MemRead): Proc {
    var rss := if mem.rss.Some? then mem.rss.value else p.info.memRss;
    var pss := if mem.pss.Some? then mem.pss.value else p.info.memPss;
    p.(info := p.info.(memRss := rss, memPss := pss))
  }

  function CountFds(p: Proc, fds: Fds): Proc {
    if fds.Descriptors? then p.(info := p.info.(fdCount := fds.count)) else p
  }

  /** Each part is read only if the ones before it succeeded. */
  function Update(p: Proc, r: Reading): Proc {
    match ReadTicks(r.stat)
    case Ticks(ticks) =>
      var q := ReadMem(ReadStat(p, ticks, r.elapsed), ReadRollup(r.smaps));
      if ReadRollup(r.smaps).ok then CountFds(q, r.fds) else q
    case _ => p
  }

  predicate Succeeds(r: Reading) {
    ReadTicks(r.stat).Ticks? && ReadRollup(r.smaps).ok && !r.fds.Failed?
  }

  function AskedAcct(p: Proc): Proc { p.(acct := p.acct.(pending := true)) }

  /** The value a new entry has, when the stat file yields one. */
  function NewProc(pid: int, name: string, init: StatInit, ctxId: U64, ctxName: string): Proc {
    Proc(pid, Info(init.pid, init.ppid, name, ctxId, ctxName, init.ticks, 0, 0, 0, 0), false, NO_ACCT)
  }

  class ProcEntry {
    const pid: int
    var info: Info
    var timed: bool
    var updatePending: bool
    var acct: Acct

    constructor (pid: int, name: string, init: StatInit, ctxId: U64, ctxName: string)
      ensures Value() == NewProc(pid, name, init, ctxId, ctxName) && !updatePending
    {
      this.pid := pid;
      info := Info(init.pid, init.ppid, name, ctxId, ctxName, init.ticks, 0, 0, 0, 0);
      timed, updatePending, acct := false, false, NO_ACCT;
    }

    function Value(): Proc
      reads this
    {
      Proc(pid, info, timed, acct)
    }

    method SetName(name: string)
      modifies this
      ensures updatePending == old(updatePending)
      ensures Value() == old(Value()).(info := old(info).(comm := name))
    {
      info := info.(comm := name);
    }

    /** `trapped` reports the division by zero. */
    method ReadProcStat(ticks: U64, elapsed: nat) returns (trapped: bool)
      modifies this`info, this`timed
      ensures trapped <==> old(timed) && elapsed == 0
      ensures !trapped ==> Value() == ReadStat(old(Value()), ticks, elapsed)
    {
      var oldCPUTime := info.cpuTime;
      info := info.(cpuTime := ticks);
      trapped := false;
      if !timed {
        timed := true;
        info := info.(cpuPercent := 0);
      } else {
        var worked: int := Sub64(ticks, oldCPUTime);
        if elapsed == 0 {
          return true;
        }
        info := info.(cpuPercent := Wrap32(Quotient(Wrap64(worked * MICROSECONDS), elapsed)));
      }
    }

    /** The loop over the lines. A value that is no number raises an exception, which the caller treats
        like a failure. */
    method ReadProcSmapsRollup(file: Option<seq<string>>) returns (status: bool)
      modifies this`info
      ensures Value() == ReadMem(old(Value()), ReadRollup(file)) && status == ReadRollup(file).ok
    {
      if file.None? {
        return false;
      }
      hide IsRss, IsPss;
      var lines := file.value;
      var complete := 2;
      ghost var read := NOTHING_READ;
      for i := 0 to |lines|
        invariant complete > 0 && read.ok && Value() == ReadMem(old(Value()), read)
        invariant Rollup(lines, NOTHING_READ, 2) == Rollup(lines[i..], read, complete)
      {
        assert lines[i..][1..] == lines[i + 1..];
        var line := lines[i];
        if IsRss(line) || IsPss(line) {
          var tokens := StreamTokens(line);
          if |tokens| < 3 || Stoul(tokens[1]).None? {
            return false;
          }
          if IsRss(line) {
            info := info.(memRss := Stoul(tokens[1]).value);
          } else {
            info := info.(memPss := Stoul(tokens[1]).value);
          }
          read := LineRead(read, line);
          complete := complete - 1;
          if complete == 0 {
            return true;
          }
        }
      }
      return true;
    }

    /** The caller removes the entry from the registry when the status is false. */
    method UpdateProcInfo(r: Reading) returns (status: bool, trapped: bool)
      modifies this
      ensures old(updatePending) ==> status && !trapped && unchanged(this)
      ensures !old(updatePending) ==> (trapped <==> DividesByZero(old(Value()), r))
      ensures !old(updatePending) && !trapped ==>
                && status == Succeeds(r) && !updatePending
                && Value() == Update(old(Value()), r)
    {
      hide ReadMem, ReadStat, ReadRollup;
      if updatePending {
        return true, false;
      }
      updatePending := true;
      trapped := false;
      var ticks := ReadProcStatTokens(r.stat);
      status := ticks.Ticks?;
      if status {
        trapped := ReadProcStat(ticks.value, r.elapsed);
        if trapped {
          return;
        }
        status := ReadProcSmapsRollup(r.smaps);
        if status && !r.fds.Uncounted? {
          status := r.fds.Descriptors?;
          if status {
            info := info.(fdCount := r.fds.count);
          }
        }
      }
      updatePending := false;
    }

    /** Nothing is asked while no collector wants accounting data or an answer is awaited. The caller
        removes the entry from the registry when the status is false. */
    method UpdateProcAcct(wanted: bool, accepted: bool) returns (status: bool)
      modifies this`acct
      ensures Value() == if wanted then AskedAcct(old(Value())) else old(Value())
      ensures status == (wanted && !old(acct).pending ==> accepted)
    {
      if !wanted || acct.pending {
        return true;
      }
      acct := acct.(pending := true);
      return accepted;
    }

    /** An answer replaces the record and allows the next request. */
    method SetAcct(record: seq<nat>)
      modifies this`acct
      ensures Value() == old(Value()).(acct := Acct(record, false))
    {
      acct := Acct(record, false);
    }
  }

  // ---- CPU time is recovered from the published percentages ----

  /** The ticks grew, and neither the scaled increase nor the quotient outgrows its type. */
  predicate Fits(oldTicks: U64, newTicks: U64, elapsed: Pos) {
    && oldTicks <= newTicks
    && (newTicks - oldTicks) * MICROSECONDS < TWO64
    && Quotient((newTicks - oldTicks) * MICROSECONDS, elapsed) < TWO32
  }

  /** One published percentage brackets the true increase exactly when the arithmetic fits. */
  lemma PercentageExactIffFits(oldTicks: U64, newTicks: U64, elapsed: Pos)
    requires elapsed < TWO64
    ensures var percent := Percentage(oldTicks, newTicks, elapsed);
            (percent as int * elapsed <= MICROSECONDS * (newTicks as int - oldTicks)
                                      < (percent as int + 1) * elapsed)
            <==> Fits(oldTicks, newTicks, elapsed)
  {
    hide Percentage, Fits;
    var percent := Percentage(oldTicks, newTicks, elapsed) as int;
    if Fits(oldTicks, newTicks, elapsed) {
      StepBrackets(oldTicks, newTicks, elapsed);
    } else if percent * elapsed <= MICROSECONDS * (newTicks as int - oldTicks) < (percent + 1) * elapsed {
      BracketsFit(oldTicks, newTicks, elapsed);
    }
  }

  lemma BracketsFit(oldTicks: U64, newTicks: U64, elapsed: Pos)
    requires elapsed < TWO64
    requires var percent := Percentage(oldTicks, newTicks, elapsed);
             percent as int * elapsed <= MICROSECONDS * (newTicks as int - oldTicks)
                                      < (percent as int + 1) * elapsed
    ensures Fits(oldTicks, newTicks, elapsed)
  {
    hide Percentage;
    var percent := Percentage(oldTicks, newTicks, elapsed) as int;
    MulMono(0, percent, elapsed);
    var work := newTicks - oldTicks;
    QuotientUnique(work * MICROSECONDS, elapsed, percent);
    PercentageAtMost(work * MICROSECONDS, oldTicks, newTicks, elapsed);
    if work * MICROSECONDS >= TWO64 {
      OverflowMovesQuotient(work * MICROSECONDS, elapsed);
    }
  }

  /** What is published never exceeds the quotient of the wrapped work. */
  lemma PercentageAtMost(work: nat, oldTicks: U64, newTicks: U64, elapsed: Pos)
    requires oldTicks <= newTicks && work == (newTicks - oldTicks) * MICROSECONDS
    ensures Percentage(oldTicks, newTicks, elapsed) <= Quotient(Wrap64(work), elapsed)
  {
    hide Quotient, Wrap64;
    WrapSmall(newTicks - oldTicks);
  }

  lemma FittingPercentage(oldTicks: U64, newTicks: U64, elapsed: Pos)
    requires Fits(oldTicks, newTicks, elapsed)
    ensures Percentage(oldTicks, newTicks, elapsed) == (newTicks - oldTicks) * MICROSECONDS / elapsed
  {
    var work := newTicks - oldTicks;
    WrapSmall(work);
    WrapSmall(work * MICROSECONDS);
    WrapSmall(Quotient(work * MICROSECONDS, elapsed));
  }

  lemma StepBrackets(oldTicks: U64, newTicks: U64, elapsed: Pos)
    requires Fits(oldTicks, newTicks, elapsed)
    ensures var percent := Percentage(oldTicks, newTicks, elapsed);
            percent as int * elapsed <= MICROSECONDS * (newTicks as int - oldTicks)
                                     < (percent as int + 1) * elapsed
  {
    FittingPercentage(oldTicks, newTicks, elapsed);
    QuotientBounds((newTicks - oldTicks) * MICROSECONDS, elapsed);
  }

  /** The stat file of the reading can be read; then this is its tick count. */
  predicate Readable(r: Reading) { ReadTicks(r.stat).Ticks? }

  function TicksOf(r: Reading): U64
    requires Readable(r)
  {
    ReadTicks(r.stat).value
  }

  /** The sum over a run of updates of published percentage times duration, with `extra` added to each
      percentage. */
  function Weighted(p: Proc, run: seq<Reading>, extra: nat): int
    decreases |run|
  {
    if run == [] then 0
    else
      var q := Update(p, run[0]);
      (q.info.cpuPercent as int + extra) * run[0].elapsed + Weighted(q, run[1..], extra)
  }

  /** All stat files of the run can be read, time passes between them, and the arithmetic fits. */
  predicate AllFit(ticks: U64, run: seq<Reading>)
    decreases |run|
  {
    run == [] ||
    (Readable(run[0]) && run[0].elapsed > 0 && Fits(ticks, TicksOf(run[0]), run[0].elapsed)
     && AllFit(TicksOf(run[0]), run[1..]))
  }

  /** What an update makes of the tick count and the percentage, whatever the memory and descriptor
      files hold: the first one publishes 0 and starts the clock. */
  lemma UpdateTimes(p: Proc, r: Reading)
    requires Readable(r)
    ensures var q := Update(p, r);
            && q.timed && q.info.cpuTime == TicksOf(r)
            && (!p.timed ==> q.info.cpuPercent == 0)
            && (p.timed && r.elapsed > 0 ==> q.info.cpuPercent == Percentage(p.info.cpuTime, TicksOf(r), r.elapsed))
  {
    hide Percentage, ReadTicks, ReadRollup;
  }

  lemma {:induction false} Brackets(p: Proc, run: seq<Reading>)
    requires p.timed && run != [] && AllFit(p.info.cpuTime, run)
    ensures Weighted(p, run, 0) <= MICROSECONDS * (TicksAfter(run) as int - p.info.cpuTime)
                                < Weighted(p, run, 1)
    decreases |run|
  {
    hide Fits, Percentage, Update, ReadTicks;
    var q := Update(p, run[0]);
    var first, elapsed := q.info.cpuPercent as int, run[0].elapsed;
    UpdateTimes(p, run[0]);
    StepBrackets(p.info.cpuTime, TicksOf(run[0]), elapsed);
    assert Weighted(p, run, 0) == first * elapsed + Weighted(q, run[1..], 0);
    assert Weighted(p, run, 1) == (first + 1) * elapsed + Weighted(q, run[1..], 1);
    if |run| == 1 {
      assert run[1..] == [];
    } else {
      assert run[1..][|run[1..]| - 1] == run[|run| - 1];
      Brackets(q, run[1..]);
    }
  }

  /** The tick count at the end of a run. */
  function TicksAfter(run: seq<Reading>): U64
    requires run != []
  {
    if Readable(run[|run| - 1]) then TicksOf(run[|run| - 1]) else 0
  }

  /** From a new process: its first update, after any time, publishes 0 and divides by nothing; over any
      run of updates after that, the published percentages weighted by their durations bracket the CPU
      time that was really used since the first one. */
  lemma Reconstruction(pid: int, name: string, init: StatInit, ctxId: U64, ctxName: string, first: Reading,
                       run: seq<Reading>)
    requires Readable(first) && run != [] && AllFit(TicksOf(first), run)
    ensures var p := NewProc(pid, name, init, ctxId, ctxName);
            var q := Update(p, first);
            && !DividesByZero(p, first)
            && q.info.cpuPercent == 0
            && Weighted(q, run, 0) <= MICROSECONDS * (TicksAfter(run) as int - TicksOf(first)) < Weighted(q, run, 1)
  {
    hide AllFit, Weighted, ReadTicks, Update;
    var p := NewProc(pid, name, init, ctxId, ctxName);
    UpdateTimes(p, first);
    Brackets(Update(p, first), run);
  }

  /** So the second update publishes the increase per second, rounded down. */
  lemma SecondUpdate(pid: int, name: string, init: StatInit, ctxId: U64, ctxName: string, first: Reading,
                     second: Reading)
    requires Readable(first) && Readable(second) && second.elapsed > 0
    requires Fits(TicksOf(first), TicksOf(second), second.elapsed)
    ensures Update(Update(NewProc(pid, name, init, ctxId, ctxName), first), second).info.cpuPercent
         == (TicksOf(second) - TicksOf(first)) * 1000000 / second.elapsed
  {
    hide Percentage, ReadTicks, Update;
    var p := NewProc(pid, name, init, ctxId, ctxName);
    UpdateTimes(p, first);
    UpdateTimes(Update(p, first), second);
    FittingPercentage(TicksOf(first), TicksOf(second), second.elapsed);
  }

  // ---- What the files hold reaches the message ----

  /** A stat file as the kernel prints it, and a memory file with a resident and a proportional size. */
  datatype StatFile = StatFile(pid: U32, comm: string, fields: seq<string>, ppid: U32, utime: U64, stime: U64,
                               rest: string)
  {
    ghost predicate Printable() {
      NEWLINE !in comm && |fields| == 50 && FieldLike(fields, IsSpace) && Carries(fields, ppid, utime, stime)
    }

    function Text(): string { StatLine.Print(pid, comm, fields) + [NEWLINE] + rest }

    function Ticks(): U64 { Add64(utime, stime) }
  }

  datatype MemFile = MemFile(before: seq<string>, between: seq<string>, after: seq<string>, spaces: string,
                             rss: U64, pss: U64)
  {
    ghost predicate Printable() {
      Others(before) && Others(between) && spaces != [] && forall c :: c in spaces ==> IsSpace(c)
    }

    function Lines(): seq<string> {
      before + ([Smaps.Print("Rss:", spaces, rss)] + (between + ([Smaps.Print("Pss:", spaces, pss)] + after)))
    }
  }

  /** An update from printed files succeeds if and only if the descriptors can be counted. It stores the
      ticks, both sizes and the count each in its own field, starts the clock, and leaves identity, name,
      context and accounting alone. */
  lemma UpdateStoresFiles(p: Proc, r: Reading, stat: StatFile, mem: MemFile)
    requires stat.Printable() && mem.Printable()
    requires r.stat == Some(stat.Text()) && r.smaps == Some(mem.Lines())
    ensures Succeeds(r) <==> !r.fds.Failed?
    ensures var q := Update(p, r);
            && q.info.cpuTime == stat.Ticks() && q.info.memRss == mem.rss && q.info.memPss == mem.pss
            && q.info.fdCount == (if r.fds.Descriptors? then r.fds.count else p.info.fdCount)
            && q == Proc(p.pid, p.info.(cpuTime := q.info.cpuTime, cpuPercent := q.info.cpuPercent,
                                        memRss := mem.rss, memPss := mem.pss, fdCount := q.info.fdCount),
                         true, p.acct)
  {
    StatRoundTrip(stat.pid, stat.comm, stat.fields, stat.ppid, stat.utime, stat.stime, stat.rest);
    SmapsRoundTrip(mem.before, mem.between, mem.after, mem.spaces, mem.rss, mem.pss);
    hide ReadTicks, ReadRollup, Percentage, StatLine.Print, Smaps.Print;
  }

  /** An update fails when a file cannot be opened, is cut short, or its line lacks fields. */
  lemma UpdateFails(r: Reading)
    requires || r.stat.None? || r.stat == Some([])
             || |Fields(FirstLine(r.stat.value), IsSpace)| < TOKENS
             || r.smaps.None? || r.fds.Failed?
    ensures !Succeeds(r)
  {
  }

  /** What an update read before it failed stays: nothing without a stat line, only the ticks without a
      memory file, and all but the count without descriptors. */
  lemma FailedUpdateKeeps(p: Proc, r: Reading)
    ensures !Readable(r) ==> Update(p, r) == p
    ensures Readable(r) && r.smaps.None? ==>
              var q := Update(p, r);
              q == Proc(p.pid, p.info.(cpuTime := TicksOf(r), cpuPercent := q.info.cpuPercent), true, p.acct)
    ensures !r.fds.Descriptors? ==> Update(p, r).info.fdCount == p.info.fdCount
  {
    hide ReadTicks, Percentage;
  }

  /** So does the resident size when the line after it is malformed. */
  lemma FailedUpdateKeepsSize(p: Proc, r: Reading, before: seq<string>, spaces: string, rss: U64,
                              between: seq<string>, bad: string, after: seq<string>)
    requires Others(before) && Others(between) && ("Rss:" <= bad || "Pss:" <= bad)
    requires spaces != [] && forall c :: c in spaces ==> IsSpace(c)
    requires |Fields(bad, IsSpace)| < 3 || Stoul(Fields(bad, IsSpace)[1]).None?
    requires Readable(r)
    requires r.smaps == Some(before + ([Smaps.Print("Rss:", spaces, rss)] + (between + ([bad] + after))))
    ensures !Succeeds(r)
    ensures var q := Update(p, r);
            q == Proc(p.pid, p.info.(cpuTime := TicksOf(r), cpuPercent := q.info.cpuPercent, memRss := rss),
                      true, p.acct)
  {
    SecondMalformed(before, spaces, rss, between, bad, after);
    hide ReadTicks, ReadRollup, Percentage, Smaps.Print, Fields, Stoul;
  }

  /** The entry made from a printed stat file holds its values, each in its own field, and no usage. */
  lemma NewEntryStoresFile(key: int, name: string, stat: StatFile, ctxId: U64, ctxName: string)
    requires stat.Printable()
    ensures ReadInit(Some(stat.Text())).Some?
    ensures var p := NewProc(key, name, ReadInit(Some(stat.Text())).value, ctxId, ctxName);
            && p.pid == key
            && p.info.pid == stat.pid && p.info.ppid == stat.ppid && p.info.cpuTime == stat.Ticks()
            && p.info.comm == name && p.info.ctxId == ctxId && p.info.ctxName == ctxName
            && p.info.cpuPercent == 0 && p.info.memRss == 0 && p.info.memPss == 0 && p.info.fdCount == 0
            && !p.timed && p.acct.record == [] && !p.acct.pending
  {
    StatRoundTrip(stat.pid, stat.comm, stat.fields, stat.ppid, stat.utime, stat.stime, stat.rest);
    hide ReadInit, StatLine.Print;
  }
}
