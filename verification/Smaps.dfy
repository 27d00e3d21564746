/** Memory use from `/proc/<pid>/smaps_rollup`: the first two lines of the file that start with "Rss:" or
    "Pss:", whichever they are. */
module Smaps {
  import opened Words
  import opened Text

  /** What was read before the reading stopped, and whether it stopped well. */
  datatype MemRead = MemRead(rss: Option<U64>, pss: Option<U64>, ok: bool)

  const NOTHING_READ := MemRead(None, None, true)

  predicate StartsWith(line: string, key: string) {
    |key| <= |line| && line[..|key|] == key
  }

  predicate IsRss(line: string) { StartsWith(line, "Rss:") }

  predicate IsPss(line: string) { StartsWith(line, "Pss:") }

  /** A line of either kind sets its value; it needs three tokens, and the second must be a number. */
  function LineRead(read: MemRead, line: string): MemRead
    requires IsRss(line) || IsPss(line)
  {
    var tokens := Fields(line, IsSpace);
    if |tokens| < 3 || Stoul(tokens[1]).None? then read.(ok := false)
    else if IsRss(line) then read.(rss := Stoul(tokens[1]))
    else read.(pss := Stoul(tokens[1]))
  }

  /** The reading stops after two such lines, or at one that is malformed. */
  function Rollup(lines: seq<string>, read: MemRead, complete: nat): MemRead
    decreases |lines|
  {
    if lines == [] || complete == 0 || !read.ok then read
    else if !IsRss(lines[0]) && !IsPss(lines[0]) then Rollup(lines[1..], read, complete)
    else Rollup(lines[1..], LineRead(read, lines[0]), complete - 1)
  }

  /** `None` is a file that cannot be opened. */
  function ReadRollup(file: Option<seq<string>>): MemRead {
    if file.None? then NOTHING_READ.(ok := false) else Rollup(file.value, NOTHING_READ, 2)
  }

  // ---- The kernel's side of the file ----

  function Print(key: string, spaces: string, kb: U64): string {
    key + (spaces + (Decimal(kb) + " kB"))
  }

  /** No line of either kind. */
  ghost predicate Others(lines: seq<string>) {
    forall i :: 0 <= i < |lines| ==> !("Rss:" <= lines[i]) && !("Pss:" <= lines[i])
  }

  lemma {:induction false} SkipOthers(others: seq<string>, lines: seq<string>, read: MemRead, complete: nat)
    requires Others(others)
    ensures Rollup(others + lines, read, complete) == Rollup(lines, read, complete)
    decreases |others|
  {
    if others == [] {
      assert others + lines == lines;
    } else {
      assert (others + lines)[1..] == others[1..] + lines;
      assert !IsRss(others[0]) && !IsPss(others[0]);
      if complete > 0 && read.ok {
        SkipOthers(others[1..], lines, read, complete);
      }
    }
  }

  lemma PrintedFields(key: string, spaces: string, kb: U64)
    requires key != [] && Free(key, IsSpace)
    requires spaces != [] && forall c :: c in spaces ==> IsSpace(c)
    ensures Fields(Print(key, spaces, kb), IsSpace) == [key, Decimal(kb), "kB"]
  {
    hide Decimal;
    var number := Decimal(kb);
    FieldsOfRun(key, spaces + (number + " kB"), IsSpace);
    FieldsOfSpaces(spaces, number + " kB");
    FieldsOfRun(number, " kB", IsSpace);
    assert " kB"[1..] == "kB" + [];
    FieldsOfRun("kB", [], IsSpace);
  }

  lemma {:induction false} FieldsOfSpaces(spaces: string, s: string)
    requires forall c :: c in spaces ==> IsSpace(c)
    ensures Fields(spaces + s, IsSpace) == Fields(s, IsSpace)
  {
    if spaces == [] {
      assert spaces + s == s;
    } else {
      assert (spaces + s)[1..] == spaces[1..] + s;
      FieldsOfSpaces(spaces[1..], s);
    }
  }

  /** The round trip: in any file with a printed "Rss:" line before a printed "Pss:" line, and no other
      line of either kind before the second one, both numbers are read back; what follows does not
      matter. */
  lemma SmapsRoundTrip(before: seq<string>, between: seq<string>, after: seq<string>, spaces: string,
                       rss: U64, pss: U64)
    requires Others(before) && Others(between)
    requires spaces != [] && forall c :: c in spaces ==> IsSpace(c)
    ensures var file := before + ([Print("Rss:", spaces, rss)]
                                  + (between + ([Print("Pss:", spaces, pss)] + after)));
            ReadRollup(Some(file)) == MemRead(Some(rss), Some(pss), true)
  {
    var rssLine, pssLine := Print("Rss:", spaces, rss), Print("Pss:", spaces, pss);
    PrintedFields("Rss:", spaces, rss);
    PrintedFields("Pss:", spaces, pss);
    StoulOfDecimal(rss);
    StoulOfDecimal(pss);
    assert IsRss(rssLine) && !IsRss(pssLine) && IsPss(pssLine) by {
      assert rssLine[..4] == "Rss:" && pssLine[..4] == "Pss:" && pssLine[0] == 'P';
    }
    var read1 := MemRead(Some(rss), None, true);
    var read2 := MemRead(Some(rss), Some(pss), true);
    assert LineRead(NOTHING_READ, rssLine) == read1 && LineRead(read1, pssLine) == read2;
    hide Print, LineRead, IsRss, IsPss;
    var tail := [pssLine] + after;
    var rest := between + tail;
    SkipOthers(before, [rssLine] + rest, NOTHING_READ, 2);
    assert ([rssLine] + rest)[1..] == rest;
    SkipOthers(between, tail, read1, 1);
    assert tail[1..] == after;
  }

  /** A line of either kind with fewer than three tokens, or whose second token is no number, ends the
      reading without success, and nothing of it or after it is read. */
  lemma MalformedStops(before: seq<string>, bad: string, after: seq<string>)
    requires Others(before) && ("Rss:" <= bad || "Pss:" <= bad)
    requires |Fields(bad, IsSpace)| < 3 || Stoul(Fields(bad, IsSpace)[1]).None?
    ensures ReadRollup(Some(before + ([bad] + after))) == MemRead(None, None, false)
    ensures ReadRollup(None) == MemRead(None, None, false)
  {
    hide Fields, Stoul;
    SkipOthers(before, [bad] + after, NOTHING_READ, 2);
    assert IsRss(bad) || IsPss(bad);
    assert ([bad] + after)[1..] == after;
  }

  /** When it comes second, the first number stays read. */
  lemma SecondMalformed(before: seq<string>, spaces: string, rss: U64, between: seq<string>, bad: string,
                        after: seq<string>)
    requires Others(before) && Others(between) && ("Rss:" <= bad || "Pss:" <= bad)
    requires spaces != [] && forall c :: c in spaces ==> IsSpace(c)
    requires |Fields(bad, IsSpace)| < 3 || Stoul(Fields(bad, IsSpace)[1]).None?
    ensures ReadRollup(Some(before + ([Print("Rss:", spaces, rss)] + (between + ([bad] + after)))))
         == MemRead(Some(rss), None, false)
  {
    var rssLine, read := Print("Rss:", spaces, rss), MemRead(Some(rss), None, true);
    FirstRead(spaces, rss);
    BadRead(read, bad);
    hide Print, LineRead, IsRss, IsPss, Fields, Stoul;
    var tail := [bad] + after;
    SkipOthers(before, [rssLine] + (between + tail), NOTHING_READ, 2);
    assert ([rssLine] + (between + tail))[1..] == between + tail;
    SkipOthers(between, tail, read, 1);
    assert tail[1..] == after;
  }

  lemma FirstRead(spaces: string, rss: U64)
    requires spaces != [] && forall c :: c in spaces ==> IsSpace(c)
    ensures IsRss(Print("Rss:", spaces, rss))
    ensures LineRead(NOTHING_READ, Print("Rss:", spaces, rss)) == MemRead(Some(rss), None, true)
  {
    hide Stoul, Fields;
    var line := Print("Rss:", spaces, rss);
    PrintedFields("Rss:", spaces, rss);
    StoulOfDecimal(rss);
    assert line[..4] == "Rss:";
  }

  lemma BadRead(read: MemRead, bad: string)
    requires "Rss:" <= bad || "Pss:" <= bad
    requires |Fields(bad, IsSpace)| < 3 || Stoul(Fields(bad, IsSpace)[1]).None?
    ensures IsRss(bad) || IsPss(bad)
    ensures LineRead(read, bad) == read.(ok := false)
  {
    hide Stoul, Fields;
  }
}
