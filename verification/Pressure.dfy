/** The pressure files: lines of key=value tokens after a leading word. */
module Pressure {
  import opened Words
  import opened Text

  datatype Psi = Psi(avg10: real, avg60: real, avg300: real, total: U64)

  /** A fresh message. */
  const UNSET := Psi(0.0, 0.0, 0.0, 0)

  function Pow10(n: nat): nat { if n == 0 then 1 else 10 * Pow10(n - 1) }

  lemma {:induction false} Pow10Positive(n: nat)
    ensures Pow10(n) >= 1
  {
    if n > 0 {
      Pow10Positive(n - 1);
    }
  }

  /** The value of decimal notation: the digits before and after the point. */
  function Notation(whole: string, fraction: string): real
    requires forall c :: c in whole ==> IsDigit(c)
    requires forall c :: c in fraction ==> IsDigit(c)
  {
    Pow10Positive(|fraction|);
    Value(whole) as real + Value(fraction) as real / Pow10(|fraction|) as real
  }

  /** What decimal notation denotes: without a fraction the number before the point, and moving the point
      one place to the right multiplies by ten. */
  lemma PointMoves(whole: string, digit: char, fraction: string)
    requires IsDigit(digit)
    requires forall c :: c in whole ==> IsDigit(c)
    requires forall c :: c in fraction ==> IsDigit(c)
    ensures Notation(whole, "") == Value(whole) as real
    ensures Notation(whole + [digit], fraction) == 10.0 * Notation(whole, [digit] + fraction)
  {
    var d, n := DigitValue(digit), Pow10(|fraction|);
    Pow10Positive(|fraction|);
    ValueOfFirst(digit, fraction);
    ValueOfLast(whole, digit);
    assert Value("") == 0 && Pow10(|[digit] + fraction|) == 10 * n;
    hide Value, Pow10, IsDigit, DigitValue;
    Shift(Value(whole), d, Value(fraction), n);
  }

  lemma ValueOfLast(s: string, digit: char)
    requires IsDigit(digit) && forall c :: c in s ==> IsDigit(c)
    ensures Value(s + [digit]) == 10 * Value(s) + DigitValue(digit)
  {
    assert (s + [digit])[..|s|] == s;
  }

  lemma {:induction false} ValueOfFirst(digit: char, s: string)
    requires IsDigit(digit) && forall c :: c in s ==> IsDigit(c)
    ensures Value([digit] + s) == DigitValue(digit) * Pow10(|s|) + Value(s)
  {
    var t := [digit] + s;
    if s == [] {
      assert t == [digit] && t[..0] == [];
    } else {
      var n := |s| - 1;
      ValueOfFirst(digit, s[..n]);
      assert t[..|t| - 1] == [digit] + s[..n];
      assert 10 * (DigitValue(digit) * Pow10(n)) == DigitValue(digit) * (10 * Pow10(n));
    }
  }

  lemma Shift(w: nat, d: nat, f: nat, n: nat)
    requires n > 0
    ensures (10 * w + d) as real + f as real / n as real
         == 10.0 * (w as real + (d * n + f) as real / (10 * n) as real)
  {
    var x, y := d as real, n as real;
    assert (d * n) as real == x * y;
    assert (x * y + f as real) / y == x + f as real / y;
    Tenth(x * y + f as real, y);
  }

  lemma Tenth(x: real, y: real)
    requires y > 0.0
    ensures 10.0 * (x / (10.0 * y)) == x / y
  {
  }

  /** The number at the start of `s`, as `std::stof` reads one from a token in decimal notation, before
      it is rounded to the type of the result; without a digit it raises an exception. */
  function Stof(s: string): Option<real> {
    var signed := s != [] && (s[0] == '-' || s[0] == '+');
    var t := if signed then s[1..] else s;
    var whole := LeadingDigits(t);
    var rest := t[|whole|..];
    var fraction := if rest != [] && rest[0] == '.' then LeadingDigits(rest[1..]) else "";
    if whole == [] && fraction == [] then None
    else Some(if signed && s[0] == '-' then -Notation(whole, fraction) else Notation(whole, fraction))
  }

  /** How numbers become 32-bit floats; everything here holds for any way to round. */
  type Rounding = real -> real

  /** A token sets a field when it splits into two parts and the first is a known key. `None` stands
      for the exception of a value that is no number. */
  function Assigned(round: Rounding, data: Psi, token: string): Option<Psi> {
    var keyVal := Fields(token, Is('='));
    if |keyVal| != 2 then Some(data)
    else if keyVal[0] == "avg10" then
      if Stof(keyVal[1]).None? then None else Some(data.(avg10 := round(Stof(keyVal[1]).value)))
    else if keyVal[0] == "avg60" then
      if Stof(keyVal[1]).None? then None else Some(data.(avg60 := round(Stof(keyVal[1]).value)))
    else if keyVal[0] == "avg300" then
      if Stof(keyVal[1]).None? then None else Some(data.(avg300 := round(Stof(keyVal[1]).value)))
    else if keyVal[0] == "total" then
      if Stoul(keyVal[1]).None? then None else Some(data.(total := Stoul(keyVal[1]).value))
    else Some(data)
  }

  function AssignedAll(round: Rounding, data: Psi, tokens: seq<string>): Option<Psi>
    decreases |tokens|
  {
    if tokens == [] then Some(data)
    else match Assigned(round, data, tokens[0])
    case None => None
    case Some(next) => AssignedAll(round, next, tokens[1..])
  }

  datatype Stats = Stats(some: Psi, full: Psi)

  /** A line is read, or it throws, or it is blank: then the code reads a first token that is not there,
      and what it does is undefined. */
  datatype Outcome = Done | Threw | NoToken

  /** A line that starts with "some" replaces that message, any other line replaces the other one; a line
      that is not read changes nothing. */
  function LineRead(round: Rounding, s: Stats, line: string): (Stats, Outcome) {
    var tokens := Fields(line, IsSpace);
    if tokens == [] then (s, NoToken)
    else match AssignedAll(round, UNSET, tokens[1..])
    case None => (s, Threw)
    case Some(data) => (if tokens[0] == "some" then s.(some := data) else s.(full := data), Done)
  }

  /** The lines are read up to the first one that cannot be. */
  function FileRead(round: Rounding, s: Stats, lines: seq<string>): (Stats, Outcome)
    decreases |lines|
  {
    if lines == [] then (s, Done)
    else
      var (next, outcome) := LineRead(round, s, lines[0]);
      if outcome.Done? then FileRead(round, next, lines[1..]) else (s, outcome)
  }

  class PressureStat {
    const round: Rounding
    var stats: Stats

    constructor (round: Rounding)
      ensures this.round == round && stats == Stats(UNSET, UNSET)
    {
      this.round, stats := round, Stats(UNSET, UNSET);
    }

    /** `file` holds the lines of the file, or `None` when it cannot be opened. */
    method UpdateStats(file: Option<seq<string>>) returns (outcome: Outcome)
      modifies this
      ensures (stats, outcome)
           == if file.None? then (old(stats), Done) else FileRead(round, old(stats), file.value)
    {
      hide LineRead;
      outcome := Done;
      if file.Some? {
        var lines := file.value;
        for i := 0 to |lines|
          invariant outcome.Done? && FileRead(round, old(stats), lines) == FileRead(round, stats, lines[i..])
        {
          assert lines[i..][1..] == lines[i + 1..];
          outcome := UpdateLine(lines[i]);
          if !outcome.Done? {
            return;
          }
        }
      }
    }

    /** One line of the file. */
    method UpdateLine(line: string) returns (outcome: Outcome)
      modifies this
      ensures (stats, outcome) == LineRead(round, old(stats), line)
      ensures !outcome.Done? ==> stats == old(stats)
    {
      hide Assigned, Fields;
      var tokens := StreamTokens(line);
      var data := UNSET;
      var i := 1;
      while i < |tokens|
        invariant stats == old(stats) && i >= 1
        invariant tokens != [] ==>
                    && i <= |tokens|
                    && AssignedAll(round, UNSET, tokens[1..]) == AssignedAll(round, data, tokens[i..])
      {
        assert tokens[i..][1..] == tokens[i + 1..];
        var keyVal := Tokenize(tokens[i], '=');
        var next := SetField(data, keyVal, tokens[i]);
        if next.None? {
          return Threw;
        }
        data := next.value;
        i := i + 1;
      }
      if tokens == [] {
        return NoToken;
      }
      if tokens[0] == "some" {
        stats := stats.(some := data);
      } else {
        stats := stats.(full := data);
      }
      return Done;
    }

    method SetField(data: Psi, keyVal: seq<string>, ghost token: string) returns (r: Option<Psi>)
      requires keyVal == Fields(token, Is('='))
      ensures r == Assigned(round, data, token)
    {
      hide Fields, Stof, Stoul;
      if |keyVal| == 2 {
        if keyVal[0] == "avg10" {
          var v := Stof(keyVal[1]);
          return if v.None? then None else Some(data.(avg10 := round(v.value)));
        } else if keyVal[0] == "avg60" {
          var v := Stof(keyVal[1]);
          return if v.None? then None else Some(data.(avg60 := round(v.value)));
        } else if keyVal[0] == "avg300" {
          var v := Stof(keyVal[1]);
          return if v.None? then None else Some(data.(avg300 := round(v.value)));
        } else if keyVal[0] == "total" {
          var v := Stoul(keyVal[1]);
          return if v.None? then None else Some(data.(total := v.value));
        }
      }
      return Some(data);
    }
  }

  // ---- The kernel's side of a line ----

  /** An average as the kernel prints it, from its value in hundredths. */
  function Average(hundredths: nat): string {
    Decimal(hundredths / 100) + "." + Decimal(hundredths / 10 % 10) + Decimal(hundredths % 10)
  }

  function Pair(key: string, value: string): string { Join([key, value], '=') }

  function Print(word: string, a10: nat, a60: nat, a300: nat, total: U64): string {
    Join([word, Pair("avg10", Average(a10)), Pair("avg60", Average(a60)), Pair("avg300", Average(a300)),
          Pair("total", Decimal(total))], ' ')
  }

  /** What is kept of printed values. */
  function Kept(round: Rounding, a10: nat, a60: nat, a300: nat, total: U64): Psi {
    Psi(round(a10 as real / 100.0), round(a60 as real / 100.0), round(a300 as real / 100.0), total)
  }

  /** The rounding of 32-bit floats, with a significand of 24 bits, between 0.01 and a million. */
  ghost predicate RoundsToFloat(round: Rounding) {
    && round(0.0) == 0.0
    && forall x: real :: 0.01 <= x <= 1000000.0 ==>
         x - x / 16777216.0 <= round(x) <= x + x / 16777216.0
  }

  /** Averages below 83886.08 survive that rounding: the nearest hundredth is still the printed one. */
  lemma AverageSurvivesRounding(round: Rounding, h: nat)
    requires RoundsToFloat(round) && h < 8388608
    ensures (100.0 * round(h as real / 100.0) + 0.5).Floor == h
  {
    var x := h as real / 100.0;
    if h > 0 {
      assert 0.01 <= x <= 1000000.0;
      assert x - x / 16777216.0 <= round(x) <= x + x / 16777216.0;
      assert x / 16777216.0 < 0.005;
    }
  }

  lemma LastDigit(n: nat)
    requires n < 10
    ensures |Decimal(n)| == 1 && DigitValue(Decimal(n)[0]) == n
  {
  }

  lemma DigitsOf(s: string, rest: string)
    requires forall c :: c in s ==> IsDigit(c)
    requires rest == [] || !IsDigit(rest[0])
    ensures LeadingDigits(s + rest) == s && (s + rest)[|s|..] == rest
  {
    RunOf(s, rest, IsOther);
    assert (s + rest)[..|s|] == s;
  }

  /** Decimal notation is read as what it denotes: an optional sign, digits, and perhaps a point with more
      digits, on either side of which they may be missing; what follows does not matter. */
  lemma StofOfNotation(sign: string, whole: string, fraction: string, rest: string)
    requires sign == "" || sign == "-" || sign == "+"
    requires whole != [] || fraction != []
    requires forall c :: c in whole ==> IsDigit(c)
    requires forall c :: c in fraction ==> IsDigit(c)
    requires rest == [] || !IsDigit(rest[0])
    ensures Stof(sign + (whole + ("." + (fraction + rest))))
         == Some(if sign == "-" then -Notation(whole, fraction) else Notation(whole, fraction))
  {
    hide Notation, Stof, LeadingDigits;
    var tail := "." + (fraction + rest);
    var t := whole + tail;
    assert t[0] == (if whole == [] then '.' else whole[0]);
    assert whole != [] ==> whole[0] in whole;
    assert !IsDigit('.');
    DigitsOf(whole, tail);
    DigitsOf(fraction, rest);
    assert tail[1..] == fraction + rest;
    StofOfParts(sign, t, whole, fraction);
  }

  /** The same, told from where the digits are found. */
  lemma StofOfParts(sign: string, t: string, whole: string, fraction: string)
    requires sign == "" || sign == "-" || sign == "+"
    requires whole != [] || fraction != []
    requires t != [] && (IsDigit(t[0]) || t[0] == '.')
    requires LeadingDigits(t) == whole
    requires var rest := t[|whole|..]; rest != [] && rest[0] == '.' && LeadingDigits(rest[1..]) == fraction
    ensures Stof(sign + t)
         == Some(if sign == "-" then -Notation(whole, fraction) else Notation(whole, fraction))
  {
    hide Notation, LeadingDigits;
    var s := sign + t;
    if sign == "" {
      assert s == t;
    } else {
      assert s[0] == sign[0] && s[1..] == t;
    }
  }

  /** Without a digit there is no number. */
  lemma StofOfNoDigits(rest: string)
    requires rest == [] || (!IsDigit(rest[0]) && rest[0] != '-' && rest[0] != '+' && rest[0] != '.')
    ensures Stof(rest) == None
  {
  }

  /** The round trip of an average. */
  lemma StofOfAverage(h: nat)
    ensures Stof(Average(h)) == Some(h as real / 100.0)
  {
    hide Decimal, Stof, Value;
    var tenths, ones := h / 10 % 10, h % 10;
    var whole, fraction := Decimal(h / 100), Decimal(tenths) + Decimal(ones);
    assert Average(h) == whole + ("." + fraction);
    ValueOfDecimal(h / 100);
    ValueOfTwo(tenths, ones);
    StofOfNotation([], whole, fraction, []);
    assert [] + (whole + ("." + (fraction + []))) == whole + ("." + fraction);
    assert Pow10(|fraction|) == 100;
    assert Notation(whole, fraction) == (h / 100) as real + (10 * tenths + ones) as real / 100.0;
    HundredthsAddUp(h);
  }

  lemma HundredthsAddUp(h: nat)
    ensures (h / 100) as real + (10 * (h / 10 % 10) + h % 10) as real / 100.0 == h as real / 100.0
  {
    assert h == 100 * (h / 100) + (10 * (h / 10 % 10) + h % 10);
  }

  lemma ValueOfTwo(a: nat, b: nat)
    requires a < 10 && b < 10
    ensures var s := Decimal(a) + Decimal(b);
            |s| == 2 && (forall c :: c in s ==> IsDigit(c)) && Value(s) == 10 * a + b
  {
    var s := Decimal(a) + Decimal(b);
    LastDigit(a);
    LastDigit(b);
    hide Decimal;
    assert s[0] == Decimal(a)[0] && s[1] == Decimal(b)[0];
    assert s[..1] == Decimal(a) && s[..1][..0] == [];
    assert Value(s[..1]) == a;
  }

  /** A value that can stand in a key=value token. */
  ghost predicate ValueLike(v: string) { v != [] && Free(v, Is('=')) && Free(v, IsSpace) }

  lemma PairFields(key: string, value: string)
    requires ValueLike(key) && ValueLike(value)
    ensures Fields(Pair(key, value), Is('=')) == [key, value]
    ensures Pair(key, value) != [] && Free(Pair(key, value), IsSpace)
  {
    TokenizeRoundTrip([key, value], '=');
    assert Join([key, value][1..], '=') == value;
    assert Pair(key, value) == key + ['='] + value;
  }

  lemma PrintedLike(h: nat)
    ensures ValueLike(Average(h)) && ValueLike(Decimal(h))
  {
    hide Decimal;
    assert forall c :: IsDigit(c) ==> !IsSpace(c) && c != '=';
  }

  /** The round trip of a line: it gives back its four numbers, the averages rounded, in the one message
      under "some" and in the other under any other word, and leaves the respective other one alone. */
  lemma PressureRoundTrip(round: Rounding, s: Stats, word: string, a10: nat, a60: nat, a300: nat, total: U64)
    requires word != [] && Free(word, IsSpace)
    ensures var line, psi := Print(word, a10, a60, a300, total), Kept(round, a10, a60, a300, total);
            LineRead(round, s, line) == (if word == "some" then s.(some := psi) else s.(full := psi), Done)
  {
    hide Fields, Join, Pair, Average, Decimal, Stof, Stoul, ValueLike, LineRead;
    PrintedLike(a10);
    PrintedLike(a60);
    PrintedLike(a300);
    PrintedLike(total);
    StofOfAverage(a10);
    StofOfAverage(a60);
    StofOfAverage(a300);
    StoulOfDecimal(total);
    LineOfPairs(round, s, word, Average(a10), Average(a60), Average(a300), Decimal(total));
  }

  lemma LineOfPairs(round: Rounding, s: Stats, word: string, a: string, b: string, c: string, d: string)
    requires word != [] && Free(word, IsSpace)
    requires ValueLike(a) && ValueLike(b) && ValueLike(c) && ValueLike(d)
    requires Stof(a).Some? && Stof(b).Some? && Stof(c).Some? && Stoul(d).Some?
    ensures var line := Join([word, Pair("avg10", a), Pair("avg60", b), Pair("avg300", c),
                              Pair("total", d)], ' ');
            var psi := Psi(round(Stof(a).value), round(Stof(b).value), round(Stof(c).value), Stoul(d).value);
            LineRead(round, s, line) == (if word == "some" then s.(some := psi) else s.(full := psi), Done)
  {
    hide Fields, Join, Pair, Stof, Stoul, Assigned, AssignedAll;
    var tokens := [word, Pair("avg10", a), Pair("avg60", b), Pair("avg300", c), Pair("total", d)];
    PairFields("avg10", a);
    PairFields("avg60", b);
    PairFields("avg300", c);
    PairFields("total", d);
    FieldsOfJoin(tokens, ' ', IsSpace);
    AssignFour(round, tokens[1..], a, b, c, d);
  }

  lemma AssignFour(round: Rounding, tokens: seq<string>, a: string, b: string, c: string, d: string)
    requires |tokens| == 4
    requires Fields(tokens[0], Is('=')) == ["avg10", a] && Stof(a).Some?
    requires Fields(tokens[1], Is('=')) == ["avg60", b] && Stof(b).Some?
    requires Fields(tokens[2], Is('=')) == ["avg300", c] && Stof(c).Some?
    requires Fields(tokens[3], Is('=')) == ["total", d] && Stoul(d).Some?
    ensures AssignedAll(round, UNSET, tokens)
         == Some(Psi(round(Stof(a).value), round(Stof(b).value), round(Stof(c).value), Stoul(d).value))
  {
    hide Fields, Stof, Stoul;
    var d1 := Assigned(round, UNSET, tokens[0]).value;
    var d2 := Assigned(round, d1, tokens[1]).value;
    var d3 := Assigned(round, d2, tokens[2]).value;
    var d4 := Assigned(round, d3, tokens[3]).value;
    assert AssignedAll(round, UNSET, tokens) == AssignedAll(round, d1, tokens[1..]);
    assert AssignedAll(round, d1, tokens[1..]) == AssignedAll(round, d2, tokens[2..]) by {
      assert tokens[1..][1..] == tokens[2..];
    }
    assert AssignedAll(round, d2, tokens[2..]) == AssignedAll(round, d3, tokens[3..]) by {
      assert tokens[2..][1..] == tokens[3..];
    }
    assert AssignedAll(round, d3, tokens[3..]) == AssignedAll(round, d4, []) by {
      assert tokens[3..][1..] == [];
    }
  }

  /** A pressure file has one line of each kind: after reading it, whatever was there before, both
      messages hold what was printed. */
  lemma FileRoundTrip(round: Rounding, s: Stats, a10: nat, a60: nat, a300: nat, a: U64,
                      b10: nat, b60: nat, b300: nat, b: U64)
    ensures var file := [Print("some", a10, a60, a300, a), Print("full", b10, b60, b300, b)];
            FileRead(round, s, file)
            == (Stats(Kept(round, a10, a60, a300, a), Kept(round, b10, b60, b300, b)), Done)
  {
    hide Print, LineRead, Kept;
    var first, second := Print("some", a10, a60, a300, a), Print("full", b10, b60, b300, b);
    PressureRoundTrip(round, s, "some", a10, a60, a300, a);
    var next := LineRead(round, s, first).0;
    PressureRoundTrip(round, next, "full", b10, b60, b300, b);
    assert [first, second][1..] == [second] && [second][1..] == [];
    assert FileRead(round, s, [first, second]) == FileRead(round, next, [second]);
  }

  // ---- What is not read ----

  predicate KnownKey(key: string) { key == "avg10" || key == "avg60" || key == "avg300" || key == "total" }

  /** A token that is not a pair, or whose key is none of the four, is passed over. */
  lemma OtherTokensIgnored(round: Rounding, data: Psi, token: string)
    requires var parts := Fields(token, Is('=')); |parts| != 2 || !KnownKey(parts[0])
    ensures Assigned(round, data, token) == Some(data)
  {
    hide Fields;
  }

  /** A known key whose value is no number throws. */
  lemma BadValueThrows(round: Rounding, data: Psi, key: string, value: string)
    requires KnownKey(key) && ValueLike(value)
    requires if key == "total" then Stoul(value).None? else Stof(value).None?
    ensures Assigned(round, data, Pair(key, value)) == None
  {
    hide Fields, Pair, Stof, Stoul;
    PairFields(key, value);
  }

  /** Wherever such a token stands behind the first one, its line throws and changes nothing. */
  lemma BadLineThrows(round: Rounding, s: Stats, line: string, i: nat)
    requires 1 <= i < |Fields(line, IsSpace)|
    requires forall data :: Assigned(round, data, Fields(line, IsSpace)[i]) == None
    ensures LineRead(round, s, line) == (s, Threw)
  {
    hide Fields, Assigned;
    var tokens := Fields(line, IsSpace)[1..];
    BadTokenThrows(round, UNSET, tokens, i - 1);
  }

  lemma {:induction false} BadTokenThrows(round: Rounding, data: Psi, tokens: seq<string>, i: nat)
    requires i < |tokens| && forall d :: Assigned(round, d, tokens[i]) == None
    ensures AssignedAll(round, data, tokens) == None
    decreases i
  {
    hide Assigned;
    if i > 0 && Assigned(round, data, tokens[0]).Some? {
      BadTokenThrows(round, Assigned(round, data, tokens[0]).value, tokens[1..], i - 1);
    }
  }

  predicate Gives(token: string, key: string) {
    var parts := Fields(token, Is('='));
    |parts| == 2 && parts[0] == key
  }

  /** No token of the line gives the key. */
  ghost predicate Missing(tokens: seq<string>, key: string) {
    forall i :: 0 <= i < |tokens| ==> !Gives(tokens[i], key)
  }

  /** A line that is read sets all four numbers of its message: those whose keys are missing become 0. */
  lemma MissingIsZero(round: Rounding, s: Stats, line: string)
    requires LineRead(round, s, line).1 == Done
    ensures var tokens, after := Fields(line, IsSpace), LineRead(round, s, line).0;
            && tokens != []
            && var psi := if tokens[0] == "some" then after.some else after.full;
               && (Missing(tokens[1..], "avg10") ==> psi.avg10 == 0.0)
               && (Missing(tokens[1..], "avg60") ==> psi.avg60 == 0.0)
               && (Missing(tokens[1..], "avg300") ==> psi.avg300 == 0.0)
               && (Missing(tokens[1..], "total") ==> psi.total == 0)
  {
    hide Fields, Missing;
    MissingKeeps(round, UNSET, Fields(line, IsSpace)[1..]);
  }

  lemma {:induction false} MissingKeeps(round: Rounding, data: Psi, tokens: seq<string>)
    requires AssignedAll(round, data, tokens).Some?
    ensures var psi := AssignedAll(round, data, tokens).value;
            && (Missing(tokens, "avg10") ==> psi.avg10 == data.avg10)
            && (Missing(tokens, "avg60") ==> psi.avg60 == data.avg60)
            && (Missing(tokens, "avg300") ==> psi.avg300 == data.avg300)
            && (Missing(tokens, "total") ==> psi.total == data.total)
    decreases |tokens|
  {
    hide Fields, Stof, Stoul;
    if tokens != [] {
      MissingKeeps(round, Assigned(round, data, tokens[0]).value, tokens[1..]);
    }
  }

  /** A blank line changes nothing, and its first token is not there. */
  lemma BlankLine(round: Rounding, s: Stats, line: string)
    requires forall c :: c in line ==> IsSpace(c)
    ensures LineRead(round, s, line) == (s, NoToken)
  {
    NoFields(line);
  }

  lemma {:induction false} NoFields(line: string)
    requires forall c :: c in line ==> IsSpace(c)
    ensures Fields(line, IsSpace) == []
  {
    if line != [] {
      NoFields(line[1..]);
    }
  }

  /** A file is read up to the first line that cannot be read: what the lines before it gave stays, and
      what comes after it does not matter. */
  lemma {:induction false} FileStops(round: Rounding, s: Stats, good: seq<string>, bad: string, after: seq<string>)
    requires FileRead(round, s, good).1 == Done
    requires LineRead(round, FileRead(round, s, good).0, bad).1 != Done
    ensures FileRead(round, s, good + ([bad] + after))
         == (FileRead(round, s, good).0, LineRead(round, FileRead(round, s, good).0, bad).1)
    decreases |good|
  {
    hide LineRead;
    var lines := good + ([bad] + after);
    if good == [] {
      assert lines == [bad] + after && lines[0] == bad;
    } else {
      assert lines[0] == good[0] && lines[1..] == good[1..] + ([bad] + after);
      FileStops(round, LineRead(round, s, good[0]).0, good[1..], bad, after);
    }
  }
}
