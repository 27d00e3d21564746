/** Splitting text into fields, and decimal numbers in text. */
module Text {
  import opened Words

  const NEWLINE: char := '\n'

  /** The characters that `std::isspace` accepts in the "C" locale. */
  predicate IsSpace(c: char) {
    c == ' ' || c == '\t' || c == '\n' || c == '\r' || c == '\U{0B}' || c == '\U{0C}'
  }

  /** The separator test for a single character. */
  function Is(ch: char): char -> bool { c => c == ch }

  /** The length of the longest prefix of `s` without a separator. */
  function RunLength(s: string, sep: char -> bool): (n: nat)
    ensures n <= |s|
    ensures forall i :: 0 <= i < n ==> !sep(s[i])
    ensures n < |s| ==> sep(s[n])
  {
    if s == [] || sep(s[0]) then 0 else 1 + RunLength(s[1..], sep)
  }

  /** The maximal separator-free runs of `s`, in order. */
  function Fields(s: string, sep: char -> bool): seq<string>
    decreases |s|
  {
    if s == [] then []
    else if sep(s[0]) then Fields(s[1..], sep)
    else [s[..RunLength(s, sep)]] + Fields(s[RunLength(s, sep)..], sep)
  }

  ghost predicate Free(s: string, sep: char -> bool) {
    forall c :: c in s ==> !sep(c)
  }

  /** Every string of `ts` could be one field. */
  ghost predicate FieldLike(ts: seq<string>, sep: char -> bool) {
    forall i :: 0 <= i < |ts| ==> ts[i] != [] && Free(ts[i], sep)
  }

  function Join(ts: seq<string>, ch: char): string {
    if ts == [] then [] else if |ts| == 1 then ts[0] else ts[0] + [ch] + Join(ts[1..], ch)
  }

  function Concat(ts: seq<string>): string {
    if ts == [] then [] else ts[0] + Concat(ts[1..])
  }

  /** `s` with every separator deleted. */
  function Delete(s: string, sep: char -> bool): string {
    if s == [] then []
    else (if sep(s[0]) then [] else [s[0]]) + Delete(s[1..], sep)
  }

  lemma {:induction false} RunOf(a: string, b: string, sep: char -> bool)
    requires Free(a, sep)
    requires b == [] || sep(b[0])
    ensures RunLength(a + b, sep) == |a|
  {
    if a == [] {
      assert a + b == b;
    } else {
      assert (a + b)[1..] == a[1..] + b;
      RunOf(a[1..], b, sep);
    }
  }

  lemma {:induction false} FieldsOfRun(a: string, b: string, sep: char -> bool)
    requires a != [] && Free(a, sep)
    requires b == [] || sep(b[0])
    ensures Fields(a + b, sep) == [a] + Fields(b, sep)
  {
    RunOf(a, b, sep);
    assert (a + b)[..|a|] == a && (a + b)[|a|..] == b;
  }

  lemma FirstField(s: string, sep: char -> bool) returns (run: string, rest: string)
    requires s != [] && !sep(s[0])
    ensures s == run + rest && run != [] && Free(run, sep)
    ensures rest == [] || sep(rest[0])
    ensures Fields(s, sep) == [run] + Fields(rest, sep)
  {
    var n := RunLength(s, sep);
    run, rest := s[..n], s[n..];
  }

  /** Splitting distributes over concatenation at a separator. */
  lemma {:induction false} FieldsConcat(a: string, b: string, sep: char -> bool)
    requires b == [] || sep(b[0])
    ensures Fields(a + b, sep) == Fields(a, sep) + Fields(b, sep)
    decreases |a|
  {
    if a == [] {
      assert a + b == b;
    } else if sep(a[0]) {
      assert (a + b)[1..] == a[1..] + b;
      FieldsConcat(a[1..], b, sep);
    } else {
      var run, rest := FirstField(a, sep);
      FieldsConcat(rest, b, sep);
      RunBeforeConcat(run, rest, b, sep);
    }
  }

  lemma RunBeforeConcat(run: string, rest: string, b: string, sep: char -> bool)
    requires run != [] && Free(run, sep)
    requires rest == [] || sep(rest[0])
    requires b == [] || sep(b[0])
    requires Fields(rest + b, sep) == Fields(rest, sep) + Fields(b, sep)
    ensures Fields((run + rest) + b, sep) == Fields(run + rest, sep) + Fields(b, sep)
  {
    hide Fields, RunLength;
    var whole := rest + b;
    assert whole == [] || sep(whole[0]);
    assert (run + rest) + b == run + whole;
    FieldsOfRun(run, whole, sep);
    FieldsOfRun(run, rest, sep);
    PrependField(run, Fields(rest, sep), Fields(b, sep));
  }

  lemma PrependField(run: string, x: seq<string>, y: seq<string>)
    ensures [run] + (x + y) == ([run] + x) + y
  {
  }

  /** Every field is nonempty and separator-free, and the fields hold exactly the other characters. */
  lemma {:induction false} FieldsKeepContent(s: string, sep: char -> bool)
    ensures FieldLike(Fields(s, sep), sep)
    ensures Concat(Fields(s, sep)) == Delete(s, sep)
    decreases |s|
  {
    if s == [] {
    } else if sep(s[0]) {
      FieldsKeepContent(s[1..], sep);
    } else {
      var run, rest := FirstField(s, sep);
      FieldsKeepContent(rest, sep);
      DeleteRun(run, rest, sep);
      assert ([run] + Fields(rest, sep))[1..] == Fields(rest, sep);
    }
  }

  lemma {:induction false} DeleteRun(a: string, b: string, sep: char -> bool)
    requires Free(a, sep)
    ensures Delete(a + b, sep) == a + Delete(b, sep)
  {
    if a == [] {
      assert a + b == b;
    } else {
      assert (a + b)[1..] == a[1..] + b;
      DeleteRun(a[1..], b, sep);
    }
  }

  lemma {:induction false} FieldsOfJoin(ts: seq<string>, ch: char, sep: char -> bool)
    requires sep(ch)
    requires FieldLike(ts, sep)
    ensures Fields(Join(ts, ch), sep) == ts
  {
    if ts == [] {
    } else if |ts| == 1 {
      assert ts[0] + [] == ts[0];
      FieldsOfRun(ts[0], [], sep);
    } else {
      var rest := [ch] + Join(ts[1..], ch);
      assert Join(ts, ch) == ts[0] + rest;
      FieldsOfRun(ts[0], rest, sep);
      assert rest[1..] == Join(ts[1..], ch);
      FieldsOfJoin(ts[1..], ch, sep);
    }
  }

  /** `result` and the run `next`, closed by the separator or the end that follows. */
  function Flush(result: seq<string>, next: string): seq<string> {
    if next == [] then result else result + [next]
  }

  /** A separator ends the run before it and adds nothing itself. */
  lemma FieldsAtSeparator(result: seq<string>, next: string, rest: string, sep: char -> bool)
    requires Free(next, sep)
    requires rest == [] || sep(rest[0])
    ensures result + Fields(next + rest, sep) == Flush(result, next) + Fields(rest, sep)
    ensures rest != [] ==> Fields(rest, sep) == Fields(rest[1..], sep)
  {
    if next == [] {
      assert next + rest == rest;
    } else {
      FieldsOfRun(next, rest, sep);
      assert result + ([next] + Fields(rest, sep)) == (result + [next]) + Fields(rest, sep);
    }
  }

  /** After the characters before `i`: `result` is complete and `next` is the run being read. */
  ghost predicate Scanned(str: string, i: nat, result: seq<string>, next: string, sep: char -> bool)
    requires i <= |str|
  {
    Free(next, sep) && result + Fields(next + str[i..], sep) == Fields(str, sep)
  }

  lemma ScanSeparator(str: string, i: nat, result: seq<string>, next: string, sep: char -> bool)
    requires i < |str| && sep(str[i]) && Scanned(str, i, result, next, sep)
    ensures Scanned(str, i + 1, Flush(result, next), "", sep)
  {
    FieldsAtSeparator(result, next, str[i..], sep);
    assert "" + str[i + 1..] == str[i..][1..];
  }

  lemma ScanCharacter(str: string, i: nat, result: seq<string>, next: string, sep: char -> bool)
    requires i < |str| && !sep(str[i]) && Scanned(str, i, result, next, sep)
    ensures Scanned(str, i + 1, result, next + [str[i]], sep)
  {
    assert next + str[i..] == (next + [str[i]]) + str[i + 1..];
  }

  /** The character loop behind the pressure parser. */
  method Tokenize(str: string, ch: char) returns (result: seq<string>)
    ensures result == Fields(str, Is(ch))
  {
    var next := "";
    result := [];
    assert "" + str[0..] == str;
    for i := 0 to |str|
      invariant Scanned(str, i, result, next, Is(ch))
    {
      if str[i] == ch {
        ScanSeparator(str, i, result, next, Is(ch));
        if next != [] {
          result := result + [next];
          next := "";
        }
      } else {
        ScanCharacter(str, i, result, next, Is(ch));
        next := next + [str[i]];
      }
    }
    FieldsAtSeparator(result, next, str[|str|..], Is(ch));
    if next != [] {
      result := result + [next];
    }
  }

  /** What the tokenizer is for: it undoes joining, for any list of possible tokens. */
  lemma TokenizeRoundTrip(ts: seq<string>, ch: char)
    requires FieldLike(ts, Is(ch))
    ensures Fields(Join(ts, ch), Is(ch)) == ts
  {
    FieldsOfJoin(ts, ch, Is(ch));
  }

  /** The loop `while (ss >> buf) tokens.push_back(buf)`: skip white space, take one run, repeat. */
  method StreamTokens(line: string) returns (tokens: seq<string>)
    ensures tokens == Fields(line, IsSpace)
  {
    tokens := [];
    var rest := line;
    while rest != []
      invariant tokens + Fields(rest, IsSpace) == Fields(line, IsSpace)
      decreases |rest|
    {
      if IsSpace(rest[0]) {
        rest := rest[1..];
      } else {
        var n := RunLength(rest, IsSpace);
        assert tokens + ([rest[..n]] + Fields(rest[n..], IsSpace))
            == (tokens + [rest[..n]]) + Fields(rest[n..], IsSpace);
        tokens, rest := tokens + [rest[..n]], rest[n..];
      }
    }
  }

  /** `std::getline`: the text before the first newline. */
  function FirstLine(content: string): string {
    content[..RunLength(content, Is(NEWLINE))]
  }

  // ---- Decimal numbers ----

  predicate IsDigit(c: char) { '0' <= c <= '9' }

  function DigitValue(c: char): nat
    requires IsDigit(c)
  {
    c as int - '0' as int
  }

  /** The value of a string of digits, most significant first. */
  function Value(s: string): nat
    requires forall c :: c in s ==> IsDigit(c)
  {
    if s == [] then 0 else 10 * Value(s[..|s| - 1]) + DigitValue(s[|s| - 1])
  }

  function Decimal(n: nat): (s: string)
    ensures s != [] && forall c :: c in s ==> IsDigit(c)
  {
    var digit := [('0' as int + n % 10) as char];
    if n < 10 then digit else Decimal(n / 10) + digit
  }

  lemma {:induction false} ValueOfDecimal(n: nat)
    ensures Value(Decimal(n)) == n
  {
    var s := Decimal(n);
    if n >= 10 {
      assert s[..|s| - 1] == Decimal(n / 10);
      ValueOfDecimal(n / 10);
    } else {
      assert s[..0] == [];
    }
  }

  predicate IsOther(c: char) { !IsDigit(c) }

  function LeadingDigits(s: string): (digits: string)
    ensures forall c :: c in digits ==> IsDigit(c)
  {
    s[..RunLength(s, IsOther)]
  }

  /** A magnitude with its sign; 64 bits must be enough for the magnitude. */
  function SignedValue(negative: bool, digits: string): Option<U64>
    requires forall c :: c in digits ==> IsDigit(c)
  {
    if digits == [] || Value(digits) >= TWO64 then None
    else Some(if negative then Wrap64(0 - Value(digits)) else Value(digits))
  }

  /** The unsigned number at the start of `s`, as `std::stoul` and `std::stoull` read one from a
      token: an optional sign, then digits up to the first other character. No digit, or a
      magnitude above 64 bits, raises an exception. A minus sign negates modulo 2^64. */
  function Stoul(s: string): Option<U64> {
    if s == [] then None
    else if s[0] == '-' || s[0] == '+' then SignedValue(s[0] == '-', LeadingDigits(s[1..]))
    else SignedValue(false, LeadingDigits(s))
  }

  /** Reading back a printed number gives that number. */
  lemma StoulOfDecimal(n: U64)
    ensures Stoul(Decimal(n)) == Some(n)
  {
    var s := Decimal(n);
    assert IsDigit(s[0]);
    assert s + [] == s;
    RunOf(s, [], IsOther);
    assert s[..|s|] == s;
    ValueOfDecimal(n);
  }

  /** An optional sign in front of digits can be told from them. */
  lemma SignInFront(sign: string, t: string)
    requires sign == "" || sign == "-" || sign == "+"
    requires t != [] && IsDigit(t[0])
    ensures var s := sign + t;
            && s != [] && !IsSpace(s[0])
            && (s[0] == '-' <==> sign == "-") && (s[0] == '+' <==> sign == "+")
            && (if s[0] == '-' || s[0] == '+' then s[1..] else s) == t
  {
    var s := sign + t;
    if sign == "" {
      assert s == t;
    } else {
      assert s[0] == sign[0] && s[1..] == t;
    }
  }

  lemma DigitsInFront(digits: string, rest: string)
    requires digits != [] && forall c :: c in digits ==> IsDigit(c)
    requires rest == [] || !IsDigit(rest[0])
    ensures (digits + rest)[0] == digits[0] && IsDigit(digits[0])
    ensures LeadingDigits(digits + rest) == digits && (digits + rest)[|digits|..] == rest
  {
    RunOf(digits, rest, IsOther);
    assert (digits + rest)[..|digits|] == digits;
  }

  /** What a conversion makes of an optional sign, digits, and whatever follows them: the number, negated
      modulo 2^64 after a minus sign, or an exception when 64 bits are not enough. */
  lemma StoulOfDigits(sign: string, digits: string, rest: string)
    requires sign == "" || sign == "-" || sign == "+"
    requires digits != [] && forall c :: c in digits ==> IsDigit(c)
    requires rest == [] || !IsDigit(rest[0])
    ensures Stoul(sign + (digits + rest))
         == if Value(digits) >= TWO64 then None
            else Some(if sign == "-" then Wrap64(0 - Value(digits)) else Value(digits))
  {
    hide Value, LeadingDigits;
    DigitsInFront(digits, rest);
    SignInFront(sign, digits + rest);
  }

  /** Without a digit after the optional sign there is no number. */
  lemma StoulOfNoDigits(sign: string, rest: string)
    requires sign == "" || sign == "-" || sign == "+"
    requires rest == [] || (!IsDigit(rest[0]) && (sign == "" ==> rest[0] != '-' && rest[0] != '+'))
    ensures Stoul(sign + rest) == None
  {
    var s := sign + rest;
    if sign == "" {
      assert s == rest;
    } else {
      assert s[1..] == rest;
    }
  }

  // ---- Searching ----

  predicate OccursAt(name: string, key: string, i: int) {
    0 <= i <= |name| - |key| && name[i..i + |key|] == key
  }

  predicate Contains(name: string, key: string) {
    exists i :: 0 <= i <= |name| && OccursAt(name, key, i)
  }

  /** `name` is the key with some text before and after it. */
  predicate Around(name: string, before: string, key: string, after: string) {
    name == before + key + after
  }

  lemma ContainsMiddle(before: string, key: string, after: string)
    ensures Contains(before + key + after, key)
  {
    assert OccursAt(before + key + after, key, |before|);
  }

  /** A name contains a key exactly when it is the key with some text before and after it. */
  lemma ContainsIff(name: string, key: string)
    ensures Contains(name, key) <==> exists before, after :: Around(name, before, key, after)
  {
    if Contains(name, key) {
      var i :| 0 <= i <= |name| && OccursAt(name, key, i);
      assert Around(name, name[..i], key, name[i + |key|..]);
    }
    if exists before, after :: Around(name, before, key, after) {
      var before, after :| Around(name, before, key, after);
      ContainsMiddle(before, key, after);
    }
  }

  // ---- Formatted scanning ----

  function SkipSpace(s: string): (rest: string)
    ensures |rest| <= |s| && (rest == [] || !IsSpace(rest[0]))
  {
    if s == [] || !IsSpace(s[0]) then s else SkipSpace(s[1..])
  }

  /** A magnitude with its sign, as `%lu` stores it: one that needs more than 64 bits gives the
      largest number, and a minus sign negates modulo 2^64. */
  function Saturated(negative: bool, digits: string): U64
    requires forall c :: c in digits ==> IsDigit(c)
  {
    if Value(digits) >= TWO64 then TWO64 - 1
    else if negative then Wrap64(0 - Value(digits))
    else Value(digits)
  }

  /** `%lu`: white space, an optional sign and at least one digit; what follows is left to be read. */
  function ScanNumber(s: string): Option<(U64, string)> {
    var t := SkipSpace(s);
    var signed := t != [] && (t[0] == '-' || t[0] == '+');
    var u := if signed then t[1..] else t;
    var digits := LeadingDigits(u);
    if digits == [] then None
    else Some((Saturated(signed && t[0] == '-', digits), u[|digits|..]))
  }

  /** The numbers read by `n` such conversions in a row, up to the first one that fails. */
  function ScanNumbers(s: string, n: nat): (ns: seq<U64>)
    ensures |ns| <= n
    decreases n
  {
    if n == 0 then []
    else match ScanNumber(s)
    case None => []
    case Some((v, rest)) => [v] + ScanNumbers(rest, n - 1)
  }

  /** `%s`: white space, then one run of other characters. */
  function ScanWord(s: string): (string, string) {
    var t := SkipSpace(s);
    (t[..RunLength(t, IsSpace)], t[RunLength(t, IsSpace)..])
  }

  lemma {:induction false} SkipSpaces(spaces: string, s: string)
    requires forall c :: c in spaces ==> IsSpace(c)
    requires s == [] || !IsSpace(s[0])
    ensures SkipSpace(spaces + s) == s
  {
    if spaces == [] {
      assert spaces + s == s;
    } else {
      assert (spaces + s)[1..] == spaces[1..] + s;
      SkipSpaces(spaces[1..], s);
    }
  }

  /** The conversion reads back a printed number, whatever white space precedes it. */
  lemma ScanNumberOfDecimal(spaces: string, n: U64, rest: string)
    requires forall c :: c in spaces ==> IsSpace(c)
    requires rest == [] || !IsDigit(rest[0])
    ensures ScanNumber(spaces + (Decimal(n) + rest)) == Some((n, rest))
  {
    var s := Decimal(n);
    hide Decimal;
    assert IsDigit(s[0]) && (s + rest)[0] == s[0];
    SkipSpaces(spaces, s + rest);
    RunOf(s, rest, IsOther);
    assert (s + rest)[..|s|] == s && (s + rest)[|s|..] == rest;
    ValueOfDecimal(n);
  }

  function Decimals(ns: seq<U64>): seq<string> {
    seq(|ns|, i requires 0 <= i < |ns| => Decimal(ns[i]))
  }

  lemma ScanOne(spaces: string, v: U64, rest: string, n: nat)
    requires forall c :: c in spaces ==> IsSpace(c)
    requires rest == [] || !IsDigit(rest[0])
    requires n > 0
    ensures ScanNumbers(spaces + (Decimal(v) + rest), n) == [v] + ScanNumbers(rest, n - 1)
  {
    hide ScanNumber, Decimal;
    ScanNumberOfDecimal(spaces, v, rest);
  }

  lemma ScanNothing(spaces: string, n: nat)
    requires forall c :: c in spaces ==> IsSpace(c)
    ensures ScanNumbers(spaces, n) == []
  {
    assert spaces + [] == spaces;
    ScanNumberOfNoDigits(spaces, []);
  }

  /** So numbers printed one after another are read back: all of them, and no more than there are. */
  lemma {:induction false} ScanFewDecimals(spaces: string, ns: seq<U64>, n: nat)
    requires spaces != [] && forall c :: c in spaces ==> IsSpace(c)
    requires |ns| <= n
    ensures ScanNumbers(spaces + Join(Decimals(ns), ' '), n) == ns
    decreases |ns|
  {
    hide ScanNumbers, Decimal;
    if ns == [] {
      assert spaces + Join(Decimals(ns), ' ') == spaces;
      ScanNothing(spaces, n);
    } else {
      var rest := if |ns| == 1 then [] else " " + Join(Decimals(ns[1..]), ' ');
      assert Decimals(ns)[1..] == Decimals(ns[1..]);
      assert Join(Decimals(ns), ' ') == Decimal(ns[0]) + rest;
      ScanOne(spaces, ns[0], rest, n);
      assert ns == [ns[0]] + ns[1..];
      if |ns| > 1 {
        ScanFewDecimals(" ", ns[1..], n - 1);
      } else {
        ScanNothing("", n - 1);
      }
    }
  }

  lemma ScanNumbersOfDecimals(spaces: string, ns: seq<U64>)
    requires spaces != [] && forall c :: c in spaces ==> IsSpace(c)
    ensures ScanNumbers(spaces + Join(Decimals(ns), ' '), |ns|) == ns
  {
    ScanFewDecimals(spaces, ns, |ns|);
  }

  lemma ScanWordOf(word: string, rest: string)
    requires word != [] && Free(word, IsSpace)
    requires rest == [] || IsSpace(rest[0])
    ensures ScanWord(word + rest) == (word, rest)
  {
    RunOf(word, rest, IsSpace);
    assert (word + rest)[0] == word[0];
    assert (word + rest)[..|word|] == word && (word + rest)[|word|..] == rest;
  }

  /** What `%lu` makes of white space, an optional sign, digits, and whatever follows them: a number that
      needs more than 64 bits gives the largest one. */
  lemma ScanNumberOfDigits(spaces: string, sign: string, digits: string, rest: string)
    requires forall c :: c in spaces ==> IsSpace(c)
    requires sign == "" || sign == "-" || sign == "+"
    requires digits != [] && forall c :: c in digits ==> IsDigit(c)
    requires rest == [] || !IsDigit(rest[0])
    ensures ScanNumber(spaces + (sign + (digits + rest)))
         == Some((if Value(digits) >= TWO64 then TWO64 - 1
                  else if sign == "-" then Wrap64(0 - Value(digits)) else Value(digits), rest))
  {
    hide Value, LeadingDigits, IsSpace, SkipSpace;
    DigitsInFront(digits, rest);
    SignInFront(sign, digits + rest);
    SkipSpaces(spaces, sign + (digits + rest));
  }

  /** Where no number stands, the scan stops. */
  lemma ScanNumberOfNoDigits(spaces: string, rest: string)
    requires forall c :: c in spaces ==> IsSpace(c)
    requires rest == [] || (!IsDigit(rest[0]) && !IsSpace(rest[0]) && rest[0] != '-' && rest[0] != '+')
    ensures ScanNumber(spaces + rest) == None
  {
    SkipSpaces(spaces, rest);
  }
}
