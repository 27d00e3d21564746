/** The `/proc/<pid>/stat` line: how `ProcEntry` finds its fields behind a command name that may
    itself contain white space. */
module StatLine {
  import opened Words
  import opened Text

  /** The number of tokens on a line whose command name is a single token. */
  const TOKENS: nat := 52

  /** What construction of a process entry takes from the line. */
  datatype StatInit = StatInit(pid: U32, ppid: U32, ticks: U64)

  /** What a periodic reading takes from the line. */
  datatype TicksRead = Unreadable | Malformed | Ticks(value: U64)

  function TickTokens(tokens: seq<string>): Option<U64>
    requires |tokens| >= TOKENS
  {
    var offset := |tokens| - TOKENS;
    match (Stoul(tokens[13 + offset]), Stoul(tokens[14 + offset]))
    case (Some(utime), Some(stime)) => Some(Add64(utime, stime))
    case _ => None
  }

  /** `content` is the text of the file, or `None` when it cannot be opened. */
  function ReadTicks(content: Option<string>): TicksRead {
    if content.None? || content.value == [] then Unreadable
    else
      var tokens := Fields(FirstLine(content.value), IsSpace);
      if |tokens| < TOKENS then Malformed
      else match TickTokens(tokens)
      case Some(ticks) => Ticks(ticks)
      case None => Malformed
  }

  /** `None` stands for the exceptions that make construction fail. */
  function InitOfTokens(tokens: seq<string>): Option<StatInit> {
    if |tokens| < TOKENS then None
    else
      match (Stoul(tokens[0]), Stoul(tokens[3 + (|tokens| - TOKENS)]), TickTokens(tokens))
      case (Some(pid), Some(ppid), Some(ticks)) => Some(StatInit(Wrap32(pid), Wrap32(ppid), ticks))
      case _ => None
  }

  function ReadInit(content: Option<string>): Option<StatInit> {
    if content.None? || content.value == [] then None
    else InitOfTokens(Fields(FirstLine(content.value), IsSpace))
  }

  method ReadProcStatTokens(content: Option<string>) returns (read: TicksRead)
    ensures read == ReadTicks(content)
  {
    if content.None? || content.value == [] {
      return Unreadable;
    }
    var tokens := StreamTokens(FirstLine(content.value));
    if |tokens| < TOKENS {
      return Malformed;
    }
    match TickTokens(tokens)
    case Some(ticks) => read := Ticks(ticks);
    case None => read := Malformed;
  }

  // ---- The kernel's side of the line ----

  /** The line as the kernel prints it: pid, the command name in parentheses, then 50 fields. */
  function Print(pid: nat, comm: string, fields: seq<string>): string {
    Decimal(pid) + " (" + comm + ") " + Join(fields, ' ')
  }

  /** The three of the 50 trailing fields that the code reads hold these numbers. */
  ghost predicate Carries(fields: seq<string>, ppid: nat, utime: nat, stime: nat)
    requires |fields| == 50
  {
    fields[1] == Decimal(ppid) && fields[11] == Decimal(utime) && fields[12] == Decimal(stime)
  }

  /** However many tokens the command name splits into, they stand between the pid and the fields. */
  lemma FieldsOfPrint(pid: nat, comm: string, fields: seq<string>)
    requires FieldLike(fields, IsSpace)
    ensures Fields(Print(pid, comm, fields), IsSpace)
         == [Decimal(pid)] + Fields("(" + comm + ")", IsSpace) + fields
  {
    var name := "(" + comm + ")";
    var tail := " " + Join(fields, ' ');
    var middle := " " + (name + tail);
    hide Decimal, Join;
    assert Print(pid, comm, fields) == Decimal(pid) + middle;
    FieldsOfRun(Decimal(pid), middle, IsSpace);
    assert middle[1..] == name + tail;
    FieldsConcat(name, tail, IsSpace);
    assert tail[1..] == Join(fields, ' ');
    FieldsOfJoin(fields, ' ', IsSpace);
  }

  lemma FirstLineOf(line: string, rest: string)
    requires NEWLINE !in line
    ensures FirstLine(line + [NEWLINE] + rest) == line
  {
    assert line + [NEWLINE] + rest == line + ([NEWLINE] + rest);
    RunOf(line, [NEWLINE] + rest, Is(NEWLINE));
  }

  lemma {:induction false} JoinHasNoNewline(fields: seq<string>)
    requires FieldLike(fields, IsSpace)
    ensures NEWLINE !in Join(fields, ' ')
  {
    if fields != [] {
      JoinHasNoNewline(fields[1..]);
    }
  }

  /** Counting from the end of the token list skips the name, whatever it split into. */
  lemma OffsetSkipsName(tokens: seq<string>, name: seq<string>, pid: nat, fields: seq<string>)
    requires |fields| == 50 && name != [] && tokens == [Decimal(pid)] + name + fields
    ensures |tokens| >= TOKENS
    ensures var offset := |tokens| - TOKENS;
            && tokens[0] == Decimal(pid)
            && tokens[3 + offset] == fields[1]
            && tokens[13 + offset] == fields[11]
            && tokens[14 + offset] == fields[12]
  {
  }

  lemma InitOfPrinted(tokens: seq<string>, pid: U32, ppid: U32)
    requires |tokens| >= TOKENS && Stoul(tokens[0]) == Some(pid)
    requires Stoul(tokens[3 + (|tokens| - TOKENS)]) == Some(ppid)
    requires TickTokens(tokens).Some?
    ensures InitOfTokens(tokens) == Some(StatInit(pid, ppid, TickTokens(tokens).value))
  {
    hide Stoul, TickTokens;
  }

  lemma TicksOfTokens(tokens: seq<string>, utime: U64, stime: U64)
    requires |tokens| >= TOKENS
    requires tokens[13 + (|tokens| - TOKENS)] == Decimal(utime)
    requires tokens[14 + (|tokens| - TOKENS)] == Decimal(stime)
    ensures TickTokens(tokens) == Some(Add64(utime, stime))
  {
    StoulOfDecimal(utime);
    StoulOfDecimal(stime);
  }

  lemma TokensOfPrint(pid: nat, comm: string, fields: seq<string>, rest: string)
    returns (tokens: seq<string>, name: seq<string>)
    requires NEWLINE !in comm
    requires FieldLike(fields, IsSpace)
    ensures tokens == Fields(FirstLine(Print(pid, comm, fields) + [NEWLINE] + rest), IsSpace)
    ensures name != [] && tokens == [Decimal(pid)] + name + fields
  {
    JoinHasNoNewline(fields);
    FirstLineOf(Print(pid, comm, fields), rest);
    FieldsOfPrint(pid, comm, fields);
    name := Fields("(" + comm + ")", IsSpace);
    tokens := [Decimal(pid)] + name + fields;
  }

  /** The round trip: for every command name without a newline, whatever other white space and
      parentheses it contains, the values printed are the values read. */
  lemma StatRoundTrip(pid: U32, comm: string, fields: seq<string>, ppid: U32, utime: U64, stime: U64,
                      rest: string)
    requires NEWLINE !in comm
    requires |fields| == 50 && FieldLike(fields, IsSpace) && Carries(fields, ppid, utime, stime)
    ensures var content := Some(Print(pid, comm, fields) + [NEWLINE] + rest);
            && ReadInit(content) == Some(StatInit(pid, ppid, Add64(utime, stime)))
            && ReadTicks(content) == Ticks(Add64(utime, stime))
  {
    var tokens, name := TokensOfPrint(pid, comm, fields, rest);
    OffsetSkipsName(tokens, name, pid, fields);
    StoulOfDecimal(pid);
    StoulOfDecimal(ppid);
    TicksOfTokens(tokens, utime, stime);
    InitOfPrinted(tokens, pid, ppid);
  }

  /** What both readings refuse: a file that is missing or empty, a first line of fewer than 52 tokens, and
      one of the tokens they need that is no number. */
  lemma StatRejects(content: Option<string>)
    ensures content.None? || content.value == [] ==> ReadInit(content) == None && ReadTicks(content) == Unreadable
    ensures content.Some? && content.value != [] ==>
              var tokens := Fields(FirstLine(content.value), IsSpace);
              && (|tokens| < 52 ==> ReadInit(content) == None && ReadTicks(content) == Malformed)
              && (|tokens| >= 52 && (Stoul(tokens[|tokens| - 39]).None? || Stoul(tokens[|tokens| - 38]).None?) ==>
                    ReadInit(content) == None && ReadTicks(content) == Malformed)
              && (|tokens| >= 52 && (Stoul(tokens[0]).None? || Stoul(tokens[|tokens| - 49]).None?) ==>
                    ReadInit(content) == None)
  {
    hide Stoul, Fields;
  }
}
