/** The disk list: one entry per device number, updated or appended line by line. */
module DiskStats {
  import opened Words
  import opened Text
  import opened SafeLists
  import opened Keyed
  import opened Index

  type Device = (U32, U32)

  datatype Counters = Counters(
    readsCompleted: U64, readsMerged: U64, readsSpentMs: U64,
    writesCompleted: U64, writesMerged: U64, writesSpentMs: U64,
    ioInProgress: U64, ioSpentMs: U64, ioWeightedMs: U64)

  datatype Disk = Disk(name: string, counters: Counters)

  const NO_DISK := Disk("", Counters(0, 0, 0, 0, 0, 0, 0, 0, 0))

  /** What a line says about a device: its name and, for each counter in the order in which they are
      assigned, the number at its place, or `None` for a token that is no number. */
  datatype Row = Row(name: string, cells: seq<Option<U64>>)

  const COUNTERS: nat := 9

  function Put(d: Disk, k: nat, v: U64): Disk {
    var c := d.counters;
    d.(counters :=
         match k
         case 0 => c.(readsCompleted := v)
         case 1 => c.(readsMerged := v)
         case 2 => c.(readsSpentMs := v)
         case 3 => c.(writesCompleted := v)
         case 4 => c.(writesMerged := v)
         case 5 => c.(writesSpentMs := v)
         case 6 => c.(ioInProgress := v)
         case 7 => c.(ioSpentMs := v)
         case _ => c.(ioWeightedMs := v))
  }

  /** The counters from `k` on are assigned up to the first token that is no number. */
  function PutFrom(d: Disk, cells: seq<Option<U64>>, k: nat): Disk
    decreases |cells| - k
  {
    if k >= |cells| || cells[k].None? then d else PutFrom(Put(d, k, cells[k].value), cells, k + 1)
  }

  /** What a line makes of an entry. */
  function Assign(entry: Disk, row: Row): Disk {
    PutFrom(entry.(name := row.name), row.cells, 0)
  }

  predicate Complete(row: Row) { forall k :: 0 <= k < |row.cells| ==> row.cells[k].Some? }

  /** A line with too few tokens, a line whose device numbers are no numbers, or a device's row. */
  datatype Line = Short | NoDevice | Device(device: Device, row: Row)

  const TOKENS: nat := 20

  function Cells(tokens: seq<string>): seq<Option<U64>>
    requires |tokens| >= TOKENS
  {
    [Stoul(tokens[3]), Stoul(tokens[4]), Stoul(tokens[6]), Stoul(tokens[7]), Stoul(tokens[8]),
     Stoul(tokens[10]), Stoul(tokens[11]), Stoul(tokens[12]), Stoul(tokens[13])]
  }

  /** Device numbers are cut to 32 bits. */
  function Parse(line: string): Line {
    var tokens := Fields(line, IsSpace);
    if |tokens| < TOKENS then Short
    else
      match (Stoul(tokens[0]), Stoul(tokens[1]))
      case (Some(major), Some(minor)) =>
        Device((Wrap32(major), Wrap32(minor)), Row(tokens[2], Cells(tokens)))
      case _ => NoDevice
  }

  /** The rows that reach the list: those before the line that ends the reading, and that line's own
      row when it is a counter that ends it. */
  function DeviceLines(lines: seq<string>): seq<(Device, Row)> {
    if lines == [] then []
    else match Parse(lines[0])
    case Device(device, row) => [(device, row)] + if Complete(row) then DeviceLines(lines[1..]) else []
    case _ => []
  }

  datatype Outcome = Done | ParseError | Threw

  /** How the reading ends: after the last line, at a short line, or with an exception. */
  function OutcomeOf(lines: seq<string>): Outcome {
    if lines == [] then Done
    else match Parse(lines[0])
    case Device(_, row) => if Complete(row) then OutcomeOf(lines[1..]) else Threw
    case Short => ParseError
    case NoDevice => Threw
  }

  lemma NotAmongKeys(view: seq<(Device, Disk)>, device: Device)
    requires Find(view, device) == |view|
    ensures device !in Keys(view)
  {
  }

  class DiskStat {
    var device: Device
    var disk: Disk

    constructor (device: Device, name: string)
      ensures this.device == device && disk == NO_DISK.(name := name)
    {
      this.device, disk := device, NO_DISK.(name := name);
    }

    /** One assignment; the conversion of the token may throw. */
    method SetCounter(k: nat, token: string, ghost cells: seq<Option<U64>>) returns (threw: bool)
      requires k < |cells| && cells[k] == Stoul(token)
      modifies this`disk
      ensures threw == cells[k].None?
      ensures PutFrom(old(disk), cells, k) == if threw then disk else PutFrom(disk, cells, k + 1)
    {
      var value := Stoul(token);
      threw := value.None?;
      if !threw {
        disk := Put(disk, k, value.value);
      }
    }

    method UpdateEntry(device: Device, tokens: seq<string>) returns (threw: bool)
      requires |tokens| >= TOKENS
      modifies this
      ensures this.device == device
      ensures disk == Assign(old(disk), Row(tokens[2], Cells(tokens)))
      ensures threw == !Complete(Row(tokens[2], Cells(tokens)))
    {
      hide PutFrom, Put, Stoul, Complete;
      ghost var cells := Cells(tokens);
      assert |cells| == COUNTERS;
      hide Cells;
      this.device := device;
      disk := disk.(name := tokens[2]);
      threw := SetCounter(0, tokens[3], cells);
      if !threw { threw := SetCounter(1, tokens[4], cells); }
      if !threw { threw := SetCounter(2, tokens[6], cells); }
      if !threw { threw := SetCounter(3, tokens[7], cells); }
      if !threw { threw := SetCounter(4, tokens[8], cells); }
      if !threw { threw := SetCounter(5, tokens[10], cells); }
      if !threw { threw := SetCounter(6, tokens[11], cells); }
      if !threw { threw := SetCounter(7, tokens[12], cells); }
      if !threw { threw := SetCounter(8, tokens[13], cells); }
      AllPut(disk, cells);
      CompleteNine(Row(tokens[2], cells));
    }
  }

  lemma CompleteNine(row: Row)
    requires |row.cells| == COUNTERS
    ensures var c := row.cells;
            Complete(row) <==> c[0].Some? && c[1].Some? && c[2].Some? && c[3].Some? && c[4].Some?
                               && c[5].Some? && c[6].Some? && c[7].Some? && c[8].Some?
  {
  }

  lemma AllPut(d: Disk, cells: seq<Option<U64>>)
    requires |cells| == COUNTERS
    ensures PutFrom(d, cells, COUNTERS) == d
  {
  }

  function ViewOf(es: seq<DiskStat>): seq<(Device, Disk)>
    reads es
  {
    seq(|es|, i requires 0 <= i < |es| reads es => (es[i].device, es[i].disk))
  }

  lemma ViewAt(es: seq<DiskStat>, i: nat)
    requires i < |es|
    ensures |ViewOf(es)| == |es| && ViewOf(es)[i] == (es[i].device, es[i].disk)
    ensures Keys(ViewOf(es))[i] == es[i].device
  {
  }

  class SysProcDiskStats {
    const disks: SafeList<DiskStat>

    constructor ()
      ensures Valid() && View() == [] && fresh(disks)
    {
      disks := new SafeList();
    }

    ghost predicate Valid()
      reads disks, disks.items
    {
      disks.adding == [] && disks.removing == [] && Distinct(Keys(View()))
    }

    ghost function View(): seq<(Device, Disk)>
      reads disks, disks.items
    {
      ViewOf(disks.items)
    }

    twostate predicate OnlyNew()
      reads disks
    {
      forall i :: 0 <= i < |disks.items| ==> disks.items[i] in old(disks.items) || fresh(disks.items[i])
    }

    method Append(entry: DiskStat)
      requires Valid() && entry !in disks.items && entry.device !in Keys(View())
      modifies disks
      ensures Valid() && disks.items == old(disks.items) + [entry]
      ensures View() == old(View()) + [(entry.device, entry.disk)]
    {
      disks.Append(entry, false);
      WithoutNothing(disks.items + disks.adding);
      ghost var view := View() + [(entry.device, entry.disk)];
      assert Keys(view) == Keys(View()) + [entry.device];
      disks.Commit();
      assert View() == view;
    }

    method UpdateAt(entry: DiskStat, ghost i: nat, device: Device, tokens: seq<string>) returns (threw: bool)
      requires Valid() && i < |disks.items| && disks.items[i] == entry && entry.device == device
      requires |tokens| >= TOKENS
      modifies entry
      ensures Valid()
      ensures var row := Row(tokens[2], Cells(tokens));
              && View() == old(View())[i := (device, Assign(old(entry.disk), row))]
              && threw == !Complete(row)
      ensures Keys(View()) == Keys(old(View()))
    {
      hide Assign, Complete;
      ghost var view := View();
      assert forall j :: 0 <= j < |view| ==> Keys(view)[j] == disks.items[j].device;
      threw := entry.UpdateEntry(device, tokens);
      assert View() == view[i := (device, entry.disk)];
      assert Keys(View()) == Keys(view);
    }

    /** The loop over the list for one line; an exception ends it. */
    method UpdateFound(device: Device, tokens: seq<string>) returns (found: bool, threw: bool)
      requires Valid() && |tokens| >= TOKENS
      modifies disks.items
      ensures Valid()
      ensures found <==> Find(old(View()), device) < |old(View())|
      ensures var row := Row(tokens[2], Cells(tokens));
              && threw == (found && !Complete(row))
              && View() == if found then Upsert(old(View()), device, row, Assign, NO_DISK)
                           else old(View())
    {
      ghost var view := View();
      assert |view| == |disks.items|;
      hide ViewOf, Find, Distinct;
      ghost var row := Row(tokens[2], Cells(tokens));
      ghost var place := Find(view, device);
      found, threw := false, false;
      for i := 0 to |disks.items|
        invariant Valid() && Keys(View()) == Keys(view) && |view| == |disks.items| && !threw
        invariant found <==> place < i
        invariant found ==> Complete(row)
        invariant View() == if found then view[place := (device, Assign(view[place].1, row))] else view
      {
        ViewAt(disks.items, i);
        if disks.items[i].device == device {
          assert Keys(View())[i] == Keys(view)[i];
          FindUnique(view, device, i);
          assert place == i && !found;
          found := true;
          threw := UpdateAt(disks.items[i], i, device, tokens);
          if threw {
            return;
          }
        } else {
          assert place != i;
        }
      }
    }

    /** A device that is not listed is appended and committed before its counters are read. */
    method UpdateDevice(device: Device, tokens: seq<string>) returns (threw: bool)
      requires Valid() && |tokens| >= TOKENS
      modifies disks, disks.items
      ensures Valid() && OnlyNew()
      ensures var row := Row(tokens[2], Cells(tokens));
              && View() == Upsert(old(View()), device, row, Assign, NO_DISK)
              && threw == !Complete(row)
    {
      hide Cells, Complete, PutFrom;
      var found;
      found, threw := UpdateFound(device, tokens);
      if !found {
        var entry := new DiskStat(device, tokens[2]);
        NotAmongKeys(View(), device);
        Append(entry);
        threw := UpdateAt(entry, |disks.items| - 1, device, tokens);
      }
    }

    method DoUpdateStats(lines: seq<string>) returns (outcome: Outcome)
      requires Valid()
      modifies disks, disks.items
      ensures Valid() && OnlyNew()
      ensures View() == UpsertAll(old(View()), DeviceLines(lines), Assign, NO_DISK)
      ensures outcome == OutcomeOf(lines)
    {
      hide Upsert, Cells, Complete, Assign, Fields, Stoul, Wrap32;
      for i := 0 to |lines|
        invariant Valid() && OnlyNew()
        invariant UpsertAll(old(View()), DeviceLines(lines), Assign, NO_DISK)
               == UpsertAll(View(), DeviceLines(lines[i..]), Assign, NO_DISK)
        invariant OutcomeOf(lines) == OutcomeOf(lines[i..])
      {
        assert lines[i..][1..] == lines[i + 1..];
        var tokens := StreamTokens(lines[i]);
        if |tokens| < TOKENS {
          return ParseError;
        }
        var major, minor := Stoul(tokens[0]), Stoul(tokens[1]);
        if major.None? || minor.None? {
          return Threw;
        }
        var device := (Wrap32(major.value), Wrap32(minor.value));
        ghost var rest := DeviceLines(lines[i + 1..]);
        assert ([(device, Row(tokens[2], Cells(tokens)))] + rest)[1..] == rest;
        var threw := UpdateDevice(device, tokens);
        if threw {
          return Threw;
        }
      }
      return Done;
    }
  }

  // ---- What the list holds after a reading ----

  /** A row without a gap sets everything. */
  function DiskOf(row: Row): Disk
    requires |row.cells| == COUNTERS && Complete(row)
  {
    var c := row.cells;
    Disk(row.name, Counters(c[0].value, c[1].value, c[2].value, c[3].value, c[4].value, c[5].value,
                            c[6].value, c[7].value, c[8].value))
  }

  lemma CompleteRowReplaces(entry: Disk, row: Row)
    requires |row.cells| == COUNTERS && Complete(row)
    ensures Assign(entry, row) == DiskOf(row)
  {
    hide PutFrom;
    var d := entry.(name := row.name);
    for k := 0 to COUNTERS
      invariant d.name == row.name && Assign(entry, row) == PutFrom(d, row.cells, k)
      invariant PutSoFar(d.counters, row.cells, k)
    {
      PutOne(d, row.cells, k);
      d := Put(d, k, row.cells[k].value);
    }
    AllPut(d, row.cells);
  }

  /** The first `k` counters are those of the cells. */
  predicate PutSoFar(c: Counters, cells: seq<Option<U64>>, k: nat)
    requires |cells| == COUNTERS
  {
    && (k > 0 ==> cells[0] == Some(c.readsCompleted))
    && (k > 1 ==> cells[1] == Some(c.readsMerged))
    && (k > 2 ==> cells[2] == Some(c.readsSpentMs))
    && (k > 3 ==> cells[3] == Some(c.writesCompleted))
    && (k > 4 ==> cells[4] == Some(c.writesMerged))
    && (k > 5 ==> cells[5] == Some(c.writesSpentMs))
    && (k > 6 ==> cells[6] == Some(c.ioInProgress))
    && (k > 7 ==> cells[7] == Some(c.ioSpentMs))
    && (k > 8 ==> cells[8] == Some(c.ioWeightedMs))
  }

  lemma PutOne(d: Disk, cells: seq<Option<U64>>, k: nat)
    requires k < |cells| && cells[k].Some?
    ensures PutFrom(d, cells, k) == PutFrom(Put(d, k, cells[k].value), cells, k + 1)
  {
  }

  /** Rows of nine counters, all of them complete except perhaps the last one. */
  ghost predicate OnlyLastBroken(data: seq<Row>) {
    forall i :: 0 <= i < |data| ==>
      |data[i].cells| == COUNTERS && (i < |data| - 1 ==> Complete(data[i]))
  }

  /** Only the last row that reaches the list can lack a counter. */
  lemma {:induction false} LinesBreakOnce(lines: seq<string>, device: Device)
    ensures OnlyLastBroken(DataFor(DeviceLines(lines), device))
  {
    hide Fields, Stoul, Complete;
    if lines != [] && Parse(lines[0]).Device? {
      var first, row := Parse(lines[0]).device, Parse(lines[0]).row;
      var own: seq<Row> := if first == device then [row] else [];
      if Complete(row) {
        LinesBreakOnce(lines[1..], device);
        var later: seq<Row> := DataFor(DeviceLines(lines[1..]), device);
        assert DeviceLines(lines)[1..] == DeviceLines(lines[1..]);
        assert DataFor(DeviceLines(lines), device) == own + later;
        CompleteInFront(own, later);
      } else {
        assert DataFor(DeviceLines(lines), device) == own by {
          assert DeviceLines(lines)[1..] == [];
          assert own + [] == own;
        }
      }
    }
  }

  lemma CompleteInFront(own: seq<Row>, later: seq<Row>)
    requires OnlyLastBroken(own) && OnlyLastBroken(later)
    requires forall i :: 0 <= i < |own| ==> Complete(own[i])
    ensures OnlyLastBroken(own + later)
  {
    hide Complete;
  }

  /** After reading any lines into a list with one entry per device: there is one entry per device,
      listed ones keep their places, new ones follow in the order of their first lines, and a device
      shows the data of its last line. If that line broke off, it shows the new name, the new
      counters before the gap and the old ones from there on. */
  lemma LastLineWins(view: seq<(Device, Disk)>, lines: seq<string>, device: Device) returns (at: seq<nat>)
    requires Distinct(Keys(view))
    ensures FirstPlaces(Keys(view), Keys(DeviceLines(lines)), at)
    ensures var after := UpsertAll(view, DeviceLines(lines), Assign, NO_DISK);
            var data := DataFor(DeviceLines(lines), device);
            && Distinct(Keys(after))
            && Keys(after) == Keys(view) + At(Keys(DeviceLines(lines)), at)
            && (data == [] ==> Get(after, device) == Get(view, device))
            && (data != [] ==>
                  var n := |data| - 1;
                  && |data[n].cells| == COUNTERS
                  && (Complete(data[n]) ==> Get(after, device) == Some(DiskOf(data[n])))
                  && (!Complete(data[n]) && n > 0 ==>
                        && |data[n - 1].cells| == COUNTERS && Complete(data[n - 1])
                        && Get(after, device) == Some(Assign(DiskOf(data[n - 1]), data[n])))
                  && (!Complete(data[n]) && n == 0 ==>
                        Get(after, device) == Some(Advance(Get(view, device), data[n], Assign, NO_DISK))))
  {
    hide DeviceLines, Assign, Complete, FirstPlaces, Distinct, UpsertAll, Find;
    Refines(view, DeviceLines(lines), Assign, NO_DISK, device);
    at := NewKeysInOrder(view, DeviceLines(lines), Assign, NO_DISK);
    LinesBreakOnce(lines, device);
    var data := DataFor(DeviceLines(lines), device);
    if data != [] {
      LastRow(Get(view, device), data);
    }
  }

  lemma LastRow(prior: Option<Disk>, data: seq<Row>)
    requires data != [] && OnlyLastBroken(data)
    ensures var n := |data| - 1;
            var shown := Folded(prior, data, Assign, NO_DISK);
            && (Complete(data[n]) ==> shown == Some(DiskOf(data[n])))
            && (n > 0 ==> shown == Some(Assign(DiskOf(data[n - 1]), data[n])))
            && (n == 0 ==> shown == Some(Advance(prior, data[n], Assign, NO_DISK)))
  {
    hide Assign, Complete, Folded;
    var n := |data| - 1;
    assert data[..n] + [data[n]] == data;
    FoldedSnoc(prior, data[..n], data[n], Assign, NO_DISK);
    var before := Folded(prior, data[..n], Assign, NO_DISK);
    if Complete(data[n]) {
      CompleteRowReplaces(if before.Some? then before.value else NO_DISK, data[n]);
    }
    if n > 0 {
      LastRow(prior, data[..n]);
    } else {
      NothingFolded(prior, data[..n]);
    }
  }

  lemma NothingFolded(prior: Option<Disk>, data: seq<Row>)
    requires data == []
    ensures Folded(prior, data, Assign, NO_DISK) == prior
  {
  }

  // ---- The kernel's side of a line ----

  /** The tokens of a line hold these values at the places where the kernel prints them. */
  ghost predicate Carries(tokens: seq<string>, major: U32, minor: U32, disk: Disk) {
    && |tokens| >= TOKENS
    && tokens[0] == Decimal(major) && tokens[1] == Decimal(minor) && tokens[2] == disk.name
    && tokens[3] == Decimal(disk.counters.readsCompleted)
    && tokens[4] == Decimal(disk.counters.readsMerged)
    && tokens[6] == Decimal(disk.counters.readsSpentMs)
    && tokens[7] == Decimal(disk.counters.writesCompleted)
    && tokens[8] == Decimal(disk.counters.writesMerged)
    && tokens[10] == Decimal(disk.counters.writesSpentMs)
    && tokens[11] == Decimal(disk.counters.ioInProgress)
    && tokens[12] == Decimal(disk.counters.ioSpentMs)
    && tokens[13] == Decimal(disk.counters.ioWeightedMs)
  }

  lemma CellsRead(tokens: seq<string>, major: U32, minor: U32, disk: Disk)
    requires Carries(tokens, major, minor, disk)
    ensures Complete(Row(tokens[2], Cells(tokens))) && DiskOf(Row(tokens[2], Cells(tokens))) == disk
  {
    hide Stoul, Decimal;
    var c := disk.counters;
    StoulOfDecimal(c.readsCompleted);
    StoulOfDecimal(c.readsMerged);
    StoulOfDecimal(c.readsSpentMs);
    StoulOfDecimal(c.writesCompleted);
    StoulOfDecimal(c.writesMerged);
    StoulOfDecimal(c.writesSpentMs);
    StoulOfDecimal(c.ioInProgress);
    StoulOfDecimal(c.ioSpentMs);
    StoulOfDecimal(c.ioWeightedMs);
  }

  /** The round trip: a line of at least 20 tokens gives back device, name and the nine counters,
      whatever the entry held before. */
  lemma DiskRoundTrip(tokens: seq<string>, major: U32, minor: U32, disk: Disk, entry: Disk)
    requires FieldLike(tokens, IsSpace) && Carries(tokens, major, minor, disk)
    ensures var line := Parse(Join(tokens, ' '));
            && line.Device? && line.device == (major, minor)
            && Complete(line.row) && Assign(entry, line.row) == disk
  {
    hide Stoul, Decimal, Cells, Complete, DiskOf, Assign;
    FieldsOfJoin(tokens, ' ', IsSpace);
    CellsRead(tokens, major, minor, disk);
    StoulOfDecimal(major);
    StoulOfDecimal(minor);
    WrapSmall(major);
    WrapSmall(minor);
    NineCells(tokens);
    CompleteRowReplaces(entry, Row(tokens[2], Cells(tokens)));
  }

  lemma NineCells(tokens: seq<string>)
    requires |tokens| >= TOKENS
    ensures |Cells(tokens)| == COUNTERS
  {
  }

  // ---- Lines that end the reading ----

  /** The counters from `k` on are those from before. */
  predicate KeptFrom(c: Counters, before: Counters, k: nat) {
    && (k <= 0 ==> c.readsCompleted == before.readsCompleted)
    && (k <= 1 ==> c.readsMerged == before.readsMerged)
    && (k <= 2 ==> c.readsSpentMs == before.readsSpentMs)
    && (k <= 3 ==> c.writesCompleted == before.writesCompleted)
    && (k <= 4 ==> c.writesMerged == before.writesMerged)
    && (k <= 5 ==> c.writesSpentMs == before.writesSpentMs)
    && (k <= 6 ==> c.ioInProgress == before.ioInProgress)
    && (k <= 7 ==> c.ioSpentMs == before.ioSpentMs)
    && (k <= 8 ==> c.ioWeightedMs == before.ioWeightedMs)
  }

  /** A row with a gap gives the entry its name and the counters before the gap, and leaves the ones from
      the gap on as they were, also those whose tokens are numbers. */
  lemma BrokenRowKeeps(entry: Disk, row: Row, gap: nat)
    requires |row.cells| == COUNTERS && gap < COUNTERS && row.cells[gap].None?
    requires forall k :: 0 <= k < gap ==> row.cells[k].Some?
    ensures var after := Assign(entry, row);
            && after.name == row.name
            && PutSoFar(after.counters, row.cells, gap)
            && KeptFrom(after.counters, entry.counters, gap)
  {
    hide PutFrom;
    var d := entry.(name := row.name);
    for k := 0 to gap
      invariant d.name == row.name && Assign(entry, row) == PutFrom(d, row.cells, k)
      invariant PutSoFar(d.counters, row.cells, k) && KeptFrom(d.counters, entry.counters, k)
    {
      PutOne(d, row.cells, k);
      d := Put(d, k, row.cells[k].value);
    }
    PutNone(d, row.cells, gap);
  }

  /** For a device seen for the first time these are zeros. */
  lemma NewBrokenRow(row: Row, gap: nat)
    requires |row.cells| == COUNTERS && gap < COUNTERS && row.cells[gap].None?
    requires forall k :: 0 <= k < gap ==> row.cells[k].Some?
    ensures var entry := Advance(None, row, Assign, NO_DISK);
            && entry.name == row.name
            && PutSoFar(entry.counters, row.cells, gap)
            && KeptFrom(entry.counters, Counters(0, 0, 0, 0, 0, 0, 0, 0, 0), gap)
  {
    hide PutFrom, PutSoFar;
    BrokenRowKeeps(NO_DISK, row, gap);
  }

  lemma PutNone(d: Disk, cells: seq<Option<U64>>, k: nat)
    requires k < |cells| && cells[k].None?
    ensures PutFrom(d, cells, k) == d
  {
  }

  predicate IsNumber(token: string) { Stoul(token).Some? }

  /** The line has its 20 tokens, and its device numbers are numbers. */
  predicate NamesDevice(line: string) {
    var tokens := Fields(line, IsSpace);
    |tokens| >= 20 && IsNumber(tokens[0]) && IsNumber(tokens[1])
  }

  /** So are its nine counters. */
  predicate Reads(line: string) {
    var tokens := Fields(line, IsSpace);
    && NamesDevice(line)
    && IsNumber(tokens[3]) && IsNumber(tokens[4]) && IsNumber(tokens[6]) && IsNumber(tokens[7])
    && IsNumber(tokens[8]) && IsNumber(tokens[10]) && IsNumber(tokens[11]) && IsNumber(tokens[12])
    && IsNumber(tokens[13])
  }

  lemma ParseReads(line: string)
    ensures Parse(line).Device? <==> NamesDevice(line)
    ensures Parse(line).Device? && Complete(Parse(line).row) <==> Reads(line)
    ensures Parse(line).Short? <==> |Fields(line, IsSpace)| < 20
  {
    hide Fields, Stoul, Wrap32, Complete;
    if Parse(line).Device? {
      CompleteNine(Parse(line).row);
    }
  }

  /** The law on the text of the file: the reading takes every line up to the first one that cannot be
      read whole. It is done if and only if there is none; otherwise it is a parse error when that line is
      too short, and an exception when some token of it is no number. What reaches the list are the lines
      before, and the first part of that line when it names its device. */
  lemma {:induction false} WhereItEnds(lines: seq<string>) returns (n: nat)
    ensures n <= |lines| && (forall i :: 0 <= i < n ==> Reads(lines[i])) && (n < |lines| ==> !Reads(lines[n]))
    ensures OutcomeOf(lines) == if n == |lines| then Done
                                else if |Fields(lines[n], IsSpace)| < 20 then ParseError else Threw
    ensures |DeviceLines(lines)| == n + if n < |lines| && NamesDevice(lines[n]) then 1 else 0
    ensures forall i :: 0 <= i < |DeviceLines(lines)| ==>
              i < |lines| && Parse(lines[i]).Device?
              && DeviceLines(lines)[i] == (Parse(lines[i]).device, Parse(lines[i]).row)
  {
    hide Parse, Reads, NamesDevice, Complete, Fields;
    n := 0;
    if lines != [] {
      ParseReads(lines[0]);
      if Reads(lines[0]) {
        n := WhereItEnds(lines[1..]);
        n := n + 1;
      }
    }
  }
}
