/**
 * The container listing: raw engine records are decoded into containers in one
 * all-or-nothing pass, and only then rendered as a header row and one row of five
 * cells per container. Column alignment is not modelled; a row is its five cells.
 *
 * JSON decoding, timestamp parsing and the container naming convention are
 * foreign functions; `Library` carries them as uninterpreted parameters.
 */
module Listing {
  import opened Basics
  import opened Engine

  /** One engine record: the container's name, its state, and its creation time as reported. */
  datatype Container = Container(name: string, state: string, createdAt: string)

  type Year = y: int | 0 <= y <= 9999
  type Month = m: int | 1 <= m <= 12 witness 1
  type Day = d: int | 1 <= d <= 31 witness 1
  type Hour = h: int | 0 <= h <= 23
  type Sixty = m: int | 0 <= m <= 59

  /**
   * A time read against the layout `2006-01-02 15:04:05 -0700 MST`: the wall-clock
   * fields as written, the numeric offset and the zone abbreviation.
   */
  datatype DateTime = DateTime(
    year: Year, month: Month, day: Day, hour: Hour, minute: Sixty, second: Sixty,
    offset: int, zone: string)

  /**
   * The foreign functions: the record decoder, the timestamp parser for the fixed
   * layout (`None` when the text does not match it), and the derivation of the
   * project and service names from a container name.
   */
  datatype Library = Library(
    decode: string -> Option<Container>,
    parseTime: string -> Option<DateTime>,
    projectName: string -> string,
    serviceName: string -> string)

  // ---------------------------------------------------------------------------
  // Decoding

  /** Index of the first record that does not decode; |recs| when all do. */
  function FirstUndecodable(decode: string -> Option<Container>, recs: seq<string>): (i: nat)
    ensures i <= |recs|
    ensures forall j :: 0 <= j < i ==> decode(recs[j]).Some?
    ensures i < |recs| ==> decode(recs[i]).None?
    decreases |recs|
  {
    if recs == [] || decode(recs[0]).None? then 0 else 1 + FirstUndecodable(decode, recs[1..])
  }

  /**
   * Decoding is all or nothing: one container per record, in record order, when
   * every record decodes; otherwise the error of the first record that does not
   * and no containers at all.
   */
  function DecodeAll(decode: string -> Option<Container>, recs: seq<string>): (r: Result<seq<Container>, Error>)
    ensures r.Ok? <==> forall j :: 0 <= j < |recs| ==> decode(recs[j]).Some?
    ensures r.Ok? ==> |r.value| == |recs| && forall j :: 0 <= j < |recs| ==> decode(recs[j]) == Some(r.value[j])
    ensures r.Err? ==> && r.error.BadRecord? && r.error.index < |recs|
                       && decode(recs[r.error.index]).None?
                       && forall j :: 0 <= j < r.error.index ==> decode(recs[j]).Some?
  {
    var i := FirstUndecodable(decode, recs);
    if i < |recs| then Err(BadRecord(i))
    else Ok(seq(|recs|, j requires 0 <= j < |recs| => decode(recs[j]).value))
  }

  // ---------------------------------------------------------------------------
  // Cells

  /** The emphasis a cell is printed with. */
  datatype Style = Bold | Normal | Green

  datatype Cell = Cell(style: Style, text: string)

  /** Container name, project, service, state, creation time. */
  datatype Row = Row(name: Cell, project: Cell, service: Cell, state: Cell, createdAt: Cell)

  /** The state column: green for exactly "running", plain for every other state. */
  function ColorState(state: string): (c: Cell)
    ensures c.text == state
    ensures c.style == Green <==> state == "running"
    ensures c.style != Green ==> c.style == Normal
  {
    match state
    case "running" => Cell(Green, state)
    case _ => Cell(Normal, state)
  }

  // ---------------------------------------------------------------------------
  // Timestamps

  function DigitChar(d: int): char
    requires 0 <= d <= 9
  {
    (48 + d) as char
  }

  /** A number below 100 as two digits, zero-padded. */
  function Two(n: int): string
    requires 0 <= n <= 99
  {
    [DigitChar(n / 10), DigitChar(n % 10)]
  }

  /** A number below 10000 as four digits, zero-padded. */
  function Four(n: int): string
    requires 0 <= n <= 9999
  {
    Two(n / 100) + Two(n % 100)
  }

  /** The `2006-01-02 15:04` rendering: date, hour and minute, without seconds or zone. */
  function Render(t: DateTime): string {
    Four(t.year) + "-" + Two(t.month) + "-" + Two(t.day) + " " + Two(t.hour) + ":" + Two(t.minute)
  }

  /** A time to the minute, as a `YYYY-MM-DD HH:MM` text denotes it. */
  datatype Stamp = Stamp(year: int, month: int, day: int, hour: int, minute: int)

  function MinuteOf(t: DateTime): Stamp {
    Stamp(t.year, t.month, t.day, t.hour, t.minute)
  }

  predicate IsDigit(c: char) {
    '0' <= c <= '9'
  }

  predicate AllDigits(s: string) {
    forall i :: 0 <= i < |s| ==> IsDigit(s[i])
  }

  /** The decimal value of a string of digits. */
  function Number(s: string): nat
    requires AllDigits(s)
    decreases |s|
  {
    if s == [] then 0 else 10 * Number(s[..|s| - 1]) + (s[|s| - 1] as int - 48)
  }

  /** `DDDD-DD-DD DD:DD` */
  predicate StampShaped(s: string) {
    && |s| == 16
    && s[4] == '-' && s[7] == '-' && s[10] == ' ' && s[13] == ':'
    && AllDigits(s[0..4]) && AllDigits(s[5..7]) && AllDigits(s[8..10])
    && AllDigits(s[11..13]) && AllDigits(s[14..16])
  }

  /** Reads a `YYYY-MM-DD HH:MM` text back; `None` for any other text. */
  function ReadStamp(s: string): Option<Stamp> {
    if StampShaped(s) then
      Some(Stamp(Number(s[0..4]), Number(s[5..7]), Number(s[8..10]), Number(s[11..13]), Number(s[14..16])))
    else None
  }

  lemma NumberTwo(n: int)
    requires 0 <= n <= 99
    ensures AllDigits(Two(n)) && Number(Two(n)) == n
  {
    var s := Two(n);
    assert s[..1] == [DigitChar(n / 10)];
    assert s[..1][..0] == [];
    assert Number(s[..1]) == n / 10;
    assert Number(s) == 10 * (n / 10) + n % 10;
  }

  lemma NumberFour(n: int)
    requires 0 <= n <= 9999
    ensures AllDigits(Four(n)) && Number(Four(n)) == n
  {
    var hi, lo := Two(n / 100), Two(n % 100);
    NumberTwo(n / 100);
    NumberTwo(n % 100);
    var s := hi + lo;
    assert s[..3] == hi + [lo[0]];
    assert s[..3][..2] == hi;
    assert [lo[0]][..0] == [];
    assert lo[..1] == [lo[0]];
    assert Number([lo[0]]) == 10 * Number([lo[0]][..0]) + (lo[0] as int - 48);
    assert Number(s[..3]) == 10 * Number(hi) + Number(lo[..1]);
  }

  /** The rendering reads back as the time to the minute it came from. */
  lemma ReadRender(t: DateTime)
    ensures ReadStamp(Render(t)) == Some(MinuteOf(t))
  {
    var s := Render(t);
    NumberFour(t.year);
    NumberTwo(t.month);
    NumberTwo(t.day);
    NumberTwo(t.hour);
    NumberTwo(t.minute);
    assert s[0..4] == Four(t.year);
    assert s[5..7] == Two(t.month);
    assert s[8..10] == Two(t.day);
    assert s[11..13] == Two(t.hour);
    assert s[14..16] == Two(t.minute);
  }

  /** The creation-time column: a parsed time is rendered to the minute, anything else shown as is. */
  function FormatTime(parse: string -> Option<DateTime>, s: string): string {
    match parse(s)
    case None => s
    case Some(t) => Render(t)
  }

  /**
   * The creation-time column never fails: text the parser rejects is shown
   * unchanged, and a parsed time is shown as a `YYYY-MM-DD HH:MM` stamp that
   * reads back as that time to the minute.
   */
  lemma FormatTimeReadsBack(parse: string -> Option<DateTime>, s: string)
    ensures parse(s).None? ==> FormatTime(parse, s) == s
    ensures parse(s).Some? ==> ReadStamp(FormatTime(parse, s)) == Some(MinuteOf(parse(s).value))
  {
    if parse(s).Some? {
      ReadRender(parse(s).value);
    }
  }

  // ---------------------------------------------------------------------------
  // Table

  function Header(): Row {
    Row(Cell(Bold, "Container name"), Cell(Bold, "Project"), Cell(Bold, "Service"),
        Cell(Bold, "State"), Cell(Bold, "Created at"))
  }

  function RowOf(lib: Library, c: Container): Row {
    Row(Cell(Normal, c.name),
        Cell(Normal, lib.projectName(c.name)),
        Cell(Normal, lib.serviceName(c.name)),
        ColorState(c.state),
        Cell(Normal, FormatTime(lib.parseTime, c.createdAt)))
  }

  function Rows(lib: Library, cs: seq<Container>): seq<Row>
    decreases |cs|
  {
    if cs == [] then [] else Rows(lib, cs[..|cs| - 1]) + [RowOf(lib, cs[|cs| - 1])]
  }

  /** One row per container, in container order. */
  lemma {:induction false} RowsOneEach(lib: Library, cs: seq<Container>)
    ensures |Rows(lib, cs)| == |cs|
    ensures forall i :: 0 <= i < |cs| ==> Rows(lib, cs)[i] == RowOf(lib, cs[i])
    decreases |cs|
  {
    if cs != [] {
      var n := |cs| - 1;
      RowsOneEach(lib, cs[..n]);
      forall i | 0 <= i < n
        ensures Rows(lib, cs)[i] == RowOf(lib, cs[i])
      {
        assert cs[..n][i] == cs[i];
      }
    }
  }

  // ---------------------------------------------------------------------------
  // The pipeline

  /** Query the engine for records, then decode them all. */
  function FetchContainers(lib: Library, o: Oracle, w: World): (Result<seq<Container>, Error>, World) {
    var q := FetchedRecords(o, w);
    match q.0
    case Err(e) => (Err(e), q.1)
    case Ok(recs) => (DecodeAll(lib.decode, recs), q.1)
  }

  /** The listing's result, the world after it, and the rows it writes. */
  function ListContainers(lib: Library, o: Oracle, w: World): (Option<Error>, World, seq<Row>) {
    var q := FetchContainers(lib, o, w);
    match q.0
    case Err(e) => (Some(e), q.1, [])
    case Ok(cs) => if cs == [] then (None, q.1, []) else (None, q.1, [Header()] + Rows(lib, cs))
  }

  /**
   * A failed query or an undecodable record is the listing's error, and then not
   * a single row is written, not even the header. The listing only ever queries.
   */
  lemma ListContainersFailsBeforeWriting(lib: Library, o: Oracle, w: World)
    ensures var (e, w', rows) := ListContainers(lib, o, w);
            var k := |w.trace|;
            var recs := o.records(k);
            && w' == w.(trace := w.trace + [QueryContainers])
            && (!o.ok(k) ==> e == Some(Failed(k)) && rows == [])
            && (o.ok(k) && (exists j :: 0 <= j < |recs| && lib.decode(recs[j]).None?) ==>
                  e.Some? && e.value.BadRecord? && lib.decode(recs[e.value.index]).None? && rows == [])
            && (e.Some? ==> rows == [])
  {
  }

  /** Zero records: success, and nothing is written. */
  lemma ListContainersSilentWhenEmpty(lib: Library, o: Oracle, w: World)
    requires o.ok(|w.trace|) && o.records(|w.trace|) == []
    ensures var (e, w', rows) := ListContainers(lib, o, w);
            e.None? && rows == []
  {
  }

  /**
   * Otherwise the header comes first and then exactly one row per record, in
   * record order: name, project, service, coloured state and formatted time.
   */
  lemma ListContainersWritesOneRowEach(lib: Library, o: Oracle, w: World)
    requires o.ok(|w.trace|)
    requires forall j :: 0 <= j < |o.records(|w.trace|)| ==> lib.decode(o.records(|w.trace|)[j]).Some?
    ensures var (e, w', rows) := ListContainers(lib, o, w);
            var recs := o.records(|w.trace|);
            && e.None?
            && |rows| == (if recs == [] then 0 else |recs| + 1)
            && (recs != [] ==> rows[0] == Header())
            && forall j :: 0 <= j < |recs| ==> rows[j + 1] == RowOf(lib, lib.decode(recs[j]).value)
  {
    var recs := o.records(|w.trace|);
    var d := DecodeAll(lib.decode, recs);
    assert d.Ok?;
    var cs := d.value;
    var rows := ListContainers(lib, o, w).2;
    assert rows == (if cs == [] then [] else [Header()] + Rows(lib, cs));
    RowsOneEach(lib, cs);
    forall j | 0 <= j < |recs|
      ensures rows[j + 1] == RowOf(lib, lib.decode(recs[j]).value)
    {
      assert lib.decode(recs[j]).value == cs[j];
    }
  }
}
