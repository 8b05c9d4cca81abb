/**
 * The rows of an article table, the conversion of their `timestamp` column
 * (`pd.to_datetime`) and the descending sort (`sort_values(ascending=False)`).
 */
module ArticleTable {
  import opened Wrappers
  import opened RevisionParser

  /** A table row: the revision record tagged with the names of the year and
      month directories holding its file. */
  datatype Row = Row(revision: Revision, year: string, month: string)

  /** The exceptions that abort a whole article. */
  datatype Exception =
    | ZeroBatchSize                        // `range()` with a step of 0 raises ValueError
    | UnparsableTimestamp(text: string)    // `pd.to_datetime` rejects a timestamp string

  /** A row after conversion: its timestamp as datetime64 nanoseconds, `None`
      standing for NaT (no timestamp, or one pandas reads as missing), and the row. */
  datatype TableRow = TableRow(time: Option<int>, row: Row)

  /** What `pd.to_datetime` reads in one timestamp string: a datetime
      (datetime64 nanoseconds); NaT, for the empty string and the spellings
      pandas takes for a missing value such as `NaT`; or nothing it can
      parse, which raises. */
  datatype TimeReading = Instant(ns: int) | NotATime | Unparsable

  /** The converted value of one row's timestamp: `Ok(None)` stands for NaT. */
  function ConvertOne(r: Row, parseTime: string -> TimeReading): (t: Result<Option<int>, Exception>)
    ensures t.Err? <==> r.revision.timestamp.Some? && parseTime(r.revision.timestamp.value).Unparsable?
    ensures t.Err? ==> t.error == UnparsableTimestamp(r.revision.timestamp.value)
    ensures t == Ok(None) <==> r.revision.timestamp.None? || parseTime(r.revision.timestamp.value).NotATime?
    ensures t.Ok? && t.value.Some? ==> parseTime(r.revision.timestamp.value) == Instant(t.value.value)
  {
    match r.revision.timestamp
    case None => Ok(None)
    case Some(text) =>
      match parseTime(text)
      case Instant(t) => Ok(Some(t))
      case NotATime => Ok(None)
      case Unparsable => Err(UnparsableTimestamp(text))
  }

  /** `pd.to_datetime` over the whole column: it succeeds only when every
      present timestamp parses, and then keeps rows and order. */
  function ToDatetime(rows: seq<Row>, parseTime: string -> TimeReading): (r: Result<seq<TableRow>, Exception>)
    ensures r.Ok? <==> forall i :: 0 <= i < |rows| ==> ConvertOne(rows[i], parseTime).Ok?
    ensures r.Ok? ==> |r.value| == |rows|
    ensures r.Ok? ==> forall i :: 0 <= i < |rows| ==>
      r.value[i].row == rows[i] && Ok(r.value[i].time) == ConvertOne(rows[i], parseTime)
    ensures r.Err? ==> exists i :: 0 <= i < |rows| && ConvertOne(rows[i], parseTime) == Err(r.error)
  {
    if rows == [] then Ok([])
    else
      match ConvertOne(rows[0], parseTime)
      case Err(e) => Err(e)
      case Ok(t) =>
        match ToDatetime(rows[1..], parseTime)
        case Err(e) => Err(e)
        case Ok(rest) => Ok([TableRow(t, rows[0])] + rest)
  }

  /** Timestamps that are missing, or present but read as missing (an empty
      `<timestamp/>` gives ""), convert to NaT without raising. */
  lemma MissingTimesGiveNaT(rows: seq<Row>, parseTime: string -> TimeReading)
    requires forall i :: 0 <= i < |rows| ==>
      rows[i].revision.timestamp.None? || parseTime(rows[i].revision.timestamp.value).NotATime?
    ensures ToDatetime(rows, parseTime).Ok?
    ensures forall i :: 0 <= i < |rows| ==> ToDatetime(rows, parseTime).value[i].time.None?
  {
  }

  /** Whether a row with time `a` may stand before one with time `b` in the
      descending order: later times first, NaT after every datetime. */
  predicate Precedes(a: Option<int>, b: Option<int>)
  {
    match (a, b)
    case (_, None) => true
    case (None, Some(_)) => false
    case (Some(x), Some(y)) => x >= y
  }

  /** Non-increasing by time, NaT rows last. Rows with equal times may come in any order. */
  predicate SortedDescending(t: seq<TableRow>)
  {
    forall i, j :: 0 <= i < j < |t| ==> Precedes(t[i].time, t[j].time)
  }

  /** A row that may precede the first row of a descending table may precede all of it. */
  lemma ConsSorted(a: TableRow, t: seq<TableRow>)
    requires SortedDescending(t)
    requires t != [] ==> Precedes(a.time, t[0].time)
    ensures SortedDescending([a] + t)
  {
    forall i, j | 0 <= i < j < |[a] + t| ensures Precedes(([a] + t)[i].time, ([a] + t)[j].time) {
      if i == 0 && j > 1 {
        assert Precedes(t[0].time, t[j - 1].time);
      }
    }
  }

  /** Places `x` into a descending table before the first row it may precede. */
  function Insert(x: TableRow, t: seq<TableRow>): (r: seq<TableRow>)
    requires SortedDescending(t)
    ensures SortedDescending(r)
    ensures multiset(r) == multiset(t) + multiset{x}
    ensures r[0] == x || (t != [] && r[0] == t[0])
  {
    if t == [] then [x]
    else if Precedes(x.time, t[0].time) then
      ConsSorted(x, t);
      [x] + t
    else
      var rest := Insert(x, t[1..]);
      assert t == [t[0]] + t[1..];
      ConsSorted(t[0], rest);
      [t[0]] + rest
  }

  /** The table sorted by time, descending (the sort `sort_values` performs;
      which of several rows with equal times comes first is not promised). */
  function SortDescending(t: seq<TableRow>): (r: seq<TableRow>)
    ensures SortedDescending(r)
    ensures multiset(r) == multiset(t)
  {
    if t == [] then []
    else
      assert t == [t[0]] + t[1..];
      Insert(t[0], SortDescending(t[1..]))
  }

  /** A descending arrangement of two rows with distinct datetimes has the later one first. */
  lemma OnlyDescendingPair(r: seq<TableRow>, older: TableRow, newer: TableRow)
    requires older.time.Some? && newer.time.Some? && older.time.value < newer.time.value
    requires multiset(r) == multiset{older, newer} && SortedDescending(r)
    ensures r == [newer, older]
  {
    assert |r| == 2;
    assert r == [r[0], r[1]];
    assert multiset{r[0], r[1]} == multiset{older, newer};
    assert Precedes(r[0].time, r[1].time);
  }

  /** Of two rows with distinct datetimes, the later one comes first
      whatever order they arrived in. */
  lemma NewerFirst(older: TableRow, newer: TableRow)
    requires older.time.Some? && newer.time.Some? && older.time.value < newer.time.value
    ensures SortDescending([older, newer]) == [newer, older]
    ensures SortDescending([newer, older]) == [newer, older]
  {
    assert multiset([older, newer]) == multiset{older, newer} == multiset([newer, older]);
    OnlyDescendingPair(SortDescending([older, newer]), older, newer);
    OnlyDescendingPair(SortDescending([newer, older]), older, newer);
  }
}
