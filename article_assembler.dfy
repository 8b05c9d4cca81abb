/**
 * `process_article_directory`: discover the files, read them batch by
 * batch, keep the non-empty batch tables, concatenate, convert the
 * timestamps and sort.
 */
module ArticleAssembler {
  import opened Wrappers
  import opened XmlTree
  import opened RevisionParser
  import opened ArticleFiles
  import opened Batching
  import opened ArticleTable

  /** `path.parent.name` taken `k` times up: the name `k` levels above the
      last component; above the first component pathlib gives `.`, whose name is empty. */
  function AncestorName(path: seq<string>, k: nat): string
  {
    if k < |path| then path[|path| - 1 - k] else ""
  }

  /** Going `|below|` parents up from `dirPath/name/below...` reaches `name`;
      going up past the first component reaches `.`, whose name is empty. */
  lemma AncestorNameOf(dirPath: seq<string>, name: string, below: seq<string>)
    ensures AncestorName(dirPath + [name] + below, |below|) == name
    ensures AncestorName(below, |below|) == ""
  {
  }

  /** One line printed by `Error processing <path>: <message>`. */
  datatype LogLine = LogLine(path: seq<string>, reason: string)

  /** The rows one file adds: its record tagged with year (grandparent
      directory) and month (parent directory), or nothing when reading
      failed or the document has no revision. */
  function FileRows(f: XmlFile, includeText: bool): (r: seq<Row>)
    ensures |r| <= 1
    ensures r != [] <==> f.load.Parsed? && HasNamed(Descendants(f.load.doc), "revision")
    ensures r != [] ==> Some(r[0].revision) == ParseRevision(f.load.doc, includeText)
    ensures r != [] ==> r[0].year == AncestorName(f.path, 2) && r[0].month == AncestorName(f.path, 1)
  {
    match f.load
    case Failed(_) => []
    case Parsed(doc) =>
      match ParseRevision(doc, includeText)
      case None => []
      case Some(data) => [Row(data, AncestorName(f.path, 2), AncestorName(f.path, 1))]
  }

  /** The error line one file prints: only a failed read or parse prints one. */
  function FileLog(f: XmlFile): (r: seq<LogLine>)
    ensures r != [] <==> f.load.Failed?
    ensures r != [] ==> r == [LogLine(f.path, f.load.reason)]
  {
    match f.load
    case Failed(reason) => [LogLine(f.path, reason)]
    case Parsed(_) => []
  }

  /** `FileRows` for a fixed `include_text`, as a value. */
  function RowsOfFile(includeText: bool): XmlFile -> seq<Row>
  {
    f => FileRows(f, includeText)
  }

  /** The rows of a list of files, in list order. */
  function Rows(files: seq<XmlFile>, includeText: bool): seq<Row>
  {
    FlatMap(files, RowsOfFile(includeText))
  }

  /** The error lines of a list of files, in list order. */
  function Log(files: seq<XmlFile>): seq<LogLine>
  {
    FlatMap(files, FileLog)
  }

  /** The batch tables that are kept: one per batch, in order, except
      batches in which no file produced a row. */
  function KeptTables(batches: seq<seq<XmlFile>>, includeText: bool): seq<seq<Row>>
  {
    if batches == [] then []
    else
      var table := Rows(batches[0], includeText);
      (if table == [] then [] else [table]) + KeptTables(batches[1..], includeText)
  }

  /** Kept tables are never empty, and together they hold exactly the rows
      of all the batched files, in order. */
  lemma {:induction false} KeptTablesRows(batches: seq<seq<XmlFile>>, includeText: bool)
    ensures Flatten(KeptTables(batches, includeText)) == Rows(Flatten(batches), includeText)
    ensures forall k :: 0 <= k < |KeptTables(batches, includeText)| ==> KeptTables(batches, includeText)[k] != []
  {
    if batches != [] {
      var table := Rows(batches[0], includeText);
      var head := if table == [] then [] else [table];
      var rest := KeptTables(batches[1..], includeText);
      KeptTablesRows(batches[1..], includeText);
      FlattenConcat(head, rest);
      FlatMapConcat(batches[0], Flatten(batches[1..]), RowsOfFile(includeText));
      assert Flatten(head) == table by {
        if table != [] {
          assert head[1..] == [];
        }
      }
    }
  }

  /** Batching is transparent: whatever the batch size, the kept batch
      tables concatenate to the rows of the whole file list in order. */
  lemma BatchingTransparent(files: seq<XmlFile>, size: nat, includeText: bool)
    requires size > 0
    ensures Flatten(KeptTables(Batches(files, size), includeText)) == Rows(files, includeText)
  {
    KeptTablesRows(Batches(files, size), includeText);
    BatchesPartition(files, size);
  }

  /** Hence two batch sizes give the same rows before sorting. */
  lemma BatchSizeIrrelevant(files: seq<XmlFile>, size1: nat, size2: nat, includeText: bool)
    requires size1 > 0 && size2 > 0
    ensures Flatten(KeptTables(Batches(files, size1), includeText)) == Flatten(KeptTables(Batches(files, size2), includeText))
  {
    BatchingTransparent(files, size1, includeText);
    BatchingTransparent(files, size2, includeText);
  }

  /** No table is kept exactly when no file produced a row. */
  lemma NoTablesIffNoRows(files: seq<XmlFile>, size: nat, includeText: bool)
    requires size > 0
    ensures KeptTables(Batches(files, size), includeText) == [] <==> Rows(files, includeText) == []
  {
    var kept := KeptTables(Batches(files, size), includeText);
    BatchingTransparent(files, size, includeText);
    KeptTablesRows(Batches(files, size), includeText);
    if kept != [] {
      assert kept[0] != [];
      assert kept == [kept[0]] + kept[1..];
      FlattenConcat([kept[0]], kept[1..]);
      assert Flatten([kept[0]]) == kept[0] + Flatten([kept[0]][1..]);
    }
  }

  /** A file whose read or parse failed adds no row, prints one error line,
      and leaves the rows of the other files as they would be without it. */
  lemma FaultIsolation(files: seq<XmlFile>, k: nat, includeText: bool)
    requires k < |files| && files[k].load.Failed?
    ensures Rows(files, includeText) == Rows(files[..k] + files[k + 1..], includeText)
    ensures Log(files) == Log(files[..k]) + [LogLine(files[k].path, files[k].load.reason)] + Log(files[k + 1..])
  {
    assert RowsOfFile(includeText)(files[k]) == [];
    FlatMapSkip(files, k, RowsOfFile(includeText));
    FlatMapSplitAt(files, k, FileLog);
  }

  /** A readable document without a revision adds no row and prints nothing. */
  lemma NoRevisionIsSilent(files: seq<XmlFile>, k: nat, includeText: bool)
    requires k < |files| && files[k].load.Parsed?
    requires ParseRevision(files[k].load.doc, includeText).None?
    ensures Rows(files, includeText) == Rows(files[..k] + files[k + 1..], includeText)
    ensures Log(files) == Log(files[..k] + files[k + 1..])
  {
    assert RowsOfFile(includeText)(files[k]) == [];
    FlatMapSkip(files, k, RowsOfFile(includeText));
    FlatMapSkip(files, k, FileLog);
  }

  /** A document with a revision adds exactly one row, at its place in file
      order, tagged with its grandparent and parent directory names. */
  lemma OneRowPerRevision(files: seq<XmlFile>, k: nat, includeText: bool)
    requires k < |files| && files[k].load.Parsed?
    requires ParseRevision(files[k].load.doc, includeText).Some?
    ensures var f := files[k];
      Rows(files, includeText) ==
        Rows(files[..k], includeText)
        + [Row(ParseRevision(f.load.doc, includeText).value, AncestorName(f.path, 2), AncestorName(f.path, 1))]
        + Rows(files[k + 1..], includeText)
  {
    FlatMapSplitAt(files, k, RowsOfFile(includeText));
  }

  /** The rows of discovered files carry the names of the year and month
      directories the files were found in. */
  lemma DiscoveredRowsTagged(entries: seq<Entry>, articlePath: seq<string>, k: nat, includeText: bool)
    requires k < |Discovered(entries, articlePath)|
    ensures |Discovered(entries, articlePath)[k].path| == |articlePath| + 3
    ensures var f := Discovered(entries, articlePath)[k];
      forall row :: row in FileRows(f, includeText) ==>
        && row.year == f.path[|articlePath|]
        && row.month == f.path[|articlePath| + 1]
  {
    var f := Discovered(entries, articlePath)[k];
    DiscoveredShape(entries, articlePath);
    assert f in Discovered(entries, articlePath);
    assert FoundBelow(f, articlePath, 2);
  }

  /** What the batches from offset `i` on keep: the table of the batch at
      `i` when it has rows, then what the batches after it keep. */
  lemma {:induction false} KeptFrom(files: seq<XmlFile>, i: nat, size: nat, includeText: bool)
    requires size > 0 && i < |files|
    ensures var end := Min(i + size, |files|);
      var table := Rows(files[i..end], includeText);
      KeptTables(Batches(files[i..], size), includeText)
        == (if table == [] then [] else [table]) + KeptTables(Batches(files[end..], size), includeText)
  {
    var end := Min(i + size, |files|);
    assert files[i..][..Min(size, |files| - i)] == files[i..end];
    assert files[i..][Min(size, |files| - i)..] == files[end..];
  }

  /** The outer loop's step: appending the batch's table when it has rows
      keeps the loop invariant on the kept tables. */
  lemma KeepStep(
    files: seq<XmlFile>, i: nat, size: nat, includeText: bool,
    dataframes: seq<seq<Row>>, revisionData: seq<Row>)
    requires size > 0 && i < |files|
    requires dataframes + KeptTables(Batches(files[i..], size), includeText) == KeptTables(Batches(files, size), includeText)
    requires revisionData == Rows(files[i..Min(i + size, |files|)], includeText)
    ensures var kept := if revisionData != [] then dataframes + [revisionData] else dataframes;
      kept + KeptTables(Batches(files[Min(i + size, |files|)..], size), includeText) == KeptTables(Batches(files, size), includeText)
  {
    KeptFrom(files, i, size, includeText);
    KeepTable(dataframes, revisionData, KeptTables(Batches(files[Min(i + size, |files|)..], size), includeText));
  }

  lemma KeepTable<T>(acc: seq<seq<T>>, table: seq<T>, later: seq<seq<T>>)
    ensures (if table != [] then acc + [table] else acc) + later
      == acc + ((if table == [] then [] else [table]) + later)
  {
  }

  /** The inner loop over one batch's files: read each, skip the ones that
      raise (printing an error line), drop documents without a revision,
      and tag each record with its year and month. */
  method ReadBatch(batch: seq<XmlFile>, includeText: bool) returns (revisionData: seq<Row>, errors: seq<LogLine>)
    ensures revisionData == Rows(batch, includeText)
    ensures errors == Log(batch)
  {
    revisionData, errors := [], [];
    for j := 0 to |batch|
      invariant revisionData == Rows(batch[..j], includeText)
      invariant errors == Log(batch[..j])
    {
      var filePath := batch[j];
      FlatMapSnoc(batch, j, RowsOfFile(includeText));
      FlatMapSnoc(batch, j, FileLog);
      match filePath.load
      case Failed(reason) =>
        errors := errors + [LogLine(filePath.path, reason)];
      case Parsed(doc) =>
        var data := ParseRevision(doc, includeText);
        if data.Some? {
          revisionData := revisionData + [Row(data.value, AncestorName(filePath.path, 2), AncestorName(filePath.path, 1))];
        }
    }
    assert batch[..|batch|] == batch;
  }

  /** The outer loop over batch offsets `range(0, len(xml_files), batch_size)`
      with the inner loop over each batch's files. */
  method AccumulateBatches(xmlFiles: seq<XmlFile>, batchSize: int, includeText: bool)
    returns (r: Result<seq<seq<Row>>, Exception>, log: seq<LogLine>)
    ensures batchSize == 0 ==> r == Err(ZeroBatchSize) && log == []
    ensures batchSize < 0 ==> r == Ok([]) && log == []
    ensures batchSize > 0 ==> r == Ok(KeptTables(Batches(xmlFiles, batchSize), includeText)) && log == Log(xmlFiles)
  {
    log := [];
    if batchSize == 0 {
      return Err(ZeroBatchSize), log;
    }
    if batchSize < 0 {
      // `range(0, n, step)` with a negative step and `n >= 0` is empty
      return Ok([]), log;
    }
    var n := |xmlFiles|;
    var dataframes: seq<seq<Row>> := [];
    var i := 0;
    while i < n
      invariant 0 <= i <= n
      invariant dataframes + KeptTables(Batches(xmlFiles[i..], batchSize), includeText)
        == KeptTables(Batches(xmlFiles, batchSize), includeText)
      invariant log + Log(xmlFiles[i..]) == Log(xmlFiles)
      decreases n - i
    {
      var end := Min(i + batchSize, n);
      var batch := xmlFiles[i..end];
      var revisionData, errors := ReadBatch(batch, includeText);
      KeepStep(xmlFiles, i, batchSize, includeText, dataframes, revisionData);
      FlatMapStep(xmlFiles, i, end, FileLog, log, errors);
      log := log + errors;
      if revisionData != [] {
        dataframes := dataframes + [revisionData];
      }
      i := end;
    }
    assert xmlFiles[i..] == [];
    assert KeptTables(Batches(xmlFiles[i..], batchSize), includeText) == [];
    assert Log(xmlFiles[i..]) == [];
    assert dataframes + [] == dataframes && log + [] == log;
    r := Ok(dataframes);
  }

  /** The outcome for one article directory: the sorted table, no table
      (`None`), or an exception that aborts the run. */
  datatype ArticleResult = Table(rows: seq<TableRow>) | NoTable | Raises(error: Exception)

  /** `process_article_directory`. The table, when there is one, depends on
      the batch size only through its sign: it is a descending sort of the
      converted rows of all discovered files. */
  method ProcessArticleDirectory(
    articleEntries: seq<Entry>, articlePath: seq<string>,
    batchSize: int, includeText: bool, parseTime: string -> TimeReading)
    returns (result: ArticleResult, log: seq<LogLine>)
    ensures var files := Discovered(articleEntries, articlePath);
      && (result.NoTable? <==>
            files == [] || batchSize < 0 || (batchSize > 0 && Rows(files, includeText) == []))
      && (files == [] || batchSize <= 0 ==> log == [])
      && (files != [] && batchSize > 0 ==> log == Log(files))
      && (result == Raises(ZeroBatchSize) <==> files != [] && batchSize == 0)
      && (result.Raises? && batchSize != 0 ==>
            ToDatetime(Rows(files, includeText), parseTime) == Err(result.error))
      && (files != [] && batchSize > 0 && Rows(files, includeText) != [] ==>
            (result.Table? <==> ToDatetime(Rows(files, includeText), parseTime).Ok?))
      && (result.Table? ==>
            && ToDatetime(Rows(files, includeText), parseTime).Ok?
            && SortedDescending(result.rows)
            && multiset(result.rows) == multiset(ToDatetime(Rows(files, includeText), parseTime).value))
  {
    var xmlFiles := DiscoverXmlFiles(articleEntries, articlePath);
    log := [];
    if xmlFiles == [] {
      return NoTable, log;
    }
    var batched;
    batched, log := AccumulateBatches(xmlFiles, batchSize, includeText);
    match batched
    case Err(e) =>
      result := Raises(e);
    case Ok(dataframes) =>
      if batchSize > 0 {
        NoTablesIffNoRows(xmlFiles, batchSize, includeText);
      }
      if dataframes == [] {
        return NoTable, log;
      }
      BatchingTransparent(xmlFiles, batchSize, includeText);
      var finalDf := Flatten(dataframes);
      match ToDatetime(finalDf, parseTime)
      case Err(e) =>
        result := Raises(e);
      case Ok(converted) =>
        result := Table(SortDescending(converted));
  }
}
