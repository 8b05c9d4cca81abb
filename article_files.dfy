/**
 * The directory layout `<article>/<year>/<month>/<name>.xml` and the discovery of
 * an article's revision files (the nested loops that fill `xml_files`).
 */
module ArticleFiles {
  import opened XmlTree

  /** What reading and parsing one file gives: the parsed document, or the
      message of the exception that `read_text` or the parser raised. */
  datatype Load = Parsed(doc: Element) | Failed(reason: string)

  /** A directory entry as listed by `iterdir`, in listing order. A directory
      carries the message of the exception `read_text` raises on it (on POSIX
      `[Errno 21] Is a directory: '<path>'`); that message is the one printed
      when the glob matches a directory. */
  datatype Entry =
    | File(name: string, load: Load)
    | Dir(name: string, entries: seq<Entry>, readError: string)

  /** A discovered file: its path as components, and what reading it gives. */
  datatype XmlFile = XmlFile(path: seq<string>, load: Load)

  /** The pattern `*.xml`: any name ending in `.xml`, directories included. */
  predicate MatchesXmlGlob(name: string)
  {
    |name| >= 4 && name[|name| - 4..] == ".xml"
  }

  /** `*.xml` matches exactly the names made of any stem, the empty one
      and one starting with a dot included, followed by `.xml`. */
  lemma XmlGlobPattern(name: string)
    ensures MatchesXmlGlob(name) <==> exists stem :: stem + ".xml" == name
  {
    if MatchesXmlGlob(name) {
      assert name[..|name| - 4] + ".xml" == name;
    }
  }

  /** The entry as a discovered file under `dirPath`; reading a directory fails. */
  function AsXmlFile(e: Entry, dirPath: seq<string>): XmlFile
  {
    match e
    case File(name, load) => XmlFile(dirPath + [name], load)
    case Dir(name, _, readError) => XmlFile(dirPath + [name], Failed(readError))
  }

  /** `month_dir.glob("*.xml")`: the matching entries of a month directory, in listing order. */
  function GlobXml(entries: seq<Entry>, monthPath: seq<string>): seq<XmlFile>
  {
    if entries == [] then []
    else
      var last := entries[|entries| - 1];
      GlobXml(entries[..|entries| - 1], monthPath) + (if MatchesXmlGlob(last.name) then [AsXmlFile(last, monthPath)] else [])
  }

  /** The glob holds exactly the files of the entries whose names match
      `*.xml`; a matching directory is included and fails with the message
      reading it raises. */
  lemma {:induction false} GlobXmlSelects(entries: seq<Entry>, monthPath: seq<string>)
    ensures |GlobXml(entries, monthPath)| <= |entries|
    ensures forall f :: f in GlobXml(entries, monthPath) <==>
      exists i :: 0 <= i < |entries| && MatchesXmlGlob(entries[i].name) && f == AsXmlFile(entries[i], monthPath)
    ensures forall i :: 0 <= i < |entries| && entries[i].Dir? && MatchesXmlGlob(entries[i].name) ==>
      XmlFile(monthPath + [entries[i].name], Failed(entries[i].readError)) in GlobXml(entries, monthPath)
  {
    if entries != [] {
      var init, last := entries[..|entries| - 1], entries[|entries| - 1];
      GlobXmlSelects(init, monthPath);
      assert forall i :: 0 <= i < |init| ==> init[i] == entries[i];
    }
  }

  /** `idx` lists, in increasing order, the positions of exactly the entries
      whose names match `*.xml`. */
  predicate MatchingPositions(idx: seq<nat>, entries: seq<Entry>)
  {
    && (forall k :: 0 <= k < |idx| ==> idx[k] < |entries|)
    && (forall a, b :: 0 <= a < b < |idx| ==> idx[a] < idx[b])
    && (forall i :: 0 <= i < |entries| ==> (i in idx <==> MatchesXmlGlob(entries[i].name)))
  }

  /** The glob gives one file per matching entry, in listing order: its
      `k`-th file comes from the `k`-th matching entry. */
  lemma {:induction false} GlobXmlInListingOrder(entries: seq<Entry>, monthPath: seq<string>) returns (idx: seq<nat>)
    ensures MatchingPositions(idx, entries)
    ensures |GlobXml(entries, monthPath)| == |idx|
    ensures forall k :: 0 <= k < |idx| ==> GlobXml(entries, monthPath)[k] == AsXmlFile(entries[idx[k]], monthPath)
  {
    if entries == [] {
      idx := [];
    } else {
      var n := |entries| - 1;
      var init := entries[..n];
      var prev := GlobXmlInListingOrder(init, monthPath);
      idx := if MatchesXmlGlob(entries[n].name) then prev + [n] else prev;
      MatchingPositionsSnoc(prev, entries);
      assert forall i :: 0 <= i < n ==> init[i] == entries[i];
      GlobXmlSnoc(entries, monthPath, prev);
    }
  }

  /** Extending the entries by one keeps the earlier glob results where they
      were and appends the new entry's file when its name matches. */
  lemma GlobXmlSnoc(entries: seq<Entry>, monthPath: seq<string>, prev: seq<nat>)
    requires entries != []
    requires |GlobXml(entries[..|entries| - 1], monthPath)| == |prev|
    requires forall k :: 0 <= k < |prev| ==>
      prev[k] < |entries| - 1 && GlobXml(entries[..|entries| - 1], monthPath)[k] == AsXmlFile(entries[prev[k]], monthPath)
    ensures var idx := if MatchesXmlGlob(entries[|entries| - 1].name) then prev + [|entries| - 1] else prev;
      && |GlobXml(entries, monthPath)| == |idx|
      && forall k :: 0 <= k < |idx| ==>
        idx[k] < |entries| && GlobXml(entries, monthPath)[k] == AsXmlFile(entries[idx[k]], monthPath)
  {
    var n := |entries| - 1;
    var g := GlobXml(entries[..n], monthPath);
    assert GlobXml(entries, monthPath) == g + (if MatchesXmlGlob(entries[n].name) then [AsXmlFile(entries[n], monthPath)] else []);
  }

  /** Extending the entries by one keeps the positions of the earlier
      matches and adds the new one when its name matches. */
  lemma MatchingPositionsSnoc(prev: seq<nat>, entries: seq<Entry>)
    requires entries != [] && MatchingPositions(prev, entries[..|entries| - 1])
    ensures var n := |entries| - 1;
      MatchingPositions(if MatchesXmlGlob(entries[n].name) then prev + [n] else prev, entries)
  {
    var n := |entries| - 1;
    var init := entries[..n];
    assert forall i :: 0 <= i < n ==> init[i] == entries[i];
    if MatchesXmlGlob(entries[n].name) {
      var idx := prev + [n];
      assert forall i :: 0 <= i < n ==> (i in idx <==> i in prev);
    }
  }

  /** The files of every month directory of a year directory; other entries are skipped. */
  function MonthFiles(entries: seq<Entry>, yearPath: seq<string>): seq<XmlFile>
  {
    if entries == [] then []
    else
      var last := entries[|entries| - 1];
      MonthFiles(entries[..|entries| - 1], yearPath) + (if last.Dir? then GlobXml(last.entries, yearPath + [last.name]) else [])
  }

  /** The files of every year directory of an article directory; other entries are skipped. */
  function Discovered(entries: seq<Entry>, articlePath: seq<string>): seq<XmlFile>
  {
    if entries == [] then []
    else
      var last := entries[|entries| - 1];
      Discovered(entries[..|entries| - 1], articlePath) + (if last.Dir? then MonthFiles(last.entries, articlePath + [last.name]) else [])
  }

  /** A year directory's files are the glob results of its month
      directories; its other entries contribute nothing. */
  lemma {:induction false} MonthFilesMembers(entries: seq<Entry>, yearPath: seq<string>)
    ensures forall f :: f in MonthFiles(entries, yearPath) <==>
      exists j :: 0 <= j < |entries| && entries[j].Dir? && f in GlobXml(entries[j].entries, yearPath + [entries[j].name])
  {
    if entries != [] {
      var init := entries[..|entries| - 1];
      MonthFilesMembers(init, yearPath);
      assert forall j :: 0 <= j < |init| ==> init[j] == entries[j];
    }
  }

  /** An article's files are the month files of its year directories; its
      other entries contribute nothing. */
  lemma {:induction false} DiscoveredMembers(entries: seq<Entry>, articlePath: seq<string>)
    ensures forall f :: f in Discovered(entries, articlePath) <==>
      exists i :: 0 <= i < |entries| && entries[i].Dir? && f in MonthFiles(entries[i].entries, articlePath + [entries[i].name])
  {
    if entries != [] {
      var init := entries[..|entries| - 1];
      DiscoveredMembers(init, articlePath);
      assert forall i :: 0 <= i < |init| ==> init[i] == entries[i];
    }
  }

  /** `f` comes from an entry matching `*.xml` in a month directory of a
      year directory of the article, carrying that entry's load. */
  predicate InTree(f: XmlFile, entries: seq<Entry>, articlePath: seq<string>)
  {
    exists i, j, k ::
      0 <= i < |entries| && entries[i].Dir?
      && 0 <= j < |entries[i].entries| && entries[i].entries[j].Dir?
      && 0 <= k < |entries[i].entries[j].entries|
      && MatchesXmlGlob(entries[i].entries[j].entries[k].name)
      && f == AsXmlFile(entries[i].entries[j].entries[k], articlePath + [entries[i].name] + [entries[i].entries[j].name])
  }

  /** A file is discovered exactly when it comes from a matching entry two
      directory levels below the article: no file is missed, none is invented. */
  lemma DiscoveredIffInTree(entries: seq<Entry>, articlePath: seq<string>, f: XmlFile)
    ensures f in Discovered(entries, articlePath) <==> InTree(f, entries, articlePath)
  {
    DiscoveredMembers(entries, articlePath);
    if f in Discovered(entries, articlePath) {
      var i :| 0 <= i < |entries| && entries[i].Dir? && f in MonthFiles(entries[i].entries, articlePath + [entries[i].name]);
      var year := entries[i];
      var yearPath := articlePath + [year.name];
      MonthFilesMembers(year.entries, yearPath);
      var j :| 0 <= j < |year.entries| && year.entries[j].Dir? && f in GlobXml(year.entries[j].entries, yearPath + [year.entries[j].name]);
      var month := year.entries[j];
      GlobXmlSelects(month.entries, yearPath + [month.name]);
      var k :| 0 <= k < |month.entries| && MatchesXmlGlob(month.entries[k].name) && f == AsXmlFile(month.entries[k], yearPath + [month.name]);
      assert InTree(f, entries, articlePath);
    }
    if InTree(f, entries, articlePath) {
      var i, j, k :|
        0 <= i < |entries| && entries[i].Dir?
        && 0 <= j < |entries[i].entries| && entries[i].entries[j].Dir?
        && 0 <= k < |entries[i].entries[j].entries|
        && MatchesXmlGlob(entries[i].entries[j].entries[k].name)
        && f == AsXmlFile(entries[i].entries[j].entries[k], articlePath + [entries[i].name] + [entries[i].entries[j].name]);
      var year := entries[i];
      var yearPath := articlePath + [year.name];
      var month := year.entries[j];
      GlobXmlSelects(month.entries, yearPath + [month.name]);
      assert f in GlobXml(month.entries, yearPath + [month.name]);
      MonthFilesMembers(year.entries, yearPath);
      assert f in MonthFiles(year.entries, yearPath);
    }
  }

  /** The nested loops over year and month directories that extend `xml_files`. */
  method DiscoverXmlFiles(articleEntries: seq<Entry>, articlePath: seq<string>) returns (xmlFiles: seq<XmlFile>)
    ensures xmlFiles == Discovered(articleEntries, articlePath)
  {
    xmlFiles := [];
    for i := 0 to |articleEntries|
      invariant xmlFiles == Discovered(articleEntries[..i], articlePath)
    {
      assert articleEntries[..i + 1][..i] == articleEntries[..i];
      var yearDir := articleEntries[i];
      if !yearDir.Dir? {
        continue;
      }
      var yearPath := articlePath + [yearDir.name];
      ghost var before := xmlFiles;
      for j := 0 to |yearDir.entries|
        invariant xmlFiles == before + MonthFiles(yearDir.entries[..j], yearPath)
      {
        assert yearDir.entries[..j + 1][..j] == yearDir.entries[..j];
        var monthDir := yearDir.entries[j];
        if !monthDir.Dir? {
          continue;
        }
        xmlFiles := xmlFiles + GlobXml(monthDir.entries, yearPath + [monthDir.name]);
      }
      assert yearDir.entries[..|yearDir.entries|] == yearDir.entries;
    }
    assert articleEntries[..|articleEntries|] == articleEntries;
  }

  /** A file found `levels` directories below `base`: the path extends
      `base` by exactly that many directory names and a name matching `*.xml`. */
  predicate FoundBelow(f: XmlFile, base: seq<string>, levels: nat)
  {
    && |f.path| == |base| + levels + 1
    && f.path[..|base|] == base
    && MatchesXmlGlob(f.path[|f.path| - 1])
  }

  lemma {:induction false} GlobXmlShape(entries: seq<Entry>, monthPath: seq<string>)
    ensures forall f :: f in GlobXml(entries, monthPath) ==> FoundBelow(f, monthPath, 0)
  {
    if entries != [] {
      GlobXmlShape(entries[..|entries| - 1], monthPath);
    }
  }

  lemma {:induction false} MonthFilesShape(entries: seq<Entry>, yearPath: seq<string>)
    ensures forall f :: f in MonthFiles(entries, yearPath) ==> FoundBelow(f, yearPath, 1)
  {
    if entries != [] {
      MonthFilesShape(entries[..|entries| - 1], yearPath);
      var last := entries[|entries| - 1];
      if last.Dir? {
        var monthPath := yearPath + [last.name];
        GlobXmlShape(last.entries, monthPath);
        forall f | f in GlobXml(last.entries, monthPath) ensures FoundBelow(f, yearPath, 1) {
          assert f.path[..|monthPath|] == monthPath;
          assert f.path[..|yearPath|] == f.path[..|monthPath|][..|yearPath|];
        }
      }
    }
  }

  /** Every discovered path is `<article>/<year>/<month>/<name>.xml`: two
      directory levels below the article and named after the glob pattern. */
  lemma {:induction false} DiscoveredShape(entries: seq<Entry>, articlePath: seq<string>)
    ensures forall f :: f in Discovered(entries, articlePath) ==> FoundBelow(f, articlePath, 2)
  {
    if entries != [] {
      DiscoveredShape(entries[..|entries| - 1], articlePath);
      var last := entries[|entries| - 1];
      if last.Dir? {
        var yearPath := articlePath + [last.name];
        MonthFilesShape(last.entries, yearPath);
        forall f | f in MonthFiles(last.entries, yearPath) ensures FoundBelow(f, articlePath, 2) {
          assert f.path[..|yearPath|] == yearPath;
          assert f.path[..|articlePath|] == f.path[..|yearPath|][..|articlePath|];
        }
      }
    }
  }

  /** An article with no year directories at all yields no files. */
  lemma {:induction false} NoDirectoriesNoFiles(entries: seq<Entry>, articlePath: seq<string>)
    requires forall i :: 0 <= i < |entries| ==> !entries[i].Dir?
    ensures Discovered(entries, articlePath) == []
  {
    if entries != [] {
      NoDirectoriesNoFiles(entries[..|entries| - 1], articlePath);
    }
  }
}
