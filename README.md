# Revision XML to article tables: a verified model

This project models the core of `modules/xml_to_dataframe.py`. That script turns
per-article directories of Wikipedia revision snippets (`<article>/<year>/<month>/<name>.xml`)
into one table per article. The model covers the two pieces of decision logic in it:

- **Revision extraction** (`parse_revision_xml`). The parsed document is an element
  tree (`XmlTree.Element`). BeautifulSoup's `find(name)` is the recursive search
  `XmlTree.Find`. It is proved to return the first proper descendant with that name
  in document order, at any depth. `RevisionParser.ParseRevision` builds the record
  from the first `revision` element, or gives `None` (the empty dictionary) when
  there is none. The lemmas beside it cover the contributor fallback chain
  (`username`, then `ip`, then `None`), the independent lookups, and `text_length`
  against the optional `text` field.
- **Article assembly** (`process_article_directory`). This part is imperative, as the
  source is:
  - `ArticleFiles.DiscoverXmlFiles` runs the nested loops over year and month
    directories.
  - `ArticleAssembler.AccumulateBatches` runs the loop over batch offsets
    `range(0, n, batch_size)`.
  - `ArticleAssembler.ReadBatch` runs the inner loop over one batch's files.
  - `ArticleAssembler.ProcessArticleDirectory` ties them together. It concatenates the
    kept batch tables, converts timestamps and sorts in descending order.

  Each method is proved against a specification function: `Discovered`, `Batches`,
  `Rows`, `Log`, `KeptTables`, `ToDatetime` and `SortDescending`. Lemmas about those
  functions state the properties: batches partition the file list, batching is
  transparent, faults are isolated, the result is `None` exactly when no file yields
  a record, and the table is a permutation sorted by time in descending order.

Modules: `Wrappers` (Option, Result), `XmlTree`, `RevisionParser`, `ArticleFiles`,
`Batching`, `ArticleTable`, `ArticleAssembler`.

Modelling choices:
- A file's read-and-parse outcome is `ArticleFiles.Load`. It is either `Parsed(doc)`
  or `Failed(reason)`, where `reason` is `str(e)` of the exception that
  `read_text` or the parser raised. A directory whose name matches `*.xml` is
  globbed as well. Reading it fails with the message its `Dir` entry carries
  (on POSIX, `[Errno 21] Is a directory: '<path>'`).
- The `Error processing <path>: <message>` lines are the `log` out-parameter.
- `pd.to_datetime` takes a parser parameter `parseTime: string -> TimeReading`. For
  each string it gives one of three readings:
  - `Instant(ns)`, a datetime64 value in nanoseconds;
  - `NotATime`, for the empty string and the spellings pandas reads as missing,
    such as `NaT`;
  - `Unparsable`, which raises and aborts the article.

  A missing timestamp and a `NotATime` reading both become NaT
  (`TableRow.time == None`). `sort_values` places NaT rows after all datetimes.
- `batch_size == 0` makes `range` raise `ValueError`. This happens only once some
  files were found. A negative `batch_size` gives an empty range, so no table.

Where the design description and the code differ, the model follows the code:
- Each of `revision_id`, `timestamp` and `comment` is described as read from "its
  respective child element". The code calls `revision.find(...)`, which searches all
  descendants. So a revision without an `id` of its own takes the contributor's `id`
  as its `revision_id` (`RevisionParser.RevisionIdFromContributor`).
- The final sort is described as stable. The code calls `sort_values` with its
  default algorithm, which does not guarantee the order of equal timestamps. The
  model promises only sortedness and permutation.

## Model

| member | source | states |
|---|---|---|
| `XmlTree.Find` | modules/xml_to_dataframe.py:10 | `find(name)` returns only elements carrying the searched name |
| `XmlTree.FindInDocumentOrder` | modules/xml_to_dataframe.py:10-43 | the recursive search over a forest (element, its subtree, then its following siblings) returns the first element with that name in pre-order |
| `XmlTree.FindIsFirstInDocumentOrder` | modules/xml_to_dataframe.py:10-43 | `e.find(name)` is the first proper descendant of `e` named `name` in document order, at any depth, and is `None` exactly when no descendant has that name |
| `RevisionParser.ParseRevision` | modules/xml_to_dataframe.py:7-59 | a record is produced exactly when the document has a `revision` element; `text` is present exactly when `include_text` is set, and then its length is `text_length` |
| `RevisionParser.IndependentLookups` | modules/xml_to_dataframe.py:36-44 | `revision_id`, `timestamp` and `comment` are each the text of the first descendant of the revision with that name (or `None`), independently of the other fields |
| `RevisionParser.UsernameFromUsernameElement` | modules/xml_to_dataframe.py:17-27 | a `username` element under the contributor decides the username, even when its text is empty; `userid` is the contributor's `id` text |
| `RevisionParser.UsernameFallsBackToIp` | modules/xml_to_dataframe.py:22-27 | without a `username` element the username is the `ip` element's text, and `None` exactly when there is no `ip` element either |
| `RevisionParser.NoContributorNoUser` | modules/xml_to_dataframe.py:28-30 | with no `contributor` element both `username` and `userid` are `None` |
| `RevisionParser.TextLengthIgnoresIncludeText` | modules/xml_to_dataframe.py:32-57 | `text_length` is the length of the `text` element's string (0 when absent) whatever `include_text` is; the two settings give the same record except that `include_text` adds `text` holding that string |
| `RevisionParser.RevisionIdFromContributor` | modules/xml_to_dataframe.py:37-38 | a revision whose only child is a contributor with an `id` gets that `id` as `revision_id`, equal to `userid` |
| `ArticleFiles.XmlGlobPattern` | modules/xml_to_dataframe.py:71 | a name matches `*.xml` exactly when it is some stem, possibly empty or starting with a dot, followed by `.xml` |
| `ArticleFiles.GlobXmlSelects` | modules/xml_to_dataframe.py:71 | `month_dir.glob("*.xml")` holds exactly the files of the entries whose names match; a matching directory is included and fails with the message reading it raises |
| `ArticleFiles.GlobXmlInListingOrder` | modules/xml_to_dataframe.py:71 | the glob gives one file per matching entry, in listing order: its `k`-th file comes from the `k`-th matching entry, and there are as many files as matching entries |
| `ArticleFiles.MonthFilesMembers` | modules/xml_to_dataframe.py:68-71 | a year directory's files are exactly the glob results of its month directories; entries that are not directories contribute nothing |
| `ArticleFiles.DiscoveredMembers` | modules/xml_to_dataframe.py:65-71 | an article's files are exactly the files of its year directories; entries that are not directories contribute nothing |
| `ArticleFiles.DiscoveredIffInTree` | modules/xml_to_dataframe.py:64-71 | a file is discovered exactly when it comes from an entry matching `*.xml` in a month directory of a year directory of the article, carrying that entry's load |
| `ArticleFiles.DiscoverXmlFiles` | modules/xml_to_dataframe.py:63-71 | the nested loops over year and month directories produce exactly the files of `Discovered`, in listing order |
| `ArticleFiles.DiscoveredShape` | modules/xml_to_dataframe.py:65-71 | every discovered path is the article path, then a year name, a month name, and a name matching `*.xml` |
| `ArticleFiles.NoDirectoriesNoFiles` | modules/xml_to_dataframe.py:65-67 | an article directory without subdirectories yields no files |
| `Batching.BatchesPartition` | modules/xml_to_dataframe.py:78-81 | the batches, concatenated, are the file list |
| `Batching.BatchesSized` | modules/xml_to_dataframe.py:78-81 | every batch is non-empty with at most `batch_size` files, and all but the last have exactly `batch_size` |
| `Batching.BatchesCount` | modules/xml_to_dataframe.py:78-80 | the number of batches is `ceil(n / batch_size)`: the last one's start is below `n` and their capacity covers `n` |
| `Batching.BatchAt` | modules/xml_to_dataframe.py:78-81 | batch `k` is the slice `xml_files[k*B : k*B + B]` and starts below `n` |
| `ArticleAssembler.AncestorNameOf` | modules/xml_to_dataframe.py:90-91 | `.parent` taken `k` times and then `.name` is the component `k` levels above the file; above the first component it is the empty name of `.` |
| `ArticleAssembler.FileRows` | modules/xml_to_dataframe.py:85-92 | a file adds at most one row, and adds one exactly when it was read and parsed and its document has a `revision`; that row is the parsed record tagged with the grandparent and parent directory names |
| `ArticleAssembler.FileLog` | modules/xml_to_dataframe.py:85-94 | a file prints an error line exactly when its read or parse raised, and the line holds its path and the exception message |
| `ArticleAssembler.ReadBatch` | modules/xml_to_dataframe.py:82-94 | the inner loop gives the rows of the batch's files in order and one error line per file that failed |
| `ArticleAssembler.AccumulateBatches` | modules/xml_to_dataframe.py:77-97 | a zero batch size raises, a negative one processes nothing, a positive one keeps the non-empty batch tables in order and prints the error lines of all files |
| `ArticleAssembler.KeptTablesRows` | modules/xml_to_dataframe.py:96-103 | kept batch tables are never empty, and their concatenation is the rows of all batched files in order |
| `ArticleAssembler.BatchingTransparent` | modules/xml_to_dataframe.py:78-103 | for every positive batch size, the concatenated kept tables are the rows of the whole file list in order |
| `ArticleAssembler.BatchSizeIrrelevant` | modules/xml_to_dataframe.py:78-103 | two positive batch sizes give the same rows before sorting |
| `ArticleAssembler.NoTablesIffNoRows` | modules/xml_to_dataframe.py:96-100 | no batch table is kept exactly when no file produced a row |
| `ArticleAssembler.FaultIsolation` | modules/xml_to_dataframe.py:84-94 | a file whose read or parse raised adds no row and one error line, and leaves the other files' rows as they would be without it |
| `ArticleAssembler.NoRevisionIsSilent` | modules/xml_to_dataframe.py:87-88 | a document without a revision adds no row and no error line |
| `ArticleAssembler.OneRowPerRevision` | modules/xml_to_dataframe.py:87-92 | a document with a revision adds exactly one row, at its place in file order, tagged with its grandparent and parent directory names |
| `ArticleAssembler.DiscoveredRowsTagged` | modules/xml_to_dataframe.py:89-91 | the row of a discovered file carries the names of the year and month directories it was found in |
| `ArticleAssembler.ProcessArticleDirectory` | modules/xml_to_dataframe.py:61-105 | no table exactly when no files were found, the batch size is negative, or no file produced a row; a zero batch size raises; otherwise the table exists exactly when no timestamp is unparsable, and it is a permutation of the converted rows of all files, sorted by time in descending order with NaT last, whatever the batch size |
| `ArticleTable.ConvertOne` | modules/xml_to_dataframe.py:104 | one timestamp converts to NaT when it is missing or reads as missing, to its datetime when it parses, and raises exactly when it cannot be parsed, naming the string |
| `ArticleTable.ToDatetime` | modules/xml_to_dataframe.py:104 | conversion succeeds exactly when no present timestamp is unparsable; it keeps rows and order; a missing timestamp, or one read as missing, becomes NaT; a failure names an unparsable timestamp |
| `ArticleTable.MissingTimesGiveNaT` | modules/xml_to_dataframe.py:40-41 | rows whose timestamps are all missing (no element) or read as missing (such as `<timestamp/>`) convert without raising, all to NaT |
| `ArticleTable.SortDescending` | modules/xml_to_dataframe.py:105 | the result is a permutation of the table, non-increasing by time, NaT rows last |
| `ArticleTable.NewerFirst` | modules/xml_to_dataframe.py:103-105 | in a two-row table whose rows have distinct datetimes, the later row comes first, whichever arrived first |

## Left out

- XML parsing: BeautifulSoup with the `lxml-xml` parser is not modelled. The model
  starts from the parsed tree. A read or parse that raises is `Failed`. The parser
  recovers from most malformed input, and the partial tree it recovers is `Parsed`.
- How `.text` is computed: an element's text (all character data beneath it,
  concatenated) is the `text` field of `Element`, taken as given.
- Namespace prefixes in tag names: `find` is modelled as exact name equality.
- `ArticleFiles.XmlGlobPattern`: the match is case-sensitive, as pathlib's glob is on
  POSIX. On Windows, pathlib also matches `.XML` and other casings; that is not
  modelled.
- Filesystem: `iterdir`, `is_dir`, `glob`, `read_text` and `mkdir` are left out. A
  directory tree (`ArticleFiles.Entry`) stands for them. The listing order is
  whatever order the tree's entries have. Character encodings and the exception
  types are left out.
- pandas: DataFrames are sequences of rows. The index labels that `sort_values`
  keeps from the concatenation are not modelled.
- `pd.to_datetime` string parsing and time zones: parsing is the `parseTime`
  parameter.
- `ArticleTable.ConvertOne`: `parseTime` stands for the reading of one string under
  the format pandas infers for the article's whole column, from its first
  non-missing string. So whether a string parses can depend on the other rows; that
  inference is not modelled.
- `ArticleTable.ToDatetime`: pandas overwrites the `timestamp` column with the
  converted values. `TableRow` keeps the original string in `row.revision.timestamp`
  beside the converted `time`. Only `time` is the column the table holds.
- `ArticleTable.SortDescending`: it does not say which order rows with equal times
  take. The default `sort_values` algorithm does not guarantee that order, so the
  model states only sortedness and permutation.
- `ArticleAssembler.ProcessArticleDirectory`: for the same reason, it states the
  table as a sorted permutation of the converted rows, not one particular order of
  equal times.
- tqdm progress display, `print_summary` (console statistics with a float mean and
  a memory estimate), `main`, `to_feather` output and argument parsing: these are
  I/O and orchestration. They contain no decision logic beyond what is modelled
  here.
