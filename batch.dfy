/**
 * The file names the generator derives from the journal sheet's name, and
 * the `<doi_batch>` envelope `combine_xml` wraps around the two fragments:
 * its batch id (the journal DOI, falling back to the base file name) and
 * its 14-digit timestamp, taken here from a clock reading passed in.
 */
module Batch {
  import opened Strings
  import opened Cells

  // ------------------------------------------------------------ file names

  /** `os.path.basename`: everything after the last '/'. */
  function Basename(path: string): (r: string)
    ensures '/' !in r && EndsWith(path, r)
    ensures |r| < |path| ==> path[|path| - |r| - 1] == '/'
  {
    if path == [] then []
    else if path[|path| - 1] == '/' then []
    else Basename(path[..|path| - 1]) + [path[|path| - 1]]
  }

  /** `os.path.join(folder, name)` for two parts. */
  function JoinPath(folder: string, name: string): string {
    if name != [] && name[0] == '/' then name
    else if folder == [] || folder[|folder| - 1] == '/' then folder + name
    else folder + "/" + name
  }

  /** `extract_base_filename`: the journal file's name up to its first '_'. */
  function BaseFilename(journalFile: string): (r: string)
    ensures '_' !in r && '/' !in r
  {
    TakeUntil(Basename(journalFile), '_')
  }

  /** `initialize_article_file`: `{base}_articles.xlsx` in the same folder. */
  function ArticleFilePath(folder: string, base: string): string {
    JoinPath(folder, base + "_articles.xlsx")
  }

  /** The name of a file placed in a folder is that file's name. */
  lemma {:induction false} BasenameJoin(folder: string, name: string)
    requires name != [] && '/' !in name
    ensures Basename(JoinPath(folder, name)) == name
  {
    var p := JoinPath(folder, name);
    assert exists pre :: p == pre + name && (pre == [] || pre[|pre| - 1] == '/') by {
      if folder == [] || folder[|folder| - 1] == '/' {
        assert p == folder + name;
      } else {
        assert p == (folder + "/") + name;
      }
    }
    var pre :| p == pre + name && (pre == [] || pre[|pre| - 1] == '/');
    BasenameAfterSlash(pre, name);
  }

  lemma {:induction false} BasenameAfterSlash(pre: string, name: string)
    requires '/' !in name
    requires pre == [] || pre[|pre| - 1] == '/'
    ensures Basename(pre + name) == name
    decreases |name|
  {
    if name == [] {
      assert pre + name == pre;
    } else {
      var q, c := name[..|name| - 1], name[|name| - 1];
      assert name == q + [c];
      assert pre + name == (pre + q) + [c];
      BasenameAfterSlash(pre, q);
      BasenameSnoc(pre + q, c);
    }
  }

  /** A character other than '/' extends the base name. */
  lemma BasenameSnoc(path: string, c: char)
    requires c != '/'
    ensures Basename(path + [c]) == Basename(path) + [c]
  {
    var p := path + [c];
    assert p[..|p| - 1] == path;
  }

  /**
   * For a file `{stem}_{rest}` placed in a folder, where the stem holds no
   * '_', the base name is the stem: with a '_' in the sheet's own name, only
   * the part before the first '_' is kept.
   */
  lemma BaseOfFile(folder: string, stem: string, rest: string)
    requires '_' !in stem && '/' !in stem && '/' !in rest
    ensures BaseFilename(JoinPath(folder, stem + "_" + rest)) == stem
  {
    var tail := "_" + rest;
    var name := stem + tail;
    assert name == stem + "_" + rest;
    assert '/' !in tail;
    BasenameJoin(folder, name);
    TakeUntilBefore(stem, tail, '_');
  }

  /**
   * For a journal sheet `{stem}_journal.xlsx` in a folder, where the stem
   * holds no '_', the base name is the stem and the article sheet is
   * `{stem}_articles.xlsx` in the same folder.
   */
  lemma BaseOfJournalFile(folder: string, stem: string)
    requires '_' !in stem && '/' !in stem
    ensures BaseFilename(JoinPath(folder, stem + "_journal.xlsx")) == stem
    ensures ArticleFilePath(folder, BaseFilename(JoinPath(folder, stem + "_journal.xlsx")))
      == JoinPath(folder, stem + "_articles.xlsx")
  {
    assert stem + "_journal.xlsx" == stem + "_" + "journal.xlsx";
    BaseOfFile(folder, stem, "journal.xlsx");
  }

  /** `'../output/{base}.xml'`. */
  function OutputPath(base: string): string {
    "../output/" + base + ".xml"
  }

  // -------------------------------------------------------------- batch id

  /** `_safe(row.get('Journal_DOI')) or base_filename`. */
  function BatchId(row: Row, base: string): (r: string)
    ensures r == "" <==> Safe(Get(row, "Journal_DOI")) == "" && base == ""
    ensures Safe(Get(row, "Journal_DOI")) != "" ==> r == Safe(Get(row, "Journal_DOI"))
    ensures Safe(Get(row, "Journal_DOI")) == "" ==> r == base
  {
    var doi := Safe(Get(row, "Journal_DOI"));
    if doi != "" then doi else base
  }

  // ------------------------------------------------------------- timestamp

  /** A wall-clock reading: the calendar date and the time of day. */
  datatype Clock = Clock(year: int, month: int, day: int, hour: int, minute: int, second: int)

  /** A reading of `datetime.now()`, with a four-digit year: the years for which `%Y` is four digits wide on every platform. */
  predicate ValidClock(c: Clock) {
    && 1000 <= c.year <= 9999 && 1 <= c.month <= 12 && 1 <= c.day <= 31
    && 0 <= c.hour < 24 && 0 <= c.minute < 60 && 0 <= c.second < 60
  }

  /** `strftime('%Y%m%d%H%M%S')`. */
  function Stamp(c: Clock): (r: string)
    requires ValidClock(c)
    ensures |r| == 14 && AllDigits(r)
  {
    Pad(c.year, 4) + Pad(c.month, 2) + Pad(c.day, 2) + Pad(c.hour, 2) + Pad(c.minute, 2) + Pad(c.second, 2)
  }

  /** The timestamp can be read back: its digit groups denote the clock's fields. */
  lemma StampRoundTrip(c: Clock)
    requires ValidClock(c)
    ensures var r := Stamp(c);
      && DecimalValue(r[..4]) == c.year && DecimalValue(r[4..6]) == c.month && DecimalValue(r[6..8]) == c.day
      && DecimalValue(r[8..10]) == c.hour && DecimalValue(r[10..12]) == c.minute && DecimalValue(r[12..]) == c.second
  {
    var r := Stamp(c);
    assert Pow10(2) == 100 && Pow10(4) == 10000;
    assert r[..4] == Pad(c.year, 4);
    assert r[4..6] == Pad(c.month, 2);
    assert r[6..8] == Pad(c.day, 2);
    assert r[8..10] == Pad(c.hour, 2);
    assert r[10..12] == Pad(c.minute, 2);
    assert r[12..] == Pad(c.second, 2);
    PadRoundTrip(c.year, 4);
    PadRoundTrip(c.month, 2);
    PadRoundTrip(c.day, 2);
    PadRoundTrip(c.hour, 2);
    PadRoundTrip(c.minute, 2);
    PadRoundTrip(c.second, 2);
  }

  // -------------------------------------------------------------- envelope

  const BatchIdOpen := "        <doi_batch_id>"
  const BatchIdClose := "</doi_batch_id>"

  /** The XML declaration, the opening `<doi_batch>` tag with its four attribute lines, and `<head>`. */
  const Preamble: seq<string> := [
    "<?xml version=\"1.0\" encoding=\"UTF-8\"?>",
    "<doi_batch xmlns=\"http://www.crossref.org/schema/4.4.2\"",
    "           version=\"4.4.2\"",
    "           xmlns:xsi=\"http://www.w3.org/2001/XMLSchema-instance\"",
    "           xsi:schemaLocation=\"http://www.crossref.org/schema/4.4.2 http://www.crossref.org/schemas/crossref4.4.2.xsd\">",
    "    <head>" ]

  /** The fixed depositor and registrant, closing `<head>` and opening `<body>` and `<journal>`. */
  const Depositor: seq<string> := [
    "        <depositor>",
    "            <depositor_name>MSSL</depositor_name>",
    "            <email_address>memanuel@olemiss.edu</email_address>",
    "        </depositor>",
    "        <registrant>University of Mississippi</registrant>",
    "    </head>",
    "    <body>",
    "        <journal>" ]

  /** The lines of the envelope after the article fragment. */
  const TailLines: seq<string> := [ "        </journal>", "    </body>", "</doi_batch>" ]

  function BatchIdLine(batchId: string): string {
    BatchIdOpen + batchId + BatchIdClose
  }

  function TimestampLine(timestamp: string): string {
    "        <timestamp>" + timestamp + "</timestamp>"
  }

  /** The lines after the batch id: the timestamp, the depositor, the two fragments and the closing tags. */
  function AfterBatchId(timestamp: string, journalXml: string, articleXml: string): seq<string> {
    [TimestampLine(timestamp)] + Depositor + [journalXml, articleXml] + TailLines
  }

  /**
   * `combine_xml`'s document: the head, the journal fragment and the article
   * fragment each on their own lines, the closing tags, and a final newline.
   */
  function Envelope(batchId: string, timestamp: string, journalXml: string, articleXml: string): string {
    Join(Preamble + [BatchIdLine(batchId)] + AfterBatchId(timestamp, journalXml, articleXml), "\n") + "\n"
  }

  /** Everything before the batch id: the preamble lines and the opening `<doi_batch_id>` tag. */
  function BeforeBatchId(): string {
    Join(Preamble, "\n") + "\n" + BatchIdOpen
  }

  /** The batch id as a reader finds it: after the opening tag, up to the next '<'. */
  function ReadBatchId(doc: string): string {
    var p := BeforeBatchId();
    if StartsWith(doc, p) then TakeUntil(doc[|p|..], '<') else ""
  }

  /** In newline-joined lines, a value framed by an opening text and a closing tag can be read back. */
  lemma ReadFramed(pre: seq<string>, open: string, value: string, close: string, rest: seq<string>)
    requires pre != [] && close != [] && close[0] == '<' && '<' !in value
    ensures var doc, p := Join(pre + [open + value + close] + rest, "\n") + "\n", Join(pre, "\n") + "\n" + open;
      StartsWith(doc, p) && TakeUntil(doc[|p|..], '<') == value
  {
    var line := open + value + close;
    var tail := if rest == [] then "\n" else "\n" + Join(rest, "\n") + "\n";
    var after := close + tail;
    var j := Join([line] + rest, "\n");
    assert j + "\n" == line + tail by {
      if rest != [] {
        JoinAppend([line], rest, "\n");
      } else {
        assert [line] + rest == [line];
      }
    }
    var p := Join(pre, "\n") + "\n" + open;
    var doc := Join(pre + [line] + rest, "\n") + "\n";
    assert doc == Join(pre, "\n") + "\n" + (j + "\n") by {
      assert pre + [line] + rest == pre + ([line] + rest);
      JoinAppend(pre, [line] + rest, "\n");
    }
    assert doc == p + (value + after);
    assert doc[|p|..] == value + after;
    TakeUntilBefore(value, after, '<');
  }

  /** The document carries its batch id intact, as long as the id holds no '<'. */
  lemma ReadBatchIdRoundTrip(batchId: string, timestamp: string, journalXml: string, articleXml: string)
    requires '<' !in batchId
    ensures ReadBatchId(Envelope(batchId, timestamp, journalXml, articleXml)) == batchId
  {
    ReadFramed(Preamble, BatchIdOpen, batchId, BatchIdClose, AfterBatchId(timestamp, journalXml, articleXml));
  }
}
