/**
 * The generator object: the paths it derives from the journal sheet, the
 * two sheets once read, and the two fragments it builds. Its methods build
 * the fragments line by line, as `create_journal_xml` and
 * `create_article_xml` append to their `parts` lists, and are proved to produce the documents modules Journal, Articles
 * and Batch define.
 */
module Generator {
  import opened Errors
  import opened Strings
  import opened Cells
  import opened Xml
  import opened Journal
  import opened Articles
  import opened Batch

  class XmlGenerator {
    const folderPath: string
    const journalFile: string
    var articleFile: string
    const baseFilename: string
    var journalData: Option<seq<Row>>
    var articleData: Option<seq<Row>>
    var journalXml: string
    var articleXml: string

    /**
     * Starts from the folder and the journal sheet found in it (the
     * directory listing is not modelled): derives the base name and the
     * article sheet's path; nothing is read yet.
     */
    constructor (folderPath: string, journalFile: string)
      ensures this.folderPath == folderPath && this.journalFile == journalFile
      ensures baseFilename == BaseFilename(journalFile)
      ensures articleFile == ArticleFilePath(folderPath, baseFilename)
      ensures journalData == None && articleData == None
      ensures journalXml == "" && articleXml == ""
    {
      this.folderPath := folderPath;
      this.journalFile := journalFile;
      journalData := None;
      articleData := None;
      journalXml := "";
      articleXml := "";
      baseFilename := BaseFilename(journalFile);
      articleFile := ArticleFilePath(folderPath, BaseFilename(journalFile));
    }

    /** `initialize_article_file`. */
    method InitializeArticleFile()
      modifies this`articleFile
      ensures articleFile == ArticleFilePath(folderPath, baseFilename)
    {
      articleFile := ArticleFilePath(folderPath, baseFilename);
    }

    /**
     * `read_excel_data` once both sheets have been read (the reading itself
     * is not modelled): the journal rows, the article path again, the
     * article rows.
     */
    method LoadData(journal: seq<Row>, articles: seq<Row>)
      modifies this`journalData, this`articleData, this`articleFile
      ensures journalData == Some(journal) && articleData == Some(articles)
      ensures articleFile == ArticleFilePath(folderPath, baseFilename)
    {
      journalData := Some(journal);
      InitializeArticleFile();
      articleData := Some(articles);
    }

    /**
     * `create_journal_xml`: appends the journal's lines one by one and
     * stores their newline-joined text. Fails, leaving the stored text as it
     * was, when the sheet was not read or has no row.
     */
    method CreateJournalXml(toDatetime: DateParser) returns (r: Result<string>)
      modifies this`journalXml
      ensures r == JournalXml(journalData, toDatetime)
      ensures journalXml == if r.Ok? then r.value else old(journalXml)
    {
      if journalData.None? {
        return Err(DataNotLoaded);
      }
      var rows := journalData.value;
      if |rows| == 0 {
        return Err(NoJournalRow);
      }
      var parts := JournalLinesOf(rows[0], toDatetime);
      journalXml := Serialize(parts);
      r := Ok(journalXml);
    }

    /** The body of `create_journal_xml` for the sheet's first row: every line it appends, in order. */
    static method JournalLinesOf(journal: Row, toDatetime: DateParser) returns (parts: seq<Line>)
      ensures parts == JournalLines(FieldsOf(journal, toDatetime))
    {
      var f := FieldsOf(journal, toDatetime);
      parts := MetadataLines(f);
      var issueLines := IssueLinesOf(f);
      parts := parts + issueLines;
    }

    /** `<journal_metadata>`: the title always, the other children when non-empty. */
    static method MetadataLines(f: JournalFields) returns (parts: seq<Line>)
      ensures parts == Metadata(f)
    {
      parts := [Open(0, JournalMetadata, NoAttrs)];
      parts := parts + [Leaf(1, FullTitle, NoAttrs, f.title)];
      ghost var beforeAbbrev := parts;
      if f.abbrev != "" {
        parts := parts + [Leaf(1, AbbrevTitle, NoAttrs, f.abbrev)];
      }
      assert parts == beforeAbbrev + OptLeaf(1, AbbrevTitle, NoAttrs, f.abbrev);
      ghost var beforePrint := parts;
      if f.printIssn != "" {
        parts := parts + [Leaf(1, Issn, MediaType(Print), f.printIssn)];
      }
      assert parts == beforePrint + OptLeaf(1, Issn, MediaType(Print), f.printIssn);
      ghost var beforeElectronic := parts;
      if f.electronicIssn != "" {
        parts := parts + [Leaf(1, Issn, MediaType(Electronic), f.electronicIssn)];
      }
      assert parts == beforeElectronic + OptLeaf(1, Issn, MediaType(Electronic), f.electronicIssn);
      var doiData := DoiDataLines(1, f.doi, f.url);
      parts := parts + doiData;
      parts := parts + [Close(0, JournalMetadata)];
      MetadataFlat(f);
    }

    /** `<journal_issue>`: the two dates, the volume, the issue and the issue's `<doi_data>`, each when present. */
    static method IssueLinesOf(f: JournalFields) returns (parts: seq<Line>)
      ensures parts == IssueLines(f)
    {
      parts := [Open(0, JournalIssue, NoAttrs)];
      var printDate := DateLines(1, Print, f.printDate);
      parts := parts + printDate;
      var onlineDate := DateLines(1, Online, f.onlineDate);
      parts := parts + onlineDate;
      ghost var beforeVolume := parts;
      if f.volume != "" {
        parts := parts + [Open(1, JournalVolume, NoAttrs), Leaf(2, Volume, NoAttrs, f.volume), Close(1, JournalVolume)];
      }
      assert parts == beforeVolume + VolumeBlock(f.volume);
      ghost var beforeIssue := parts;
      if f.issue != "" {
        parts := parts + [Leaf(1, Issue, NoAttrs, f.issue)];
      }
      assert parts == beforeIssue + OptLeaf(1, Issue, NoAttrs, f.issue);
      var issueDoiData := DoiDataLines(1, f.issueDoi, f.issueUrl);
      parts := parts + issueDoiData;
      parts := parts + [Close(0, JournalIssue)];
      IssueFlat(f);
    }

    /** The optional `<doi_data>` block, line by line. */
    static method DoiDataLines(depth: nat, doi: string, url: string) returns (r: seq<Line>)
      ensures r == DoiDataBlock(depth, doi, url)
    {
      r := [];
      if doi != "" || url != "" {
        r := [Open(depth, DoiData, NoAttrs)];
        if doi != "" {
          r := r + [Leaf(depth + 1, Doi, NoAttrs, doi)];
        }
        if url != "" {
          r := r + [Leaf(depth + 1, Resource, NoAttrs, url)];
        }
        r := r + [Close(depth, DoiData)];
      }
    }

    /** The `<publication_date>` block when year, month and day are all present. */
    static method DateLines(depth: nat, media: Media, p: DateParts) returns (r: seq<Line>)
      ensures r == DateBlock(depth, media, p)
    {
      r := [];
      if p.year != "" && p.month != "" && p.day != "" {
        r := [Open(depth, PublicationDate, MediaType(media))];
        r := r + [Leaf(depth + 1, Month, NoAttrs, p.month)];
        r := r + [Leaf(depth + 1, Day, NoAttrs, p.day)];
        r := r + [Leaf(depth + 1, Year, NoAttrs, p.year)];
        r := r + [Close(depth, PublicationDate)];
      }
    }

    /**
     * `create_article_xml`: one block per article row, in row order, each
     * built line by line with the author-slot loop inside; the stored text is
     * the blocks joined by newlines. The first row without a usable URL
     * stops the loop with an error and the stored text is left as it was.
     */
    method CreateArticleXml(toDatetime: DateParser) returns (r: Result<string>)
      modifies this`articleXml
      ensures r == ArticleXml(articleData, toDatetime)
      ensures articleXml == if r.Ok? then r.value else old(articleXml)
    {
      if articleData.None? {
        return Err(DataNotLoaded);
      }
      r := ArticleBlocks(articleData.value, toDatetime);
      if r.Ok? {
        articleXml := r.value;
      }
    }

    /**
     * The row loop of `create_article_xml`: each row's block in row order,
     * stopping at the first row without a usable full-text URL.
     */
    static method ArticleBlocks(rows: seq<Row>, toDatetime: DateParser) returns (r: Result<string>)
      ensures r == ArticleXml(Some(rows), toDatetime)
    {
      ghost var fs := FieldsOfRows(rows, toDatetime);
      var blocks: seq<string> := [];
      var n := 0;
      while n < |rows|
        invariant 0 <= n <= |rows|
        invariant blocks == Blocks(fs[..n])
        invariant forall j :: 0 <= j < n ==> fs[j].resource != ""
      {
        var a := ArticleFieldsOf(rows[n], toDatetime);
        assert a == fs[n];
        if a.resource == "" {
          ArticleXmlFirstError(rows, toDatetime, n);
          return Err(MissingResourceUrl(Untitled(a.title)));
        }
        var parts := ArticleLinesOf(a);
        BlocksStep(fs, n);
        ResourcesStep(fs, n);
        blocks := blocks + [Serialize(parts)];
        n := n + 1;
      }
      assert fs[..n] == fs;
      BlocksFlatten(fs);
      r := Ok(Join(blocks, "\n"));
    }

    /** One iteration of the row loop past the resource check: every line of the article's block, in order. */
    static method ArticleLinesOf(a: ArticleFields) returns (parts: seq<Line>)
      requires |a.slots| == SlotCount
      ensures parts == ArticleLines(a)
    {
      parts := [Open(1, JournalArticle, FullText)];
      parts := parts + [Open(2, Titles, NoAttrs)];
      parts := parts + [Leaf(3, Title, NoAttrs, a.title)];
      parts := parts + [Close(2, Titles)];
      parts := parts + [Open(2, Contributors, NoAttrs)];
      var authors := AuthorLines(a.slots);
      parts := parts + authors;
      parts := parts + [Close(2, Contributors)];
      var dateLines := DateLines(2, Online, a.date);
      parts := parts + dateLines;
      parts := parts + [Open(2, DoiData, NoAttrs)];
      ghost var beforeDoi := parts;
      if a.doi != "" {
        parts := parts + [Leaf(3, Doi, NoAttrs, a.doi)];
      }
      assert parts == beforeDoi + OptLeaf(3, Doi, NoAttrs, a.doi);
      parts := parts + [Leaf(3, Resource, NoAttrs, a.resource)];
      parts := parts + [Close(2, DoiData)];
      parts := parts + [Close(1, JournalArticle)];
      ArticleLinesFlat(a);
    }

    /**
     * The author-slot loop: `for i in range(1, 6)`, writing a
     * `<person_name>` for each slot with a first name and tracking whether
     * the first author was written.
     */
    static method AuthorLines(slots: seq<Slot>) returns (r: seq<Line>)
      requires |slots| == SlotCount
      ensures r == PersonList(slots, false)
    {
      r := [];
      var firstWritten := false;
      var i := 1;
      while i < 6
        invariant 1 <= i <= 6
        invariant r + PersonList(slots[i - 1..], firstWritten) == PersonList(slots, false)
      {
        var slot := slots[i - 1];
        assert slots[i - 1..][1..] == slots[i..];
        ghost var written := r;
        if slot.fname != "" {
          var sequence := if !firstWritten then First else Additional;
          firstWritten := true;
          var person := PersonEntry(GivenOf(slot), slot.lname, slot.inst, sequence);
          r := r + person;
          LinesAssoc(written, person, PersonList(slots[i..], true));
        }
        i := i + 1;
      }
      assert slots[5..] == [];
    }

    /** One `<person_name>`, line by line. */
    static method PersonEntry(given: string, lname: string, inst: string, sequence: Sequence) returns (r: seq<Line>)
      ensures r == PersonBlock(given, lname, inst, sequence)
    {
      r := [Open(3, PersonName, Author(sequence))];
      r := r + [Leaf(4, GivenName, NoAttrs, given)];
      if lname != "" {
        r := r + [Leaf(4, Surname, NoAttrs, lname)];
      }
      if inst != "" {
        r := r + [Leaf(4, Affiliation, NoAttrs, inst)];
      }
      r := r + [Close(3, PersonName)];
    }

    /**
     * `combine_xml`: the envelope around the two stored fragments, with the
     * journal DOI (or else the base name) as batch id and the clock reading
     * as timestamp. Fails when the journal sheet was not read or has no row.
     */
    method CombineXml(now: Clock) returns (r: Result<string>)
      requires ValidClock(now)
      ensures journalData.None? ==> r == Err(DataNotLoaded)
      ensures journalData == Some([]) ==> r == Err(NoJournalRow)
      ensures journalData.Some? && journalData.value != [] ==>
        r == Ok(Envelope(BatchId(journalData.value[0], baseFilename), Stamp(now), journalXml, articleXml))
    {
      if journalData.None? {
        return Err(DataNotLoaded);
      }
      if |journalData.value| == 0 {
        return Err(NoJournalRow);
      }
      var batchId := BatchId(journalData.value[0], baseFilename);
      var timestamp := Stamp(now);
      r := Ok(Envelope(batchId, timestamp, journalXml, articleXml));
    }

    /**
     * `generate_xml` with the two sheets' rows and the clock passed in:
     * loads, builds both fragments, combines them and returns the output
     * path with the document instead of writing it. Any failure stops it.
     */
    method GenerateXml(journal: seq<Row>, articles: seq<Row>, toDatetime: DateParser, now: Clock)
      returns (r: Result<(string, string)>)
      requires ValidClock(now)
      modifies this`journalData, this`articleData, this`articleFile, this`journalXml, this`articleXml
      ensures journalData == Some(journal) && articleData == Some(articles)
      ensures articleFile == ArticleFilePath(folderPath, baseFilename)
      ensures journalXml == if journal != [] then JournalXml(Some(journal), toDatetime).value else old(journalXml)
      ensures articleXml ==
        if journal != [] && ArticleXml(Some(articles), toDatetime).Ok? then ArticleXml(Some(articles), toDatetime).value
        else old(articleXml)
      ensures journal == [] ==> r == Err(NoJournalRow)
      ensures journal != [] ==> (r.Ok? <==> ArticleXml(Some(articles), toDatetime).Ok?)
      ensures journal != [] && r.Err? ==> r.error == ArticleXml(Some(articles), toDatetime).error
      ensures r.Ok? ==>
        && journal != []
        && r.value == (OutputPath(baseFilename), Envelope(BatchId(journal[0], baseFilename), Stamp(now), journalXml, articleXml))
    {
      LoadData(journal, articles);
      var j := CreateJournalXml(toDatetime);
      if j.Err? {
        return Err(j.error);
      }
      var a := CreateArticleXml(toDatetime);
      if a.Err? {
        return Err(a.error);
      }
      var doc := CombineXml(now);
      r := Ok((OutputPath(baseFilename), doc.value));
    }
  }
}
