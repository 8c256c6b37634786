/**
 * The journal fragment of the deposit: `<journal_metadata>` followed by
 * `<journal_issue>`, built from the first row of the journal sheet
 * (`create_journal_xml`). This module states the fragment as a function of
 * the normalised row; the class in module Generator builds it line by line
 * and is proved to produce exactly this.
 */
module Journal {
  import opened Errors
  import opened Strings
  import opened Cells
  import opened Xml

  /** The normalised values of the journal row, as the builder reads them. */
  datatype JournalFields = JournalFields(
    title: string,
    abbrev: string,
    printIssn: string,
    electronicIssn: string,
    doi: string,
    url: string,
    printDate: DateParts,
    onlineDate: DateParts,
    volume: string,
    issue: string,
    issueDoi: string,
    issueUrl: string)

  /** A field is fit for the deposit: trimmed text, or an ISSN, a URL or a date of the accepted shape. */
  predicate Normalised(f: JournalFields) {
    && Stripped(f.title) && Stripped(f.abbrev) && Stripped(f.doi) && Stripped(f.volume)
    && Stripped(f.issue) && Stripped(f.issueDoi)
    && (f.printIssn == "" || IsIssn(f.printIssn))
    && (f.electronicIssn == "" || IsIssn(f.electronicIssn))
    && (f.url == "" || MatchesScheme(f.url))
    && (f.issueUrl == "" || MatchesScheme(f.issueUrl))
    && (f.printDate == NoDate || Complete(f.printDate))
    && (f.onlineDate == NoDate || Complete(f.onlineDate))
  }

  /** The column reads and normalisations at the top of `create_journal_xml`. */
  function FieldsOf(row: Row, toDatetime: DateParser): (f: JournalFields)
    ensures Normalised(f)
    ensures f.title == Safe(Get(row, "Journal Title"))
    ensures Complete(f.printDate) <==> Get(row, "Pub_Date_Print") != Missing && toDatetime(Get(row, "Pub_Date_Print")).Some?
    ensures Complete(f.onlineDate) <==> Get(row, "Pub_Date_Online") != Missing && toDatetime(Get(row, "Pub_Date_Online")).Some?
  {
    var url, issueUrl := UrlOrEmpty(Get(row, "Journal_URL")), UrlOrEmpty(Get(row, "Issue_URL"));
    SchemePrefixes(url);
    SchemePrefixes(issueUrl);
    JournalFields(
      Safe(Get(row, "Journal Title")),
      Safe(Get(row, "Abbrev")),
      FmtIssn(Get(row, "Print_ISSN")),
      FmtIssn(Get(row, "Electronic_ISSN")),
      Safe(Get(row, "Journal_DOI")),
      url,
      Ymd(Get(row, "Pub_Date_Print"), toDatetime),
      Ymd(Get(row, "Pub_Date_Online"), toDatetime),
      Safe(Get(row, "Volume")),
      Safe(Get(row, "Issue")),
      Safe(Get(row, "Issue_DOI")),
      issueUrl)
  }

  /** The children of `<journal_metadata>`. */
  function MetadataBody(f: JournalFields): seq<Line> {
    [Leaf(1, FullTitle, NoAttrs, f.title)]
    + OptLeaf(1, AbbrevTitle, NoAttrs, f.abbrev)
    + OptLeaf(1, Issn, MediaType(Print), f.printIssn)
    + OptLeaf(1, Issn, MediaType(Electronic), f.electronicIssn)
    + DoiDataBlock(1, f.doi, f.url)
  }

  /** `if volume:` a `<journal_volume>` holding `<volume>`. */
  function VolumeBlock(volume: string): seq<Line> {
    if volume == "" then [] else [Open(1, JournalVolume, NoAttrs), Leaf(2, Volume, NoAttrs, volume), Close(1, JournalVolume)]
  }

  /** The children of `<journal_issue>`. */
  function IssueBody(f: JournalFields): seq<Line> {
    DateBlock(1, Print, f.printDate)
    + DateBlock(1, Online, f.onlineDate)
    + VolumeBlock(f.volume)
    + OptLeaf(1, Issue, NoAttrs, f.issue)
    + DoiDataBlock(1, f.issueDoi, f.issueUrl)
  }

  function Metadata(f: JournalFields): seq<Line> {
    [Open(0, JournalMetadata, NoAttrs)] + MetadataBody(f) + [Close(0, JournalMetadata)]
  }

  function IssueLines(f: JournalFields): seq<Line> {
    [Open(0, JournalIssue, NoAttrs)] + IssueBody(f) + [Close(0, JournalIssue)]
  }

  /** Every line `create_journal_xml` appends, in order. */
  function JournalLines(f: JournalFields): seq<Line> {
    Metadata(f) + IssueLines(f)
  }

  /** The `<journal_metadata>` lines in the order they are appended one at a time. */
  lemma MetadataFlat(f: JournalFields)
    ensures Metadata(f) ==
      [Open(0, JournalMetadata, NoAttrs)] + [Leaf(1, FullTitle, NoAttrs, f.title)]
      + OptLeaf(1, AbbrevTitle, NoAttrs, f.abbrev) + OptLeaf(1, Issn, MediaType(Print), f.printIssn)
      + OptLeaf(1, Issn, MediaType(Electronic), f.electronicIssn) + DoiDataBlock(1, f.doi, f.url)
      + [Close(0, JournalMetadata)]
  {
    var oj, ft, ab, pi, ei, dj := [Open(0, JournalMetadata, NoAttrs)], [Leaf(1, FullTitle, NoAttrs, f.title)],
      OptLeaf(1, AbbrevTitle, NoAttrs, f.abbrev), OptLeaf(1, Issn, MediaType(Print), f.printIssn),
      OptLeaf(1, Issn, MediaType(Electronic), f.electronicIssn), DoiDataBlock(1, f.doi, f.url);
    LinesAssoc(oj, ft + ab + pi + ei, dj);
    LinesAssoc(oj, ft + ab + pi, ei);
    LinesAssoc(oj, ft + ab, pi);
    LinesAssoc(oj, ft, ab);
  }

  /** The `<journal_issue>` lines in the order they are appended one piece at a time. */
  lemma IssueFlat(f: JournalFields)
    ensures IssueLines(f) ==
      [Open(0, JournalIssue, NoAttrs)] + DateBlock(1, Print, f.printDate) + DateBlock(1, Online, f.onlineDate)
      + VolumeBlock(f.volume) + OptLeaf(1, Issue, NoAttrs, f.issue) + DoiDataBlock(1, f.issueDoi, f.issueUrl)
      + [Close(0, JournalIssue)]
  {
    var oi, d1, d2, v, i, dd := [Open(0, JournalIssue, NoAttrs)], DateBlock(1, Print, f.printDate),
      DateBlock(1, Online, f.onlineDate), VolumeBlock(f.volume), OptLeaf(1, Issue, NoAttrs, f.issue),
      DoiDataBlock(1, f.issueDoi, f.issueUrl);
    LinesAssoc(oi, d1 + d2 + v + i, dd);
    LinesAssoc(oi, d1 + d2 + v, i);
    LinesAssoc(oi, d1 + d2, v);
    LinesAssoc(oi, d1, d2);
  }

  /**
   * `create_journal_xml` as a value: fails when the sheet was not read or
   * has no first row, and otherwise is the newline-joined fragment.
   */
  function JournalXml(data: Option<seq<Row>>, toDatetime: DateParser): (r: Result<string>)
    ensures data.None? <==> r == Err(DataNotLoaded)
    ensures data == Some([]) <==> r == Err(NoJournalRow)
    ensures r.Ok? <==> data.Some? && data.value != []
    ensures r.Ok? ==> data.Some? && data.value != [] && r.value == Serialize(JournalLines(FieldsOf(data.value[0], toDatetime)))
  {
    match data
    case None => Err(DataNotLoaded)
    case Some(rows) =>
      if rows == [] then Err(NoJournalRow) else Ok(Serialize(JournalLines(FieldsOf(rows[0], toDatetime))))
  }

  // ------------------------------------------------------------- structure

  lemma VolumeShape(volume: string)
    requires volume != ""
    ensures VolumeBlock(volume) == [Open(1, JournalVolume, NoAttrs)] + OptLeaf(2, Volume, NoAttrs, volume) + [Close(1, JournalVolume)]
  {
  }

  lemma VolumeNested(volume: string)
    ensures WellNested(VolumeBlock(volume), 1)
  {
    if volume != "" {
      OptLeafNested(2, Volume, NoAttrs, volume);
      WellNestedWrap(OptLeaf(2, Volume, NoAttrs, volume), 1, JournalVolume, NoAttrs);
      VolumeShape(volume);
    }
  }

  /** `<journal_volume>` exists iff the volume is non-empty. */
  lemma VolumeOpens(volume: string, t: Tag)
    ensures Opens(VolumeBlock(volume), t) == Opt(t == JournalVolume && volume != "", NoAttrs)
  {
    if volume != "" {
      VolumeShape(volume);
      WrapOpens(1, JournalVolume, NoAttrs, OptLeaf(2, Volume, NoAttrs, volume), t);
      OptLeafOpens(2, Volume, NoAttrs, volume, t);
    }
  }

  /** `<volume>` holds the volume, and is written iff the volume is non-empty. */
  lemma VolumeTexts(volume: string, t: Tag, a: Attrs)
    ensures Texts(VolumeBlock(volume), t, a) == Opt(t == Volume && a == NoAttrs && volume != "", volume)
  {
    if volume != "" {
      VolumeShape(volume);
      WrapTexts(1, JournalVolume, NoAttrs, OptLeaf(2, Volume, NoAttrs, volume), t, a);
      OptLeafTexts(2, Volume, NoAttrs, volume, t, a);
    }
  }

  lemma VolumeTags(volume: string, k: nat)
    ensures TagsAt(VolumeBlock(volume), k) == Opt(k == 1 && volume != "", JournalVolume) + Opt(k == 2 && volume != "", Volume)
  {
    if volume != "" {
      VolumeShape(volume);
      WrapTags(1, JournalVolume, NoAttrs, OptLeaf(2, Volume, NoAttrs, volume), k);
      OptLeafTags(2, Volume, NoAttrs, volume, k);
    }
  }

  lemma MetadataBodyOpens(f: JournalFields, t: Tag)
    ensures Opens(MetadataBody(f), t) == Opt(t == DoiData && (f.doi != "" || f.url != ""), NoAttrs)
  {
    var m0, m1, m2, m3, m4 := [Leaf(1, FullTitle, NoAttrs, f.title)], OptLeaf(1, AbbrevTitle, NoAttrs, f.abbrev),
      OptLeaf(1, Issn, MediaType(Print), f.printIssn), OptLeaf(1, Issn, MediaType(Electronic), f.electronicIssn),
      DoiDataBlock(1, f.doi, f.url);
    OpensAppend5(m0, m1, m2, m3, m4, t);
    OpensOne(m0[0], t);
    OptLeafOpens(1, AbbrevTitle, NoAttrs, f.abbrev, t);
    OptLeafOpens(1, Issn, MediaType(Print), f.printIssn, t);
    OptLeafOpens(1, Issn, MediaType(Electronic), f.electronicIssn, t);
    DoiDataOpens(1, f.doi, f.url, t);
  }

  lemma MetadataBodyTexts(f: JournalFields, t: Tag, a: Attrs)
    ensures Texts(MetadataBody(f), t, a) ==
      Opt(t == FullTitle && a == NoAttrs, f.title)
      + Opt(t == AbbrevTitle && a == NoAttrs && f.abbrev != "", f.abbrev)
      + Opt(t == Issn && a == MediaType(Print) && f.printIssn != "", f.printIssn)
      + Opt(t == Issn && a == MediaType(Electronic) && f.electronicIssn != "", f.electronicIssn)
      + Texts(DoiDataBlock(1, f.doi, f.url), t, a)
  {
    var m0, m1, m2, m3, m4 := [Leaf(1, FullTitle, NoAttrs, f.title)], OptLeaf(1, AbbrevTitle, NoAttrs, f.abbrev),
      OptLeaf(1, Issn, MediaType(Print), f.printIssn), OptLeaf(1, Issn, MediaType(Electronic), f.electronicIssn),
      DoiDataBlock(1, f.doi, f.url);
    TextsAppend5(m0, m1, m2, m3, m4, t, a);
    TextsOne(m0[0], t, a);
    OptLeafTexts(1, AbbrevTitle, NoAttrs, f.abbrev, t, a);
    OptLeafTexts(1, Issn, MediaType(Print), f.printIssn, t, a);
    OptLeafTexts(1, Issn, MediaType(Electronic), f.electronicIssn, t, a);
  }

  lemma MetadataBodyTags(f: JournalFields, k: nat)
    ensures TagsAt(MetadataBody(f), k) ==
      Opt(k == 1, FullTitle) + Opt(k == 1 && f.abbrev != "", AbbrevTitle) + Opt(k == 1 && f.printIssn != "", Issn)
      + Opt(k == 1 && f.electronicIssn != "", Issn) + TagsAt(DoiDataBlock(1, f.doi, f.url), k)
  {
    var m0, m1, m2, m3, m4 := [Leaf(1, FullTitle, NoAttrs, f.title)], OptLeaf(1, AbbrevTitle, NoAttrs, f.abbrev),
      OptLeaf(1, Issn, MediaType(Print), f.printIssn), OptLeaf(1, Issn, MediaType(Electronic), f.electronicIssn),
      DoiDataBlock(1, f.doi, f.url);
    TagsAtAppend5(m0, m1, m2, m3, m4, k);
    TagsAtOne(m0[0], k);
    OptLeafTags(1, AbbrevTitle, NoAttrs, f.abbrev, k);
    OptLeafTags(1, Issn, MediaType(Print), f.printIssn, k);
    OptLeafTags(1, Issn, MediaType(Electronic), f.electronicIssn, k);
  }

  lemma IssueBodyOpens(f: JournalFields, t: Tag)
    ensures Opens(IssueBody(f), t) ==
      Opt(t == PublicationDate && Complete(f.printDate), MediaType(Print))
      + Opt(t == PublicationDate && Complete(f.onlineDate), MediaType(Online))
      + Opt(t == JournalVolume && f.volume != "", NoAttrs)
      + Opt(t == DoiData && (f.issueDoi != "" || f.issueUrl != ""), NoAttrs)
  {
    var i0, i1, i2, i3, i4 := DateBlock(1, Print, f.printDate), DateBlock(1, Online, f.onlineDate),
      VolumeBlock(f.volume), OptLeaf(1, Issue, NoAttrs, f.issue), DoiDataBlock(1, f.issueDoi, f.issueUrl);
    OpensAppend5(i0, i1, i2, i3, i4, t);
    DateOpens(1, Print, f.printDate, t);
    DateOpens(1, Online, f.onlineDate, t);
    VolumeOpens(f.volume, t);
    OptLeafOpens(1, Issue, NoAttrs, f.issue, t);
    DoiDataOpens(1, f.issueDoi, f.issueUrl, t);
  }

  lemma IssueBodyTexts(f: JournalFields, t: Tag, a: Attrs)
    ensures Texts(IssueBody(f), t, a) ==
      Texts(DateBlock(1, Print, f.printDate), t, a) + Texts(DateBlock(1, Online, f.onlineDate), t, a)
      + Texts(VolumeBlock(f.volume), t, a) + Texts(OptLeaf(1, Issue, NoAttrs, f.issue), t, a)
      + Texts(DoiDataBlock(1, f.issueDoi, f.issueUrl), t, a)
  {
    var i0, i1, i2, i3, i4 := DateBlock(1, Print, f.printDate), DateBlock(1, Online, f.onlineDate),
      VolumeBlock(f.volume), OptLeaf(1, Issue, NoAttrs, f.issue), DoiDataBlock(1, f.issueDoi, f.issueUrl);
    TextsAppend5(i0, i1, i2, i3, i4, t, a);
  }

  lemma IssueBodyTags(f: JournalFields, k: nat)
    ensures TagsAt(IssueBody(f), k) ==
      TagsAt(DateBlock(1, Print, f.printDate), k) + TagsAt(DateBlock(1, Online, f.onlineDate), k)
      + TagsAt(VolumeBlock(f.volume), k) + TagsAt(OptLeaf(1, Issue, NoAttrs, f.issue), k)
      + TagsAt(DoiDataBlock(1, f.issueDoi, f.issueUrl), k)
  {
    var i0, i1, i2, i3, i4 := DateBlock(1, Print, f.printDate), DateBlock(1, Online, f.onlineDate),
      VolumeBlock(f.volume), OptLeaf(1, Issue, NoAttrs, f.issue), DoiDataBlock(1, f.issueDoi, f.issueUrl);
    TagsAtAppend5(i0, i1, i2, i3, i4, k);
  }

  lemma MetadataNested(f: JournalFields)
    ensures WellNested(Metadata(f), 0)
  {
    var m0, m1, m2, m3, m4 := [Leaf(1, FullTitle, NoAttrs, f.title)], OptLeaf(1, AbbrevTitle, NoAttrs, f.abbrev),
      OptLeaf(1, Issn, MediaType(Print), f.printIssn), OptLeaf(1, Issn, MediaType(Electronic), f.electronicIssn),
      DoiDataBlock(1, f.doi, f.url);
    WellNestedLeaf(1, FullTitle, NoAttrs, f.title);
    OptLeafNested(1, AbbrevTitle, NoAttrs, f.abbrev);
    OptLeafNested(1, Issn, MediaType(Print), f.printIssn);
    OptLeafNested(1, Issn, MediaType(Electronic), f.electronicIssn);
    DoiDataNested(1, f.doi, f.url);
    WellNestedAppend(m0, m1, 1);
    WellNestedAppend(m0 + m1, m2, 1);
    WellNestedAppend(m0 + m1 + m2, m3, 1);
    WellNestedAppend(m0 + m1 + m2 + m3, m4, 1);
    WellNestedWrap(MetadataBody(f), 0, JournalMetadata, NoAttrs);
  }

  lemma IssueNested(f: JournalFields)
    ensures WellNested(IssueLines(f), 0)
  {
    var i0, i1, i2, i3, i4 := DateBlock(1, Print, f.printDate), DateBlock(1, Online, f.onlineDate),
      VolumeBlock(f.volume), OptLeaf(1, Issue, NoAttrs, f.issue), DoiDataBlock(1, f.issueDoi, f.issueUrl);
    DateNested(1, Print, f.printDate);
    DateNested(1, Online, f.onlineDate);
    VolumeNested(f.volume);
    OptLeafNested(1, Issue, NoAttrs, f.issue);
    DoiDataNested(1, f.issueDoi, f.issueUrl);
    WellNestedAppend(i0, i1, 1);
    WellNestedAppend(i0 + i1, i2, 1);
    WellNestedAppend(i0 + i1 + i2, i3, 1);
    WellNestedAppend(i0 + i1 + i2 + i3, i4, 1);
    WellNestedWrap(IssueBody(f), 0, JournalIssue, NoAttrs);
  }

  lemma JournalTextsSplit(f: JournalFields, t: Tag, a: Attrs)
    ensures Texts(JournalLines(f), t, a) == Texts(MetadataBody(f), t, a) + Texts(IssueBody(f), t, a)
  {
    TextsAppend(Metadata(f), IssueLines(f), t, a);
    WrapTexts(0, JournalMetadata, NoAttrs, MetadataBody(f), t, a);
    WrapTexts(0, JournalIssue, NoAttrs, IssueBody(f), t, a);
  }

  lemma JournalOpensSplit(f: JournalFields, t: Tag)
    ensures Opens(JournalLines(f), t) ==
      Opt(t == JournalMetadata, NoAttrs) + Opens(MetadataBody(f), t) + (Opt(t == JournalIssue, NoAttrs) + Opens(IssueBody(f), t))
  {
    OpensAppend(Metadata(f), IssueLines(f), t);
    WrapOpens(0, JournalMetadata, NoAttrs, MetadataBody(f), t);
    WrapOpens(0, JournalIssue, NoAttrs, IssueBody(f), t);
  }

  /** Outside the dates, what the issue element says, one kind of one-line element at a time. */
  lemma IssueLeafTexts(f: JournalFields, t: Tag, a: Attrs)
    requires t != Month && t != Day && t != Year
    ensures Texts(IssueBody(f), t, a) ==
      Opt(t == Volume && a == NoAttrs && f.volume != "", f.volume)
      + Opt(t == Issue && a == NoAttrs && f.issue != "", f.issue)
      + Texts(DoiDataBlock(1, f.issueDoi, f.issueUrl), t, a)
  {
    IssueBodyTexts(f, t, a);
    DateTexts(1, Print, f.printDate, t, a);
    DateTexts(1, Online, f.onlineDate, t, a);
    VolumeTexts(f.volume, t, a);
    OptLeafTexts(1, Issue, NoAttrs, f.issue, t, a);
  }

  // ------------------------------------------------------------ properties

  /** The journal fragment is two well-nested top-level elements: the metadata, then the issue. */
  lemma JournalNested(f: JournalFields)
    ensures WellNested(JournalLines(f), 0)
    ensures TagsAt(JournalLines(f), 0) == [JournalMetadata, JournalIssue]
  {
    MetadataNested(f);
    IssueNested(f);
    WellNestedAppend(Metadata(f), IssueLines(f), 0);
    TagsAtAppend(Metadata(f), IssueLines(f), 0);
    WrapTags(0, JournalMetadata, NoAttrs, MetadataBody(f), 0);
    WrapTags(0, JournalIssue, NoAttrs, IssueBody(f), 0);
    MetadataBodyTags(f, 0);
    IssueBodyTags(f, 0);
    DoiDataTags(1, f.doi, f.url, 0);
    DateTags(1, Print, f.printDate, 0);
    DateTags(1, Online, f.onlineDate, 0);
    VolumeTags(f.volume, 0);
    OptLeafTags(1, Issue, NoAttrs, f.issue, 0);
    DoiDataTags(1, f.issueDoi, f.issueUrl, 0);
  }

  /**
   * The children of `<journal_metadata>`, in order: `full_title` always,
   * then `abbrev_title`, the print and the electronic `issn` and
   * `doi_data`, each only when its value is non-empty.
   */
  lemma MetadataChildren(f: JournalFields)
    ensures TagsAt(Metadata(f), 1) ==
      [FullTitle] + Opt(f.abbrev != "", AbbrevTitle) + Opt(f.printIssn != "", Issn)
      + Opt(f.electronicIssn != "", Issn) + Opt(f.doi != "" || f.url != "", DoiData)
  {
    var body := MetadataBody(f);
    assert TagsAt(Metadata(f), 1) == TagsAt(body, 1) by {
      WrapTags(0, JournalMetadata, NoAttrs, body, 1);
    }
    var d := TagsAt(DoiDataBlock(1, f.doi, f.url), 1);
    assert d == Opt(f.doi != "" || f.url != "", DoiData) by {
      DoiDataTags(1, f.doi, f.url, 1);
    }
    MetadataBodyTags(f, 1);
  }

  /**
   * The children of `<journal_issue>`, in order: the print and the online
   * `publication_date` (each only when complete), `journal_volume`, `issue`
   * and `doi_data`, each only when its value is non-empty.
   */
  lemma IssueChildren(f: JournalFields)
    ensures TagsAt(IssueLines(f), 1) ==
      Opt(Complete(f.printDate), PublicationDate) + Opt(Complete(f.onlineDate), PublicationDate)
      + Opt(f.volume != "", JournalVolume) + Opt(f.issue != "", Issue) + Opt(f.issueDoi != "" || f.issueUrl != "", DoiData)
  {
    var body := IssueBody(f);
    assert TagsAt(IssueLines(f), 1) == TagsAt(body, 1) by {
      WrapTags(0, JournalIssue, NoAttrs, body, 1);
    }
    var p := TagsAt(DateBlock(1, Print, f.printDate), 1);
    assert p == Opt(Complete(f.printDate), PublicationDate) by {
      DateTags(1, Print, f.printDate, 1);
    }
    var o := TagsAt(DateBlock(1, Online, f.onlineDate), 1);
    assert o == Opt(Complete(f.onlineDate), PublicationDate) by {
      DateTags(1, Online, f.onlineDate, 1);
    }
    var v := TagsAt(VolumeBlock(f.volume), 1);
    assert v == Opt(f.volume != "", JournalVolume) by {
      VolumeTags(f.volume, 1);
    }
    var i := TagsAt(OptLeaf(1, Issue, NoAttrs, f.issue), 1);
    assert i == Opt(f.issue != "", Issue) by {
      OptLeafTags(1, Issue, NoAttrs, f.issue, 1);
    }
    var d := TagsAt(DoiDataBlock(1, f.issueDoi, f.issueUrl), 1);
    assert d == Opt(f.issueDoi != "" || f.issueUrl != "", DoiData) by {
      DoiDataTags(1, f.issueDoi, f.issueUrl, 1);
    }
    IssueBodyTags(f, 1);
  }

  /** The issue element holds none of the metadata's one-line elements. */
  lemma IssueTextsNone(f: JournalFields, t: Tag, a: Attrs)
    requires t == FullTitle || t == AbbrevTitle || t == Issn
    ensures Texts(IssueBody(f), t, a) == []
  {
    IssueLeafTexts(f, t, a);
    DoiDataTexts(1, f.issueDoi, f.issueUrl, t, a);
  }

  /** The metadata element holds none of the issue's one-line elements. */
  lemma MetadataTextsNone(f: JournalFields, t: Tag, a: Attrs)
    requires t == Volume || t == Issue || t == Month || t == Day || t == Year
    ensures Texts(MetadataBody(f), t, a) == []
  {
    MetadataBodyTexts(f, t, a);
    DoiDataTexts(1, f.doi, f.url, t, a);
  }

  /** `<full_title>` is always written, once, holding the title even when it is empty. */
  lemma JournalFullTitle(f: JournalFields)
    ensures Texts(JournalLines(f), FullTitle, NoAttrs) == [f.title]
  {
    assert Texts(MetadataBody(f), FullTitle, NoAttrs) == [f.title] by {
      MetadataBodyTexts(f, FullTitle, NoAttrs);
      DoiDataTexts(1, f.doi, f.url, FullTitle, NoAttrs);
    }
    IssueTextsNone(f, FullTitle, NoAttrs);
    JournalTextsSplit(f, FullTitle, NoAttrs);
  }

  /** `<abbrev_title>` is written iff the abbreviation is non-empty. */
  lemma JournalAbbrevTitle(f: JournalFields)
    ensures Texts(JournalLines(f), AbbrevTitle, NoAttrs) == Opt(f.abbrev != "", f.abbrev)
  {
    assert Texts(MetadataBody(f), AbbrevTitle, NoAttrs) == Opt(f.abbrev != "", f.abbrev) by {
      MetadataBodyTexts(f, AbbrevTitle, NoAttrs);
      DoiDataTexts(1, f.doi, f.url, AbbrevTitle, NoAttrs);
    }
    IssueTextsNone(f, AbbrevTitle, NoAttrs);
    JournalTextsSplit(f, AbbrevTitle, NoAttrs);
  }

  /** The `<issn>` of media type `m` is written iff that formatted ISSN is non-empty; there is no online ISSN. */
  lemma JournalIssn(f: JournalFields, m: Media)
    ensures Texts(JournalLines(f), Issn, MediaType(m)) ==
      Opt(m == Print && f.printIssn != "", f.printIssn) + Opt(m == Electronic && f.electronicIssn != "", f.electronicIssn)
  {
    assert Texts(MetadataBody(f), Issn, MediaType(m)) ==
      Opt(m == Print && f.printIssn != "", f.printIssn) + Opt(m == Electronic && f.electronicIssn != "", f.electronicIssn)
    by {
      MetadataBodyTexts(f, Issn, MediaType(m));
      assert Texts(DoiDataBlock(1, f.doi, f.url), Issn, MediaType(m)) == [] by {
        DoiDataTexts(1, f.doi, f.url, Issn, MediaType(m));
      }
      assert Opt(Issn == FullTitle && MediaType(m) == NoAttrs, f.title) == [];
      assert Opt(Issn == AbbrevTitle && MediaType(m) == NoAttrs && f.abbrev != "", f.abbrev) == [];
    }
    IssueTextsNone(f, Issn, MediaType(m));
    JournalTextsSplit(f, Issn, MediaType(m));
  }

  /** `<volume>` is written iff the volume is non-empty. */
  lemma JournalVolumeText(f: JournalFields)
    ensures Texts(JournalLines(f), Volume, NoAttrs) == Opt(f.volume != "", f.volume)
  {
    MetadataTextsNone(f, Volume, NoAttrs);
    assert Texts(IssueBody(f), Volume, NoAttrs) == Opt(f.volume != "", f.volume) by {
      IssueLeafTexts(f, Volume, NoAttrs);
      DoiDataTexts(1, f.issueDoi, f.issueUrl, Volume, NoAttrs);
    }
    JournalTextsSplit(f, Volume, NoAttrs);
  }

  /** `<issue>` is written iff the issue is non-empty. */
  lemma JournalIssueText(f: JournalFields)
    ensures Texts(JournalLines(f), Issue, NoAttrs) == Opt(f.issue != "", f.issue)
  {
    MetadataTextsNone(f, Issue, NoAttrs);
    assert Texts(IssueBody(f), Issue, NoAttrs) == Opt(f.issue != "", f.issue) by {
      IssueLeafTexts(f, Issue, NoAttrs);
      DoiDataTexts(1, f.issueDoi, f.issueUrl, Issue, NoAttrs);
    }
    JournalTextsSplit(f, Issue, NoAttrs);
  }

  /** The journal's DOI, then the issue's, each iff non-empty. */
  lemma JournalDois(f: JournalFields)
    ensures Texts(JournalLines(f), Doi, NoAttrs) == Opt(f.doi != "", f.doi) + Opt(f.issueDoi != "", f.issueDoi)
  {
    assert Texts(MetadataBody(f), Doi, NoAttrs) == Opt(f.doi != "", f.doi) by {
      MetadataBodyTexts(f, Doi, NoAttrs);
      DoiDataTexts(1, f.doi, f.url, Doi, NoAttrs);
    }
    assert Texts(IssueBody(f), Doi, NoAttrs) == Opt(f.issueDoi != "", f.issueDoi) by {
      IssueLeafTexts(f, Doi, NoAttrs);
      DoiDataTexts(1, f.issueDoi, f.issueUrl, Doi, NoAttrs);
    }
    JournalTextsSplit(f, Doi, NoAttrs);
  }

  /** The journal's URL, then the issue's, each iff non-empty. */
  lemma JournalResources(f: JournalFields)
    ensures Texts(JournalLines(f), Resource, NoAttrs) == Opt(f.url != "", f.url) + Opt(f.issueUrl != "", f.issueUrl)
  {
    assert Texts(MetadataBody(f), Resource, NoAttrs) == Opt(f.url != "", f.url) by {
      MetadataBodyTexts(f, Resource, NoAttrs);
      DoiDataTexts(1, f.doi, f.url, Resource, NoAttrs);
    }
    assert Texts(IssueBody(f), Resource, NoAttrs) == Opt(f.issueUrl != "", f.issueUrl) by {
      IssueLeafTexts(f, Resource, NoAttrs);
      DoiDataTexts(1, f.issueDoi, f.issueUrl, Resource, NoAttrs);
    }
    JournalTextsSplit(f, Resource, NoAttrs);
  }

  /** One `<doi_data>` for the journal iff it has a DOI or URL, then one for the issue likewise. */
  lemma JournalDoiData(f: JournalFields)
    ensures Opens(JournalLines(f), DoiData) ==
      Opt(f.doi != "" || f.url != "", NoAttrs) + Opt(f.issueDoi != "" || f.issueUrl != "", NoAttrs)
  {
    JournalOpensSplit(f, DoiData);
    MetadataBodyOpens(f, DoiData);
    IssueBodyOpens(f, DoiData);
  }

  /** Dates are all or nothing: the print date element exists iff the print date parsed, then the online one likewise. */
  lemma JournalDates(f: JournalFields)
    ensures Opens(JournalLines(f), PublicationDate) ==
      Opt(Complete(f.printDate), MediaType(Print)) + Opt(Complete(f.onlineDate), MediaType(Online))
  {
    JournalOpensSplit(f, PublicationDate);
    MetadataBodyOpens(f, PublicationDate);
    IssueBodyOpens(f, PublicationDate);
  }

  /** The part of a date a `<month>`, `<day>` or `<year>` element holds. */
  function DatePart(p: DateParts, t: Tag): string
    requires t == Month || t == Day || t == Year
  {
    if t == Month then p.month else if t == Day then p.day else p.year
  }

  lemma DatePartTexts(media: Media, p: DateParts, t: Tag)
    requires t == Month || t == Day || t == Year
    ensures Texts(DateBlock(1, media, p), t, NoAttrs) == Opt(Complete(p), DatePart(p, t))
  {
    DateTexts(1, media, p, t, NoAttrs);
  }

  /** Each written date holds its own month, day and year; `DateTags` gives their order. */
  lemma JournalDateParts(f: JournalFields, t: Tag)
    requires t == Month || t == Day || t == Year
    ensures Texts(JournalLines(f), t, NoAttrs) ==
      Opt(Complete(f.printDate), DatePart(f.printDate, t)) + Opt(Complete(f.onlineDate), DatePart(f.onlineDate, t))
  {
    MetadataTextsNone(f, t, NoAttrs);
    var pd := Opt(Complete(f.printDate), DatePart(f.printDate, t));
    var od := Opt(Complete(f.onlineDate), DatePart(f.onlineDate, t));
    assert Texts(DateBlock(1, Print, f.printDate), t, NoAttrs) == pd by { DatePartTexts(Print, f.printDate, t); }
    assert Texts(DateBlock(1, Online, f.onlineDate), t, NoAttrs) == od by { DatePartTexts(Online, f.onlineDate, t); }
    assert Texts(VolumeBlock(f.volume), t, NoAttrs) == [] by { VolumeTexts(f.volume, t, NoAttrs); }
    assert Texts(OptLeaf(1, Issue, NoAttrs, f.issue), t, NoAttrs) == [] by {
      OptLeafTexts(1, Issue, NoAttrs, f.issue, t, NoAttrs);
    }
    assert Texts(DoiDataBlock(1, f.issueDoi, f.issueUrl), t, NoAttrs) == [] by {
      DoiDataTexts(1, f.issueDoi, f.issueUrl, t, NoAttrs);
    }
    IssueBodyTexts(f, t, NoAttrs);
    JournalTextsSplit(f, t, NoAttrs);
  }
}
