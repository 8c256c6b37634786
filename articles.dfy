/**
 * The article fragment of the deposit (`create_article_xml`): one
 * `<journal_article>` per row of the article sheet, in row order, each
 * holding its titles, its contributors (up to five author slots), an
 * optional online date and its `<doi_data>`. The batch fails as a whole
 * when any row lacks a usable full-text URL. The class in module Generator
 * builds the fragment with `create_article_xml`'s loops and is proved to produce
 * exactly what this module defines.
 */
module Articles {
  import opened Errors
  import opened Strings
  import opened Cells
  import opened Xml

  // ----------------------------------------------------------- author slots

  /** The four normalised cells of one author slot `author{i}_*`. */
  datatype Slot = Slot(fname: string, mname: string, lname: string, inst: string)

  /** The column `author{i}_{part}`. */
  function SlotColumn(i: nat, part: string): string {
    "author" + IntToString(i) + "_" + part
  }

  /** The slot `i` of a row, each cell passed through `_safe`. */
  function SlotOf(row: Row, i: nat): (s: Slot)
    ensures Stripped(s.fname) && Stripped(s.mname) && Stripped(s.lname) && Stripped(s.inst)
  {
    Slot(Safe(Get(row, SlotColumn(i, "fname"))), Safe(Get(row, SlotColumn(i, "mname"))),
      Safe(Get(row, SlotColumn(i, "lname"))), Safe(Get(row, SlotColumn(i, "inst"))))
  }

  /** The slots the builder visits: `range(1, 6)`. */
  const SlotCount := 5

  /** `[v for v in vs if v]`. */
  function NonEmpty(vs: seq<string>): (r: seq<string>)
    ensures forall i :: 0 <= i < |r| ==> r[i] != ""
  {
    if vs == [] then [] else (if vs[0] == "" then [] else [vs[0]]) + NonEmpty(vs[1..])
  }

  /** `" ".join([v for v in [fname, mname] if v]).strip()`. */
  function GivenOf(s: Slot): string {
    Strip(Join(NonEmpty([s.fname, s.mname]), " "))
  }

  /**
   * The given name of a written author is the first name, followed by a
   * single space and the middle name when there is one.
   */
  lemma GivenNameForm(s: Slot)
    requires s.fname != "" && Stripped(s.fname) && Stripped(s.mname)
    ensures GivenOf(s) == if s.mname == "" then s.fname else s.fname + " " + s.mname
  {
    var vs := [s.fname, s.mname];
    assert vs[1..] == [s.mname] && [s.mname][1..] == [];
    assert NonEmpty([s.mname]) == Opt(s.mname != "", s.mname) + NonEmpty([]);
    assert NonEmpty(vs) == [s.fname] + NonEmpty([s.mname]);
    if s.mname == "" {
      assert NonEmpty(vs) == [s.fname];
      StripStripped(s.fname);
    } else {
      assert NonEmpty(vs) == [s.fname, s.mname];
      var g := s.fname + " " + s.mname;
      assert Join([s.fname, s.mname], " ") == g;
      assert g[0] == s.fname[0] && g[|g| - 1] == s.mname[|s.mname| - 1];
      StripStripped(g);
    }
  }

  /** `'first' if not first_written else 'additional'`. */
  function Mark(firstWritten: bool): Sequence {
    if firstWritten then Additional else First
  }

  function PersonBody(given: string, lname: string, inst: string): seq<Line> {
    [Leaf(4, GivenName, NoAttrs, given)] + OptLeaf(4, Surname, NoAttrs, lname) + OptLeaf(4, Affiliation, NoAttrs, inst)
  }

  /** One `<person_name>`: the given name always, the surname and the affiliation when non-empty. */
  function PersonBlock(given: string, lname: string, inst: string, m: Sequence): seq<Line> {
    [Open(3, PersonName, Author(m))] + PersonBody(given, lname, inst) + [Close(3, PersonName)]
  }

  /** The `<person_name>` of a slot. */
  function PersonLines(s: Slot, m: Sequence): seq<Line> {
    PersonBlock(GivenOf(s), s.lname, s.inst, m)
  }

  /**
   * The people the slot loop writes, given whether a first author was
   * already written: a slot without a first name writes nothing and leaves
   * the flag as it is.
   */
  function PersonList(slots: seq<Slot>, firstWritten: bool): seq<Line>
    decreases |slots|
  {
    if slots == [] then []
    else if slots[0].fname == "" then PersonList(slots[1..], firstWritten)
    else PersonLines(slots[0], Mark(firstWritten)) + PersonList(slots[1..], true)
  }

  /** How many slots have a first name. */
  function Named(slots: seq<Slot>): nat {
    if slots == [] then 0 else (if slots[0].fname == "" then 0 else 1) + Named(slots[1..])
  }

  /** The given names of the slots with a first name, in slot order. */
  function Givens(slots: seq<Slot>): seq<string> {
    if slots == [] then [] else (if slots[0].fname == "" then [] else [GivenOf(slots[0])]) + Givens(slots[1..])
  }

  /** The sequence marks of `n` written authors: only the first is 'first', and only if none was written before. */
  function Marks(n: nat, firstWritten: bool): (r: seq<Attrs>)
    ensures |r| == n
  {
    seq(n, i => Author(if i == 0 && !firstWritten then First else Additional))
  }

  lemma {:induction false} NamedAppend(a: seq<Slot>, b: seq<Slot>)
    ensures Named(a + b) == Named(a) + Named(b)
    decreases |a|
  {
    if a == [] {
      assert a + b == b;
    } else {
      assert (a + b)[0] == a[0] && (a + b)[1..] == a[1..] + b;
      NamedAppend(a[1..], b);
    }
  }

  /** The slot loop can be split anywhere: the second part starts with the flag the first part leaves. */
  lemma {:induction false} PersonListAppend(a: seq<Slot>, b: seq<Slot>, firstWritten: bool)
    ensures PersonList(a + b, firstWritten) == PersonList(a, firstWritten) + PersonList(b, firstWritten || Named(a) > 0)
    decreases |a|
  {
    if a == [] {
      assert a + b == b;
    } else {
      assert (a + b)[0] == a[0] && (a + b)[1..] == a[1..] + b;
      if a[0].fname == "" {
        PersonListAppend(a[1..], b, firstWritten);
      } else {
        PersonListAppend(a[1..], b, true);
      }
    }
  }

  // --------------------------------------------------------- one person

  lemma PersonNested(given: string, lname: string, inst: string, m: Sequence)
    ensures WellNested(PersonBlock(given, lname, inst, m), 3)
  {
    var g := [Leaf(4, GivenName, NoAttrs, given)];
    var x, y := OptLeaf(4, Surname, NoAttrs, lname), OptLeaf(4, Affiliation, NoAttrs, inst);
    WellNestedLeaf(4, GivenName, NoAttrs, given);
    OptLeafNested(4, Surname, NoAttrs, lname);
    OptLeafNested(4, Affiliation, NoAttrs, inst);
    WellNestedAppend(g, x, 4);
    WellNestedAppend(g + x, y, 4);
    WellNestedWrap(PersonBody(given, lname, inst), 3, PersonName, Author(m));
  }

  lemma PersonOpens(given: string, lname: string, inst: string, m: Sequence, t: Tag)
    ensures Opens(PersonBlock(given, lname, inst, m), t) == Opt(t == PersonName, Author(m))
  {
    var g := [Leaf(4, GivenName, NoAttrs, given)];
    var x, y := OptLeaf(4, Surname, NoAttrs, lname), OptLeaf(4, Affiliation, NoAttrs, inst);
    WrapOpens(3, PersonName, Author(m), PersonBody(given, lname, inst), t);
    OpensAppend(g + x, y, t);
    OpensAppend(g, x, t);
    OpensOne(g[0], t);
    OptLeafOpens(4, Surname, NoAttrs, lname, t);
    OptLeafOpens(4, Affiliation, NoAttrs, inst, t);
  }

  /** What one author's one-line elements say: given name, then surname and affiliation when non-empty. */
  function PersonTexts(given: string, lname: string, inst: string, t: Tag, a: Attrs): seq<string> {
    Opt(t == GivenName && a == NoAttrs, given)
    + Opt(t == Surname && a == NoAttrs && lname != "", lname)
    + Opt(t == Affiliation && a == NoAttrs && inst != "", inst)
  }

  lemma PersonTextsIs(given: string, lname: string, inst: string, m: Sequence, t: Tag, a: Attrs)
    ensures Texts(PersonBlock(given, lname, inst, m), t, a) == PersonTexts(given, lname, inst, t, a)
  {
    var g := [Leaf(4, GivenName, NoAttrs, given)];
    var x, y := OptLeaf(4, Surname, NoAttrs, lname), OptLeaf(4, Affiliation, NoAttrs, inst);
    WrapTexts(3, PersonName, Author(m), PersonBody(given, lname, inst), t, a);
    TextsAppend(g + x, y, t, a);
    TextsAppend(g, x, t, a);
    TextsOne(g[0], t, a);
    OptLeafTexts(4, Surname, NoAttrs, lname, t, a);
    OptLeafTexts(4, Affiliation, NoAttrs, inst, t, a);
  }

  /** A person starts at depth 3 and its parts at depth 4: nothing at any other depth. */
  lemma PersonTags(given: string, lname: string, inst: string, m: Sequence, k: nat)
    requires k != 4
    ensures TagsAt(PersonBlock(given, lname, inst, m), k) == Opt(k == 3, PersonName)
  {
    var g := [Leaf(4, GivenName, NoAttrs, given)];
    var x, y := OptLeaf(4, Surname, NoAttrs, lname), OptLeaf(4, Affiliation, NoAttrs, inst);
    WrapTags(3, PersonName, Author(m), PersonBody(given, lname, inst), k);
    TagsAtAppend(g + x, y, k);
    TagsAtAppend(g, x, k);
    TagsAtOne(g[0], k);
    OptLeafTags(4, Surname, NoAttrs, lname, k);
    OptLeafTags(4, Affiliation, NoAttrs, inst, k);
  }

  // ------------------------------------------------------- all the people

  lemma {:induction false} PersonListNested(slots: seq<Slot>, firstWritten: bool)
    ensures WellNested(PersonList(slots, firstWritten), 3)
    decreases |slots|
  {
    if slots == [] {
      assert Nest([], 3, []) == Some([]);
    } else if slots[0].fname == "" {
      PersonListNested(slots[1..], firstWritten);
    } else {
      PersonNested(GivenOf(slots[0]), slots[0].lname, slots[0].inst, Mark(firstWritten));
      PersonListNested(slots[1..], true);
      WellNestedAppend(PersonLines(slots[0], Mark(firstWritten)), PersonList(slots[1..], true), 3);
    }
  }

  /**
   * Author sequencing: one `<person_name>` per slot with a first name, in
   * slot order; the first of them is marked 'first' (unless one was written
   * before) and every later one 'additional'.
   */
  lemma MarksCons(n: nat, firstWritten: bool)
    requires n > 0
    ensures Marks(n, firstWritten) == [Author(Mark(firstWritten))] + Marks(n - 1, true)
  {
    var r := [Author(Mark(firstWritten))] + Marks(n - 1, true);
    forall i | 0 <= i < n ensures Marks(n, firstWritten)[i] == r[i] {
      if i > 0 {
        assert r[i] == Marks(n - 1, true)[i - 1];
      }
    }
  }

  lemma {:induction false} PersonListOpens(slots: seq<Slot>, firstWritten: bool, t: Tag)
    ensures Opens(PersonList(slots, firstWritten), t) == if t == PersonName then Marks(Named(slots), firstWritten) else []
    decreases |slots|
  {
    if slots == [] {
    } else if slots[0].fname == "" {
      PersonListOpens(slots[1..], firstWritten, t);
    } else {
      var s, rest := slots[0], slots[1..];
      var m := Mark(firstWritten);
      PersonListOpens(rest, true, t);
      OpensAppend(PersonLines(s, m), PersonList(rest, true), t);
      PersonOpens(GivenOf(s), s.lname, s.inst, m, t);
      if t == PersonName {
        MarksCons(Named(slots), firstWritten);
      }
    }
  }

  /** The one-line elements of all the people, person by person in slot order. */
  function ListTexts(slots: seq<Slot>, t: Tag, a: Attrs): seq<string> {
    if slots == [] then [] else (if slots[0].fname == "" then [] else PersonTexts(GivenOf(slots[0]), slots[0].lname, slots[0].inst, t, a)) + ListTexts(slots[1..], t, a)
  }

  lemma {:induction false} PersonListTexts(slots: seq<Slot>, firstWritten: bool, t: Tag, a: Attrs)
    ensures Texts(PersonList(slots, firstWritten), t, a) == ListTexts(slots, t, a)
    decreases |slots|
  {
    if slots == [] {
    } else if slots[0].fname == "" {
      PersonListTexts(slots[1..], firstWritten, t, a);
    } else {
      PersonListTexts(slots[1..], true, t, a);
      TextsAppend(PersonLines(slots[0], Mark(firstWritten)), PersonList(slots[1..], true), t, a);
      PersonTextsIs(GivenOf(slots[0]), slots[0].lname, slots[0].inst, Mark(firstWritten), t, a);
    }
  }

  /** The `<given_name>` elements are the given names of the named slots, in order. */
  lemma {:induction false} ListTextsGivens(slots: seq<Slot>)
    ensures ListTexts(slots, GivenName, NoAttrs) == Givens(slots)
    decreases |slots|
  {
    if slots != [] {
      ListTextsGivens(slots[1..]);
      var s := slots[0];
      assert PersonTexts(GivenOf(s), s.lname, s.inst, GivenName, NoAttrs) == [GivenOf(s)];
    }
  }

  /** The people hold no one-line element other than given name, surname and affiliation. */
  lemma {:induction false} ListTextsOther(slots: seq<Slot>, t: Tag, a: Attrs)
    requires t != GivenName && t != Surname && t != Affiliation
    ensures ListTexts(slots, t, a) == []
    decreases |slots|
  {
    if slots != [] {
      ListTextsOther(slots[1..], t, a);
    }
  }

  lemma {:induction false} PersonListTags(slots: seq<Slot>, firstWritten: bool, k: nat)
    requires k < 3
    ensures TagsAt(PersonList(slots, firstWritten), k) == []
    decreases |slots|
  {
    if slots == [] {
    } else if slots[0].fname == "" {
      PersonListTags(slots[1..], firstWritten, k);
    } else {
      PersonListTags(slots[1..], true, k);
      TagsAtAppend(PersonLines(slots[0], Mark(firstWritten)), PersonList(slots[1..], true), k);
      PersonTags(GivenOf(slots[0]), slots[0].lname, slots[0].inst, Mark(firstWritten), k);
    }
  }

  // ------------------------------------------------------------ one article

  /** The normalised values of one article row, as the builder reads them. */
  datatype ArticleFields = ArticleFields(title: string, doi: string, resource: string, date: DateParts, slots: seq<Slot>)

  /** The column reads and normalisations at the top of the row loop, and the five author slots. */
  function ArticleFieldsOf(row: Row, toDatetime: DateParser): (a: ArticleFields)
    ensures Stripped(a.title) && Stripped(a.doi)
    ensures a.resource == "" || MatchesScheme(a.resource)
    ensures a.date == NoDate || Complete(a.date)
    ensures |a.slots| == SlotCount
  {
    var resource := UrlOrEmpty(Get(row, "fulltext_url"));
    SchemePrefixes(resource);
    ArticleFields(
      Safe(Get(row, "title")),
      Safe(Get(row, "doi")),
      resource,
      Ymd(Get(row, "publication_date"), toDatetime),
      SlotsOf(row))
  }

  /** The five slots of a row, in slot order. */
  function SlotsOf(row: Row): (slots: seq<Slot>)
    ensures |slots| == SlotCount
  {
    seq(SlotCount, i requires 0 <= i < SlotCount => SlotOf(row, i + 1))
  }

  function TitlesBlock(title: string): seq<Line> {
    [Open(2, Titles, NoAttrs)] + [Leaf(3, Title, NoAttrs, title)] + [Close(2, Titles)]
  }

  function ContributorsBlock(slots: seq<Slot>): seq<Line> {
    [Open(2, Contributors, NoAttrs)] + PersonList(slots, false) + [Close(2, Contributors)]
  }

  /** The article's `<doi_data>`: the DOI when non-empty, and the resource unconditionally. */
  function ArticleDoiData(doi: string, resource: string): seq<Line> {
    [Open(2, DoiData, NoAttrs)] + OptLeaf(3, Doi, NoAttrs, doi) + [Leaf(3, Resource, NoAttrs, resource)] + [Close(2, DoiData)]
  }

  /** With a resource present, the article's `<doi_data>` is the journal's optional block, present. */
  lemma ArticleDoiDataIsBlock(doi: string, resource: string)
    requires resource != ""
    ensures ArticleDoiData(doi, resource) == DoiDataBlock(2, doi, resource)
  {
  }

  function ArticleBody(a: ArticleFields): seq<Line> {
    TitlesBlock(a.title) + ContributorsBlock(a.slots) + DateBlock(2, Online, a.date) + ArticleDoiData(a.doi, a.resource)
  }

  /** Every line one iteration of the row loop appends, in order. */
  function ArticleLines(a: ArticleFields): seq<Line> {
    [Open(1, JournalArticle, FullText)] + ArticleBody(a) + [Close(1, JournalArticle)]
  }

  /** An article's lines in the order they are appended one piece at a time. */
  lemma ArticleLinesFlat(a: ArticleFields)
    ensures ArticleLines(a) ==
      [Open(1, JournalArticle, FullText)] + [Open(2, Titles, NoAttrs)] + [Leaf(3, Title, NoAttrs, a.title)]
      + [Close(2, Titles)] + [Open(2, Contributors, NoAttrs)] + PersonList(a.slots, false) + [Close(2, Contributors)]
      + DateBlock(2, Online, a.date) + [Open(2, DoiData, NoAttrs)] + OptLeaf(3, Doi, NoAttrs, a.doi)
      + [Leaf(3, Resource, NoAttrs, a.resource)] + [Close(2, DoiData)] + [Close(1, JournalArticle)]
  {
    var oa, ot, t, ct := [Open(1, JournalArticle, FullText)], [Open(2, Titles, NoAttrs)], [Leaf(3, Title, NoAttrs, a.title)], [Close(2, Titles)];
    var oc, pl, cc := [Open(2, Contributors, NoAttrs)], PersonList(a.slots, false), [Close(2, Contributors)];
    var db, od, d, rs, cd := DateBlock(2, Online, a.date), [Open(2, DoiData, NoAttrs)], OptLeaf(3, Doi, NoAttrs, a.doi),
      [Leaf(3, Resource, NoAttrs, a.resource)], [Close(2, DoiData)];
    var tb, cb, ad := TitlesBlock(a.title), ContributorsBlock(a.slots), ArticleDoiData(a.doi, a.resource);
    LinesAssoc(oa, tb + cb + db, ad);
    LinesAssoc(oa, tb + cb, db);
    LinesAssoc(oa, tb, cb);
    LinesAssoc(oa, ot + t, ct);
    LinesAssoc(oa, ot, t);
    var y := oa + ot + t + ct;
    LinesAssoc(y, oc + pl, cc);
    LinesAssoc(y, oc, pl);
    var z := y + oc + pl + cc + db;
    LinesAssoc(z, od + d + rs, cd);
    LinesAssoc(z, od + d, rs);
    LinesAssoc(z, od, d);
  }

  lemma TitlesNested(title: string)
    ensures WellNested(TitlesBlock(title), 2)
  {
    WellNestedLeaf(3, Title, NoAttrs, title);
    WellNestedWrap([Leaf(3, Title, NoAttrs, title)], 2, Titles, NoAttrs);
  }

  lemma ArticleNested(a: ArticleFields)
    requires a.resource != ""
    ensures WellNested(ArticleLines(a), 1)
  {
    var t, c, d, x := TitlesBlock(a.title), ContributorsBlock(a.slots), DateBlock(2, Online, a.date),
      ArticleDoiData(a.doi, a.resource);
    TitlesNested(a.title);
    PersonListNested(a.slots, false);
    WellNestedWrap(PersonList(a.slots, false), 2, Contributors, NoAttrs);
    DateNested(2, Online, a.date);
    ArticleDoiDataIsBlock(a.doi, a.resource);
    DoiDataNested(2, a.doi, a.resource);
    WellNestedAppend(t, c, 2);
    WellNestedAppend(t + c, d, 2);
    WellNestedAppend(t + c + d, x, 2);
    WellNestedWrap(ArticleBody(a), 1, JournalArticle, FullText);
  }

  lemma ArticleTextsSplit(a: ArticleFields, t: Tag, x: Attrs)
    ensures Texts(ArticleLines(a), t, x) ==
      Texts(TitlesBlock(a.title), t, x) + Texts(ContributorsBlock(a.slots), t, x)
      + Texts(DateBlock(2, Online, a.date), t, x) + Texts(ArticleDoiData(a.doi, a.resource), t, x)
  {
    var p0, p1, p2, p3 := TitlesBlock(a.title), ContributorsBlock(a.slots), DateBlock(2, Online, a.date),
      ArticleDoiData(a.doi, a.resource);
    WrapTexts(1, JournalArticle, FullText, ArticleBody(a), t, x);
    TextsAppend(p0 + p1 + p2, p3, t, x);
    TextsAppend(p0 + p1, p2, t, x);
    TextsAppend(p0, p1, t, x);
  }

  lemma ArticleOpensSplit(a: ArticleFields, t: Tag)
    ensures Opens(ArticleLines(a), t) ==
      Opt(t == JournalArticle, FullText) + (Opens(TitlesBlock(a.title), t) + Opens(ContributorsBlock(a.slots), t)
      + Opens(DateBlock(2, Online, a.date), t) + Opens(ArticleDoiData(a.doi, a.resource), t))
  {
    var p0, p1, p2, p3 := TitlesBlock(a.title), ContributorsBlock(a.slots), DateBlock(2, Online, a.date),
      ArticleDoiData(a.doi, a.resource);
    WrapOpens(1, JournalArticle, FullText, ArticleBody(a), t);
    OpensAppend(p0 + p1 + p2, p3, t);
    OpensAppend(p0 + p1, p2, t);
    OpensAppend(p0, p1, t);
  }

  lemma ArticleTagsSplit(a: ArticleFields, k: nat)
    ensures TagsAt(ArticleLines(a), k) ==
      Opt(k == 1, JournalArticle) + (TagsAt(TitlesBlock(a.title), k) + TagsAt(ContributorsBlock(a.slots), k)
      + TagsAt(DateBlock(2, Online, a.date), k) + TagsAt(ArticleDoiData(a.doi, a.resource), k))
  {
    var p0, p1, p2, p3 := TitlesBlock(a.title), ContributorsBlock(a.slots), DateBlock(2, Online, a.date),
      ArticleDoiData(a.doi, a.resource);
    WrapTags(1, JournalArticle, FullText, ArticleBody(a), k);
    TagsAtAppend(p0 + p1 + p2, p3, k);
    TagsAtAppend(p0 + p1, p2, k);
    TagsAtAppend(p0, p1, k);
  }

  lemma TitlesTexts(title: string, t: Tag, x: Attrs)
    ensures Texts(TitlesBlock(title), t, x) == Opt(t == Title && x == NoAttrs, title)
  {
    WrapTexts(2, Titles, NoAttrs, [Leaf(3, Title, NoAttrs, title)], t, x);
    TextsOne(Leaf(3, Title, NoAttrs, title), t, x);
  }

  lemma ContributorsTexts(slots: seq<Slot>, t: Tag, x: Attrs)
    ensures Texts(ContributorsBlock(slots), t, x) == ListTexts(slots, t, x)
  {
    WrapTexts(2, Contributors, NoAttrs, PersonList(slots, false), t, x);
    PersonListTexts(slots, false, t, x);
  }

  lemma ArticleDoiDataTexts(doi: string, resource: string, t: Tag, x: Attrs)
    requires resource != ""
    ensures Texts(ArticleDoiData(doi, resource), t, x) ==
      Opt(t == Doi && x == NoAttrs && doi != "", doi) + Opt(t == Resource && x == NoAttrs, resource)
  {
    ArticleDoiDataIsBlock(doi, resource);
    DoiDataTexts(2, doi, resource, t, x);
  }

  // --------------------------------------------------- article properties

  /**
   * The children of `<journal_article>`, in order: `titles` and
   * `contributors` always, the online `publication_date` only when the date
   * parsed, and `doi_data` always.
   */
  lemma ArticleChildren(a: ArticleFields)
    requires a.resource != ""
    ensures TagsAt(ArticleLines(a), 2) == [Titles, Contributors] + Opt(Complete(a.date), PublicationDate) + [DoiData]
  {
    ArticleTagsSplit(a, 2);
    assert TagsAt(TitlesBlock(a.title), 2) == [Titles] by {
      WrapTags(2, Titles, NoAttrs, [Leaf(3, Title, NoAttrs, a.title)], 2);
      TagsAtOne(Leaf(3, Title, NoAttrs, a.title), 2);
    }
    assert TagsAt(ContributorsBlock(a.slots), 2) == [Contributors] by {
      WrapTags(2, Contributors, NoAttrs, PersonList(a.slots, false), 2);
      PersonListTags(a.slots, false, 2);
    }
    assert TagsAt(DateBlock(2, Online, a.date), 2) == Opt(Complete(a.date), PublicationDate) by {
      DateTags(2, Online, a.date, 2);
    }
    assert TagsAt(ArticleDoiData(a.doi, a.resource), 2) == [DoiData] by {
      ArticleDoiDataIsBlock(a.doi, a.resource);
      DoiDataTags(2, a.doi, a.resource, 2);
    }
    assert Opt(2 == 1, JournalArticle) == [];
    assert [Titles] + [Contributors] == [Titles, Contributors];
  }

  /** `<doi_data>` holds the DOI only when non-empty, then always the resource. */
  lemma ArticleDoiDataChildren(a: ArticleFields)
    requires a.resource != ""
    ensures TagsAt(ArticleDoiData(a.doi, a.resource), 3) == Opt(a.doi != "", Doi) + [Resource]
  {
    ArticleDoiDataIsBlock(a.doi, a.resource);
    DoiDataTags(2, a.doi, a.resource, 3);
  }

  /** Each article has exactly one `<title>`, holding its title even when it is empty. */
  lemma ArticleTitle(a: ArticleFields)
    requires a.resource != ""
    ensures Texts(ArticleLines(a), Title, NoAttrs) == [a.title]
  {
    ArticleTextsSplit(a, Title, NoAttrs);
    TitlesTexts(a.title, Title, NoAttrs);
    assert Texts(ContributorsBlock(a.slots), Title, NoAttrs) == [] by {
      ContributorsTexts(a.slots, Title, NoAttrs);
      ListTextsOther(a.slots, Title, NoAttrs);
    }
    DateTexts(2, Online, a.date, Title, NoAttrs);
    ArticleDoiDataTexts(a.doi, a.resource, Title, NoAttrs);
  }

  /** Each article has exactly one `<resource>`: its validated URL. */
  lemma ArticleResource(a: ArticleFields)
    requires a.resource != ""
    ensures Texts(ArticleLines(a), Resource, NoAttrs) == [a.resource]
  {
    ArticleTextsSplit(a, Resource, NoAttrs);
    TitlesTexts(a.title, Resource, NoAttrs);
    assert Texts(ContributorsBlock(a.slots), Resource, NoAttrs) == [] by {
      ContributorsTexts(a.slots, Resource, NoAttrs);
      ListTextsOther(a.slots, Resource, NoAttrs);
    }
    DateTexts(2, Online, a.date, Resource, NoAttrs);
    ArticleDoiDataTexts(a.doi, a.resource, Resource, NoAttrs);
  }

  /** An article's `<doi>` is written iff its DOI is non-empty. */
  lemma ArticleDoi(a: ArticleFields)
    requires a.resource != ""
    ensures Texts(ArticleLines(a), Doi, NoAttrs) == Opt(a.doi != "", a.doi)
  {
    ArticleTextsSplit(a, Doi, NoAttrs);
    TitlesTexts(a.title, Doi, NoAttrs);
    assert Texts(ContributorsBlock(a.slots), Doi, NoAttrs) == [] by {
      ContributorsTexts(a.slots, Doi, NoAttrs);
      ListTextsOther(a.slots, Doi, NoAttrs);
    }
    DateTexts(2, Online, a.date, Doi, NoAttrs);
    ArticleDoiDataTexts(a.doi, a.resource, Doi, NoAttrs);
  }

  /** The `<given_name>` elements of an article are its named slots' given names, in slot order. */
  lemma ArticleGivenNames(a: ArticleFields)
    requires a.resource != ""
    ensures Texts(ArticleLines(a), GivenName, NoAttrs) == Givens(a.slots)
  {
    ArticleTextsSplit(a, GivenName, NoAttrs);
    TitlesTexts(a.title, GivenName, NoAttrs);
    assert Texts(ContributorsBlock(a.slots), GivenName, NoAttrs) == Givens(a.slots) by {
      ContributorsTexts(a.slots, GivenName, NoAttrs);
      ListTextsGivens(a.slots);
    }
    DateTexts(2, Online, a.date, GivenName, NoAttrs);
    ArticleDoiDataTexts(a.doi, a.resource, GivenName, NoAttrs);
  }

  lemma TitlesOpens(title: string, t: Tag)
    ensures Opens(TitlesBlock(title), t) == Opt(t == Titles, NoAttrs)
  {
    WrapOpens(2, Titles, NoAttrs, [Leaf(3, Title, NoAttrs, title)], t);
    OpensOne(Leaf(3, Title, NoAttrs, title), t);
  }

  lemma ContributorsOpens(slots: seq<Slot>, t: Tag)
    ensures Opens(ContributorsBlock(slots), t) ==
      Opt(t == Contributors, NoAttrs) + (if t == PersonName then Marks(Named(slots), false) else [])
  {
    WrapOpens(2, Contributors, NoAttrs, PersonList(slots, false), t);
    PersonListOpens(slots, false, t);
  }

  lemma ArticleDoiDataOpens(doi: string, resource: string, t: Tag)
    requires resource != ""
    ensures Opens(ArticleDoiData(doi, resource), t) == Opt(t == DoiData, NoAttrs)
  {
    ArticleDoiDataIsBlock(doi, resource);
    DoiDataOpens(2, doi, resource, t);
  }

  /**
   * Author sequencing in an article: one `<person_name>` per slot with a
   * first name; the first is 'first', every other one 'additional'.
   */
  lemma ArticleAuthors(a: ArticleFields)
    requires a.resource != ""
    ensures Opens(ArticleLines(a), PersonName) == Marks(Named(a.slots), false)
  {
    ArticleOpensSplit(a, PersonName);
    TitlesOpens(a.title, PersonName);
    ContributorsOpens(a.slots, PersonName);
    DateOpens(2, Online, a.date, PersonName);
    ArticleDoiDataOpens(a.doi, a.resource, PersonName);
  }

  /** An article's online date is written iff its publication date parsed, all three parts or none. */
  lemma ArticleDate(a: ArticleFields)
    requires a.resource != ""
    ensures Opens(ArticleLines(a), PublicationDate) == Opt(Complete(a.date), MediaType(Online))
  {
    ArticleOpensSplit(a, PublicationDate);
    TitlesOpens(a.title, PublicationDate);
    ContributorsOpens(a.slots, PublicationDate);
    DateOpens(2, Online, a.date, PublicationDate);
    ArticleDoiDataOpens(a.doi, a.resource, PublicationDate);
    assert Opt(PublicationDate == JournalArticle, FullText) == [];
  }

  // ------------------------------------------------------------- the batch

  /** The lines of all the article blocks, in row order. */
  function AllLines(fs: seq<ArticleFields>): seq<Line> {
    if fs == [] then [] else ArticleLines(fs[0]) + AllLines(fs[1..])
  }

  /** `article_xml_list`: each article block joined on its own. */
  function Blocks(fs: seq<ArticleFields>): (r: seq<string>)
    ensures |r| == |fs|
  {
    if fs == [] then [] else [Serialize(ArticleLines(fs[0]))] + Blocks(fs[1..])
  }

  /** The block list grows by one block per row. */
  lemma {:induction false} BlocksSnoc(fs: seq<ArticleFields>, f: ArticleFields)
    ensures Blocks(fs + [f]) == Blocks(fs) + [Serialize(ArticleLines(f))]
    decreases |fs|
  {
    if fs == [] {
      assert fs + [f] == [f];
    } else {
      assert (fs + [f])[0] == fs[0] && (fs + [f])[1..] == fs[1..] + [f];
      BlocksSnoc(fs[1..], f);
    }
  }

  /** One more row's block, in terms of prefixes of the rows' fields. */
  lemma BlocksStep(fs: seq<ArticleFields>, n: nat)
    requires n < |fs|
    ensures Blocks(fs[..n + 1]) == Blocks(fs[..n]) + [Serialize(ArticleLines(fs[n]))]
  {
    assert fs[..n + 1] == fs[..n] + [fs[n]];
    BlocksSnoc(fs[..n], fs[n]);
  }

  /** The rows checked so far, and one more, all have a resource. */
  lemma ResourcesStep(fs: seq<ArticleFields>, n: nat)
    requires n < |fs| && fs[n].resource != ""
    requires forall j :: 0 <= j < n ==> fs[j].resource != ""
    ensures forall j :: 0 <= j < n + 1 ==> fs[j].resource != ""
  {
  }

  /** Joining the joined blocks is joining all their lines: the fragment is one line per appended line. */
  lemma {:induction false} BlocksFlatten(fs: seq<ArticleFields>)
    ensures Join(Blocks(fs), "\n") == Serialize(AllLines(fs))
    decreases |fs|
  {
    if fs != [] {
      var head, rest := ArticleLines(fs[0]), fs[1..];
      if rest == [] {
        assert AllLines(fs) == head + [];
        assert head + [] == head;
      } else {
        BlocksFlatten(rest);
        var hr, rr := RenderAll(head), RenderAll(AllLines(rest));
        assert AllLines(rest) != [] by { assert AllLines(rest) == ArticleLines(rest[0]) + AllLines(rest[1..]); }
        JoinAppend([Serialize(head)], Blocks(rest), "\n");
        JoinAppend(hr, rr, "\n");
        RenderAllAppend(head, AllLines(rest));
      }
    }
  }

  lemma {:induction false} AllNested(fs: seq<ArticleFields>)
    requires forall i :: 0 <= i < |fs| ==> fs[i].resource != ""
    ensures WellNested(AllLines(fs), 1)
    decreases |fs|
  {
    if fs == [] {
      assert Nest([], 1, []) == Some([]);
    } else {
      ArticleNested(fs[0]);
      AllNested(fs[1..]);
      WellNestedAppend(ArticleLines(fs[0]), AllLines(fs[1..]), 1);
    }
  }

  /** One `<journal_article>` per row and nothing else at that level. */
  lemma {:induction false} AllArticleTags(fs: seq<ArticleFields>)
    ensures TagsAt(AllLines(fs), 1) == seq(|fs|, i => JournalArticle)
    decreases |fs|
  {
    if fs != [] {
      var a := fs[0];
      AllArticleTags(fs[1..]);
      TagsAtAppend(ArticleLines(a), AllLines(fs[1..]), 1);
      assert TagsAt(ArticleLines(a), 1) == [JournalArticle] by {
        ArticleTagsSplit(a, 1);
        WrapTags(2, Titles, NoAttrs, [Leaf(3, Title, NoAttrs, a.title)], 1);
        TagsAtOne(Leaf(3, Title, NoAttrs, a.title), 1);
        WrapTags(2, Contributors, NoAttrs, PersonList(a.slots, false), 1);
        PersonListTags(a.slots, false, 1);
        DateTags(2, Online, a.date, 1);
        ArticleDoiDataTagsAbove(a.doi, a.resource);
      }
      assert [JournalArticle] + seq(|fs| - 1, i => JournalArticle) == seq(|fs|, i => JournalArticle);
    }
  }

  lemma ArticleDoiDataTagsAbove(doi: string, resource: string)
    ensures TagsAt(ArticleDoiData(doi, resource), 1) == []
  {
    var x := OptLeaf(3, Doi, NoAttrs, doi);
    var r := [Leaf(3, Resource, NoAttrs, resource)];
    WrapTags(2, DoiData, NoAttrs, x + r, 1);
    assert ArticleDoiData(doi, resource) == [Open(2, DoiData, NoAttrs)] + (x + r) + [Close(2, DoiData)];
    TagsAtAppend(x, r, 1);
    OptLeafTags(3, Doi, NoAttrs, doi, 1);
    TagsAtOne(r[0], 1);
  }

  /** The titles and URLs of a non-empty row list: the first row's, then the rest's. */
  lemma FieldsCons(fs: seq<ArticleFields>)
    requires fs != []
    ensures [fs[0].title] + seq(|fs| - 1, i requires 0 <= i < |fs| - 1 => fs[1..][i].title)
      == seq(|fs|, i requires 0 <= i < |fs| => fs[i].title)
    ensures [fs[0].resource] + seq(|fs| - 1, i requires 0 <= i < |fs| - 1 => fs[1..][i].resource)
      == seq(|fs|, i requires 0 <= i < |fs| => fs[i].resource)
  {
  }

  /** The `<title>`s of the fragment are the rows' titles, one per row, in row order. */
  lemma {:induction false} AllTitles(fs: seq<ArticleFields>)
    requires forall i :: 0 <= i < |fs| ==> fs[i].resource != ""
    ensures Texts(AllLines(fs), Title, NoAttrs) == seq(|fs|, i requires 0 <= i < |fs| => fs[i].title)
    decreases |fs|
  {
    if fs != [] {
      AllTitles(fs[1..]);
      TextsAppend(ArticleLines(fs[0]), AllLines(fs[1..]), Title, NoAttrs);
      ArticleTitle(fs[0]);
      FieldsCons(fs);
    }
  }

  /** The `<resource>`s of the fragment are the rows' URLs, one per row, in row order. */
  lemma {:induction false} AllResources(fs: seq<ArticleFields>)
    requires forall i :: 0 <= i < |fs| ==> fs[i].resource != ""
    ensures Texts(AllLines(fs), Resource, NoAttrs) == seq(|fs|, i requires 0 <= i < |fs| => fs[i].resource)
    decreases |fs|
  {
    if fs != [] {
      AllResources(fs[1..]);
      TextsAppend(ArticleLines(fs[0]), AllLines(fs[1..]), Resource, NoAttrs);
      ArticleResource(fs[0]);
      FieldsCons(fs);
    }
  }

  // ------------------------------------------------------------ the result

  /** The normalised values of every row, in row order. */
  function FieldsOfRows(rows: seq<Row>, toDatetime: DateParser): (fs: seq<ArticleFields>)
    ensures |fs| == |rows|
  {
    seq(|rows|, i requires 0 <= i < |rows| => ArticleFieldsOf(rows[i], toDatetime))
  }

  /** The first row, in order, whose full-text URL is missing or not accepted. */
  function FirstMissing(fs: seq<ArticleFields>): (r: Option<nat>)
    ensures r.None? <==> forall i :: 0 <= i < |fs| ==> fs[i].resource != ""
    ensures r.Some? ==> r.value < |fs| && fs[r.value].resource == "" && forall i :: 0 <= i < r.value ==> fs[i].resource != ""
  {
    if fs == [] then None
    else if fs[0].resource == "" then Some(0)
    else match FirstMissing(fs[1..])
      case None => None
      case Some(k) => Some(k + 1)
  }

  /** `title or '(untitled)'`. */
  function Untitled(title: string): string {
    if title == "" then "(untitled)" else title
  }

  /**
   * `create_article_xml` as a value: fails when the sheet was not read;
   * fails, naming the first offending row's title, when any row's URL is
   * missing or not accepted; and otherwise is the article blocks joined by
   * newlines.
   */
  function ArticleXml(data: Option<seq<Row>>, toDatetime: DateParser): (r: Result<string>)
    ensures data.None? <==> r == Err(DataNotLoaded)
    ensures data.Some? ==>
      var fs := FieldsOfRows(data.value, toDatetime);
      && (r.Ok? <==> forall i :: 0 <= i < |fs| ==> fs[i].resource != "")
      && (r.Ok? ==> r.value == Serialize(AllLines(fs)))
      && (r.Err? ==> exists i :: 0 <= i < |fs| && fs[i].resource == "" && r.error == MissingResourceUrl(Untitled(fs[i].title)))
  {
    match data
    case None => Err(DataNotLoaded)
    case Some(rows) =>
      var fs := FieldsOfRows(rows, toDatetime);
      match FirstMissing(fs)
      case Some(k) => Err(MissingResourceUrl(Untitled(fs[k].title)))
      case None =>
        BlocksFlatten(fs);
        Ok(Join(Blocks(fs), "\n"))
  }

  /** Fail-fast: the error names the first offending row, however valid the rows before it are. */
  lemma ArticleXmlFirstError(rows: seq<Row>, toDatetime: DateParser, k: nat)
    requires var fs := FieldsOfRows(rows, toDatetime);
      k < |fs| && fs[k].resource == "" && forall i :: 0 <= i < k ==> fs[i].resource != ""
    ensures ArticleXml(Some(rows), toDatetime) == Err(MissingResourceUrl(Untitled(FieldsOfRows(rows, toDatetime)[k].title)))
  {
    var fs := FieldsOfRows(rows, toDatetime);
    var r := FirstMissing(fs);
    assert r.Some?;
    assert r.value == k;
  }

  /** The batch succeeds iff every row's `fulltext_url` cell holds an accepted URL. */
  lemma ArticleXmlOk(rows: seq<Row>, toDatetime: DateParser)
    ensures ArticleXml(Some(rows), toDatetime).Ok? <==>
      forall i :: 0 <= i < |rows| ==> UrlOrEmpty(Get(rows[i], "fulltext_url")) != ""
  {
    var fs := FieldsOfRows(rows, toDatetime);
    assert forall i :: 0 <= i < |rows| ==> fs[i].resource == UrlOrEmpty(Get(rows[i], "fulltext_url"));
  }
}
