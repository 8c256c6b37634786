/**
 * The lines of the deposit document. The generator appends one line at a
 * time to a list and joins the list with newlines; here each line is a
 * typed value (an opening tag, a one-line element, a closing tag) whose
 * `Render` is exactly the text the generator appends. Typed lines let the
 * presence, order and nesting of elements be stated directly.
 */
module Xml {
  import opened Errors
  import opened Strings
  import opened Cells

  datatype Media = Print | Online | Electronic
  datatype Sequence = First | Additional

  /** The attribute lists the generator writes. */
  datatype Attrs =
    | NoAttrs
    | MediaType(media: Media)   // media_type='print' | 'online' | 'electronic'
    | FullText                  // publication_type="full_text"
    | Author(sequence: Sequence) // contributor_role='author' sequence='first' | 'additional'

  /** The element names of the journal and article fragments (Crossref deposit schema 4.4.2). */
  datatype Tag =
    | JournalMetadata | FullTitle | AbbrevTitle | Issn | DoiData | Doi | Resource
    | JournalIssue | PublicationDate | Month | Day | Year | JournalVolume | Volume | Issue
    | JournalArticle | Titles | Title | Contributors | PersonName | GivenName | Surname | Affiliation

  function Name(t: Tag): string {
    match t
    case JournalMetadata => "journal_metadata"
    case FullTitle => "full_title"
    case AbbrevTitle => "abbrev_title"
    case Issn => "issn"
    case DoiData => "doi_data"
    case Doi => "doi"
    case Resource => "resource"
    case JournalIssue => "journal_issue"
    case PublicationDate => "publication_date"
    case Month => "month"
    case Day => "day"
    case Year => "year"
    case JournalVolume => "journal_volume"
    case Volume => "volume"
    case Issue => "issue"
    case JournalArticle => "journal_article"
    case Titles => "titles"
    case Title => "title"
    case Contributors => "contributors"
    case PersonName => "person_name"
    case GivenName => "given_name"
    case Surname => "surname"
    case Affiliation => "affiliation"
  }

  /** One appended line, indented by four spaces per `depth`. */
  datatype Line =
    | Open(depth: nat, tag: Tag, attrs: Attrs)
    | Leaf(depth: nat, tag: Tag, attrs: Attrs, text: string)
    | Close(depth: nat, tag: Tag)

  function Indent(depth: nat): (r: string)
    ensures |r| == 4 * depth && forall i :: 0 <= i < |r| ==> r[i] == ' '
  {
    if depth == 0 then "" else Indent(depth - 1) + "    "
  }

  function MediaName(m: Media): string {
    match m
    case Print => "print"
    case Online => "online"
    case Electronic => "electronic"
  }

  function AttrText(a: Attrs): string {
    match a
    case NoAttrs => ""
    case MediaType(m) => " media_type='" + MediaName(m) + "'"
    case FullText => " publication_type=\"full_text\""
    case Author(s) => " contributor_role='author' sequence='" + (if s == First then "first" else "additional") + "'"
  }

  /**
   * The text of one line. Nothing is escaped: a text holding `<` or a
   * newline is written as it is.
   */
  function Render(line: Line): string {
    match line
    case Open(d, t, a) => Indent(d) + "<" + Name(t) + AttrText(a) + ">"
    case Leaf(d, t, a, x) => Indent(d) + "<" + Name(t) + AttrText(a) + ">" + x + "</" + Name(t) + ">"
    case Close(d, t) => Indent(d) + "</" + Name(t) + ">"
  }

  function RenderAll(lines: seq<Line>): (r: seq<string>)
    ensures |r| == |lines|
    ensures forall i :: 0 <= i < |lines| ==> r[i] == Render(lines[i])
  {
    if lines == [] then [] else [Render(lines[0])] + RenderAll(lines[1..])
  }

  /** `"\n".join(...)` of the rendered lines: the text the generator stores. */
  function Serialize(lines: seq<Line>): string {
    Join(RenderAll(lines), "\n")
  }

  lemma RenderAllAppend(a: seq<Line>, b: seq<Line>)
    ensures RenderAll(a + b) == RenderAll(a) + RenderAll(b)
  {
  }

  /** No one-line element's text holds a newline. */
  predicate SingleLine(lines: seq<Line>) {
    forall i :: 0 <= i < |lines| ==> lines[i].Leaf? ==> '\n' !in lines[i].text
  }

  lemma NameSingleLine(t: Tag)
    ensures '\n' !in Name(t)
  {
  }

  lemma AttrSingleLine(a: Attrs)
    ensures '\n' !in AttrText(a)
  {
    match a
    case NoAttrs =>
    case MediaType(m) =>
      var x := MediaName(m);
      assert '\n' !in x;
      assert AttrText(a) == " media_type='" + x + "'";
    case FullText =>
    case Author(s) =>
      var x := if s == First then "first" else "additional";
      assert '\n' !in x;
      assert AttrText(a) == " contributor_role='author' sequence='" + x + "'";
  }

  /** A line's own text holds a newline only if its element's text does. */
  lemma RenderSingleLine(line: Line)
    requires line.Leaf? ==> '\n' !in line.text
    ensures '\n' !in Render(line)
  {
    assert '\n' !in Indent(line.depth);
    NameSingleLine(line.tag);
    if !line.Close? {
      AttrSingleLine(line.attrs);
    }
  }

  /**
   * When no element text holds a newline, splitting the stored text at
   * newlines gives back exactly the appended lines.
   */
  lemma SerializeSplitsIntoLines(lines: seq<Line>)
    requires lines != [] && SingleLine(lines)
    ensures Split(Serialize(lines), '\n') == RenderAll(lines)
  {
    var parts := RenderAll(lines);
    forall i | 0 <= i < |parts| ensures '\n' !in parts[i] {
      RenderSingleLine(lines[i]);
    }
    SplitJoin(parts, '\n');
  }

  // ---------------------------------------------------------------- nesting

  /**
   * Reads the lines with a stack of open tags: an opening or one-line
   * element must sit at depth `base + |stack|`, a closing tag must close the
   * innermost open tag, one level out. None when a line breaks the rule.
   */
  function Nest(lines: seq<Line>, base: nat, stack: seq<Tag>): Option<seq<Tag>>
    decreases |lines|
  {
    if lines == [] then Some(stack)
    else match lines[0]
      case Open(d, t, _) =>
        if d == base + |stack| then Nest(lines[1..], base, stack + [t]) else None
      case Leaf(d, _, _, _) =>
        if d == base + |stack| then Nest(lines[1..], base, stack) else None
      case Close(d, t) =>
        if |stack| > 0 && stack[|stack| - 1] == t && d == base + |stack| - 1
        then Nest(lines[1..], base, stack[..|stack| - 1])
        else None
  }

  /** Every tag is closed in the order opened, and each line's indentation is its nesting depth below `base`. */
  predicate WellNested(lines: seq<Line>, base: nat) {
    Nest(lines, base, []) == Some([])
  }

  lemma {:induction false} NestAppend(a: seq<Line>, b: seq<Line>, base: nat, stack: seq<Tag>)
    ensures Nest(a + b, base, stack) ==
      match Nest(a, base, stack)
      case None => None
      case Some(s) => Nest(b, base, s)
    decreases |a|
  {
    if a == [] {
      assert a + b == b;
    } else {
      assert (a + b)[0] == a[0];
      assert (a + b)[1..] == a[1..] + b;
      match a[0]
      case Open(d, t, _) => NestAppend(a[1..], b, base, stack + [t]);
      case Leaf(d, _, _, _) => NestAppend(a[1..], b, base, stack);
      case Close(d, t) =>
        if |stack| > 0 {
          NestAppend(a[1..], b, base, stack[..|stack| - 1]);
        }
    }
  }

  /** Nesting under more open tags is nesting one level deeper per tag. */
  lemma {:induction false} NestUnder(lines: seq<Line>, base: nat, outer: seq<Tag>, stack: seq<Tag>)
    requires Nest(lines, base + |outer|, stack).Some?
    ensures Nest(lines, base, outer + stack) == Some(outer + Nest(lines, base + |outer|, stack).value)
    decreases |lines|
  {
    if lines == [] {
    } else {
      match lines[0]
      case Open(d, t, _) =>
        assert outer + stack + [t] == outer + (stack + [t]);
        NestUnder(lines[1..], base, outer, stack + [t]);
      case Leaf(d, _, _, _) =>
        NestUnder(lines[1..], base, outer, stack);
      case Close(d, t) =>
        assert (outer + stack)[..|outer + stack| - 1] == outer + stack[..|stack| - 1];
        NestUnder(lines[1..], base, outer, stack[..|stack| - 1]);
    }
  }

  lemma WellNestedAppend(a: seq<Line>, b: seq<Line>, base: nat)
    requires WellNested(a, base) && WellNested(b, base)
    ensures WellNested(a + b, base)
  {
    NestAppend(a, b, base, []);
  }

  /** An element whose content is well nested one level deeper is well nested. */
  lemma WellNestedWrap(inner: seq<Line>, base: nat, tag: Tag, attrs: Attrs)
    requires WellNested(inner, base + 1)
    ensures WellNested([Open(base, tag, attrs)] + inner + [Close(base, tag)], base)
  {
    var o, c := [Open(base, tag, attrs)], [Close(base, tag)];
    NestAppend(o + inner, c, base, []);
    NestAppend(o, inner, base, []);
    assert o[1..] == [] && Nest(o, base, []) == Some([tag]);
    NestUnder(inner, base, [tag], []);
    assert [tag] + [] == [tag];
    assert c[1..] == [] && Nest(c, base, [tag]) == Some([]);
  }

  lemma WellNestedLeaf(base: nat, tag: Tag, attrs: Attrs, text: string)
    ensures WellNested([Leaf(base, tag, attrs, text)], base)
  {
  }

  // ------------------------------------------------------------ projections

  /** The attributes of the `tag` opening lines, in document order. */
  function Opens(lines: seq<Line>, tag: Tag): seq<Attrs> {
    if lines == [] then []
    else (if lines[0].Open? && lines[0].tag == tag then [lines[0].attrs] else []) + Opens(lines[1..], tag)
  }

  /** The texts of the one-line `tag` elements with these attributes, in document order. */
  function Texts(lines: seq<Line>, tag: Tag, attrs: Attrs): seq<string> {
    if lines == [] then []
    else
      var here := if lines[0].Leaf? && lines[0].tag == tag && lines[0].attrs == attrs then [lines[0].text] else [];
      here + Texts(lines[1..], tag, attrs)
  }

  /** The tags of the elements that start at `depth` (opening and one-line), in document order. */
  function TagsAt(lines: seq<Line>, depth: nat): seq<Tag> {
    if lines == [] then []
    else (if !lines[0].Close? && lines[0].depth == depth then [lines[0].tag] else []) + TagsAt(lines[1..], depth)
  }

  lemma {:induction false} OpensAppend(a: seq<Line>, b: seq<Line>, tag: Tag)
    ensures Opens(a + b, tag) == Opens(a, tag) + Opens(b, tag)
    decreases |a|
  {
    if a == [] {
      assert a + b == b;
    } else {
      assert (a + b)[0] == a[0] && (a + b)[1..] == a[1..] + b;
      OpensAppend(a[1..], b, tag);
    }
  }

  lemma {:induction false} TextsAppend(a: seq<Line>, b: seq<Line>, tag: Tag, attrs: Attrs)
    ensures Texts(a + b, tag, attrs) == Texts(a, tag, attrs) + Texts(b, tag, attrs)
    decreases |a|
  {
    if a == [] {
      assert a + b == b;
    } else {
      assert (a + b)[0] == a[0] && (a + b)[1..] == a[1..] + b;
      TextsAppend(a[1..], b, tag, attrs);
    }
  }

  lemma {:induction false} TagsAtAppend(a: seq<Line>, b: seq<Line>, depth: nat)
    ensures TagsAt(a + b, depth) == TagsAt(a, depth) + TagsAt(b, depth)
    decreases |a|
  {
    if a == [] {
      assert a + b == b;
    } else {
      assert (a + b)[0] == a[0] && (a + b)[1..] == a[1..] + b;
      TagsAtAppend(a[1..], b, depth);
    }
  }

  lemma OpensOne(line: Line, tag: Tag)
    ensures Opens([line], tag) == if line.Open? && line.tag == tag then [line.attrs] else []
  {
    assert [line][1..] == [];
  }

  lemma TextsOne(line: Line, tag: Tag, attrs: Attrs)
    ensures Texts([line], tag, attrs) == if line.Leaf? && line.tag == tag && line.attrs == attrs then [line.text] else []
  {
    assert [line][1..] == [];
  }

  lemma TagsAtOne(line: Line, depth: nat)
    ensures TagsAt([line], depth) == if !line.Close? && line.depth == depth then [line.tag] else []
  {
    assert [line][1..] == [];
  }

  /** The projections of five consecutive pieces, piece by piece. */
  lemma OpensAppend5(s0: seq<Line>, s1: seq<Line>, s2: seq<Line>, s3: seq<Line>, s4: seq<Line>, tag: Tag)
    ensures Opens(s0 + s1 + s2 + s3 + s4, tag) ==
      Opens(s0, tag) + Opens(s1, tag) + Opens(s2, tag) + Opens(s3, tag) + Opens(s4, tag)
  {
    OpensAppend(s0, s1, tag);
    OpensAppend(s0 + s1, s2, tag);
    OpensAppend(s0 + s1 + s2, s3, tag);
    OpensAppend(s0 + s1 + s2 + s3, s4, tag);
  }

  lemma TextsAppend5(s0: seq<Line>, s1: seq<Line>, s2: seq<Line>, s3: seq<Line>, s4: seq<Line>, tag: Tag, attrs: Attrs)
    ensures Texts(s0 + s1 + s2 + s3 + s4, tag, attrs) ==
      Texts(s0, tag, attrs) + Texts(s1, tag, attrs) + Texts(s2, tag, attrs) + Texts(s3, tag, attrs) + Texts(s4, tag, attrs)
  {
    TextsAppend(s0, s1, tag, attrs);
    TextsAppend(s0 + s1, s2, tag, attrs);
    TextsAppend(s0 + s1 + s2, s3, tag, attrs);
    TextsAppend(s0 + s1 + s2 + s3, s4, tag, attrs);
  }

  lemma TagsAtAppend5(s0: seq<Line>, s1: seq<Line>, s2: seq<Line>, s3: seq<Line>, s4: seq<Line>, depth: nat)
    ensures TagsAt(s0 + s1 + s2 + s3 + s4, depth) ==
      TagsAt(s0, depth) + TagsAt(s1, depth) + TagsAt(s2, depth) + TagsAt(s3, depth) + TagsAt(s4, depth)
  {
    TagsAtAppend(s0, s1, depth);
    TagsAtAppend(s0 + s1, s2, depth);
    TagsAtAppend(s0 + s1 + s2, s3, depth);
    TagsAtAppend(s0 + s1 + s2 + s3, s4, depth);
  }

  /** Opening and closing a tag around a body adds that one element at the outer depth and nothing else. */
  lemma WrapOpens(d: nat, tag: Tag, attrs: Attrs, body: seq<Line>, t: Tag)
    ensures Opens([Open(d, tag, attrs)] + body + [Close(d, tag)], t) == Opt(t == tag, attrs) + Opens(body, t)
  {
    OpensOne(Open(d, tag, attrs), t);
    OpensOne(Close(d, tag), t);
    OpensAppend([Open(d, tag, attrs)], body, t);
    OpensAppend([Open(d, tag, attrs)] + body, [Close(d, tag)], t);
  }

  lemma WrapTexts(d: nat, tag: Tag, attrs: Attrs, body: seq<Line>, t: Tag, a: Attrs)
    ensures Texts([Open(d, tag, attrs)] + body + [Close(d, tag)], t, a) == Texts(body, t, a)
  {
    TextsOne(Open(d, tag, attrs), t, a);
    TextsOne(Close(d, tag), t, a);
    TextsAppend([Open(d, tag, attrs)], body, t, a);
    TextsAppend([Open(d, tag, attrs)] + body, [Close(d, tag)], t, a);
  }

  lemma WrapTags(d: nat, tag: Tag, attrs: Attrs, body: seq<Line>, k: nat)
    ensures TagsAt([Open(d, tag, attrs)] + body + [Close(d, tag)], k) == Opt(k == d, tag) + TagsAt(body, k)
  {
    TagsAtOne(Open(d, tag, attrs), k);
    TagsAtOne(Close(d, tag), k);
    TagsAtAppend([Open(d, tag, attrs)], body, k);
    TagsAtAppend([Open(d, tag, attrs)] + body, [Close(d, tag)], k);
  }

  // ----------------------------------------------------------------- blocks

  function Opt<T>(present: bool, v: T): seq<T> {
    if present then [v] else []
  }

  /** Regrouping appended lines. */
  lemma LinesAssoc(a: seq<Line>, b: seq<Line>, c: seq<Line>)
    ensures a + (b + c) == a + b + c
  {
  }

  /** `if v: parts.append(<tag>v</tag>)`. */
  function OptLeaf(depth: nat, tag: Tag, attrs: Attrs, v: string): seq<Line> {
    if v == "" then [] else [Leaf(depth, tag, attrs, v)]
  }

  lemma OptLeafNested(depth: nat, tag: Tag, attrs: Attrs, v: string)
    ensures WellNested(OptLeaf(depth, tag, attrs, v), depth)
  {
    if v != "" {
      WellNestedLeaf(depth, tag, attrs, v);
    }
  }

  lemma OptLeafOpens(depth: nat, tag: Tag, attrs: Attrs, v: string, t: Tag)
    ensures Opens(OptLeaf(depth, tag, attrs, v), t) == []
  {
    if v != "" {
      OpensOne(Leaf(depth, tag, attrs, v), t);
    }
  }

  /** The one-line element is present exactly when its value is non-empty, and then carries the value. */
  lemma OptLeafTexts(depth: nat, tag: Tag, attrs: Attrs, v: string, t: Tag, a: Attrs)
    ensures Texts(OptLeaf(depth, tag, attrs, v), t, a) == Opt(t == tag && a == attrs && v != "", v)
  {
    if v != "" {
      TextsOne(Leaf(depth, tag, attrs, v), t, a);
    }
  }

  lemma OptLeafTags(depth: nat, tag: Tag, attrs: Attrs, v: string, k: nat)
    ensures TagsAt(OptLeaf(depth, tag, attrs, v), k) == Opt(k == depth && v != "", tag)
  {
    if v != "" {
      TagsAtOne(Leaf(depth, tag, attrs, v), k);
    }
  }

  /**
   * The optional `<doi_data>` block of the journal and of the issue:
   * written when the DOI or the URL is non-empty, holding each of them
   * only when it is non-empty.
   */
  function DoiDataBlock(depth: nat, doi: string, url: string): seq<Line> {
    if doi == "" && url == "" then []
    else
      [Open(depth, DoiData, NoAttrs)]
      + OptLeaf(depth + 1, Doi, NoAttrs, doi)
      + OptLeaf(depth + 1, Resource, NoAttrs, url)
      + [Close(depth, DoiData)]
  }

  lemma DoiDataNested(depth: nat, doi: string, url: string)
    ensures WellNested(DoiDataBlock(depth, doi, url), depth)
  {
    if doi != "" || url != "" {
      var a, b := OptLeaf(depth + 1, Doi, NoAttrs, doi), OptLeaf(depth + 1, Resource, NoAttrs, url);
      OptLeafNested(depth + 1, Doi, NoAttrs, doi);
      OptLeafNested(depth + 1, Resource, NoAttrs, url);
      WellNestedAppend(a, b, depth + 1);
      WellNestedWrap(a + b, depth, DoiData, NoAttrs);
      assert [Open(depth, DoiData, NoAttrs)] + (a + b) + [Close(depth, DoiData)] == DoiDataBlock(depth, doi, url);
    }
  }

  lemma DoiDataShape(depth: nat, doi: string, url: string)
    requires doi != "" || url != ""
    ensures DoiDataBlock(depth, doi, url) ==
      [Open(depth, DoiData, NoAttrs)] + (OptLeaf(depth + 1, Doi, NoAttrs, doi) + OptLeaf(depth + 1, Resource, NoAttrs, url))
      + [Close(depth, DoiData)]
  {
  }

  /** The `<doi_data>` element exists iff the DOI or the URL is non-empty. */
  lemma DoiDataOpens(depth: nat, doi: string, url: string, t: Tag)
    ensures Opens(DoiDataBlock(depth, doi, url), t) == Opt(t == DoiData && (doi != "" || url != ""), NoAttrs)
  {
    if doi != "" || url != "" {
      var x, y := OptLeaf(depth + 1, Doi, NoAttrs, doi), OptLeaf(depth + 1, Resource, NoAttrs, url);
      DoiDataShape(depth, doi, url);
      WrapOpens(depth, DoiData, NoAttrs, x + y, t);
      OpensAppend(x, y, t);
      OptLeafOpens(depth + 1, Doi, NoAttrs, doi, t);
      OptLeafOpens(depth + 1, Resource, NoAttrs, url, t);
    }
  }

  /** Inside `<doi_data>` the DOI comes before the resource, each present iff non-empty. */
  lemma DoiDataTexts(depth: nat, doi: string, url: string, t: Tag, a: Attrs)
    ensures Texts(DoiDataBlock(depth, doi, url), t, a) ==
      Opt(t == Doi && a == NoAttrs && doi != "", doi) + Opt(t == Resource && a == NoAttrs && url != "", url)
  {
    if doi != "" || url != "" {
      var x, y := OptLeaf(depth + 1, Doi, NoAttrs, doi), OptLeaf(depth + 1, Resource, NoAttrs, url);
      DoiDataShape(depth, doi, url);
      WrapTexts(depth, DoiData, NoAttrs, x + y, t, a);
      TextsAppend(x, y, t, a);
      OptLeafTexts(depth + 1, Doi, NoAttrs, doi, t, a);
      OptLeafTexts(depth + 1, Resource, NoAttrs, url, t, a);
    }
  }

  lemma DoiDataTags(depth: nat, doi: string, url: string, k: nat)
    ensures TagsAt(DoiDataBlock(depth, doi, url), k) ==
      Opt(k == depth && (doi != "" || url != ""), DoiData)
      + Opt(k == depth + 1 && doi != "", Doi) + Opt(k == depth + 1 && url != "", Resource)
  {
    if doi != "" || url != "" {
      var x, y := OptLeaf(depth + 1, Doi, NoAttrs, doi), OptLeaf(depth + 1, Resource, NoAttrs, url);
      DoiDataShape(depth, doi, url);
      WrapTags(depth, DoiData, NoAttrs, x + y, k);
      TagsAtAppend(x, y, k);
      OptLeafTags(depth + 1, Doi, NoAttrs, doi, k);
      OptLeafTags(depth + 1, Resource, NoAttrs, url, k);
    }
  }

  /**
   * `if y and m and d:` a `<publication_date>` block holding month, day and
   * year in that order; nothing at all when any part is empty.
   */
  function DateBlock(depth: nat, media: Media, p: DateParts): seq<Line> {
    if Complete(p) then
      [ Open(depth, PublicationDate, MediaType(media)),
        Leaf(depth + 1, Month, NoAttrs, p.month),
        Leaf(depth + 1, Day, NoAttrs, p.day),
        Leaf(depth + 1, Year, NoAttrs, p.year),
        Close(depth, PublicationDate) ]
    else []
  }

  function DateBody(depth: nat, p: DateParts): seq<Line> {
    [Leaf(depth + 1, Month, NoAttrs, p.month)] + [Leaf(depth + 1, Day, NoAttrs, p.day)] + [Leaf(depth + 1, Year, NoAttrs, p.year)]
  }

  lemma DateShape(depth: nat, media: Media, p: DateParts)
    requires Complete(p)
    ensures DateBlock(depth, media, p) ==
      [Open(depth, PublicationDate, MediaType(media))] + DateBody(depth, p) + [Close(depth, PublicationDate)]
  {
  }

  lemma DateNested(depth: nat, media: Media, p: DateParts)
    ensures WellNested(DateBlock(depth, media, p), depth)
  {
    if Complete(p) {
      var l1, l2, l3 := Leaf(depth + 1, Month, NoAttrs, p.month), Leaf(depth + 1, Day, NoAttrs, p.day),
        Leaf(depth + 1, Year, NoAttrs, p.year);
      WellNestedLeaf(depth + 1, Month, NoAttrs, p.month);
      WellNestedLeaf(depth + 1, Day, NoAttrs, p.day);
      WellNestedLeaf(depth + 1, Year, NoAttrs, p.year);
      WellNestedAppend([l1], [l2], depth + 1);
      WellNestedAppend([l1] + [l2], [l3], depth + 1);
      WellNestedWrap(DateBody(depth, p), depth, PublicationDate, MediaType(media));
      DateShape(depth, media, p);
    }
  }

  /** All or nothing: the `<publication_date>` element exists iff all three parts are non-empty. */
  lemma DateOpens(depth: nat, media: Media, p: DateParts, t: Tag)
    ensures Opens(DateBlock(depth, media, p), t) == Opt(t == PublicationDate && Complete(p), MediaType(media))
  {
    if Complete(p) {
      var l1, l2, l3 := Leaf(depth + 1, Month, NoAttrs, p.month), Leaf(depth + 1, Day, NoAttrs, p.day),
        Leaf(depth + 1, Year, NoAttrs, p.year);
      DateShape(depth, media, p);
      WrapOpens(depth, PublicationDate, MediaType(media), DateBody(depth, p), t);
      OpensAppend([l1], [l2], t);
      OpensAppend([l1] + [l2], [l3], t);
      OpensOne(l1, t);
      OpensOne(l2, t);
      OpensOne(l3, t);
    }
  }

  /** A written date holds month, day and year, in that order, carrying the three parts. */
  lemma DateTexts(depth: nat, media: Media, p: DateParts, t: Tag, a: Attrs)
    ensures Texts(DateBlock(depth, media, p), t, a) ==
      Opt(t == Month && a == NoAttrs && Complete(p), p.month)
      + Opt(t == Day && a == NoAttrs && Complete(p), p.day)
      + Opt(t == Year && a == NoAttrs && Complete(p), p.year)
  {
    if Complete(p) {
      var l1, l2, l3 := Leaf(depth + 1, Month, NoAttrs, p.month), Leaf(depth + 1, Day, NoAttrs, p.day),
        Leaf(depth + 1, Year, NoAttrs, p.year);
      DateShape(depth, media, p);
      WrapTexts(depth, PublicationDate, MediaType(media), DateBody(depth, p), t, a);
      TextsAppend([l1], [l2], t, a);
      TextsAppend([l1] + [l2], [l3], t, a);
      TextsOne(l1, t, a);
      TextsOne(l2, t, a);
      TextsOne(l3, t, a);
    }
  }

  lemma DateTags(depth: nat, media: Media, p: DateParts, k: nat)
    ensures TagsAt(DateBlock(depth, media, p), k) ==
      Opt(k == depth && Complete(p), PublicationDate) + (if k == depth + 1 && Complete(p) then [Month, Day, Year] else [])
  {
    if Complete(p) {
      var l1, l2, l3 := Leaf(depth + 1, Month, NoAttrs, p.month), Leaf(depth + 1, Day, NoAttrs, p.day),
        Leaf(depth + 1, Year, NoAttrs, p.year);
      DateShape(depth, media, p);
      WrapTags(depth, PublicationDate, MediaType(media), DateBody(depth, p), k);
      TagsAtAppend([l1], [l2], k);
      TagsAtAppend([l1] + [l2], [l3], k);
      TagsAtOne(l1, k);
      TagsAtOne(l2, k);
      TagsAtOne(l3, k);
    }
  }
}
