/**
 * Spreadsheet cells and the field normalisers of the generator: `_safe`,
 * `_fmt_issn`, `_url_or_empty` and `_ymd`. Each is total and degrades a
 * missing or malformed cell to the empty string (or the empty date triple)
 * instead of failing.
 */
module Cells {
  import opened Errors
  import opened Strings

  /**
   * A loosely typed cell as a spreadsheet row hands it over: missing (None
   * or NaN), a string, or an integer.
   */
  datatype Cell = Missing | Text(text: string) | Number(value: int)

  /** One spreadsheet row: column name to cell. */
  type Row = map<string, Cell>

  /** `row.get(column)`: an absent column reads as missing. */
  function Get(row: Row, column: string): Cell {
    if column in row then row[column] else Missing
  }

  /** `_safe`: missing becomes '', anything else its `str()` with the surrounding whitespace stripped. */
  function Safe(v: Cell): (r: string)
    ensures Stripped(r)
    ensures v.Missing? ==> r == ""
    ensures v.Text? ==> r == Strip(v.text)
    ensures v.Number? ==> r == IntToString(v.value)
  {
    match v
    case Missing => ""
    case Text(t) => Strip(t)
    case Number(n) =>
      var s := IntToString(n);
      assert s != [] && !IsSpace(s[0]) && !IsSpace(s[|s| - 1]);
      StripStripped(s);
      Strip(s)
  }

  /** Normalising a normalised value again changes nothing. */
  lemma SafeIdempotent(v: Cell)
    ensures Safe(Text(Safe(v))) == Safe(v)
  {
    StripStripped(Safe(v));
  }

  // ----------------------------------------------------------------- ISSN

  /** The pattern `\d{4}-\d{3}[\dX]`, matched against the whole string. */
  predicate IsIssn(s: string) {
    && |s| == 9
    && (forall i :: 0 <= i < 8 && i != 4 ==> IsDigit(s[i]))
    && s[4] == '-'
    && (IsDigit(s[8]) || s[8] == 'X')
  }

  predicate EightDigits(s: string) {
    |s| == 8 && AllDigits(s)
  }

  /** The first four digits, a hyphen, the last four. */
  function Regroup(s: string): (r: string)
    requires EightDigits(s)
    ensures IsIssn(r)
  {
    s[..4] + "-" + s[4..]
  }

  /**
   * `_fmt_issn`: with every hyphen removed, eight digits are regrouped as
   * `DDDD-DDDD`; otherwise an already well-formed `DDDD-DDD[DX]` is kept;
   * anything else becomes ''. The result is never a malformed ISSN.
   */
  function FmtIssn(v: Cell): (r: string)
    ensures r == "" || IsIssn(r)
  {
    var s := Remove(Safe(v), '-');
    if EightDigits(s) then Regroup(s)
    else if IsIssn(Safe(v)) then Safe(v)
    else ""
  }

  /** Exactly the two accepted shapes produce an ISSN; with the hyphens gone, eight digits are regrouped 4 + 4. */
  lemma FmtIssnCases(v: Cell)
    ensures FmtIssn(v) != "" <==> EightDigits(Remove(Safe(v), '-')) || IsIssn(Safe(v))
    ensures EightDigits(Remove(Safe(v), '-')) ==>
      var s := Remove(Safe(v), '-');
      FmtIssn(v) == s[..4] + "-" + s[4..]
  {
  }

  lemma {:induction false} RemoveRegroup(s: string)
    requires EightDigits(s)
    ensures Remove(Regroup(s), '-') == s
  {
    assert '-' !in s[..4] by { assert forall i :: 0 <= i < 4 ==> IsDigit(s[..4][i]); }
    assert '-' !in s[4..] by { assert forall i :: 0 <= i < 4 ==> IsDigit(s[4..][i]); }
    RemoveAppend(s[..4] + "-", s[4..], '-');
    RemoveAppend(s[..4], "-", '-');
    RemoveAbsent(s[..4], '-');
    RemoveAbsent(s[4..], '-');
    assert s[..4] + s[4..] == s;
  }

  /** An ISSN whose check character is a digit is the regrouping of its eight digits. */
  lemma {:induction false} DigitIssnRegroups(r: string)
    requires IsIssn(r) && IsDigit(r[8])
    ensures EightDigits(Remove(r, '-')) && Regroup(Remove(r, '-')) == r
  {
    var a, b := r[..4], r[5..];
    assert r == a + "-" + b;
    assert '-' !in a by { assert forall i :: 0 <= i < 4 ==> IsDigit(a[i]); }
    assert '-' !in b by { assert forall i :: 0 <= i < 4 ==> IsDigit(b[i]); }
    RemoveAppend(a + "-", b, '-');
    RemoveAppend(a, "-", '-');
    RemoveAbsent(a, '-');
    RemoveAbsent(b, '-');
    var s := a + b;
    assert Remove(r, '-') == s;
    assert AllDigits(s) by {
      forall i | 0 <= i < 8 ensures IsDigit(s[i]) {
        if i < 4 { assert s[i] == r[i]; } else { assert s[i] == r[i + 1]; }
      }
    }
    assert s[..4] == a && s[4..] == b;
  }

  /** An ISSN ending in the check character X has no eight-digit form. */
  lemma XIssnIsNotDigits(r: string)
    requires IsIssn(r) && r[8] == 'X'
    ensures !EightDigits(Remove(r, '-'))
  {
    RemoveKeeps(r, '-', 'X');
  }

  /** Formatting only moves hyphens: the digits (and check character) are those of the input, in order. */
  lemma FmtIssnKeepsDigits(v: Cell)
    ensures FmtIssn(v) != "" ==> Remove(FmtIssn(v), '-') == Remove(Safe(v), '-')
  {
    var s := Remove(Safe(v), '-');
    if EightDigits(s) {
      RemoveRegroup(s);
    }
  }

  /** A well-formed ISSN is left as it is. */
  lemma IssnFixedPoint(r: string)
    requires IsIssn(r)
    ensures FmtIssn(Text(r)) == r
  {
    assert !IsSpace(r[0]) && !IsSpace(r[8]) by { assert IsDigit(r[0]); }
    StripStripped(r);
    assert Safe(Text(r)) == r;
    if IsDigit(r[8]) {
      DigitIssnRegroups(r);
    } else {
      XIssnIsNotDigits(r);
    }
  }

  /** A formatted ISSN is a fixed point: formatting it again returns it unchanged. */
  lemma FmtIssnIdempotent(v: Cell)
    ensures FmtIssn(v) != "" ==> FmtIssn(Text(FmtIssn(v))) == FmtIssn(v)
  {
    if FmtIssn(v) != "" {
      IssnFixedPoint(FmtIssn(v));
    }
  }

  // ----------------------------------------------------------------- URL

  /** The regular expression `^(https?|ftp)://`, matched at the start of `s`. */
  predicate MatchesScheme(s: string) {
    if StartsWith(s, "ftp") then StartsWith(s[3..], "://")
    else if StartsWith(s, "http") then
      var rest := if StartsWith(s[4..], "s") then s[5..] else s[4..];
      StartsWith(rest, "://")
    else false
  }

  /**
   * `_url_or_empty`: the trimmed value when it starts with `http://`,
   * `https://` or `ftp://` (scheme case-sensitive), and '' otherwise,
   * a missing cell included.
   */
  function UrlOrEmpty(v: Cell): (r: string)
    ensures r == "" || r == Safe(v)
    ensures r != "" <==> StartsWith(Safe(v), "http://") || StartsWith(Safe(v), "https://") || StartsWith(Safe(v), "ftp://")
  {
    var s := Safe(v);
    assert MatchesScheme(s) <==> StartsWith(s, "http://") || StartsWith(s, "https://") || StartsWith(s, "ftp://") by {
      SchemePrefixes(s);
    }
    if s != "" && MatchesScheme(s) then s else ""
  }

  lemma SchemePrefixes(s: string)
    ensures MatchesScheme(s) <==> StartsWith(s, "http://") || StartsWith(s, "https://") || StartsWith(s, "ftp://")
  {
    assert "ftp://" == "ftp" + "://";
    assert "http://" == "http" + "://";
    assert "https://" == "http" + "s://";
    assert "s://" == "s" + "://";
    StartsWithConcat(s, "ftp", "://");
    StartsWithConcat(s, "http", "://");
    StartsWithConcat(s, "http", "s://");
    if StartsWith(s, "http") {
      StartsWithConcat(s[4..], "s", "://");
      if StartsWith(s[4..], "s") {
        assert s[4..][1..] == s[5..];
        assert !StartsWith(s[4..], "://") by { assert s[4..][0] == 's'; }
      } else {
        assert !StartsWith(s[4..], "s://");
      }
    }
    if StartsWith(s, "ftp") {
      assert s[0] == 'f';
      assert !StartsWith(s, "http") by { assert "http"[0] == 'h'; }
    }
  }

  // ----------------------------------------------------------------- dates

  datatype Date = Date(year: int, month: int, day: int)

  /** A pandas Timestamp's calendar date: pandas represents years 1677 to 2262 only. */
  type Timestamp = d: Date | 1677 <= d.year <= 2262 && 1 <= d.month <= 12 && 1 <= d.day <= 31
    witness Date(1970, 1, 1)

  /** `pd.to_datetime(value, errors='coerce')`: a date, or None for NaT. */
  type DateParser = Cell -> Option<Timestamp>

  /** The (Y, M, D) strings `_ymd` returns. */
  datatype DateParts = DateParts(year: string, month: string, day: string)

  const NoDate := DateParts("", "", "")

  /** `_ymd`'s emission test `y and m and d`. */
  predicate Complete(p: DateParts) {
    p.year != "" && p.month != "" && p.day != ""
  }

  /**
   * `_ymd`: all three parts or none. A parsed date gives a 4-digit year and a
   * 2-digit month and day; a missing or unparseable cell gives ('', '', '').
   */
  function Ymd(v: Cell, toDatetime: DateParser): (r: DateParts)
    ensures r == NoDate || Complete(r)
    ensures Complete(r) <==> !v.Missing? && toDatetime(v).Some?
    ensures Complete(r) ==>
      && |r.year| == 4 && |r.month| == 2 && |r.day| == 2
      && AllDigits(r.year) && AllDigits(r.month) && AllDigits(r.day)
  {
    if v.Missing? then NoDate
    else match toDatetime(v)
      case None => NoDate
      case Some(t) => DateParts(Pad(t.year, 4), Pad(t.month, 2), Pad(t.day, 2))
  }

  /** The date strings denote exactly the parsed date. */
  lemma YmdDenotesDate(v: Cell, toDatetime: DateParser)
    requires !v.Missing? && toDatetime(v).Some?
    ensures var r, t := Ymd(v, toDatetime), toDatetime(v).value;
      DecimalValue(r.year) == t.year && DecimalValue(r.month) == t.month && DecimalValue(r.day) == t.day
  {
    var t := toDatetime(v).value;
    assert Pow10(2) == 100 && Pow10(4) == 10000;
    PadRoundTrip(t.year, 4);
    PadRoundTrip(t.month, 2);
    PadRoundTrip(t.day, 2);
  }
}
