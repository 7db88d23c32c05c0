/** The document abstraction shared by the scraper and the browser client:
    optional values, the whitespace both languages strip, ASCII lower-casing,
    and the shapes of the two kinds of HTML table the site serves. */
module Html {

  datatype Option<+T> = None | Some(value: T) {
    /** The value, or `d` when there is none. */
    function GetOr(d: T): T {
      match this
      case Some(v) => v
      case None => d
    }
  }

  /** Python truthiness of an optional string: present and non-empty. */
  predicate Truthy(o: Option<string>) {
    o.Some? && o.value != ""
  }

  /** The ASCII whitespace characters: the part of what `str.strip`, `String.prototype.trim`
      and `\s` treat as whitespace that the pages use. Both languages also count further
      Unicode characters (U+00A0 among them), which this predicate leaves out. */
  predicate IsSpace(c: char) {
    c == ' ' || c == '\t' || c == '\n' || c == '\r' || c == '\U{000B}' || c == '\U{000C}'
  }

  function TrimLeft(s: string): (r: string)
    ensures |r| <= |s| && r == s[|s| - |r|..]
    ensures r != [] ==> !IsSpace(r[0])
    ensures forall i :: 0 <= i < |s| - |r| ==> IsSpace(s[i])
  {
    if s != [] && IsSpace(s[0]) then
      var r := TrimLeft(s[1..]);
      assert forall i :: 0 < i < |s| ==> s[i] == s[1..][i - 1];
      r
    else s
  }

  function TrimRight(s: string): (r: string)
    ensures |r| <= |s| && r == s[..|r|]
    ensures r != [] ==> !IsSpace(r[|r| - 1])
    ensures forall i :: |r| <= i < |s| ==> IsSpace(s[i])
  {
    if s != [] && IsSpace(s[|s| - 1]) then TrimRight(s[..|s| - 1]) else s
  }

  /** `s.strip()` in Python, `s.trim()` in JavaScript: the longest slice of `s`
      that neither starts nor ends with whitespace, everything cut off being whitespace. */
  function Trim(s: string): (r: string)
    ensures |r| <= |s|
    ensures r != [] ==> !IsSpace(r[0]) && !IsSpace(r[|r| - 1])
  {
    TrimRight(TrimLeft(s))
  }

  /** What `Trim` cuts off is whitespace, and what it keeps is a slice of `s`. */
  lemma TrimIsSliceBetweenSpaces(s: string)
    ensures exists a :: SliceBetweenSpaces(s, a, Trim(s))
  {
    var l := TrimLeft(s);
    assert SliceBetweenSpaces(s, |s| - |l|, Trim(s));
  }

  /** `r` is the slice of `s` at `a`, and everything of `s` before and after it is whitespace. */
  ghost predicate SliceBetweenSpaces(s: string, a: int, r: string) {
    && 0 <= a && a + |r| <= |s| && r == s[a..a + |r|]
    && (forall i :: 0 <= i < a ==> IsSpace(s[i]))
    && (forall i :: a + |r| <= i < |s| ==> IsSpace(s[i]))
  }

  /** A string of whitespace trims to nothing. */
  lemma TrimBlank(s: string)
    requires forall i :: 0 <= i < |s| ==> IsSpace(s[i])
    ensures Trim(s) == []
  {
    TrimIsSliceBetweenSpaces(s);
  }

  /** A string with no whitespace at either end is its own trim. */
  lemma {:induction false} TrimOfTrimmed(s: string)
    requires s != [] ==> !IsSpace(s[0]) && !IsSpace(s[|s| - 1])
    ensures Trim(s) == s
  {
    assert TrimLeft(s) == s;
    assert TrimRight(s) == s;
  }

  /** Trimming twice is trimming once. */
  lemma TrimIdempotent(s: string)
    ensures Trim(Trim(s)) == Trim(s)
  {
    TrimOfTrimmed(Trim(s));
  }

  /** ASCII lower-casing of one character; every other character is its own lower case. */
  function LowerChar(c: char): (r: char)
    ensures IsSpace(r) <==> IsSpace(c)
    ensures 'A' <= c <= 'Z' ==> 'a' <= r <= 'z' && r as int == c as int + 32
    ensures !('A' <= c <= 'Z') ==> r == c
  {
    if 'A' <= c <= 'Z' then (c as int + 32) as char else c
  }

  function Lower(s: string): string {
    seq(|s|, i requires 0 <= i < |s| => LowerChar(s[i]))
  }

  /** `w` occurs in `s` starting at index `i`. */
  predicate StartsAt(s: string, i: nat, w: string) {
    i + |w| <= |s| && s[i..i + |w|] == w
  }

  /** `s.includes(w)` */
  predicate Contains(s: string, w: string) {
    exists i :: 0 <= i <= |s| - |w| && StartsAt(s, i, w)
  }

  /** The first index at or after `i` where `s` stops being whitespace. */
  function SkipSpaces(s: string, i: nat): (r: nat)
    requires i <= |s|
    ensures i <= r <= |s| && (r < |s| ==> !IsSpace(s[r]))
    ensures forall k :: i <= k < r ==> IsSpace(s[k])
    decreases |s| - i
  {
    if i < |s| && IsSpace(s[i]) then SkipSpaces(s, i + 1) else i
  }

  /** `element.textContent` in the browser: the element's text nodes, concatenated. */
  function Concat(ns: seq<string>): (r: string)
    ensures ns == [] ==> r == []
    ensures |ns| == 1 ==> r == ns[0]
  {
    if ns == [] then [] else ns[0] + Concat(ns[1..])
  }

  /** The text nodes BeautifulSoup keeps under `strip=True`: each stripped, the blank ones dropped. */
  function Pieces(ns: seq<string>): (ps: seq<string>)
    ensures |ps| <= |ns|
    ensures forall i :: 0 <= i < |ps| ==> ps[i] != [] && !IsSpace(ps[i][0]) && !IsSpace(ps[i][|ps[i]| - 1])
  {
    if ns == [] then []
    else
      var t := Trim(ns[0]);
      var rest := Pieces(ns[1..]);
      if t == [] then rest else [t] + rest
  }

  /** `sep.join(ps)` */
  function Join(ps: seq<string>, sep: string): string {
    if ps == [] then [] else if |ps| == 1 then ps[0] else ps[0] + sep + Join(ps[1..], sep)
  }

  /** `element.get_text(sep, strip=True)` in BeautifulSoup: the stripped, non-blank text
      nodes joined by `sep`. When `sep` is whitespace or empty the result is stripped,
      and it is empty only when no text node has anything but whitespace. */
  function GetText(ns: seq<string>, sep: string): (r: string)
    requires forall i :: 0 <= i < |sep| ==> IsSpace(sep[i])
    ensures Trim(r) == r
    ensures r == [] <==> forall i :: 0 <= i < |ns| ==> Trim(ns[i]) == []
  {
    GetTextStripped(ns, sep);
    Join(Pieces(ns), sep)
  }

  lemma GetTextStripped(ns: seq<string>, sep: string)
    ensures var r := Join(Pieces(ns), sep);
      Trim(r) == r && (r == [] <==> forall i :: 0 <= i < |ns| ==> Trim(ns[i]) == [])
  {
    var ps := Pieces(ns);
    var r := Join(ps, sep);
    JoinStripped(ps, sep);
    assert r == [] <==> ps == [];
    PiecesEmpty(ns);
    TrimOfTrimmed(r);
  }

  /** Joining non-empty pieces that neither start nor end with whitespace gives a string
      that neither starts nor ends with whitespace, and is empty only for no pieces. */
  lemma {:induction false} JoinStripped(ps: seq<string>, sep: string)
    requires forall i :: 0 <= i < |ps| ==> ps[i] != [] && !IsSpace(ps[i][0]) && !IsSpace(ps[i][|ps[i]| - 1])
    ensures var r := Join(ps, sep);
      (r == [] <==> ps == []) && (r != [] ==> !IsSpace(r[0]) && !IsSpace(r[|r| - 1]))
  {
    if |ps| > 1 {
      var p, rest := ps[0], Join(ps[1..], sep);
      JoinStripped(ps[1..], sep);
      var r := p + sep + rest;
      assert r[0] == p[0];
      assert r[|r| - 1] == rest[|rest| - 1];
    }
  }

  /** A single text node: BeautifulSoup's stripped text and the browser's trimmed
      `textContent` are both the node stripped. */
  lemma SingleNodeText(n: string, sep: string)
    requires forall i :: 0 <= i < |sep| ==> IsSpace(sep[i])
    ensures GetText([n], sep) == Trim(Concat([n])) == Trim(n)
  {
    assert Pieces([n]) == (if Trim(n) == [] then [] else [Trim(n)]) by {
      assert [n][1..] == [];
    }
  }

  lemma {:induction false} PiecesEmpty(ns: seq<string>)
    ensures Pieces(ns) == [] <==> forall i :: 0 <= i < |ns| ==> Trim(ns[i]) == []
  {
    if ns != [] {
      PiecesEmpty(ns[1..]);
      if Trim(ns[0]) == [] {
        assert (forall i :: 0 <= i < |ns| ==> Trim(ns[i]) == []) <==> (forall i :: 0 <= i < |ns[1..]| ==> Trim(ns[1..][i]) == []) by {
          assert forall i :: 1 <= i < |ns| ==> ns[i] == ns[1..][i - 1];
        }
      }
    }
  }

  /** One `<tr>` of a search-result table: the text nodes of each of its `<td>` cells,
      and the `href` attribute of its first `<a>` that has one. */
  datatype ListingTr = ListingTr(tds: seq<seq<string>>, href: Option<string>)

  /** A search-result page reduced to the rows of its first `<table>`, if it has one. */
  datatype ListingDoc = ListingDoc(table: Option<seq<ListingTr>>)

  /** The rows under the table's first row (`trs[1:]`, `.slice(1)`). */
  function BelowHeader(trs: seq<ListingTr>): seq<ListingTr> {
    if trs == [] then [] else trs[1..]
  }

  /** The rows with at least three `<td>` cells, in order: each kept row is a row of the
      input, and every input row with three cells or more is kept. */
  function WideRows(trs: seq<ListingTr>): (w: seq<ListingTr>)
    ensures |w| <= |trs|
    ensures forall i :: 0 <= i < |w| ==> |w[i].tds| >= 3 && w[i] in trs
    ensures forall tr :: tr in trs && |tr.tds| >= 3 ==> tr in w
  {
    if trs == [] then []
    else
      var w := WideRows(trs[..|trs| - 1]);
      if |trs[|trs| - 1].tds| >= 3 then w + [trs[|trs| - 1]] else w
  }

  /** Filtering a concatenation filters each part: the kept rows stay in input order. */
  lemma {:induction false} WideRowsAppend(a: seq<ListingTr>, b: seq<ListingTr>)
    ensures WideRows(a + b) == WideRows(a) + WideRows(b)
    decreases |b|
  {
    if b == [] {
      assert a + b == a;
    } else {
      var b0 := b[..|b| - 1];
      WideRowsAppend(a, b0);
      assert (a + b)[..|a + b| - 1] == a + b0;
    }
  }

  /** One row is kept exactly when it has three cells or more. */
  lemma WideRowsSingle(tr: ListingTr)
    ensures WideRows([tr]) == if |tr.tds| >= 3 then [tr] else []
  {
    assert [tr][..0] == [];
  }

  /** One entry of a search result as both listing parsers produce it. */
  datatype SearchRow = SearchRow(name: string, group: string, ftype: string, detailUrl: Option<string>)

  /** One `<th>` or `<td>` cell of a detail table: whether it is a `<th>`, the value
      of its `colspan` attribute when it has one, and its text nodes. */
  datatype Cell = Cell(isTh: bool, colspan: Option<string>, texts: seq<string>)

  /** A detail page as BeautifulSoup sees it: the text nodes of the first `<h1>`/`<h2>`,
      all text nodes of the page, the text nodes of the element around the first text
      node that mentions the food-group marker, and the cell rows of the first `<table>`. */
  datatype Soup = Soup(heading: Option<seq<string>>, strings: seq<string>,
                       groupParent: Option<seq<string>>, table: Option<seq<seq<Cell>>>)

  /** A detail page as the browser's DOMParser sees it: the text nodes of the first
      `<h1>`/`<h2>`, `document.body.innerText`, and the cell rows of the first `<table>`. */
  datatype Dom = Dom(heading: Option<seq<string>>, innerText: string, table: Option<seq<seq<Cell>>>)
}
