/** The scraper of scripts/scrape_thaifcd.py: the search-result listing, the parse of
    one food's detail page (name, food group, basis and the nutrient table), the walk
    over one keyword's results, and the de-duplicating harvest over all keywords with
    its write of the collected items after every keyword. The network and the library
    calls whose code is not part of this model are parameters. */
module ScrapeThaifcd {
  import opened Html
  import opened TableFill
  import opened PageText
  import NutrientsMapSite

  const BASE := "https://thaifcd.anamai.moph.go.th/nss/"
  const NoName := "(ไม่พบชื่อ)"
  const Attribution := "ข้อมูลจาก ThaiFCD (กรมอนามัย กระทรวงสาธารณสุข) – ใช้เพื่อการศึกษา/อ้างอิง โดยให้เครดิตแหล่งที่มา"

  /** The library calls whose results the model takes as given: `urljoin(base, href)`,
      and `float(text)`, which is `None` where it raises. */
  datatype Lib = Lib(urljoin: (string, string) -> string, toFloat: string -> Option<real>)

  /** What the site answers during one run: the search-result page for a keyword, and
      the detail page at a URL together with the URL the response finally came from;
      `None` where the request raises. */
  datatype Web = Web(search: string -> Option<ListingDoc>, detail: string -> Option<(Soup, string)>)

  // ---------------------------------------------------------------- listing

  /** One row of the result table as `extract_search_rows` reads it. */
  function ListingRow(tr: ListingTr, lib: Lib): Option<SearchRow> {
    if |tr.tds| < 3 then None
    else
      Some(SearchRow(GetText(tr.tds[0], ""), GetText(tr.tds[1], ""), GetText(tr.tds[2], ""),
                     if tr.href.Some? then Some(lib.urljoin(BASE, tr.href.value)) else None))
  }

  /** The entries the rows `trs` yield, in order. */
  function ListingRows(trs: seq<ListingTr>, lib: Lib): seq<SearchRow> {
    if trs == [] then []
    else
      var rows := ListingRows(trs[..|trs| - 1], lib);
      match ListingRow(trs[|trs| - 1], lib)
      case None => rows
      case Some(r) => rows + [r]
  }

  /** `extract_search_rows(html)` on the parsed page: no table gives no entries, and the
      first row of the table is never read. */
  function Listing(doc: ListingDoc, lib: Lib): seq<SearchRow> {
    match doc.table
    case None => []
    case Some(trs) => ListingRows(BelowHeader(trs), lib)
  }

  /** Entry `r` is what row `tr` gives: its three cell texts, and a detail URL exactly
      when the row has an anchor with an `href`, joined to the site's base. */
  predicate EntryOf(r: SearchRow, tr: ListingTr, lib: Lib)
    requires |tr.tds| >= 3
  {
    && r.name == GetText(tr.tds[0], "")
    && r.group == GetText(tr.tds[1], "")
    && r.ftype == GetText(tr.tds[2], "")
    && (r.detailUrl.None? <==> tr.href.None?)
    && (tr.href.Some? ==> r.detailUrl == Some(lib.urljoin(BASE, tr.href.value)))
  }

  /** The rows with fewer than three cells are dropped and every other row gives one entry,
      in order (an anchor with an empty `href` still gives a detail URL). */
  lemma {:induction false} ListingRowsAreWideRows(trs: seq<ListingTr>, lib: Lib)
    ensures var rows, w := ListingRows(trs, lib), WideRows(trs);
      |rows| == |w| && forall i :: 0 <= i < |rows| ==> EntryOf(rows[i], w[i], lib)
  {
    if trs != [] {
      var init, tr := trs[..|trs| - 1], trs[|trs| - 1];
      ListingRowsAreWideRows(init, lib);
      var rows0, w0 := ListingRows(init, lib), WideRows(init);
      if |tr.tds| >= 3 {
        var r := ListingRow(tr, lib).value;
        var rows, w := rows0 + [r], w0 + [tr];
        assert ListingRows(trs, lib) == rows;
        assert WideRows(trs) == w;
        assert EntryOf(r, tr, lib);
        forall i | 0 <= i < |rows| ensures EntryOf(rows[i], w[i], lib) {
          if i < |rows0| {
            assert rows[i] == rows0[i] && w[i] == w0[i];
            assert EntryOf(rows0[i], w0[i], lib);
          } else {
            assert i == |rows0|;
            assert rows[i] == r;
            assert w[i] == tr;
          }
        }
        assert |rows| == |w|;
      } else {
        assert ListingRows(trs, lib) == rows0;
        assert WideRows(trs) == w0;
      }
    }
  }

  method ExtractSearchRows(doc: ListingDoc, lib: Lib) returns (items: seq<SearchRow>)
    ensures items == Listing(doc, lib)
  {
    items := [];
    if doc.table.None? {
      return;
    }
    var trs := BelowHeader(doc.table.value);
    for i := 0 to |trs|
      invariant items == ListingRows(trs[..i], lib)
    {
      var tr := trs[i];
      assert trs[..i + 1][..i] == trs[..i];
      if |tr.tds| < 3 {
        continue;
      }
      var name := GetText(tr.tds[0], "");
      var group := GetText(tr.tds[1], "");
      var ftype := GetText(tr.tds[2], "");
      var detail := if tr.href.Some? then Some(lib.urljoin(BASE, tr.href.value)) else None;
      items := items + [SearchRow(name, group, ftype, detail)];
    }
    assert trs[..|trs|] == trs;
  }

  // ---------------------------------------------------------------- basis

  /** The basis a page states its values for: an amount and a unit, each possibly missing. */
  datatype Basis = Basis(amount: Option<real>, unit: Option<string>)

  /** `[\d\.]`: Python's `\d` on text also matches the Thai digits. */
  predicate IsNumChar(c: char) {
    '0' <= c <= '9' || '๐' <= c <= '๙' || c == '.'
  }

  /** The unit group `([กมล]\.?|g|ml|กรัม|มล)` under `re.I`, tried in the written order:
      the one-letter abbreviations come first, so they also take the start of "กรัม" and
      "มล", and the last two alternatives are never reached. */
  function UnitAt(t: string, k: nat): (r: Option<string>)
    ensures r.Some? ==> k + |r.value| <= |t| && t[k..k + |r.value|] == r.value
  {
    if k < |t| && (t[k] == 'ก' || t[k] == 'ม' || t[k] == 'ล') then
      Some(if k + 1 < |t| && t[k + 1] == '.' then t[k..k + 2] else [t[k]])
    else if k < |t| && LowerChar(t[k]) == 'g' then Some([t[k]])
    else if k + 2 <= |t| && Lower(t[k..k + 2]) == "ml" then Some(t[k..k + 2])
    else if StartsAt(t, k, "กรัม") then Some("กรัม")
    else if StartsAt(t, k, "มล") then Some("มล")
    else None
  }

  /** `s.replace(".", "")` */
  function RemoveDots(s: string): (r: string)
    ensures forall i :: 0 <= i < |r| ==> r[i] != '.'
    ensures (forall i :: 0 <= i < |s| ==> s[i] != '.') ==> r == s
  {
    if s == [] then []
    else (if s[0] == '.' then [] else [s[0]]) + RemoveDots(s[1..])
  }

  /** The unit as stored: lower-cased, dots removed, then "ก", "กรัม" and "g" are "g",
      "มล" and "ml" are "ml", and anything else stays as it is. */
  function UnitName(u: string): (r: string)
    ensures forall i :: 0 <= i < |r| ==> r[i] != '.'
  {
    var v := RemoveDots(Lower(u));
    if v == "ก" || v == "กรัม" || v == "g" then "g"
    else if v == "มล" || v == "ml" then "ml"
    else v
  }

  function BasisPhraseAt(t: string, i: nat): Option<(string, string)> {
    PhraseAt(t, i, IsNumChar, UnitAt)
  }

  /** `parse_basis(soup)` on the page text: the first phrase that matches gives the
      amount (`None` where the number does not parse) and the unit; no phrase leaves both
      missing. */
  function ParseBasis(text: string, lib: Lib): (b: Basis)
    ensures var r := Search(text, 0, BasisMarker, BasisPhraseAt);
      && (b.unit.Some? <==> r.Some?)
      && (r.None? ==> b == Basis(None, None))
      && (r.Some? ==> b.amount == lib.toFloat(r.value.1.0) && b.unit == Some(UnitName(r.value.1.1)))
  {
    match Search(text, 0, BasisMarker, BasisPhraseAt)
    case None => Basis(None, None)
    case Some((_, (num, u))) => Basis(lib.toFloat(num), Some(UnitName(u)))
  }

  /** The stored name of a capture that has no upper-case letter and no dot is the
      capture itself, mapped by the table of known units. */
  lemma PlainUnitName(u: string)
    requires forall i :: 0 <= i < |u| ==> !('A' <= u[i] <= 'Z') && u[i] != '.'
    ensures UnitName(u) == if u == "ก" || u == "กรัม" || u == "g" then "g" else if u == "มล" || u == "ml" then "ml" else u
  {
    assert Lower(u) == u;
  }

  /** A Thai abbreviation followed by a dot is stored as the abbreviation alone. */
  lemma DottedUnitName(c: char)
    requires c == 'ก' || c == 'ม' || c == 'ล'
    ensures UnitName([c, '.']) == UnitName([c])
  {
    assert Lower([c, '.']) == [c, '.'];
    assert RemoveDots([c, '.']) == [c] by {
      assert [c, '.'][1..] == ['.'];
      assert RemoveDots(['.']) == [];
    }
    PlainUnitName([c]);
  }

  /** Whatever the unit group captures is stored as "g", "ml", "ม" or "ล". */
  lemma {:induction false} CapturedUnitNames(t: string, k: nat)
    ensures UnitAt(t, k).Some? ==> UnitName(UnitAt(t, k).value) in {"g", "ml", "ม", "ล"}
  {
    if k < |t| && (t[k] == 'ก' || t[k] == 'ม' || t[k] == 'ล') {
      PlainUnitName([t[k]]);
      DottedUnitName(t[k]);
      assert UnitName([t[k]]) in {"g", "ม", "ล"};
      if k + 1 < |t| && t[k + 1] == '.' {
        assert t[k..k + 2] == [t[k], '.'];
      }
    } else if k < |t| && LowerChar(t[k]) == 'g' {
      assert Lower([t[k]]) == "g";
      assert RemoveDots("g") == "g";
    } else if k + 2 <= |t| && Lower(t[k..k + 2]) == "ml" {
      assert RemoveDots("ml") == "ml";
    } else if StartsAt(t, k, "กรัม") {
      PlainUnitName("กรัม");
    } else if StartsAt(t, k, "มล") {
      PlainUnitName("มล");
    }
  }

  /** The stored unit is one of "g", "ml", "ม" and "ล", and a basis with an amount has a
      unit. */
  lemma ParseBasisUnits(text: string, lib: Lib)
    ensures var b := ParseBasis(text, lib);
      && (b.unit.Some? ==> b.unit.value in {"g", "ml", "ม", "ล"})
      && (b.amount.Some? ==> b.unit.Some?)
  {
    var r := Search(text, 0, BasisMarker, BasisPhraseAt);
    if r.Some? {
      var k: nat :| k <= |text| && UnitAt(text, k) == Some(r.value.1.1);
      CapturedUnitNames(text, k);
    }
  }

  /** The last two unit alternatives, "กรัม" and "มล", never capture: the one-letter
      abbreviations before them already match their first letter. */
  lemma LongUnitsUnreachable(t: string, k: nat)
    ensures UnitAt(t, k) != Some("กรัม") && UnitAt(t, k) != Some("มล")
  {
    if StartsAt(t, k, "กรัม") {
      assert t[k] == 'ก';
    } else if StartsAt(t, k, "มล") {
      assert t[k] == 'ม';
    }
  }

  /** "กรัม" after the number is captured as its first letter "ก", which is stored as "g". */
  lemma GramCapturedAsAbbreviation(t: string, k: nat)
    requires StartsAt(t, k, "กรัม")
    ensures UnitAt(t, k) == Some("ก") && UnitName("ก") == "g"
  {
    assert t[k] == 'ก' && t[k + 1] == 'ร';
    PlainUnitName("ก");
  }

  /** "มล" after the number is captured as its first letter "ม", which is stored as "ม", not
      as "ml": the mapping for "มล" is never reached. */
  lemma MillilitreCapturedAsAbbreviation(t: string, k: nat)
    requires StartsAt(t, k, "มล")
    ensures UnitAt(t, k) == Some("ม") && UnitName("ม") == "ม"
  {
    assert t[k] == 'ม' && t[k + 1] == 'ล';
    PlainUnitName("ม");
  }

  /** A page without the phrase marker has no basis. */
  lemma NoPhraseNoBasis(text: string, lib: Lib)
    requires !Contains(text, BasisMarker)
    ensures ParseBasis(text, lib) == Basis(None, None)
  {
    SearchNeedsMarker(text, BasisMarker, BasisPhraseAt);
  }

  /** "ปริมาณอาหาร ต่อ 100 กรัม" gives the amount `float("100")` in grams. */
  lemma HundredGramsBasis(lib: Lib)
    ensures ParseBasis(HundredGrams, lib) == Basis(lib.toFloat("100"), Some("g"))
  {
    HundredGramsSearch();
    PlainUnitName("ก");
  }

  /** On that page the search stops at the marker, with the number "100" and the capture "ก". */
  lemma HundredGramsSearch()
    ensures Search(HundredGrams, 0, BasisMarker, BasisPhraseAt) == Some((0, ("100", "ก")))
  {
    HundredGramsUnit();
    HundredGramsPhrase(IsNumChar, UnitAt);
    assert BasisPhraseAt(HundredGrams, 0) == Some(("100", "ก"));
  }

  lemma HundredGramsUnit()
    ensures UnitAt(HundredGrams, 20) == Some("ก")
  {
    HundredGramsPhrase(IsNumChar, UnitAt);
    GramCapturedAsAbbreviation(HundredGrams, 20);
  }

  // ---------------------------------------------------------------- food group

  predicate NotGroupStop(c: char) {
    c != '(' && c != '|'
  }

  /** After the marker, `.*?:\s*([^(|]+)` with `.*?` at `j`: the lazy run tries each colon
      before the first line break in turn. At a colon, the group is the text up to the first
      "(" or "|"; when that text is empty but whitespace followed the colon, `\s*` gives
      back one blank and the group is that blank; otherwise the run moves past the colon. */
  function GroupFrom(t: string, j: nat): (r: Option<string>)
    ensures r.Some? ==> forall k :: 0 <= k < |r.value| ==> NotGroupStop(r.value[k])
    ensures r.Some? && r.value != [] ==> !IsSpace(r.value[0]) && !IsSpace(r.value[|r.value| - 1])
    decreases |t| - j
  {
    if j >= |t| || t[j] == '\n' then None
    else if t[j] == ':' then
      var s := SkipSpaces(t, j + 1);
      if s < |t| && NotGroupStop(t[s]) then Some(Strip(t[s..RunEnd(t, s, NotGroupStop)]))
      else if s > j + 1 then Some("")
      else GroupFrom(t, j + 1)
    else GroupFrom(t, j + 1)
  }

  /** `.strip()` of a capture with no "(" or "|" keeps it free of them. */
  function Strip(s: string): (r: string)
    requires forall k :: 0 <= k < |s| ==> NotGroupStop(s[k])
    ensures r == Trim(s)
    ensures forall k :: 0 <= k < |r| ==> NotGroupStop(r[k])
  {
    TrimIsSliceBetweenSpaces(s);
    Trim(s)
  }

  function GroupAt(t: string, i: nat): Option<string> {
    if StartsAt(t, i, GroupMarker) then GroupFrom(t, i + |GroupMarker|) else None
  }

  /** `re.search(r"กลุ่มอาหาร.*?:\s*([^(|]+)", text).group(1).strip()`, or `None` without
      a match. */
  function GroupIn(text: string): (g: Option<string>)
    ensures g.Some? ==> Trim(g.value) == g.value
    ensures g.Some? ==> forall k :: 0 <= k < |g.value| ==> g.value[k] != '(' && g.value[k] != '|'
  {
    match Search(text, 0, GroupMarker, GroupAt)
    case None => None
    case Some((_, g)) =>
      TrimOfTrimmed(g);
      Some(g)
  }

  /** The food group of the page, read from the text of the element around the first text
      node naming the marker; `None` without such a node or without a match. */
  function ParseGroup(parent: Option<seq<string>>): (g: Option<string>)
    ensures parent.None? ==> g.None?
    ensures g.Some? ==> Trim(g.value) == g.value
    ensures g.Some? ==> forall k :: 0 <= k < |g.value| ==> g.value[k] != '(' && g.value[k] != '|'
  {
    match parent
    case None => None
    case Some(ns) => GroupIn(GetText(ns, " "))
  }

  /** The lazy run moves over everything before the first colon when there is no line
      break on the way. */
  lemma {:induction false} GroupFromSkips(t: string, j: nat, c: nat)
    requires j <= c < |t| && forall p :: j <= p < c ==> t[p] != ':' && t[p] != '\n'
    ensures GroupFrom(t, j) == GroupFrom(t, c)
    decreases c - j
  {
    if j < c {
      assert t[j] != ':' && t[j] != '\n';
      GroupFromSkips(t, j + 1, c);
    }
  }

  /** The marker at `i`; the first colon after it at `c`, with no line break between; then
      optional whitespace and a character that can start the capture. */
  predicate ColonAfterMarker(t: string, i: nat, c: nat) {
    && StartsAt(t, i, GroupMarker)
    && i + |GroupMarker| <= c < |t| && t[c] == ':'
    && (forall p :: i + |GroupMarker| <= p < c ==> t[p] != ':' && t[p] != '\n')
    && SkipSpaces(t, c + 1) < |t| && NotGroupStop(t[SkipSpaces(t, c + 1)])
  }

  lemma GroupAtColon(t: string, i: nat, c: nat)
    requires ColonAfterMarker(t, i, c)
    ensures var s := SkipSpaces(t, c + 1); GroupAt(t, i) == Some(Trim(t[s..RunEnd(t, s, NotGroupStop)]))
  {
    GroupFromSkips(t, i + |GroupMarker|, c);
  }

  /** At the first occurrence of the marker: when the first colon after it comes before
      any line break, and something other than "(" or "|" follows it after optional
      whitespace, the group is the stripped text from there up to the first "(" or "|". */
  lemma GroupContent(t: string, i: nat, c: nat)
    requires ColonAfterMarker(t, i, c)
    requires forall j :: 0 <= j < i ==> !StartsAt(t, j, GroupMarker)
    ensures var s := SkipSpaces(t, c + 1); GroupIn(t) == Some(Trim(t[s..RunEnd(t, s, NotGroupStop)]))
  {
    GroupAtColon(t, i, c);
    SearchFinds(t, GroupMarker, GroupAt, i);
  }

  // ---------------------------------------------------------------- detail table

  /** A row that names a section: a single cell, or a first cell that is a `<th>` with a
      non-empty `colspan`. */
  predicate IsBoundaryRow(cells: seq<Cell>)
    requires cells != []
  {
    |cells| == 1 || (cells[0].isTh && Truthy(cells[0].colspan))
  }

  /** A row that holds a nutrient: at least three cells and not a boundary. */
  predicate IsDataRow(cells: seq<Cell>) {
    |cells| >= 3 && !IsBoundaryRow(cells)
  }

  /** The header text of a row's first cell, `get_text(" ", strip=True)`. */
  function Head(cells: seq<Cell>): string
    requires cells != []
  {
    GetText(cells[0].texts, " ")
  }

  /** The value a data row shows: the amount cell's text and the unit cell's text. */
  function RowValue(cells: seq<Cell>): Value
    requires |cells| >= 3
  {
    CellValue(GetText(cells[1].texts, " "), GetText(cells[2].texts, " "))
  }

  /** A header classifier: a header's key and section. */
  type Classifier = string -> (Option<string>, Option<string>)

  /** A classifier answer: a key and a section together or neither, the key not empty and
      the section a site section. */
  predicate Answer(cls: (Option<string>, Option<string>)) {
    (cls.0.Some? <==> cls.1.Some?) && (cls.1.Some? ==> IsSectionName(cls.1.value) && cls.0.value != [])
  }

  /** Every answer of `classify` is an `Answer`. */
  ghost predicate Sound(classify: Classifier) {
    forall h :: Answer(classify(h))
  }

  /** `map_header_to_site_key` applied to a header. */
  const SiteClassifier: Classifier := h => NutrientsMapSite.MapHeaderToSiteKey(Some(h))

  lemma SiteClassifierIsSound()
    ensures Sound(SiteClassifier)
  {
    forall h ensures Answer(SiteClassifier(h)) {
      var r := NutrientsMapSite.MapHeaderToSiteKey(Some(h));
      assert SiteClassifier(h) == r;
    }
  }

  /** Where a data row with header `head` and value `value` goes once its section is
      known: into that section's map under `key` when the key is present, otherwise into
      the extras under the header unless that header is empty. */
  function Route(key: Option<string>, section: Option<string>, head: string, value: Value): (p: Option<Placement>)
    ensures p.Some? ==> p.value.value == value
  {
    if Truthy(key) && section == Some(MainNutrients) then Some(Place(MainBucket, key.value, value))
    else if Truthy(key) && section == Some(Minerals) then Some(Place(MineralsBucket, key.value, value))
    else if Truthy(key) && section == Some(Vitamins) then Some(Place(VitaminsBucket, key.value, value))
    else if head != [] then Some(Place(ExtrasBucket, head, value))
    else None
  }

  /** `mapped_sec or cur_section` never falls back to the cursor when a key is present. */
  lemma RouteIgnoresCursor(cls: (Option<string>, Option<string>), cur: Option<string>, head: string, value: Value)
    requires Answer(cls)
    ensures Route(cls.0, if Truthy(cls.1) then cls.1 else cur, head, value) == Route(cls.0, cls.1, head, value)
  {
  }

  /** A routed row lands in a section's map under `k` exactly when the answer is `k` in
      that section, and in the extras under `k` exactly when there is no key and `k` is
      the header, not empty. */
  lemma RouteByAnswer(cls: (Option<string>, Option<string>), head: string, value: Value, b: Bucket, k: string)
    requires Answer(cls)
    ensures var p := Route(cls.0, cls.1, head, value);
      b != ExtrasBucket ==> (p.Some? && p.value.bucket == b && p.value.key == k <==> cls == (Some(k), Some(SectionTitle(b))))
    ensures var p := Route(cls.0, cls.1, head, value);
      b == ExtrasBucket ==> (p.Some? && p.value.bucket == b && p.value.key == k <==> cls.0.None? && head == k && k != [])
  {
  }

  /** Where the walk writes a row when the cursor is `cur`. */
  function Placement(cells: seq<Cell>, cur: Option<string>, classify: Classifier): (p: Option<Placement>)
    ensures p.Some? ==> IsDataRow(cells) && p.value.value == RowValue(cells)
  {
    if !IsDataRow(cells) then None
    else
      var cls := classify(Head(cells));
      Route(cls.0, if Truthy(cls.1) then cls.1 else cur, Head(cells), RowValue(cells))
  }

  /** The section cursor never decides where a row goes: a key comes with its section. */
  lemma PlacementIgnoresCursor(cells: seq<Cell>, cur: Option<string>, classify: Classifier)
    requires IsDataRow(cells) ==> Answer(classify(Head(cells)))
    ensures Placement(cells, cur, classify) == Placement(cells, None, classify)
  {
    if IsDataRow(cells) {
      var cls := classify(Head(cells));
      RouteIgnoresCursor(cls, cur, Head(cells), RowValue(cells));
      RouteIgnoresCursor(cls, None, Head(cells), RowValue(cells));
    }
  }

  /** The writes of the rows `rows`, in order, each placed as the walk places it. */
  function Placements(rows: seq<seq<Cell>>, classify: Classifier): (ps: seq<Option<Placement>>)
    ensures |ps| == |rows|
  {
    if rows == [] then [] else Placements(rows[..|rows| - 1], classify) + [Placement(rows[|rows| - 1], None, classify)]
  }

  lemma {:induction false} PlacementsAt(rows: seq<seq<Cell>>, classify: Classifier, j: int)
    requires 0 <= j < |rows|
    ensures Placements(rows, classify)[j] == Placement(rows[j], None, classify)
  {
    if j < |rows| - 1 {
      PlacementsAt(rows[..|rows| - 1], classify, j);
    }
  }

  /** A data row's header classifies as `(k, s)`. */
  predicate Classifies(cells: seq<Cell>, classify: Classifier, k: string, s: string) {
    IsDataRow(cells) && classify(Head(cells)) == (Some(k), Some(s))
  }

  /** A data row's header `head` does not classify, and it is not empty. */
  predicate ExtraRow(cells: seq<Cell>, classify: Classifier, head: string) {
    IsDataRow(cells) && Head(cells) == head && head != [] && classify(head).0.None?
  }

  /** One row lands in a section's map under `k` exactly when its header classifies as
      `k` in that section, and lands in the extras under `k` exactly when its header `k`
      is not empty and does not classify. */
  lemma PlacementByClassifier(cells: seq<Cell>, classify: Classifier, b: Bucket, k: string)
    requires Sound(classify)
    ensures var p := Placement(cells, None, classify);
      b != ExtrasBucket ==> (p.Some? && p.value.bucket == b && p.value.key == k <==> Classifies(cells, classify, k, SectionTitle(b)))
    ensures var p := Placement(cells, None, classify);
      b == ExtrasBucket ==> (p.Some? && p.value.bucket == b && p.value.key == k <==> ExtraRow(cells, classify, k))
  {
    if IsDataRow(cells) {
      var cls := classify(Head(cells));
      RouteIgnoresCursor(cls, None, Head(cells), RowValue(cells));
      RouteByAnswer(cls, Head(cells), RowValue(cells), b, k);
    }
  }

  /** Row `j` is the last data row whose header classifies as `(k, s)`. */
  predicate LastClassifying(rows: seq<seq<Cell>>, classify: Classifier, j: int, k: string, s: string) {
    0 <= j < |rows| && Classifies(rows[j], classify, k, s) && forall j' :: j < j' < |rows| ==> !Classifies(rows[j'], classify, k, s)
  }

  /** Row `j` is the last data row with the unclassified header `h`. */
  predicate LastExtra(rows: seq<seq<Cell>>, classify: Classifier, j: int, h: string) {
    0 <= j < |rows| && ExtraRow(rows[j], classify, h) && forall j' :: j < j' < |rows| ==> !ExtraRow(rows[j'], classify, h)
  }

  /** The walk over the rows of the first table: a section map holds `k` exactly when some
      data row's header classifies as `k` in that section, whatever the boundary rows
      around it say, and the value is the last such row's. */
  lemma {:induction false} SectionEntries(rows: seq<seq<Cell>>, classify: Classifier, s: string, k: string)
    requires Sound(classify) && IsSectionName(s)
    ensures k in Fill(Placements(rows, classify), SectionBucket(s)) <==> exists j :: 0 <= j < |rows| && Classifies(rows[j], classify, k, s)
    ensures forall j :: LastClassifying(rows, classify, j, k, s) ==>
      k in Fill(Placements(rows, classify), SectionBucket(s)) && Fill(Placements(rows, classify), SectionBucket(s))[k] == RowValue(rows[j])
  {
    var ps, b := Placements(rows, classify), SectionBucket(s);
    forall j | 0 <= j < |rows|
      ensures (PlacesAt(ps, j, b, k) <==> Classifies(rows[j], classify, k, s)) && (ps[j].Some? ==> |rows[j]| >= 3 && ps[j].value.value == RowValue(rows[j]))
    {
      PlacementsAt(rows, classify, j);
      PlacementByClassifier(rows[j], classify, b, k);
    }
    FillKeys(ps, b, k);
    forall j | LastClassifying(rows, classify, j, k, s)
      ensures k in Fill(ps, b) && Fill(ps, b)[k] == RowValue(rows[j])
    {
      FillLastWriter(ps, b, k, j);
    }
  }

  /** The extras hold `h` exactly when some data row has the non-empty header `h` that
      does not classify, and the value is the last such row's. */
  lemma {:induction false} ExtraEntries(rows: seq<seq<Cell>>, classify: Classifier, h: string)
    requires Sound(classify)
    ensures h in Fill(Placements(rows, classify), ExtrasBucket) <==> exists j :: 0 <= j < |rows| && ExtraRow(rows[j], classify, h)
    ensures forall j :: LastExtra(rows, classify, j, h) ==>
      h in Fill(Placements(rows, classify), ExtrasBucket) && Fill(Placements(rows, classify), ExtrasBucket)[h] == RowValue(rows[j])
  {
    var ps := Placements(rows, classify);
    forall j | 0 <= j < |rows|
      ensures (PlacesAt(ps, j, ExtrasBucket, h) <==> ExtraRow(rows[j], classify, h)) && (ps[j].Some? ==> |rows[j]| >= 3 && ps[j].value.value == RowValue(rows[j]))
    {
      PlacementsAt(rows, classify, j);
      PlacementByClassifier(rows[j], classify, ExtrasBucket, h);
    }
    FillKeys(ps, ExtrasBucket, h);
    forall j | LastExtra(rows, classify, j, h)
      ensures h in Fill(ps, ExtrasBucket) && Fill(ps, ExtrasBucket)[h] == RowValue(rows[j])
    {
      FillLastWriter(ps, ExtrasBucket, h, j);
    }
  }

  /** A row the walk does not write leaves every bucket as it was. */
  lemma Unwritten(done: seq<Option<Placement>>, p: Option<Placement>)
    requires p.None?
    ensures forall b :: Fill(done + [p], b) == Fill(done, b)
  {
    forall b ensures Fill(done + [p], b) == Fill(done, b) {
      FillSnoc(done, p, b);
    }
  }

  /** One pass of the row loop of `parse_detail_page`: a boundary row may move the
      section cursor, and a data row is written where `Placement` puts it. */
  method WalkRow(cells: seq<Cell>, curSection: Option<string>, classify: Classifier,
                 main: map<string, Value>, minerals: map<string, Value>, vitamins: map<string, Value>,
                 extras: map<string, Value>, ghost done: seq<Option<Placement>>)
    returns (curSection': Option<string>, main': map<string, Value>, minerals': map<string, Value>,
             vitamins': map<string, Value>, extras': map<string, Value>)
    requires IsDataRow(cells) ==> Answer(classify(Head(cells)))
    requires main == Fill(done, MainBucket) && minerals == Fill(done, MineralsBucket)
    requires vitamins == Fill(done, VitaminsBucket) && extras == Fill(done, ExtrasBucket)
    ensures var ps := done + [Placement(cells, None, classify)];
      main' == Fill(ps, MainBucket) && minerals' == Fill(ps, MineralsBucket) &&
      vitamins' == Fill(ps, VitaminsBucket) && extras' == Fill(ps, ExtrasBucket)
    ensures cells != [] && IsBoundaryRow(cells) && IsSectionName(GetText(cells[0].texts, "")) ==>
      curSection' == Some(GetText(cells[0].texts, ""))
    ensures !(cells != [] && IsBoundaryRow(cells) && IsSectionName(GetText(cells[0].texts, ""))) ==>
      curSection' == curSection
  {
    curSection', main', minerals', vitamins', extras' := curSection, main, minerals, vitamins, extras;
    if cells == [] {
      Unwritten(done, Placement(cells, None, classify));
      return;
    }
    if |cells| == 1 || (cells[0].isTh && Truthy(cells[0].colspan)) {
      var secName := GetText(cells[0].texts, "");
      if IsSectionName(secName) {
        curSection' := Some(secName);
      }
      Unwritten(done, Placement(cells, None, classify));
      return;
    }
    if |cells| < 3 {
      Unwritten(done, Placement(cells, None, classify));
      return;
    }
    ghost var p := Placement(cells, None, classify);
    FillSnoc(done, p, MainBucket);
    FillSnoc(done, p, MineralsBucket);
    FillSnoc(done, p, VitaminsBucket);
    FillSnoc(done, p, ExtrasBucket);
    var head := Head(cells);
    var value := RowValue(cells);
    var cls := classify(head);
    RouteIgnoresCursor(cls, None, head, value);
    main', minerals', vitamins', extras' := StoreRow(head, value, cls, curSection, main, minerals, vitamins, extras);
  }

  /** The write of one data row with header `head`, value `value` and classifier answer
      `cls`: under its key in the answer's section, or else the cursor's, or under the
      header itself among the extras; the cursor never matters (`RouteIgnoresCursor`). */
  method StoreRow(head: string, value: Value, cls: (Option<string>, Option<string>), curSection: Option<string>,
                  main: map<string, Value>, minerals: map<string, Value>, vitamins: map<string, Value>,
                  extras: map<string, Value>)
    returns (main': map<string, Value>, minerals': map<string, Value>,
             vitamins': map<string, Value>, extras': map<string, Value>)
    requires Answer(cls)
    ensures var p := Route(cls.0, cls.1, head, value);
      main' == Put(main, p, MainBucket) && minerals' == Put(minerals, p, MineralsBucket) &&
      vitamins' == Put(vitamins, p, VitaminsBucket) && extras' == Put(extras, p, ExtrasBucket)
  {
    var (siteKey, mappedSec) := cls;
    var section := if Truthy(mappedSec) then mappedSec else curSection;
    RouteIgnoresCursor(cls, curSection, head, value);
    main', minerals', vitamins', extras' := main, minerals, vitamins, extras;
    if Truthy(siteKey) && section == Some(MainNutrients) {
      main' := main[siteKey.value := value];
    } else if Truthy(siteKey) && section == Some(Minerals) {
      minerals' := minerals[siteKey.value := value];
    } else if Truthy(siteKey) && section == Some(Vitamins) {
      vitamins' := vitamins[siteKey.value := value];
    } else if head != [] {
      extras' := extras[head := value];
    }
  }

  /** The row loop of `parse_detail_page`, with its section cursor, for the header
      classifier `classify` (the page parser passes `map_header_to_site_key`). */
  method WalkTable(rows: seq<seq<Cell>>, classify: Classifier) returns (main: map<string, Value>, minerals: map<string, Value>,
                                                  vitamins: map<string, Value>, extras: map<string, Value>)
    requires Sound(classify)
    ensures main == Fill(Placements(rows, classify), MainBucket)
    ensures minerals == Fill(Placements(rows, classify), MineralsBucket)
    ensures vitamins == Fill(Placements(rows, classify), VitaminsBucket)
    ensures extras == Fill(Placements(rows, classify), ExtrasBucket)
  {
    main, minerals, vitamins, extras := map[], map[], map[], map[];
    var curSection: Option<string> := None;
    ghost var done: seq<Option<Placement>> := [];
    for i := 0 to |rows|
      invariant done == Placements(rows[..i], classify)
      invariant main == Fill(done, MainBucket) && minerals == Fill(done, MineralsBucket)
      invariant vitamins == Fill(done, VitaminsBucket) && extras == Fill(done, ExtrasBucket)
    {
      assert rows[..i + 1][..i] == rows[..i];
      ghost var p := Placement(rows[i], None, classify);
      assert Placements(rows[..i + 1], classify) == done + [p];
      curSection, main, minerals, vitamins, extras := WalkRow(rows[i], curSection, classify, main, minerals, vitamins, extras, done);
      done := done + [p];
    }
    assert rows[..|rows|] == rows;
  }

  // ---------------------------------------------------------------- detail page

  /** What `parse_detail_page` returns for one food. */
  datatype Detail = Detail(name: string, group: Option<string>, basis: Basis,
                           main: map<string, Value>, minerals: map<string, Value>, vitamins: map<string, Value>,
                           extras: map<string, Value>, sourceUrl: string, attribution: string)
  {
    /** `sections[s]` for a site section title `s`. */
    function Section(s: string): map<string, Value>
      requires IsSectionName(s)
    {
      if s == MainNutrients then main else if s == Minerals then minerals else vitamins
    }
  }

  /** The rows of the page's first table, none when it has no table. */
  function TableRows(soup: Soup): seq<seq<Cell>> {
    if soup.table.Some? then soup.table.value else []
  }

  /** The item name: the first heading's stripped text, or the placeholder when there is none. */
  function Title(heading: Option<seq<string>>): (t: string)
    ensures heading.None? ==> t == NoName
    ensures heading.Some? ==> Trim(t) == t
    ensures heading.Some? ==> (t == [] <==> forall i :: 0 <= i < |heading.value| ==> Trim(heading.value[i]) == [])
  {
    if heading.Some? then GetText(heading.value, "") else NoName
  }

  /** `parse_detail_page(html, url)` on the parsed page. */
  function DetailOf(soup: Soup, url: string, lib: Lib, classify: Classifier): Detail {
    var ps := Placements(TableRows(soup), classify);
    Detail(Title(soup.heading), ParseGroup(soup.groupParent), ParseBasis(GetText(soup.strings, " "), lib),
           Fill(ps, MainBucket), Fill(ps, MineralsBucket), Fill(ps, VitaminsBucket), Fill(ps, ExtrasBucket),
           url, Attribution)
  }

  method ParseDetailPage(soup: Soup, url: string, lib: Lib, classify: Classifier) returns (d: Detail)
    requires Sound(classify)
    ensures d == DetailOf(soup, url, lib, classify)
  {
    var itemName := if soup.heading.Some? then GetText(soup.heading.value, "") else NoName;
    var groupText := ParseGroup(soup.groupParent);
    var basis := ParseBasis(GetText(soup.strings, " "), lib);
    var main, minerals, vitamins, extras := map[], map[], map[], map[];
    if soup.table.Some? {
      main, minerals, vitamins, extras := WalkTable(soup.table.value, classify);
    }
    d := Detail(itemName, groupText, basis, main, minerals, vitamins, extras, url, Attribution);
  }

  /** A section of the parsed page holds `k` exactly when some data row of the first table
      has a header that `map_header_to_site_key` sends to `k` in that section, with the
      last such row's value; every such key comes from that section's site table. */
  lemma DetailSection(soup: Soup, url: string, lib: Lib, s: string, k: string)
    requires IsSectionName(s)
    ensures var d, rows := DetailOf(soup, url, lib, SiteClassifier), TableRows(soup);
      k in d.Section(s) <==> exists j :: 0 <= j < |rows| && Classifies(rows[j], SiteClassifier, k, s)
    ensures var d, rows := DetailOf(soup, url, lib, SiteClassifier), TableRows(soup);
      forall j :: LastClassifying(rows, SiteClassifier, j, k, s) ==> k in d.Section(s) && d.Section(s)[k] == RowValue(rows[j])
    ensures k in DetailOf(soup, url, lib, SiteClassifier).Section(s) ==> NutrientsMapSite.KeyOfSection(k, s)
  {
    var rows := TableRows(soup);
    SiteClassifierIsSound();
    SectionEntries(rows, SiteClassifier, s, k);
    if k in DetailOf(soup, url, lib, SiteClassifier).Section(s) {
      var j :| 0 <= j < |rows| && Classifies(rows[j], SiteClassifier, k, s);
      assert NutrientsMapSite.MapHeaderToSiteKey(Some(Head(rows[j]))) == (Some(k), Some(s));
    }
  }

  /** The extras of the parsed page hold `h` exactly when some data row has the non-empty
      header `h` that `map_header_to_site_key` does not recognise, with the last such row's value. */
  lemma DetailExtras(soup: Soup, url: string, lib: Lib, h: string)
    ensures var d, rows := DetailOf(soup, url, lib, SiteClassifier), TableRows(soup);
      h in d.extras <==> exists j :: 0 <= j < |rows| && ExtraRow(rows[j], SiteClassifier, h)
    ensures var d, rows := DetailOf(soup, url, lib, SiteClassifier), TableRows(soup);
      forall j :: LastExtra(rows, SiteClassifier, j, h) ==> h in d.extras && d.extras[h] == RowValue(rows[j])
  {
    SiteClassifierIsSound();
    ExtraEntries(TableRows(soup), SiteClassifier, h);
  }

  /** The parsed page records the URL it was given and the fixed attribution; its group,
      when found, is stripped and holds no `(` or `|`; a page without a table has empty maps. */
  lemma DetailStamp(soup: Soup, url: string, lib: Lib, classify: Classifier)
    ensures var d := DetailOf(soup, url, lib, classify);
      d.sourceUrl == url && d.attribution == Attribution
    ensures var d := DetailOf(soup, url, lib, classify);
      d.group.Some? ==> Trim(d.group.value) == d.group.value && '(' !in d.group.value && '|' !in d.group.value
    ensures var d := DetailOf(soup, url, lib, classify);
      soup.table.None? ==> d.main == map[] && d.minerals == map[] && d.vitamins == map[] && d.extras == map[]
    ensures soup.heading.None? ==> DetailOf(soup, url, lib, classify).name == NoName
  {
    var d := DetailOf(soup, url, lib, classify);
    var g := ParseGroup(soup.groupParent);
    assert d.group == g;
    if g.Some? {
      assert '(' !in g.value && '|' !in g.value by {
        forall k | 0 <= k < |g.value| ensures g.value[k] != '(' && g.value[k] != '|' { }
      }
    }
    if soup.table.None? {
      assert Placements(TableRows(soup), classify) == [];
    }
  }

  // ---------------------------------------------------------------- one keyword

  /** A scraped item: the parsed detail page and the type column of its search row. */
  datatype Item = Item(detail: Detail, ftype: string)

  /** What the walk keeps from one search row: nothing without a detail URL or when the
      detail request raises, otherwise the page parsed at the URL the response came from. */
  function ItemFor(r: SearchRow, web: Web, lib: Lib, classify: Classifier): Option<Item> {
    if !Truthy(r.detailUrl) then None
    else
      match web.detail(r.detailUrl.value)
      case None => None
      case Some((soup, finalUrl)) => Some(Item(DetailOf(soup, finalUrl, lib, classify), r.ftype))
  }

  /** What `f` yields for the rows `rs`, in order: a loop that appends `f`'s value for
      each row and skips the rows `f` gives nothing for. */
  function Yields<T>(rs: seq<SearchRow>, f: SearchRow -> Option<T>): seq<T> {
    if rs == [] then []
    else
      var ys := Yields(rs[..|rs| - 1], f);
      match f(rs[|rs| - 1])
      case None => ys
      case Some(y) => ys + [y]
  }

  lemma YieldsStep<T>(rs: seq<SearchRow>, i: int, f: SearchRow -> Option<T>)
    requires 0 <= i < |rs|
    ensures f(rs[i]).None? ==> Yields(rs[..i + 1], f) == Yields(rs[..i], f)
    ensures f(rs[i]).Some? ==> Yields(rs[..i + 1], f) == Yields(rs[..i], f) + [f(rs[i]).value]
  {
    assert rs[..i + 1][..i] == rs[..i];
  }

  /** Each value is what `f` gives for some row, at most one per row, and one for every
      row when `f` gives something for every row. */
  lemma {:induction false} YieldsFromRows<T>(rs: seq<SearchRow>, f: SearchRow -> Option<T>)
    ensures |Yields(rs, f)| <= |rs|
    ensures forall i :: 0 <= i < |Yields(rs, f)| ==> exists j :: 0 <= j < |rs| && f(rs[j]) == Some(Yields(rs, f)[i])
    ensures (forall j :: 0 <= j < |rs| ==> f(rs[j]).Some?) ==> |Yields(rs, f)| == |rs|
  {
    if rs != [] {
      var init, r := rs[..|rs| - 1], rs[|rs| - 1];
      YieldsFromRows(init, f);
      var ys0 := Yields(init, f);
      assert forall j :: 0 <= j < |init| ==> rs[j] == init[j];
      match f(r)
      case None =>
        assert Yields(rs, f) == ys0;
      case Some(y) =>
        var ys := ys0 + [y];
        assert Yields(rs, f) == ys;
        forall i | 0 <= i < |ys| ensures exists j :: 0 <= j < |rs| && f(rs[j]) == Some(ys[i]) {
          if i < |ys0| {
            var j :| 0 <= j < |init| && f(init[j]) == Some(ys0[i]);
            assert f(rs[j]) == Some(ys[i]);
          } else {
            assert f(rs[|rs| - 1]) == Some(ys[i]);
          }
        }
    }
  }

  /** The rows of `a` yield before the rows of `b`: the loop keeps the order of its rows. */
  lemma {:induction false} YieldsAppend<T>(a: seq<SearchRow>, b: seq<SearchRow>, f: SearchRow -> Option<T>)
    ensures Yields(a + b, f) == Yields(a, f) + Yields(b, f)
  {
    if b == [] {
      assert a + b == a;
    } else {
      var b' := b[..|b| - 1];
      YieldsAppend(a, b', f);
      assert (a + b)[..|a + b| - 1] == a + b';
      assert (a + b)[|a + b| - 1] == b[|b| - 1];
    }
  }

  /** `ItemFor` as a value, for `Yields`. */
  function RowItem(web: Web, lib: Lib, classify: Classifier): SearchRow -> Option<Item> {
    r => ItemFor(r, web, lib, classify)
  }

  /** The items the rows `rs` yield, in order. */
  function ItemsFor(rs: seq<SearchRow>, web: Web, lib: Lib, classify: Classifier): seq<Item> {
    Yields(rs, RowItem(web, lib, classify))
  }

  /** `scrape_keyword(keyword)`: no items when the search request raises. */
  function KeywordItems(keyword: string, web: Web, lib: Lib, classify: Classifier): seq<Item> {
    match web.search(keyword)
    case None => []
    case Some(doc) => ItemsFor(Listing(doc, lib), web, lib, classify)
  }

  /** Item `it` comes from row `r`: the row has a detail URL, the site answered it, and the
      item is that page parsed at the final URL, tagged with the row's type. */
  predicate FetchedFrom(it: Item, r: SearchRow, web: Web, lib: Lib, classify: Classifier) {
    && Truthy(r.detailUrl)
    && web.detail(r.detailUrl.value).Some?
    && it.ftype == r.ftype
    && it.detail == DetailOf(web.detail(r.detailUrl.value).value.0, web.detail(r.detailUrl.value).value.1, lib, classify)
  }

  /** A row yields an item exactly when it has a detail URL the site answers, and the item
      is then fetched from it. */
  lemma ItemForFetched(r: SearchRow, web: Web, lib: Lib, classify: Classifier)
    ensures ItemFor(r, web, lib, classify).Some? <==> Truthy(r.detailUrl) && web.detail(r.detailUrl.value).Some?
    ensures ItemFor(r, web, lib, classify).Some? ==> FetchedFrom(ItemFor(r, web, lib, classify).value, r, web, lib, classify)
  {
  }

  /** At most one item per row, each fetched from a row; a row with a detail URL the site
      answers always yields its item. The order of the items is that of their rows
      (`YieldsAppend`). */
  lemma ItemsProvenance(rs: seq<SearchRow>, web: Web, lib: Lib, classify: Classifier)
    ensures |ItemsFor(rs, web, lib, classify)| <= |rs|
    ensures forall i :: 0 <= i < |ItemsFor(rs, web, lib, classify)| ==> exists j :: 0 <= j < |rs| && FetchedFrom(ItemsFor(rs, web, lib, classify)[i], rs[j], web, lib, classify)
    ensures (forall j :: 0 <= j < |rs| ==> Truthy(rs[j].detailUrl) && web.detail(rs[j].detailUrl.value).Some?) ==> |ItemsFor(rs, web, lib, classify)| == |rs|
  {
    var f := RowItem(web, lib, classify);
    var items := ItemsFor(rs, web, lib, classify);
    YieldsFromRows(rs, f);
    forall j | 0 <= j < |rs| ensures f(rs[j]) == ItemFor(rs[j], web, lib, classify) {
      ItemForFetched(rs[j], web, lib, classify);
    }
    forall i | 0 <= i < |items| ensures exists j :: 0 <= j < |rs| && FetchedFrom(items[i], rs[j], web, lib, classify) {
      var j :| 0 <= j < |rs| && f(rs[j]) == Some(items[i]);
      ItemForFetched(rs[j], web, lib, classify);
    }
  }

  method ScrapeKeyword(keyword: string, web: Web, lib: Lib, classify: Classifier) returns (items: seq<Item>)
    requires Sound(classify)
    ensures items == KeywordItems(keyword, web, lib, classify)
  {
    items := [];
    var res := web.search(keyword);
    if res.None? {
      return;
    }
    var rows := ExtractSearchRows(res.value, lib);
    for i := 0 to |rows|
      invariant items == ItemsFor(rows[..i], web, lib, classify)
    {
      var r := rows[i];
      YieldsStep(rows, i, RowItem(web, lib, classify));
      if !Truthy(r.detailUrl) {
        continue;
      }
      var d := web.detail(r.detailUrl.value);
      if d.None? {
        continue;
      }
      var item := ParseDetailPage(d.value.0, d.value.1, lib, classify);
      items := items + [Item(item, r.ftype)];
    }
    assert rows[..|rows|] == rows;
  }

  // ---------------------------------------------------------------- all keywords

  /** The de-duplication key `(name, source_url)`. */
  function Key(it: Item): (string, string) {
    (it.detail.name, it.detail.sourceUrl)
  }

  function KeySet(items: seq<Item>): set<(string, string)> {
    set i | 0 <= i < |items| :: Key(items[i])
  }

  /** No two items share a key. */
  predicate UniqueKeys(items: seq<Item>) {
    forall i, j :: 0 <= i < j < |items| ==> Key(items[i]) != Key(items[j])
  }

  /** The collected items after appending, in order, each item of `batch` whose key has
      not been seen. */
  function Merge(acc: seq<Item>, batch: seq<Item>): seq<Item> {
    if batch == [] then acc
    else
      var m := Merge(acc, batch[..|batch| - 1]);
      var it := batch[|batch| - 1];
      if Key(it) in KeySet(m) then m else m + [it]
  }

  /** What `main` has collected after the batches `bs`, one per keyword, in order. */
  function Collected(bs: seq<seq<Item>>): seq<Item> {
    if bs == [] then [] else Merge(Collected(bs[..|bs| - 1]), bs[|bs| - 1])
  }

  /** One more batch is merged into what the earlier ones collected. */
  lemma CollectedStep(bs: seq<seq<Item>>, k: int)
    requires 0 <= k < |bs|
    ensures Collected(bs[..k + 1]) == Merge(Collected(bs[..k]), bs[k])
  {
    assert bs[..k + 1][..k] == bs[..k];
  }

  /** The successive contents of the output file: one write after each batch. */
  function Writes(bs: seq<seq<Item>>): (ws: seq<seq<Item>>)
    ensures |ws| == |bs|
  {
    if bs == [] then [] else Writes(bs[..|bs| - 1]) + [Collected(bs)]
  }

  lemma WritesStep(bs: seq<seq<Item>>, k: int)
    requires 0 <= k < |bs|
    ensures Writes(bs[..k + 1]) == Writes(bs[..k]) + [Collected(bs[..k + 1])]
  {
    assert bs[..k + 1][..k] == bs[..k];
  }

  /** Write `i` holds what the first `i + 1` batches collected. */
  lemma {:induction false} WritesAt(bs: seq<seq<Item>>, i: int)
    requires 0 <= i < |bs|
    ensures Writes(bs)[i] == Collected(bs[..i + 1])
  {
    if i < |bs| - 1 {
      WritesAt(bs[..|bs| - 1], i);
      assert bs[..|bs| - 1][..i + 1] == bs[..i + 1];
    } else {
      assert bs[..i + 1] == bs;
    }
  }

  /** The batch `scrape_keyword` returns for each keyword. */
  function Batches(kws: seq<string>, web: Web, lib: Lib, classify: Classifier): seq<seq<Item>> {
    seq(|kws|, i requires 0 <= i < |kws| => KeywordItems(kws[i], web, lib, classify))
  }

  lemma BatchAt(kws: seq<string>, web: Web, lib: Lib, classify: Classifier, k: int)
    requires 0 <= k < |kws|
    ensures |Batches(kws, web, lib, classify)| == |kws|
    ensures Batches(kws, web, lib, classify)[k] == KeywordItems(kws[k], web, lib, classify)
  {
  }

  lemma KeySetSnoc(items: seq<Item>, it: Item)
    ensures KeySet(items + [it]) == KeySet(items) + {Key(it)}
  {
    var s := items + [it];
    assert forall i :: 0 <= i < |items| ==> s[i] == items[i];
    assert s[|items|] == it;
  }

  /** Appending an item with a key not yet present keeps the keys unique. */
  lemma UniqueSnoc(items: seq<Item>, it: Item)
    requires UniqueKeys(items) && Key(it) !in KeySet(items)
    ensures UniqueKeys(items + [it])
  {
    var s := items + [it];
    forall i, j | 0 <= i < j < |s| ensures Key(s[i]) != Key(s[j]) {
      if j == |items| {
        assert Key(items[i]) in KeySet(items);
      } else {
        assert s[i] == items[i] && s[j] == items[j];
      }
    }
  }

  /** Merging keeps what was collected as a prefix, adds only items of the batch, keeps the
      keys unique, and collects exactly the keys seen before or in the batch. */
  lemma {:induction false} MergeProperties(acc: seq<Item>, batch: seq<Item>)
    requires UniqueKeys(acc)
    ensures var m := Merge(acc, batch); |acc| <= |m| && m[..|acc|] == acc
    ensures var m := Merge(acc, batch); forall i :: |acc| <= i < |m| ==> m[i] in batch
    ensures UniqueKeys(Merge(acc, batch))
    ensures KeySet(Merge(acc, batch)) == KeySet(acc) + KeySet(batch)
  {
    if batch != [] {
      var init, it := batch[..|batch| - 1], batch[|batch| - 1];
      MergeProperties(acc, init);
      var m := Merge(acc, init);
      KeySetSnoc(init, it);
      assert batch == init + [it];
      if Key(it) !in KeySet(m) {
        var m' := m + [it];
        KeySetSnoc(m, it);
        assert m'[..|acc|] == m[..|acc|];
        forall i | |acc| <= i < |m'| ensures m'[i] in batch {
          if i < |m| {
            assert m'[i] == m[i] && m[i] in init;
          }
        }
        UniqueSnoc(m, it);
      } else {
        forall i | |acc| <= i < |m| ensures m[i] in batch {
          assert m[i] in init;
        }
      }
    }
  }

  /** The first item of a batch with a key not seen before is the one kept. */
  lemma {:induction false} FirstKept(acc: seq<Item>, batch: seq<Item>, i: int)
    requires UniqueKeys(acc)
    requires 0 <= i < |batch| && Key(batch[i]) !in KeySet(acc)
    requires forall j :: 0 <= j < i ==> Key(batch[j]) != Key(batch[i])
    ensures batch[i] in Merge(acc, batch)
  {
    var init, it := batch[..|batch| - 1], batch[|batch| - 1];
    if i < |batch| - 1 {
      FirstKept(acc, init, i);
      MergeProperties(acc, init);
    } else {
      MergeProperties(acc, init);
      assert KeySet(init) == set j | 0 <= j < |init| :: Key(init[j]);
      assert Key(it) !in KeySet(init) by {
        forall j | 0 <= j < |init| ensures Key(init[j]) != Key(it) {
          assert init[j] == batch[j];
        }
      }
    }
  }

  /** The position of the first occurrence of `it` in `s`. */
  function IndexIn(s: seq<Item>, it: Item): (k: nat)
    requires it in s
    ensures k < |s| && s[k] == it
    ensures forall j :: 0 <= j < k ==> s[j] != it
  {
    if s[0] == it then 0 else 1 + IndexIn(s[1..], it)
  }

  lemma IndexInSnoc(s: seq<Item>, x: Item, it: Item)
    requires x in s
    ensures x in s + [it] && IndexIn(s + [it], x) == IndexIn(s, x)
  {
    var s' := s + [it];
    var k := IndexIn(s, x);
    assert s'[k] == x;
    var k' := IndexIn(s', x);
    assert s[k'] == s'[k'];
  }

  /** An item whose key was not collected before is not in the earlier part of the batch,
      so its first occurrence is the last place. */
  lemma LastIsFirst(acc: seq<Item>, init: seq<Item>, it: Item)
    requires UniqueKeys(acc)
    requires Key(it) !in KeySet(Merge(acc, init))
    ensures it in init + [it] && IndexIn(init + [it], it) == |init|
  {
    MergeProperties(acc, init);
    forall p | 0 <= p < |init| ensures init[p] != it {
      assert Key(init[p]) in KeySet(init);
    }
    var b := init + [it];
    assert b[|init|] == it;
    assert forall p :: 0 <= p < |init| ==> b[p] == init[p];
  }

  /** The items a merge appends keep the order of their first occurrences in the batch. */
  lemma {:induction false} MergeOrder(acc: seq<Item>, batch: seq<Item>)
    requires UniqueKeys(acc)
    ensures var m := Merge(acc, batch);
      forall i, j :: |acc| <= i < j < |m| ==> m[i] in batch && m[j] in batch && IndexIn(batch, m[i]) < IndexIn(batch, m[j])
  {
    if batch != [] {
      var init, it := batch[..|batch| - 1], batch[|batch| - 1];
      assert batch == init + [it];
      MergeOrder(acc, init);
      MergeProperties(acc, init);
      var m := Merge(acc, init);
      var m' := Merge(acc, batch);
      forall i, j | |acc| <= i < j < |m'|
        ensures m'[i] in batch && m'[j] in batch && IndexIn(batch, m'[i]) < IndexIn(batch, m'[j])
      {
        assert m'[i] == m[i] && m[i] in init;
        IndexInSnoc(init, m[i], it);
        if j < |m| {
          assert m'[j] == m[j] && m[j] in init;
          IndexInSnoc(init, m[j], it);
        } else {
          assert m' == m + [it] && m'[j] == it;
          LastIsFirst(acc, init, it);
        }
      }
    }
  }

  /** The inner loop of `main`: each item of the batch whose key is not in `seen` is
      appended and its key added to `seen`. */
  method MergeBatch(items: seq<Item>, seen: set<(string, string)>, batch: seq<Item>)
    returns (items': seq<Item>, seen': set<(string, string)>)
    requires UniqueKeys(items) && seen == KeySet(items)
    ensures items' == Merge(items, batch)
    ensures seen' == KeySet(items')
  {
    items', seen' := items, seen;
    for j := 0 to |batch|
      invariant items' == Merge(items, batch[..j])
      invariant seen' == KeySet(items')
    {
      var it := batch[j];
      assert batch[..j + 1][..j] == batch[..j];
      var key := Key(it);
      if key in seen' {
        continue;
      }
      seen' := seen' + {key};
      KeySetSnoc(items', it);
      items' := items' + [it];
    }
    assert batch[..|batch|] == batch;
  }

  /** The body of `main`'s keyword loop after the search: merge the batch, then write
      everything collected so far. */
  method Absorb(items: seq<Item>, seen: set<(string, string)>, flushes: seq<seq<Item>>, batch: seq<Item>,
                ghost bs: seq<seq<Item>>, ghost k: int)
    returns (items': seq<Item>, seen': set<(string, string)>, flushes': seq<seq<Item>>)
    requires 0 <= k < |bs| && batch == bs[k]
    requires items == Collected(bs[..k]) && seen == KeySet(items) && flushes == Writes(bs[..k])
    ensures items' == Collected(bs[..k + 1]) && seen' == KeySet(items')
    ensures flushes' == Writes(bs[..k + 1])
  {
    CollectedUnique(bs[..k]);
    items', seen' := MergeBatch(items, seen, batch);
    CollectedStep(bs, k);
    WritesStep(bs, k);
    flushes' := flushes + [items'];
  }

  /** `main`: after each keyword the collected items are written out, so `flushes[i]` is
      the content of the output file after keyword `i`. */
  method Harvest(kws: seq<string>, web: Web, lib: Lib, classify: Classifier) returns (allItems: seq<Item>, flushes: seq<seq<Item>>)
    requires Sound(classify)
    ensures allItems == Collected(Batches(kws, web, lib, classify))
    ensures flushes == Writes(Batches(kws, web, lib, classify))
  {
    ghost var bs := Batches(kws, web, lib, classify);
    allItems, flushes := [], [];
    var seen: set<(string, string)> := {};
    for k := 0 to |kws|
      invariant allItems == Collected(bs[..k]) && seen == KeySet(allItems)
      invariant flushes == Writes(bs[..k])
    {
      allItems, seen, flushes := HarvestKeyword(kws, k, web, lib, classify, allItems, seen, flushes);
    }
    assert bs[..|kws|] == bs;
  }

  /** One pass of the keyword loop of `main`: scrape keyword `k`, add its new items and
      write the file. */
  method HarvestKeyword(kws: seq<string>, k: int, web: Web, lib: Lib, classify: Classifier,
                        items: seq<Item>, seen: set<(string, string)>, flushes: seq<seq<Item>>)
    returns (items': seq<Item>, seen': set<(string, string)>, flushes': seq<seq<Item>>)
    requires Sound(classify) && 0 <= k < |kws|
    requires var bs := Batches(kws, web, lib, classify);
      items == Collected(bs[..k]) && seen == KeySet(items) && flushes == Writes(bs[..k])
    ensures var bs := Batches(kws, web, lib, classify);
      items' == Collected(bs[..k + 1]) && seen' == KeySet(items') && flushes' == Writes(bs[..k + 1])
  {
    var batch := ScrapeKeyword(kws[k], web, lib, classify);
    BatchAt(kws, web, lib, classify, k);
    items', seen', flushes' := Absorb(items, seen, flushes, batch, Batches(kws, web, lib, classify), k);
  }

  /** Each write extends the previous one: items once collected stay, in place. */
  lemma {:induction false} FlushesGrow(bs: seq<seq<Item>>, i: int)
    requires 0 < i <= |bs|
    ensures var prev, next := Collected(bs[..i - 1]), Collected(bs[..i]);
      |prev| <= |next| && next[..|prev|] == prev
  {
    assert bs[..i][..i - 1] == bs[..i - 1];
    CollectedUnique(bs[..i - 1]);
    MergeProperties(Collected(bs[..i - 1]), bs[i - 1]);
  }

  /** The collected items never repeat a key. */
  lemma {:induction false} CollectedUnique(bs: seq<seq<Item>>)
    ensures UniqueKeys(Collected(bs))
  {
    if bs != [] {
      CollectedUnique(bs[..|bs| - 1]);
      MergeProperties(Collected(bs[..|bs| - 1]), bs[|bs| - 1]);
    }
  }

  /** The collected keys are exactly the keys of the items of every batch. */
  lemma {:induction false} CollectedKeys(bs: seq<seq<Item>>, key: (string, string))
    ensures key in KeySet(Collected(bs)) <==> exists i :: 0 <= i < |bs| && key in KeySet(bs[i])
  {
    if bs != [] {
      var init := bs[..|bs| - 1];
      CollectedKeys(init, key);
      CollectedUnique(init);
      MergeProperties(Collected(init), bs[|bs| - 1]);
      if exists i :: 0 <= i < |bs| && key in KeySet(bs[i]) {
        var i :| 0 <= i < |bs| && key in KeySet(bs[i]);
        if i < |init| {
          assert init[i] == bs[i];
        }
      }
      if exists i :: 0 <= i < |init| && key in KeySet(init[i]) {
        var i :| 0 <= i < |init| && key in KeySet(init[i]);
        assert init[i] == bs[i];
      }
    }
  }

  /** The file is rewritten after every keyword even when nothing has been collected:
      batches that are all empty still give one write each, and every write is empty. */
  lemma EmptyHarvestStillWritten(bs: seq<seq<Item>>)
    requires forall i :: 0 <= i < |bs| ==> bs[i] == []
    ensures |Writes(bs)| == |bs| && forall i :: 0 <= i < |bs| ==> Writes(bs)[i] == []
  {
    forall i | 0 <= i < |bs| ensures Writes(bs)[i] == [] {
      WritesAt(bs, i);
      var pre := bs[..i + 1];
      forall j | 0 <= j < |pre| ensures pre[j] == [] {
        assert pre[j] == bs[j];
      }
      NothingCollected(pre);
    }
  }

  /** Batches that are all empty collect nothing. */
  lemma {:induction false} NothingCollected(bs: seq<seq<Item>>)
    requires forall i :: 0 <= i < |bs| ==> bs[i] == []
    ensures Collected(bs) == []
  {
    if bs != [] {
      var init := bs[..|bs| - 1];
      forall i | 0 <= i < |init| ensures init[i] == [] {
        assert init[i] == bs[i];
      }
      NothingCollected(init);
    }
  }

  /** `main` as the script runs it: the harvest over `keywords` with the site's own
      header classifier, `map_header_to_site_key`. */
  method ScrapeThaiFcd(keywords: seq<string>, web: Web, lib: Lib) returns (allItems: seq<Item>, flushes: seq<seq<Item>>)
    ensures allItems == Collected(Batches(keywords, web, lib, SiteClassifier))
    ensures flushes == Writes(Batches(keywords, web, lib, SiteClassifier))
  {
    SiteClassifierIsSound();
    allItems, flushes := Harvest(keywords, web, lib, SiteClassifier);
  }
}
