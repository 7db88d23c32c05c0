/** The browser client of assets/js/thaifcd-client.js: the same two pages parsed a
    second time in the browser, with its own rules. The listing follows the scraper's
    rules on `textContent`; the detail page reads its group and basis from
    `innerText`, files a table row under the section the cursor last named, and
    recognises headers by a fixed chain of tests instead of the site's table. */
module ThaifcdClient {
  import opened Html
  import opened TableFill
  import opened PageText
  import NutrientsMapSite
  import ScrapeThaifcd

  /** The base `new URL(href, base)` resolves a result link against. */
  const Origin := "https://thaifcd.anamai.moph.go.th"

  /** The browser calls whose results the model takes as given: `new URL(href, base).toString()`,
      and `Number(text)`, which is `None` where it gives `NaN`. */
  datatype Runtime = Runtime(resolve: (string, string) -> string, toNumber: string -> Option<real>)

  /** `element.textContent.trim()` */
  function TextOf(texts: seq<string>): string {
    Trim(Concat(texts))
  }

  // ---------------------------------------------------------------- listing

  /** One row of the result table as `parseSearchHTML` reads it. */
  function ListingRow(tr: ListingTr, rt: Runtime): Option<SearchRow> {
    if |tr.tds| < 3 then None
    else
      Some(SearchRow(TextOf(tr.tds[0]), TextOf(tr.tds[1]), TextOf(tr.tds[2]),
                     if Truthy(tr.href) then Some(rt.resolve(tr.href.value, Origin)) else None))
  }

  function ListingRows(trs: seq<ListingTr>, rt: Runtime): seq<SearchRow> {
    if trs == [] then []
    else
      var rows := ListingRows(trs[..|trs| - 1], rt);
      match ListingRow(trs[|trs| - 1], rt)
      case None => rows
      case Some(r) => rows + [r]
  }

  /** `parseSearchHTML(html)` on the parsed page. */
  function Listing(doc: ListingDoc, rt: Runtime): seq<SearchRow> {
    match doc.table
    case None => []
    case Some(trs) => ListingRows(BelowHeader(trs), rt)
  }

  /** Entry `r` is what row `tr` gives: its three trimmed cell texts, and a detail URL
      exactly when the row's first `a[href]` has a non-empty `href`. */
  predicate EntryOf(r: SearchRow, tr: ListingTr, rt: Runtime)
    requires |tr.tds| >= 3
  {
    && r.name == TextOf(tr.tds[0])
    && r.group == TextOf(tr.tds[1])
    && r.ftype == TextOf(tr.tds[2])
    && (r.detailUrl.None? <==> !Truthy(tr.href))
    && (Truthy(tr.href) ==> r.detailUrl == Some(rt.resolve(tr.href.value, Origin)))
  }

  /** The rows with fewer than three cells are dropped and every other row gives one entry, in order. */
  lemma {:induction false} ListingRowsAreWideRows(trs: seq<ListingTr>, rt: Runtime)
    ensures var rows, w := ListingRows(trs, rt), WideRows(trs);
      |rows| == |w| && forall i :: 0 <= i < |rows| ==> EntryOf(rows[i], w[i], rt)
  {
    if trs != [] {
      var init, tr := trs[..|trs| - 1], trs[|trs| - 1];
      ListingRowsAreWideRows(init, rt);
      var rows0, w0 := ListingRows(init, rt), WideRows(init);
      if |tr.tds| >= 3 {
        var r := ListingRow(tr, rt).value;
        var rows, w := rows0 + [r], w0 + [tr];
        assert ListingRows(trs, rt) == rows;
        assert WideRows(trs) == w;
        assert EntryOf(r, tr, rt);
        forall i | 0 <= i < |rows| ensures EntryOf(rows[i], w[i], rt) {
          if i < |rows0| {
            assert rows[i] == rows0[i] && w[i] == w0[i];
            assert EntryOf(rows0[i], w0[i], rt);
          } else {
            assert i == |rows0|;
            assert rows[i] == r;
            assert w[i] == tr;
          }
        }
        assert |rows| == |w|;
      } else {
        assert ListingRows(trs, rt) == rows0;
        assert WideRows(trs) == w0;
      }
    }
  }

  method ParseSearchHTML(doc: ListingDoc, rt: Runtime) returns (rows: seq<SearchRow>)
    ensures rows == Listing(doc, rt)
  {
    rows := [];
    if doc.table.None? {
      return;
    }
    var trs := BelowHeader(doc.table.value);
    for i := 0 to |trs|
      invariant rows == ListingRows(trs[..i], rt)
    {
      var tr := trs[i];
      assert trs[..i + 1][..i] == trs[..i];
      if |tr.tds| < 3 {
        continue;
      }
      var href := tr.href;
      var detail := if Truthy(href) then Some(rt.resolve(href.value, Origin)) else None;
      rows := rows + [SearchRow(TextOf(tr.tds[0]), TextOf(tr.tds[1]), TextOf(tr.tds[2]), detail)];
    }
    assert trs[..|trs|] == trs;
  }

  /** Every cell of the row is a single text node. */
  predicate PlainCells(tr: ListingTr) {
    forall c :: 0 <= c < |tr.tds| ==> |tr.tds[c]| == 1
  }

  /** What the two parsers make of one row of plain cells: the same three texts, and a
      link from the scraper but none from the browser exactly when `href` is empty. */
  lemma EntriesAgree(p: SearchRow, j: SearchRow, tr: ListingTr, lib: ScrapeThaifcd.Lib, rt: Runtime)
    requires |tr.tds| >= 3 && PlainCells(tr)
    requires ScrapeThaifcd.EntryOf(p, tr, lib) && EntryOf(j, tr, rt)
    ensures p.name == j.name && p.group == j.group && p.ftype == j.ftype
    ensures p.detailUrl.Some? && j.detailUrl.None? <==> tr.href == Some("")
  {
    PlainText(tr.tds[0]);
    PlainText(tr.tds[1]);
    PlainText(tr.tds[2]);
  }

  /** On a single text node `get_text(strip=True)` and `textContent.trim()` agree. */
  lemma PlainText(cell: seq<string>)
    requires |cell| == 1
    ensures GetText(cell, "") == TextOf(cell)
  {
    assert cell == [cell[0]];
    SingleNodeText(cell[0], "");
  }

  /** Both listing parsers keep the same rows in the same order. When every cell is a
      single text node they read the same three texts, and they disagree on the link
      only for an anchor whose `href` is empty: the scraper still resolves it, the
      browser gives none. */
  lemma ListingsAgree(doc: ListingDoc, lib: ScrapeThaifcd.Lib, rt: Runtime)
    requires doc.table.Some? ==> forall k :: 0 <= k < |doc.table.value| ==> PlainCells(doc.table.value[k])
    ensures |ScrapeThaifcd.Listing(doc, lib)| == |Listing(doc, rt)|
    ensures doc.table.Some? ==> |Listing(doc, rt)| == |WideRows(BelowHeader(doc.table.value))|
    ensures forall i :: 0 <= i < |Listing(doc, rt)| ==>
      var p, j := ScrapeThaifcd.Listing(doc, lib)[i], Listing(doc, rt)[i];
      p.name == j.name && p.group == j.group && p.ftype == j.ftype
    ensures forall i :: doc.table.Some? && 0 <= i < |Listing(doc, rt)| ==>
      (ScrapeThaifcd.Listing(doc, lib)[i].detailUrl.Some? && Listing(doc, rt)[i].detailUrl.None? <==>
       WideRows(BelowHeader(doc.table.value))[i].href == Some(""))
  {
    if doc.table.Some? {
      var trs := BelowHeader(doc.table.value);
      var w := WideRows(trs);
      var ps, js := ScrapeThaifcd.Listing(doc, lib), Listing(doc, rt);
      ScrapeThaifcd.ListingRowsAreWideRows(trs, lib);
      ListingRowsAreWideRows(trs, rt);
      assert forall k :: 0 <= k < |trs| ==> trs[k] == doc.table.value[k + 1];
      forall i | 0 <= i < |w|
        ensures ps[i].name == js[i].name && ps[i].group == js[i].group && ps[i].ftype == js[i].ftype
        ensures ps[i].detailUrl.Some? && js[i].detailUrl.None? <==> w[i].href == Some("")
      {
        assert w[i] in trs;
        var k :| 0 <= k < |trs| && trs[k] == w[i];
        assert trs[k] == doc.table.value[k + 1];
        EntriesAgree(ps[i], js[i], w[i], lib, rt);
      }
    }
  }

  // ---------------------------------------------------------------- title, group, basis

  /** The title: the trimmed text of the first heading, or the placeholder when there is
      no heading or its text is blank. */
  function Title(heading: Option<seq<string>>): (t: string)
    ensures t != []
    ensures TextOf(heading.GetOr([])) != [] ==> t == TextOf(heading.GetOr([]))
    ensures TextOf(heading.GetOr([])) == [] ==> t == ScrapeThaifcd.NoName
  {
    var s := TextOf(heading.GetOr([]));
    if s == [] then ScrapeThaifcd.NoName else s
  }

  /** The scraper names a page with a blank heading `""`; the browser uses the placeholder. */
  lemma BlankHeadingNames(ns: seq<string>)
    requires forall i :: 0 <= i < |ns| ==> |ns[i]| == 1 && IsSpace(ns[i][0])
    ensures ScrapeThaifcd.Title(Some(ns)) == []
    ensures Title(Some(ns)) == ScrapeThaifcd.NoName
  {
    forall i | 0 <= i < |ns| ensures Trim(ns[i]) == [] {
      TrimBlank(ns[i]);
    }
    BlankConcat(ns);
    TrimBlank(Concat(ns));
  }

  lemma {:induction false} BlankConcat(ns: seq<string>)
    requires forall i :: 0 <= i < |ns| ==> |ns[i]| == 1 && IsSpace(ns[i][0])
    ensures forall k :: 0 <= k < |Concat(ns)| ==> IsSpace(Concat(ns)[k])
  {
    if ns != [] {
      BlankConcat(ns[1..]);
      var c := Concat(ns);
      assert c == ns[0] + Concat(ns[1..]);
      forall k | 0 <= k < |c| ensures IsSpace(c[k]) {
        if k >= 1 {
          assert c[k] == Concat(ns[1..])[k - 1];
        }
      }
    }
  }

  /** A character `[^\n(]` accepts. */
  predicate InCapture(c: char) {
    c != '\n' && c != '('
  }

  /** `m[1].trim()` for the capture that starts at `s`: the longest run of `[^\n(]`. */
  function Capture(t: string, s: nat): (r: string)
    requires s <= |t|
    ensures forall k :: 0 <= k < |r| ==> InCapture(r[k])
    ensures r != [] ==> !IsSpace(r[0]) && !IsSpace(r[|r| - 1])
  {
    Stripped(t[s..RunEnd(t, s, InCapture)])
  }

  /** `.trim()` of a capture keeps it free of line breaks and "(". */
  function Stripped(c: string): (r: string)
    requires forall k :: 0 <= k < |c| ==> InCapture(c[k])
    ensures r == Trim(c)
    ensures forall k :: 0 <= k < |r| ==> InCapture(r[k])
  {
    TrimIsSliceBetweenSpaces(c);
    Trim(c)
  }

  /** `กลุ่มอาหาร\s*:\s*([^\n(]+)` tried at index `i`, with `m[1].trim()` applied. The
      greedy `\s*` after the colon stops at the first other character; when that is a
      `(` or the end of the text, `\s*` gives back whitespace until the capture can start
      on a whitespace character other than a newline, and the trimmed capture is then empty. */
  function GroupAt(t: string, i: nat): (r: Option<string>)
    ensures r.Some? ==> forall k :: 0 <= k < |r.value| ==> InCapture(r.value[k])
    ensures r.Some? && r.value != [] ==> !IsSpace(r.value[0]) && !IsSpace(r.value[|r.value| - 1])
  {
    if !StartsAt(t, i, GroupMarker) then None
    else
      var k := SkipSpaces(t, i + |GroupMarker|);
      if k == |t| || t[k] != ':' then None
      else
        var s := SkipSpaces(t, k + 1);
        if s < |t| && t[s] != '(' then Some(Capture(t, s))
        else if exists p :: k + 1 <= p < s && t[p] != '\n' then Some("")
        else None
  }

  /** `texts.match(...)`: the first occurrence where the whole expression matches. */
  function ParseGroup(text: string): (g: Option<string>)
    ensures g.Some? ==> Trim(g.value) == g.value
    ensures g.Some? ==> forall k :: 0 <= k < |g.value| ==> g.value[k] != '\n' && g.value[k] != '('
  {
    match Search(text, 0, GroupMarker, GroupAt)
    case None => None
    case Some((_, g)) =>
      TrimOfTrimmed(g);
      Some(g)
  }

  /** The marker at `i`, optional spaces, a colon, optional spaces, then a character
      that can start the capture. */
  predicate ColonAfterMarker(t: string, i: nat) {
    && StartsAt(t, i, GroupMarker)
    && var k := SkipSpaces(t, i + |GroupMarker|);
       k < |t| && t[k] == ':' && SkipSpaces(t, k + 1) < |t| && t[SkipSpaces(t, k + 1)] != '('
  }

  /** Where the capture starts after the colon. */
  function CaptureStart(t: string, i: nat): (s: nat)
    requires ColonAfterMarker(t, i)
    ensures s < |t| && InCapture(t[s]) && !IsSpace(t[s])
  {
    SkipSpaces(t, SkipSpaces(t, i + |GroupMarker|) + 1)
  }

  lemma GroupAtColon(t: string, i: nat)
    requires ColonAfterMarker(t, i)
    ensures var s := CaptureStart(t, i); GroupAt(t, i) == Some(Trim(t[s..RunEnd(t, s, InCapture)]))
  {
  }

  /** At the first occurrence of the marker, followed by optional spaces, a colon and
      optional spaces, the group is the trimmed text from there up to the first line break
      or "(". */
  lemma GroupContent(t: string, i: nat)
    requires ColonAfterMarker(t, i)
    requires forall j :: 0 <= j < i ==> !StartsAt(t, j, GroupMarker)
    ensures var s := CaptureStart(t, i); ParseGroup(t) == Some(Trim(t[s..RunEnd(t, s, InCapture)]))
  {
    GroupAtColon(t, i);
    SearchFinds(t, GroupMarker, GroupAt, i);
  }

  /** Without the marker there is no group. */
  lemma GroupNeedsMarker(text: string)
    requires !Contains(text, GroupMarker)
    ensures ParseGroup(text).None?
  {
    SearchNeedsMarker(text, GroupMarker, GroupAt);
  }

  /** The basis the browser reports; `amount` is `None` where `Number` gives `NaN`. */
  datatype Basis = Basis(amount: Option<real>, unit: string)

  /** The characters of `[\d\.]` without the `u` flag: ASCII digits and the dot. */
  predicate IsNumChar(c: char) {
    '0' <= c <= '9' || c == '.'
  }

  /** `(กรัม|ก|g|มล|ml)` under the `i` flag at index `k`: the alternatives in the order written. */
  function UnitAt(t: string, k: nat): (r: Option<string>)
    ensures r.Some? ==> k + |r.value| <= |t| && t[k..k + |r.value|] == r.value
  {
    if StartsAt(t, k, "กรัม") then Some("กรัม")
    else if StartsAt(t, k, "ก") then Some("ก")
    else if k < |t| && LowerChar(t[k]) == 'g' then Some(t[k..k + 1])
    else if StartsAt(t, k, "มล") then Some("มล")
    else if k + 2 <= |t| && Lower(t[k..k + 2]) == "ml" then Some(t[k..k + 2])
    else None
  }

  function UnitName(u: string): (r: string)
    ensures r == "g" || r == "ml"
  {
    if Lower(u) == "มล" || Lower(u) == "ml" then "ml" else "g"
  }

  function PhraseAt(t: string, i: nat): Option<(string, string)> {
    PageText.PhraseAt(t, i, IsNumChar, UnitAt)
  }

  /** The basis of `parseDetailHTML`: `{100, "g"}` unless the phrase occurs. */
  function ParseBasis(text: string, rt: Runtime): (b: Basis)
    ensures var r := Search(text, 0, BasisMarker, PhraseAt);
      && (r.None? ==> b == Basis(Some(100 as real), "g"))
      && (r.Some? ==> b.amount == rt.toNumber(r.value.1.0) && b.unit == UnitName(r.value.1.1))
  {
    match Search(text, 0, BasisMarker, PhraseAt)
    case None => Basis(Some(100 as real), "g")
    case Some((_, (num, u))) => Basis(rt.toNumber(num), UnitName(u))
  }

  /** The unit is always grams or millilitres, and the default is 100 g. */
  lemma BasisUnits(text: string, rt: Runtime)
    ensures ParseBasis(text, rt).unit == "g" || ParseBasis(text, rt).unit == "ml"
    ensures !Contains(text, BasisMarker) ==> ParseBasis(text, rt) == Basis(Some(100 as real), "g")
  {
    if !Contains(text, BasisMarker) {
      SearchNeedsMarker(text, BasisMarker, PhraseAt);
    }
  }

  /** "ปริมาณอาหาร ต่อ 100 กรัม" gives the amount `Number("100")` in grams. */
  lemma HundredGramsBasis(rt: Runtime)
    ensures ParseBasis(HundredGrams, rt) == Basis(rt.toNumber("100"), "g")
  {
    HundredGramsPhrase(IsNumChar, UnitAt);
    GramsCaptured(HundredGrams, 20);
    assert Search(HundredGrams, 0, BasisMarker, PhraseAt) == Some((0, ("100", "กรัม")));
  }

  /** At "กรัม" the whole word is captured, and it names grams. */
  lemma GramsCaptured(t: string, k: nat)
    requires StartsAt(t, k, "กรัม")
    ensures UnitAt(t, k) == Some("กรัม") && UnitName("กรัม") == "g"
  {
    var l := Lower("กรัม");
    assert l[0] == 'ก' && |l| == 4;
    assert l != "มล" && l != "ml";
  }

  /** A unit written "มล", "ml" or "ML" is millilitres, and one written "กรัม", "ก" or "g" is grams. */
  lemma {:induction false} UnitNames(t: string, k: nat)
    requires UnitAt(t, k).Some?
    ensures UnitName(UnitAt(t, k).value) == "ml" <==> StartsAt(t, k, "มล") || (k + 2 <= |t| && Lower(t[k..k + 2]) == "ml")
  {
    var u := UnitAt(t, k).value;
    if StartsAt(t, k, "กรัม") || StartsAt(t, k, "ก") {
      assert t[k] == 'ก';
      assert !StartsAt(t, k, "มล");
      assert Lower(u)[0] == 'ก';
      assert k + 2 <= |t| ==> Lower(t[k..k + 2])[0] == 'ก';
    } else if k < |t| && LowerChar(t[k]) == 'g' {
      assert Lower(u) == "g";
      assert k + 2 <= |t| ==> Lower(t[k..k + 2])[0] == 'g';
      assert !StartsAt(t, k, "มล");
    } else if StartsAt(t, k, "มล") {
      assert Lower(u) == "มล";
    } else {
      assert Lower(u) == "ml";
    }
  }

  // ---------------------------------------------------------------- header classifier

  /** The keys the chain below can return. */
  const ChainKeys: set<string> := MainChainKeys + MineralChainKeys + VitaminChainKeys

  /** `mapHeaderToSiteKey(head, section)`: the first test in the chain that passes
      decides the key; `section` is never read. The chain is read in three stretches:
      four exact names, the carbohydrate prefix and the fibre substrings, then the
      remaining exact names. */
  function MapHeaderToSiteKey(head: string, section: Option<string>): (r: Option<string>)
    ensures r.Some? ==> r.value in ChainKeys && r.value != []
  {
    var h := Lower(head);
    var named := NamedTests(head, h);
    assert "Carbohydrate" in MainChainKeys && "Dietary fibre" in MainChainKeys;
    if named.Some? then named
    else if StartsAt(h, 0, "carbohydrate") then Some("Carbohydrate")
    else if Contains(h, "dietary fibre") || Contains(h, "dietary fiber") then Some("Dietary fibre")
    else LaterTests(h)
  }

  /** The first four tests, each on the lower-cased header or on the header as written. */
  function NamedTests(head: string, h: string): (r: Option<string>)
    ensures r.Some? ==> r.value in MainChainKeys && r.value != "Carbohydrate" && r.value != "Dietary fibre"
  {
    if h == "energy" || head == "Energy" then Some("Energy")
    else if h == "water" || head == "Water" then Some("Water")
    else if h == "protein" || head == "Protein" then Some("Protein")
    else if h == "fat" || head == "Fat" then Some("Fat")
    else None
  }

  /** The tests after the fibre test, all on the lower-cased header. */
  function LaterTests(h: string): (r: Option<string>)
    ensures r.Some? ==> r.value in ChainKeys && r.value != "Carbohydrate" && r.value != "Dietary fibre"
  {
    if h == "ash" then Some("Ash")
    else if h == "sodium" then Some("Sodium")
    else if h == "potassium" then Some("Potassium")
    else if h == "calcium" then Some("Calcium")
    else if h == "iron" then Some("Iron")
    else if h == "iodine" then Some("Iodine")
    else if h == "retinol" then Some("Retinol")
    else if Contains(h, "total vitamin a") then Some("Total vitamin A (RAE)")
    else if h == "thiamin" || h == "thiamine" then Some("Thiamin")
    else if h == "riboflavin" then Some("Riboflavin")
    else if h == "niacin" then Some("Niacin")
    else if h == "vitamin e" then Some("Vitamin E")
    else None
  }

  /** The chain on the lower-cased header alone, with the four name tests made on it. */
  function LowerChain(h: string): Option<string> {
    if h == "energy" then Some("Energy")
    else if h == "water" then Some("Water")
    else if h == "protein" then Some("Protein")
    else if h == "fat" then Some("Fat")
    else if StartsAt(h, 0, "carbohydrate") then Some("Carbohydrate")
    else if Contains(h, "dietary fibre") || Contains(h, "dietary fiber") then Some("Dietary fibre")
    else LaterTests(h)
  }

  /** The tests on the header as written add nothing to those on the lower-cased header:
      "Energy", "Water", "Protein" and "Fat" are already their names once lower-cased. */
  lemma ChainOfLower(head: string, section: Option<string>)
    ensures MapHeaderToSiteKey(head, section) == LowerChain(Lower(head))
  {
    CapitalNames();
  }

  /** The four names as written, lower-cased. */
  lemma CapitalNames()
    ensures Lower("Energy") == "energy" && Lower("Water") == "water"
    ensures Lower("Protein") == "protein" && Lower("Fat") == "fat"
  {
    assert Lower("Energy") == "energy" && Lower("Water") == "water";
    assert Lower("Protein") == "protein" && Lower("Fat") == "fat";
  }

  /** The four exact-name tests: each of Energy, Water, Protein and Fat is given exactly
      for its own name in any case, and no later test gives any of them. */
  lemma NamedHeaders(head: string, section: Option<string>)
    ensures MapHeaderToSiteKey(head, section) == Some("Energy") <==> Lower(head) == "energy"
    ensures MapHeaderToSiteKey(head, section) == Some("Water") <==> Lower(head) == "water"
    ensures MapHeaderToSiteKey(head, section) == Some("Protein") <==> Lower(head) == "protein"
    ensures MapHeaderToSiteKey(head, section) == Some("Fat") <==> Lower(head) == "fat"
  {
    ChainOfLower(head, section);
    LowerNamed(Lower(head));
  }

  /** `NamedHeaders` on the lower-cased header. */
  lemma LowerNamed(h: string)
    ensures LowerChain(h) == Some("Energy") <==> h == "energy"
    ensures LowerChain(h) == Some("Water") <==> h == "water"
    ensures LowerChain(h) == Some("Protein") <==> h == "protein"
    ensures LowerChain(h) == Some("Fat") <==> h == "fat"
  {
  }

  /** The mineral tests after the fibre test: Ash and each mineral key are given exactly
      for their own lower-cased name. */
  lemma LaterMineralHeaders(head: string, section: Option<string>)
    ensures var h, r := Lower(head), MapHeaderToSiteKey(head, section);
      && (r == Some("Ash") <==> h == "ash")
      && (r == Some("Sodium") <==> h == "sodium")
      && (r == Some("Potassium") <==> h == "potassium")
      && (r == Some("Calcium") <==> h == "calcium")
      && (r == Some("Iron") <==> h == "iron")
      && (r == Some("Iodine") <==> h == "iodine")
  {
    ChainOfLower(head, section);
    LowerMinerals(Lower(head));
  }

  /** `LaterMineralHeaders` on the lower-cased header. */
  lemma LowerMinerals(h: string)
    ensures var r := LowerChain(h);
      && (r == Some("Ash") <==> h == "ash")
      && (r == Some("Sodium") <==> h == "sodium")
      && (r == Some("Potassium") <==> h == "potassium")
      && (r == Some("Calcium") <==> h == "calcium")
      && (r == Some("Iron") <==> h == "iron")
      && (r == Some("Iodine") <==> h == "iodine")
  {
    if |h| < 12 && h != "energy" && h != "water" && h != "protein" && h != "fat" {
      ShortLaterName(h);
    }
  }

  /** The vitamin tests: each vitamin key is given exactly for its own lower-cased name,
      Thiamin also for "thiamine". */
  lemma LaterVitaminHeaders(head: string, section: Option<string>)
    ensures var h, r := Lower(head), MapHeaderToSiteKey(head, section);
      && (r == Some("Retinol") <==> h == "retinol")
      && (r == Some("Thiamin") <==> h == "thiamin" || h == "thiamine")
      && (r == Some("Riboflavin") <==> h == "riboflavin")
      && (r == Some("Niacin") <==> h == "niacin")
      && (r == Some("Vitamin E") <==> h == "vitamin e")
  {
    ChainOfLower(head, section);
    LowerVitamins(Lower(head));
  }

  /** `LaterVitaminHeaders` on the lower-cased header. */
  lemma LowerVitamins(h: string)
    ensures var r := LowerChain(h);
      && (r == Some("Retinol") <==> h == "retinol")
      && (r == Some("Thiamin") <==> h == "thiamin" || h == "thiamine")
      && (r == Some("Riboflavin") <==> h == "riboflavin")
      && (r == Some("Niacin") <==> h == "niacin")
      && (r == Some("Vitamin E") <==> h == "vitamin e")
  {
    if |h| < 12 && h != "energy" && h != "water" && h != "protein" && h != "fat" {
      ShortLaterName(h);
    }
  }

  /** Total vitamin A (RAE) is given for any header containing "total vitamin a" that no
      earlier test took, and for no other header. */
  lemma TotalVitaminAHeader(head: string, section: Option<string>)
    ensures var h := Lower(head);
      MapHeaderToSiteKey(head, section) == Some("Total vitamin A (RAE)") <==>
        && Contains(h, "total vitamin a") && !StartsAt(h, 0, "carbohydrate")
        && !Contains(h, "dietary fibre") && !Contains(h, "dietary fiber")
  {
    ChainOfLower(head, section);
    LowerTotalVitaminA(Lower(head));
  }

  /** `TotalVitaminAHeader` on the lower-cased header. */
  lemma LowerTotalVitaminA(h: string)
    ensures LowerChain(h) == Some("Total vitamin A (RAE)") <==>
      && Contains(h, "total vitamin a") && !StartsAt(h, 0, "carbohydrate")
      && !Contains(h, "dietary fibre") && !Contains(h, "dietary fiber")
  {
    if Contains(h, "total vitamin a") {
      var i :| 0 <= i <= |h| - 15 && StartsAt(h, i, "total vitamin a");
      LongName(h);
    }
  }

  /** A short name other than the four first ones reaches the later tests. */
  lemma ShortLaterName(h: string)
    requires |h| < 12 && h != "energy" && h != "water" && h != "protein" && h != "fat"
    ensures LowerChain(h) == LaterTests(h)
  {
  }

  /** A header of fifteen letters or more is none of the names tested by equality. */
  lemma LongName(h: string)
    requires |h| >= 15
    ensures h !in ExactNames
  {
  }

  /** A header passes no test of the chain, and gets `null`, exactly when its lower-cased
      text is none of the exact names and has neither the carbohydrate prefix nor any of
      the three substrings. */
  lemma UnknownHeaders(head: string, section: Option<string>)
    ensures var h := Lower(head);
      MapHeaderToSiteKey(head, section).None? <==>
        && h !in ExactNames
        && !StartsAt(h, 0, "carbohydrate")
        && !Contains(h, "dietary fibre") && !Contains(h, "dietary fiber")
        && !Contains(h, "total vitamin a")
  {
    ChainOfLower(head, section);
    LaterTestsNone(Lower(head));
  }

  /** The tests after the fibre test all fail exactly for the headers outside their names
      that do not contain "total vitamin a". */
  lemma LaterTestsNone(h: string)
    ensures LaterTests(h).None? <==>
      h !in ExactNames - {"energy", "water", "protein", "fat"} && !Contains(h, "total vitamin a")
  {
  }

  /** The lower-case names the chain tests by equality. */
  const ExactNames: set<string> := {"energy", "water", "protein", "fat", "ash", "sodium", "potassium", "calcium",
    "iron", "iodine", "retinol", "thiamin", "thiamine", "riboflavin", "niacin", "vitamin e"}

  /** The classifier reads only the header. */
  lemma MapIgnoresSection(head: string, s1: Option<string>, s2: Option<string>)
    ensures MapHeaderToSiteKey(head, s1) == MapHeaderToSiteKey(head, s2)
  {
  }

  /** Any header that starts with "carbohydrate", in any case, is Carbohydrate, and no
      other header is. */
  lemma CarbohydratePrefix(head: string, section: Option<string>)
    ensures MapHeaderToSiteKey(head, section) == Some("Carbohydrate") <==> StartsAt(Lower(head), 0, "carbohydrate")
  {
    ChainOfLower(head, section);
  }

  /** Entry `n` of a section's table gives a key of that section. */
  lemma SiteKey(s: string, n: nat)
    requires IsSectionName(s) && n < |NutrientsMapSite.SectionTable(s)|
    ensures NutrientsMapSite.KeyOfSection(NutrientsMapSite.SectionTable(s)[n].1, s)
  {
  }

  /** A header that contains "dietary fibre" or "dietary fiber", in any case, is Dietary
      fibre unless it starts with "carbohydrate", whose test comes first; no other header is. */
  lemma DietaryFibre(head: string, section: Option<string>)
    ensures MapHeaderToSiteKey(head, section) == Some("Dietary fibre") <==>
      && (Contains(Lower(head), "dietary fibre") || Contains(Lower(head), "dietary fiber"))
      && !StartsAt(Lower(head), 0, "carbohydrate")
  {
    ChainOfLower(head, section);
    LowerFibre(Lower(head));
  }

  /** `DietaryFibre` on the lower-cased header. */
  lemma LowerFibre(h: string)
    ensures LowerChain(h) == Some("Dietary fibre") <==>
      (Contains(h, "dietary fibre") || Contains(h, "dietary fiber")) && !StartsAt(h, 0, "carbohydrate")
  {
    if Contains(h, "dietary fibre") || Contains(h, "dietary fiber") {
      var i :| 0 <= i <= |h| - 13 && (StartsAt(h, i, "dietary fibre") || StartsAt(h, i, "dietary fiber"));
    }
  }

  /** The keys the chain files under MainNutrients on the site. */
  const MainChainKeys: set<string> := {"Energy", "Water", "Protein", "Fat", "Carbohydrate", "Dietary fibre", "Ash"}

  lemma MainChainKeysAreSiteKeys(k: string)
    requires k in MainChainKeys
    ensures NutrientsMapSite.KeyOfSection(k, MainNutrients)
  {
    if k == "Energy" {
      SiteKey(MainNutrients, 0);
    } else if k == "Water" {
      SiteKey(MainNutrients, 1);
    } else if k == "Protein" {
      SiteKey(MainNutrients, 2);
    } else if k == "Fat" {
      SiteKey(MainNutrients, 3);
    } else if k == "Carbohydrate" {
      SiteKey(MainNutrients, 4);
    } else if k == "Dietary fibre" {
      SiteKey(MainNutrients, 5);
    } else {
      SiteKey(MainNutrients, 6);
    }
  }

  /** The keys the chain files under Minerals on the site. */
  const MineralChainKeys: set<string> := {"Sodium", "Potassium", "Calcium", "Iron", "Iodine"}

  lemma MineralChainKeysAreSiteKeys(k: string)
    requires k in MineralChainKeys
    ensures NutrientsMapSite.KeyOfSection(k, Minerals)
  {
    if k == "Sodium" {
      SiteKey(Minerals, 1);
    } else if k == "Potassium" {
      SiteKey(Minerals, 2);
    } else if k == "Calcium" {
      SiteKey(Minerals, 3);
    } else if k == "Iron" {
      SiteKey(Minerals, 6);
    } else {
      SiteKey(Minerals, 0);
    }
  }

  /** The keys the chain files under Vitamins on the site. */
  const VitaminChainKeys: set<string> := VitaminAChainKeys + VitaminBChainKeys

  const VitaminAChainKeys: set<string> := {"Retinol", "Total vitamin A (RAE)", "Thiamin"}

  const VitaminBChainKeys: set<string> := {"Riboflavin", "Niacin", "Vitamin E"}

  lemma VitaminChainKeysAreSiteKeys(k: string)
    requires k in VitaminChainKeys
    ensures NutrientsMapSite.KeyOfSection(k, Vitamins)
  {
    if k == "Retinol" {
      SiteKey(Vitamins, 0);
    } else if k == "Total vitamin A (RAE)" {
      SiteKey(Vitamins, 1);
    } else if k == "Thiamin" {
      SiteKey(Vitamins, 2);
    } else {
      LaterVitaminChainKeysAreSiteKeys(k);
    }
  }

  lemma LaterVitaminChainKeysAreSiteKeys(k: string)
    requires k in VitaminBChainKeys
    ensures NutrientsMapSite.KeyOfSection(k, Vitamins)
  {
    if k == "Riboflavin" {
      SiteKey(Vitamins, 3);
    } else if k == "Niacin" {
      SiteKey(Vitamins, 4);
    } else {
      SiteKey(Vitamins, 5);
    }
  }

  /** Every key the chain can return is a key of the site's own table, in some section. */
  lemma ChainKeysAreSiteKeys(k: string)
    requires k in ChainKeys
    ensures exists s :: NutrientsMapSite.KeyOfSection(k, s)
  {
    if k in MainChainKeys {
      MainChainKeysAreSiteKeys(k);
    } else if k in MineralChainKeys {
      MineralChainKeysAreSiteKeys(k);
    } else {
      VitaminChainKeysAreSiteKeys(k);
    }
  }

  // ---------------------------------------------------------------- detail table

  /** A row that names a section: a single cell, or a first cell that is a `<th>` with a
      `colspan` attribute, whatever its value. */
  predicate IsBoundaryRow(cells: seq<Cell>)
    requires cells != []
  {
    |cells| == 1 || (cells[0].isTh && cells[0].colspan.Some?)
  }

  predicate IsDataRow(cells: seq<Cell>) {
    |cells| >= 3 && !IsBoundaryRow(cells)
  }

  /** A boundary row whose text is one of the three section titles. */
  predicate NamesSection(cells: seq<Cell>) {
    cells != [] && IsBoundaryRow(cells) && IsSectionName(Head(cells))
  }

  /** `cur` after one more row. */
  function NextCursor(cells: seq<Cell>, cur: Option<string>): Option<string> {
    if NamesSection(cells) then Some(Head(cells)) else cur
  }

  /** `cur` after the rows `rows`. */
  function Cursor(rows: seq<seq<Cell>>): (cur: Option<string>)
    ensures cur.Some? ==> IsSectionName(cur.value)
  {
    if rows == [] then None else NextCursor(rows[|rows| - 1], Cursor(rows[..|rows| - 1]))
  }

  /** The trimmed text of a row's first cell. */
  function Head(cells: seq<Cell>): string
    requires cells != []
  {
    TextOf(cells[0].texts)
  }

  /** The amount and unit of a data row, an empty unit stored as `null`. */
  function RowValue(cells: seq<Cell>): Value
    requires |cells| >= 3
  {
    CellValue(TextOf(cells[1].texts), TextOf(cells[2].texts))
  }

  /** A header classifier with the shape of `mapHeaderToSiteKey(head, section)`. */
  type HeaderMap = (string, Option<string>) -> Option<string>

  /** Where a row goes when the cursor is `cur`: a data row whose header maps to a key
      goes to the cursor's section under that key, and only when there is a cursor. */
  function Placement(cells: seq<Cell>, cur: Option<string>, hmap: HeaderMap): (p: Option<Placement>)
    requires cur.Some? ==> IsSectionName(cur.value)
    ensures p.Some? ==> IsDataRow(cells) && p.value.value == RowValue(cells) && p.value.bucket != ExtrasBucket
  {
    if !IsDataRow(cells) then None
    else
      var key := hmap(Head(cells), cur);
      if Truthy(key) && cur.Some? then Some(Place(SectionBucket(cur.value), key.value, RowValue(cells)))
      else None
  }

  /** The writes of the rows `rows`, each placed under the cursor the rows before it leave. */
  function Placements(rows: seq<seq<Cell>>, hmap: HeaderMap): (ps: seq<Option<Placement>>)
    ensures |ps| == |rows|
  {
    if rows == [] then []
    else
      var init := rows[..|rows| - 1];
      Placements(init, hmap) + [Placement(rows[|rows| - 1], Cursor(init), hmap)]
  }

  lemma {:induction false} PlacementsAt(rows: seq<seq<Cell>>, j: int, hmap: HeaderMap)
    requires 0 <= j < |rows|
    ensures Placements(rows, hmap)[j] == Placement(rows[j], Cursor(rows[..j]), hmap)
  {
    var init := rows[..|rows| - 1];
    assert Placements(rows, hmap) == Placements(init, hmap) + [Placement(rows[|rows| - 1], Cursor(init), hmap)];
    if j < |rows| - 1 {
      PlacementsAt(init, j, hmap);
      assert init[..j] == rows[..j] && init[j] == rows[j];
    } else {
      assert init == rows[..j];
    }
  }

  /** Row `j` is the last row that names a section. */
  predicate LastNamed(rows: seq<seq<Cell>>, j: int) {
    0 <= j < |rows| && NamesSection(rows[j]) && forall j' :: j < j' < |rows| ==> !NamesSection(rows[j'])
  }

  /** There is no cursor until some boundary row names a section. */
  lemma {:induction false} CursorNeedsName(rows: seq<seq<Cell>>)
    ensures Cursor(rows).None? <==> forall j :: 0 <= j < |rows| ==> !NamesSection(rows[j])
  {
    if rows != [] {
      var init, last := rows[..|rows| - 1], rows[|rows| - 1];
      CursorNeedsName(init);
      assert forall j :: 0 <= j < |init| ==> init[j] == rows[j];
      if NamesSection(last) {
        assert Cursor(rows) == Some(Head(last));
      } else {
        assert Cursor(rows) == Cursor(init);
      }
    }
  }

  /** The cursor is the title the last naming boundary row gives: other boundary rows
      and data rows leave it alone. */
  lemma {:induction false} CursorIsLastNamed(rows: seq<seq<Cell>>, j: int)
    requires LastNamed(rows, j)
    ensures Cursor(rows) == Some(Head(rows[j]))
  {
    var init := rows[..|rows| - 1];
    if j < |rows| - 1 {
      assert init[j] == rows[j];
      assert forall j' :: j < j' < |init| ==> init[j'] == rows[j'];
      CursorIsLastNamed(init, j);
    }
  }

  /** Row `j` is stored exactly when it is a data row, its header maps to a key, and a
      boundary row before it has named a section: rows before the first named section
      and rows whose header the classifier does not know are dropped. */
  lemma Stored(rows: seq<seq<Cell>>, j: int, hmap: HeaderMap)
    requires 0 <= j < |rows|
    ensures Placements(rows, hmap)[j].Some? <==>
      && IsDataRow(rows[j])
      && Truthy(hmap(Head(rows[j]), Cursor(rows[..j])))
      && exists j' :: 0 <= j' < j && NamesSection(rows[j'])
  {
    PlacementsAt(rows, j, hmap);
    CursorNeedsName(rows[..j]);
    assert forall j' :: 0 <= j' < j ==> rows[..j][j'] == rows[j'];
  }

  /** Row `j` is a data row whose header maps to `k` and that sits under section `s`. */
  predicate FiledUnder(rows: seq<seq<Cell>>, j: int, k: string, s: string, hmap: HeaderMap) {
    && 0 <= j < |rows| && IsDataRow(rows[j])
    && Cursor(rows[..j]) == Some(s)
    && k != [] && hmap(Head(rows[j]), Some(s)) == Some(k)
  }

  lemma PlacementFiled(rows: seq<seq<Cell>>, j: int, s: string, k: string, hmap: HeaderMap)
    requires 0 <= j < |rows| && IsSectionName(s)
    ensures PlacesAt(Placements(rows, hmap), j, SectionBucket(s), k) <==> FiledUnder(rows, j, k, s, hmap)
    ensures Placements(rows, hmap)[j].Some? ==> |rows[j]| >= 3 && Placements(rows, hmap)[j].value.value == RowValue(rows[j])
  {
    PlacementsAt(rows, j, hmap);
  }

  /** Section `s` holds `k` exactly when some data row whose header maps to `k` sits under
      `s`; the value is the last such row's. Rows before the first naming boundary and
      rows whose header maps to nothing are dropped. */
  lemma {:induction false} SectionEntries(rows: seq<seq<Cell>>, s: string, k: string, hmap: HeaderMap)
    requires IsSectionName(s)
    ensures k in Fill(Placements(rows, hmap), SectionBucket(s)) <==> exists j :: FiledUnder(rows, j, k, s, hmap)
    ensures forall j :: LastFiled(rows, j, k, s, hmap) ==>
      k in Fill(Placements(rows, hmap), SectionBucket(s)) && Fill(Placements(rows, hmap), SectionBucket(s))[k] == RowValue(rows[j])
  {
    var ps, b := Placements(rows, hmap), SectionBucket(s);
    forall j | 0 <= j < |rows|
      ensures (PlacesAt(ps, j, b, k) <==> FiledUnder(rows, j, k, s, hmap))
      ensures ps[j].Some? ==> |rows[j]| >= 3 && ps[j].value.value == RowValue(rows[j])
    {
      PlacementFiled(rows, j, s, k, hmap);
    }
    FillKeys(ps, b, k);
    forall j | LastFiled(rows, j, k, s, hmap)
      ensures k in Fill(ps, b) && Fill(ps, b)[k] == RowValue(rows[j])
    {
      FillLastWriter(ps, b, k, j);
    }
  }

  /** Row `j` is the last row filed under `s` with key `k`. */
  predicate LastFiled(rows: seq<seq<Cell>>, j: int, k: string, s: string, hmap: HeaderMap) {
    FiledUnder(rows, j, k, s, hmap) && forall j' :: j < j' < |rows| ==> !FiledUnder(rows, j', k, s, hmap)
  }

  /** One pass of the row loop of `parseDetailHTML`: a boundary row may move `cur`, and a
      data row whose header maps to a key is written into `sections[cur]`. */
  method WalkRow(cells: seq<Cell>, cur: Option<string>, hmap: HeaderMap,
                 main: map<string, Value>, minerals: map<string, Value>, vitamins: map<string, Value>)
    returns (cur': Option<string>, main': map<string, Value>, minerals': map<string, Value>,
             vitamins': map<string, Value>)
    requires cur.Some? ==> IsSectionName(cur.value)
    ensures cur' == NextCursor(cells, cur)
    ensures var p := Placement(cells, cur, hmap);
      main' == Put(main, p, MainBucket) && minerals' == Put(minerals, p, MineralsBucket) &&
      vitamins' == Put(vitamins, p, VitaminsBucket)
  {
    cur', main', minerals', vitamins' := cur, main, minerals, vitamins;
    ghost var p := Placement(cells, cur, hmap);
    if cells == [] {
      Unplaced(p, main, minerals, vitamins);
      return;
    }
    if |cells| == 1 || (cells[0].isTh && cells[0].colspan.Some?) {
      var sec := Head(cells);
      if sec == MainNutrients || sec == Minerals || sec == Vitamins {
        cur' := Some(sec);
      }
      Unplaced(p, main, minerals, vitamins);
      return;
    }
    if |cells| < 3 {
      Unplaced(p, main, minerals, vitamins);
      return;
    }
    var head := Head(cells);
    var value := RowValue(cells);
    var key := hmap(head, cur);
    if Truthy(key) && cur.Some? {
      assert p == Some(Place(SectionBucket(cur.value), key.value, value));
      main', minerals', vitamins' := StoreRow(SectionBucket(cur.value), key.value, value, main, minerals, vitamins);
    } else {
      Unplaced(p, main, minerals, vitamins);
    }
  }

  /** A row placed nowhere leaves the three maps as they are. */
  lemma Unplaced(p: Option<Placement>, main: map<string, Value>, minerals: map<string, Value>,
                 vitamins: map<string, Value>)
    requires p.None?
    ensures Put(main, p, MainBucket) == main && Put(minerals, p, MineralsBucket) == minerals
    ensures Put(vitamins, p, VitaminsBucket) == vitamins
  {
  }

  /** `sections[cur][map] = value`: the write goes into the map of the cursor's section,
      and the other two maps stay as they are. */
  method StoreRow(b: Bucket, key: string, value: Value,
                  main: map<string, Value>, minerals: map<string, Value>, vitamins: map<string, Value>)
    returns (main': map<string, Value>, minerals': map<string, Value>, vitamins': map<string, Value>)
    requires b != ExtrasBucket
    ensures var p := Some(Place(b, key, value));
      main' == Put(main, p, MainBucket) && minerals' == Put(minerals, p, MineralsBucket) &&
      vitamins' == Put(vitamins, p, VitaminsBucket)
  {
    main', minerals', vitamins' := main, minerals, vitamins;
    match b
    case MainBucket => main' := main[key := value];
    case MineralsBucket => minerals' := minerals[key := value];
    case VitaminsBucket => vitamins' := vitamins[key := value];
  }

  /** The row loop of `parseDetailHTML`: the three section maps after the rows `rows`. */
  method WalkRows(rows: seq<seq<Cell>>, hmap: HeaderMap)
    returns (main: map<string, Value>, minerals: map<string, Value>, vitamins: map<string, Value>)
    ensures var ps := Placements(rows, hmap);
      main == Fill(ps, MainBucket) && minerals == Fill(ps, MineralsBucket) && vitamins == Fill(ps, VitaminsBucket)
  {
    main, minerals, vitamins := map[], map[], map[];
    var cur: Option<string> := None;
    ghost var done: seq<Option<Placement>> := [];
    for i := 0 to |rows|
      invariant cur == Cursor(rows[..i]) && done == Placements(rows[..i], hmap)
      invariant main == Fill(done, MainBucket) && minerals == Fill(done, MineralsBucket)
      invariant vitamins == Fill(done, VitaminsBucket)
    {
      var cells := rows[i];
      assert rows[..i + 1][..i] == rows[..i];
      ghost var p := Placement(cells, cur, hmap);
      assert Placements(rows[..i + 1], hmap) == done + [p];
      assert Cursor(rows[..i + 1]) == NextCursor(cells, cur);
      FillSnoc(done, p, MainBucket);
      FillSnoc(done, p, MineralsBucket);
      FillSnoc(done, p, VitaminsBucket);
      cur, main, minerals, vitamins := WalkRow(cells, cur, hmap, main, minerals, vitamins);
      done := done + [p];
    }
    assert rows[..|rows|] == rows;
  }

  // ---------------------------------------------------------------- detail page

  /** What `parseDetailHTML` returns. */
  datatype Detail = Detail(name: string, group: Option<string>, basis: Basis,
                           main: map<string, Value>, minerals: map<string, Value>, vitamins: map<string, Value>,
                           sourceUrl: string)
  {
    /** `sections[s]` for a site section title `s`. */
    function Section(s: string): map<string, Value>
      requires IsSectionName(s)
    {
      if s == MainNutrients then main else if s == Minerals then minerals else vitamins
    }
  }

  function TableRows(dom: Dom): seq<seq<Cell>> {
    if dom.table.Some? then dom.table.value else []
  }

  /** `parseDetailHTML(html, sourceUrl)` on the parsed page. */
  function DetailOf(dom: Dom, sourceUrl: string, rt: Runtime): Detail {
    var ps := Placements(TableRows(dom), MapHeaderToSiteKey);
    Detail(Title(dom.heading), ParseGroup(dom.innerText), ParseBasis(dom.innerText, rt),
           Fill(ps, MainBucket), Fill(ps, MineralsBucket), Fill(ps, VitaminsBucket), sourceUrl)
  }

  method ParseDetailHTML(dom: Dom, sourceUrl: string, rt: Runtime) returns (d: Detail)
    ensures d == DetailOf(dom, sourceUrl, rt)
  {
    var title := Title(dom.heading);
    var texts := dom.innerText;
    var group := ParseGroup(texts);
    var basis := ParseBasis(texts, rt);
    var main, minerals, vitamins := map[], map[], map[];
    if dom.table.Some? {
      main, minerals, vitamins := WalkRows(dom.table.value, MapHeaderToSiteKey);
    }
    d := Detail(title, group, basis, main, minerals, vitamins, sourceUrl);
  }

  /** Section `s` of the parsed page holds `k` exactly when some data row whose header
      maps to `k` sits under `s`, with the last such row's value; its keys are keys of
      the site's table, though not necessarily of section `s`. */
  lemma DetailSection(dom: Dom, sourceUrl: string, rt: Runtime, s: string, k: string)
    requires IsSectionName(s)
    ensures var d, rows := DetailOf(dom, sourceUrl, rt), TableRows(dom);
      k in d.Section(s) <==> exists j :: FiledUnder(rows, j, k, s, MapHeaderToSiteKey)
    ensures var d, rows := DetailOf(dom, sourceUrl, rt), TableRows(dom);
      forall j :: LastFiled(rows, j, k, s, MapHeaderToSiteKey) ==> k in d.Section(s) && d.Section(s)[k] == RowValue(rows[j])
    ensures k in DetailOf(dom, sourceUrl, rt).Section(s) ==> exists s' :: NutrientsMapSite.KeyOfSection(k, s')
  {
    var rows := TableRows(dom);
    SectionEntries(rows, s, k, MapHeaderToSiteKey);
    if k in DetailOf(dom, sourceUrl, rt).Section(s) {
      var j :| FiledUnder(rows, j, k, s, MapHeaderToSiteKey);
      ChainKeysAreSiteKeys(k);
    }
  }

  /** A parsed page is stamped with the URL it was given, and its title is never empty. */
  lemma DetailStamp(dom: Dom, sourceUrl: string, rt: Runtime)
    ensures DetailOf(dom, sourceUrl, rt).sourceUrl == sourceUrl
    ensures DetailOf(dom, sourceUrl, rt).name != []
    ensures var g := DetailOf(dom, sourceUrl, rt).group;
      g.Some? ==> Trim(g.value) == g.value && '\n' !in g.value && '(' !in g.value
    ensures dom.table.None? ==> var d := DetailOf(dom, sourceUrl, rt); d.main == d.minerals == d.vitamins == map[]
    ensures dom.heading.None? ==> DetailOf(dom, sourceUrl, rt).name == ScrapeThaifcd.NoName
  {
  }
}
