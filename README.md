# ThaiFCD scraper and client: a verified model

This project is a Dafny model of the extraction core of *nutrition-finder*. That core reads the public Thai food-composition site ThaiFCD and turns its pages into nutrient records keyed by the site's own nutrient names. The model covers three parts, each with its own module:

- **`NutrientsMapSite`** (`nutrients_map_site.dfy`): the header classifier `map_header_to_site_key`. It holds the three ordered pattern tables, `MAIN`, `MINERALS` and `VITAMINS`, joined into `ALL`, and returns the first entry whose pattern full-matches the stripped header, ignoring case. Each regular expression is written as a token sequence: words with their alternative spellings, optional letters, and `\s*` runs. The full-match semantics is defined on those tokens.
- **`ScrapeThaifcd`** (`scrape_thaifcd.dfy`): the Python scraper.
  - `extract_search_rows` reads the search-result table.
  - `parse_basis` reads the "ปริมาณอาหาร ต่อ …" phrase.
  - The food-group regex.
  - `parse_detail_page` walks the nutrient table with its section cursor.
  - `scrape_keyword` walks one keyword's results.
  - `main`'s keyword loop de-duplicates items on (name, source URL) and writes the collected list after every keyword.
- **`ThaifcdClient`** (`thaifcd_client.dfy`): the browser client's `parseSearchHTML`, `parseDetailHTML` (title, group, basis and table walk) and `mapHeaderToSiteKey`. It also relates the client's listing to the scraper's listing.

Three modules are shared:

- `Html` models what both languages do with a parsed page: `str.strip`/`trim`, ASCII lower-casing, BeautifulSoup's `get_text` and the DOM's `textContent`, and the shapes of the listing and detail tables.
- `TableFill` models the section maps filled row by row, where the last writer of a key wins.
- `PageText` models a left-to-right regex search that starts at a marker word.

Imperative code is modelled as methods with loops. Each is proved equal to a specification function, and the properties the code promises are lemmas about those functions. Examples:

- the row loop of `parse_detail_page`: `ScrapeThaifcd.WalkTable`;
- the keyword loop of `main`: `ScrapeThaifcd.Harvest`;
- the client's table walk: `ThaifcdClient.WalkRows`.

Pure code is modelled as functions and lemmas. Examples: the classifiers, the basis phrase, the group capture.

The scraper's table walk, keyword loop and harvest are proved for any *sound* header classifier. A sound classifier gives a key exactly when it gives a section, that section is one of the three site sections, and the key is not empty. `SiteClassifierIsSound` shows that `map_header_to_site_key` is such a classifier, and `ScrapeThaiFcd` runs the harvest with it. In the same way, the client's table walk is proved for any header map and is run with `mapHeaderToSiteKey`.

Behaviour of the code that the model keeps as written and proves:

- The unit group of `parse_basis` tries `[กมล]\.?` first. So "กรัม" is captured as "ก" and stored as "g", and "มล" is captured as "ม" and stored as "ม", never as "ml" (`GramCapturedAsAbbreviation`, `MillilitreCapturedAsAbbreviation`, `LongUnitsUnreachable`).
- An anchor with an empty `href` gives the scraper a detail URL (`urljoin(BASE, "")`) but gives the client none (`ThaifcdClient.ListingsAgree`, stated for tables whose cells are each one text node).
- A heading whose text is blank gives the scraper the name "" and the client the placeholder "(ไม่พบชื่อ)" (`ThaifcdClient.BlankHeadingNames`).
- `main` rewrites the output file after every keyword, even when nothing has been collected (`EmptyHarvestStillWritten`).

## Model

| member | source | states |
|---|---|---|
| NutrientsMapSite.AllLayout | scripts/nutrients_map_site.py:45-52 | `ALL` is the MAIN entries, then the MINERALS entries, then the VITAMINS entries, each tagged with its section title |
| NutrientsMapSite.MAIN | scripts/nutrients_map_site.py:5-13 | the main-nutrient table, its patterns written as token lists; `AllLayout`, `AllEntriesBelongToTheirSection`, `KeysNonEmpty` and `MainInitials` state its meaning |
| NutrientsMapSite.MINERALS | scripts/nutrients_map_site.py:15-27 | the mineral table; `AllLayout`, `AllEntriesBelongToTheirSection`, `KeysNonEmpty` and `MineralInitials` state its meaning |
| NutrientsMapSite.VITAMINS | scripts/nutrients_map_site.py:29-43 | the vitamin table; `AllLayout`, `AllEntriesBelongToTheirSection`, `KeysNonEmpty` and `VitaminInitials` state its meaning |
| NutrientsMapSite.ALL | scripts/nutrients_map_site.py:45-52 | the constant list the append loop builds; `AllLayout` and `AllEntriesBelongToTheirSection` state its meaning |
| NutrientsMapSite.AllEntriesBelongToTheirSection | scripts/nutrients_map_site.py:45-52 | every entry of `ALL` names one of the three site sections, its key is a key of that section's table, and no key is empty |
| NutrientsMapSite.KeysNonEmpty | scripts/nutrients_map_site.py:5-43 | no site key in the three tables is empty |
| NutrientsMapSite.FirstMatch | scripts/nutrients_map_site.py:57-59 | the result is the index of an entry whose pattern full-matches and no earlier entry matches; `None` only when no entry matches |
| NutrientsMapSite.FirstMatchIsFirst | scripts/nutrients_map_site.py:57-59 | the first matching entry is the one the loop returns |
| NutrientsMapSite.Classify | scripts/nutrients_map_site.py:57-60 | a key is returned exactly when a section is returned |
| NutrientsMapSite.MapHeaderToSiteKey | scripts/nutrients_map_site.py:54-60 | key present iff section present; the section is a site section and the key one of that section's keys; the key is not empty |
| NutrientsMapSite.UnmatchedHeader | scripts/nutrients_map_site.py:57-60 | a header no pattern of the three tables matches gives `(None, None)` |
| NutrientsMapSite.FullMatch | scripts/nutrients_map_site.py:52-58 | `re.compile(p, re.I).fullmatch(s)`: some top-level alternative matches the whole of `s`; `FullMatchIgnoresCase`, `SingleWord`, `EnergyKcalClassified` and `FirstCharacterRulesOut` state its meaning |
| NutrientsMapSite.MatchTokens | scripts/nutrients_map_site.py:52-58 | one alternative, as a token list, matches the whole string; `MatchTokensIgnoresCase` and `FirstWordsMissRulesOut` state its meaning |
| NutrientsMapSite.MatchSpellings | scripts/nutrients_map_site.py:52-58 | a choice among literal spellings (`X?`, `(ine\|al)`) followed by the rest of the pattern; `MatchSpellingsIgnoresCase` and `SpellingsMiss` state its meaning |
| NutrientsMapSite.PrefixIgnoringCase | scripts/nutrients_map_site.py:52 | a literal word of a pattern under `re.I`; `PrefixIgnoresCase` states its meaning |
| NutrientsMapSite.ClassifiedAsMainNutrient | scripts/nutrients_map_site.py:46-59 | the first MAIN pattern that matches decides the key, in "Main nutrients" |
| NutrientsMapSite.ClassifiedAsMineral | scripts/nutrients_map_site.py:46-59 | when no MAIN pattern matches, the first matching MINERALS pattern decides the key, in "Minerals" |
| NutrientsMapSite.ClassifiedAsVitamin | scripts/nutrients_map_site.py:46-59 | when neither MAIN nor MINERALS matches, the first matching VITAMINS pattern decides, in "Vitamins" |
| NutrientsMapSite.PrefixIgnoresCase | scripts/nutrients_map_site.py:52 | a lower-case word is a prefix of `s` ignoring case iff it is one of `s` lower-cased |
| NutrientsMapSite.MatchTokensIgnoresCase | scripts/nutrients_map_site.py:52 | a token sequence matches `s` iff it matches `s` lower-cased (`re.I`) |
| NutrientsMapSite.MatchSpellingsIgnoresCase | scripts/nutrients_map_site.py:52 | an alternation of spellings matches `s` iff it matches `s` lower-cased |
| NutrientsMapSite.FullMatchIgnoresCase | scripts/nutrients_map_site.py:52 | `fullmatch` under `re.I` gives the same answer for `s` and for `s` lower-cased |
| NutrientsMapSite.FirstMatchAgrees | scripts/nutrients_map_site.py:57-59 | two headers every pattern treats alike get the same first match |
| NutrientsMapSite.ClassifyIgnoresCase | scripts/nutrients_map_site.py:52-60 | headers equal up to ASCII case classify alike |
| NutrientsMapSite.MapHeaderIgnoresCaseAndPadding | scripts/nutrients_map_site.py:54-60 | headers equal after stripping and lower-casing get the same key and section |
| NutrientsMapSite.StrippedHeader | scripts/nutrients_map_site.py:56 | a header without surrounding whitespace is classified as it stands |
| NutrientsMapSite.SpellingsMiss | scripts/nutrients_map_site.py:52 | an alternation none of whose spellings starts `s` does not match |
| NutrientsMapSite.FirstWordsMissRulesOut | scripts/nutrients_map_site.py:52 | a pattern none of whose alternatives can start `s` does not full-match it |
| NutrientsMapSite.FirstCharacterRulesOut | scripts/nutrients_map_site.py:52 | a pattern that cannot start with the header's first letter does not match it |
| NutrientsMapSite.MainInitials | scripts/nutrients_map_site.py:5-13 | no MAIN pattern starts with a letter outside "ewmpfcda" |
| NutrientsMapSite.MineralInitials | scripts/nutrients_map_site.py:15-27 | no MINERALS pattern starts with a letter outside "ispcmpzs" |
| NutrientsMapSite.VitaminInitials | scripts/nutrients_map_site.py:29-43 | no VITAMINS pattern starts with a letter outside "rtvnafcpbβ" |
| NutrientsMapSite.UnmatchedInitial | scripts/nutrients_map_site.py:57-60 | a header whose first letter no pattern can start with is unknown |
| NutrientsMapSite.BlankHeaderIsUnknown | scripts/nutrients_map_site.py:56-60 | a missing or all-whitespace header gives `(None, None)` |
| NutrientsMapSite.EmptyHeaderUnmatched | scripts/nutrients_map_site.py:57-60 | no pattern full-matches the empty header, so it is unknown |
| NutrientsMapSite.EnergyClassified | scripts/nutrients_map_site.py:6 | "energy" is "Energy" in "Main nutrients" |
| NutrientsMapSite.EnergyMatches | scripts/nutrients_map_site.py:54-60 | `map_header_to_site_key("energy")` is `("Energy", "Main nutrients")` |
| NutrientsMapSite.MainInitialsAfterEnergy | scripts/nutrients_map_site.py:7-12 | no MAIN pattern after "Energy" starts with "e" |
| NutrientsMapSite.EnergyKcalClassified | scripts/nutrients_map_site.py:6 | "Energy (kcal)" is not a full match of any pattern |
| NutrientsMapSite.EnergyWithUnitIsUnknown | scripts/nutrients_map_site.py:54-60 | `map_header_to_site_key("Energy (kcal)")` is `(None, None)`: matching is full, not by prefix |
| NutrientsMapSite.MoistureClassified | scripts/nutrients_map_site.py:7 | "Moisture" is "Water" in "Main nutrients" |
| NutrientsMapSite.MoistureIsWater | scripts/nutrients_map_site.py:54-60 | `map_header_to_site_key("Moisture")` is `("Water", "Main nutrients")` |
| NutrientsMapSite.SingleWord | scripts/nutrients_map_site.py:6 | a one-word pattern full-matches exactly the strings of its length that spell it, ignoring case |
| NutrientsMapSite.NotTotalVitaminA | scripts/nutrients_map_site.py:31 | "Thiamine" does not match the vitamin A pattern |
| NutrientsMapSite.ThiaminePattern | scripts/nutrients_map_site.py:32 | `Thiamin(e)?` full-matches "Thiamine" |
| NutrientsMapSite.ThiamineClassified | scripts/nutrients_map_site.py:29-32 | "Thiamine" is "Thiamin" in "Vitamins" |
| NutrientsMapSite.ThiamineIsThiamin | scripts/nutrients_map_site.py:54-60 | `map_header_to_site_key("Thiamine")` is `("Thiamin", "Vitamins")` |
| Html.TrimLeft | scripts/nutrients_map_site.py:56 | the leading whitespace is cut and only whitespace is cut; the rest is a suffix of the input |
| Html.TrimRight | scripts/nutrients_map_site.py:56 | the trailing whitespace is cut and only whitespace is cut; the rest is a prefix of the input |
| Html.Trim | scripts/nutrients_map_site.py:56 | `strip()`: the result is no longer than the input and neither starts nor ends with whitespace |
| Html.TrimIsSliceBetweenSpaces | scripts/nutrients_map_site.py:56 | `strip()` keeps a slice of the input and everything it drops is whitespace |
| Html.TrimBlank | scripts/nutrients_map_site.py:56 | an all-whitespace string strips to "" |
| Html.TrimOfTrimmed | scripts/nutrients_map_site.py:56 | a string with no whitespace at either end strips to itself |
| Html.TrimIdempotent | scripts/nutrients_map_site.py:56 | stripping twice is stripping once |
| Html.LowerChar | assets/js/thaifcd-client.js:102 | ASCII upper-case letters map to lower case and every other character is unchanged, whitespace included |
| Html.SkipSpaces | scripts/scrape_thaifcd.py:98 | `\s*`: the first non-whitespace index at or after `i`; everything skipped is whitespace |
| Html.Concat | assets/js/thaifcd-client.js:36 | `textContent` of no node is "" and of one node is that node |
| Html.Pieces | scripts/scrape_thaifcd.py:87 | the stripped, non-blank text nodes: at most one per node, none empty or padded |
| Html.GetText | scripts/scrape_thaifcd.py:87-89 | `get_text(sep, strip=True)` is stripped, and empty exactly when every text node is blank |
| Html.Join | scripts/scrape_thaifcd.py:97 | `sep.join(pieces)`: the specification `GetText` is built on |
| Html.GetTextStripped | scripts/scrape_thaifcd.py:87-89 | the joined pieces are stripped, and empty iff every node is blank |
| Html.JoinStripped | scripts/scrape_thaifcd.py:87-89 | joining stripped non-empty pieces gives a stripped string, empty only for no pieces |
| Html.SingleNodeText | scripts/scrape_thaifcd.py:87 | for one text node, `get_text(strip=True)` and the trimmed `textContent` are both the stripped node |
| Html.PiecesEmpty | scripts/scrape_thaifcd.py:87 | no pieces are kept iff every text node is blank |
| Html.WideRows | scripts/scrape_thaifcd.py:84-86 | every kept row has at least three cells and is a row of the input, and every input row with at least three cells is kept |
| Html.WideRowsAppend | scripts/scrape_thaifcd.py:83-86 | filtering a concatenation filters each part, so the kept rows stay in input order |
| Html.WideRowsSingle | scripts/scrape_thaifcd.py:84-86 | one row is kept exactly when it has at least three cells |
| TableFill.SectionBucket | scripts/scrape_thaifcd.py:147-152 | each section title names a section map, never the extras, and the map's title is that title |
| TableFill.FillKeys | scripts/scrape_thaifcd.py:147-154 | a key is in a map exactly when some row writes it there |
| TableFill.FillLastWriter | scripts/scrape_thaifcd.py:147-154 | the last row writing a key decides its value |
| TableFill.FillSnoc | scripts/scrape_thaifcd.py:147-154 | one more row changes at most the key it writes |
| TableFill.Fill | scripts/scrape_thaifcd.py:147-154 | the specification of one section map: the rows' placements written in order; its properties are `FillKeys` and `FillLastWriter` |
| TableFill.Put | scripts/scrape_thaifcd.py:147-154 | the specification of one row's write (`sec[key] = value`): only a placement for this map changes it |
| PageText.RunEnd | scripts/scrape_thaifcd.py:98 | `[\d\.]+` greedy: the run ends at the first character outside the class |
| PageText.Search | scripts/scrape_thaifcd.py:98 | `re.search`: the first position where the marker starts and the rest of the pattern matches; none earlier; `None` iff there is no such position |
| PageText.SearchNeedsMarker | scripts/scrape_thaifcd.py:98-99 | a text without the marker word has no match |
| PageText.PhraseAt | scripts/scrape_thaifcd.py:98 | a matched phrase's unit is one the unit group captures at some position of the text |
| PageText.SearchFinds | scripts/scrape_thaifcd.py:98 | where no earlier occurrence of the marker matches, `re.search` returns the first occurrence that does |
| PageText.HundredGramsPhrase | scripts/scrape_thaifcd.py:98 | on "ปริมาณอาหาร ต่อ 100 กรัม" the phrase matches at the marker with the number "100" and the unit captured at "กรัม" |
| ScrapeThaifcd.IsNumChar | scripts/scrape_thaifcd.py:98 | `[\d\.]` of the basis regex, with Thai digits as `\d`; `HundredGramsBasis` uses it |
| ScrapeThaifcd.BasisPhraseAt | scripts/scrape_thaifcd.py:98 | the basis regex anchored at one position; `PageText.PhraseAt`, `PageText.SearchFinds` and `HundredGramsBasis` state its meaning |
| ScrapeThaifcd.ListingRowsAreWideRows | scripts/scrape_thaifcd.py:82-92 | one entry per row with at least three cells, in order: its three cell texts, and a detail URL exactly when the row has an anchor with `href`, joined to `BASE` |
| ScrapeThaifcd.ExtractSearchRows | scripts/scrape_thaifcd.py:76-93 | the loop returns the listing: nothing without a table, the header row skipped |
| ScrapeThaifcd.ListingRow | scripts/scrape_thaifcd.py:84-92 | the specification of one row's entry; `ListingRowsAreWideRows` states its meaning |
| ScrapeThaifcd.ListingRows | scripts/scrape_thaifcd.py:83-92 | the entries of the rows below the header, in order; `ListingRowsAreWideRows` states its meaning |
| ScrapeThaifcd.Listing | scripts/scrape_thaifcd.py:76-93 | the specification `ExtractSearchRows` is proved equal to |
| ScrapeThaifcd.RemoveDots | scripts/scrape_thaifcd.py:102 | `replace(".", "")`: no dot is left, and a string without dots is unchanged |
| ScrapeThaifcd.UnitAt | scripts/scrape_thaifcd.py:98 | the unit group `([กมล]\.?\|g\|ml\|กรัม\|มล)`: what it captures is the text at the position |
| ScrapeThaifcd.UnitName | scripts/scrape_thaifcd.py:102-103 | the stored unit has no dot |
| ScrapeThaifcd.PlainUnitName | scripts/scrape_thaifcd.py:102-103 | a capture without capitals or dots is stored as "g" for ก/กรัม/g, "ml" for มล/ml, else as itself |
| ScrapeThaifcd.DottedUnitName | scripts/scrape_thaifcd.py:102-103 | "ก.", "ม." and "ล." are stored as their letter without the dot |
| ScrapeThaifcd.CapturedUnitNames | scripts/scrape_thaifcd.py:98-103 | whatever the unit group captures is stored as "g", "ml", "ม" or "ล" |
| ScrapeThaifcd.ParseBasisUnits | scripts/scrape_thaifcd.py:95-104 | the basis unit is one of "g", "ml", "ม", "ล"; a basis with an amount has a unit |
| ScrapeThaifcd.ParseBasis | scripts/scrape_thaifcd.py:95-104 | a unit is set exactly when the phrase is found, even where the number does not parse; then the amount is `float` of the number and the unit its stored name; no phrase gives `{None, None}` |
| ScrapeThaifcd.HundredGramsBasis | scripts/scrape_thaifcd.py:95-104 | "ปริมาณอาหาร ต่อ 100 กรัม" gives the amount `float("100")` and the unit "g" |
| ScrapeThaifcd.LongUnitsUnreachable | scripts/scrape_thaifcd.py:98 | the alternatives "กรัม" and "มล" never capture |
| ScrapeThaifcd.GramCapturedAsAbbreviation | scripts/scrape_thaifcd.py:98-103 | "กรัม" is captured as "ก", stored as "g" |
| ScrapeThaifcd.MillilitreCapturedAsAbbreviation | scripts/scrape_thaifcd.py:98-103 | "มล" is captured as "ม", stored as "ม" |
| ScrapeThaifcd.NoPhraseNoBasis | scripts/scrape_thaifcd.py:96-99 | without the marker the basis is `{amount: None, unit: None}` |
| ScrapeThaifcd.GroupFrom | scripts/scrape_thaifcd.py:117 | a capture holds no "(" or "\|" and is stripped at both ends |
| ScrapeThaifcd.Strip | scripts/scrape_thaifcd.py:118 | `strip()` of a capture keeps it free of "(" and "\|" |
| ScrapeThaifcd.ParseGroup | scripts/scrape_thaifcd.py:112-118 | no marker node gives no group; a found group is stripped and holds no "(" or "\|" |
| ScrapeThaifcd.GroupIn | scripts/scrape_thaifcd.py:117-118 | the regex search on the element's text: a found group is stripped and holds no "(" or "\|" |
| ScrapeThaifcd.GroupAt | scripts/scrape_thaifcd.py:117 | the group regex tried at one position; `GroupAtColon` and `GroupContent` state its meaning |
| ScrapeThaifcd.GroupAtColon | scripts/scrape_thaifcd.py:117 | at the marker, with the first colon before any line break, the capture is the stripped text after the colon up to "(" or "\|" |
| ScrapeThaifcd.GroupContent | scripts/scrape_thaifcd.py:117-118 | at the first occurrence of the marker, the group is the stripped text after its first colon (no line break before it) up to the first "(" or "\|" |
| ScrapeThaifcd.SiteClassifierIsSound | scripts/scrape_thaifcd.py:143 | `map_header_to_site_key` is a sound classifier: key iff section, a site section, a non-empty key |
| ScrapeThaifcd.Route | scripts/scrape_thaifcd.py:144-154 | a routed row carries the row's value |
| ScrapeThaifcd.RouteIgnoresCursor | scripts/scrape_thaifcd.py:144 | under a sound answer, `mapped_sec or cur_section` never changes where a row goes |
| ScrapeThaifcd.RouteByAnswer | scripts/scrape_thaifcd.py:147-154 | a row lands in a section map under `k` iff its answer is `(k, section)`; in the extras under `k` iff there is no key and `k` is the non-empty header |
| ScrapeThaifcd.IsBoundaryRow | scripts/scrape_thaifcd.py:131 | a section-boundary row: one cell, or a first `th` with a non-empty `colspan`; `Placement` and `PlacementByClassifier` state its effect |
| ScrapeThaifcd.IsDataRow | scripts/scrape_thaifcd.py:131-137 | a row the walk reads as a nutrient: three or more cells and not a boundary; `Placement` and `SectionEntries` state its effect |
| ScrapeThaifcd.Head | scripts/scrape_thaifcd.py:139 | the header text `get_text(" ", strip=True)` of the first cell; `PlacementByClassifier` and `ExtraEntries` state its use |
| ScrapeThaifcd.RowValue | scripts/scrape_thaifcd.py:140-145 | the amount and unit texts, an empty unit stored as `None`; `Placement` states that the row is written with it |
| ScrapeThaifcd.Placement | scripts/scrape_thaifcd.py:127-154 | only a data row is written anywhere, and with its own value |
| ScrapeThaifcd.PlacementIgnoresCursor | scripts/scrape_thaifcd.py:143-144 | a row's placement does not depend on the section cursor |
| ScrapeThaifcd.Placements | scripts/scrape_thaifcd.py:126-154 | one placement per table row |
| ScrapeThaifcd.PlacementsAt | scripts/scrape_thaifcd.py:126-154 | the placement of row `j` is that row's own |
| ScrapeThaifcd.PlacementByClassifier | scripts/scrape_thaifcd.py:143-154 | row to section map iff its header classifies into that section; row to extras iff the header is unknown and not empty |
| ScrapeThaifcd.SectionEntries | scripts/scrape_thaifcd.py:122-154 | a section map holds `k` iff some data row's header classifies as `k` there, and the value is the last such row's |
| ScrapeThaifcd.ExtraEntries | scripts/scrape_thaifcd.py:153-154 | the extras hold `h` iff some data row has the unknown non-empty header `h`, with the last such row's value |
| ScrapeThaifcd.Unwritten | scripts/scrape_thaifcd.py:128-137 | a skipped row leaves every map unchanged |
| ScrapeThaifcd.WalkRow | scripts/scrape_thaifcd.py:127-154 | one pass of the row loop adds exactly that row's placement to every map; a boundary row moves the cursor to its stripped text when that is a section title, and every other row leaves the cursor unchanged |
| ScrapeThaifcd.StoreRow | scripts/scrape_thaifcd.py:143-154 | the if/elif chain writes the routed placement into its map and leaves the others alone |
| ScrapeThaifcd.WalkTable | scripts/scrape_thaifcd.py:122-154 | the four maps after the loop are the fills of the rows' placements |
| ScrapeThaifcd.ParseDetailPage | scripts/scrape_thaifcd.py:106-168 | the parsed page is the specification `DetailOf` |
| ScrapeThaifcd.Title | scripts/scrape_thaifcd.py:109-110 | no heading gives "(ไม่พบชื่อ)"; a heading gives its stripped text, which is "" exactly when every text node is blank |
| ScrapeThaifcd.DetailOf | scripts/scrape_thaifcd.py:106-168 | the specification `ParseDetailPage` is proved equal to; `DetailSection`, `DetailExtras` and `DetailStamp` state its meaning |
| ScrapeThaifcd.DetailSection | scripts/scrape_thaifcd.py:122-163 | a section of the parsed page holds `k` iff some data row classifies as `k` there, with the last such row's value; every key is one of that section's site keys |
| ScrapeThaifcd.DetailExtras | scripts/scrape_thaifcd.py:153-165 | the page's extras hold exactly the unknown non-empty headers, each with its last row's value |
| ScrapeThaifcd.DetailStamp | scripts/scrape_thaifcd.py:109-168 | the page records the URL and the attribution; a group is stripped, without "(" or "\|"; no table gives empty maps; no heading gives "(ไม่พบชื่อ)" |
| ScrapeThaifcd.YieldsStep | scripts/scrape_thaifcd.py:182-192 | a row with nothing to give leaves the items, and a row with an item appends it |
| ScrapeThaifcd.Yields | scripts/scrape_thaifcd.py:181-193 | the list the row loop appends to; `YieldsStep`, `YieldsAppend` and `YieldsFromRows` state its meaning |
| ScrapeThaifcd.YieldsAppend | scripts/scrape_thaifcd.py:182-192 | the rows of a first part yield before the rows of a second, so the items keep their rows' order |
| ScrapeThaifcd.ItemsFor | scripts/scrape_thaifcd.py:181-193 | the items the loop collects from the listing rows; `ItemsProvenance` and `YieldsAppend` state its meaning |
| ScrapeThaifcd.YieldsFromRows | scripts/scrape_thaifcd.py:181-193 | at most one item per row, each from some row, and one per row when every row gives one |
| ScrapeThaifcd.ItemForFetched | scripts/scrape_thaifcd.py:183-189 | a row gives an item iff it has a detail URL and the request succeeds; the item is that page parsed at the response URL, with the row's type |
| ScrapeThaifcd.ItemsProvenance | scripts/scrape_thaifcd.py:181-193 | every item of a keyword comes from one of its rows as above; no more items than rows, and one per row when every fetch succeeds |
| ScrapeThaifcd.ScrapeKeyword | scripts/scrape_thaifcd.py:170-193 | the loop returns the keyword's items: none when the search fails |
| ScrapeThaifcd.ItemFor | scripts/scrape_thaifcd.py:183-189 | the specification of one row's item; `ItemForFetched` states its meaning |
| ScrapeThaifcd.KeywordItems | scripts/scrape_thaifcd.py:170-193 | the specification `ScrapeKeyword` is proved equal to; `ItemsProvenance` states its meaning |
| ScrapeThaifcd.CollectedStep | scripts/scrape_thaifcd.py:204-211 | one more keyword merges its batch into what was collected |
| ScrapeThaifcd.Key | scripts/scrape_thaifcd.py:207 | the identity `(name, source_url)`; `UniqueSnoc`, `CollectedUnique` and `CollectedKeys` state its use |
| ScrapeThaifcd.KeySet | scripts/scrape_thaifcd.py:196-211 | the `seen` set as a function of the collected items; `KeySetSnoc` and `MergeBatch` state that `seen` equals it |
| ScrapeThaifcd.Collected | scripts/scrape_thaifcd.py:204-211 | `all_items` after the batches, in order; `CollectedStep`, `CollectedUnique`, `CollectedKeys` and `NothingCollected` state its meaning |
| ScrapeThaifcd.Batches | scripts/scrape_thaifcd.py:204-205 | one `scrape_keyword` batch per keyword; `BatchAt` states its meaning |
| ScrapeThaifcd.Writes | scripts/scrape_thaifcd.py:213-215 | one write per keyword |
| ScrapeThaifcd.WritesStep | scripts/scrape_thaifcd.py:204-215 | one more keyword adds one write, of everything collected so far |
| ScrapeThaifcd.WritesAt | scripts/scrape_thaifcd.py:213-215 | write `i` holds what the first `i + 1` keywords collected |
| ScrapeThaifcd.BatchAt | scripts/scrape_thaifcd.py:204-205 | batch `k` is keyword `k`'s items |
| ScrapeThaifcd.KeySetSnoc | scripts/scrape_thaifcd.py:207-211 | appending an item adds its (name, source URL) key to the seen set |
| ScrapeThaifcd.UniqueSnoc | scripts/scrape_thaifcd.py:207-211 | appending an item with an unseen key keeps the keys unique |
| ScrapeThaifcd.MergeProperties | scripts/scrape_thaifcd.py:206-211 | merging keeps the earlier items as a prefix, adds only batch items, keeps keys unique, and collects exactly the old keys plus the batch's |
| ScrapeThaifcd.FirstKept | scripts/scrape_thaifcd.py:206-211 | the first item of a batch with an unseen key is kept |
| ScrapeThaifcd.Merge | scripts/scrape_thaifcd.py:206-211 | the specification of the dedupe loop; `MergeProperties`, `FirstKept` and `MergeOrder` state its meaning |
| ScrapeThaifcd.MergeOrder | scripts/scrape_thaifcd.py:206-211 | the items a merge appends come from the batch in the order of their first occurrences there |
| ScrapeThaifcd.IndexIn | scripts/scrape_thaifcd.py:206 | the index of an item's first occurrence in the batch |
| ScrapeThaifcd.MergeBatch | scripts/scrape_thaifcd.py:206-211 | the dedupe loop returns the merge, and `seen` stays the set of collected keys |
| ScrapeThaifcd.Absorb | scripts/scrape_thaifcd.py:205-215 | one keyword's dedupe and write extend the collected items and the writes by that keyword |
| ScrapeThaifcd.HarvestKeyword | scripts/scrape_thaifcd.py:205-215 | one pass of the keyword loop scrapes the keyword, merges its items and writes the file |
| ScrapeThaifcd.Harvest | scripts/scrape_thaifcd.py:195-215 | after the loop the items are the keywords' batches merged in order, and the writes are one per keyword |
| ScrapeThaifcd.FlushesGrow | scripts/scrape_thaifcd.py:213-215 | each write extends the previous one: collected items stay, in place |
| ScrapeThaifcd.CollectedUnique | scripts/scrape_thaifcd.py:204-211 | no two collected items share a (name, source URL) key |
| ScrapeThaifcd.CollectedKeys | scripts/scrape_thaifcd.py:204-211 | a key is collected iff some keyword's batch has it |
| ScrapeThaifcd.NothingCollected | scripts/scrape_thaifcd.py:204-211 | all-empty batches collect nothing |
| ScrapeThaifcd.EmptyHarvestStillWritten | scripts/scrape_thaifcd.py:204-215 | all-empty batches still give one write per keyword, each of an empty list |
| ScrapeThaifcd.ScrapeThaiFcd | scripts/scrape_thaifcd.py:195-217 | `main` with `map_header_to_site_key` collects the merged batches and writes after every keyword |
| ThaifcdClient.ListingRowsAreWideRows | assets/js/thaifcd-client.js:29-41 | one entry per row with at least three cells, in order: the trimmed cell texts, and a URL exactly when the row's anchor has a non-empty `href` |
| ThaifcdClient.ParseSearchHTML | assets/js/thaifcd-client.js:24-43 | the loop returns the listing: nothing without a table, the header row skipped |
| ThaifcdClient.ListingRow | assets/js/thaifcd-client.js:31-39 | the specification of one row's entry; `ListingRowsAreWideRows` states its meaning |
| ThaifcdClient.ListingRows | assets/js/thaifcd-client.js:30-41 | the entries of the rows after the header, in order; `ListingRowsAreWideRows` states its meaning |
| ThaifcdClient.Listing | assets/js/thaifcd-client.js:24-43 | the specification `ParseSearchHTML` is proved equal to |
| ThaifcdClient.EntriesAgree | assets/js/thaifcd-client.js:33-39 | on single-node cells both parsers read the same fields; only the scraper has a URL iff `href` is "" |
| ThaifcdClient.PlainText | assets/js/thaifcd-client.js:36-38 | for a single text node, the trimmed `textContent` is BeautifulSoup's stripped text |
| ThaifcdClient.TextOf | assets/js/thaifcd-client.js:36-38 | `textContent.trim()`; `PlainText`, `Title` and `BlankConcat` state its meaning |
| ThaifcdClient.ListingsAgree | assets/js/thaifcd-client.js:24-43 | for tables whose cells are each one text node, client and scraper listings have the same length and fields, and differ in links exactly at rows whose `href` is "" |
| ThaifcdClient.Title | assets/js/thaifcd-client.js:48 | the name is never empty: a heading with non-blank text gives that text trimmed, and no heading or a blank one gives "(ไม่พบชื่อ)" |
| ThaifcdClient.BlankHeadingNames | assets/js/thaifcd-client.js:48 | for a blank heading the client uses the placeholder and the scraper "" |
| ThaifcdClient.BlankConcat | assets/js/thaifcd-client.js:48 | the `textContent` of blank nodes is all whitespace |
| ThaifcdClient.Capture | assets/js/thaifcd-client.js:53 | `([^\n(]+)`: the capture has no line break or "(", and is stripped |
| ThaifcdClient.Stripped | assets/js/thaifcd-client.js:54 | `trim()` keeps the capture free of line breaks and "(" |
| ThaifcdClient.GroupAt | assets/js/thaifcd-client.js:53 | a group matched at a marker has no line break or "(", and is stripped |
| ThaifcdClient.ParseGroup | assets/js/thaifcd-client.js:51-54 | a found group is trimmed and has no line break or "(" |
| ThaifcdClient.GroupAtColon | assets/js/thaifcd-client.js:53-54 | at the marker, spaces, a colon and spaces, the group is the trimmed text up to the first line break or "(" |
| ThaifcdClient.CaptureStart | assets/js/thaifcd-client.js:53 | the capture starts at a character that is not whitespace, a line break or "(" |
| ThaifcdClient.GroupContent | assets/js/thaifcd-client.js:51-54 | at the first occurrence of the marker, followed by spaces, a colon and spaces, the group is the trimmed text from there up to the first line break or "(" |
| ThaifcdClient.GroupNeedsMarker | assets/js/thaifcd-client.js:53-54 | without the marker there is no group |
| ThaifcdClient.BasisUnits | assets/js/thaifcd-client.js:56-63 | the unit is "g" or "ml"; without the marker word the basis is 100 g |
| ThaifcdClient.ParseBasis | assets/js/thaifcd-client.js:56-63 | no matching phrase gives 100 g; a match gives `Number` of the number and the unit's name |
| ThaifcdClient.HundredGramsBasis | assets/js/thaifcd-client.js:56-63 | "ปริมาณอาหาร ต่อ 100 กรัม" gives the amount `Number("100")` and the unit "g" |
| ThaifcdClient.IsNumChar | assets/js/thaifcd-client.js:58 | `[\d\.]` without the `u` flag: ASCII digits and the dot; `HundredGramsBasis` uses it |
| ThaifcdClient.PhraseAt | assets/js/thaifcd-client.js:58 | the basis regex anchored at one position; `ParseBasis` and `HundredGramsBasis` state its meaning |
| ThaifcdClient.GramsCaptured | assets/js/thaifcd-client.js:58-62 | at "กรัม" the whole word is captured, and it names grams |
| ThaifcdClient.UnitAt | assets/js/thaifcd-client.js:58 | the unit group `(กรัม\|ก\|g\|มล\|ml)`: what it captures is the text at the position |
| ThaifcdClient.UnitName | assets/js/thaifcd-client.js:61-62 | the unit is "g" or "ml" |
| ThaifcdClient.UnitNames | assets/js/thaifcd-client.js:58-62 | the unit is "ml" iff "มล" or "ml" (any case) was captured |
| ThaifcdClient.MapHeaderToSiteKey | assets/js/thaifcd-client.js:101-132 | any key returned is one of the chain's keys, never empty; which header gives each key, and when the answer is `null`, is stated by `NamedHeaders`, `CarbohydratePrefix`, `DietaryFibre`, `LaterMineralHeaders`, `LaterVitaminHeaders`, `TotalVitaminAHeader` and `UnknownHeaders`, each through `ChainOfLower` |
| ThaifcdClient.NamedTests | assets/js/thaifcd-client.js:105-108 | the first four tests give only main-nutrient keys, never Carbohydrate or Dietary fibre |
| ThaifcdClient.ChainOfLower | assets/js/thaifcd-client.js:102-110 | the chain's answer depends only on the lower-cased header: the tests against "Energy", "Water", "Protein" and "Fat" as written add nothing to the lower-case tests |
| ThaifcdClient.NamedHeaders | assets/js/thaifcd-client.js:102-108 | the chain gives Energy, Water, Protein or Fat exactly when the lower-cased header is that name |
| ThaifcdClient.LaterTests | assets/js/thaifcd-client.js:111-131 | the tests after fibre give chain keys other than carbohydrate and fibre; `LaterTestsNone`, `LaterMineralHeaders`, `LaterVitaminHeaders` and `TotalVitaminAHeader` state which header gives which key |
| ThaifcdClient.LaterMineralHeaders | assets/js/thaifcd-client.js:111-118 | the chain gives Ash, Sodium, Potassium, Calcium, Iron or Iodine exactly when the lower-cased header is that name |
| ThaifcdClient.LaterVitaminHeaders | assets/js/thaifcd-client.js:122-127 | the chain gives Retinol, Riboflavin, Niacin and Vitamin E exactly when the lower-cased header is that name, and Thiamin exactly for "thiamin" or "thiamine" |
| ThaifcdClient.TotalVitaminAHeader | assets/js/thaifcd-client.js:109-123 | Total vitamin A (RAE) exactly for a header containing "total vitamin a" in any case that neither starts with "carbohydrate" nor contains a fibre phrase |
| ThaifcdClient.LaterTestsNone | assets/js/thaifcd-client.js:111-131 | the later tests all fail exactly for headers outside their twelve names that do not contain "total vitamin a" |
| ThaifcdClient.UnknownHeaders | assets/js/thaifcd-client.js:102-131 | `null` exactly when the lower-cased header is none of the sixteen exact names, does not start with "carbohydrate" and contains no fibre phrase and no "total vitamin a" |
| ThaifcdClient.MapIgnoresSection | assets/js/thaifcd-client.js:101 | the section argument never changes the answer |
| ThaifcdClient.CarbohydratePrefix | assets/js/thaifcd-client.js:109 | "Carbohydrate" iff the lower-cased header starts with "carbohydrate" |
| ThaifcdClient.DietaryFibre | assets/js/thaifcd-client.js:110 | "Dietary fibre" iff the header has "dietary fibre" or "dietary fiber" and is not a carbohydrate header |
| ThaifcdClient.SiteKey | scripts/nutrients_map_site.py:45-52 | each key of a section table is a site key of that section |
| ThaifcdClient.MainChainKeysAreSiteKeys | assets/js/thaifcd-client.js:104-111 | the client's main-nutrient keys are the scraper's "Main nutrients" keys |
| ThaifcdClient.MineralChainKeysAreSiteKeys | assets/js/thaifcd-client.js:113-118 | the client's mineral keys are the scraper's "Minerals" keys |
| ThaifcdClient.VitaminChainKeysAreSiteKeys | assets/js/thaifcd-client.js:121-127 | the client's vitamin keys are the scraper's "Vitamins" keys |
| ThaifcdClient.LaterVitaminChainKeysAreSiteKeys | assets/js/thaifcd-client.js:125-127 | riboflavin, niacin and vitamin E are "Vitamins" keys |
| ThaifcdClient.ChainKeysAreSiteKeys | assets/js/thaifcd-client.js:100-132 | every key the client can return is a site key of some section |
| ThaifcdClient.Cursor | assets/js/thaifcd-client.js:66-76 | the cursor is unset or one of the three section titles |
| ThaifcdClient.NextCursor | assets/js/thaifcd-client.js:73-76 | the specification of one row's effect on the cursor; `CursorNeedsName` and `CursorIsLastNamed` state its meaning |
| ThaifcdClient.IsBoundaryRow | assets/js/thaifcd-client.js:73 | a section-boundary row: one cell, or a first `TH` with a `colspan` attribute of any value; `CursorIsLastNamed` and `Placement` state its effect |
| ThaifcdClient.NamesSection | assets/js/thaifcd-client.js:74-75 | a boundary row whose trimmed text is one of the three section titles; `CursorNeedsName` and `CursorIsLastNamed` state its effect |
| ThaifcdClient.IsDataRow | assets/js/thaifcd-client.js:73-78 | a row read as a nutrient: three or more cells and not a boundary; `Stored` states its effect |
| ThaifcdClient.Head | assets/js/thaifcd-client.js:80 | the trimmed text of the first cell; `Stored` and `PlacementFiled` state its use |
| ThaifcdClient.RowValue | assets/js/thaifcd-client.js:81-86 | the amount and unit texts, an empty unit stored as `null`; `Placement` states that the row is written with it |
| ThaifcdClient.Placement | assets/js/thaifcd-client.js:78-87 | only a data row is written, with its own value, and never to extras (the client has none) |
| ThaifcdClient.Placements | assets/js/thaifcd-client.js:69-88 | one placement per table row |
| ThaifcdClient.PlacementsAt | assets/js/thaifcd-client.js:69-88 | row `j` is placed under the cursor left by the rows before it |
| ThaifcdClient.CursorNeedsName | assets/js/thaifcd-client.js:73-76 | the cursor is unset iff no boundary row names a section |
| ThaifcdClient.CursorIsLastNamed | assets/js/thaifcd-client.js:73-76 | the cursor is the last section named by a boundary row; other boundary text leaves it |
| ThaifcdClient.Stored | assets/js/thaifcd-client.js:84-87 | a row is stored iff it is a data row, its header maps to a key, and an earlier row named a section |
| ThaifcdClient.PlacementFiled | assets/js/thaifcd-client.js:84-87 | a row lands in section `s` under `k` iff its header maps to `k` under cursor `s` |
| ThaifcdClient.SectionEntries | assets/js/thaifcd-client.js:65-89 | a section holds `k` iff some row is filed there under `k`, with the last such row's value |
| ThaifcdClient.WalkRows | assets/js/thaifcd-client.js:65-89 | the loop's three maps are the fills of the rows' placements |
| ThaifcdClient.WalkRow | assets/js/thaifcd-client.js:70-88 | one row moves the cursor as `NextCursor` says and puts the row's value in the three maps exactly as its placement says: nothing for an empty, boundary, short or unmapped row or a row before any section |
| ThaifcdClient.StoreRow | assets/js/thaifcd-client.js:85-87 | the value is written under the key in the map of the row's section, and the other two maps are unchanged |
| ThaifcdClient.ParseDetailHTML | assets/js/thaifcd-client.js:45-98 | the parsed page is the specification `DetailOf` |
| ThaifcdClient.DetailOf | assets/js/thaifcd-client.js:45-98 | the specification `ParseDetailHTML` is proved equal to; `DetailSection` and `DetailStamp` state its meaning |
| ThaifcdClient.DetailSection | assets/js/thaifcd-client.js:65-97 | a section holds `k` iff a row is filed there under `k`, with the last value; every key is a site key of some section |
| ThaifcdClient.DetailStamp | assets/js/thaifcd-client.js:48-97 | the page records its URL and a non-empty name; a group is trimmed; no table gives empty sections; no heading gives the placeholder |

## Left out

- The network is a parameter, `Web`. It covers the session, retries and backoff, timeouts, `raise_for_status`, the preflight request, `sleep_jitter` and `fetch`. Each search or detail request is a function from keyword or URL to an answer, or to `None` where the request raises.
- HTML parsing is not modelled. BeautifulSoup and `DOMParser` are represented by the parts of the page the code reads (`ListingDoc`, `Soup`, `Dom`).
- `urljoin`, `new URL(...).toString()`, Python `float` and JavaScript `Number` are parameters (`Lib`, `Runtime`). A `float` that raises is `None`. `Number`'s NaN is `None`.
- The URL resolvers `Lib.urljoin` and `Runtime.resolve` are total, so the model leaves out their failures. `urljoin` raises ValueError on a malformed `href` such as "http://[". `extract_search_rows` is called outside any `try` (scripts/scrape_thaifcd.py:178), so one such link ends the whole run after the writes already made. `new URL` throws TypeError on an invalid URL, which aborts `parseSearchHTML`.
- JSON encoding, the temporary file, `Path.replace` and printing are left out. Each write of the output file is recorded as the item list it would contain (`flushes`).
- `KEYWORDS` from the environment is a parameter, and so are the other settings read at import.
- `document.body.innerText` layout is left out: it is a parameter string.
- Regular expressions are not modelled in general. Each one the core uses is written out as its own scan: the header patterns, the basis phrase and the two group captures.
- Whitespace is the ASCII whitespace set, and case-insensitivity is ASCII only. Python's `\s`, `\d`, `str.strip` and `re.I` also cover other Unicode characters: `strip` removes \x1c-\x1f and U+00A0, for example. The model's `IsNumChar` accepts Thai digits as `\d` does.
- JavaScript's `trim` and `\s` also treat U+00A0 and U+FEFF as whitespace, and `toLowerCase` lowers non-ASCII letters. The model's `Trim`, `SkipSpaces` and `Lower` cover only the ASCII cases.
- Dictionaries are modelled as maps, so their insertion order is not part of the model.
- ScrapeThaifcd.WalkTable: proved for any sound classifier, not only for `map_header_to_site_key`. `ScrapeThaiFcd` instantiates it with the site's classifier.
- ThaifcdClient.WalkRows: proved for any header map. `ParseDetailHTML` instantiates it with `mapHeaderToSiteKey`.
- The client's exported `searchThaiFCD` and `fetchDetail` are `fetch` wrappers and are left out. Their parsers are modelled.
