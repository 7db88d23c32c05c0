/** The header classifier of scripts/nutrients_map_site.py: the site's nutrient
    names in three section tables, each name with the case-insensitive pattern its
    column headers are matched against, and the first-match lookup over them. */
module NutrientsMapSite {
  import opened Html
  import opened TableFill

  /** One piece of a pattern: a choice among literal spellings, each written in
      lower case (a plain word is a choice of one, `X?` is a choice of `X` and ""),
      or `\s*`, any run of whitespace. */
  datatype Token = Text(spellings: seq<string>) | Blanks

  /** A pattern is the alternatives of its top-level `|`, each a sequence of tokens. */
  type Pattern = seq<seq<Token>>

  function Word(w: string): Token { Text([w]) }
  function Optional(w: string): Token { Text([w, ""]) }

  /** `w` (lower case) is a prefix of `s` when `s` is lower-cased. */
  predicate PrefixIgnoringCase(w: string, s: string)
    decreases |w|
  {
    w == [] || (s != [] && LowerChar(s[0]) == w[0] && PrefixIgnoringCase(w[1..], s[1..]))
  }

  /** The whole of `s` matches the token sequence `ts`, ignoring case. */
  predicate MatchTokens(ts: seq<Token>, s: string)
    decreases |ts|, 1, |s|
  {
    if ts == [] then s == []
    else match ts[0]
      case Blanks => MatchTokens(ts[1..], s) || (s != [] && IsSpace(s[0]) && MatchTokens(ts, s[1..]))
      case Text(ws) => MatchSpellings(ws, ts[1..], s)
  }

  /** Some spelling in `ws` starts `s` and the rest of `s` matches `rest`. */
  predicate MatchSpellings(ws: seq<string>, rest: seq<Token>, s: string)
    decreases |rest| + 1, 0, |ws|
  {
    ws != [] &&
    ((|ws[0]| <= |s| && PrefixIgnoringCase(ws[0], s) && MatchTokens(rest, s[|ws[0]|..]))
     || MatchSpellings(ws[1..], rest, s))
  }

  /** `re.compile(pattern, re.I).fullmatch(s)` succeeds. */
  predicate FullMatch(p: Pattern, s: string) {
    p != [] && (MatchTokens(p[0], s) || FullMatch(p[1..], s))
  }

  /** One element of `ALL`: a pattern, the site's key for it, and its section title. */
  datatype Entry = Entry(pattern: Pattern, key: string, section: string)

  // The three section tables, in the order their entries are written in the source.
  // `Fat(?!.*saturated)` is the word "fat": under a full match the look-ahead
  // runs at the end of the string, where `.*saturated` can never match.
  const MAIN: seq<(Pattern, string)> := [
    ([[Word("energy")]], "Energy"),
    ([[Word("water")], [Word("moisture")]], "Water"),
    ([[Word("protein")]], "Protein"),
    ([[Word("fat")]], "Fat"),
    ([[Word("carbohydrate"), Optional("s")]], "Carbohydrate"),
    ([[Word("dietary"), Blanks, Word("fibre")], [Word("dietary"), Blanks, Word("fiber")], [Word("fiber")]], "Dietary fibre"),
    ([[Word("ash")]], "Ash")
  ]

  const MINERALS: seq<(Pattern, string)> := [
    ([[Word("iodine")]], "Iodine"),
    ([[Word("sodium")]], "Sodium"),
    ([[Word("potassium")]], "Potassium"),
    ([[Word("calcium")]], "Calcium"),
    ([[Word("magnesium")]], "Magnesium"),
    ([[Word("phosphorus")]], "Phosphorus"),
    ([[Word("iron")]], "Iron"),
    ([[Word("zinc")]], "Zinc"),
    ([[Word("copper")]], "Copper"),
    ([[Word("manganese")]], "Manganese"),
    ([[Word("selenium")]], "Selenium")
  ]

  const VITAMINS: seq<(Pattern, string)> := [
    ([[Word("retinol")]], "Retinol"),
    ([[Word("total"), Blanks, Word("vitamin"), Blanks, Word("a"), Blanks, Word("(rae)")],
      [Word("vitamin"), Blanks, Word("a"), Blanks, Word("(rae)")]], "Total vitamin A (RAE)"),
    ([[Word("thiamin"), Optional("e")]], "Thiamin"),
    ([[Word("riboflavin")]], "Riboflavin"),
    ([[Word("niacin")]], "Niacin"),
    ([[Word("vitamin"), Blanks, Word("e")]], "Vitamin E"),
    ([[Word("vitamin"), Blanks, Word("c")], [Word("ascorbic")]], "Vitamin C"),
    ([[Word("vitamin"), Blanks, Word("d")]], "Vitamin D"),
    ([[Word("vitamin"), Blanks, Word("k")]], "Vitamin K"),
    ([[Word("vitamin"), Blanks, Word("b6")], [Word("pyridox"), Text(["ine", "al"])]], "Vitamin B6"),
    ([[Word("folate")], [Word("folic"), Blanks, Word("acid")]], "Folate"),
    ([[Word("vitamin"), Blanks, Word("b12")], [Word("cobalamin")]], "Vitamin B12"),
    ([[Word("beta"), Optional("-"), Word("carotene")], [Word("β"), Optional("-"), Word("carotene")]], "Beta-carotene")
  ]

  /** The entries of one section table, each tagged with the section's title. */
  function Tagged(group: seq<(Pattern, string)>, section: string): seq<Entry> {
    seq(|group|, i requires 0 <= i < |group| => Entry(group[i].0, group[i].1, section))
  }

  /** Every pattern of the site, Main nutrients first, then Minerals, then Vitamins. */
  const ALL: seq<Entry> := Tagged(MAIN, MainNutrients) + Tagged(MINERALS, Minerals) + Tagged(VITAMINS, Vitamins)

  /** The section table a section title names. */
  function SectionTable(section: string): seq<(Pattern, string)>
    requires IsSectionName(section)
  {
    if section == MainNutrients then MAIN else if section == Minerals then MINERALS else VITAMINS
  }

  /** `key` is one of the keys of the table of `section`. */
  predicate KeyOfSection(key: string, section: string) {
    IsSectionName(section) && exists i :: 0 <= i < |SectionTable(section)| && SectionTable(section)[i].1 == key
  }

  /** The index of the first entry of `t` whose pattern fully matches `h`. */
  function FirstMatch(t: seq<Entry>, h: string): (r: Option<nat>)
    ensures r.Some? ==> r.value < |t| && FullMatch(t[r.value].pattern, h)
    ensures r.Some? ==> forall j :: 0 <= j < r.value ==> !FullMatch(t[j].pattern, h)
    ensures r.None? ==> forall j :: 0 <= j < |t| ==> !FullMatch(t[j].pattern, h)
  {
    if t == [] then None
    else if FullMatch(t[0].pattern, h) then Some(0)
    else match FirstMatch(t[1..], h)
      case None => None
      case Some(i) => Some(i + 1)
  }

  /** The loop of `map_header_to_site_key` over a table `t`: the key and section of the
      first entry that matches, or `(None, None)`. */
  function Classify(t: seq<Entry>, h: string): (r: (Option<string>, Option<string>))
    ensures r.0.Some? <==> r.1.Some?
  {
    match FirstMatch(t, h)
    case Some(i) => (Some(t[i].key), Some(t[i].section))
    case None => (None, None)
  }

  /** `map_header_to_site_key(header_text)`: a missing header counts as "", the header
      is stripped, and the first matching entry of `ALL` gives key and section, which
      are both present or both absent; the section is a site section, and the key is
      one of that section's table. */
  function MapHeaderToSiteKey(headerText: Option<string>): (r: (Option<string>, Option<string>))
    ensures r.0.Some? <==> r.1.Some?
    ensures r.1.Some? ==> IsSectionName(r.1.value) && KeyOfSection(r.0.value, r.1.value)
    ensures r.0.Some? ==> r.0.value != []
  {
    var r := Classify(ALL, Trim(headerText.GetOr("")));
    AllEntriesBelongToTheirSection();
    r
  }

  /** Every entry of `ALL` carries a site section, and its key, never empty, comes from
      that section's table. */
  lemma AllEntriesBelongToTheirSection()
    ensures forall i :: 0 <= i < |ALL| ==> IsSectionName(ALL[i].section) && KeyOfSection(ALL[i].key, ALL[i].section)
    ensures forall i :: 0 <= i < |ALL| ==> ALL[i].key != []
  {
    KeysNonEmpty();
    forall i | 0 <= i < |ALL|
      ensures IsSectionName(ALL[i].section) && KeyOfSection(ALL[i].key, ALL[i].section) && ALL[i].key != []
    {
      var m, n := |MAIN|, |MINERALS|;
      if i < m {
        assert ALL[i] == Tagged(MAIN, MainNutrients)[i];
        assert SectionTable(ALL[i].section)[i].1 == ALL[i].key;
      } else if i < m + n {
        assert ALL[i] == Tagged(MINERALS, Minerals)[i - m];
        assert SectionTable(ALL[i].section)[i - m].1 == ALL[i].key;
      } else {
        assert ALL[i] == Tagged(VITAMINS, Vitamins)[i - m - n];
        assert SectionTable(ALL[i].section)[i - m - n].1 == ALL[i].key;
      }
    }
  }

  lemma KeysNonEmpty()
    ensures forall i :: 0 <= i < |MAIN| ==> MAIN[i].1 != []
    ensures forall i :: 0 <= i < |MINERALS| ==> MINERALS[i].1 != []
    ensures forall i :: 0 <= i < |VITAMINS| ==> VITAMINS[i].1 != []
  {
  }

  /** A first match is unique: the entry the search stops at is the first one that matches. */
  lemma FirstMatchIsFirst(t: seq<Entry>, h: string, i: nat)
    requires i < |t| && FullMatch(t[i].pattern, h)
    requires forall j :: 0 <= j < i ==> !FullMatch(t[j].pattern, h)
    ensures FirstMatch(t, h) == Some(i)
  {
  }

  /** The index of an entry of the Minerals or Vitamins table within `ALL`. */
  lemma AllLayout()
    ensures |ALL| == |MAIN| + |MINERALS| + |VITAMINS|
    ensures forall i :: 0 <= i < |MAIN| ==> ALL[i] == Entry(MAIN[i].0, MAIN[i].1, MainNutrients)
    ensures forall i :: 0 <= i < |MINERALS| ==> ALL[|MAIN| + i] == Entry(MINERALS[i].0, MINERALS[i].1, Minerals)
    ensures forall i :: 0 <= i < |VITAMINS| ==> ALL[|MAIN| + |MINERALS| + i] == Entry(VITAMINS[i].0, VITAMINS[i].1, Vitamins)
  {
  }

  /** A header that matches no pattern of any table is classified `(None, None)`. */
  lemma {:induction false} UnmatchedHeader(h: string)
    requires forall i :: 0 <= i < |MAIN| ==> !FullMatch(MAIN[i].0, h)
    requires forall i :: 0 <= i < |MINERALS| ==> !FullMatch(MINERALS[i].0, h)
    requires forall i :: 0 <= i < |VITAMINS| ==> !FullMatch(VITAMINS[i].0, h)
    ensures Classify(ALL, h) == (None, None)
  {
    AllLayout();
    var m, n := |MAIN|, |MINERALS|;
    forall j | 0 <= j < |ALL| ensures !FullMatch(ALL[j].pattern, h) {
      if m <= j < m + n {
        assert ALL[m + (j - m)].pattern == MINERALS[j - m].0;
      } else if j >= m + n {
        assert ALL[m + n + (j - m - n)].pattern == VITAMINS[j - m - n].0;
      }
    }
  }

  /** Main nutrients are tried first, in table order. */
  lemma {:induction false} ClassifiedAsMainNutrient(h: string, i: nat)
    requires i < |MAIN| && FullMatch(MAIN[i].0, h)
    requires forall j :: 0 <= j < i ==> !FullMatch(MAIN[j].0, h)
    ensures Classify(ALL, h) == (Some(MAIN[i].1), Some(MainNutrients))
  {
    AllLayout();
    FirstMatchIsFirst(ALL, h, i);
  }

  /** Minerals are tried after every Main nutrient, in table order. */
  lemma {:induction false} ClassifiedAsMineral(h: string, i: nat)
    requires forall j :: 0 <= j < |MAIN| ==> !FullMatch(MAIN[j].0, h)
    requires i < |MINERALS| && FullMatch(MINERALS[i].0, h)
    requires forall j :: 0 <= j < i ==> !FullMatch(MINERALS[j].0, h)
    ensures Classify(ALL, h) == (Some(MINERALS[i].1), Some(Minerals))
  {
    AllLayout();
    var k := |MAIN| + i;
    forall j | 0 <= j < k ensures !FullMatch(ALL[j].pattern, h) {
      if j >= |MAIN| {
        assert ALL[|MAIN| + (j - |MAIN|)].pattern == MINERALS[j - |MAIN|].0;
      }
    }
    FirstMatchIsFirst(ALL, h, k);
  }

  /** Vitamins are tried last, in table order. */
  lemma {:induction false} ClassifiedAsVitamin(h: string, i: nat)
    requires forall j :: 0 <= j < |MAIN| ==> !FullMatch(MAIN[j].0, h)
    requires forall j :: 0 <= j < |MINERALS| ==> !FullMatch(MINERALS[j].0, h)
    requires i < |VITAMINS| && FullMatch(VITAMINS[i].0, h)
    requires forall j :: 0 <= j < i ==> !FullMatch(VITAMINS[j].0, h)
    ensures Classify(ALL, h) == (Some(VITAMINS[i].1), Some(Vitamins))
  {
    AllLayout();
    var m, n := |MAIN|, |MINERALS|;
    var k := m + n + i;
    forall j | 0 <= j < k ensures !FullMatch(ALL[j].pattern, h) {
      if m <= j < m + n {
        assert ALL[m + (j - m)].pattern == MINERALS[j - m].0;
      } else if j >= m + n {
        assert ALL[m + n + (j - m - n)].pattern == VITAMINS[j - m - n].0;
      }
    }
    FirstMatchIsFirst(ALL, h, k);
  }

  /** Lower-casing `s` first does not change a case-insensitive prefix test. */
  lemma {:induction false} PrefixIgnoresCase(w: string, s: string)
    ensures PrefixIgnoringCase(w, s) == PrefixIgnoringCase(w, Lower(s))
    decreases |w|
  {
    if w != [] && s != [] {
      assert Lower(s)[1..] == Lower(s[1..]);
      PrefixIgnoresCase(w[1..], s[1..]);
    }
  }

  lemma {:induction false} MatchTokensIgnoresCase(ts: seq<Token>, s: string)
    ensures MatchTokens(ts, s) == MatchTokens(ts, Lower(s))
    decreases |ts|, 1, |s|
  {
    if ts != [] {
      match ts[0]
      case Blanks =>
        MatchTokensIgnoresCase(ts[1..], s);
        if s != [] {
          assert Lower(s)[1..] == Lower(s[1..]);
          MatchTokensIgnoresCase(ts, s[1..]);
        }
      case Text(ws) =>
        MatchSpellingsIgnoresCase(ws, ts[1..], s);
    }
  }

  lemma {:induction false} MatchSpellingsIgnoresCase(ws: seq<string>, rest: seq<Token>, s: string)
    ensures MatchSpellings(ws, rest, s) == MatchSpellings(ws, rest, Lower(s))
    decreases |rest| + 1, 0, |ws|
  {
    if ws != [] {
      PrefixIgnoresCase(ws[0], s);
      if |ws[0]| <= |s| {
        assert Lower(s)[|ws[0]|..] == Lower(s[|ws[0]|..]);
        MatchTokensIgnoresCase(rest, s[|ws[0]|..]);
      }
      MatchSpellingsIgnoresCase(ws[1..], rest, s);
    }
  }

  lemma {:induction false} FullMatchIgnoresCase(p: Pattern, s: string)
    ensures FullMatch(p, s) == FullMatch(p, Lower(s))
  {
    if p != [] {
      MatchTokensIgnoresCase(p[0], s);
      FullMatchIgnoresCase(p[1..], s);
    }
  }

  /** Two headers that every pattern treats alike are classified alike. */
  lemma {:induction false} FirstMatchAgrees(t: seq<Entry>, s1: string, s2: string)
    requires forall i :: 0 <= i < |t| ==> FullMatch(t[i].pattern, s1) == FullMatch(t[i].pattern, s2)
    ensures FirstMatch(t, s1) == FirstMatch(t, s2)
  {
    if t != [] {
      FirstMatchAgrees(t[1..], s1, s2);
    }
  }

  /** Any table classifies two strings alike when they are equal once lower-cased. */
  lemma ClassifyIgnoresCase(t: seq<Entry>, s1: string, s2: string)
    requires Lower(s1) == Lower(s2)
    ensures Classify(t, s1) == Classify(t, s2)
  {
    forall i | 0 <= i < |t| ensures FullMatch(t[i].pattern, s1) == FullMatch(t[i].pattern, s2) {
      FullMatchIgnoresCase(t[i].pattern, s1);
      FullMatchIgnoresCase(t[i].pattern, s2);
    }
    FirstMatchAgrees(t, s1, s2);
  }

  /** Matching ignores case and surrounding whitespace: headers equal once stripped
      and lower-cased get the same key and section. */
  lemma MapHeaderIgnoresCaseAndPadding(h1: string, h2: string)
    requires Lower(Trim(h1)) == Lower(Trim(h2))
    ensures MapHeaderToSiteKey(Some(h1)) == MapHeaderToSiteKey(Some(h2))
  {
    ClassifyIgnoresCase(ALL, Trim(h1), Trim(h2));
  }

  /** The stripped header decides: a header that is already stripped is classified as it is. */
  lemma StrippedHeader(h: string)
    requires Trim(h) == h
    ensures MapHeaderToSiteKey(Some(h)) == Classify(ALL, h)
  {
  }

  /** Every alternative of `p` starts with a choice of non-empty spellings, none of
      which begins with `c`: so `p` matches neither "" nor any string starting with `c`. */
  predicate CannotStartWith(p: Pattern, c: char) {
    forall alt: seq<Token> | alt in p ::
      alt != [] && alt[0].Text? && forall w: string | w in alt[0].spellings :: w != [] && w[0] != c
  }

  /** No alternative of `p` can get past its first token on `s`: each starts with a choice
      of spellings, none of which is a prefix of `s`. */
  predicate FirstWordsMiss(p: Pattern, s: string) {
    forall alt: seq<Token> | alt in p ::
      alt != [] && alt[0].Text? && forall w: string | w in alt[0].spellings :: !PrefixIgnoringCase(w, s)
  }

  lemma {:induction false} SpellingsMiss(ws: seq<string>, rest: seq<Token>, s: string)
    requires forall w: string | w in ws :: !PrefixIgnoringCase(w, s)
    ensures !MatchSpellings(ws, rest, s)
  {
    if ws != [] {
      assert ws[0] in ws;
      assert forall w: string | w in ws[1..] :: w in ws;
      SpellingsMiss(ws[1..], rest, s);
    }
  }

  /** A pattern whose every alternative fails on its first word does not match. */
  lemma {:induction false} FirstWordsMissRulesOut(p: Pattern, s: string)
    requires FirstWordsMiss(p, s)
    ensures !FullMatch(p, s)
  {
    if p != [] {
      assert p[0] in p;
      SpellingsMiss(p[0][0].spellings, p[0][1..], s);
      assert FirstWordsMiss(p[1..], s) by {
        forall alt: seq<Token> | alt in p[1..] ensures alt in p { }
      }
      FirstWordsMissRulesOut(p[1..], s);
    }
  }

  /** The first-character test is sound: a pattern that cannot start with `c` matches
      no string that starts with `c` (in either case), and not the empty string. */
  lemma FirstCharacterRulesOut(p: Pattern, s: string, c: char)
    requires CannotStartWith(p, c)
    requires s == [] || LowerChar(s[0]) == c
    ensures !FullMatch(p, s)
  {
    forall alt: seq<Token>, w: string | alt in p && w in alt[0].spellings ensures !PrefixIgnoringCase(w, s) { }
    FirstWordsMissRulesOut(p, s);
  }

  /** No Main-nutrient pattern starts with a character other than the initials of its spellings. */
  lemma MainInitials(c: char)
    requires c !in "ewmpfcda"
    ensures forall i :: 0 <= i < |MAIN| ==> CannotStartWith(MAIN[i].0, c)
  {
  }

  lemma MineralInitials(c: char)
    requires c !in "ispcmpzs"
    ensures forall i :: 0 <= i < |MINERALS| ==> CannotStartWith(MINERALS[i].0, c)
  {
  }

  lemma VitaminInitials(c: char)
    requires c !in "rtvnafcpbβ"
    ensures forall i :: 0 <= i < |VITAMINS| ==> CannotStartWith(VITAMINS[i].0, c)
  {
  }

  /** A header starting with `c` matches no pattern of the tables when none can start with `c`. */
  lemma UnmatchedInitial(h: string, c: char)
    requires h == [] || LowerChar(h[0]) == c
    requires forall i :: 0 <= i < |MAIN| ==> CannotStartWith(MAIN[i].0, c)
    requires forall i :: 0 <= i < |MINERALS| ==> CannotStartWith(MINERALS[i].0, c)
    requires forall i :: 0 <= i < |VITAMINS| ==> CannotStartWith(VITAMINS[i].0, c)
    ensures Classify(ALL, h) == (None, None)
  {
    forall i | 0 <= i < |MAIN| ensures !FullMatch(MAIN[i].0, h) { FirstCharacterRulesOut(MAIN[i].0, h, c); }
    forall i | 0 <= i < |MINERALS| ensures !FullMatch(MINERALS[i].0, h) { FirstCharacterRulesOut(MINERALS[i].0, h, c); }
    forall i | 0 <= i < |VITAMINS| ensures !FullMatch(VITAMINS[i].0, h) { FirstCharacterRulesOut(VITAMINS[i].0, h, c); }
    UnmatchedHeader(h);
  }

  /** A missing, empty or blank header is unknown. */
  lemma BlankHeaderIsUnknown(h: Option<string>)
    requires h.Some? ==> forall i :: 0 <= i < |h.value| ==> IsSpace(h.value[i])
    ensures MapHeaderToSiteKey(h) == (None, None)
  {
    TrimBlank(h.GetOr(""));
    EmptyHeaderUnmatched();
  }

  /** No pattern full-matches the empty header. */
  lemma EmptyHeaderUnmatched()
    ensures Classify(ALL, []) == (None, None)
  {
    MainInitials(' ');
    MineralInitials(' ');
    VitaminInitials(' ');
    UnmatchedInitial([], ' ');
  }

  /** Whole-string matching: "energy" is Energy. */
  lemma EnergyClassified(h: string)
    requires h == "energy"
    ensures Classify(ALL, h) == (Some("Energy"), Some(MainNutrients))
  {
    SingleWord("energy", h);
    assert PrefixIgnoringCase("energy", h);
    ClassifiedAsMainNutrient(h, 0);
  }

  lemma EnergyMatches()
    ensures MapHeaderToSiteKey(Some("energy")) == (Some("Energy"), Some(MainNutrients))
  {
    TrimOfTrimmed("energy");
    EnergyClassified("energy");
  }

  /** Only the first Main-nutrient pattern starts with "e". */
  lemma MainInitialsAfterEnergy()
    ensures forall i :: 1 <= i < |MAIN| ==> CannotStartWith(MAIN[i].0, 'e')
  {
  }

  lemma EnergyKcalClassified(h: string)
    requires h == "Energy (kcal)"
    ensures Classify(ALL, h) == (None, None)
  {
    SingleWord("energy", h);
    MainInitialsAfterEnergy();
    forall i | 1 <= i < |MAIN| ensures !FullMatch(MAIN[i].0, h) { FirstCharacterRulesOut(MAIN[i].0, h, 'e'); }
    MineralInitials('e');
    VitaminInitials('e');
    forall i | 0 <= i < |MINERALS| ensures !FullMatch(MINERALS[i].0, h) { FirstCharacterRulesOut(MINERALS[i].0, h, 'e'); }
    forall i | 0 <= i < |VITAMINS| ensures !FullMatch(VITAMINS[i].0, h) { FirstCharacterRulesOut(VITAMINS[i].0, h, 'e'); }
    UnmatchedHeader(h);
  }

  /** Whole-string matching: "Energy (kcal)" is no nutrient of the site, although it starts with one. */
  lemma EnergyWithUnitIsUnknown()
    ensures MapHeaderToSiteKey(Some("Energy (kcal)")) == (None, None)
  {
    TrimOfTrimmed("Energy (kcal)");
    EnergyKcalClassified("Energy (kcal)");
  }

  lemma MoistureClassified(h: string)
    requires h == "Moisture"
    ensures Classify(ALL, h) == (Some("Water"), Some(MainNutrients))
  {
    SingleWord("energy", h);
    SingleWord("moisture", h);
    assert PrefixIgnoringCase("moisture", h);
    assert FullMatch(MAIN[1].0, h) by {
      assert MAIN[1].0 == [[Word("water")]] + [[Word("moisture")]];
    }
    ClassifiedAsMainNutrient(h, 1);
  }

  /** "Moisture" is the site's "Water". */
  lemma MoistureIsWater()
    ensures MapHeaderToSiteKey(Some("Moisture")) == (Some("Water"), Some(MainNutrients))
  {
    TrimOfTrimmed("Moisture");
    MoistureClassified("Moisture");
  }

  /** A pattern of one word matches that word and nothing else, in any case. */
  lemma SingleWord(w: string, s: string)
    ensures FullMatch([[Word(w)]], s) <==> |s| == |w| && PrefixIgnoringCase(w, s)
  {
    assert FullMatch([[Word(w)]], s) == MatchTokens([Word(w)], s) by { assert [[Word(w)]][1..] == []; }
    assert MatchTokens([Word(w)], s) == MatchSpellings([w], [], s) by { assert [Word(w)][1..] == []; }
    assert MatchSpellings([w], [], s) == (|w| <= |s| && PrefixIgnoringCase(w, s) && MatchTokens([], s[|w|..])) by {
      assert [w][1..] == [];
    }
  }

  lemma NotTotalVitaminA(h: string)
    requires h == "Thiamine"
    ensures !FullMatch(VITAMINS[1].0, h)
  {
    assert !PrefixIgnoringCase("total", h) by { assert "total"[1..] == "otal"; }
    assert !PrefixIgnoringCase("vitamin", h);
    FirstWordsMissRulesOut(VITAMINS[1].0, h);
  }

  lemma ThiaminePattern(h: string)
    requires h == "Thiamine"
    ensures FullMatch(VITAMINS[2].0, h)
  {
    assert VITAMINS[2].0 == [[Word("thiamin"), Optional("e")]];
    assert PrefixIgnoringCase("thiamin", h);
    assert MatchTokens([Optional("e")], h[7..]) by {
      assert h[7..] == "e";
      assert MatchSpellings(["e", ""], [], "e");
    }
    assert MatchSpellings(["thiamin"], [Optional("e")], h);
  }

  lemma ThiamineClassified(h: string)
    requires h == "Thiamine"
    ensures Classify(ALL, h) == (Some("Thiamin"), Some(Vitamins))
  {
    MainInitials('t');
    MineralInitials('t');
    forall i | 0 <= i < |MAIN| ensures !FullMatch(MAIN[i].0, h) { FirstCharacterRulesOut(MAIN[i].0, h, 't'); }
    forall i | 0 <= i < |MINERALS| ensures !FullMatch(MINERALS[i].0, h) { FirstCharacterRulesOut(MINERALS[i].0, h, 't'); }
    SingleWord("retinol", h);
    NotTotalVitaminA(h);
    ThiaminePattern(h);
    ClassifiedAsVitamin(h, 2);
  }

  /** "Thiamine" is the site's "Thiamin". */
  lemma ThiamineIsThiamin()
    ensures MapHeaderToSiteKey(Some("Thiamine")) == (Some("Thiamin"), Some(Vitamins))
  {
    TrimOfTrimmed("Thiamine");
    ThiamineClassified("Thiamine");
  }
}
