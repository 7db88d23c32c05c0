/** The two searches both detail parsers run over a page's text: the per-quantity
    phrase "ปริมาณอาหาร ต่อ <number> <unit>" and the food-group marker "กลุ่มอาหาร".
    Each regular expression starts with a literal marker, so a search is the leftmost
    occurrence of the marker at which the rest of the expression matches; what the
    rest does at one occurrence is written out as a scan. */
module PageText {
  import opened Html

  const BasisMarker := "ปริมาณอาหาร"
  const Per := "ต่อ"
  const GroupMarker := "กลุ่มอาหาร"

  /** The end of the run of characters satisfying `inRun` that starts at `i`. */
  function RunEnd(t: string, i: nat, inRun: char -> bool): (e: nat)
    requires i <= |t|
    ensures i <= e <= |t| && (e < |t| ==> !inRun(t[e]))
    ensures forall k :: i <= k < e ==> inRun(t[k])
    decreases |t| - i
  {
    if i < |t| && inRun(t[i]) then RunEnd(t, i + 1, inRun) else i
  }

  /** A regular-expression search for a pattern that starts with `marker`: the leftmost
      position from `i` on where `marker` occurs and `at` succeeds, with what `at` found
      there; `None` when there is no such position. */
  function Search<X>(t: string, i: nat, marker: string, at: (string, nat) -> Option<X>): (r: Option<(nat, X)>)
    requires i <= |t|
    ensures r.Some? ==> i <= r.value.0 <= |t| && StartsAt(t, r.value.0, marker) && at(t, r.value.0) == Some(r.value.1)
    ensures r.Some? ==> forall j :: i <= j < r.value.0 ==> !StartsAt(t, j, marker) || at(t, j).None?
    ensures r.None? ==> forall j :: i <= j <= |t| ==> !StartsAt(t, j, marker) || at(t, j).None?
    decreases |t| - i
  {
    if StartsAt(t, i, marker) && at(t, i).Some? then Some((i, at(t, i).value))
    else if i < |t| then Search(t, i + 1, marker, at)
    else None
  }

  /** The search finds nothing when the marker does not occur at all. */
  lemma SearchNeedsMarker<X>(t: string, marker: string, at: (string, nat) -> Option<X>)
    requires !Contains(t, marker)
    ensures Search(t, 0, marker, at).None?
  {
  }

  /** Where no earlier occurrence of the marker matches, the search returns the first one
      that does. */
  lemma SearchFinds<X>(t: string, marker: string, at: (string, nat) -> Option<X>, i: nat)
    requires i <= |t| && StartsAt(t, i, marker) && at(t, i).Some?
    requires forall j :: 0 <= j < i ==> !StartsAt(t, j, marker) || at(t, j).None?
    ensures Search(t, 0, marker, at) == Some((i, at(t, i).value))
  {
  }

  /** `ปริมาณอาหาร\s*ต่อ\s*([\d\.]+)\s*` followed by the unit alternatives, tried at an
      occurrence `i` of the marker: the number text and the unit text the expression
      captures. No backtracking can help: `\s*` runs up to a character that is not
      whitespace, the number run is maximal, and no unit alternative starts with a
      digit, a dot or whitespace. */
  function PhraseAt(t: string, i: nat, isNumChar: char -> bool, unitAt: (string, nat) -> Option<string>): (r: Option<(string, string)>)
    ensures r.Some? ==> exists k: nat :: k <= |t| && unitAt(t, k) == Some(r.value.1)
  {
    if !StartsAt(t, i, BasisMarker) then None
    else
      var k1 := SkipSpaces(t, i + |BasisMarker|);
      if !StartsAt(t, k1, Per) then None
      else
        var k2 := SkipSpaces(t, k1 + |Per|);
        var e := RunEnd(t, k2, isNumChar);
        if e == k2 then None
        else
          match unitAt(t, SkipSpaces(t, e))
          case None => None
          case Some(u) => Some((t[k2..e], u))
  }

  /** A page stating its values per 100 grams. */
  const HundredGrams := BasisMarker + " " + Per + " 100 กรัม"

  /** On that page the phrase matches at the marker with the number "100", and the unit
      is whatever the unit group captures at "กรัม". */
  lemma HundredGramsPhrase(isNumChar: char -> bool, unitAt: (string, nat) -> Option<string>)
    requires isNumChar('1') && isNumChar('0') && !isNumChar(' ')
    ensures var t := HundredGrams;
      StartsAt(t, 0, BasisMarker) && t[20..] == "กรัม"
      && PhraseAt(t, 0, isNumChar, unitAt) == (if unitAt(t, 20).Some? then Some(("100", unitAt(t, 20).value)) else None)
  {
    var t := HundredGrams;
    assert |BasisMarker| == 11 && |Per| == 3 && |t| == 24;
    assert t[..11] == BasisMarker;
    assert t[11] == ' ' && t[12..15] == Per && t[15] == ' ';
    assert t[16] == '1' && t[17] == '0' && t[18] == '0' && t[19] == ' ';
    assert t[20..] == "กรัม";
    assert SkipSpaces(t, 12) == 12;
    assert SkipSpaces(t, 11) == 12;
    assert SkipSpaces(t, 16) == 16;
    assert SkipSpaces(t, 15) == 16;
    assert RunEnd(t, 19, isNumChar) == 19;
    assert RunEnd(t, 18, isNumChar) == 19;
    assert RunEnd(t, 17, isNumChar) == 19;
    assert RunEnd(t, 16, isNumChar) == 19;
    assert t[16..19] == "100";
    assert t[20] == 'ก' && !IsSpace(t[20]);
    assert SkipSpaces(t, 20) == 20;
    assert SkipSpaces(t, 19) == 20;
  }
}
