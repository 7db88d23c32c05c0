/** What both detail parsers build from a nutrient table: per-section maps from a
    nutrient key to the value a row shows, filled row by row with the later row
    winning on a repeated key. */
module TableFill {
  import opened Html

  /** A nutrient value exactly as the page renders it: amount text and optional unit text. */
  datatype Value = Value(amount: string, unit: Option<string>)

  /** The maps a detail parser fills: the three site sections and the scraper's extras. */
  datatype Bucket = MainBucket | MineralsBucket | VitaminsBucket | ExtrasBucket

  /** Where one table row goes: its map, its key there and its value. */
  datatype Placement = Place(bucket: Bucket, key: string, value: Value)

  const MainNutrients := "Main nutrients"
  const Minerals := "Minerals"
  const Vitamins := "Vitamins"

  /** The three section titles, as the site prints them. */
  predicate IsSectionName(s: string) {
    s == MainNutrients || s == Minerals || s == Vitamins
  }

  /** The map a section title names. */
  function SectionBucket(s: string): (b: Bucket)
    requires IsSectionName(s)
    ensures b != ExtrasBucket
    ensures SectionTitle(b) == s
  {
    if s == MainNutrients then MainBucket else if s == Minerals then MineralsBucket else VitaminsBucket
  }

  function SectionTitle(b: Bucket): string
    requires b != ExtrasBucket
  {
    match b
    case MainBucket => MainNutrients
    case MineralsBucket => Minerals
    case VitaminsBucket => Vitamins
  }

  /** `{"amount": amt, "unit": unit or None}`: an empty unit cell is stored as no unit. */
  function CellValue(amt: string, unit: string): Value {
    Value(amt, if unit == "" then None else Some(unit))
  }

  /** The map for bucket `b` after writing the placements `ps` in order, each into
      its own bucket under its key; rows placed nowhere are `None`. */
  function Fill(ps: seq<Option<Placement>>, b: Bucket): map<string, Value>
  {
    if ps == [] then map[] else Put(Fill(ps[..|ps| - 1], b), ps[|ps| - 1], b)
  }

  /** The map `m` for bucket `b` after one more row, placed at `p`. */
  function Put(m: map<string, Value>, p: Option<Placement>, b: Bucket): map<string, Value> {
    match p
    case Some(q) => if q.bucket == b then m[q.key := q.value] else m
    case None => m
  }

  /** Row `j` writes key `k` of bucket `b`. */
  predicate PlacesAt(ps: seq<Option<Placement>>, j: int, b: Bucket, k: string) {
    0 <= j < |ps| && ps[j].Some? && ps[j].value.bucket == b && ps[j].value.key == k
  }

  /** A key is in a bucket's map exactly when some row writes it there. */
  lemma {:induction false} FillKeys(ps: seq<Option<Placement>>, b: Bucket, k: string)
    ensures k in Fill(ps, b) <==> exists j :: PlacesAt(ps, j, b, k)
  {
    if ps != [] {
      var init := ps[..|ps| - 1];
      FillKeys(init, b, k);
      assert k in Fill(ps, b) <==> k in Fill(init, b) || PlacesAt(ps, |ps| - 1, b, k);
      assert (exists j :: PlacesAt(ps, j, b, k)) <==> (exists j :: PlacesAt(init, j, b, k)) || PlacesAt(ps, |ps| - 1, b, k) by {
        forall j | PlacesAt(ps, j, b, k) && j < |ps| - 1 ensures PlacesAt(init, j, b, k) { }
        forall j | PlacesAt(init, j, b, k) ensures PlacesAt(ps, j, b, k) { }
      }
    }
  }

  /** The last row that writes a key decides its value: later rows overwrite earlier ones. */
  lemma {:induction false} FillLastWriter(ps: seq<Option<Placement>>, b: Bucket, k: string, j: int)
    requires PlacesAt(ps, j, b, k)
    requires forall j' :: j < j' < |ps| ==> !PlacesAt(ps, j', b, k)
    ensures k in Fill(ps, b) && Fill(ps, b)[k] == ps[j].value.value
  {
    var init := ps[..|ps| - 1];
    if j < |ps| - 1 {
      assert !PlacesAt(ps, |ps| - 1, b, k);
      forall j' | j < j' < |init| ensures !PlacesAt(init, j', b, k) {
        assert !PlacesAt(ps, j', b, k);
      }
      FillLastWriter(init, b, k, j);
    }
  }

  /** Writing one more row changes at most the key that row writes. */
  lemma FillSnoc(ps: seq<Option<Placement>>, p: Option<Placement>, b: Bucket)
    ensures Fill(ps + [p], b) == Put(Fill(ps, b), p, b)
  {
    assert (ps + [p])[..|ps|] == ps;
  }
}
