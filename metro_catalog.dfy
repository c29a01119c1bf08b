/**
 * The catalogue of real transit lines the map names its lines after, and
 * `selectLinesOnePerLocation`: group the catalogue by location, shuffle the
 * locations (Fisher-Yates), then take one line from each location until
 * `maxLines` are taken. The `Math.random()` draws are inputs: the shuffle's
 * draws in the order it makes them, and one pick draw per location taken.
 */
module MetroCatalog {
  import opened JsNumber

  datatype TransitLine = TransitLine(name: string, location: string, wiki: string)

  const TRANSIT_LINES: seq<TransitLine> := [
    TransitLine("\U{5C71}\U{624B}\U{7DDA} Yamanote", "Tokyo", "https://en.wikipedia.org/wiki/Yamanote_Line"),
    TransitLine("\U{9280}\U{5EA7}\U{7DDA} Ginza", "Tokyo", "https://en.wikipedia.org/wiki/Tokyo_Metro_Ginza_Line"),
    TransitLine("\U{4E2D}\U{592E}\U{7DDA} Ch\U{016B}\U{014D}", "Tokyo", "https://en.wikipedia.org/wiki/Ch%C5%AB%C5%8D_Line_(Rapid)"),
    TransitLine("U2", "Berlin", "https://en.wikipedia.org/wiki/U2_(Berlin_U-Bahn)"),
    TransitLine("U6", "Berlin", "https://en.wikipedia.org/wiki/U6_(Berlin_U-Bahn)"),
    TransitLine("Red Line", "Salt Lake City", "https://en.wikipedia.org/wiki/Red_Line_(TRAX)"),
    TransitLine("Blue Line", "Salt Lake City", "https://en.wikipedia.org/wiki/Blue_Line_(TRAX)"),
    TransitLine("T Third", "San Francisco", "https://en.wikipedia.org/wiki/T_Third_Street"),
    TransitLine("1 Line", "Seattle", "https://en.wikipedia.org/wiki/1_Line_(Link_light_rail)"),
    TransitLine("Route 3", "Santa Cruz", "https://en.wikipedia.org/wiki/Santa_Cruz_Metropolitan_Transit_District"),
    TransitLine("Route 10", "Santa Cruz", "https://en.wikipedia.org/wiki/Santa_Cruz_Metropolitan_Transit_District"),
    TransitLine("Caltrain", "Bay Area", "https://en.wikipedia.org/wiki/Caltrain")
  ]

  predicate Distinct<T(==)>(s: seq<T>)
  {
    forall i, j :: 0 <= i < j < |s| ==> s[i] != s[j]
  }

  /** Every draw of `Math.random()` lies in [0, 1). */
  predicate Draws(rs: seq<real>)
  {
    forall k :: 0 <= k < |rs| ==> 0.0 <= rs[k] < 1.0
  }

  /** The keys of the `byLocation` map: each location once, in order of first appearance. */
  function Locations(lines: seq<TransitLine>): seq<string>
  {
    if lines == [] then []
    else
      var prev := Locations(lines[..|lines| - 1]);
      var loc := lines[|lines| - 1].location;
      if loc in prev then prev else prev + [loc]
  }

  /** No location is listed twice. */
  lemma {:induction false} LocationsDistinct(lines: seq<TransitLine>)
    ensures Distinct(Locations(lines))
  {
    if lines != [] {
      LocationsDistinct(lines[..|lines| - 1]);
    }
  }

  /** A location is listed exactly when some line is at it. */
  lemma {:induction false} LocationsCover(lines: seq<TransitLine>, loc: string)
    ensures loc in Locations(lines) <==> exists k :: 0 <= k < |lines| && lines[k].location == loc
  {
    if lines != [] {
      var init := lines[..|lines| - 1];
      LocationsCover(init, loc);
      assert forall k :: 0 <= k < |init| ==> init[k] == lines[k];
      if loc in Locations(init) {
        var k :| 0 <= k < |init| && init[k].location == loc;
        assert lines[k].location == loc;
      }
    }
  }

  /** The value `byLocation.get(loc)`: the lines at `loc`, in catalogue order. */
  function LinesAt(lines: seq<TransitLine>, loc: string): seq<TransitLine>
  {
    if lines == [] then []
    else
      var prev := LinesAt(lines[..|lines| - 1], loc);
      var last := lines[|lines| - 1];
      if last.location == loc then prev + [last] else prev
  }

  /** Exactly the lines at `loc`, each of them a catalogue line, and at least one for a listed location. */
  lemma {:induction false} LinesAtSound(lines: seq<TransitLine>, loc: string)
    ensures forall i :: 0 <= i < |LinesAt(lines, loc)| ==>
      LinesAt(lines, loc)[i].location == loc && LinesAt(lines, loc)[i] in lines
    ensures |LinesAt(lines, loc)| > 0 <==> loc in Locations(lines)
  {
    if lines != [] {
      var init := lines[..|lines| - 1];
      LinesAtSound(init, loc);
      assert forall k :: 0 <= k < |init| ==> init[k] in lines;
    }
  }

  /** The grouping loop: builds the location order and the `byLocation` map. */
  method GroupByLocation(catalog: seq<TransitLine>) returns (locations: seq<string>, byLocation: map<string, seq<TransitLine>>)
    ensures locations == Locations(catalog)
    ensures forall l :: l in byLocation <==> l in locations
    ensures forall l :: l in byLocation ==> byLocation[l] == LinesAt(catalog, l)
  {
    locations := [];
    byLocation := map[];
    var k := 0;
    while k < |catalog|
      invariant 0 <= k <= |catalog|
      invariant locations == Locations(catalog[..k])
      invariant forall l :: l in byLocation <==> l in locations
      invariant forall l :: l in byLocation ==> byLocation[l] == LinesAt(catalog[..k], l)
    {
      var line := catalog[k];
      assert catalog[..k + 1][..k] == catalog[..k];
      if line.location !in byLocation {
        byLocation := byLocation[line.location := []];
        locations := locations + [line.location];
        LinesAtSound(catalog[..k], line.location);
      }
      byLocation := byLocation[line.location := byLocation[line.location] + [line]];
      k := k + 1;
    }
    assert catalog[..k] == catalog;
  }

  /** Swapping entries `i` and `j`. */
  function SwapAt<T>(s: seq<T>, i: nat, j: nat): (r: seq<T>)
    requires i < |s| && j < |s|
    ensures |r| == |s|
  {
    s[i := s[j]][j := s[i]]
  }

  /** A swap exchanges two entries and keeps the rest, so it permutes. */
  lemma SwapPermutes<T>(s: seq<T>, i: nat, j: nat)
    requires i < |s| && j < |s|
    ensures SwapAt(s, i, j)[i] == s[j] && SwapAt(s, i, j)[j] == s[i]
    ensures forall k :: 0 <= k < |s| && k != i && k != j ==> SwapAt(s, i, j)[k] == s[k]
    ensures multiset(SwapAt(s, i, j)) == multiset(s)
  {
  }

  /**
   * The Fisher-Yates passes for `i` down to 1 over `s`: pass `i` swaps entry
   * `i` with entry `Math.floor(r * (i + 1))`, `r` being the draw the pass
   * makes (the pass for the last index draws first).
   */
  function ShuffleDown<T>(s: seq<T>, draws: seq<real>, i: nat): (r: seq<T>)
    requires i < |s| <= |draws| + 1 && Draws(draws)
    ensures |r| == |s|
    decreases i
  {
    if i == 0 then s
    else ShuffleDown(SwapAt(s, i, RandomIndex(draws[|s| - 1 - i], i + 1)), draws, i - 1)
  }

  /** The shuffle permutes. */
  lemma {:induction false} ShuffleDownPermutes<T>(s: seq<T>, draws: seq<real>, i: nat)
    requires i < |s| <= |draws| + 1 && Draws(draws)
    ensures multiset(ShuffleDown(s, draws, i)) == multiset(s)
    decreases i
  {
    if i > 0 {
      var j := RandomIndex(draws[|s| - 1 - i], i + 1);
      SwapPermutes(s, i, j);
      ShuffleDownPermutes(SwapAt(s, i, j), draws, i - 1);
    }
  }

  /** Sequences with the same multiset have the same members. */
  lemma SameMembers<T>(s: seq<T>, t: seq<T>)
    requires multiset(s) == multiset(t)
    ensures forall k :: 0 <= k < |s| ==> s[k] in t
  {
    forall k | 0 <= k < |s|
      ensures s[k] in t
    {
      assert s[k] in multiset(s);
    }
  }

  /** A swap keeps distinct entries distinct. */
  lemma SwapDistinct<T>(s: seq<T>, i: nat, j: nat)
    requires i < |s| && j < |s| && Distinct(s)
    ensures Distinct(SwapAt(s, i, j))
  {
    var t := SwapAt(s, i, j);
    SwapPermutes(s, i, j);
    forall a, b | 0 <= a < b < |t|
      ensures t[a] != t[b]
    {
      var a' := if a == i then j else if a == j then i else a;
      var b' := if b == i then j else if b == j then i else b;
      assert t[a] == s[a'] && t[b] == s[b'] && a' != b';
    }
  }

  /** The shuffle keeps distinct entries distinct. */
  lemma {:induction false} ShuffleDownDistinct<T>(s: seq<T>, draws: seq<real>, i: nat)
    requires i < |s| <= |draws| + 1 && Draws(draws) && Distinct(s)
    ensures Distinct(ShuffleDown(s, draws, i))
    decreases i
  {
    if i > 0 {
      var j := RandomIndex(draws[|s| - 1 - i], i + 1);
      SwapDistinct(s, i, j);
      ShuffleDownDistinct(SwapAt(s, i, j), draws, i - 1);
    }
  }

  /** One pass of the shuffle, then the remaining passes. */
  lemma ShuffleStep<T>(s: seq<T>, draws: seq<real>, i: nat)
    requires 0 < i < |s| <= |draws| + 1 && Draws(draws)
    ensures ShuffleDown(s, draws, i) == ShuffleDown(SwapAt(s, i, RandomIndex(draws[|s| - 1 - i], i + 1)), draws, i - 1)
  {
  }

  /** The shuffle loop, in place on the array of locations. */
  method ShuffleLocations<T>(a: array<T>, draws: seq<real>)
    requires Draws(draws) && a.Length <= |draws| + 1
    modifies a
    ensures a.Length > 0 ==> a[..] == ShuffleDown(old(a[..]), draws, a.Length - 1)
  {
    if a.Length == 0 {
      return;
    }
    ghost var shuffled := ShuffleDown(a[..], draws, a.Length - 1);
    var i := a.Length - 1;
    while i > 0
      invariant 0 <= i < a.Length
      invariant ShuffleDown(a[..], draws, i) == shuffled
    {
      var j := RandomIndex(draws[a.Length - 1 - i], i + 1);
      ShuffleStep(a[..], draws, i);
      Swap(a, i, j);
      i := i - 1;
    }
  }

  /** `[a[i], a[j]] = [a[j], a[i]]`. */
  method Swap<T>(a: array<T>, i: nat, j: nat)
    requires i < a.Length && j < a.Length
    modifies a
    ensures a[..] == SwapAt(old(a[..]), i, j)
  {
    a[i], a[j] := a[j], a[i];
  }

  /** The seven locations of the catalogue, in order of first appearance. */
  const LOCATIONS: seq<string> := ["Tokyo", "Berlin", "Salt Lake City", "San Francisco", "Seattle", "Santa Cruz", "Bay Area"]

  /** The catalogue's locations are `LOCATIONS`. */
  lemma CatalogLocations()
    ensures Locations(TRANSIT_LINES) == LOCATIONS
  {
    assert CatalogColumn(TRANSIT_LINES);
    CatalogLocationsTo12(TRANSIT_LINES);
    assert TRANSIT_LINES[..12] == TRANSIT_LINES;
  }

  /** The `location` of each catalogue entry, in order. */
  predicate CatalogColumn(t: seq<TransitLine>)
  {
    |t| == 12 &&
    t[0].location == "Tokyo" && t[1].location == "Tokyo" && t[2].location == "Tokyo" &&
    t[3].location == "Berlin" && t[4].location == "Berlin" && t[5].location == "Salt Lake City" &&
    t[6].location == "Salt Lake City" && t[7].location == "San Francisco" && t[8].location == "Seattle" &&
    t[9].location == "Santa Cruz" && t[10].location == "Santa Cruz" && t[11].location == "Bay Area"
  }

  /** The locations of the first 2, 4, ..., 12 entries, two entries at a step. */
  lemma CatalogLocationsTo2(t: seq<TransitLine>)
    requires CatalogColumn(t)
    ensures Locations(t[..2]) == ["Tokyo"]
  {
    assert t[..0] == [];
    LocationsSnoc(t, 1);
    assert Locations(t[..1]) == ["Tokyo"];
    LocationsSnoc(t, 2);
    assert Locations(t[..2]) == ["Tokyo"];
  }

  lemma CatalogLocationsTo4(t: seq<TransitLine>)
    requires CatalogColumn(t)
    ensures Locations(t[..4]) == ["Tokyo", "Berlin"]
  {
    CatalogLocationsTo2(t);
    LocationsSnoc(t, 3);
    assert Locations(t[..3]) == ["Tokyo"];
    LocationsSnoc(t, 4);
    assert Locations(t[..4]) == ["Tokyo", "Berlin"];
  }

  lemma CatalogLocationsTo6(t: seq<TransitLine>)
    requires CatalogColumn(t)
    ensures Locations(t[..6]) == ["Tokyo", "Berlin", "Salt Lake City"]
  {
    CatalogLocationsTo4(t);
    LocationsSnoc(t, 5);
    assert Locations(t[..5]) == ["Tokyo", "Berlin"];
    LocationsSnoc(t, 6);
    assert Locations(t[..6]) == ["Tokyo", "Berlin", "Salt Lake City"];
  }

  lemma CatalogLocationsTo8(t: seq<TransitLine>)
    requires CatalogColumn(t)
    ensures Locations(t[..8]) == ["Tokyo", "Berlin", "Salt Lake City", "San Francisco"]
  {
    CatalogLocationsTo6(t);
    LocationsSnoc(t, 7);
    assert Locations(t[..7]) == ["Tokyo", "Berlin", "Salt Lake City"];
    LocationsSnoc(t, 8);
    assert Locations(t[..8]) == ["Tokyo", "Berlin", "Salt Lake City", "San Francisco"];
  }

  lemma CatalogLocationsTo10(t: seq<TransitLine>)
    requires CatalogColumn(t)
    ensures Locations(t[..10]) == ["Tokyo", "Berlin", "Salt Lake City", "San Francisco", "Seattle", "Santa Cruz"]
  {
    CatalogLocationsTo8(t);
    LocationsSnoc(t, 9);
    assert Locations(t[..9]) == ["Tokyo", "Berlin", "Salt Lake City", "San Francisco", "Seattle"];
    LocationsSnoc(t, 10);
    assert Locations(t[..10]) == ["Tokyo", "Berlin", "Salt Lake City", "San Francisco", "Seattle", "Santa Cruz"];
  }

  lemma CatalogLocationsTo12(t: seq<TransitLine>)
    requires CatalogColumn(t)
    ensures Locations(t[..12]) == ["Tokyo", "Berlin", "Salt Lake City", "San Francisco", "Seattle", "Santa Cruz", "Bay Area"]
  {
    CatalogLocationsTo10(t);
    LocationsSnoc(t, 11);
    assert Locations(t[..11]) == ["Tokyo", "Berlin", "Salt Lake City", "San Francisco", "Seattle", "Santa Cruz"];
    LocationsSnoc(t, 12);
    assert Locations(t[..12]) == ["Tokyo", "Berlin", "Salt Lake City", "San Francisco", "Seattle", "Santa Cruz", "Bay Area"];
  }

  /** Appending a line adds its location when it is new. */
  lemma LocationsSnoc(lines: seq<TransitLine>, k: nat)
    requires 0 < k <= |lines|
    ensures Locations(lines[..k]) ==
      if lines[k - 1].location in Locations(lines[..k - 1]) then Locations(lines[..k - 1])
      else Locations(lines[..k - 1]) + [lines[k - 1].location]
  {
    assert lines[..k][..k - 1] == lines[..k - 1];
  }
  /** Each listed location has at least one line, and only lines at it. */
  lemma OptionsAt(catalog: seq<TransitLine>, location: string)
    requires location in Locations(catalog)
    ensures |LinesAt(catalog, location)| > 0
    ensures forall i :: 0 <= i < |LinesAt(catalog, location)| ==>
      LinesAt(catalog, location)[i].location == location && LinesAt(catalog, location)[i] in catalog
  {
    LinesAtSound(catalog, location);
  }

  /** The line picked at `location` by the draw `r`: `options[Math.floor(r * options.length)]`. */
  function PickAt(catalog: seq<TransitLine>, location: string, r: real): (line: TransitLine)
    requires location in Locations(catalog) && 0.0 <= r < 1.0
    ensures line in catalog && line.location == location
  {
    OptionsAt(catalog, location);
    var options := LinesAt(catalog, location);
    options[RandomIndex(r, |options|)]
  }

  /** The shuffled order of the locations. */
  function ShuffledLocations(catalog: seq<TransitLine>, shuffleDraws: seq<real>): (locs: seq<string>)
    requires Draws(shuffleDraws) && |Locations(catalog)| <= |shuffleDraws| + 1
    ensures Distinct(locs) && multiset(locs) == multiset(Locations(catalog))
    ensures |locs| == |Locations(catalog)| && forall k :: 0 <= k < |locs| ==> locs[k] in Locations(catalog)
  {
    var all := Locations(catalog);
    LocationsDistinct(catalog);
    if all == [] then []
    else
      ShuffleDownPermutes(all, shuffleDraws, |all| - 1);
      ShuffleDownDistinct(all, shuffleDraws, |all| - 1);
      SameMembers(ShuffleDown(all, shuffleDraws, |all| - 1), all);
      ShuffleDown(all, shuffleDraws, |all| - 1)
  }

  /**
   * `selectLinesOnePerLocation(maxLines)` over `catalog` (the site passes
   * `TRANSIT_LINES`, which has seven locations): `min(n, max(0, maxLines))`
   * lines for `n` locations, the k-th picked from the k-th location of the
   * shuffled order, so no two share a location.
   */
  method SelectLinesOnePerLocation(catalog: seq<TransitLine>, maxLines: int, shuffleDraws: seq<real>, pickDraws: seq<real>)
    returns (selected: seq<TransitLine>)
    requires Draws(shuffleDraws) && |Locations(catalog)| <= |shuffleDraws| + 1
    requires Draws(pickDraws) && |Locations(catalog)| <= |pickDraws|
    ensures |selected| == if maxLines <= 0 then 0 else Min(maxLines, |Locations(catalog)|)
    ensures forall k :: 0 <= k < |selected| ==>
      selected[k] == PickAt(catalog, ShuffledLocations(catalog, shuffleDraws)[k], pickDraws[k])
    ensures forall k :: 0 <= k < |selected| ==> selected[k] in catalog
    ensures forall i, j :: 0 <= i < j < |selected| ==> selected[i].location != selected[j].location
  {
    var locations, byLocation := ShuffledLocationArray(catalog, shuffleDraws);
    ghost var order := locations[..];
    selected := PickOnePerLocation(catalog, locations, byLocation, maxLines, pickDraws);
    PicksApart(catalog, order, pickDraws, selected);
  }

  /** The grouping by location, and the locations copied into an array and shuffled in place. */
  method ShuffledLocationArray(catalog: seq<TransitLine>, shuffleDraws: seq<real>)
    returns (locations: array<string>, byLocation: map<string, seq<TransitLine>>)
    requires Draws(shuffleDraws) && |Locations(catalog)| <= |shuffleDraws| + 1
    ensures fresh(locations) && locations[..] == ShuffledLocations(catalog, shuffleDraws)
    ensures forall l :: l in byLocation <==> l in Locations(catalog)
    ensures forall l :: l in byLocation ==> byLocation[l] == LinesAt(catalog, l)
  {
    var locationList;
    locationList, byLocation := GroupByLocation(catalog);
    locations := new string[|locationList|](k requires 0 <= k < |locationList| => locationList[k]);
    assert locations[..] == locationList;
    ShuffleLocations(locations, shuffleDraws);
  }

  /** Picking from distinct locations in turn gives catalogue lines of pairwise different locations. */
  lemma PicksApart(catalog: seq<TransitLine>, order: seq<string>, pickDraws: seq<real>, selected: seq<TransitLine>)
    requires Distinct(order) && |selected| <= |order| <= |pickDraws| && Draws(pickDraws)
    requires forall k :: 0 <= k < |order| ==> order[k] in Locations(catalog)
    requires forall k :: 0 <= k < |selected| ==> selected[k] == PickAt(catalog, order[k], pickDraws[k])
    ensures forall k :: 0 <= k < |selected| ==> selected[k] in catalog
    ensures forall i, j :: 0 <= i < j < |selected| ==> selected[i].location != selected[j].location
  {
    forall i, j | 0 <= i < j < |selected|
      ensures selected[i].location != selected[j].location
    {
      assert selected[i].location == order[i] && selected[j].location == order[j];
    }
  }

  /** The picking loop: one line from each location in turn until `maxLines` are taken. */
  method PickOnePerLocation(catalog: seq<TransitLine>, locations: array<string>, byLocation: map<string, seq<TransitLine>>,
                            maxLines: int, pickDraws: seq<real>)
    returns (selected: seq<TransitLine>)
    requires forall l :: l in byLocation ==> byLocation[l] == LinesAt(catalog, l)
    requires forall k :: 0 <= k < locations.Length ==> locations[k] in Locations(catalog) && locations[k] in byLocation
    requires Draws(pickDraws) && locations.Length <= |pickDraws|
    ensures |selected| == if maxLines <= 0 then 0 else Min(maxLines, locations.Length)
    ensures forall k :: 0 <= k < |selected| ==> selected[k] == PickAt(catalog, locations[k], pickDraws[k])
  {
    selected := [];
    var k := 0;
    while k < locations.Length
      invariant 0 <= k <= locations.Length && |selected| == k && k <= if maxLines <= 0 then 0 else maxLines
      invariant forall m :: 0 <= m < k ==> selected[m] == PickAt(catalog, locations[m], pickDraws[m])
    {
      if |selected| >= maxLines {
        break;
      }
      OptionsAt(catalog, locations[k]);
      var options := byLocation[locations[k]];
      var pick := options[RandomIndex(pickDraws[k], |options|)];
      selected := selected + [pick];
      k := k + 1;
    }
  }

  function Min(a: int, b: int): int
  {
    if a < b then a else b
  }
}
