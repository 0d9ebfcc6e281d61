/** The gallery filter: with the sentinel "All" every catalog entry is shown,
    otherwise exactly the entries whose brand equals the filter value,
    compared as whole strings, in catalog order. */
module Gallery {
  import opened Catalog

  /** The entries of `cars` whose brand is exactly `brand`, left to right,
      as the array filter on the catalog computes them. */
  function FilterByBrand(cars: seq<Car>, brand: string): (r: seq<Car>)
    ensures |r| <= |cars|
  {
    if cars == [] then []
    else (if cars[0].brand == brand then [cars[0]] else []) + FilterByBrand(cars[1..], brand)
  }

  /** Exactly the entries of the given brand survive the filter: nothing
      else, and none of them is dropped. */
  lemma {:induction false} FilterMembers(cars: seq<Car>, brand: string)
    ensures forall c :: c in FilterByBrand(cars, brand) <==> c in cars && c.brand == brand
  {
    if cars != [] {
      FilterMembers(cars[1..], brand);
      assert cars == [cars[0]] + cars[1..];
    }
  }

  /** The cards the grid shows for the current filter value. */
  function Visible(cars: seq<Car>, filter: string): (r: seq<Car>)
    ensures |r| <= |cars|
  {
    if filter == All then cars else FilterByBrand(cars, filter)
  }

  /** "All" shows the whole catalog, in order; any other value shows the
      entries of exactly that brand and nothing else. */
  lemma VisibleMembers(cars: seq<Car>, filter: string)
    ensures filter == All ==> Visible(cars, filter) == cars
    ensures filter != All ==>
      forall c :: c in Visible(cars, filter) <==> c in cars && c.brand == filter
    ensures forall c :: c in Visible(cars, filter) ==> c in cars
  {
    FilterMembers(cars, filter);
  }

  predicate StrictlyIncreasing(p: seq<nat>)
  {
    forall i, j :: 0 <= i < j < |p| ==> p[i] < p[j]
  }

  /** Reference definition: the positions of the matching entries, ascending. */
  function MatchingIndices(cars: seq<Car>, brand: string): (p: seq<nat>)
    ensures StrictlyIncreasing(p)
    ensures forall k :: 0 <= k < |p| ==> p[k] < |cars|
    ensures forall i :: 0 <= i < |cars| ==> (cars[i].brand == brand <==> i in p)
  {
    if cars == [] then []
    else
      var n := |cars| - 1;
      MatchingIndices(cars[..n], brand) + (if cars[n].brand == brand then [n] else [])
  }

  /** Filtering a list extended by one entry extends the result by that entry
      exactly when it matches. */
  lemma {:induction false} FilterAppend(cars: seq<Car>, c: Car, brand: string)
    ensures FilterByBrand(cars + [c], brand)
         == FilterByBrand(cars, brand) + (if c.brand == brand then [c] else [])
  {
    var tail := if c.brand == brand then [c] else [];
    if cars == [] {
      assert cars + [c] == [c];
      assert [c][1..] == [];
    } else {
      var head := if cars[0].brand == brand then [cars[0]] else [];
      var t := cars + [c];
      assert t[0] == cars[0] && t[1..] == cars[1..] + [c];
      FilterAppend(cars[1..], c, brand);
      calc {
        FilterByBrand(t, brand);
        head + FilterByBrand(cars[1..] + [c], brand);
        head + (FilterByBrand(cars[1..], brand) + tail);
        (head + FilterByBrand(cars[1..], brand)) + tail;
        FilterByBrand(cars, brand) + tail;
      }
    }
  }

  /** The filter result is the catalog read at the matching positions, in
      increasing order: an order-preserving subsequence that misses no match. */
  lemma {:induction false} FilterSelectsMatches(cars: seq<Car>, brand: string)
    ensures var r, p := FilterByBrand(cars, brand), MatchingIndices(cars, brand);
      |r| == |p| && forall k :: 0 <= k < |p| ==> r[k] == cars[p[k]]
    decreases |cars|
  {
    if cars != [] {
      var n := |cars| - 1;
      assert cars == cars[..n] + [cars[n]];
      FilterSelectsMatches(cars[..n], brand);
      FilterAppend(cars[..n], cars[n], brand);
    }
  }

  /** A selected category button never yields an empty grid. */
  lemma VisibleNonEmpty(cars: seq<Car>, filter: string)
    requires filter == All ==> cars != []
    requires filter != All ==> exists i :: 0 <= i < |cars| && cars[i].brand == filter
    ensures Visible(cars, filter) != []
  {
    if filter != All {
      var i :| 0 <= i < |cars| && cars[i].brand == filter;
      VisibleMembers(cars, filter);
      assert cars[i] in Visible(cars, filter);
    }
  }

  /** The filter is exact: a brand that no entry carries, even one differing
      only in letter case, shows nothing. */
  lemma UnknownBrandShowsNothing(cars: seq<Car>, filter: string)
    requires filter != All
    requires forall c :: c in cars ==> c.brand != filter
    ensures Visible(cars, filter) == []
  {
    FilterNone(cars, filter);
  }

  lemma {:induction false} FilterNone(cars: seq<Car>, brand: string)
    requires forall c :: c in cars ==> c.brand != brand
    ensures FilterByBrand(cars, brand) == []
  {
    if cars != [] {
      assert cars[0] in cars;
      FilterNone(cars[1..], brand);
    }
  }

  /** One step of the filter, read at position `k` of the list. */
  lemma FilterStep(cars: seq<Car>, k: nat, brand: string)
    requires k < |cars|
    ensures FilterByBrand(cars[k..], brand)
         == (if cars[k].brand == brand then [cars[k]] else []) + FilterByBrand(cars[k + 1..], brand)
  {
    assert cars[k..][1..] == cars[k + 1..];
  }

  /** The filter over the shipped brands, five entries at a time; each group
      is its own lemma so that every proof stays small. */
  lemma ShippedAudiSteps0To5(s: seq<Car>)
    requires |s| == 15
    requires s[0].brand == "Audi"
    requires s[1].brand == "Ferrari"
    requires s[2].brand == "Audi"
    requires s[3].brand == "BMW"
    requires s[4].brand == "Bugatti"
    ensures FilterByBrand(s[0..], "Audi") == [s[0], s[2]] + FilterByBrand(s[5..], "Audi")
  {
    FilterStep(s, 0, "Audi");
    FilterStep(s, 1, "Audi");
    FilterStep(s, 2, "Audi");
    FilterStep(s, 3, "Audi");
    FilterStep(s, 4, "Audi");
  }

  lemma ShippedAudiSteps5To10(s: seq<Car>)
    requires |s| == 15
    requires s[5].brand == "Land Rover"
    requires s[6].brand == "Mercedes"
    requires s[7].brand == "Jaguar"
    requires s[8].brand == "Lamborghini"
    requires s[9].brand == "Toyota"
    ensures FilterByBrand(s[5..], "Audi") == FilterByBrand(s[10..], "Audi")
  {
    FilterStep(s, 5, "Audi");
    FilterStep(s, 6, "Audi");
    FilterStep(s, 7, "Audi");
    FilterStep(s, 8, "Audi");
    FilterStep(s, 9, "Audi");
  }

  lemma ShippedAudiSteps10To15(s: seq<Car>)
    requires |s| == 15
    requires s[10].brand == "McLaren"
    requires s[11].brand == "Land Rover"
    requires s[12].brand == "Rolls"
    requires s[13].brand == "Toyota"
    requires s[14].brand == "Lamborghini"
    ensures FilterByBrand(s[10..], "Audi") == FilterByBrand(s[15..], "Audi")
  {
    FilterStep(s, 10, "Audi");
    FilterStep(s, 11, "Audi");
    FilterStep(s, 12, "Audi");
    FilterStep(s, 13, "Audi");
    FilterStep(s, 14, "Audi");
  }

  lemma ShippedLandRoverSteps0To5(s: seq<Car>)
    requires |s| == 15
    requires s[0].brand == "Audi"
    requires s[1].brand == "Ferrari"
    requires s[2].brand == "Audi"
    requires s[3].brand == "BMW"
    requires s[4].brand == "Bugatti"
    ensures FilterByBrand(s[0..], "Land Rover") == FilterByBrand(s[5..], "Land Rover")
  {
    FilterStep(s, 0, "Land Rover");
    FilterStep(s, 1, "Land Rover");
    FilterStep(s, 2, "Land Rover");
    FilterStep(s, 3, "Land Rover");
    FilterStep(s, 4, "Land Rover");
  }

  lemma ShippedLandRoverSteps5To10(s: seq<Car>)
    requires |s| == 15
    requires s[5].brand == "Land Rover"
    requires s[6].brand == "Mercedes"
    requires s[7].brand == "Jaguar"
    requires s[8].brand == "Lamborghini"
    requires s[9].brand == "Toyota"
    ensures FilterByBrand(s[5..], "Land Rover") == [s[5]] + FilterByBrand(s[10..], "Land Rover")
  {
    FilterStep(s, 5, "Land Rover");
    FilterStep(s, 6, "Land Rover");
    FilterStep(s, 7, "Land Rover");
    FilterStep(s, 8, "Land Rover");
    FilterStep(s, 9, "Land Rover");
  }

  lemma ShippedLandRoverSteps10To15(s: seq<Car>)
    requires |s| == 15
    requires s[10].brand == "McLaren"
    requires s[11].brand == "Land Rover"
    requires s[12].brand == "Rolls"
    requires s[13].brand == "Toyota"
    requires s[14].brand == "Lamborghini"
    ensures FilterByBrand(s[10..], "Land Rover") == [s[11]] + FilterByBrand(s[15..], "Land Rover")
  {
    FilterStep(s, 10, "Land Rover");
    FilterStep(s, 11, "Land Rover");
    FilterStep(s, 12, "Land Rover");
    FilterStep(s, 13, "Land Rover");
    FilterStep(s, 14, "Land Rover");
  }

  /** The filter run by hand over a list with the shipped catalog's brands. */
  lemma ShippedBrandFilters(s: seq<Car>)
    requires |s| == 15
    requires s[0].brand == "Audi"
    requires s[1].brand == "Ferrari"
    requires s[2].brand == "Audi"
    requires s[3].brand == "BMW"
    requires s[4].brand == "Bugatti"
    requires s[5].brand == "Land Rover"
    requires s[6].brand == "Mercedes"
    requires s[7].brand == "Jaguar"
    requires s[8].brand == "Lamborghini"
    requires s[9].brand == "Toyota"
    requires s[10].brand == "McLaren"
    requires s[11].brand == "Land Rover"
    requires s[12].brand == "Rolls"
    requires s[13].brand == "Toyota"
    requires s[14].brand == "Lamborghini"
    ensures FilterByBrand(s, "Audi") == [s[0], s[2]]
    ensures FilterByBrand(s, "Land Rover") == [s[5], s[11]]
  {
    assert s[15..] == [] && s[0..] == s;
    ShippedAudiSteps0To5(s);
    ShippedAudiSteps5To10(s);
    ShippedAudiSteps10To15(s);
    ShippedLandRoverSteps0To5(s);
    ShippedLandRoverSteps5To10(s);
    ShippedLandRoverSteps10To15(s);
  }

  /** The shipped grid for two of its brands, for a near miss and for "All". */
  lemma ShippedFilters()
    ensures Visible(CarsData, "Audi") == [CarsData[0], CarsData[2]]
    ensures Visible(CarsData, "Land Rover") == [CarsData[5], CarsData[11]]
    ensures Visible(CarsData, "audi") == []
    ensures Visible(CarsData, All) == CarsData
  {
    ShippedAudiAndLandRover();
    ShippedNearMiss();
  }

  lemma ShippedAudiAndLandRover()
    ensures Visible(CarsData, "Audi") == [CarsData[0], CarsData[2]]
    ensures Visible(CarsData, "Land Rover") == [CarsData[5], CarsData[11]]
  {
    CatalogBrandFilters();
  }

  lemma CatalogBrandFilters()
    ensures FilterByBrand(CarsData, "Audi") == [CarsData[0], CarsData[2]]
    ensures FilterByBrand(CarsData, "Land Rover") == [CarsData[5], CarsData[11]]
  {
    CatalogBrands();
    ShippedBrandFilters(CarsData);
  }

  lemma ShippedNearMiss()
    ensures Visible(CarsData, "audi") == []
  {
    forall c | c in CarsData
      ensures c.brand != "audi"
    {
    }
    UnknownBrandShowsNothing(CarsData, "audi");
  }
}
