/** The category buttons: "All" followed by every brand of the catalog once,
    in the order the brands first appear. The brands are collected into a
    JavaScript Set, which keeps its members in insertion order and ignores
    an insertion of a value it already holds. */
module CategoryList {
  import opened Catalog
  import opened Gallery

  predicate NoDuplicates<T(==)>(s: seq<T>)
  {
    forall i, j :: 0 <= i < j < |s| ==> s[i] != s[j]
  }

  /** Inserts `xs`, left to right, into the insertion-ordered set `acc`. */
  function InsertAll<T(==)>(acc: seq<T>, xs: seq<T>): (r: seq<T>)
    ensures |acc| <= |r| <= |acc| + |xs|
    decreases |xs|
  {
    if xs == [] then acc
    else InsertAll(if xs[0] in acc then acc else acc + [xs[0]], xs[1..])
  }

  /** Insertion never moves or removes a member already in the set: the old
      members stay, in order, as a prefix of the new ones. */
  lemma {:induction false} InsertAllKeepsPrefix<T>(acc: seq<T>, xs: seq<T>)
    ensures InsertAll(acc, xs)[..|acc|] == acc
    decreases |xs|
  {
    if xs != [] {
      var acc' := if xs[0] in acc then acc else acc + [xs[0]];
      InsertAllKeepsPrefix(acc', xs[1..]);
      assert acc'[..|acc|] == acc;
    }
  }

  /** The members of a Set built from `xs`, in iteration order. */
  function Distinct<T(==)>(xs: seq<T>): (r: seq<T>)
    ensures |r| <= |xs|
  {
    InsertAll([], xs)
  }

  /** The values of the filter buttons, in the order they are rendered. */
  function Categories(cars: seq<Car>): (r: seq<string>)
    ensures |r| >= 1 && r[0] == All
  {
    [All] + Distinct(Brands(cars))
  }

  /** Reference definition of "each value once, at its first occurrence":
      a value is kept exactly when it does not occur earlier. */
  function FirstSeen<T(==)>(xs: seq<T>): (r: seq<T>)
    ensures |r| <= |xs|
    decreases |xs|
  {
    if xs == [] then []
    else
      var n := |xs| - 1;
      FirstSeen(xs[..n]) + (if xs[n] in xs[..n] then [] else [xs[n]])
  }

  /** The position of the first occurrence of `x` in `xs`. */
  function IndexOf<T(==)>(xs: seq<T>, x: T): (k: nat)
    requires x in xs
    ensures k < |xs| && xs[k] == x && x !in xs[..k]
  {
    if xs[0] == x then 0 else 1 + IndexOf(xs[1..], x)
  }

  /** The first occurrence of a value that occurs in a prefix lies in it. */
  lemma {:induction false} IndexOfInPrefix<T>(xs: seq<T>, n: nat, x: T)
    requires n <= |xs| && x in xs[..n]
    ensures IndexOf(xs, x) == IndexOf(xs[..n], x)
  {
    if xs[0] != x {
      assert xs[..n][1..] == xs[1..][..n - 1];
      IndexOfInPrefix(xs[1..], n - 1, x);
    }
  }

  lemma {:induction false} FirstSeenMembers<T>(xs: seq<T>)
    ensures forall x :: x in FirstSeen(xs) <==> x in xs
    decreases |xs|
  {
    if xs != [] {
      var n := |xs| - 1;
      FirstSeenMembers(xs[..n]);
      assert xs == xs[..n] + [xs[n]];
    }
  }

  /** The reference list holds no value twice. */
  lemma {:induction false} FirstSeenNoDuplicates<T>(xs: seq<T>)
    ensures NoDuplicates(FirstSeen(xs))
    decreases |xs|
  {
    if xs != [] {
      var n := |xs| - 1;
      FirstSeenNoDuplicates(xs[..n]);
      FirstSeenMembers(xs[..n]);
    }
  }

  /** The reference list is ordered by first occurrence in `xs`. */
  lemma {:induction false} FirstSeenOrder<T>(xs: seq<T>)
    ensures forall x :: x in FirstSeen(xs) ==> x in xs
    ensures forall i, j :: 0 <= i < j < |FirstSeen(xs)| ==>
      IndexOf(xs, FirstSeen(xs)[i]) < IndexOf(xs, FirstSeen(xs)[j])
    decreases |xs|
  {
    FirstSeenMembers(xs);
    if xs != [] {
      var n := |xs| - 1;
      var p := xs[..n];
      var r' := FirstSeen(p);
      var r := FirstSeen(xs);
      FirstSeenOrder(p);
      assert r == r' + (if xs[n] in p then [] else [xs[n]]);
      forall i, j | 0 <= i < j < |r|
        ensures IndexOf(xs, r[i]) < IndexOf(xs, r[j])
      {
        assert r[i] == r'[i];
        IndexOfInPrefix(xs, n, r[i]);
        if j < |r'| {
          assert r[j] == r'[j];
          IndexOfInPrefix(xs, n, r[j]);
        }
      }
    }
  }

  /** Building the Set on top of the members from a prefix `p` yields the
      members of the whole list `p + q`. */
  lemma {:induction false} InsertAllFirstSeen<T>(p: seq<T>, q: seq<T>)
    ensures InsertAll(FirstSeen(p), q) == FirstSeen(p + q)
    decreases |q|
  {
    if q == [] {
      assert p + q == p;
    } else {
      var p' := p + [q[0]];
      FirstSeenMembers(p);
      assert (p' + q[1..]) == p + q;
      assert p'[..|p|] == p && p'[|p|] == q[0];
      var acc := FirstSeen(p);
      assert FirstSeen(p') == if q[0] in acc then acc else acc + [q[0]];
      InsertAllFirstSeen(p', q[1..]);
      calc {
        InsertAll(acc, q);
        InsertAll(if q[0] in acc then acc else acc + [q[0]], q[1..]);
        InsertAll(FirstSeen(p'), q[1..]);
        FirstSeen(p' + q[1..]);
      }
    }
  }

  /** The Set keeps each value once, at its first occurrence. */
  lemma DistinctIsFirstSeen<T>(xs: seq<T>)
    ensures Distinct(xs) == FirstSeen(xs)
  {
    InsertAllFirstSeen([], xs);
    assert [] + xs == xs;
  }

  /** The button list: "All", then every brand of the catalog exactly once
      (and nothing else), ordered by the brand's first appearance. */
  lemma CategoriesSpec(cars: seq<Car>)
    ensures var r := Categories(cars);
      && r[0] == All
      && NoDuplicates(r[1..])
      && (forall b :: b in r[1..] <==> exists i :: 0 <= i < |cars| && cars[i].brand == b)
      && (forall i, j :: 1 <= i < j < |r| ==>
            r[i] in Brands(cars) && r[j] in Brands(cars) &&
            IndexOf(Brands(cars), r[i]) < IndexOf(Brands(cars), r[j]))
  {
    var bs := Brands(cars);
    var r := Categories(cars);
    DistinctIsFirstSeen(bs);
    assert r[1..] == FirstSeen(bs);
    FirstSeenNoDuplicates(bs);
    FirstSeenOrder(bs);
    FirstSeenMembers(bs);
    forall b
      ensures b in r[1..] <==> exists i :: 0 <= i < |cars| && cars[i].brand == b
    {
      if b in bs {
        var i :| 0 <= i < |bs| && bs[i] == b;
        assert cars[i].brand == b;
      }
      if exists i :: 0 <= i < |cars| && cars[i].brand == b {
        var i :| 0 <= i < |cars| && cars[i].brand == b;
        assert bs[i] == b;
      }
    }
    forall i, j | 1 <= i < j < |r|
      ensures r[i] in bs && r[j] in bs && IndexOf(bs, r[i]) < IndexOf(bs, r[j])
    {
      assert r[i] == r[1..][i - 1] && r[j] == r[1..][j - 1];
    }
  }

  /** When no brand is spelled "All", no two buttons carry the same value. */
  lemma CategoriesDistinct(cars: seq<Car>)
    requires NoBrandIsAll(cars)
    ensures NoDuplicates(Categories(cars))
  {
    var r := Categories(cars);
    CategoriesSpec(cars);
    forall j | 1 <= j < |r|
      ensures r[j] != All
    {
      assert r[j] in r[1..];
    }
  }

  /** Every button selects a non-empty grid when the catalog is non-empty. */
  lemma CategoryShowsCars(cars: seq<Car>, k: nat)
    requires cars != [] && k < |Categories(cars)|
    ensures Visible(cars, Categories(cars)[k]) != []
  {
    var r := Categories(cars);
    if r[k] != All {
      CategoriesSpec(cars);
      assert r[k] in r[1..];
      VisibleNonEmpty(cars, r[k]);
    }
  }

  /** Inserting a value not yet in the set appends it. */
  lemma InsertNewStep<T>(b: seq<T>, m: nat, xs: seq<T>, k: nat)
    requires NoDuplicates(b) && m < |b|
    requires k < |xs| && xs[k] == b[m]
    ensures InsertAll(b[..m], xs[k..]) == InsertAll(b[..m + 1], xs[k + 1..])
  {
    assert xs[k..][1..] == xs[k + 1..];
    assert b[..m] + [b[m]] == b[..m + 1];
  }

  /** Inserting a value the set already holds leaves it unchanged. */
  lemma InsertOldStep<T>(b: seq<T>, m: nat, j: nat, xs: seq<T>, k: nat)
    requires j < m <= |b|
    requires k < |xs| && xs[k] == b[j]
    ensures InsertAll(b[..m], xs[k..]) == InsertAll(b[..m], xs[k + 1..])
  {
    assert xs[k..][1..] == xs[k + 1..];
    assert b[..m][j] == b[j];
  }

  /** The insertions of the shipped brand pattern, three at a time; each
      group is its own lemma so that every proof stays small. */
  lemma ShippedPatternSteps0To3<T>(xs: seq<T>, b: seq<T>)
    requires |b| == 11 && NoDuplicates(b) && |xs| == 15
    requires xs[0] == b[0]
    requires xs[1] == b[1]
    requires xs[2] == b[0]
    ensures InsertAll(b[..0], xs[0..]) == InsertAll(b[..2], xs[3..])
  {
    InsertNewStep(b, 0, xs, 0);
    InsertNewStep(b, 1, xs, 1);
    InsertOldStep(b, 2, 0, xs, 2);
  }

  lemma ShippedPatternSteps3To6<T>(xs: seq<T>, b: seq<T>)
    requires |b| == 11 && NoDuplicates(b) && |xs| == 15
    requires xs[3] == b[2]
    requires xs[4] == b[3]
    requires xs[5] == b[4]
    ensures InsertAll(b[..2], xs[3..]) == InsertAll(b[..5], xs[6..])
  {
    InsertNewStep(b, 2, xs, 3);
    InsertNewStep(b, 3, xs, 4);
    InsertNewStep(b, 4, xs, 5);
  }

  lemma ShippedPatternSteps6To9<T>(xs: seq<T>, b: seq<T>)
    requires |b| == 11 && NoDuplicates(b) && |xs| == 15
    requires xs[6] == b[5]
    requires xs[7] == b[6]
    requires xs[8] == b[7]
    ensures InsertAll(b[..5], xs[6..]) == InsertAll(b[..8], xs[9..])
  {
    InsertNewStep(b, 5, xs, 6);
    InsertNewStep(b, 6, xs, 7);
    InsertNewStep(b, 7, xs, 8);
  }

  lemma ShippedPatternSteps9To12<T>(xs: seq<T>, b: seq<T>)
    requires |b| == 11 && NoDuplicates(b) && |xs| == 15
    requires xs[9] == b[8]
    requires xs[10] == b[9]
    requires xs[11] == b[4]
    ensures InsertAll(b[..8], xs[9..]) == InsertAll(b[..10], xs[12..])
  {
    InsertNewStep(b, 8, xs, 9);
    InsertNewStep(b, 9, xs, 10);
    InsertOldStep(b, 10, 4, xs, 11);
  }

  lemma ShippedPatternSteps12To15<T>(xs: seq<T>, b: seq<T>)
    requires |b| == 11 && NoDuplicates(b) && |xs| == 15
    requires xs[12] == b[10]
    requires xs[13] == b[8]
    requires xs[14] == b[7]
    ensures InsertAll(b[..10], xs[12..]) == InsertAll(b[..11], xs[15..])
  {
    InsertNewStep(b, 10, xs, 12);
    InsertOldStep(b, 11, 8, xs, 13);
    InsertOldStep(b, 11, 7, xs, 14);
  }

  /** The Set built from fifteen values that repeat the way the shipped
      catalog's brands do. */
  lemma DistinctOfShippedPattern<T>(xs: seq<T>, b: seq<T>)
    requires |b| == 11 && NoDuplicates(b) && |xs| == 15
    requires xs[0] == b[0]
    requires xs[1] == b[1]
    requires xs[2] == b[0]
    requires xs[3] == b[2]
    requires xs[4] == b[3]
    requires xs[5] == b[4]
    requires xs[6] == b[5]
    requires xs[7] == b[6]
    requires xs[8] == b[7]
    requires xs[9] == b[8]
    requires xs[10] == b[9]
    requires xs[11] == b[4]
    requires xs[12] == b[10]
    requires xs[13] == b[8]
    requires xs[14] == b[7]
    ensures Distinct(xs) == b
  {
    assert xs[0..] == xs && b[..0] == [];
    ShippedPatternSteps0To3(xs, b);
    ShippedPatternSteps3To6(xs, b);
    ShippedPatternSteps6To9(xs, b);
    ShippedPatternSteps9To12(xs, b);
    ShippedPatternSteps12To15(xs, b);
    assert xs[15..] == [] && b[..11] == b;
  }

  lemma ShippedBrandNamesDistinct()
    ensures NoDuplicates(["Audi", "Ferrari", "BMW", "Bugatti", "Land Rover", "Mercedes", "Jaguar", "Lamborghini", "Toyota", "McLaren", "Rolls"])
  {
  }

  lemma ShippedBrandSet()
    ensures Distinct(Brands(CarsData)) == ["Audi", "Ferrari", "BMW", "Bugatti", "Land Rover", "Mercedes", "Jaguar", "Lamborghini", "Toyota", "McLaren", "Rolls"]
  {
    CatalogBrands();
    ShippedBrandNamesDistinct();
    DistinctOfShippedPattern(Brands(CarsData), ["Audi", "Ferrari", "BMW", "Bugatti", "Land Rover", "Mercedes", "Jaguar", "Lamborghini", "Toyota", "McLaren", "Rolls"]);
  }

  /** The shipped catalog's buttons. */
  lemma ShippedCategories()
    ensures Categories(CarsData) == [All] + ["Audi", "Ferrari", "BMW", "Bugatti", "Land Rover", "Mercedes", "Jaguar", "Lamborghini", "Toyota", "McLaren", "Rolls"]
  {
    ShippedBrandSet();
  }
}
