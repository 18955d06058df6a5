/** The listing records of the catalog and the order in which the page shows them
    (builds.js, the comparator given to `homes.sort` in `init`). */
module Listings {
  import opened Wrappers

  /** One listing as it arrives in the catalog feed. A text field that `||''` guards is a
      plain string ("" when absent); the id and the address parts are optional because the
      lookup key and the schedule reference template use them unguarded. */
  datatype Home = Home(
    id: Option<string>,
    status: string,
    price: Option<int>,
    address: Option<string>,
    city: Option<string>,
    state: Option<string>,
    zipcode: Option<string>,
    beds: Option<int>,
    baths: Option<int>,
    sqft: Option<int>,
    photos: seq<string>,
    mlsNumber: string,
    zillowUrl: string)

  /** `order[status] ?? 9`: the status table, with every other status ranked last. */
  function Rank(status: string): (r: nat)
    ensures r == 0 <==> status == "Available"
    ensures r == 1 <==> status == "Under Contract"
    ensures r == 2 <==> status == "Sold"
    ensures r == 9 <==> status !in {"Available", "Under Contract", "Sold"}
    ensures r in {0, 1, 2, 9}
  {
    if status == "Available" then 0
    else if status == "Under Contract" then 1
    else if status == "Sold" then 2
    else 9
  }

  /** Within one status, price `p` is shown strictly before price `q`: a higher price first,
      and any price before a missing one. */
  predicate PriceAhead(p: Option<int>, q: Option<int>) {
    match (p, q)
    case (Some(x), Some(y)) => x > y
    case (Some(_), None) => true
    case (None, _) => false
  }

  /** The comparator. Only its sign matters to the sort: `(b.price ?? -Infinity) - (a.price ?? -Infinity)`
      is written as the difference when both prices are known, as -1/+1 when one side is
      -Infinity, and as 0 when both are (the NaN that ECMAScript's SortCompare reads as +0). */
  function Compare(a: Home, b: Home): (c: int)
    ensures c < 0 <==> (Rank(a.status) < Rank(b.status)
                        || (Rank(a.status) == Rank(b.status) && PriceAhead(a.price, b.price)))
    ensures c == 0 <==> Rank(a.status) == Rank(b.status) && a.price == b.price
  {
    var s := Rank(a.status) - Rank(b.status);
    if s != 0 then s
    else match (a.price, b.price)
      case (Some(x), Some(y)) => y - x
      case (Some(_), None) => -1
      case (None, Some(_)) => 1
      case (None, None) => 0
  }

  /** `a` may stand before `b` in the sorted catalog. */
  predicate Precedes(a: Home, b: Home) {
    Compare(a, b) <= 0
  }

  lemma CompareAntisymmetric(a: Home, b: Home)
    ensures Compare(a, b) < 0 <==> Compare(b, a) > 0
  {
  }

  lemma PrecedesTransitive(a: Home, b: Home, c: Home)
    requires Precedes(a, b) && Precedes(b, c)
    ensures Precedes(a, c)
  {
  }

  /** Every pair of listings, not only neighbours, is in comparator order. */
  ghost predicate Sorted(s: seq<Home>) {
    forall i, j :: 0 <= i < j < |s| ==> Precedes(s[i], s[j])
  }

  /** Inserts `x` after every listing of `s` that may precede it, scanning from the right
      as an insertion sort does; equal keys keep their order. */
  function Insert(s: seq<Home>, x: Home): (r: seq<Home>)
    ensures |r| == |s| + 1
  {
    if |s| == 0 then [x]
    else if Precedes(s[|s| - 1], x) then s + [x]
    else Insert(s[..|s| - 1], x) + [s[|s| - 1]]
  }

  /** The catalog in display order: the stable sort of `s` by `Compare`. A stable sort's
      result is fixed by the comparator, so this insertion sort stands for `homes.sort`. */
  function SortHomes(s: seq<Home>): (r: seq<Home>)
    ensures |r| == |s|
  {
    if |s| == 0 then [] else Insert(SortHomes(s[..|s| - 1]), s[|s| - 1])
  }

  lemma {:induction false} InsertPermutes(s: seq<Home>, x: Home)
    ensures multiset(Insert(s, x)) == multiset(s) + multiset{x}
  {
    if |s| > 0 && !Precedes(s[|s| - 1], x) {
      InsertPermutes(s[..|s| - 1], x);
      assert s == s[..|s| - 1] + [s[|s| - 1]];
    }
  }

  lemma {:induction false} InsertSorted(s: seq<Home>, x: Home)
    requires Sorted(s)
    ensures Sorted(Insert(s, x))
  {
    if |s| == 0 {
    } else if Precedes(s[|s| - 1], x) {
      var r := s + [x];
      forall i, j | 0 <= i < j < |r| ensures Precedes(r[i], r[j]) {
        if j == |s| && i < |s| - 1 {
          PrecedesTransitive(s[i], s[|s| - 1], x);
        }
      }
    } else {
      var init, last := s[..|s| - 1], s[|s| - 1];
      InsertSorted(init, x);
      InsertPermutes(init, x);
      var t := Insert(init, x);
      var r := t + [last];
      forall k | 0 <= k < |t| ensures Precedes(t[k], last) {
        assert t[k] in multiset(init) + multiset{x};
        if t[k] != x {
          assert t[k] in init;
          var m :| 0 <= m < |init| && init[m] == t[k];
          assert s[m] == t[k];
        }
      }
      forall i, j | 0 <= i < j < |r| ensures Precedes(r[i], r[j]) {
        if j == |t| {
          assert r[i] == t[i];
        }
      }
    }
  }

  /** The display order is a permutation of the catalog. */
  lemma {:induction false} SortPermutes(s: seq<Home>)
    ensures multiset(SortHomes(s)) == multiset(s)
  {
    if |s| > 0 {
      SortPermutes(s[..|s| - 1]);
      InsertPermutes(SortHomes(s[..|s| - 1]), s[|s| - 1]);
      assert s == s[..|s| - 1] + [s[|s| - 1]];
    }
  }

  /** The display order is sorted by the comparator. */
  lemma {:induction false} SortSorts(s: seq<Home>)
    ensures Sorted(SortHomes(s))
  {
    if |s| > 0 {
      SortSorts(s[..|s| - 1]);
      InsertSorted(SortHomes(s[..|s| - 1]), s[|s| - 1]);
    }
  }

  /** What sortedness means on the page: statuses run Available, Under Contract, Sold,
      then the rest; within a status prices fall, and a missing price comes after every known one. */
  lemma DisplayOrder(s: seq<Home>, i: int, j: int)
    requires 0 <= i < j < |s|
    ensures var r := SortHomes(s);
            |r| == |s|
            && Rank(r[i].status) <= Rank(r[j].status)
            && (Rank(r[i].status) == Rank(r[j].status) ==>
                  (r[i].price.None? ==> r[j].price.None?)
                  && (r[i].price.Some? && r[j].price.Some? ==> r[i].price.value >= r[j].price.value))
  {
    SortSorts(s);
    SortPermutes(s);
    assert |multiset(SortHomes(s))| == |multiset(s)|;
    assert Precedes(SortHomes(s)[i], SortHomes(s)[j]);
  }

  /** Listings that the comparator cannot tell apart from `h`: same rank, same price. */
  predicate SameKey(e: Home, h: Home) {
    Rank(e.status) == Rank(h.status) && e.price == h.price
  }

  /** The listings of `s` that share `h`'s sort key, in their order in `s`. */
  function Ties(s: seq<Home>, h: Home): seq<Home> {
    if |s| == 0 then []
    else Ties(s[..|s| - 1], h) + (if SameKey(s[|s| - 1], h) then [s[|s| - 1]] else [])
  }

  lemma {:induction false} InsertKeepsTies(s: seq<Home>, x: Home, h: Home)
    ensures Ties(Insert(s, x), h) == Ties(s, h) + (if SameKey(x, h) then [x] else [])
  {
    if |s| == 0 {
      assert Ties([x], h) == Ties([], h) + (if SameKey(x, h) then [x] else []) by {
        assert [x][..0] == [];
      }
    } else if Precedes(s[|s| - 1], x) {
      assert (s + [x])[..|s|] == s;
    } else {
      var init, last := s[..|s| - 1], s[|s| - 1];
      InsertKeepsTies(init, x, h);
      var t := Insert(init, x);
      assert (t + [last])[..|t|] == t;
      assert !(SameKey(x, h) && SameKey(last, h));
    }
  }

  /** Stability: listings with equal keys keep their catalog order. */
  lemma {:induction false} SortStable(s: seq<Home>, h: Home)
    ensures Ties(SortHomes(s), h) == Ties(s, h)
  {
    if |s| > 0 {
      SortStable(s[..|s| - 1], h);
      InsertKeepsTies(SortHomes(s[..|s| - 1]), s[|s| - 1], h);
    }
  }

  /** A sold listing, an available one without a price and an available one at 500000 are
      shown as: the priced available one, the unpriced available one, the sold one. */
  lemma ExampleOrder(sold: Home, unpriced: Home, priced: Home)
    requires sold.status == "Sold" && sold.price == Some(100000)
    requires unpriced.status == "Available" && unpriced.price == None
    requires priced.status == "Available" && priced.price == Some(500000)
    ensures SortHomes([sold, unpriced, priced]) == [priced, unpriced, sold]
  {
    assert [sold, unpriced, priced][..2] == [sold, unpriced];
    assert [sold, unpriced][..1] == [sold];
    assert [sold][..0] == [];
    assert SortHomes([sold]) == [sold];
    assert Insert([sold], unpriced) == [unpriced, sold] by {
      assert [sold][..0] == [];
    }
    assert Insert([unpriced, sold], priced) == [priced, unpriced, sold] by {
      assert !Precedes(sold, priced);
      assert [unpriced, sold][..1] == [unpriced];
      assert !Precedes(unpriced, priced);
      assert [unpriced][..0] == [];
      assert Insert([unpriced], priced) == Insert([], priced) + [unpriced];
    }
  }

  /** `${x}` or `String(x)` for an optional field: an absent one prints "undefined". */
  function Show(x: Option<string>): string {
    x.GetOr("undefined")
  }

  /** The property key a listing gets in the lookup: `String(h.id)`, which is "undefined"
      for a listing without an id. */
  function LookupKey(h: Home): (key: string)
    ensures h.id.Some? ==> key == h.id.value
    ensures h.id.None? ==> key == "undefined"
  {
    Show(h.id)
  }

  /** `Object.fromEntries(homes.map(h => [h.id, h]))`: later listings overwrite earlier ones
      with the same key. */
  function ById(homes: seq<Home>): (m: map<string, Home>)
    ensures m.Keys == set h | h in homes :: LookupKey(h)
  {
    if |homes| == 0 then map[]
    else
      var init := homes[..|homes| - 1];
      assert homes == init + [homes[|homes| - 1]];
      ById(init)[LookupKey(homes[|homes| - 1]) := homes[|homes| - 1]]
  }

  /** An id resolves to the last listing that carries it. */
  lemma {:induction false} ByIdResolvesToLast(homes: seq<Home>, id: string)
    requires id in ById(homes)
    ensures exists k :: 0 <= k < |homes| && homes[k] == ById(homes)[id] && LookupKey(homes[k]) == id
                        && forall j :: k < j < |homes| ==> LookupKey(homes[j]) != id
  {
    var n := |homes|;
    var init := homes[..n - 1];
    assert ById(homes) == ById(init)[LookupKey(homes[n - 1]) := homes[n - 1]];
    if LookupKey(homes[n - 1]) == id {
      assert homes[n - 1] == ById(homes)[id];
    } else {
      ByIdResolvesToLast(init, id);
      var k :| 0 <= k < |init| && init[k] == ById(init)[id] && LookupKey(init[k]) == id
               && forall j :: k < j < |init| ==> LookupKey(init[j]) != id;
      assert homes[k] == ById(homes)[id];
      assert forall j :: k < j < n ==> LookupKey(homes[j]) != id by {
        forall j | k < j < n ensures LookupKey(homes[j]) != id {
          if j < n - 1 { assert homes[j] == init[j]; }
        }
      }
    }
  }

  /** With distinct keys every listing is found under its own key. */
  lemma ByIdFindsEach(homes: seq<Home>, k: int)
    requires 0 <= k < |homes|
    requires forall i, j :: 0 <= i < j < |homes| ==> LookupKey(homes[i]) != LookupKey(homes[j])
    ensures LookupKey(homes[k]) in ById(homes) && ById(homes)[LookupKey(homes[k])] == homes[k]
  {
    assert homes[k] in homes;
    ByIdResolvesToLast(homes, LookupKey(homes[k]));
  }

  /** `homes.sort(comparator)`, in place: the array ends in display order. */
  method SortCatalog(a: array<Home>)
    modifies a
    ensures a[..] == SortHomes(old(a[..]))
  {
    ghost var input := a[..];
    var i := 0;
    while i < a.Length
      invariant 0 <= i <= a.Length
      invariant a[..i] == SortHomes(input[..i])
      invariant a[i..] == input[i..]
    {
      assert a[i] == input[i] by { assert a[i..][0] == input[i..][0]; }
      InsertNext(a, i);
      assert a[i + 1..] == input[i + 1..];
      assert SortHomes(input[..i + 1]) == Insert(SortHomes(input[..i]), input[i]) by {
        assert input[..i + 1][..i] == input[..i];
      }
      i := i + 1;
    }
    assert a[..] == a[..a.Length] && input == input[..a.Length];
  }

  /** One insertion-sort step: moves `a[i]` left past the listings of the sorted prefix
      that may not precede it. */
  method InsertNext(a: array<Home>, i: int)
    requires 0 <= i < a.Length
    modifies a
    ensures a[..i + 1] == Insert(old(a[..i]), old(a[i]))
    ensures a[i + 1..] == old(a[i + 1..])
  {
    ghost var sorted := a[..i];
    var x := a[i];
    var j := i;
    while j > 0 && !Precedes(a[j - 1], x)
      invariant 0 <= j <= i
      invariant a[..j] == sorted[..j]
      invariant a[j + 1..i + 1] == sorted[j..]
      invariant forall k :: j <= k < i ==> !Precedes(sorted[k], x)
      invariant a[i + 1..] == old(a[i + 1..])
    {
      a[j] := a[j - 1];
      j := j - 1;
    }
    a[j] := x;
    InsertAt(sorted, x, j);
    assert a[..i + 1] == sorted[..j] + [x] + sorted[j..];
  }

  /** Where `Insert` puts `x`: after the listings that may precede it, before the run of
      listings at the end that may not. */
  lemma {:induction false} InsertAt(s: seq<Home>, x: Home, j: int)
    requires 0 <= j <= |s|
    requires j > 0 ==> Precedes(s[j - 1], x)
    requires forall k :: j <= k < |s| ==> !Precedes(s[k], x)
    ensures Insert(s, x) == s[..j] + [x] + s[j..]
  {
    if j < |s| {
      var init := s[..|s| - 1];
      InsertAt(init, x, j);
      assert init[..j] == s[..j];
      assert init[j..] + [s[|s| - 1]] == s[j..];
    } else {
      assert s[..j] == s;
    }
  }
}
