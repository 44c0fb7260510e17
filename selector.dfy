/** The closest-set selector: the K distinct candidates nearest to a target,
    ordered by XOR distance with ties kept in input order
    (dht-simulation.js:41-48). */
module Selector {
  import opened Seqs
  import opened Metric
  import opened Routing

  /** Distance from participant u to the target, read through the identifier
      view of the network; only URLs of ids are ever asked about. */
  function Dist(ids: map<Url, Id>, target: Id, u: Url): nat
  {
    if u in ids then Distance(ids[u], target) else 0
  }

  /** Ascending by distance to the target. */
  ghost predicate Sorted(ids: map<Url, Id>, target: Id, s: seq<Url>)
  {
    forall i, j :: 0 <= i < j < |s| ==> Dist(ids, target, s[i]) <= Dist(ids, target, s[j])
  }

  /** Position of the first occurrence of x in s. */
  function FirstIndex(s: seq<Url>, x: Url): (k: nat)
    requires x in s
    ensures k < |s| && s[k] == x
    ensures forall j :: 0 <= j < k ==> s[j] != x
  {
    if s[0] == x then 0 else 1 + FirstIndex(s[1..], x)
  }

  lemma FirstIndexExtend(p: seq<Url>, x: Url, y: Url)
    requires y in p
    ensures FirstIndex(p + [x], y) == FirstIndex(p, y)
  {
    var a, b := FirstIndex(p + [x], y), FirstIndex(p, y);
    assert (p + [x])[b] == y;
    assert a <= b;
    assert p[a] == (p + [x])[a];
  }

  /** `[...new Set(s)]`: every distinct URL of s once, in the order of first
      occurrence. */
  function Dedup(s: seq<Url>): (r: seq<Url>)
    ensures Distinct(r)
    ensures forall x :: x in r <==> x in s
    ensures forall i, j :: 0 <= i < j < |r| ==> FirstIndex(s, r[i]) < FirstIndex(s, r[j])
  {
    if s == [] then []
    else
      var p := s[..|s| - 1];
      var last := s[|s| - 1];
      assert s == p + [last];
      var d := Dedup(p);
      assert forall y :: y in p ==> FirstIndex(s, y) == FirstIndex(p, y) by {
        forall y | y in p ensures FirstIndex(s, y) == FirstIndex(p, y) {
          FirstIndexExtend(p, last, y);
        }
      }
      if last in d then d
      else
        DistinctAppend(d, last);
        assert FirstIndex(s, last) == |p|;
        d + [last]
  }

  lemma SortedCons(ids: map<Url, Id>, target: Id, y: Url, s: seq<Url>)
    requires Sorted(ids, target, s)
    requires forall z :: z in s ==> Dist(ids, target, y) <= Dist(ids, target, z)
    ensures Sorted(ids, target, [y] + s)
  {
    forall i, j | 0 <= i < j < |[y] + s|
      ensures Dist(ids, target, ([y] + s)[i]) <= Dist(ids, target, ([y] + s)[j])
    {
      assert ([y] + s)[j] == s[j - 1];
      if i > 0 {
        assert ([y] + s)[i] == s[i - 1];
      }
    }
  }

  /** Inserts x in front of the first element that is at least as far away,
      so x comes before every element of equal distance. */
  function InsertByDistance(ids: map<Url, Id>, target: Id, x: Url, l: seq<Url>): (r: seq<Url>)
    ensures |r| == |l| + 1 && x in r
  {
    if l == [] then [x]
    else if Dist(ids, target, x) <= Dist(ids, target, l[0]) then [x] + l
    else [l[0]] + InsertByDistance(ids, target, x, l[1..])
  }

  /** Insertion adds exactly x. */
  lemma {:induction false} InsertMultiset(ids: map<Url, Id>, target: Id, x: Url, l: seq<Url>)
    ensures multiset(InsertByDistance(ids, target, x, l)) == multiset(l) + multiset{x}
  {
    if l != [] && Dist(ids, target, x) > Dist(ids, target, l[0]) {
      var rest := InsertByDistance(ids, target, x, l[1..]);
      InsertMultiset(ids, target, x, l[1..]);
      assert l == [l[0]] + l[1..];
      assert multiset([l[0]] + rest) == multiset([l[0]]) + multiset(rest);
      assert multiset(l) == multiset([l[0]]) + multiset(l[1..]);
    }
  }

  lemma InsertMembers(ids: map<Url, Id>, target: Id, x: Url, l: seq<Url>)
    ensures forall z :: z in InsertByDistance(ids, target, x, l) ==> z == x || z in l
  {
    InsertMultiset(ids, target, x, l);
    assert forall z :: z in InsertByDistance(ids, target, x, l) ==> z in multiset(l) + multiset{x};
  }

  /** Insertion into a sorted sequence keeps it sorted. */
  lemma {:induction false} InsertSorted(ids: map<Url, Id>, target: Id, x: Url, l: seq<Url>)
    requires Sorted(ids, target, l)
    ensures Sorted(ids, target, InsertByDistance(ids, target, x, l))
  {
    if l == [] {
    } else if Dist(ids, target, x) <= Dist(ids, target, l[0]) {
      SortedCons(ids, target, x, l);
    } else {
      var rest := InsertByDistance(ids, target, x, l[1..]);
      assert Sorted(ids, target, l[1..]);
      InsertSorted(ids, target, x, l[1..]);
      InsertMembers(ids, target, x, l[1..]);
      forall z | z in rest ensures Dist(ids, target, l[0]) <= Dist(ids, target, z) {
        if z != x {
          var k :| 0 <= k < |l[1..]| && l[1..][k] == z;
          assert l[k + 1] == z;
        }
      }
      SortedCons(ids, target, l[0], rest);
    }
  }

  /** Insertion of a new element adds no duplicate. */
  lemma {:induction false} InsertDistinct(ids: map<Url, Id>, target: Id, x: Url, l: seq<Url>)
    requires Distinct(l) && x !in l
    ensures Distinct(InsertByDistance(ids, target, x, l))
  {
    if l == [] {
    } else if Dist(ids, target, x) <= Dist(ids, target, l[0]) {
      DistinctPrepend(x, l);
    } else {
      var rest := InsertByDistance(ids, target, x, l[1..]);
      assert Distinct(l[1..]);
      InsertDistinct(ids, target, x, l[1..]);
      InsertMultiset(ids, target, x, l[1..]);
      assert l[0] !in multiset(l[1..]) + multiset{x};
      assert l[0] !in rest;
      DistinctPrepend(l[0], rest);
    }
  }

  /** Stable insertion sort by distance to the target (the comparator of
      dht-simulation.js:43-47; JavaScript's sort is stable). */
  function SortByDistance(ids: map<Url, Id>, target: Id, s: seq<Url>): (r: seq<Url>)
    ensures |r| == |s|
  {
    if s == [] then [] else InsertByDistance(ids, target, s[0], SortByDistance(ids, target, s[1..]))
  }

  /** The sort is a permutation of its input. */
  lemma {:induction false} SortMultiset(ids: map<Url, Id>, target: Id, s: seq<Url>)
    ensures multiset(SortByDistance(ids, target, s)) == multiset(s)
  {
    if s != [] {
      SortMultiset(ids, target, s[1..]);
      InsertMultiset(ids, target, s[0], SortByDistance(ids, target, s[1..]));
      assert s == [s[0]] + s[1..];
    }
  }

  /** The output of the sort is ascending by distance. */
  lemma {:induction false} SortSorted(ids: map<Url, Id>, target: Id, s: seq<Url>)
    ensures Sorted(ids, target, SortByDistance(ids, target, s))
  {
    if s != [] {
      SortSorted(ids, target, s[1..]);
      InsertSorted(ids, target, s[0], SortByDistance(ids, target, s[1..]));
    }
  }

  /** The sort keeps a duplicate-free input duplicate-free. */
  lemma {:induction false} SortDistinct(ids: map<Url, Id>, target: Id, s: seq<Url>)
    requires Distinct(s)
    ensures Distinct(SortByDistance(ids, target, s))
  {
    if s != [] {
      var rest := SortByDistance(ids, target, s[1..]);
      assert Distinct(s[1..]);
      SortDistinct(ids, target, s[1..]);
      SortMultiset(ids, target, s[1..]);
      assert s[0] !in multiset(s[1..]);
      InsertDistinct(ids, target, s[0], rest);
    }
  }

  /** The single-element contribution of x to AtDistance. */
  function Tie(ids: map<Url, Id>, target: Id, x: Url, d: nat): seq<Url>
  {
    if Dist(ids, target, x) == d then [x] else []
  }

  /** The elements of s at distance d from the target, in the order of s. */
  function AtDistance(ids: map<Url, Id>, target: Id, s: seq<Url>, d: nat): seq<Url>
  {
    if s == [] then [] else Tie(ids, target, s[0], d) + AtDistance(ids, target, s[1..], d)
  }

  lemma {:induction false} InsertKeepsTies(ids: map<Url, Id>, target: Id, x: Url, l: seq<Url>, d: nat)
    ensures AtDistance(ids, target, InsertByDistance(ids, target, x, l), d)
            == Tie(ids, target, x, d) + AtDistance(ids, target, l, d)
  {
    if l == [] {
      assert [x][1..] == [];
    } else if Dist(ids, target, x) <= Dist(ids, target, l[0]) {
      assert ([x] + l)[1..] == l;
    } else {
      var rest := InsertByDistance(ids, target, x, l[1..]);
      InsertKeepsTies(ids, target, x, l[1..], d);
      assert ([l[0]] + rest)[1..] == rest;
      var ty, tx := Tie(ids, target, l[0], d), Tie(ids, target, x, d);
      var a := AtDistance(ids, target, l[1..], d);
      assert AtDistance(ids, target, [l[0]] + rest, d) == ty + (tx + a);
      assert AtDistance(ids, target, l, d) == ty + a;
      if ty == [] {
        assert ty + (tx + a) == tx + a;
        assert ty + a == a;
      } else {
        assert tx == [];
        assert tx + a == a;
        assert tx + (ty + a) == ty + a;
      }
    }
  }

  /** The sort is stable: elements at equal distance keep their relative order. */
  lemma {:induction false} SortIsStable(ids: map<Url, Id>, target: Id, s: seq<Url>, d: nat)
    ensures AtDistance(ids, target, SortByDistance(ids, target, s), d) == AtDistance(ids, target, s, d)
  {
    if s != [] {
      SortIsStable(ids, target, s[1..], d);
      InsertKeepsTies(ids, target, s[0], SortByDistance(ids, target, s[1..]), d);
    }
  }

  lemma {:induction false} AtDistancePrefix(ids: map<Url, Id>, target: Id, s: seq<Url>, n: nat, d: nat)
    requires n <= |s|
    ensures AtDistance(ids, target, s[..n], d) <= AtDistance(ids, target, s, d)
  {
    if n > 0 {
      AtDistancePrefix(ids, target, s[1..], n - 1, d);
      assert s[..n][1..] == s[1..][..n - 1];
    }
  }

  /** In a sorted sequence every element of a prefix is no farther than any
      element outside it. */
  lemma PrefixIsNearest(ids: map<Url, Id>, target: Id, s: seq<Url>, n: nat)
    requires Sorted(ids, target, s) && n <= |s|
    ensures forall u, v :: u in s[..n] && v in s && v !in s[..n]
              ==> Dist(ids, target, u) <= Dist(ids, target, v)
  {
    forall u, v | u in s[..n] && v in s && v !in s[..n]
      ensures Dist(ids, target, u) <= Dist(ids, target, v)
    {
      var i :| 0 <= i < n && s[..n][i] == u;
      var j :| 0 <= j < |s| && s[j] == v;
      assert s[i] == u;
      assert forall k :: 0 <= k < n ==> s[..n][k] == s[k];
    }
  }

  /** The first n elements of a sorted, duplicate-free sequence whose elements
      are those of urls. */
  lemma TakeNearest(ids: map<Url, Id>, target: Id, urls: seq<Url>, s: seq<Url>, n: nat)
    requires Distinct(s) && Sorted(ids, target, s)
    requires forall v :: v in s <==> v in urls
    requires n == Min(K, |s|)
    ensures Distinct(s[..n]) && Sorted(ids, target, s[..n])
    ensures |s[..n]| == Min(K, |Elems(urls)|)
    ensures forall u, v :: u in s[..n] && v in urls && v !in s[..n]
              ==> Dist(ids, target, u) <= Dist(ids, target, v)
    ensures forall v :: v in urls && v !in s[..n] ==> |s[..n]| == K
  {
    DistinctCard(s);
    assert Elems(s) == Elems(urls);
    PrefixIsNearest(ids, target, s, n);
    assert n == |s| ==> s[..n] == s;
  }

  /** `findKClosest`: remove duplicates, sort stably by distance to the target
      and keep the first K (dht-simulation.js:41-48). */
  function FindKClosest(ids: map<Url, Id>, urls: seq<Url>, target: Id): (r: seq<Url>)
    requires forall u :: u in urls ==> u in ids
    ensures Distinct(r)
    ensures forall u :: u in r ==> u in urls
    ensures |r| == Min(K, |Elems(urls)|)
    ensures Sorted(ids, target, r)
    ensures forall u, v :: u in r && v in urls && v !in r
              ==> Dist(ids, target, u) <= Dist(ids, target, v)
    ensures forall v :: v in urls && v !in r ==> |r| == K
  {
    var d := Dedup(urls);
    var sorted := SortByDistance(ids, target, d);
    SortMultiset(ids, target, d);
    SortSorted(ids, target, d);
    SortDistinct(ids, target, d);
    assert forall v :: v in sorted <==> v in urls by {
      forall v ensures v in sorted <==> v in urls {
        assert v in sorted <==> v in multiset(sorted);
        assert v in d <==> v in multiset(d);
      }
    }
    TakeNearest(ids, target, urls, sorted, Min(K, |sorted|));
    sorted[..Min(K, |sorted|)]
  }

  /** Ties are resolved by input order: among the returned URLs at any one
      distance, those are the earliest such URLs of the de-duplicated input. */
  lemma FindKClosestStable(ids: map<Url, Id>, urls: seq<Url>, target: Id, d: nat)
    requires forall u :: u in urls ==> u in ids
    ensures AtDistance(ids, target, FindKClosest(ids, urls, target), d)
            <= AtDistance(ids, target, Dedup(urls), d)
  {
    var sorted := SortByDistance(ids, target, Dedup(urls));
    SortIsStable(ids, target, Dedup(urls), d);
    AtDistancePrefix(ids, target, sorted, Min(K, |sorted|), d);
  }

  /** If the candidates include K distinct URLs all closer than bound, then K
      URLs are returned and all of them are closer than bound. */
  lemma FindKClosestBelow(ids: map<Url, Id>, urls: seq<Url>, target: Id, w: set<Url>, bound: nat)
    requires forall u :: u in urls ==> u in ids
    requires w <= Elems(urls) && |w| >= K
    requires forall x :: x in w ==> Dist(ids, target, x) < bound
    ensures |FindKClosest(ids, urls, target)| == K
    ensures forall u :: u in FindKClosest(ids, urls, target) ==> Dist(ids, target, u) < bound
  {
    var r := FindKClosest(ids, urls, target);
    SubsetCardLe(w, Elems(urls));
    assert |r| == K;
    if w <= Elems(r) {
      DistinctCard(r);
      SubsetCard(w, Elems(r));
    } else {
      var x :| x in w && x !in Elems(r);
      assert forall u :: u in r ==> Dist(ids, target, u) <= Dist(ids, target, x);
    }
  }

  /** With injective identifiers distances to the target separate URLs. */
  lemma DistSeparates(ids: map<Url, Id>, target: Id, u: Url, v: Url)
    requires Injective(ids) && u in ids && v in ids && u != v
    ensures Dist(ids, target, u) != Dist(ids, target, v)
  {
    DistanceInjective(ids[u], ids[v], target);
  }
}
