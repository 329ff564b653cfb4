/**
 * `sortAssetsByHoldingRatio`: a copy of the holdings, stably sorted by holding
 * ratio, largest first. `Array.prototype.sort` has been required to be stable
 * since ECMAScript 2019 (section 23.1.3.30 of ECMA-262, 2023 edition), so the
 * result is the unique arrangement that is ordered by the comparator
 * `(a, b) => b.holding_ratio - a.holding_ratio` and keeps holdings of equal
 * ratio in their input order. The model computes it by insertion sort.
 */
module AssetUtils {
  import opened PortfolioTypes

  /** The comparator handed to `sort`: negative when a belongs before b. */
  function Compare(a: HoldingAsset, b: HoldingAsset): int {
    b.holdingRatio - a.holdingRatio
  }

  /** No element is placed after one that the comparator says belongs after it. */
  predicate SortedDescending(s: seq<HoldingAsset>) {
    forall i, j :: 0 <= i < j < |s| ==> Compare(s[i], s[j]) <= 0
  }

  /** The holdings of s whose holding ratio is r, in the order of s. */
  function WithRatio(s: seq<HoldingAsset>, r: int): (t: seq<HoldingAsset>)
    ensures |t| <= |s|
  {
    if s == [] then []
    else (if s[0].holdingRatio == r then [s[0]] else []) + WithRatio(s[1..], r)
  }

  /** Stable: for every ratio, the holdings with that ratio come in the same order in t as in s. */
  ghost predicate SameOrderWithinRatios(t: seq<HoldingAsset>, s: seq<HoldingAsset>) {
    forall r :: WithRatio(t, r) == WithRatio(s, r)
  }

  /** Puts x in front of the first holding it does not rank below. */
  function Insert(x: HoldingAsset, s: seq<HoldingAsset>): (t: seq<HoldingAsset>)
    ensures |t| == |s| + 1
  {
    if s == [] || x.holdingRatio >= s[0].holdingRatio then [x] + s
    else [s[0]] + Insert(x, s[1..])
  }

  /** Insert adds x and nothing else. */
  lemma {:induction false} InsertPermutes(x: HoldingAsset, s: seq<HoldingAsset>)
    ensures multiset(Insert(x, s)) == multiset(s) + multiset{x}
  {
    if s != [] && x.holdingRatio < s[0].holdingRatio {
      InsertPermutes(x, s[1..]);
      assert s == [s[0]] + s[1..];
    }
  }

  /** Inserting into an ordered sequence keeps it ordered. */
  lemma {:induction false} InsertSorted(x: HoldingAsset, s: seq<HoldingAsset>)
    requires SortedDescending(s)
    ensures SortedDescending(Insert(x, s))
  {
    if s == [] || x.holdingRatio >= s[0].holdingRatio {
      var t := [x] + s;
      forall i, j | 0 <= i < j < |t| ensures Compare(t[i], t[j]) <= 0 {
        if i == 0 {
          assert t[j] == s[j - 1];
          if j > 1 {
            assert Compare(s[0], s[j - 1]) <= 0;
          }
        } else {
          assert t[i] == s[i - 1] && t[j] == s[j - 1];
        }
      }
    } else {
      var t := Insert(x, s[1..]);
      InsertSorted(x, s[1..]);
      InsertPermutes(x, s[1..]);
      InsertBelowHead(x, s, t);
    }
  }

  /** What Insert puts behind the head of s ranks no higher than that head. */
  lemma InsertBelowHead(x: HoldingAsset, s: seq<HoldingAsset>, t: seq<HoldingAsset>)
    requires SortedDescending(s) && s != [] && x.holdingRatio < s[0].holdingRatio
    requires SortedDescending(t) && multiset(t) == multiset(s[1..]) + multiset{x}
    ensures SortedDescending([s[0]] + t)
  {
    forall j | 0 <= j < |t| ensures t[j].holdingRatio <= s[0].holdingRatio {
      assert t[j] in multiset(t);
      if t[j] != x {
        assert t[j] in multiset(s[1..]);
        var k :| 0 <= k < |s[1..]| && s[1..][k] == t[j];
        assert s[k + 1] == t[j];
      }
    }
    var h := [s[0]] + t;
    forall i, j | 0 <= i < j < |h| ensures Compare(h[i], h[j]) <= 0 {
      if i > 0 {
        assert h[i] == t[i - 1] && h[j] == t[j - 1];
      } else {
        assert h[j] == t[j - 1];
      }
    }
  }

  /** `sortAssetsByHoldingRatio`: a new sequence of the same length, built by insertion. */
  function SortAssetsByHoldingRatio(assets: seq<HoldingAsset>): (sorted: seq<HoldingAsset>)
    ensures |sorted| == |assets|
  {
    if assets == [] then []
    else Insert(assets[0], SortAssetsByHoldingRatio(assets[1..]))
  }

  /** The result is a permutation of the input. */
  lemma {:induction false} SortPermutes(assets: seq<HoldingAsset>)
    ensures multiset(SortAssetsByHoldingRatio(assets)) == multiset(assets)
  {
    if assets != [] {
      SortPermutes(assets[1..]);
      InsertPermutes(assets[0], SortAssetsByHoldingRatio(assets[1..]));
      assert assets == [assets[0]] + assets[1..];
    }
  }

  /** The result is ordered by the comparator. */
  lemma {:induction false} SortIsSorted(assets: seq<HoldingAsset>)
    ensures SortedDescending(SortAssetsByHoldingRatio(assets))
  {
    if assets != [] {
      SortIsSorted(assets[1..]);
      InsertSorted(assets[0], SortAssetsByHoldingRatio(assets[1..]));
    }
  }

  // ---- Stability ----

  lemma {:induction false} InsertWithRatio(x: HoldingAsset, s: seq<HoldingAsset>, r: int)
    ensures WithRatio(Insert(x, s), r) == (if x.holdingRatio == r then [x] else []) + WithRatio(s, r)
  {
    var hx := if x.holdingRatio == r then [x] else [];
    if s == [] || x.holdingRatio >= s[0].holdingRatio {
      assert ([x] + s)[1..] == s;
    } else {
      var t := Insert(x, s[1..]);
      var h := if s[0].holdingRatio == r then [s[0]] else [];
      assert ([s[0]] + t)[1..] == t;
      assert WithRatio([s[0]] + t, r) == h + WithRatio(t, r);
      InsertWithRatio(x, s[1..], r);
      assert WithRatio(s, r) == h + WithRatio(s[1..], r);
      if x.holdingRatio == r {
        assert h == [];
      } else {
        assert hx == [];
      }
    }
  }

  /** Holdings with equal ratio keep their input order. */
  lemma {:induction false} SortIsStable(assets: seq<HoldingAsset>, r: int)
    ensures WithRatio(SortAssetsByHoldingRatio(assets), r) == WithRatio(assets, r)
  {
    if assets != [] {
      var rest := SortAssetsByHoldingRatio(assets[1..]);
      assert SortAssetsByHoldingRatio(assets) == Insert(assets[0], rest);
      SortIsStable(assets[1..], r);
      InsertWithRatio(assets[0], rest, r);
      assert WithRatio(assets, r) == (if assets[0].holdingRatio == r then [assets[0]] else []) + WithRatio(assets[1..], r);
    }
  }

  lemma StableSort(assets: seq<HoldingAsset>)
    ensures SameOrderWithinRatios(SortAssetsByHoldingRatio(assets), assets)
  {
    forall r ensures WithRatio(SortAssetsByHoldingRatio(assets), r) == WithRatio(assets, r) {
      SortIsStable(assets, r);
    }
  }

  // ---- Idempotence ----

  /** An already ordered sequence is returned unchanged. */
  lemma {:induction false} SortOfSorted(assets: seq<HoldingAsset>)
    requires SortedDescending(assets)
    ensures SortAssetsByHoldingRatio(assets) == assets
  {
    if assets != [] {
      SortOfSorted(assets[1..]);
      assert assets == [assets[0]] + assets[1..];
    }
  }

  /** Sorting the sorted sequence again changes nothing. */
  lemma SortIdempotent(assets: seq<HoldingAsset>)
    ensures SortAssetsByHoldingRatio(SortAssetsByHoldingRatio(assets)) == SortAssetsByHoldingRatio(assets)
  {
    SortIsSorted(assets);
    SortOfSorted(SortAssetsByHoldingRatio(assets));
  }

  // ---- The result is determined by order and stability ----

  lemma {:induction false} WithRatioMembers(s: seq<HoldingAsset>, r: int, x: HoldingAsset)
    ensures x in WithRatio(s, r) <==> x in s && x.holdingRatio == r
  {
    if s != [] {
      WithRatioMembers(s[1..], r, x);
      assert x in s <==> x == s[0] || x in s[1..];
    }
  }

  lemma SortedHeadIsMax(s: seq<HoldingAsset>, x: HoldingAsset)
    requires SortedDescending(s) && x in s
    ensures s[0].holdingRatio >= x.holdingRatio
  {
    var k :| 0 <= k < |s| && s[k] == x;
    if k > 0 {
      assert Compare(s[0], s[k]) <= 0;
    }
  }

  /** Dropping the head of s drops it from its own ratio's holdings and from no other. */
  lemma WithRatioTail(s: seq<HoldingAsset>, q: int)
    requires s != []
    ensures WithRatio(s[1..], q) == if s[0].holdingRatio == q then WithRatio(s, q)[1..] else WithRatio(s, q)
  {
    if s[0].holdingRatio == q {
      assert WithRatio(s, q) == [s[0]] + WithRatio(s[1..], q);
    }
  }

  /** Two ordered, equally stable sequences start with the same holding. */
  lemma HeadsAgree(t: seq<HoldingAsset>, u: seq<HoldingAsset>)
    requires SortedDescending(t) && SortedDescending(u)
    requires SameOrderWithinRatios(t, u) && t != []
    ensures u != [] && t[0] == u[0]
  {
    var r := t[0].holdingRatio;
    assert WithRatio(t, r) == [t[0]] + WithRatio(t[1..], r);
    WithRatioMembers(u, r, t[0]);
    SortedHeadIsMax(u, t[0]);
    var r' := u[0].holdingRatio;
    WithRatioMembers(t, r', u[0]);
    assert WithRatio(u, r') == [u[0]] + WithRatio(u[1..], r');
    SortedHeadIsMax(t, u[0]);
    assert r == r';
    assert WithRatio(t, r) == WithRatio(u, r);
    assert t[0] == WithRatio(t, r)[0] == WithRatio(u, r)[0] == u[0];
  }

  /** A non-empty sequence has a holding with the ratio of its head. */
  lemma WithHeadRatio(u: seq<HoldingAsset>)
    ensures u != [] ==> WithRatio(u, u[0].holdingRatio) != []
  {
  }

  /** Once the common head is dropped, the rest is as stable as before. */
  lemma TailsSameOrder(t: seq<HoldingAsset>, u: seq<HoldingAsset>)
    requires t != [] && u != [] && t[0] == u[0]
    requires SameOrderWithinRatios(t, u)
    ensures SameOrderWithinRatios(t[1..], u[1..])
  {
    forall q ensures WithRatio(t[1..], q) == WithRatio(u[1..], q) {
      assert WithRatio(t, q) == WithRatio(u, q);
      WithRatioTail(t, q);
      WithRatioTail(u, q);
    }
  }

  /**
   * Two ordered sequences with the same holdings in the same order within
   * every ratio are equal.
   */
  lemma {:induction false} StableOrderUnique(t: seq<HoldingAsset>, u: seq<HoldingAsset>)
    requires SortedDescending(t) && SortedDescending(u)
    requires SameOrderWithinRatios(t, u)
    ensures t == u
  {
    WithHeadRatio(u);
    if t != [] {
      HeadsAgree(t, u);
      TailsSameOrder(t, u);
      StableOrderUnique(t[1..], u[1..]);
      assert t == [t[0]] + t[1..] && u == [u[0]] + u[1..];
    }
  }

  /**
   * The sorted result is the only arrangement that is ordered by the
   * comparator and stable: any such t equals it.
   */
  lemma SortIsTheStableOrder(assets: seq<HoldingAsset>, t: seq<HoldingAsset>)
    requires SortedDescending(t) && SameOrderWithinRatios(t, assets)
    ensures t == SortAssetsByHoldingRatio(assets)
  {
    var sorted := SortAssetsByHoldingRatio(assets);
    StableSort(assets);
    SortIsSorted(assets);
    StableOrderUnique(t, sorted);
  }

  // ---- Worked cases ----

  /** The empty portfolio and a single holding come back as they are. */
  lemma SortExamples(x: HoldingAsset)
    ensures SortAssetsByHoldingRatio([]) == []
    ensures SortAssetsByHoldingRatio([x]) == [x]
  {
    assert [x][1..] == [];
  }

  /** Sorting x in front of s inserts x into the sorted s. */
  lemma SortCons(x: HoldingAsset, s: seq<HoldingAsset>)
    ensures SortAssetsByHoldingRatio([x] + s) == Insert(x, SortAssetsByHoldingRatio(s))
  {
    assert ([x] + s)[1..] == s;
  }

  /** A holding that ranks at least as high as the head goes in front. */
  lemma InsertInFront(x: HoldingAsset, s: seq<HoldingAsset>)
    requires s == [] || x.holdingRatio >= s[0].holdingRatio
    ensures Insert(x, s) == [x] + s
  {
  }

  /** A holding that ranks below the head goes behind it. */
  lemma InsertBehind(x: HoldingAsset, y: HoldingAsset, s: seq<HoldingAsset>)
    requires x.holdingRatio < y.holdingRatio
    ensures Insert(x, [y] + s) == [y] + Insert(x, s)
  {
    assert ([y] + s)[1..] == s;
  }

  /** Ratios arriving as low, high, middle come out as high, middle, low. */
  lemma SortDescendingExample(a: HoldingAsset, b: HoldingAsset, c: HoldingAsset)
    requires a.holdingRatio < c.holdingRatio < b.holdingRatio
    ensures SortAssetsByHoldingRatio([a, b, c]) == [b, c, a]
  {
    var e: seq<HoldingAsset> := [];
    assert SortAssetsByHoldingRatio([c]) == [c] by {
      SortCons(c, e);
      InsertInFront(c, e);
      assert [c] + e == [c];
    }
    assert SortAssetsByHoldingRatio([b, c]) == [b, c] by {
      SortCons(b, [c]);
      InsertInFront(b, [c]);
      assert [b] + [c] == [b, c];
    }
    assert Insert(a, [b, c]) == [b, c, a] by {
      InsertBehind(a, b, [c]);
      assert [b] + [c] == [b, c];
      InsertBehind(a, c, e);
      assert [c] + e == [c];
      InsertInFront(a, e);
      assert [a] + e == [a];
      assert [c] + [a] == [c, a];
      assert [b] + [c, a] == [b, c, a];
    }
    assert SortAssetsByHoldingRatio([a, b, c]) == Insert(a, SortAssetsByHoldingRatio([b, c])) by {
      SortCons(a, [b, c]);
      assert [a] + [b, c] == [a, b, c];
    }
  }

  /** Three holdings of equal ratio keep their order. */
  lemma SortEqualRatiosExample(a: HoldingAsset, b: HoldingAsset, c: HoldingAsset)
    requires a.holdingRatio == b.holdingRatio == c.holdingRatio
    ensures SortAssetsByHoldingRatio([a, b, c]) == [a, b, c]
  {
    var e: seq<HoldingAsset> := [];
    assert SortAssetsByHoldingRatio([c]) == [c] by {
      SortCons(c, e);
      InsertInFront(c, e);
      assert [c] + e == [c];
    }
    assert SortAssetsByHoldingRatio([b, c]) == [b, c] by {
      SortCons(b, [c]);
      InsertInFront(b, [c]);
      assert [b] + [c] == [b, c];
    }
    assert SortAssetsByHoldingRatio([a, b, c]) == [a, b, c] by {
      SortCons(a, [b, c]);
      InsertInFront(a, [b, c]);
      assert [a] + [b, c] == [a, b, c];
    }
  }
}
