/** The sort template of common/common_sort.c: quicksort with an explicit stack that leaves
    segments of at most seven elements unsorted, then one insertion sort without bound test.
    Pointers are positions in the array, in units of the element size. */
module Sorting {

  // ----- Orders -----

  /** x does not come after y. */
  predicate Le<T(!new)>(less: (T, T) -> bool, x: T, y: T) { !less(y, x) }

  predicate Step3<T(!new)>(less: (T, T) -> bool, x: T, y: T, z: T) {
    Le(less, x, y) && Le(less, y, z) ==> Le(less, x, z)
  }

  /** less is asymmetric, and not coming after is transitive. */
  ghost predicate StrictWeak<T(!new)>(less: (T, T) -> bool) {
    && (forall x, y :: less(x, y) ==> Le(less, x, y))
    && (forall x, y, z :: Step3(less, x, y, z))
  }

  lemma LeTrans<T(!new)>(less: (T, T) -> bool, x: T, y: T, z: T)
    requires StrictWeak(less) && Le(less, x, y) && Le(less, y, z)
    ensures Le(less, x, z)
  {
    assert Step3(less, x, y, z);
  }

  lemma LeSelf<T(!new)>(less: (T, T) -> bool, x: T)
    requires StrictWeak(less)
    ensures Le(less, x, x)
  {
    if less(x, x) { assert Le(less, x, x); }
  }

  ghost predicate Sorted<T(!new)>(less: (T, T) -> bool, s: seq<T>) {
    forall i, j :: 0 <= i < j < |s| ==> Le(less, s[i], s[j])
  }

  // ----- Permutations inside a segment -----

  /** t is s with the elements of lo..hi in another order. */
  ghost predicate SameOn<T(!new)>(s: seq<T>, t: seq<T>, lo: int, hi: int) {
    && 0 <= lo <= hi + 1 <= |s| == |t|
    && s[..lo] == t[..lo] && s[hi + 1..] == t[hi + 1..]
    && multiset(s[lo..hi + 1]) == multiset(t[lo..hi + 1])
  }

  function Swapped<T>(s: seq<T>, i: int, j: int): seq<T>
    requires 0 <= i < |s| && 0 <= j < |s|
  {
    s[i := s[j]][j := s[i]]
  }

  lemma SwapPermutes<T(!new)>(s: seq<T>, i: int, j: int)
    requires 0 <= i < |s| && 0 <= j < |s|
    ensures multiset(Swapped(s, i, j)) == multiset(s)
  {
  }

  lemma SwapSameOn<T(!new)>(s: seq<T>, i: int, j: int, lo: int, hi: int)
    requires 0 <= lo <= i <= hi < |s| && lo <= j <= hi
    ensures SameOn(s, Swapped(s, i, j), lo, hi)
  {
    var m, t := s[lo..hi + 1], Swapped(s, i, j);
    SwapPermutes(m, i - lo, j - lo);
    assert t[lo..hi + 1] == Swapped(m, i - lo, j - lo);
    assert t[..lo] == s[..lo];
    assert t[hi + 1..] == s[hi + 1..];
  }

  lemma SameOnPermutes<T(!new)>(s: seq<T>, t: seq<T>, lo: int, hi: int)
    requires SameOn(s, t, lo, hi)
    ensures multiset(s) == multiset(t)
  {
    assert s == s[..lo] + s[lo..hi + 1] + s[hi + 1..];
    assert t == t[..lo] + t[lo..hi + 1] + t[hi + 1..];
  }

  lemma SameOnHas<T(!new)>(s: seq<T>, t: seq<T>, lo: int, hi: int, j: int) returns (k: int)
    requires SameOn(s, t, lo, hi) && 0 <= j < |s|
    ensures 0 <= k < |s| && s[k] == t[j] && (if lo <= j <= hi then lo <= k <= hi else k == j)
  {
    if j < lo {
      assert s[..lo][j] == t[..lo][j];
      k := j;
    } else if j > hi {
      assert s[hi + 1..][j - hi - 1] == t[hi + 1..][j - hi - 1];
      k := j;
    } else {
      assert t[lo..hi + 1][j - lo] in multiset(t[lo..hi + 1]);
      assert t[j] in s[lo..hi + 1];
      k := lo;
      var m :| 0 <= m < hi + 1 - lo && s[lo..hi + 1][m] == t[j];
      k := lo + m;
    }
  }

  // ----- Cuts -----

  ghost predicate BelowAll<T(!new)>(less: (T, T) -> bool, s: seq<T>, i: int, c: int)
    requires 0 <= i < |s| && 0 <= c
  {
    forall j :: c <= j < |s| ==> Le(less, s[i], s[j])
  }

  /** No element before position c comes after an element at c or beyond. */
  ghost predicate Cut<T(!new)>(less: (T, T) -> bool, s: seq<T>, c: int) {
    0 <= c <= |s| && forall i :: 0 <= i < c ==> BelowAll(less, s, i, c)
  }

  lemma CutAt<T(!new)>(less: (T, T) -> bool, s: seq<T>, c: int, i: int, j: int)
    requires Cut(less, s, c) && 0 <= i < c <= j < |s|
    ensures Le(less, s[i], s[j])
  {
    assert BelowAll(less, s, i, c);
  }

  /** Reordering a segment keeps the cuts that are not inside it. */
  lemma CutKept<T(!new)>(less: (T, T) -> bool, s: seq<T>, t: seq<T>, lo: int, hi: int, c: int)
    requires SameOn(s, t, lo, hi) && Cut(less, s, c) && !(lo < c <= hi)
    ensures Cut(less, t, c)
  {
    forall i | 0 <= i < c ensures BelowAll(less, t, i, c) {
      forall j | c <= j < |t| ensures Le(less, t[i], t[j]) {
        var k := SameOnHas(s, t, lo, hi, i);
        var m := SameOnHas(s, t, lo, hi, j);
        CutAt(less, s, c, k, m);
      }
    }
  }

  /** A pivot that separates the two sides of c in a segment between cuts makes c a cut. */
  lemma CutNew<T(!new)>(less: (T, T) -> bool, t: seq<T>, lo: int, hi: int, c: int, p: T)
    requires StrictWeak(less) && Cut(less, t, lo) && Cut(less, t, hi + 1) && lo <= c <= hi + 1
    requires forall i :: lo <= i < c ==> Le(less, t[i], p)
    requires forall j :: c <= j <= hi ==> Le(less, p, t[j])
    ensures Cut(less, t, c)
  {
    forall i | 0 <= i < c ensures BelowAll(less, t, i, c) {
      forall j | c <= j < |t| ensures Le(less, t[i], t[j]) {
        if i < lo {
          CutAt(less, t, lo, i, j);
        } else if j > hi {
          CutAt(less, t, hi + 1, i, j);
        } else {
          LeTrans(less, t[i], p, t[j]);
        }
      }
    }
  }

  // ----- Partition -----

  method Swap<T(!new)>(a: array<T>, i: int, j: int, ghost lo: int, ghost hi: int)
    requires 0 <= lo <= i <= hi < a.Length && lo <= j <= hi
    modifies a
    ensures a[..] == Swapped(old(a[..]), i, j) && SameOn(old(a[..]), a[..], lo, hi)
  {
    SwapSameOn(a[..], i, j, lo, hi);
    a[i], a[j] := a[j], a[i];
    assert a[..] == Swapped(old(a[..]), i, j);
  }

  lemma SameOnTrans<T(!new)>(s: seq<T>, t: seq<T>, u: seq<T>, lo: int, hi: int)
    requires SameOn(s, t, lo, hi) && SameOn(t, u, lo, hi)
    ensures SameOn(s, u, lo, hi)
  {
  }

  /** Orders the first, middle and last elements of a segment. */
  method MedianOfThree<T(!new)>(a: array<T>, less: (T, T) -> bool, lo: int, mid: int, hi: int)
    requires StrictWeak(less) && 0 <= lo < mid < hi < a.Length
    modifies a
    ensures SameOn(old(a[..]), a[..], lo, hi)
    ensures Le(less, a[lo], a[mid]) && Le(less, a[mid], a[hi])
  {
    ghost var s := a[..];
    if less(a[mid], a[lo]) { Swap(a, mid, lo, lo, hi); }
    ghost var t := a[..];
    if less(a[hi], a[mid]) {
      Swap(a, mid, hi, lo, hi);
      ghost var u := a[..];
      SameOnTrans(s, t, u, lo, hi);
      if less(a[mid], a[lo]) {
        Swap(a, mid, lo, lo, hi);
        SameOnTrans(s, u, a[..], lo, hi);
      }
    }
  }

  /** The elements of from..to-1 do not come after p. */
  ghost predicate AllLe<T(!new)>(less: (T, T) -> bool, s: seq<T>, from: int, to: int, p: T) {
    0 <= from && to <= |s| && forall k :: from <= k < to ==> Le(less, s[k], p)
  }

  ghost predicate AllGe<T(!new)>(less: (T, T) -> bool, s: seq<T>, from: int, to: int, p: T) {
    0 <= from && to <= |s| && forall k :: from <= k < to ==> Le(less, p, s[k])
  }

  /** What lies left of the left wall and right of the right wall, between two stops. */
  ghost predicate Walls<T(!new)>(less: (T, T) -> bool, s: seq<T>, lo: int, hi: int, left: int, right: int, p: T) {
    && 0 <= lo < left <= hi < |s| && lo <= right < hi
    && AllLe(less, s, lo, left, p) && AllGe(less, s, right + 1, hi + 1, p)
  }

  /** Both walls hold an element that belongs on the other side: exchanging them lets both move. */
  lemma WallsSwap<T(!new)>(less: (T, T) -> bool, s: seq<T>, lo: int, hi: int, left: int, right: int, p: T)
    requires Walls(less, s, lo, hi, left, right, p) && left < right
    requires Le(less, p, s[left]) && Le(less, s[right], p)
    ensures Walls(less, Swapped(s, left, right), lo, hi, left + 1, right - 1, p)
  {
  }

  /** Two walls that meet on an element as large as the pivot step over it. */
  lemma WallsMeet<T(!new)>(less: (T, T) -> bool, s: seq<T>, lo: int, hi: int, left: int, p: T)
    requires Walls(less, s, lo, hi, left, left, p)
    requires Le(less, p, s[left]) && Le(less, s[left], p)
    ensures Walls(less, s, lo, hi, left + 1, left - 1, p)
  {
  }

  /** Moves both walls as far as they go. */
  method MoveWalls<T(!new)>(a: array<T>, less: (T, T) -> bool, left: int, right: int, mid: int, ghost lo: int,
                            ghost hi: int)
    returns (l: int, r: int)
    requires StrictWeak(less) && 0 <= mid < a.Length && left <= right
    requires Walls(less, a[..], lo, hi, left, right, a[mid])
    ensures left <= l <= r + 1 && r <= right && Walls(less, a[..], lo, hi, l, r, a[mid])
    ensures Le(less, a[mid], a[l]) && Le(less, a[r], a[mid])
  {
    ghost var p, s := a[mid], a[..];
    assert Le(less, p, s[right + 1]);
    l := ScanRight(a, less, left, mid, right + 1);
    assert AllLe(less, s, lo, l, p) by {
      forall k | lo <= k < l ensures Le(less, s[k], p) {
        if k >= left { assert less(a[k], p); }
      }
    }
    assert Le(less, s[l - 1], p);
    r := ScanLeft(a, less, right, mid, l - 1);
    assert AllGe(less, s, r + 1, hi + 1, p) by {
      forall k | r + 1 <= k < hi + 1 ensures Le(less, p, s[k]) {
        if k <= right { assert less(p, a[k]); }
      }
    }
  }

  /** Collapses the walls: on return lo..right does not come after the pivot, left..hi does
      not come before it, and at most one element, as large as the pivot, is in between. */
  method Partition<T(!new)>(a: array<T>, less: (T, T) -> bool, lo: int, hi: int)
    returns (left: int, right: int, ghost p: T)
    requires StrictWeak(less) && 0 <= lo && lo + 6 <= hi < a.Length
    modifies a
    ensures SameOn(old(a[..]), a[..], lo, hi)
    ensures right + 1 <= left <= right + 2 && Walls(less, a[..], lo, hi, left, right, p)
  {
    var mid := lo + (hi - lo) / 2;
    ghost var s := a[..];
    MedianOfThree(a, less, lo, mid, hi);
    p := a[mid];
    left, right := lo + 1, hi - 1;
    while left <= right
      invariant left <= right + 2
      invariant lo <= mid <= hi && a[mid] == p
      invariant SameOn(s, a[..], lo, hi)
      invariant Walls(less, a[..], lo, hi, left, right, p)
      decreases right - left + 2
    {
      ghost var t := a[..];
      left, right := MoveWalls(a, less, left, right, mid, lo, hi);
      if left < right {
        left, right, mid := Exchange(a, less, left, right, mid, lo, hi);
        SameOnTrans(s, t, a[..], lo, hi);
      } else if left == right {
        WallsMeet(less, t, lo, hi, left, p);
        left, right := left + 1, right - 1;
        break;
      }
    }
  }

  /** Exchanges the elements at the walls, following the pivot when it is one of them. */
  method Exchange<T(!new)>(a: array<T>, less: (T, T) -> bool, left: int, right: int, mid: int, ghost lo: int,
                           ghost hi: int)
    returns (l: int, r: int, m: int)
    requires 0 <= lo <= mid <= hi < a.Length && left < right
    requires Walls(less, a[..], lo, hi, left, right, a[mid])
    requires Le(less, a[mid], a[left]) && Le(less, a[right], a[mid])
    modifies a
    ensures l == left + 1 && r == right - 1 && lo <= m <= hi && a[m] == old(a[mid])
    ensures SameOn(old(a[..]), a[..], lo, hi)
    ensures Walls(less, a[..], lo, hi, l, r, old(a[mid]))
  {
    WallsSwap(less, a[..], lo, hi, left, right, a[mid]);
    Swap(a, left, right, lo, hi);
    m := if mid == left then right else if mid == right then left else mid;
    assert a[m] == a[..][m];
    l, r := left + 1, right - 1;
  }

  /** First position from left on whose element is not before the one at mid; position stop
      holds such an element, so that no bound is tested. */
  method ScanRight<T(!new)>(a: array<T>, less: (T, T) -> bool, left: int, mid: int, ghost stop: int) returns (r: int)
    requires 0 <= left <= stop < a.Length && 0 <= mid < a.Length && !less(a[stop], a[mid]) && StrictWeak(less)
    ensures left <= r <= stop && !less(a[r], a[mid]) && forall k :: left <= k < r ==> less(a[k], a[mid])
  {
    r := left;
    while less(a[r], a[mid])
      invariant left <= r <= stop && forall k :: left <= k < r ==> less(a[k], a[mid])
      decreases stop - r
    {
      r := r + 1;
    }
  }

  method ScanLeft<T(!new)>(a: array<T>, less: (T, T) -> bool, right: int, mid: int, ghost stop: int) returns (r: int)
    requires 0 <= stop <= right < a.Length && 0 <= mid < a.Length && !less(a[mid], a[stop]) && StrictWeak(less)
    ensures stop <= r <= right && !less(a[mid], a[r]) && forall k :: r < k <= right ==> less(a[mid], a[k])
  {
    r := right;
    while less(a[mid], a[r])
      invariant stop <= r <= right && forall k :: r < k <= right ==> less(a[mid], a[k])
      decreases r - stop
    {
      r := r - 1;
    }
  }

  // ----- Segments still to be partitioned -----

  /** The ends of a segment, on the stack. */
  datatype Node = Node(lo: int, hi: int) {
    function Size(): int { hi - lo + 1 }
  }

  /** Segments with this difference of ends, or less, are left to the insertion sort. */
  const MAX_THRESH := 6

  function Pow2(k: nat): (r: nat)
    ensures r >= 1
  {
    if k == 0 then 1 else 2 * Pow2(k - 1)
  }

  /** A pending segment is larger than the threshold and has cuts at both ends. */
  ghost predicate Ends(g: Node, cuts: set<int>, n: int) {
    0 <= g.lo && g.lo + MAX_THRESH <= g.hi < n && g.lo in cuts && g.hi + 1 in cuts
  }

  /** The segment at depth k was halved k times. */
  predicate Halved(size: int, k: nat, n: int) { size * Pow2(k) <= n }

  ghost predicate Outside(g: Node, c: int) { !(g.lo < c <= g.hi) }

  ghost predicate Disjoint(g: Node, h: Node) { g.hi < h.lo || h.hi < g.lo }

  ghost predicate Between(cuts: set<int>, i: int, j: int) { exists c :: c in cuts && i < c <= j }

  ghost predicate Within(g: Node, i: int, j: int) { g.lo <= i && j <= g.hi }

  ghost predicate Together(pending: seq<Node>, i: int, j: int) { exists g :: g in pending && Within(g, i, j) }

  /** Positions i and j are in one pending segment, or there is a cut between them. */
  ghost predicate Apart(pending: seq<Node>, cuts: set<int>, i: int, j: int) {
    Between(cuts, i, j) || Together(pending, i, j)
  }

  ghost predicate AllEnds(pending: seq<Node>, cuts: set<int>, n: int) {
    forall g :: g in pending ==> Ends(g, cuts, n)
  }
  ghost predicate AllHalved(pending: seq<Node>, n: int) {
    forall k :: 0 <= k < |pending| ==> Halved(pending[k].Size(), k, n)
  }
  ghost predicate AllOutside(pending: seq<Node>, cuts: set<int>) {
    forall g, c :: g in pending && c in cuts ==> Outside(g, c)
  }
  ghost predicate AllDisjoint(pending: seq<Node>) {
    forall k, m :: 0 <= k < m < |pending| ==> Disjoint(pending[k], pending[m])
  }
  ghost predicate AllApart(pending: seq<Node>, cuts: set<int>, n: int) {
    forall i, j :: 0 <= i && i + MAX_THRESH < j < n ==> Apart(pending, cuts, i, j)
  }

  ghost predicate SegmentsOk(pending: seq<Node>, cuts: set<int>, n: int) {
    && AllEnds(pending, cuts, n) && AllHalved(pending, n) && AllOutside(pending, cuts)
    && AllDisjoint(pending) && AllApart(pending, cuts, n)
  }

  ghost predicate CutsOk<T(!new)>(less: (T, T) -> bool, s: seq<T>, cuts: set<int>) {
    forall c :: c in cuts ==> Cut(less, s, c)
  }

  /** Only parts above the threshold stay. */
  function Kept(g: Node): seq<Node> {
    if g.hi - g.lo <= MAX_THRESH then [] else [g]
  }

  /** The pending segments once g was partitioned; the larger part is deeper on the stack. */
  function Split(g: Node, left: int, right: int): seq<Node> {
    var l, r := Node(g.lo, right), Node(left, g.hi);
    if right - g.lo > g.hi - left then Kept(l) + Kept(r) else Kept(r) + Kept(l)
  }

  predicate Parts(g: Node, left: int, right: int) {
    g.lo <= right < g.hi && g.lo < left <= g.hi && right + 1 <= left <= right + 2
  }

  lemma SplitIn(g: Node, left: int, right: int, h: Node)
    requires Parts(g, left, right) && h in Split(g, left, right)
    ensures (h == Node(g.lo, right) || h == Node(left, g.hi)) && h.hi - h.lo > MAX_THRESH
  {
  }

  lemma SplitEnds(rest: seq<Node>, g: Node, cuts: set<int>, n: int, left: int, right: int)
    requires AllEnds(rest + [g], cuts, n) && Parts(g, left, right)
    ensures AllEnds(rest + Split(g, left, right), cuts + {right + 1, left}, n)
  {
    var after, more := rest + Split(g, left, right), cuts + {right + 1, left};
    assert g in rest + [g] && Ends(g, cuts, n);
    forall h | h in after ensures Ends(h, more, n) {
      if h in rest { assert h in rest + [g] && Ends(h, cuts, n); } else { SplitIn(g, left, right, h); }
    }
  }

  lemma HalvedLess(size: int, smaller: int, k: nat, n: int)
    requires Halved(size, k, n) && smaller <= size
    ensures Halved(smaller, k, n)
    ensures 2 * smaller <= size ==> Halved(smaller, k + 1, n)
  {
    var p := Pow2(k);
    assert smaller * p <= size * p;
    if 2 * smaller <= size {
      assert (2 * smaller) * p <= size * p;
      assert smaller * Pow2(k + 1) == (2 * smaller) * p;
    }
  }

  lemma SplitHalved(rest: seq<Node>, g: Node, n: int, left: int, right: int)
    requires AllHalved(rest + [g], n) && Parts(g, left, right)
    ensures AllHalved(rest + Split(g, left, right), n)
  {
    var before, parts := rest + [g], Split(g, left, right);
    var after := rest + parts;
    assert before[|rest|] == g && Halved(g.Size(), |rest|, n);
    forall k | 0 <= k < |after| ensures Halved(after[k].Size(), k, n) {
      if k < |rest| {
        assert after[k] == before[k] && Halved(before[k].Size(), k, n);
      } else {
        assert after[k] == parts[k - |rest|];
        HalvedLess(g.Size(), after[k].Size(), |rest|, n);
      }
    }
  }

  /** A segment other than g that is not cut by the ends of g does not meet the inside of g. */
  lemma SplitOutside(rest: seq<Node>, g: Node, cuts: set<int>, n: int, left: int, right: int)
    requires AllEnds(rest + [g], cuts, n) && AllOutside(rest + [g], cuts) && AllDisjoint(rest + [g])
             && Parts(g, left, right)
    ensures AllOutside(rest + Split(g, left, right), cuts + {right + 1, left})
  {
    var before, after, more := rest + [g], rest + Split(g, left, right), cuts + {right + 1, left};
    forall h, c | h in after && c in more ensures Outside(h, c) {
      if h in rest {
        assert h in before;
        RestDisjoint(rest, g, h);
        if c in cuts { assert Outside(h, c); }
      } else {
        SplitIn(g, left, right, h);
        if c in cuts { assert g in before && Outside(g, c); }
      }
    }
  }

  lemma RestDisjoint(rest: seq<Node>, g: Node, h: Node)
    requires AllDisjoint(rest + [g]) && h in rest
    ensures Disjoint(h, g)
  {
    var before := rest + [g];
    var k :| 0 <= k < |rest| && rest[k] == h;
    var m := |rest|;
    assert Disjoint(before[k], before[m]);
  }

  lemma SplitDisjoint(rest: seq<Node>, g: Node, left: int, right: int)
    requires AllDisjoint(rest + [g]) && Parts(g, left, right)
    ensures AllDisjoint(rest + Split(g, left, right))
  {
    var before, parts := rest + [g], Split(g, left, right);
    var after := rest + parts;
    forall k, m | 0 <= k < m < |after| ensures Disjoint(after[k], after[m]) {
      if m < |rest| {
        assert Disjoint(before[k], before[m]);
      } else {
        assert after[m] == parts[m - |rest|];
        SplitIn(g, left, right, after[m]);
        if k < |rest| {
          assert after[k] in rest;
          RestDisjoint(rest, g, after[k]);
        } else {
          assert after[k] == parts[k - |rest|];
        }
      }
    }
  }

  lemma SplitApart(rest: seq<Node>, g: Node, cuts: set<int>, n: int, left: int, right: int)
    requires AllApart(rest + [g], cuts, n) && Parts(g, left, right)
    ensures AllApart(rest + Split(g, left, right), cuts + {right + 1, left}, n)
  {
    var before, after, more := rest + [g], rest + Split(g, left, right), cuts + {right + 1, left};
    forall i, j | 0 <= i && i + MAX_THRESH < j < n ensures Apart(after, more, i, j) {
      assert Apart(before, cuts, i, j);
      if Between(cuts, i, j) {
        var c :| c in cuts && i < c <= j;
        assert c in more;
      } else {
        var h :| h in before && Within(h, i, j);
        if h in rest { assert h in after; } else { PartsApart(g, left, right, i, j, after, more); }
      }
    }
  }

  lemma PartsApart(g: Node, left: int, right: int, i: int, j: int, after: seq<Node>, more: set<int>)
    requires Parts(g, left, right) && Within(g, i, j) && i + MAX_THRESH < j
    requires right + 1 in more && left in more && forall h :: h in Split(g, left, right) ==> h in after
    ensures Apart(after, more, i, j)
  {
    if j <= right {
      var h := Node(g.lo, right);
      assert h in Kept(h) && h in Split(g, left, right) && Within(h, i, j);
    } else if i <= right {
      assert right + 1 in more;
    } else if i < left {
      assert left in more;
    } else {
      var h := Node(left, g.hi);
      assert h in Kept(h) && h in Split(g, left, right) && Within(h, i, j);
    }
  }

  lemma SplitOk(rest: seq<Node>, g: Node, cuts: set<int>, n: int, left: int, right: int)
    requires SegmentsOk(rest + [g], cuts, n) && Parts(g, left, right)
    ensures SegmentsOk(rest + Split(g, left, right), cuts + {right + 1, left}, n)
  {
    SplitEnds(rest, g, cuts, n, left, right);
    SplitHalved(rest, g, n, left, right);
    SplitOutside(rest, g, cuts, n, left, right);
    SplitDisjoint(rest, g, left, right);
    SplitApart(rest, g, cuts, n, left, right);
  }

  /** A partition keeps the cuts and adds two. */
  lemma PartitionCuts<T(!new)>(less: (T, T) -> bool, s: seq<T>, t: seq<T>, rest: seq<Node>, g: Node, cuts: set<int>,
                               left: int, right: int, p: T)
    requires StrictWeak(less) && CutsOk(less, s, cuts) && AllEnds(rest + [g], cuts, |s|) && AllOutside(rest + [g], cuts)
    requires SameOn(s, t, g.lo, g.hi) && Walls(less, t, g.lo, g.hi, left, right, p) && Parts(g, left, right)
    ensures CutsOk(less, t, cuts + {right + 1, left})
  {
    assert g in rest + [g];
    assert Ends(g, cuts, |s|);
    forall c | c in cuts ensures Cut(less, t, c) {
      assert Outside(g, c);
      CutKept(less, s, t, g.lo, g.hi, c);
    }
    CutNew(less, t, g.lo, g.hi, left, p);
    CutNew(less, t, g.lo, g.hi, right + 1, p);
  }

  /** Elements more than the threshold apart are in order. */
  ghost predicate Nearly<T(!new)>(less: (T, T) -> bool, s: seq<T>) {
    forall i, j :: 0 <= i && i + MAX_THRESH < j < |s| ==> Le(less, s[i], s[j])
  }

  lemma NothingPendingIsNearly<T(!new)>(less: (T, T) -> bool, s: seq<T>, cuts: set<int>)
    requires CutsOk(less, s, cuts) && SegmentsOk([], cuts, |s|)
    ensures Nearly(less, s)
  {
    forall i, j | 0 <= i && i + MAX_THRESH < j < |s| ensures Le(less, s[i], s[j]) {
      assert Apart([], cuts, i, j);
      var c :| c in cuts && i < c <= j;
      CutAt(less, s, c, i, j);
    }
  }

  lemma StartOk<T(!new)>(less: (T, T) -> bool, s: seq<T>)
    requires |s| > MAX_THRESH
    ensures SegmentsOk([Node(0, |s| - 1)], {0, |s|}, |s|) && CutsOk(less, s, {0, |s|})
  {
    var pending := [Node(0, |s| - 1)];
    forall i, j | 0 <= i && i + MAX_THRESH < j < |s| ensures Apart(pending, {0, |s|}, i, j) {
      assert Within(pending[0], i, j);
    }
    assert Cut(less, s, 0) && Cut(less, s, |s|);
  }

  /** Work left in the pending segments. */
  function Work(pending: seq<Node>): int {
    if pending == [] then 0 else Work(pending[..|pending| - 1]) + 2 * pending[|pending| - 1].Size() - 1
  }

  lemma {:induction false} WorkNonnegative(pending: seq<Node>, cuts: set<int>, n: int)
    requires AllEnds(pending, cuts, n)
    ensures 0 <= Work(pending)
    decreases |pending|
  {
    if pending != [] {
      var g := pending[|pending| - 1];
      assert g in pending && Ends(g, cuts, n);
      var front := pending[..|pending| - 1];
      assert forall h :: h in front ==> h in pending;
      WorkNonnegative(front, cuts, n);
    }
  }

  lemma WorkPush(rest: seq<Node>, g: Node)
    ensures Work(rest + [g]) == Work(rest) + 2 * g.Size() - 1
  {
    assert (rest + [g])[..|rest|] == rest;
  }

  lemma SplitWork(rest: seq<Node>, g: Node, left: int, right: int)
    requires Parts(g, left, right)
    ensures Work(rest + Split(g, left, right)) < Work(rest + [g])
  {
    WorkPush(rest, g);
    var l, r := Node(g.lo, right), Node(left, g.hi);
    WorkPush(rest, l);
    WorkPush(rest, r);
    WorkPush(rest + [l], r);
    WorkPush(rest + [r], l);
    assert rest + [] == rest;
    assert rest + ([l] + [r]) == rest + [l] + [r] && rest + ([r] + [l]) == rest + [r] + [l];
  }

  // ----- The quicksort phase -----

  /** What the stack and the current segment stand for: the entry at the bottom is the null
      node that ends the loop once it is taken. */
  function Pending(stack: seq<Node>, top: int, lo: int, hi: int): (r: seq<Node>)
    requires 0 <= top <= |stack|
    ensures |r| == top
  {
    if top == 0 then [] else stack[1..top] + [Node(lo, hi)]
  }

  /** A segment on a stack of that many entries is at most n halved as many times, so that a
      stack as long as the width of an integer is never full. */
  lemma StackFits(size: int, top: nat, n: int, bits: nat)
    requires size > MAX_THRESH && Halved(size, top, n) && bits >= 1 && n < Pow2(bits - 1)
    ensures top + 2 < bits
  {
    assert size * Pow2(top) >= 7 * Pow2(top);
    assert Pow2(top + 1) == 2 * Pow2(top);
    if bits <= top + 2 { PowMonotone(bits - 1, top + 1); }
  }

  lemma {:induction false} PowMonotone(a: nat, b: nat)
    requires a <= b
    ensures Pow2(a) <= Pow2(b)
    decreases b
  {
    if a < b { PowMonotone(a, b - 1); }
  }

  /** Sets up the next segment, as pushes and pops of the stack. */
  method NextSegment(stack: array<Node>, top: int, lo: int, hi: int, left: int, right: int)
    returns (top': int, lo': int, hi': int)
    requires 1 <= top <= stack.Length && Parts(Node(lo, hi), left, right)
    requires |Split(Node(lo, hi), left, right)| == 2 ==> top < stack.Length
    modifies stack
    ensures 0 <= top' <= stack.Length
    ensures Pending(stack[..], top', lo', hi') == old(stack[1..top]) + Split(Node(lo, hi), left, right)
  {
    top', lo', hi' := top, lo, hi;
    if right - lo <= MAX_THRESH {
      if hi - left <= MAX_THRESH {
        top' := top - 1;
        lo', hi' := stack[top'].lo, stack[top'].hi;
        assert top' > 0 ==> stack[1..top] == stack[1..top'] + [stack[top']];
      } else {
        lo' := left;
      }
    } else if hi - left <= MAX_THRESH {
      hi' := right;
    } else if right - lo > hi - left {
      stack[top] := Node(lo, right);
      top', lo' := top + 1, left;
    } else {
      stack[top] := Node(left, hi);
      top', hi' := top + 1, right;
    }
  }

  /** The invariant of the quicksort phase, on the values. */
  ghost predicate PhaseOk<T(!new)>(less: (T, T) -> bool, s: seq<T>, pending: seq<Node>, cuts: set<int>) {
    CutsOk(less, s, cuts) && SegmentsOk(pending, cuts, |s|)
  }

  /** A round permutes the array, keeps the phase and leaves less to do. */
  ghost predicate RoundDone<T(!new)>(less: (T, T) -> bool, s: seq<T>, t: seq<T>, before: seq<Node>, after: seq<Node>,
                                     cuts: set<int>) {
    PhaseOk(less, t, after, cuts) && multiset(t) == multiset(s) && 0 <= Work(after) < Work(before)
  }

  lemma RoundOk<T(!new)>(less: (T, T) -> bool, s: seq<T>, t: seq<T>, rest: seq<Node>, g: Node, cuts: set<int>,
                         left: int, right: int, p: T)
    requires StrictWeak(less) && PhaseOk(less, s, rest + [g], cuts)
    requires SameOn(s, t, g.lo, g.hi) && right + 1 <= left <= right + 2 && Walls(less, t, g.lo, g.hi, left, right, p)
    ensures Parts(g, left, right)
    ensures RoundDone(less, s, t, rest + [g], rest + Split(g, left, right), cuts + {right + 1, left})
  {
    SameOnPermutes(s, t, g.lo, g.hi);
    PartitionCuts(less, s, t, rest, g, cuts, left, right, p);
    SplitOk(rest, g, cuts, |s|, left, right);
    SplitWork(rest, g, left, right);
    WorkNonnegative(rest + Split(g, left, right), cuts + {right + 1, left}, |s|);
  }

  lemma LastEnds<T(!new)>(less: (T, T) -> bool, s: seq<T>, rest: seq<Node>, g: Node, cuts: set<int>)
    requires PhaseOk(less, s, rest + [g], cuts)
    ensures 0 <= g.lo && g.lo + MAX_THRESH <= g.hi < |s|
  {
    assert g in rest + [g] && Ends(g, cuts, |s|);
  }

  /** One partition and the choice of the next segment. */
  method Round<T(!new)>(a: array<T>, less: (T, T) -> bool, stack: array<Node>, top: int, lo: int, hi: int,
                        ghost cuts: set<int>)
    returns (top': int, lo': int, hi': int, ghost cuts': set<int>)
    requires (a as object) != stack && StrictWeak(less) && 1 <= top <= stack.Length && a.Length < Pow2(stack.Length - 1)
    requires PhaseOk(less, a[..], Pending(stack[..], top, lo, hi), cuts)
    modifies a, stack
    ensures 0 <= top' <= stack.Length
    ensures RoundDone(less, old(a[..]), a[..], Pending(old(stack[..]), top, lo, hi),
                      Pending(stack[..], top', lo', hi'), cuts')
  {
    ghost var rest, g, s := stack[1..top], Node(lo, hi), a[..];
    assert Pending(stack[..], top, lo, hi) == rest + [g];
    LastEnds(less, s, rest, g, cuts);
    var left, right, p := Partition(a, less, lo, hi);
    RoundOk(less, s, a[..], rest, g, cuts, left, right, p);
    cuts' := cuts + {right + 1, left};
    PushFits(rest, g, left, right, a.Length, stack.Length, cuts');
    top', lo', hi' := NextSegment(stack, top, lo, hi, left, right);
  }

  lemma PushFits(rest: seq<Node>, g: Node, left: int, right: int, n: int, bits: nat, cuts: set<int>)
    requires SegmentsOk(rest + Split(g, left, right), cuts, n) && bits >= 1 && n < Pow2(bits - 1)
    ensures |Split(g, left, right)| == 2 ==> |rest| + 1 < bits
  {
    if |Split(g, left, right)| == 2 {
      LastHalved(rest + Split(g, left, right), cuts, n);
      StackFits(MAX_THRESH + 1, |rest| + 1, n, bits);
    }
  }

  lemma LastHalved(pending: seq<Node>, cuts: set<int>, n: int)
    requires AllEnds(pending, cuts, n) && AllHalved(pending, n) && pending != []
    ensures Halved(MAX_THRESH + 1, |pending| - 1, n)
  {
    var k := |pending| - 1;
    var g := pending[k];
    assert g in pending && Ends(g, cuts, n) && Halved(g.Size(), k, n);
    HalvedLess(g.Size(), MAX_THRESH + 1, k, n);
  }

  /** The stack never held more entries than this. */
  predicate DepthOk(depth: nat, n: int) { depth >= 1 && Halved(MAX_THRESH + 1, depth - 1, n) }

  lemma StartHalved(n: int)
    requires MAX_THRESH < n
    ensures DepthOk(1, n)
  {
    assert Pow2(0) == 1;
  }

  lemma Deepest(depth: nat, pending: seq<Node>, cuts: set<int>, n: int) returns (d: nat)
    requires SegmentsOk(pending, cuts, n) && DepthOk(depth, n)
    ensures d == (if |pending| > depth then |pending| else depth) && DepthOk(d, n)
  {
    d := depth;
    if |pending| > depth {
      LastHalved(pending, cuts, n);
      d := |pending|;
    }
  }

  /** Partitions until all segments are at or below the threshold. intbits is the width of an
      integer, which is the size of the stack; depth is the largest number of entries used. */
  method QuickSort<T(!new)>(a: array<T>, less: (T, T) -> bool, intbits: nat) returns (ghost depth: nat)
    requires StrictWeak(less) && MAX_THRESH < a.Length && intbits >= 1 && a.Length < Pow2(intbits - 1)
    modifies a
    ensures multiset(a[..]) == multiset(old(a[..])) && Nearly(less, a[..])
    ensures DepthOk(depth, a.Length)
  {
    var stack := new Node[intbits](_ => Node(0, 0));
    ghost var cuts := {0, a.Length};
    StartOk(less, a[..]);
    StartHalved(a.Length);
    assert Pending(stack[..], 1, 0, a.Length - 1) == [Node(0, a.Length - 1)];
    depth := Rounds(a, less, stack, 1, 0, a.Length - 1, cuts);
  }

  /** Takes segments from the stack until the null node at the bottom is taken. */
  method Rounds<T(!new)>(a: array<T>, less: (T, T) -> bool, stack: array<Node>, top0: int, lo0: int, hi0: int,
                         ghost cuts0: set<int>)
    returns (ghost depth: nat)
    requires (a as object) != stack && StrictWeak(less) && 1 <= stack.Length && a.Length < Pow2(stack.Length - 1)
    requires 0 <= top0 <= stack.Length && PhaseOk(less, a[..], Pending(stack[..], top0, lo0, hi0), cuts0)
             && DepthOk(1, a.Length)
    modifies a, stack
    ensures multiset(a[..]) == multiset(old(a[..])) && Nearly(less, a[..])
    ensures DepthOk(depth, a.Length)
  {
    var top, lo, hi := top0, lo0, hi0;
    ghost var cuts := cuts0;
    depth := 1;
    while 0 < top
      invariant 0 <= top <= stack.Length && DepthOk(depth, a.Length)
      invariant multiset(a[..]) == multiset(old(a[..]))
      invariant PhaseOk(less, a[..], Pending(stack[..], top, lo, hi), cuts)
      decreases Work(Pending(stack[..], top, lo, hi))
    {
      top, lo, hi, cuts := Round(a, less, stack, top, lo, hi, cuts);
      depth := Deepest(depth, Pending(stack[..], top, lo, hi), cuts, a.Length);
    }
    NothingPendingIsNearly(less, a[..], cuts);
  }

  // ----- The insertion phase -----

  function Least(x: int, y: int): int { if x < y then x else y }

  /** Position 0 holds an element that comes after none. */
  ghost predicate Guarded<T(!new)>(less: (T, T) -> bool, s: seq<T>) {
    s != [] ==> BelowAll(less, s, 0, 0)
  }

  /** Finds the least of the elements up to the threshold and places it first. */
  method PlaceLeast<T(!new)>(a: array<T>, less: (T, T) -> bool)
    requires StrictWeak(less) && 0 < a.Length && Nearly(less, a[..])
    modifies a
    ensures multiset(a[..]) == multiset(old(a[..])) && Guarded(less, a[..])
  {
    var thresh := Least(a.Length - 1, MAX_THRESH);
    var tmp, run := 0, 1;
    ghost var s := a[..];
    LeSelf(less, s[0]);
    while run <= thresh
      invariant 0 <= tmp < a.Length && 1 <= run <= thresh + 1
      invariant a[..] == s && forall k :: 0 <= k < run ==> Le(less, s[tmp], s[k])
    {
      if less(a[run], a[tmp]) {
        RunIsLess(less, s, tmp, run);
        tmp := run;
      }
      run := run + 1;
    }
    LeastOfAll(less, s, tmp, run);
    if tmp != 0 {
      LeastFirst(less, s, tmp);
      Swap(a, tmp, 0, 0, a.Length - 1);
      SameOnPermutes(s, a[..], 0, a.Length - 1);
    }
  }

  lemma RunIsLess<T(!new)>(less: (T, T) -> bool, s: seq<T>, tmp: int, run: int)
    requires StrictWeak(less) && 0 <= tmp < |s| && 0 <= run < |s| && less(s[run], s[tmp])
    requires forall k :: 0 <= k < run ==> Le(less, s[tmp], s[k])
    ensures forall k :: 0 <= k <= run ==> Le(less, s[run], s[k])
  {
    assert Le(less, s[run], s[tmp]);
    LeSelf(less, s[run]);
    forall k | 0 <= k < run ensures Le(less, s[run], s[k]) { LeTrans(less, s[run], s[tmp], s[k]); }
  }

  /** The least of the first elements is the least of all, since what lies beyond the threshold
      comes after the first element. */
  lemma LeastOfAll<T(!new)>(less: (T, T) -> bool, s: seq<T>, tmp: int, run: int)
    requires StrictWeak(less) && Nearly(less, s) && 0 <= tmp < |s| && run == Least(|s| - 1, MAX_THRESH) + 1
    requires forall k :: 0 <= k < run ==> Le(less, s[tmp], s[k])
    ensures BelowAll(less, s, tmp, 0)
  {
    forall j | 0 <= j < |s| ensures Le(less, s[tmp], s[j]) {
      if j >= run {
        var i := 0;
        assert Le(less, s[i], s[j]);
        LeTrans(less, s[tmp], s[i], s[j]);
      }
    }
  }

  lemma LeastFirst<T(!new)>(less: (T, T) -> bool, s: seq<T>, tmp: int)
    requires 0 <= tmp < |s| && BelowAll(less, s, tmp, 0)
    ensures Guarded(less, Swapped(s, tmp, 0))
  {
    var t := Swapped(s, tmp, 0);
    forall j | 0 <= j < |t| ensures Le(less, t[0], t[j]) {
      var k := if j == 0 then tmp else if j == tmp then 0 else j;
      assert t[j] == s[k] && Le(less, s[tmp], s[k]);
    }
  }

  /** s with the element at run moved down to position to. */
  function Inserted<T>(s: seq<T>, to: int, run: int): (r: seq<T>)
    requires 0 <= to <= run < |s|
    ensures |r| == |s|
  {
    s[..to] + [s[run]] + s[to..run] + s[run + 1..]
  }

  lemma InsertedPermutes<T(!new)>(s: seq<T>, to: int, run: int)
    requires 0 <= to <= run < |s|
    ensures multiset(Inserted(s, to, run)) == multiset(s)
  {
    assert s == s[..to] + s[to..run] + [s[run]] + s[run + 1..];
  }

  /** Moving the next element after the last one it does not precede keeps the prefix sorted. */
  lemma InsertedSorts<T(!new)>(less: (T, T) -> bool, s: seq<T>, to: int, run: int)
    requires StrictWeak(less) && 1 <= to <= run < |s| && Sorted(less, s[..run]) && Guarded(less, s)
    requires Le(less, s[to - 1], s[run]) && forall k :: to <= k < run ==> less(s[run], s[k])
    ensures Sorted(less, Inserted(s, to, run)[..run + 1]) && Guarded(less, Inserted(s, to, run))
  {
    var t := Inserted(s, to, run);
    var u := t[..run + 1];
    forall i, j | 0 <= i < j < |u| ensures Le(less, u[i], u[j]) {
      var k := if i < to then i else if i == to then run else i - 1;
      var m := if j < to then j else if j == to then run else j - 1;
      assert u[i] == s[k] && u[j] == s[m];
      if k != run && m != run { assert s[k] == s[..run][k] && s[m] == s[..run][m]; }
      if m == run && k < to - 1 {
        assert Le(less, s[..run][k], s[..run][to - 1]);
        LeTrans(less, s[k], s[to - 1], s[run]);
      }
      if k == run { assert less(s[run], s[m]); }
    }
    assert t[0] == s[0];
    forall j | 0 <= j < |t| ensures Le(less, t[0], t[j]) {
      var m := if j < to then j else if j == to then run else if j <= run then j - 1 else j;
      assert t[j] == s[m];
    }
  }

  /** Moves the element at run down to position to, and those from there on up by one. */
  method Rotate<T(!new)>(a: array<T>, to: int, run: int)
    requires 0 <= to <= run < a.Length
    modifies a
    ensures a[..] == Inserted(old(a[..]), to, run)
  {
    ghost var s := a[..];
    var c := a[run];
    var hi, lo := run, run - 1;
    while lo >= to
      invariant to - 1 <= lo < run && hi == lo + 1
      invariant a[..] == MovedUp(s, hi, run)
    {
      MovedUpNext(s, hi, run);
      a[hi] := a[lo];
      hi := lo;
      lo := lo - 1;
    }
    MovedUpLast(s, to, run);
    a[hi] := c;
  }

  /** The elements from hi on have moved up by one, over the one at run. */
  function MovedUp<T>(s: seq<T>, hi: int, run: int): (r: seq<T>)
    requires 0 <= hi <= run < |s|
    ensures |r| == |s|
  {
    s[..hi + 1] + s[hi..run] + s[run + 1..]
  }

  lemma MovedUpNext<T>(s: seq<T>, hi: int, run: int)
    requires 0 < hi <= run < |s|
    ensures MovedUp(s, hi, run)[hi - 1] == s[hi - 1]
    ensures MovedUp(s, hi, run)[hi := s[hi - 1]] == MovedUp(s, hi - 1, run)
  {
  }

  lemma MovedUpLast<T>(s: seq<T>, to: int, run: int)
    requires 0 <= to <= run < |s|
    ensures MovedUp(s, to, run)[to := s[run]] == Inserted(s, to, run)
  {
  }

  /** Finds where the element at run goes. No bound is tested: the first element stops it. */
  method Place<T(!new)>(a: array<T>, less: (T, T) -> bool, run: int) returns (to: int)
    requires 1 <= run < a.Length && Guarded(less, a[..])
    ensures 1 <= to <= run && Le(less, a[to - 1], a[run]) && forall k :: to <= k < run ==> less(a[run], a[k])
  {
    var tmp := run - 1;
    assert Le(less, a[..][0], a[..][run]);
    while less(a[run], a[tmp])
      invariant 0 <= tmp < run && forall k :: tmp < k < run ==> less(a[run], a[k])
      decreases tmp
    {
      tmp := tmp - 1;
    }
    to := tmp + 1;
  }

  method InsertionSort<T(!new)>(a: array<T>, less: (T, T) -> bool)
    requires StrictWeak(less) && 0 < a.Length && Guarded(less, a[..])
    modifies a
    ensures multiset(a[..]) == multiset(old(a[..])) && Sorted(less, a[..])
  {
    var run := 2;
    TwoSorted(less, a[..]);
    while run <= a.Length - 1
      invariant 2 <= run && (run <= a.Length || a.Length < 2)
      invariant multiset(a[..]) == multiset(old(a[..])) && InsertedOk(less, a[..], run)
    {
      Insert(a, less, run);
      run := run + 1;
    }
    assert a[..][..a.Length] == a[..];
  }

  /** The invariant of the insertion sort. */
  ghost predicate InsertedOk<T(!new)>(less: (T, T) -> bool, s: seq<T>, run: int) {
    0 <= run && Guarded(less, s) && Sorted(less, s[..Least(run, |s|)])
  }

  method Insert<T(!new)>(a: array<T>, less: (T, T) -> bool, run: int)
    requires StrictWeak(less) && 2 <= run < a.Length && InsertedOk(less, a[..], run)
    modifies a
    ensures multiset(a[..]) == multiset(old(a[..])) && InsertedOk(less, a[..], run + 1)
  {
    var to := Place(a, less, run);
    ghost var s := a[..];
    InsertedPermutes(s, to, run);
    InsertedSorts(less, s, to, run);
    if to != run {
      Rotate(a, to, run);
    } else {
      assert Inserted(s, to, run) == s;
    }
  }

  /** The first two elements need no insertion. */
  lemma TwoSorted<T(!new)>(less: (T, T) -> bool, s: seq<T>)
    requires Guarded(less, s) && s != []
    ensures InsertedOk(less, s, 2)
  {
  }

  /** The whole template: a sorted permutation, for any strict weak order and any array that
      an integer of intbits bits, sign included, can count. depth is the most entries the
      stack has held. */
  method Sort<T(!new)>(a: array<T>, less: (T, T) -> bool, intbits: nat) returns (ghost depth: nat)
    requires StrictWeak(less) && intbits >= 1 && a.Length < Pow2(intbits - 1)
    modifies a
    ensures multiset(a[..]) == multiset(old(a[..])) && Sorted(less, a[..])
    ensures if a.Length > MAX_THRESH then DepthOk(depth, a.Length) else depth == 0
  {
    depth := 0;
    if a.Length == 0 { return; }
    if a.Length > MAX_THRESH { depth := QuickSort(a, less, intbits); }
    PlaceLeast(a, less);
    InsertionSort(a, less);
  }

  // ----- The comparisons the template is used with -----

  /** An element of one or several integers. */
  datatype Tuple = Tuple(first: int, second: int, third: int)

  /** intSort1asc1, intSort2asc1 and intSort3asc1 compare the first integer only. */
  function FirstLess(): (Tuple, Tuple) -> bool {
    (x: Tuple, y: Tuple) => x.first < y.first
  }

  /** intSort2asc2 and qsort2IntAsc compare the first two. */
  function PairLess(): (Tuple, Tuple) -> bool {
    (x: Tuple, y: Tuple) => x.first < y.first || (x.first == y.first && x.second < y.second)
  }

  lemma ComparisonsAreStrictWeak()
    ensures StrictWeak(FirstLess()) && StrictWeak(PairLess())
  {
  }
}
