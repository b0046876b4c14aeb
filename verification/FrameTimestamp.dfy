/** Clock arithmetic of the GenICam provider: how a frame's device timestamp relates to the
    requested action time, and the offset used to convert a system time to the PTP clock. */
module FrameTimestamp {
  import opened Optional

  datatype Relation = Unknown | Stale | Matching | Future

  /** Compares with unsigned subtractions only after testing which side is larger. */
  function Classify(observed: nat, expected: nat, tolerance: nat): (r: Relation)
    ensures r.Matching? <==>
              && observed != 0 && expected != 0
              && expected <= observed + tolerance && observed <= expected + tolerance
    ensures r.Stale? <==> observed != 0 && expected != 0 && observed + tolerance < expected
    ensures r.Future? <==> observed != 0 && expected != 0 && observed > expected + tolerance
  {
    if observed == 0 || expected == 0 then Unknown
    else if observed < expected && expected - observed > tolerance then Stale
    else if observed > expected && observed > expected + tolerance then Future
    else Matching
  }

  /** True when two distinct action times are closer than the camera's minimum interval. */
  predicate Conflict(requested: nat, existing: nat, minimum: nat) {
    if requested == existing then false
    else (if requested > existing then requested - existing else existing - requested) < minimum
  }

  // ---------- median clock offset ----------

  predicate IsSorted(s: seq<int>) {
    forall i, j :: 0 <= i < j < |s| ==> s[i] <= s[j]
  }

  function Insert(x: int, s: seq<int>): (r: seq<int>)
    ensures |r| == |s| + 1 && multiset(r) == multiset(s) + multiset{x}
  {
    if s == [] || x <= s[0] then [x] + s
    else
      assert s == [s[0]] + s[1..];
      [s[0]] + Insert(x, s[1..])
  }

  lemma {:induction false} InsertSorts(x: int, s: seq<int>)
    requires IsSorted(s)
    ensures IsSorted(Insert(x, s)) && Insert(x, s)[0] == if s == [] || x <= s[0] then x else s[0]
  {
    if s != [] && s[0] < x {
      InsertSorts(x, s[1..]);
      var rest := Insert(x, s[1..]);
      assert s[0] <= rest[0];
    }
  }

  /** The vector after `std::sort`. */
  function Sorted(s: seq<int>): (r: seq<int>)
    ensures IsSorted(r) && multiset(r) == multiset(s) && |r| == |s|
  {
    if s == [] then []
    else
      assert s == [s[0]] + s[1..];
      var tail := Sorted(s[1..]);
      InsertSorts(s[0], tail);
      Insert(s[0], tail)
  }

  /** The half-difference is taken of a non-negative number, so truncation and Euclidean division agree. */
  function MiddleOf(s: seq<int>): int
    requires s != []
  {
    var upper := s[|s| / 2];
    if |s| % 2 != 0 then upper
    else
      var lower := s[|s| / 2 - 1];
      lower + (upper - lower) / 2
  }

  /** None stands for the exception thrown on an empty vector. */
  function MedianClockOffset(offsets: seq<int>): Option<int> {
    if offsets == [] then None else Some(MiddleOf(Sorted(offsets)))
  }

  lemma SortedHeads(a: seq<int>, b: seq<int>)
    requires IsSorted(a) && IsSorted(b) && a != [] && b != [] && multiset(a) == multiset(b)
    ensures a[0] == b[0]
  {
    assert a[0] in multiset(b) && b[0] in multiset(a);
  }

  lemma TailElements(s: seq<int>)
    requires s != []
    ensures multiset(s[1..]) == multiset(s) - multiset{s[0]}
  {
    assert s == [s[0]] + s[1..];
  }

  /** Two sorted sequences with the same elements are the same sequence. */
  lemma {:induction false} SortedIsUnique(a: seq<int>, b: seq<int>)
    requires IsSorted(a) && IsSorted(b) && multiset(a) == multiset(b)
    ensures a == b
  {
    SameLength(a, b);
    if a != [] {
      SortedHeads(a, b);
      TailElements(a);
      TailElements(b);
      SortedIsUnique(a[1..], b[1..]);
      assert a == [a[0]] + a[1..] && b == [b[0]] + b[1..];
    }
  }

  lemma SameLength(a: seq<int>, b: seq<int>)
    requires multiset(a) == multiset(b)
    ensures |a| == |b|
  {
    assert |a| == |multiset(a)| == |multiset(b)| == |b|;
  }

  /** The order in which the sessions report their offsets does not matter. */
  lemma MedianIgnoresOrder(a: seq<int>, b: seq<int>)
    requires multiset(a) == multiset(b)
    ensures MedianClockOffset(a) == MedianClockOffset(b)
  {
    SameLength(a, b);
    SortedIsUnique(Sorted(a), Sorted(b));
  }

  function CountAtMost(s: seq<int>, bound: int): nat {
    if s == [] then 0 else (if s[0] <= bound then 1 else 0) + CountAtMost(s[1..], bound)
  }

  function CountAtLeast(s: seq<int>, bound: int): nat {
    if s == [] then 0 else (if s[0] >= bound then 1 else 0) + CountAtLeast(s[1..], bound)
  }

  lemma {:induction false} CountsOfInsert(x: int, s: seq<int>, bound: int)
    requires IsSorted(s)
    ensures CountAtMost(Insert(x, s), bound) == CountAtMost([x], bound) + CountAtMost(s, bound)
    ensures CountAtLeast(Insert(x, s), bound) == CountAtLeast([x], bound) + CountAtLeast(s, bound)
  {
    var r := Insert(x, s);
    if s == [] || x <= s[0] {
      assert r[0] == x && r[1..] == s;
    } else {
      CountsOfInsert(x, s[1..], bound);
      assert r[0] == s[0] && r[1..] == Insert(x, s[1..]);
    }
  }

  lemma {:induction false} CountsOfSorted(s: seq<int>, bound: int)
    ensures CountAtMost(Sorted(s), bound) == CountAtMost(s, bound)
    ensures CountAtLeast(Sorted(s), bound) == CountAtLeast(s, bound)
  {
    if s != [] {
      CountsOfSorted(s[1..], bound);
      CountsOfInsert(s[0], Sorted(s[1..]), bound);
    }
  }

  /** In a sorted sequence, everything up to position k is at most s[k], everything from k at least. */
  lemma {:induction false} CountsAround(s: seq<int>, k: nat, bound: int)
    requires k <= |s|
    ensures (forall i :: 0 <= i < k ==> s[i] <= bound) ==> CountAtMost(s, bound) >= k
    ensures (forall i :: k <= i < |s| ==> s[i] >= bound) ==> CountAtLeast(s, bound) >= |s| - k
  {
    if s != [] {
      assert forall i :: 0 <= i < |s[1..]| ==> s[1..][i] == s[i + 1];
      CountsAround(s[1..], if k == 0 then 0 else k - 1, bound);
    }
  }

  lemma SortedMedian(s: seq<int>, m: int)
    requires IsSorted(s) && s != []
    requires if |s| % 2 != 0 then m == s[|s| / 2] else s[|s| / 2 - 1] <= m <= s[|s| / 2]
    ensures 2 * CountAtMost(s, m) >= |s| && 2 * CountAtLeast(s, m) >= |s|
    ensures s[0] <= m <= s[|s| - 1]
  {
    var half := |s| / 2;
    CountsAround(s, half, m);
    if |s| % 2 != 0 {
      CountsAround(s, half + 1, m);
    }
  }

  lemma SameElements(a: seq<int>, b: seq<int>, x: int)
    requires multiset(a) == multiset(b) && x in a
    ensures x in b
  {
    assert x in multiset(b);
  }

  /** The offset used is a median: at least half of the offsets are on each side of it, and it lies
      between the smallest and the largest. An offset exists exactly for a non-empty vector. */
  lemma MedianSplitsOffsets(offsets: seq<int>)
    ensures MedianClockOffset(offsets).Some? <==> offsets != []
    ensures MedianClockOffset(offsets).Some? ==>
              var m := MedianClockOffset(offsets).value;
              && 2 * CountAtMost(offsets, m) >= |offsets|
              && 2 * CountAtLeast(offsets, m) >= |offsets|
              && (exists low :: low in offsets && low <= m)
              && (exists high :: high in offsets && m <= high)
  {
    if offsets != [] {
      var m := MedianClockOffset(offsets).value;
      CountsOfSorted(offsets, m);
      MedianOfSorted(offsets, Sorted(offsets), m);
    }
  }

  lemma MedianOfSorted(offsets: seq<int>, s: seq<int>, m: int)
    requires IsSorted(s) && s != [] && multiset(s) == multiset(offsets) && |s| == |offsets|
    requires if |s| % 2 != 0 then m == s[|s| / 2] else s[|s| / 2 - 1] <= m <= s[|s| / 2]
    requires CountAtMost(s, m) == CountAtMost(offsets, m) && CountAtLeast(s, m) == CountAtLeast(offsets, m)
    ensures 2 * CountAtMost(offsets, m) >= |offsets| && 2 * CountAtLeast(offsets, m) >= |offsets|
    ensures (exists low :: low in offsets && low <= m) && (exists high :: high in offsets && m <= high)
  {
    SortedMedian(s, m);
    SameElements(s, offsets, s[0]);
    SameElements(s, offsets, s[|s| - 1]);
  }
}
