/**
 * Facts about the strictly descending id lists that a replies list keeps
 * (front = newest id), and the two library algorithms it runs on them:
 * `ranges::lower_bound` with `std::greater<>` and `ranges::reverse`.
 */
module Ordering {

  /** A message id (`MsgId`), unbounded here. */
  type MsgId = int

  predicate Descending(s: seq<MsgId>) {
    forall i, j :: 0 <= i < j < |s| ==> s[i] > s[j]
  }

  predicate Ascending(s: seq<MsgId>) {
    forall i, j :: 0 <= i < j < |s| ==> s[i] < s[j]
  }

  function Min(a: int, b: int): (r: int)
    ensures r <= a && r <= b && (r == a || r == b)
  {
    if a <= b then a else b
  }

  /**
   * The position `ranges::lower_bound(s, x, std::greater<>())` returns: the
   * first index whose id is not greater than `x`, or `|s|` if there is none.
   * On a list partitioned by `> x` (which every descending list is) this is
   * the unique such split point, which is all the library promises.
   */
  function LowerBound(s: seq<MsgId>, x: MsgId): (r: nat)
    ensures r <= |s|
    ensures forall j :: 0 <= j < r ==> s[j] > x
    ensures r < |s| ==> s[r] <= x
  {
    if s == [] || s[0] <= x then 0 else 1 + LowerBound(s[1..], x)
  }

  /** On a descending list the lower bound lands on `x` exactly when `x` is present. */
  lemma LowerBoundFinds(s: seq<MsgId>, x: MsgId)
    requires Descending(s)
    ensures x in s <==> (LowerBound(s, x) < |s| && s[LowerBound(s, x)] == x)
  {
    if x in s {
      var k :| 0 <= k < |s| && s[k] == x;
      assert LowerBound(s, x) <= k;
    }
  }

  /** `ranges::reverse`, as a value. */
  function Reverse(s: seq<MsgId>): (r: seq<MsgId>)
    ensures |r| == |s|
    ensures forall k :: 0 <= k < |s| ==> r[k] == s[|s| - 1 - k]
  {
    if s == [] then [] else Reverse(s[1..]) + [s[0]]
  }

  lemma ReverseOfDescending(s: seq<MsgId>)
    requires Descending(s)
    ensures Ascending(Reverse(s))
  {
  }

  /** Inserting at the lower bound an id that is not there keeps the list strictly descending. */
  lemma InsertKeepsDescending(s: seq<MsgId>, x: MsgId)
    requires Descending(s)
    requires var i := LowerBound(s, x); i < |s| ==> s[i] != x
    ensures var i := LowerBound(s, x); Descending(s[..i] + [x] + s[i..])
  {
    var i := LowerBound(s, x);
    var t := s[..i] + [x] + s[i..];
    assert |t| == |s| + 1 && t[i] == x;
    assert forall k :: 0 <= k < i ==> t[k] == s[k];
    assert forall k :: i < k < |t| ==> t[k] == s[k - 1];
    forall a, b | 0 <= a < b < |t|
      ensures t[a] > t[b]
    {
      if a == i && b > i {
        assert s[b - 1] <= s[i] < x;
      }
    }
  }


  lemma RemoveKeepsDescending(s: seq<MsgId>, i: nat)
    requires Descending(s)
    requires i < |s|
    ensures Descending(s[..i] + s[i + 1..])
  {
    var t := s[..i] + s[i + 1..];
    forall a, b | 0 <= a < b < |t|
      ensures t[a] > t[b]
    {
      assert t[b] == s[if b < i then b else b + 1];
      assert t[a] == s[if a < i then a else a + 1];
    }
  }

  /** Two descending runs, every id of the first above every id of the second, concatenate descending. */
  lemma ConcatDescending(a: seq<MsgId>, b: seq<MsgId>)
    requires Descending(a) && Descending(b)
    requires forall x, y :: x in a && y in b ==> x > y
    ensures Descending(a + b)
  {
    var t := a + b;
    forall p, q | 0 <= p < q < |t|
      ensures t[p] > t[q]
    {
      if p < |a| && q >= |a| {
        assert t[p] == a[p] && t[q] == b[q - |a|];
        assert a[p] in a && b[q - |a|] in b;
      } else if p >= |a| {
        assert t[p] == b[p - |a|] && t[q] == b[q - |a|];
      }
    }
  }

  /** Number of ids in `s` below (older than) `x`. */
  function CountBelow(s: seq<MsgId>, x: MsgId): nat {
    if s == [] then 0 else (if s[0] < x then 1 else 0) + CountBelow(s[1..], x)
  }

  /** Number of ids in `s` above (newer than) `x`. */
  function CountAbove(s: seq<MsgId>, x: MsgId): nat {
    if s == [] then 0 else (if s[0] > x then 1 else 0) + CountAbove(s[1..], x)
  }

  lemma {:induction false} CountBelowNone(s: seq<MsgId>, x: MsgId)
    requires forall j :: 0 <= j < |s| ==> s[j] >= x
    ensures CountBelow(s, x) == 0
  {
    if s != [] {
      CountBelowNone(s[1..], x);
    }
  }

  lemma {:induction false} CountBelowAll(s: seq<MsgId>, x: MsgId)
    requires forall j :: 0 <= j < |s| ==> s[j] < x
    ensures CountBelow(s, x) == |s|
  {
    if s != [] {
      CountBelowAll(s[1..], x);
    }
  }

  lemma {:induction false} CountAboveNone(s: seq<MsgId>, x: MsgId)
    requires forall j :: 0 <= j < |s| ==> s[j] <= x
    ensures CountAbove(s, x) == 0
  {
    if s != [] {
      CountAboveNone(s[1..], x);
    }
  }

  /**
   * In a descending list the entry at index `k` has exactly `k` newer and
   * `|s| - 1 - k` older entries beside it.
   */
  lemma {:induction false} DescendingCounts(s: seq<MsgId>, k: nat)
    requires Descending(s)
    requires k < |s|
    ensures CountAbove(s, s[k]) == k
    ensures CountBelow(s, s[k]) == |s| - 1 - k
  {
    if k == 0 {
      CountAboveNone(s[1..], s[0]);
      CountBelowAll(s[1..], s[0]);
    } else {
      DescendingCounts(s[1..], k - 1);
    }
  }
}
