/**
 * `buildFromData`: whether a viewer's request (anchor `around`, limits
 * before and after) can be served from the cached window, the slice it is
 * served, and the loads it triggers.
 */
module Slices {
  import opened Wrappers
  import opened Ordering
  import opened Requests
  import opened Cache

  /** `MessagesSlice`: ids in ascending display order and the counts around them. */
  datatype Slice = Slice(
    ids: seq<MsgId>,
    skippedBefore: Option<int>,
    skippedAfter: Option<int>,
    fullCount: Option<int>)

  /** Whether a slice was served, the viewer's slice afterwards, and the loads asked for. */
  datatype Built = Built(served: bool, slice: Slice, load: Load)

  /** The thread is known to have no replies at all. */
  predicate ThreadEmpty(w: Window) {
    w.list == [] && IsZero(w.skippedBefore) && IsZero(w.skippedAfter)
  }

  /**
   * The anchor cannot be served from the window: nothing is cached, the
   * newest anchor (`around == 0`) is asked for while the front may not be
   * the newest message, or the anchor lies outside the cached range.
   */
  predicate NeedsAround(w: Window, around: MsgId) {
    || w.list == []
    || (around == 0 && !IsZero(w.skippedAfter))
    || (around > 0 && around < w.list[|w.list| - 1])
    || around > w.list[0]
  }

  /** Where the code splits the window: the lower bound of `around`, or the end for `around == 0`. */
  function SplitIndex(list: seq<MsgId>, around: MsgId): (i: nat)
    ensures i <= |list|
  {
    if around != 0 then LowerBound(list, around) else |list|
  }

  /**
   * A slice's skip count: the window's known skip plus the cached ids cut
   * off on that side; an unknown skip leaves the viewer's previous value.
   */
  function Skipped(known: Option<int>, cut: int, previous: Option<int>): Option<int> {
    match known
    case None => previous
    case Some(n) => Some(n + cut)
  }

  /** The result of the empty thread: no ids and every count 0. */
  const EmptySlice := Slice([], Some(0), Some(0), Some(0))

  /**
   * The cut as written at split point `i`: up to `limitBefore` ids before
   * `i` and up to `limitAfter + 1` ids from `i` on, reversed into display
   * order; known skips grow by the ids cut off on their side.
   */
  function Cut(w: Window, i: nat, limitBefore: nat, limitAfter: nat, prev: Slice): (s: Slice)
    requires i <= |w.list|
    ensures var useBefore := Min(i, limitBefore);
      var useAfter := Min(|w.list| - i, limitAfter + 1);
      && |s.ids| == useBefore + useAfter <= limitBefore + limitAfter + 1
      && (forall k :: 0 <= k < |s.ids| ==> s.ids[k] == w.list[i + useAfter - 1 - k])
      && s.skippedBefore == Skipped(w.skippedBefore, i - useBefore, prev.skippedBefore)
      && s.skippedAfter == Skipped(w.skippedAfter, |w.list| - i - useAfter, prev.skippedAfter)
      && s.fullCount == w.fullCount
  {
    var availableBefore := i;
    var availableAfter := |w.list| - i;
    var useBefore := Min(availableBefore, limitBefore);
    var useAfter := Min(availableAfter, limitAfter + 1);
    Slice(Reverse(w.list[i - useBefore .. i + useAfter]),
      Skipped(w.skippedBefore, availableBefore - useBefore, prev.skippedBefore),
      Skipped(w.skippedAfter, availableAfter - useAfter, prev.skippedAfter),
      w.fullCount)
  }

  /**
   * `buildFromData` as written.  `prev` is the viewer's slice before the
   * call: a skip count the window does not know is left as it was.  A
   * background load toward a side is asked for when that side is open and
   * the window holds fewer ids there than the viewer asked for.
   */
  function Build(w: Window, around: MsgId, limitBefore: nat, limitAfter: nat, prev: Slice): (b: Built)
    ensures ThreadEmpty(w) ==> b == Built(true, EmptySlice, NoLoad)
    ensures !ThreadEmpty(w) && NeedsAround(w, around) ==> b == Built(false, prev, LoadAround(around))
    ensures b.served <==> !b.load.LoadAround?
    ensures !ThreadEmpty(w) && !NeedsAround(w, around) ==>
      var i := SplitIndex(w.list, around);
      && b.slice == Cut(w, i, limitBefore, limitAfter, prev)
      && b.load == LoadEdges(!IsZero(w.skippedBefore) && i < limitBefore,
                             !IsZero(w.skippedAfter) && |w.list| - i <= limitAfter)
  {
    if ThreadEmpty(w) then Built(true, EmptySlice, NoLoad)
    else if NeedsAround(w, around) then Built(false, prev, LoadAround(around))
    else
      var i := SplitIndex(w.list, around);
      var useBefore := Min(i, limitBefore);
      var useAfter := Min(|w.list| - i, limitAfter + 1);
      Built(true, Cut(w, i, limitBefore, limitAfter, prev),
        LoadEdges(!IsZero(w.skippedBefore) && useBefore < limitBefore,
                  !IsZero(w.skippedAfter) && useAfter < limitAfter + 1))
  }

  /** A served slice of a descending window is in ascending display order. */
  lemma BuildAscending(w: Window, around: MsgId, limitBefore: nat, limitAfter: nat, prev: Slice)
    requires Descending(w.list)
    ensures var b := Build(w, around, limitBefore, limitAfter, prev);
      b.served ==> Ascending(b.slice.ids)
  {
    if !ThreadEmpty(w) && !NeedsAround(w, around) {
      CutAscending(w, SplitIndex(w.list, around), limitBefore, limitAfter, prev);
    }
  }

  lemma CutAscending(w: Window, i: nat, limitBefore: nat, limitAfter: nat, prev: Slice)
    requires Descending(w.list) && i <= |w.list|
    ensures Ascending(Cut(w, i, limitBefore, limitAfter, prev).ids)
  {
    var ids := Cut(w, i, limitBefore, limitAfter, prev).ids;
    var top := i + Min(|w.list| - i, limitAfter + 1) - 1;
    forall a, c | 0 <= a < c < |ids|
      ensures ids[a] < ids[c]
    {
      assert ids[a] == w.list[top - a] && ids[c] == w.list[top - c];
    }
  }

  /**
   * The counts of a served slice add up: once the window knows both skips and
   * is consistent, the ids cut off on each side are moved into the slice's
   * skip counts, so skipped-before + ids + skipped-after is the full count.
   */
  lemma BuildAccounts(w: Window, around: MsgId, limitBefore: nat, limitAfter: nat, prev: Slice)
    requires Consistent(w) && w.skippedBefore.Some? && w.skippedAfter.Some?
    ensures var b := Build(w, around, limitBefore, limitAfter, prev);
      b.served ==>
        && b.slice.skippedBefore.Some? && b.slice.skippedAfter.Some?
        && b.slice.fullCount == Some(b.slice.skippedBefore.value + |b.slice.ids| + b.slice.skippedAfter.value)
  {
  }

  /** A cached anchor is always part of its slice: the `+ 1` after-limit reserves its place. */
  lemma BuildShowsAnchor(w: Window, around: MsgId, limitBefore: nat, limitAfter: nat, prev: Slice)
    requires Descending(w.list) && around != 0 && around in w.list
    ensures around in Build(w, around, limitBefore, limitAfter, prev).slice.ids
  {
    var b := Build(w, around, limitBefore, limitAfter, prev);
    LowerBoundFinds(w.list, around);
    var i := LowerBound(w.list, around);
    assert w.list[0] >= around >= w.list[|w.list| - 1];
    var useAfter := Min(|w.list| - i, limitAfter + 1);
    var k := useAfter - 1;
    assert b.slice.ids[k] == w.list[i];
  }

  // ---------------------------------------------------------------------
  // The window cut as if the list were ascending.

  /**
   * As written, the ids before the split point (which are NEWER than the
   * anchor, the list being newest first) are counted into `skippedBefore`,
   * next to `_skippedBefore`, which counts OLDER ids.  Here the slice of
   * anchor 18 claims two older ids, while the only older one is 17.
   */
  lemma BuildCountsNewerAsBefore()
    ensures var w := Window([20, 19, 18, 17], Some(0), Some(0), Some(4));
      var b := Build(w, 18, 0, 0, Slice([], None, None, None));
      && b.served && b.slice.ids == [18]
      && b.slice.skippedBefore == Some(2) && CountBelow(w.list, 18) == 1
      && b.slice.skippedAfter == Some(1) && CountAbove(w.list, 18) == 2
  {
    var w := Window([20, 19, 18, 17], Some(0), Some(0), Some(4));
    var prev := Slice([], None, None, None);
    assert !ThreadEmpty(w) && !NeedsAround(w, 18);
    assert LowerBound(w.list, 18) == 2;
    var cut := Cut(w, 2, 0, 0, prev);
    assert |cut.ids| == 1 && cut.ids[0] == w.list[2];
    assert Build(w, 18, 0, 0, prev).slice == cut;
    assert Descending(w.list);
    DescendingCounts(w.list, 2);
  }

  /**
   * As written, the background loads are swapped as well: `loadBefore`
   * (a page older than the back) is asked for when the NEWER side of the
   * anchor is short, and `loadAfter` when the anchor and older side is.
   * The corrected build asks for neither in these two cases.
   */
  lemma BuildLoadsSwapped()
    ensures var w := Window([20, 19, 18, 17], None, None, None);
      var prev := Slice([], None, None, None);
      && Build(w, 20, 2, 0, prev).load == LoadEdges(true, false)
      && BuildIntended(w, 20, 2, 0, prev).load == LoadEdges(false, false)
      && Build(w, 17, 0, 2, prev).load == LoadEdges(false, true)
      && BuildIntended(w, 17, 0, 2, prev).load == LoadEdges(false, false)
  {
    var w := Window([20, 19, 18, 17], None, None, None);
    assert !ThreadEmpty(w) && !NeedsAround(w, 20) && !NeedsAround(w, 17);
    assert LowerBound(w.list, 20) == 0;
    assert LowerBound(w.list, 17) == 3;
  }

  /** As written, the newest anchor is served the OLDEST cached ids. */
  lemma BuildNewestShowsOldest()
    ensures var w := Window([3, 2, 1], None, Some(0), Some(3));
      var b := Build(w, 0, 1, 0, Slice([], None, None, None));
      b.served && b.slice.ids == [1] && 3 !in b.slice.ids
  {
    var w := Window([3, 2, 1], None, Some(0), Some(3));
    assert w.list[2..3] == [1];
  }

  /** The corrected split point: the lower bound of `around`, or the front for `around == 0`. */
  function IntendedSplit(list: seq<MsgId>, around: MsgId): (i: nat)
    ensures i <= |list|
  {
    if around != 0 then LowerBound(list, around) else 0
  }

  /**
   * The corrected cut at split point `i`: the ids from `i` on (the anchor
   * and older ones) are the before side, limited to the anchor plus
   * `limitBefore`; the newer ids are the after side.
   */
  function IntendedCut(w: Window, i: nat, limitBefore: nat, limitAfter: nat, prev: Slice): (s: Slice)
    requires i <= |w.list|
    ensures var useBefore := Min(|w.list| - i, limitBefore + 1);
      var useAfter := Min(i, limitAfter);
      && |s.ids| == useBefore + useAfter <= limitBefore + limitAfter + 1
      && (forall k :: 0 <= k < |s.ids| ==> s.ids[k] == w.list[i + useBefore - 1 - k])
      && s.skippedBefore == Skipped(w.skippedBefore, |w.list| - i - useBefore, prev.skippedBefore)
      && s.skippedAfter == Skipped(w.skippedAfter, i - useAfter, prev.skippedAfter)
      && s.fullCount == w.fullCount
  {
    var availableBefore := |w.list| - i;
    var availableAfter := i;
    var useBefore := Min(availableBefore, limitBefore + 1);
    var useAfter := Min(availableAfter, limitAfter);
    Slice(Reverse(w.list[i - useAfter .. i + useBefore]),
      Skipped(w.skippedBefore, availableBefore - useBefore, prev.skippedBefore),
      Skipped(w.skippedAfter, availableAfter - useAfter, prev.skippedAfter),
      w.fullCount)
  }

  /** `buildFromData` with the window cut by age, and the newest anchor split at the front. */
  function BuildIntended(w: Window, around: MsgId, limitBefore: nat, limitAfter: nat, prev: Slice): (b: Built)
    ensures ThreadEmpty(w) ==> b == Built(true, EmptySlice, NoLoad)
    ensures !ThreadEmpty(w) && NeedsAround(w, around) ==> b == Built(false, prev, LoadAround(around))
    ensures b.served <==> !b.load.LoadAround?
    ensures !ThreadEmpty(w) && !NeedsAround(w, around) ==>
      var i := IntendedSplit(w.list, around);
      && b.slice == IntendedCut(w, i, limitBefore, limitAfter, prev)
      && b.load == LoadEdges(!IsZero(w.skippedBefore) && |w.list| - i <= limitBefore,
                             !IsZero(w.skippedAfter) && i < limitAfter)
  {
    if ThreadEmpty(w) then Built(true, EmptySlice, NoLoad)
    else if NeedsAround(w, around) then Built(false, prev, LoadAround(around))
    else
      var i := IntendedSplit(w.list, around);
      Built(true, IntendedCut(w, i, limitBefore, limitAfter, prev),
        LoadEdges(!IsZero(w.skippedBefore) && |w.list| - i < limitBefore + 1,
                  !IsZero(w.skippedAfter) && i < limitAfter))
  }

  /**
   * The corrected slice attributes its skip counts by age, each side on its
   * own: when `_skippedBefore` is known, skipped-before is it plus the cached
   * ids older than the slice's oldest id; when `_skippedAfter` is known,
   * skipped-after is it plus the cached ids newer than the slice's newest.
   */
  lemma BuildIntendedCountsByAge(w: Window, around: MsgId, limitBefore: nat, limitAfter: nat, prev: Slice)
    requires Descending(w.list)
    ensures var b := BuildIntended(w, around, limitBefore, limitAfter, prev);
      var ids := b.slice.ids;
      && (b.served && ids != [] && w.skippedBefore.Some? ==>
            b.slice.skippedBefore == Some(w.skippedBefore.value + CountBelow(w.list, ids[0])))
      && (b.served && ids != [] && w.skippedAfter.Some? ==>
            b.slice.skippedAfter == Some(w.skippedAfter.value + CountAbove(w.list, ids[|ids| - 1])))
  {
    if !ThreadEmpty(w) && !NeedsAround(w, around) {
      var i := IntendedSplit(w.list, around);
      assert BuildIntended(w, around, limitBefore, limitAfter, prev).slice == IntendedCut(w, i, limitBefore, limitAfter, prev);
      IntendedCutCountsByAge(w, i, limitBefore, limitAfter, prev);
    }
  }

  lemma IntendedCutCountsByAge(w: Window, i: nat, limitBefore: nat, limitAfter: nat, prev: Slice)
    requires Descending(w.list) && i <= |w.list|
    ensures var s := IntendedCut(w, i, limitBefore, limitAfter, prev);
      && (s.ids != [] && w.skippedBefore.Some? ==>
            s.skippedBefore == Some(w.skippedBefore.value + CountBelow(w.list, s.ids[0])))
      && (s.ids != [] && w.skippedAfter.Some? ==>
            s.skippedAfter == Some(w.skippedAfter.value + CountAbove(w.list, s.ids[|s.ids| - 1])))
  {
    var s := IntendedCut(w, i, limitBefore, limitAfter, prev);
    if s.ids != [] {
      var top := i + Min(|w.list| - i, limitBefore + 1) - 1;
      var bottom := i - Min(i, limitAfter);
      assert s.ids[0] == w.list[top] && s.ids[|s.ids| - 1] == w.list[bottom];
      DescendingCounts(w.list, top);
      DescendingCounts(w.list, bottom);
    }
  }

  /** A served corrected slice of a descending window is in ascending display order. */
  lemma BuildIntendedAscending(w: Window, around: MsgId, limitBefore: nat, limitAfter: nat, prev: Slice)
    requires Descending(w.list)
    ensures var b := BuildIntended(w, around, limitBefore, limitAfter, prev);
      b.served ==> Ascending(b.slice.ids)
  {
    if !ThreadEmpty(w) && !NeedsAround(w, around) {
      IntendedCutAscending(w, IntendedSplit(w.list, around), limitBefore, limitAfter, prev);
    }
  }

  lemma IntendedCutAscending(w: Window, i: nat, limitBefore: nat, limitAfter: nat, prev: Slice)
    requires Descending(w.list) && i <= |w.list|
    ensures Ascending(IntendedCut(w, i, limitBefore, limitAfter, prev).ids)
  {
    var ids := IntendedCut(w, i, limitBefore, limitAfter, prev).ids;
    var top := i + Min(|w.list| - i, limitBefore + 1) - 1;
    forall a, c | 0 <= a < c < |ids|
      ensures ids[a] < ids[c]
    {
      assert ids[a] == w.list[top - a] && ids[c] == w.list[top - c];
    }
  }

  /**
   * A cached anchor is always part of its corrected slice: in display order
   * it follows up to `limitBefore` older ids and precedes the newer ones.
   */
  lemma BuildIntendedShowsAnchor(w: Window, around: MsgId, limitBefore: nat, limitAfter: nat, prev: Slice)
    requires Descending(w.list) && around != 0 && around in w.list
    ensures around in BuildIntended(w, around, limitBefore, limitAfter, prev).slice.ids
  {
    var b := BuildIntended(w, around, limitBefore, limitAfter, prev);
    LowerBoundFinds(w.list, around);
    var i := LowerBound(w.list, around);
    assert w.list[0] >= around >= w.list[|w.list| - 1];
    var useBefore := Min(|w.list| - i, limitBefore + 1);
    assert b.slice.ids[useBefore - 1] == w.list[i];
  }

  /** The corrected slice of the newest anchor holds the newest cached id. */
  lemma BuildIntendedShowsNewest(w: Window, limitBefore: nat, limitAfter: nat, prev: Slice)
    requires w.list != []
    ensures var b := BuildIntended(w, 0, limitBefore, limitAfter, prev);
      b.served ==> w.list[0] in b.slice.ids
  {
    var b := BuildIntended(w, 0, limitBefore, limitAfter, prev);
    if b.served && !ThreadEmpty(w) {
      var useBefore := Min(|w.list|, limitBefore + 1);
      assert b.slice.ids[useBefore - 1] == w.list[0];
    }
  }
}
