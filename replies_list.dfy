/**
 * `RepliesList`: the pagination cache over the replies to one thread root,
 * as an object whose methods update its fields in place.  Each method is
 * proved to move the cached window and the request markers exactly as the
 * pure transitions of `Cache`, `Slices` and `Requests` say.
 */
module Replies {
  import opened Wrappers
  import opened Ordering
  import opened Requests
  import opened Cache
  import opened Slices

  /** One subscriber's request and the slice last built for it. */
  class Viewer {
    const around: MsgId
    const limitBefore: nat
    const limitAfter: nat
    var slice: Slice

    constructor (around: MsgId, limitBefore: nat, limitAfter: nat)
      ensures this.around == around && this.limitBefore == limitBefore && this.limitAfter == limitAfter
      ensures slice == Slice([], None, None, None)
    {
      this.around := around;
      this.limitBefore := limitBefore;
      this.limitAfter := limitAfter;
      slice := Slice([], None, None, None);
    }
  }

  class RepliesList {
    const historyId: HistoryId
    const rootId: MsgId
    const histories: Histories

    var list: seq<MsgId>
    var skippedBefore: Option<int>
    var skippedAfter: Option<int>
    var fullCount: Option<int>
    var beforeId: int
    var afterId: int
    var loadingAround: Option<MsgId>
    /** How many times `_partLoaded` has fired. */
    var partLoaded: nat

    function Snapshot(): Window
      reads this
    {
      Window(list, skippedBefore, skippedAfter, fullCount)
    }

    function Markers(): Requests.Markers
      reads this, histories
    {
      Requests.Markers(beforeId, afterId, loadingAround, histories.pending, histories.lastId)
    }

    ghost predicate Valid()
      reads this, histories
    {
      && ZeroOrUnknown(skippedBefore) && ZeroOrUnknown(skippedAfter)
      && WellFormed(Markers())
    }

    constructor (historyId: HistoryId, rootId: MsgId)
      ensures Valid() && fresh(histories)
      ensures this.historyId == historyId && this.rootId == rootId
      ensures Snapshot() == Window([], None, None, None)
      ensures beforeId == 0 && afterId == 0 && loadingAround == None && partLoaded == 0
    {
      this.historyId := historyId;
      this.rootId := rootId;
      histories := new Histories();
      list := [];
      skippedBefore, skippedAfter, fullCount := None, None, None;
      beforeId, afterId, loadingAround := 0, 0, None;
      partLoaded := 0;
    }

    /**
     * `buildFromData`: serves the viewer's request from the window when it
     * can, leaving the window as it was, and issues the loads it calls for.
     * It follows the corrected `Slices.BuildIntended`: the serve and
     * around-load decisions are those of the source, while the cut, its skip
     * counts and the background-load triggers are by age.  The source cuts
     * as if the list were oldest first, which also swaps which side's
     * shortage triggers `loadBefore` and `loadAfter` (`Slices.Build`).
     */
    method BuildFromData(viewer: Viewer) returns (served: bool)
      requires Valid()
      modifies this, histories, viewer
      ensures Valid()
      ensures var b := BuildIntended(old(Snapshot()), viewer.around, viewer.limitBefore, viewer.limitAfter, old(viewer.slice));
        && served == b.served && viewer.slice == b.slice
        && Markers() == Issue(old(Markers()), b.load)
      ensures Snapshot() == old(Snapshot()) && partLoaded == old(partLoaded)
    {
      ghost var w0 := Snapshot();
      ghost var m0 := Markers();
      if list == [] && IsZero(skippedBefore) && IsZero(skippedAfter) {
        viewer.slice := Slice([], Some(0), Some(0), Some(0));
        return true;
      }
      var around := viewer.around;
      if || list == []
         || (around == 0 && !IsZero(skippedAfter))
         || (around > 0 && around < list[|list| - 1])
         || around > list[0]
      {
        LoadAround(around);
        return false;
      }
      assert !ThreadEmpty(w0) && !NeedsAround(w0, around);
      var i := if around != 0 then LowerBound(list, around) else 0;
      var useBefore := Min(|list| - i, viewer.limitBefore + 1);
      var useAfter := Min(i, viewer.limitAfter);
      var slice := CutFor(viewer, i);
      viewer.slice := slice;
      var loadBefore := !IsZero(skippedBefore) && useBefore < viewer.limitBefore + 1;
      var loadAfter := !IsZero(skippedAfter) && useAfter < viewer.limitAfter;
      if loadBefore {
        LoadBefore();
      }
      assert Markers() == if loadBefore then StartBefore(m0) else m0;
      if loadAfter {
        LoadAfter();
      }
      return true;
    }

    /**
     * The slice `buildFromData` hands to the viewer once the split point
     * `i` is known: the anchor and the older ids behind it, the newer ids in
     * front of it, copied out in window order and reversed for display,
     * with the skip counts the viewer keeps.
     */
    method CutFor(viewer: Viewer, i: nat) returns (slice: Slice)
      requires i <= |list|
      ensures slice == IntendedCut(Snapshot(), i, viewer.limitBefore, viewer.limitAfter, viewer.slice)
    {
      var availableBefore := |list| - i;
      var availableAfter := i;
      var useBefore := Min(availableBefore, viewer.limitBefore + 1);
      var useAfter := Min(availableAfter, viewer.limitAfter);
      slice := viewer.slice;
      if skippedBefore.Some? {
        slice := slice.(skippedBefore := Some(skippedBefore.value + (availableBefore - useBefore)));
      }
      if skippedAfter.Some? {
        slice := slice.(skippedAfter := Some(skippedAfter.value + (availableAfter - useAfter)));
      }
      var ids: seq<MsgId> := [];
      var j := i - useAfter;
      while j != i + useBefore
        invariant i - useAfter <= j <= i + useBefore
        invariant ids == list[i - useAfter .. j]
        decreases i + useBefore - j
      {
        ids := ids + [list[j]];
        j := j + 1;
      }
      ids := Reverse(ids);
      slice := slice.(ids := ids, fullCount := fullCount);
    }

    /** `applyUpdate`: reconciles one live insert or destroy with the window. */
    method ApplyUpdate(u: Update) returns (changed: bool)
      modifies this`list, this`fullCount
      ensures var r := Reconcile(old(Snapshot()), historyId, rootId, u);
        changed == r.changed && Snapshot() == r.window
    {
      ghost var w0 := Snapshot();
      if u.history != historyId || u.replyToTop != rootId {
        return false;
      }
      var i := LowerBound(list, u.id);
      if u.destroyed {
        if i == |list| || list[i] != u.id {
          return false;
        }
        list := EraseAt(list, i);
        ghost var next := Recount(w0, list, true);
        if skippedBefore.Some? && skippedAfter.Some? {
          fullCount := Some(skippedBefore.value + |list| + skippedAfter.value);
        } else if fullCount.Some? {
          var known := fullCount.value;
          if known > 0 {
            fullCount := Some(known - 1);
          }
        }
        assert Snapshot() == next;
      } else if !IsZero(skippedAfter) {
        return false;
      } else {
        if i != |list| && list[i] == u.id {
          return false;
        }
        list := InsertAt(list, i, u.id);
        ghost var next := Recount(w0, list, false);
        if skippedBefore.Some? && skippedAfter.Some? {
          fullCount := Some(skippedBefore.value + |list| + skippedAfter.value);
        } else if fullCount.Some? {
          fullCount := Some(fullCount.value + 1);
        }
        assert Snapshot() == next;
      }
      return true;
    }

    /** `loadAround(id)`: cancels both edge requests and requests a page around `id`. */
    method LoadAround(id: MsgId)
      requires Valid()
      modifies this, histories
      ensures Valid()
      ensures Markers() == StartAround(old(Markers()), id)
      ensures Snapshot() == old(Snapshot()) && partLoaded == old(partLoaded)
    {
      if loadingAround.Some? && loadingAround.value == id {
        return;
      }
      histories.Release(beforeId);
      beforeId := 0;
      histories.Release(afterId);
      afterId := 0;
      loadingAround := Some(id);
      beforeId := histories.SendRequest();
    }

    /** The page of `loadAround(id)` arrived: the window restarts from it. */
    method AroundDone(id: MsgId, result: MessagesResult)
      requires Valid()
      modifies this, histories
      ensures Valid()
      ensures Snapshot() == AroundLoaded(old(Snapshot()), rootId, id, result)
      ensures Markers() == FinishBefore(old(Markers()), true)
      ensures partLoaded == old(partLoaded) + 1
    {
      histories.Release(beforeId);
      beforeId := 0;
      loadingAround := None;
      if id == 0 {
        skippedAfter := Some(0);
      } else {
        skippedAfter := None;
      }
      skippedBefore := None;
      list := [];
      var empty := ProcessMessagesIsEmpty(result);
      if empty {
        fullCount, skippedBefore, skippedAfter := Some(0), Some(0), Some(0);
      }
    }

    /** `loadAround(id)` failed: only its markers are cleared. */
    method AroundFail()
      requires Valid()
      modifies this, histories
      ensures Valid()
      ensures Markers() == FinishBefore(old(Markers()), true)
      ensures Snapshot() == old(Snapshot()) && partLoaded == old(partLoaded)
    {
      histories.Release(beforeId);
      beforeId := 0;
      loadingAround := None;
    }

    /** `loadBefore()`: requests the page older than the back of the list. */
    method LoadBefore()
      requires Valid() && list != []
      modifies this, histories
      ensures Valid()
      ensures Markers() == StartBefore(old(Markers()))
      ensures Snapshot() == old(Snapshot()) && partLoaded == old(partLoaded)
    {
      if loadingAround.Some? {
        histories.Release(beforeId);
        beforeId := 0;
      } else if beforeId != 0 {
        return;
      }
      beforeId := histories.SendRequest();
    }

    /**
     * The page of a `loadBefore()` anchored at `last` arrived: it is merged
     * unless the back moved meanwhile, in which case the load is re-issued.
     */
    method BeforeDone(last: MsgId, result: MessagesResult)
      requires Valid()
      modifies this, histories
      ensures Valid()
      ensures var o := EdgeLoaded(old(Snapshot()), rootId, Before, last, result);
        var m := FinishBefore(old(Markers()), false);
        && (o.Loaded? ==> Snapshot() == o.window && Markers() == m && partLoaded == old(partLoaded) + 1)
        && (o.Reissued? ==> Snapshot() == old(Snapshot()) && Markers() == StartBefore(m) && partLoaded == old(partLoaded))
        && (o.Ignored? ==> Snapshot() == old(Snapshot()) && Markers() == m && partLoaded == old(partLoaded))
      ensures old(Consistent(Snapshot())) && !IsZero(old(skippedBefore)) ==> Consistent(Snapshot())
    {
      EdgeLoadedKeepsConsistent(Snapshot(), rootId, Before, last, result);
      histories.Release(beforeId);
      beforeId := 0;
      if list == [] {
        return;
      } else if list[|list| - 1] != last {
        LoadBefore();
      } else {
        var empty := ProcessMessagesIsEmpty(result);
        if empty {
          skippedBefore := Some(0);
          if IsZero(skippedAfter) {
            fullCount := Some(|list|);
          }
        }
      }
    }

    /** `loadBefore()` failed: only its marker is cleared. */
    method BeforeFail()
      requires Valid()
      modifies this, histories
      ensures Valid()
      ensures Markers() == FinishBefore(old(Markers()), false)
      ensures Snapshot() == old(Snapshot()) && partLoaded == old(partLoaded)
    {
      histories.Release(beforeId);
      beforeId := 0;
    }

    /** `loadAfter()`: requests the page newer than the front of the list. */
    method LoadAfter()
      requires Valid() && list != []
      modifies this, histories
      ensures Valid()
      ensures Markers() == StartAfter(old(Markers()))
      ensures Snapshot() == old(Snapshot()) && partLoaded == old(partLoaded)
    {
      if afterId != 0 {
        return;
      }
      afterId := histories.SendRequest();
    }

    /**
     * The page of a `loadAfter()` anchored at `first` arrived: it is merged
     * unless the front moved meanwhile, in which case the load is re-issued.
     */
    method AfterDone(first: MsgId, result: MessagesResult)
      requires Valid()
      modifies this, histories
      ensures Valid()
      ensures var o := EdgeLoaded(old(Snapshot()), rootId, After, first, result);
        var m := FinishAfter(old(Markers()));
        && (o.Loaded? ==> Snapshot() == o.window && Markers() == m && partLoaded == old(partLoaded) + 1)
        && (o.Reissued? ==> Snapshot() == old(Snapshot()) && Markers() == StartAfter(m) && partLoaded == old(partLoaded))
        && (o.Ignored? ==> Snapshot() == old(Snapshot()) && Markers() == m && partLoaded == old(partLoaded))
      ensures old(Consistent(Snapshot())) && !IsZero(old(skippedAfter)) ==> Consistent(Snapshot())
    {
      EdgeLoadedKeepsConsistent(Snapshot(), rootId, After, first, result);
      histories.Release(afterId);
      afterId := 0;
      if list == [] {
        return;
      } else if list[0] != first {
        LoadAfter();
      } else {
        var empty := ProcessMessagesIsEmpty(result);
        if empty {
          skippedAfter := Some(0);
          if IsZero(skippedBefore) {
            fullCount := Some(|list|);
          }
        }
      }
    }

    /** `loadAfter()` failed: only its marker is cleared. */
    method AfterFail()
      requires Valid()
      modifies this, histories
      ensures Valid()
      ensures Markers() == FinishAfter(old(Markers()))
      ensures Snapshot() == old(Snapshot()) && partLoaded == old(partLoaded)
    {
      histories.Release(afterId);
      afterId := 0;
    }

    /**
     * `processMessagesIsEmpty`: takes the full count from the page and
     * merges its accepted ids into the list, in front of it or behind it.
     */
    method ProcessMessagesIsEmpty(result: MessagesResult) returns (empty: bool)
      modifies this`list, this`fullCount, this`partLoaded
      ensures var m := MergePage(old(Snapshot()), rootId, result);
        empty == m.empty && Snapshot() == m.window
      ensures partLoaded == old(partLoaded) + 1
    {
      ghost var w0 := Snapshot();
      fullCount := Some(PageCount(result));
      var messages := PageMessages(result);
      if messages == [] {
        partLoaded := partLoaded + 1;
        return true;
      }
      var toFront := list != [] && messages[0].id > list[0];
      var refreshed: seq<MsgId> := [];
      var k := 0;
      while k < |messages|
        invariant 0 <= k <= |messages|
        invariant toFront ==> refreshed == Accepted(messages[..k], rootId) && list == old(list)
        invariant !toFront ==> list == old(list) + Accepted(messages[..k], rootId)
        invariant fullCount == Some(PageCount(result)) && partLoaded == old(partLoaded)
      {
        var message := messages[k];
        assert messages[..k + 1] == messages[..k] + [message];
        if message.stored && message.replyToTop == rootId {
          if toFront {
            refreshed := refreshed + [message.id];
          } else {
            list := list + [message.id];
          }
        }
        k := k + 1;
      }
      assert messages[..k] == messages;
      if toFront {
        list := refreshed + list;
      }
      ghost var m := MergePage(w0, rootId, result);
      assert list == m.window.list;
      partLoaded := partLoaded + 1;
      return false;
    }
  }
}
