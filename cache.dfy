/**
 * The cached window of a replies list as a value, and the pure state
 * transitions that `applyUpdate`, `processMessagesIsEmpty` and the
 * completions of the three loads perform on it.
 */
module Cache {
  import opened Wrappers
  import opened Ordering

  /** Identity of a `History` (the chat a message belongs to). */
  type HistoryId = int

  /**
   * `_list` (newest first), `_skippedBefore` (uncached ids older than the
   * back), `_skippedAfter` (uncached ids newer than the front), `_fullCount`.
   */
  datatype Window = Window(
    list: seq<MsgId>,
    skippedBefore: Option<int>,
    skippedAfter: Option<int>,
    fullCount: Option<int>)

  /** Every assignment the list makes to a skip counter is 0 or "unknown". */
  predicate ZeroOrUnknown(o: Option<int>) {
    o == None || o == Some(0)
  }

  /** Once both skips are known, the full count is their sum with the cached ids. */
  predicate Consistent(w: Window) {
    w.skippedBefore.Some? && w.skippedAfter.Some? ==>
      w.fullCount == Some(w.skippedBefore.value + |w.list| + w.skippedAfter.value)
  }

  // ---------------------------------------------------------------------
  // applyUpdate

  /** A live `MessageUpdate`: the item's history, id and thread root, and whether it is `Destroyed`. */
  datatype Update = Update(history: HistoryId, id: MsgId, replyToTop: MsgId, destroyed: bool)

  datatype Reconciled = Reconciled(changed: bool, window: Window)

  /** The full count after the list changed to `list`, one id shorter (`destroyed`) or longer. */
  function Recount(w: Window, list: seq<MsgId>, destroyed: bool): (r: Window)
    ensures r.list == list
    ensures r.skippedBefore == w.skippedBefore && r.skippedAfter == w.skippedAfter
    ensures Consistent(r)
    ensures !(w.skippedBefore.Some? && w.skippedAfter.Some?) ==>
      r.fullCount == match w.fullCount
        case None => None
        case Some(n) => Some(if !destroyed then n + 1 else if n > 0 then n - 1 else n)
  {
    if w.skippedBefore.Some? && w.skippedAfter.Some? then
      w.(list := list, fullCount := Some(w.skippedBefore.value + |list| + w.skippedAfter.value))
    else if w.fullCount.Some? then
      var known := w.fullCount.value;
      w.(list := list, fullCount :=
        if !destroyed then Some(known + 1)
        else if known > 0 then Some(known - 1) else w.fullCount)
    else w.(list := list)
  }

  /** `_list.erase(i)`. */
  function EraseAt(s: seq<MsgId>, i: nat): (r: seq<MsgId>)
    requires i < |s|
    ensures multiset(r) == multiset(s) - multiset{s[i]}
  {
    assert s == s[..i] + [s[i]] + s[i + 1..];
    s[..i] + s[i + 1..]
  }

  /** `_list.insert(i, x)`. */
  function InsertAt(s: seq<MsgId>, i: nat, x: MsgId): (r: seq<MsgId>)
    requires i <= |s|
    ensures multiset(r) == multiset(s) + multiset{x}
    ensures |r| == |s| + 1 && r[i] == x && r[..i] == s[..i]
  {
    assert s == s[..i] + s[i..];
    s[..i] + [x] + s[i..]
  }

  /**
   * `applyUpdate`: reconciles one live insert or destroy with the window of
   * the thread `root` of history `history`.
   */
  function Reconcile(w: Window, history: HistoryId, root: MsgId, u: Update): (r: Reconciled)
    ensures !r.changed ==> r.window == w
    ensures r.window.skippedBefore == w.skippedBefore && r.window.skippedAfter == w.skippedAfter
    ensures r.changed ==> u.history == history && u.replyToTop == root
    ensures r.changed && !u.destroyed ==> IsZero(w.skippedAfter)
    ensures Consistent(w) || r.changed ==> Consistent(r.window)
    ensures r.changed && !(w.skippedBefore.Some? && w.skippedAfter.Some?) ==>
      r.window.fullCount == match w.fullCount
        case None => None
        case Some(n) => Some(if !u.destroyed then n + 1 else if n > 0 then n - 1 else n)
  {
    if u.history != history || u.replyToTop != root then Reconciled(false, w)
    else
      var i := LowerBound(w.list, u.id);
      var present := i < |w.list| && w.list[i] == u.id;
      if u.destroyed then
        if !present then Reconciled(false, w)
        else Reconciled(true, Recount(w, EraseAt(w.list, i), true))
      else if !IsZero(w.skippedAfter) || present then Reconciled(false, w)
      else Reconciled(true, Recount(w, InsertAt(w.list, i, u.id), false))
  }

  /** An accepted update removes or adds exactly one occurrence of its id. */
  lemma ReconcileChangesOneId(w: Window, history: HistoryId, root: MsgId, u: Update)
    ensures var r := Reconcile(w, history, root, u);
      && (r.changed && u.destroyed ==>
            u.id in w.list && multiset(r.window.list) == multiset(w.list) - multiset{u.id})
      && (r.changed && !u.destroyed ==>
            multiset(r.window.list) == multiset(w.list) + multiset{u.id})
  {
  }

  /**
   * On a descending list an update is accepted exactly when it belongs to
   * this thread and is a destroy of a cached id, or an insert of an uncached
   * id while the window reaches the newest message.
   */
  lemma ReconcileAcceptsExactly(w: Window, history: HistoryId, root: MsgId, u: Update)
    requires Descending(w.list)
    ensures Reconcile(w, history, root, u).changed <==>
      && u.history == history && u.replyToTop == root
      && if u.destroyed then u.id in w.list
         else IsZero(w.skippedAfter) && u.id !in w.list
  {
    LowerBoundFinds(w.list, u.id);
  }

  /** Accepted removals and insertions keep the list strictly descending. */
  lemma ReconcileKeepsDescending(w: Window, history: HistoryId, root: MsgId, u: Update)
    requires Descending(w.list)
    ensures Descending(Reconcile(w, history, root, u).window.list)
  {
    var r := Reconcile(w, history, root, u);
    if r.changed {
      var i := LowerBound(w.list, u.id);
      if u.destroyed {
        RemoveKeepsDescending(w.list, i);
      } else {
        InsertKeepsDescending(w.list, u.id);
      }
    }
  }

  /** Delivering the same insert twice changes nothing the second time. */
  lemma ReconcileInsertIdempotent(w: Window, history: HistoryId, root: MsgId, u: Update)
    requires !u.destroyed
    ensures var r1 := Reconcile(w, history, root, u);
      var r2 := Reconcile(r1.window, history, root, u);
      !r2.changed && r2.window == r1.window
  {
    var r1 := Reconcile(w, history, root, u);
    if r1.changed {
      var i := LowerBound(w.list, u.id);
      var s := r1.window.list;
      assert s[..i] == w.list[..i];
      assert LowerBound(s, u.id) == i;
    }
  }

  // ---------------------------------------------------------------------
  // processMessagesIsEmpty

  /**
   * One message of a fetched page: its id, whether the message store
   * accepted it (`addNewMessage` returned an item) and that item's thread root.
   */
  datatype Message = Message(id: MsgId, stored: bool, replyToTop: MsgId)

  /** The kinds of `MTPmessages_Messages` a page can come as. */
  datatype MessagesResult =
    | NotModified
    | Messages(messages: seq<Message>)
    | MessagesSlice(messages: seq<Message>, count: int)
    | ChannelMessages(messages: seq<Message>, count: int)

  /** The messages of a page; a `messagesNotModified` has none. */
  function PageMessages(result: MessagesResult): seq<Message> {
    if result.NotModified? then [] else result.messages
  }

  /** The full count a page reports. */
  function PageCount(result: MessagesResult): int {
    match result
    case NotModified => 0
    case Messages(messages) => |messages|
    case MessagesSlice(_, count) => count
    case ChannelMessages(_, count) => count
  }

  predicate Keeps(m: Message, root: MsgId) {
    m.stored && m.replyToTop == root
  }

  /** The ids, in page order, of the page's messages that were stored and belong to thread `root`. */
  function Accepted(ms: seq<Message>, root: MsgId): (r: seq<MsgId>)
    ensures |r| <= |ms|
  {
    if ms == [] then []
    else
      var last := ms[|ms| - 1];
      Accepted(ms[..|ms| - 1], root) + (if Keeps(last, root) then [last.id] else [])
  }

  /** The accepted ids are exactly the ids of the page's stored messages of thread `root`. */
  lemma {:induction false} AcceptedMembers(ms: seq<Message>, root: MsgId)
    ensures forall m :: m in ms && Keeps(m, root) ==> m.id in Accepted(ms, root)
    ensures forall x :: x in Accepted(ms, root) ==> exists m :: m in ms && Keeps(m, root) && m.id == x
  {
    if ms != [] {
      var init := ms[..|ms| - 1];
      var last := ms[|ms| - 1];
      assert ms == init + [last];
      AcceptedMembers(init, root);
    }
  }

  datatype Merged = Merged(empty: bool, window: Window)

  /**
   * `processMessagesIsEmpty`: takes the full count from the page and, unless
   * the page is empty, puts its accepted ids in front of the list when the
   * page's first id is newer than the front, and behind it otherwise.
   */
  function MergePage(w: Window, root: MsgId, result: MessagesResult): (r: Merged)
    ensures r.empty <==> PageMessages(result) == []
    ensures r.window.fullCount == Some(PageCount(result))
    ensures r.window.skippedBefore == w.skippedBefore && r.window.skippedAfter == w.skippedAfter
    ensures r.empty ==> r.window.list == w.list
    ensures !r.empty ==>
      var accepted := Accepted(PageMessages(result), root);
      r.window.list ==
        if w.list != [] && PageMessages(result)[0].id > w.list[0] then accepted + w.list
        else w.list + accepted
  {
    var ms := PageMessages(result);
    var counted := w.(fullCount := Some(PageCount(result)));
    if ms == [] then Merged(true, counted)
    else
      var accepted := Accepted(ms, root);
      if w.list != [] && ms[0].id > w.list[0] then
        Merged(false, counted.(list := accepted + w.list))
      else
        Merged(false, counted.(list := w.list + accepted))
  }

  /** The page's ids are strictly descending, as the server sends them. */
  predicate PageDescending(ms: seq<Message>) {
    forall i, j :: 0 <= i < j < |ms| ==> ms[i].id > ms[j].id
  }

  lemma {:induction false} AcceptedDescending(ms: seq<Message>, root: MsgId)
    requires PageDescending(ms)
    ensures Descending(Accepted(ms, root))
  {
    if ms != [] {
      var init := ms[..|ms| - 1];
      var last := ms[|ms| - 1];
      assert PageDescending(init);
      AcceptedDescending(init, root);
      AcceptedMembers(init, root);
      if Keeps(last, root) {
        forall x | x in Accepted(init, root)
          ensures x > last.id
        {
          var m :| m in init && Keeps(m, root) && m.id == x;
          var k :| 0 <= k < |init| && init[k] == m;
          assert ms[k] == m;
        }
        ConcatDescending(Accepted(init, root), [last.id]);
      }
    }
  }

  /**
   * The merge keeps the list strictly descending when the page is strictly
   * descending and lies wholly on one side of the cached window: newer than
   * its front or older than its back.  The merge itself checks only the
   * page's first id, so these are assumptions about the page.
   */
  lemma MergeKeepsDescending(w: Window, root: MsgId, result: MessagesResult)
    requires Descending(w.list)
    requires PageDescending(PageMessages(result))
    requires w.list != [] ==>
      || (forall m :: m in PageMessages(result) ==> m.id > w.list[0])
      || (forall m :: m in PageMessages(result) ==> m.id < w.list[|w.list| - 1])
    ensures Descending(MergePage(w, root, result).window.list)
  {
    var ms := PageMessages(result);
    if ms != [] {
      var accepted := Accepted(ms, root);
      AcceptedDescending(ms, root);
      AcceptedMembers(ms, root);
      if w.list != [] && ms[0].id > w.list[0] {
        assert ms[0] in ms;
        assert !(ms[0].id < w.list[|w.list| - 1]);
        forall x, y | x in accepted && y in w.list
          ensures x > y
        {
          var m :| m in ms && Keeps(m, root) && m.id == x;
        }
        ConcatDescending(accepted, w.list);
      } else {
        if w.list != [] {
          assert ms[0] in ms;
        }
        forall x, y | x in w.list && y in accepted
          ensures x > y
        {
          var m :| m in ms && Keeps(m, root) && m.id == y;
        }
        ConcatDescending(w.list, accepted);
      }
    }
  }

  // ---------------------------------------------------------------------
  // Completions of the loads

  /**
   * A successful `loadAround(id)`: the window restarts from the page alone;
   * it is known to reach the newest message only for the newest anchor
   * (`id == 0`), and an empty page means the thread is empty.
   */
  function AroundLoaded(w: Window, root: MsgId, id: MsgId, result: MessagesResult): (r: Window)
    ensures PageMessages(result) == [] ==> r == Window([], Some(0), Some(0), Some(0))
    ensures PageMessages(result) != [] ==>
      && r.list == Accepted(PageMessages(result), root)
      && r.skippedBefore == None
      && r.skippedAfter == (if id == 0 then Some(0) else None)
      && r.fullCount == Some(PageCount(result))
    ensures Consistent(r) && ZeroOrUnknown(r.skippedBefore) && ZeroOrUnknown(r.skippedAfter)
  {
    var reset := Window([], None, if id == 0 then Some(0) else None, w.fullCount);
    var m := MergePage(reset, root, result);
    if m.empty then Window(m.window.list, Some(0), Some(0), Some(0)) else m.window
  }

  /** The two edges of the window: `Before` is the back (older), `After` the front (newer). */
  datatype Side = Before | After

  /** The id a load toward `side` is anchored at. */
  function Edge(w: Window, side: Side): MsgId
    requires w.list != []
  {
    if side == Before then w.list[|w.list| - 1] else w.list[0]
  }

  function Skip(w: Window, side: Side): Option<int> {
    if side == Before then w.skippedBefore else w.skippedAfter
  }

  datatype EdgeOutcome = Ignored | Reissued | Loaded(pageEmpty: bool, window: Window)

  /**
   * A successful `loadBefore` (`side == Before`, anchored at the old back)
   * or `loadAfter` (`side == After`, anchored at the old front).
   */
  function EdgeLoaded(w: Window, root: MsgId, side: Side, anchor: MsgId, result: MessagesResult): (o: EdgeOutcome)
    ensures o.Ignored? <==> w.list == []
    ensures o.Reissued? <==> w.list != [] && Edge(w, side) != anchor
    ensures o.Loaded? ==> o.pageEmpty == (PageMessages(result) == [])
    ensures o.Loaded? && o.pageEmpty ==>
      && o.window.list == w.list
      && Skip(o.window, side) == Some(0)
      && Skip(o.window, if side == Before then After else Before) == Skip(w, if side == Before then After else Before)
      && o.window.fullCount ==
         if IsZero(Skip(w, if side == Before then After else Before)) then Some(|w.list|)
         else Some(PageCount(result))
    ensures o.Loaded? && !o.pageEmpty ==>
      o.window == MergePage(w, root, result).window && o.window.fullCount == Some(PageCount(result))
  {
    if w.list == [] then Ignored
    else if Edge(w, side) != anchor then Reissued
    else
      var m := MergePage(w, root, result);
      if !m.empty then Loaded(false, m.window)
      else if side == Before then
        Loaded(true, m.window.(skippedBefore := Some(0),
          fullCount := if IsZero(w.skippedAfter) then Some(|w.list|) else m.window.fullCount))
      else
        Loaded(true, m.window.(skippedAfter := Some(0),
          fullCount := if IsZero(w.skippedBefore) then Some(|w.list|) else m.window.fullCount))
  }

  /**
   * An edge completion keeps the skips 0 or unknown; while its side is still
   * open (`_skippedBefore != 0` for a before-load) it also keeps the window
   * consistent.  A side closed since the load was issued is not covered.
   */
  lemma EdgeLoadedKeepsConsistent(w: Window, root: MsgId, side: Side, anchor: MsgId, result: MessagesResult)
    requires ZeroOrUnknown(w.skippedBefore) && ZeroOrUnknown(w.skippedAfter)
    ensures var o := EdgeLoaded(w, root, side, anchor, result);
      o.Loaded? ==> ZeroOrUnknown(o.window.skippedBefore) && ZeroOrUnknown(o.window.skippedAfter)
    ensures var o := EdgeLoaded(w, root, side, anchor, result);
      Consistent(w) && !IsZero(Skip(w, side)) && o.Loaded? ==> Consistent(o.window)
  {
  }

  /**
   * An around-load of an empty page followed by the live insert of its
   * anchor leaves a one-id window known to hold the whole thread.
   */
  lemma AroundEmptyThenInsert(w: Window, history: HistoryId, root: MsgId, id: MsgId, result: MessagesResult)
    requires PageMessages(result) == []
    ensures var r := Reconcile(AroundLoaded(w, root, id, result), history, root, Update(history, id, root, false));
      r.changed && r.window == Window([id], Some(0), Some(0), Some(1))
  {
  }
}
