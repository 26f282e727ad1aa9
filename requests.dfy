/**
 * The in-flight request markers of a replies list and the request
 * scheduler they talk to.  `_beforeId` holds the request of an around-load
 * or of a before-load, `_afterId` that of an after-load, and
 * `_loadingAround` the anchor of a pending around-load.  Request id 0 means
 * "none".
 */
module Requests {
  import opened Wrappers
  import opened Ordering

  /** The scheduler behind `Histories::sendRequest` / `cancelRequest`, serving one list. */
  class Histories {
    /** The last request id handed out; ids are 1, 2, 3, ... */
    var lastId: nat
    /** Requests sent and neither cancelled nor finished. */
    var pending: set<int>

    constructor ()
      ensures lastId == 0 && pending == {}
    {
      lastId := 0;
      pending := {};
    }

    /** `sendRequest`: a next, nonzero request id, now pending. */
    method SendRequest() returns (id: int)
      modifies this
      ensures id == old(lastId) + 1 && lastId == id
      ensures pending == old(pending) + {id}
    {
      lastId := lastId + 1;
      id := lastId;
      pending := pending + {id};
    }

    /**
     * The scheduler forgets `id`: both `cancelRequest(id)` and the `finish`
     * callback a completed request runs.  Releasing 0 changes nothing.
     */
    method Release(id: int)
      modifies this
      ensures pending == old(pending) - {id} && lastId == old(lastId)
    {
      pending := pending - {id};
    }
  }

  /** The marker fields of a list together with the scheduler's state. */
  datatype Markers = Markers(
    beforeId: int,
    afterId: int,
    loadingAround: Option<MsgId>,
    pending: set<int>,
    lastId: nat)

  /**
   * At most one request per direction is in flight, each marker names a
   * pending request or is 0, and nothing else is pending.
   */
  predicate WellFormed(m: Markers) {
    && 0 <= m.beforeId <= m.lastId
    && 0 <= m.afterId <= m.lastId
    && (m.beforeId != 0 ==> m.beforeId != m.afterId)
    && m.pending == {m.beforeId, m.afterId} - {0}
  }

  /** The loads `buildFromData` asks for. */
  datatype Load = NoLoad | LoadAround(id: MsgId) | LoadEdges(before: bool, after: bool)

  /** `loadAround(id)`: cancels both edge requests and sends one around-request. */
  function StartAround(m: Markers, id: MsgId): (r: Markers)
    ensures m.loadingAround == Some(id) ==> r == m
    ensures m.loadingAround != Some(id) ==>
      && r.loadingAround == Some(id) && r.afterId == 0
      && r.beforeId != 0
      && r.pending == (m.pending - {m.beforeId, m.afterId}) + {r.beforeId}
    ensures WellFormed(m) ==> WellFormed(r)
    ensures WellFormed(m) && m.loadingAround != Some(id) ==>
      r.beforeId !in m.pending && r.pending == {r.beforeId}
  {
    if m.loadingAround == Some(id) then m
    else
      var next := m.lastId + 1;
      Markers(next, 0, Some(id), (m.pending - {m.beforeId, m.afterId}) + {next}, next)
  }

  /**
   * `loadBefore()`: a pending around-load has its request cancelled and
   * replaced; otherwise nothing happens while a before-request is in flight.
   */
  function StartBefore(m: Markers): (r: Markers)
    ensures m.loadingAround == None && m.beforeId != 0 ==> r == m
    ensures m.loadingAround != None || m.beforeId == 0 ==>
      && r.beforeId != 0
      && r.afterId == m.afterId && r.loadingAround == m.loadingAround
      && r.pending == (m.pending - {m.beforeId}) + {r.beforeId}
    ensures WellFormed(m) ==> WellFormed(r)
    ensures WellFormed(m) && (m.loadingAround != None || m.beforeId == 0) ==> r.beforeId !in m.pending
  {
    if m.loadingAround == None && m.beforeId != 0 then m
    else
      var next := m.lastId + 1;
      m.(beforeId := next, pending := (m.pending - {m.beforeId}) + {next}, lastId := next)
  }

  /** `loadAfter()`: nothing happens while an after-request is in flight. */
  function StartAfter(m: Markers): (r: Markers)
    ensures m.afterId != 0 ==> r == m
    ensures m.afterId == 0 ==>
      && r.afterId != 0
      && r.beforeId == m.beforeId && r.loadingAround == m.loadingAround
      && r.pending == m.pending + {r.afterId}
    ensures WellFormed(m) ==> WellFormed(r)
    ensures WellFormed(m) && m.afterId == 0 ==> r.afterId !in m.pending
  {
    if m.afterId != 0 then m
    else
      var next := m.lastId + 1;
      m.(afterId := next, pending := m.pending + {next}, lastId := next)
  }

  /**
   * Completion (success or failure) of the request held in `_beforeId`; an
   * around-load also clears `_loadingAround`.
   */
  function FinishBefore(m: Markers, around: bool): (r: Markers)
    ensures r.beforeId == 0 && r.afterId == m.afterId && r.lastId == m.lastId
    ensures r.pending == m.pending - {m.beforeId}
    ensures r.loadingAround == if around then None else m.loadingAround
    ensures WellFormed(m) ==> WellFormed(r) && r.pending == {m.afterId} - {0}
  {
    m.(beforeId := 0, pending := m.pending - {m.beforeId},
       loadingAround := if around then None else m.loadingAround)
  }

  /** Completion (success or failure) of the request held in `_afterId`. */
  function FinishAfter(m: Markers): (r: Markers)
    ensures r.afterId == 0 && r.beforeId == m.beforeId && r.lastId == m.lastId
    ensures r.pending == m.pending - {m.afterId} && r.loadingAround == m.loadingAround
    ensures WellFormed(m) ==> WellFormed(r) && r.pending == {m.beforeId} - {0}
  {
    m.(afterId := 0, pending := m.pending - {m.afterId})
  }

  /** The markers after the loads `buildFromData` asked for, in its order. */
  function Issue(m: Markers, load: Load): (r: Markers)
    ensures WellFormed(m) ==> WellFormed(r)
    ensures load == NoLoad ==> r == m
  {
    match load
    case NoLoad => m
    case LoadAround(id) => StartAround(m, id)
    case LoadEdges(before, after) =>
      var m1 := if before then StartBefore(m) else m;
      if after then StartAfter(m1) else m1
  }

  /**
   * An around-load supersedes the edge loads: once it has been issued, no
   * request sent before it is still pending, and a later before-load cancels
   * the around-request rather than running beside it.  `_loadingAround` stays
   * set when that happens (see `AroundAnchorStaysBlocked`).
   */
  lemma {:induction false} AroundSupersedesEdges(m: Markers, id: MsgId)
    requires WellFormed(m) && m.loadingAround != Some(id)
    ensures var r := StartAround(m, id);
      && (forall q :: q in m.pending ==> q !in r.pending)
      && var r2 := StartBefore(r);
         r.beforeId !in r2.pending && r2.pending == {r2.beforeId}
  {
    var r := StartAround(m, id);
    assert r.pending == {r.beforeId};
    forall q | q in m.pending
      ensures q !in r.pending
    {
      assert q <= m.lastId < r.beforeId;
    }
  }

  /**
   * A before-load that replaces a pending around-request leaves
   * `_loadingAround` set once it completes, with nothing in flight: a later
   * `loadAround` of the same anchor then returns at once and sends nothing.
   */
  lemma AroundAnchorStaysBlocked(m: Markers, id: MsgId)
    requires WellFormed(m) && m.loadingAround != Some(id)
    ensures var r := FinishBefore(StartBefore(StartAround(m, id)), false);
      && r.loadingAround == Some(id) && r.pending == {}
      && StartAround(r, id) == r
  {
  }
}
