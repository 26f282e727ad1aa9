# RepliesList: a verified model of the replies pagination cache

`Data::RepliesList` caches the replies to one thread root of a chat. The cache is a window of message ids:
- `_list` holds the cached ids, newest first;
- `_skippedBefore` counts the replies older than the window, and `_skippedAfter` those newer than it;
- `_fullCount` is the size of the whole thread;
- each of these counts may be unknown.

Viewers ask for a slice of `limitBefore` ids before an anchor `around` and `limitAfter` after it, where `around == 0` means "the newest". The list serves the slice from the window when it can. Otherwise it loads a page around the anchor. It may also load a page at one edge of the window: `loadBefore` fetches older replies and `loadAfter` newer ones. Each is triggered by one side of the served slice being short while the matching skip is not known to be 0. As written, the source pairs each load with the opposite side of the anchor; see Findings.

The model has six modules:
- `Wrappers`: `Option`, and `IsZero`, which models comparing a C++ `std::optional<int>` with 0. An empty optional is never equal to 0.
- `Ordering`: descending id lists, the descending lower bound `ranges::lower_bound(_list, x, std::greater<>())`, `Reverse`, and the lemmas that insertion, removal and concatenation keep a list strictly descending.
- `Requests`: the request markers `_beforeId`, `_afterId` and `_loadingAround`, and a `Histories` scheduler class. The scheduler hands out fresh nonzero request ids and forgets cancelled or finished ones. Pure transitions describe each load and completion, and each keeps the invariant `WellFormed`: at most one request per direction, each marker pending or 0, nothing else pending.
- `Cache`: the window as a value, plus pure transitions for:
  - `applyUpdate` (`Reconcile`);
  - `processMessagesIsEmpty` (`MergePage`);
  - the completion of an around-load (`AroundLoaded`);
  - the completion of an edge load (`EdgeLoaded`).
- `Slices`: the decision and the cut of `buildFromData` as written (`Build`), plus a corrected cut (`BuildIntended`); see Findings.
- `Replies`: the class `RepliesList` with the source's fields, and a `Viewer` class. Every operation is a method that updates the fields in place. Each method's postcondition ties the new fields to the matching pure transition. The done and fail callbacks of each load are separate methods, and each receives its captured anchor (`id`, `last` or `first`) as a parameter.

## Model

| member | source | states |
|---|---|---|
| Wrappers.IsZero | Telegram/SourceFiles/data/data_replies_list.cpp:86 | `optional == 0` as C++ compares it: true only for a present 0, so an unknown count is "not 0" (also the tests at :96, :126, :129, :156, :251, :294) |
| Ordering.LowerBound | Telegram/SourceFiles/data/data_replies_list.cpp:143 | the descending lower bound: every id before it is greater than the key, and the id at it (if any) is at most the key |
| Ordering.LowerBoundFinds | Telegram/SourceFiles/data/data_replies_list.cpp:143-145 | on a strictly descending list, the key is present exactly when the lower bound is in range and holds the key |
| Ordering.Reverse | Telegram/SourceFiles/data/data_replies_list.cpp:124 | `ranges::reverse`: same length, element k is the element at the mirrored position |
| Ordering.ReverseOfDescending | Telegram/SourceFiles/data/data_replies_list.cpp:124 | reversing a strictly descending run gives a strictly ascending one |
| Ordering.InsertKeepsDescending | Telegram/SourceFiles/data/data_replies_list.cpp:162 | inserting an absent id at its lower bound keeps the list strictly descending |
| Ordering.RemoveKeepsDescending | Telegram/SourceFiles/data/data_replies_list.cpp:148 | erasing any position keeps the list strictly descending |
| Ordering.ConcatDescending | Telegram/SourceFiles/data/data_replies_list.cpp:364-366 | two descending lists, every id of the first above every id of the second, concatenate to a descending list |
| Requests.Histories.SendRequest | Telegram/SourceFiles/data/data_replies_list.cpp:215-218 | `sendRequest` hands out the next, fresh, nonzero id and marks it pending |
| Requests.Histories.Release | Telegram/SourceFiles/data/data_replies_list.cpp:180-181 | `cancelRequest` and `finish` remove exactly that id from the pending set |
| Requests.StartAround | Telegram/SourceFiles/data/data_replies_list.cpp:176-219 | no-op when already loading around the same id; otherwise both edge requests are cancelled, `_loadingAround` is set and a fresh request in `_beforeId` is the only one pending; keeps `WellFormed` |
| Requests.StartBefore | Telegram/SourceFiles/data/data_replies_list.cpp:221-264 | a pending around-load is cancelled and replaced by a fresh before-request; otherwise a no-op while `_beforeId != 0`; keeps `WellFormed` |
| Requests.StartAfter | Telegram/SourceFiles/data/data_replies_list.cpp:266-307 | a no-op while `_afterId != 0`, otherwise a fresh after-request; the before marker is untouched; keeps `WellFormed` |
| Requests.FinishBefore | Telegram/SourceFiles/data/data_replies_list.cpp:194-196 | a completed before or around request clears `_beforeId` (and `_loadingAround` for an around-load) and leaves only the after-request pending |
| Requests.FinishAfter | Telegram/SourceFiles/data/data_replies_list.cpp:285-286 | a completed after-request clears `_afterId` and leaves only the before-request pending |
| Requests.Issue | Telegram/SourceFiles/data/data_replies_list.cpp:126-131 | the loads `buildFromData` triggers, in its order, keep `WellFormed`; no load changes nothing |
| Requests.AroundAnchorStaysBlocked | Telegram/SourceFiles/data/data_replies_list.cpp:224-228 | a before-load that replaces a pending around-request leaves `_loadingAround` set with nothing in flight once it completes, so a later `loadAround` of that anchor sends nothing |
| Requests.AroundSupersedesEdges | Telegram/SourceFiles/data/data_replies_list.cpp:180-181 | after an around-load no earlier request is pending, and a later before-load cancels the around-request instead of running beside it |
| Cache.Recount | Telegram/SourceFiles/data/data_replies_list.cpp:149-155 | with both skips known the full count becomes their sum with the list size; otherwise a known count moves by one, and a destroy never takes it below 0 |
| Cache.EraseAt | Telegram/SourceFiles/data/data_replies_list.cpp:148 | `erase` removes exactly one occurrence of the erased id |
| Cache.InsertAt | Telegram/SourceFiles/data/data_replies_list.cpp:162 | `insert` adds exactly one occurrence at the given position, keeping the prefix |
| Cache.Reconcile | Telegram/SourceFiles/data/data_replies_list.cpp:135-170 | a rejected update changes nothing; an accepted one belongs to the thread, keeps the skips, inserts only while `_skippedAfter == 0`, leaves the counts consistent (recounted whenever both skips are known), a rejected one keeps them as they were, and a partly known full count moves by one |
| Cache.ReconcileChangesOneId | Telegram/SourceFiles/data/data_replies_list.cpp:143-168 | an accepted destroy removes exactly one cached occurrence of the id; an accepted insert adds exactly one |
| Cache.ReconcileAcceptsExactly | Telegram/SourceFiles/data/data_replies_list.cpp:138-161 | on a descending list an update is accepted iff it is of this thread and is a destroy of a cached id or an insert of an uncached id while `_skippedAfter == 0` |
| Cache.ReconcileKeepsDescending | Telegram/SourceFiles/data/data_replies_list.cpp:143-162 | `applyUpdate` keeps `_list` strictly descending |
| Cache.ReconcileInsertIdempotent | Telegram/SourceFiles/data/data_replies_list.cpp:159-161 | repeating an accepted insert is rejected and changes nothing |
| Cache.PageCount | Telegram/SourceFiles/data/data_replies_list.cpp:312-328 | the full count a page reports: 0 for not-modified, the number of messages for the plain kind, the server count for slice and channel pages |
| Cache.Accepted | Telegram/SourceFiles/data/data_replies_list.cpp:353-363 | the kept ids are no more than the page's messages |
| Cache.AcceptedMembers | Telegram/SourceFiles/data/data_replies_list.cpp:353-363 | an id is kept iff it is the id of a stored page message replying to the root |
| Cache.AcceptedDescending | Telegram/SourceFiles/data/data_replies_list.cpp:353-363 | the kept ids of a descending page are descending |
| Cache.MergePage | Telegram/SourceFiles/data/data_replies_list.cpp:309-369 | empty result iff the page has no messages, then the list is unchanged; the full count is the page's count; otherwise the kept ids are prepended, in page order, exactly when the list is non-empty and the page's first id (kept or not) is above the front, and appended otherwise |
| Cache.MergeKeepsDescending | Telegram/SourceFiles/data/data_replies_list.cpp:345-367 | a descending page wholly newer than the front or older than the back keeps the list descending |
| Cache.AroundLoaded | Telegram/SourceFiles/data/data_replies_list.cpp:193-207 | an around-load restarts the window from its page: `_skippedAfter` known 0 only for the newest anchor, `_skippedBefore` unknown, and an empty page marks the whole thread empty; the result is consistent |
| Cache.EdgeLoaded | Telegram/SourceFiles/data/data_replies_list.cpp:241-254 | an edge completion on an empty list is ignored; if the edge moved it re-issues the load; an empty page closes that side and sets the full count to the list size when the other side is closed; otherwise the page is merged |
| Cache.EdgeLoadedKeepsConsistent | Telegram/SourceFiles/data/data_replies_list.cpp:284-297 | an edge completion keeps the skips 0 or unknown, and keeps the counts consistent when its side is still open |
| Cache.AroundEmptyThenInsert | Telegram/SourceFiles/data/data_replies_list.cpp:205-206 | an empty around-page followed by the live insert of its anchor gives a one-id window known to be the whole thread |
| Slices.ThreadEmpty | Telegram/SourceFiles/data/data_replies_list.cpp:86 | the thread is known empty: no cached ids and both skips present and 0 |
| Slices.NeedsAround | Telegram/SourceFiles/data/data_replies_list.cpp:95-98 | the anchor cannot be served: nothing cached, the newest asked for while newer replies may exist, or the anchor outside the cached range |
| Slices.SplitIndex | Telegram/SourceFiles/data/data_replies_list.cpp:102-104 | the split index is within the list |
| Slices.Cut | Telegram/SourceFiles/data/data_replies_list.cpp:105-125 | the slice holds `min(i, limitBefore) + min(size - i, limitAfter + 1)` ids, the window run around `i` in reverse; a known skip grows by the ids cut off on its side, an unknown one keeps the viewer's value; the full count is copied |
| Slices.Build | Telegram/SourceFiles/data/data_replies_list.cpp:85-133 | the empty thread gives the empty slice; an unservable anchor loads around it and serves nothing; otherwise the cut at the split index. As written, `loadBefore` is asked for iff `_skippedBefore != 0` and the ids NEWER than the anchor are fewer than `limitBefore`. `loadAfter` is asked for iff `_skippedAfter != 0` and the anchor and older ids are at most `limitAfter` |
| Slices.BuildAscending | Telegram/SourceFiles/data/data_replies_list.cpp:119-124 | a served slice of a descending window is ascending |
| Slices.BuildAccounts | Telegram/SourceFiles/data/data_replies_list.cpp:110-125 | with both skips known and consistent counts, the served slice's skips plus its ids add up to its full count |
| Slices.BuildShowsAnchor | Telegram/SourceFiles/data/data_replies_list.cpp:102-108 | a cached anchor is always in its served slice |
| Slices.BuildCountsNewerAsBefore | Telegram/SourceFiles/data/data_replies_list.cpp:105-116 | as written, the slice of window 20,19,18,17 around 18 reports two older ids though only one is cached |
| Slices.BuildLoadsSwapped | Telegram/SourceFiles/data/data_replies_list.cpp:126-131 | as written, window 20,19,18,17 with unknown counts asks for `loadBefore` around 20 with limits 2/0 and `loadAfter` around 17 with limits 0/2; in both cases the corrected build asks for neither |
| Slices.BuildNewestShowsOldest | Telegram/SourceFiles/data/data_replies_list.cpp:102-108 | as written, the newest anchor is served the oldest cached id, not the newest |
| Slices.IntendedCut | Telegram/SourceFiles/data/data_replies_list.cpp:105-124 | corrected cut: at most `limitBefore + 1` ids from the anchor on (it and older) and `limitAfter` newer ones, so at most `limitBefore + limitAfter + 1`; id k of the slice is the window id at the mirrored position (display order reversed); each known skip grows by the ids cut off on its own side by age (counts proved in `IntendedCutCountsByAge`) |
| Slices.BuildIntended | Telegram/SourceFiles/data/data_replies_list.cpp:85-133 | `buildFromData` with the corrected cut: same decisions, the slice is the corrected cut at the corrected split, loading older ids iff `_skippedBefore != 0` and the anchor and older ids number at most `limitBefore`, newer ids iff `_skippedAfter != 0` and fewer than `limitAfter` are newer; its meaning is proved in `BuildIntendedCountsByAge`, `BuildIntendedAscending`, `BuildIntendedShowsAnchor` and `BuildIntendedShowsNewest` |
| Slices.BuildIntendedCountsByAge | Telegram/SourceFiles/data/data_replies_list.cpp:110-117 | corrected, each side on its own: when `_skippedBefore` is known, skipped-before is it plus the cached ids older than the slice; when `_skippedAfter` is known, skipped-after is it plus the cached ids newer than the slice |
| Slices.IntendedCutCountsByAge | Telegram/SourceFiles/data/data_replies_list.cpp:110-117 | the same per-side count attribution for the corrected cut at any split point |
| Slices.BuildIntendedAscending | Telegram/SourceFiles/data/data_replies_list.cpp:119-124 | corrected: a served slice of a descending window is ascending |
| Slices.BuildIntendedShowsAnchor | Telegram/SourceFiles/data/data_replies_list.cpp:102-108 | corrected: a cached anchor is always in its served slice |
| Slices.BuildIntendedShowsNewest | Telegram/SourceFiles/data/data_replies_list.cpp:102-104 | corrected: the newest anchor's slice holds the newest cached id |
| Replies.Viewer.constructor | Telegram/SourceFiles/data/data_replies_list.cpp:27-32 | a viewer holds its anchor and limits, and an empty slice with unknown counts |
| Replies.RepliesList.constructor | Telegram/SourceFiles/data/data_replies_list.cpp:34-37 | a new list is empty, every count unknown, no request in flight |
| Replies.RepliesList.BuildFromData | Telegram/SourceFiles/data/data_replies_list.cpp:85-133 | serves or not, fills the viewer's slice and moves the markers exactly as the corrected `BuildIntended` and `Issue`; the window is untouched |
| Replies.RepliesList.CutFor | Telegram/SourceFiles/data/data_replies_list.cpp:105-125 | the copy loop and the reversal build exactly the corrected cut `IntendedCut` |
| Replies.RepliesList.ApplyUpdate | Telegram/SourceFiles/data/data_replies_list.cpp:135-170 | returns and leaves the window exactly as `Reconcile` |
| Replies.RepliesList.LoadAround | Telegram/SourceFiles/data/data_replies_list.cpp:176-219 | moves the markers as `StartAround`, keeps the window |
| Replies.RepliesList.AroundDone | Telegram/SourceFiles/data/data_replies_list.cpp:193-207 | window becomes `AroundLoaded`, markers `FinishBefore`, one part-loaded event |
| Replies.RepliesList.AroundFail | Telegram/SourceFiles/data/data_replies_list.cpp:208-211 | only `_beforeId` and `_loadingAround` are cleared |
| Replies.RepliesList.LoadBefore | Telegram/SourceFiles/data/data_replies_list.cpp:221-264 | on a non-empty list, moves the markers as `StartBefore`, keeps the window |
| Replies.RepliesList.BeforeDone | Telegram/SourceFiles/data/data_replies_list.cpp:241-254 | releases the request, then ignores, re-issues or loads exactly as `EdgeLoaded` toward the back; consistent counts stay consistent while `_skippedBefore != 0` |
| Replies.RepliesList.BeforeFail | Telegram/SourceFiles/data/data_replies_list.cpp:255-257 | only `_beforeId` is cleared |
| Replies.RepliesList.LoadAfter | Telegram/SourceFiles/data/data_replies_list.cpp:266-307 | on a non-empty list, moves the markers as `StartAfter`, keeps the window |
| Replies.RepliesList.AfterDone | Telegram/SourceFiles/data/data_replies_list.cpp:284-297 | releases the request, then ignores, re-issues or loads exactly as `EdgeLoaded` toward the front; consistent counts stay consistent while `_skippedAfter != 0` |
| Replies.RepliesList.AfterFail | Telegram/SourceFiles/data/data_replies_list.cpp:298-300 | only `_afterId` is cleared |
| Replies.RepliesList.ProcessMessagesIsEmpty | Telegram/SourceFiles/data/data_replies_list.cpp:309-369 | the push-back loop leaves exactly the window of `MergePage`, returns its emptiness, and fires `_partLoaded` once |

## Left out

- The `source()` producer, the viewer's lifetime, `crl::on_main` and the `fullCount()` stream are event plumbing. `_partLoaded` is a counter of how often it fired.
- The arguments of `MTPmessages_GetReplies` and `kMessagesPerPage` are wire details. A page is a `MessagesResult` value passed to the done method.
- `Histories` is a scheduler shared by all chats. Here it serves one list: it hands out ids 1, 2, 3, ... and keeps the pending set. `Release` stands for both `cancelRequest` and the `finish` callback.
- `owner.addNewMessage`, `processUsers`, `processChats` and `ptsReceived` belong to the data store. A page message carries only its id and reply root, plus a `stored` flag for whether `addNewMessage` returned an item.
- `LOG` calls and the destructor, which only cancels requests, are left out.
- Asynchrony is left out: each done or fail callback is a method called later on the same object.
- Message ids and counts are unbounded integers; 32-bit wrap-around is not modelled. `FullMsgId` is reduced to the message id, because the channel id is the same for the whole slice.
- The unused `viewer` parameter of `applyUpdate` is dropped.
- Replies.RepliesList.BuildFromData: the slice is built by copying and then reversing a sequence, not by reversing a vector in place.
- Ordering.LowerBound: it is the first index whose id is at most the key. On a list that is not strictly descending, `std::lower_bound` may pick a different index; the model fixes this one.
- Cache.MergePage: it does not deduplicate or sort, as in the source. That the list stays descending holds only under the page assumptions of `Cache.MergeKeepsDescending`.
- Replies.RepliesList.Valid: it covers the skips being 0 or unknown and the markers being well formed, not consistent counts. `AroundDone` establishes consistency and an accepted `ApplyUpdate` restores it. `BeforeDone` and `AfterDone` keep it only while their side is still open when the page arrives. The source does not ensure that for the after side: an after-load issued while an around-load of the newest is in flight survives that load's completion, which sets `_skippedAfter` to 0.
- Replies.RepliesList.BuildFromData: it follows `Slices.BuildIntended`, not the source. The slice, its skip counts and the background-load triggers are by age. In the source `loadBefore` fires when the newer side is short and `loadAfter` when the anchor-and-older side is short. The as-written behaviour is `Slices.Build` (see Findings).

## Findings

| source | as written | input that shows it | evidently intended | confidence | as-written member | corrected member |
|---|---|---|---|---|---|---|
| Telegram/SourceFiles/data/data_replies_list.cpp:102-131 | `_list` is newest first, but the slice is cut as if it were oldest first. The ids before the split index (newer than the anchor) fill the "before" side and are added to `_skippedBefore`, which counts older messages. For `around == 0` the split is the end of the list, so the oldest ids are shown. The background loads at :126-131 are swapped the same way. `loadBefore` fetches older ids, yet it fires when the newer side is short. `loadAfter` fires when the anchor-and-older side is short | window 20,19,18,17 with both skips 0, anchor 18, limits 0 and 0: the slice is [18] with skipped-before 2 and skipped-after 1, although one cached id is older and two are newer. Window 3,2,1, anchor 0, limits 1 and 0: the slice is [1]. Window 20,19,18,17 with unknown counts: anchor 20 with limits 2 and 0 asks for `loadBefore`, and anchor 17 with limits 0 and 2 asks for `loadAfter` | the before side is the anchor and older ids, the after side the newer ids, the newest anchor splits at the front; each skip then counts the ids older or newer than the slice, and each load fetches toward the side that is short | medium, not executed | Slices.BuildCountsNewerAsBefore | Slices.BuildIntendedCountsByAge |
