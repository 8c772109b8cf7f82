# Star ledger of the Star Wish Plan app, in Dafny

The Star Wish Plan app lets parents award and deduct stars. The app keeps one
mutable record, `appState`. It holds a star counter, the current mode (`home` or
`away`), a log of add/remove records (newest first) and an optional last snapshot.
Every button press runs one operation on that record. All other parts of the
app read the log: the star blackboard, the history panel, the away-star hint
and sync button, and the snapshot card.

This project models that ledger:

- `records.dfy` (module `Records`): the star record, the filters the views
  apply to the log, and what syncing does to one record.
- `blackboard.dfy` (module `Blackboard`): `renderStarsGrid`'s choice of stars.
  It takes the thirty-day window, sorts it stably by timestamp, and replays it
  through a stack: an add pushes, a remove pops, and a remove on an empty
  stack is ignored.
- `views.dfy` (module `Views`): `getAwayStarsCount`, the `renderHistory`
  filter and the statistics of `showSnapshot`.
- `ledger.dfy` (module `Ledger`): the state as a value. It gives each
  operation's transition, `Run` over any sequence of user actions, and the
  `loadData` defaulting.
- `app.dfy` (module `App`): class `StarApp`, the in-place `appState`. Its
  methods update its four fields. Each method's postcondition ties the new
  state to the `Ledger` transition of the old state. `Session` replays a
  short use of the app against these contracts.
- `consistency.dfy` (module `Consistency`): when the blackboard shows exactly
  `totalStars` stars, and the one case where the code as written does not.

`Date.now()` and `generateId()` are parameters (`now`, `at`, `id`).
Timestamps are integers of milliseconds.

## Model

| member | source | states |
|---|---|---|
| Records.FilterMembers | app.js:259-261 | the filter keeps exactly the matching records, in log order (a subsequence of the log) |
| Records.KindSplit | app.js:260-266 | every record is an add or a remove, so the add count plus the remove count is the number of records filtered |
| Records.FilterCountPermutation | app.js:131 | reordering the log (as the sort does) changes no count taken by a filter |
| Records.SyncOne | app.js:531-534 | after syncing, a record is synced exactly when it already was or is an away record |
| Records.SyncAll | app.js:529-535 | the synced log has the same length and order, each record passed through the one-record rule |
| Records.SyncIdempotent | app.js:529-535 | syncing a synced log changes nothing |
| Records.SyncFilter | app.js:529-535 | after a sync no record is pending; every other filter gives the synced version of what it gave before |
| Records.Window | app.js:127-128 | the thirty-day window never holds more records than the log; `Records.WindowMembers` states which records it holds |
| Records.WindowMembers | app.js:561-562 | the window holds exactly the records stamped no earlier than thirty days before `now`, in log order |
| Records.FilterPrepend | app.js:335 | putting a record at the head of the log puts it at the head of every filter it matches and changes no other filter |
| Blackboard.SortByTimestamp | app.js:131 | the sort keeps the window's length; `Blackboard.SortProperties` and `Blackboard.SortKeepsTies` state order, permutation and stability |
| Blackboard.SortProperties | app.js:131 | the sorted window is oldest first and a permutation of the window |
| Blackboard.SortKeepsTies | app.js:131 | the sort is stable: records with equal timestamps keep their input order |
| Blackboard.SortChronological | app.js:131 | sorting an already oldest-first list returns it unchanged |
| Blackboard.Replay | app.js:135-144 | the stack never holds more records than were replayed; `Blackboard.ReplayBounds` states which records and how many |
| Blackboard.ReplayBounds | app.js:135-144 | the final stack holds only add records, is a subsequence of the replayed list, and has at most the adds and at least adds minus removes |
| Blackboard.ReplayStack | app.js:135-144 | the push/pop loop computes the replay, and its result satisfies those bounds and contains only records of the list |
| Blackboard.ActiveStarsAsWritten | app.js:127-144 | the blackboard as the code orders it shows no more stars than the window holds records; `App.StarApp.RenderStarsGrid` and `Blackboard.SyncKeepsBlackboard` state the rest |
| Blackboard.WindowReplayBounds | app.js:127-144 | replaying any reordering of the window leaves only add records of the window, between window adds minus removes and window adds of them |
| Blackboard.ActiveStarsBounds | app.js:127-144 | every star drawn is an add record of the last thirty days; their number lies between window adds minus removes and window adds |
| Blackboard.SyncKeepsBlackboard | app.js:529-535 | after a sync both the blackboard as written and the corrected one show the same records in the same order, only marked synced, and none is drawn as a pending away star |
| Views.HasUnsyncedAway | app.js:113-115 | the sync button is shown exactly when the filter of unsynced away records that `getAwayStarsCount` counts is not empty |
| Views.AwayStarsCount | app.js:258-268 | the counts cover unsynced away records only; added plus removed is total, net is added minus removed, and total is zero exactly when no away record is unsynced |
| Views.AwayCountsAfterPrepend | app.js:325-336 | a new record moves the away counts only when it is itself a pending away record, and then by one in its own column |
| Views.AwayCountsAfterSync | app.js:529-535 | after a sync all away counts are zero, so the sync button is hidden |
| Views.FilterHistory | app.js:444-453 | 'all' is the whole log; 'add', 'remove' and 'away' keep exactly the records of that type or mode; each is a subsequence of the log |
| Views.HistorySplit | app.js:447-450 | the 'add' and 'remove' views together list as many records as 'all' |
| Views.HistoryAwayAfterSync | app.js:451-452 | the 'away' view lists the same records before and after a sync, only the flags differ |
| Views.SnapshotStats | app.js:561-575 | month adds plus month removes is the window size, net is adds minus removes, and at most the first ten window records are listed |
| Views.SnapshotStatsAfterPrepend | app.js:561-566 | a new record moves the month's add count by one if it is an add inside the thirty-day window, the remove count by one if it is a remove inside it, and changes no count otherwise; with the empty log giving zero this fixes both counts |
| Ledger.AddStarTo | app.js:325-336 | exactly one record is put at the head: type add, the current mode, synced iff at home; the count goes up by one; older records, mode and snapshot are unchanged |
| Ledger.RemoveStarFrom | app.js:361-379 | with no stars nothing changes; otherwise one remove record is put at the head, with a delete reason only away from home, and the count goes down by one |
| Ledger.SyncToBlackboard | app.js:529-535 | sync keeps count, mode, snapshot and the log's length; `Ledger.SyncProperties` states which records change |
| Ledger.SwitchMode | app.js:272-276 | only the mode changes, and switching to the current mode changes nothing |
| Ledger.SaveSnapshot | app.js:599-605 | the snapshot holds `now`, the current count and the current log; nothing else changes |
| Ledger.SyncProperties | app.js:529-535 | sync marks exactly the pending away records; count, mode, snapshot and the log's length and order are kept; a second sync changes nothing |
| Ledger.RunKeepsHistory | app.js:325-379 | over any sequence of actions the log only grows at its head, older entries change only by syncing, and the count moves by adds minus removes among the new entries |
| Ledger.RunNeverNegative | app.js:361-366 | from a non-negative count no sequence of actions makes the count negative |
| Ledger.Normalize | app.js:42-44 | a missing log, count or mode defaults to empty, zero or home; present fields are kept |
| Ledger.Load | app.js:36-50 | nothing saved keeps the state, an unparsable blob resets it, a parsed blob becomes exactly its normalised state |
| Ledger.Serialize | app.js:53-55 | normalising what `saveData` writes gives back the state that was written |
| Ledger.SaveLoadRoundTrip | app.js:53-55 | loading what was saved gives back the saved state; normalising twice is normalising once |
| App.StarApp.constructor | app.js:9-14 | the app starts with no stars, at home, with an empty log and no snapshot |
| App.StarApp.ResetData | app.js:58-66 | the state returns to the initial state |
| App.StarApp.LoadData | app.js:36-50 | the new state is the loaded state of the old one |
| App.StarApp.AddStar | app.js:325-336 | the new state is the add transition of the old state; the away add count goes up by one exactly in away mode |
| App.StarApp.RemoveStar | app.js:361-379 | reports whether a star was removed, which is exactly when the old count was positive; the new state is the remove transition; nothing changes otherwise |
| App.StarApp.SyncToBlackboard | app.js:529-535 | the loop yields the sync transition of the old state, after which no away record is unsynced |
| App.StarApp.SwitchMode | app.js:272-276 | the new state is the mode switch of the old state |
| App.StarApp.SaveSnapshot | app.js:599-605 | the new state is the snapshot transition of the old state |
| App.StarApp.RenderStarsGrid | app.js:127-144 | the stars are those of the code as written; each is an add record of the window; their number lies between window adds minus removes and window adds |
| Consistency.ReplayTracksTotal | app.js:335-336 | replaying the log in the order it was made leaves exactly `totalStars` stars on the stack |
| Consistency.ReplayTracksStep | app.js:325-379 | each action moves the replayed stack of the oldest-first log by exactly as much as it moves the count |
| Consistency.LogChronological | app.js:330 | with a clock that never runs backwards, the log reversed is oldest first |
| Consistency.BlackboardMatchesCount | app.js:127-144 | from the initial state, with a monotone clock and all records inside the window, the corrected blackboard shows exactly `totalStars` stars |
| Consistency.TiedAddRemoveShowsStar | app.js:131 | an add then a remove in the same millisecond leave the count at zero, yet the code as written draws one star |

## Left out

- DOM rendering is left out: modals, tooltips, toasts, animations, timers, the
  star styling classes and the tooltip position. These are presentation and
  hold no ledger logic.
- `escapeHtml`, `formatTime` and `formatDate` are left out. They are browser
  and locale calls.
- `localStorage` and JSON are left out. A stored blob is modelled as the
  `Stored` value it parses to. A blob that parses to a non-object (a number
  or a string) is not modelled. A mode string other than `home` or `away` is
  not modelled either.
- Object aliasing is not modelled. `saveSnapshot` copies the array of records
  but not the records themselves, so an in-memory sync also flips `synced` in
  the snapshot's copy until the next reload. Records here are values, so the
  snapshot keeps the flags it was taken with.
- `deleteReason` is `None` both when absent (add records) and when null (home
  removals).
- JavaScript numbers are modelled as unbounded integers. Floating-point
  timestamps, `NaN` counts and the `|| 0` treatment of other falsy counts are
  not modelled.
- `generateId` randomness is left out. Ids are parameters and their
  uniqueness is not assumed.
- `debugStarApp.addTestData` and the gesture and double-tap handlers are
  left out. They are console test data and browser event handlers.
- `showRemoveModal`'s early check and the `addStarCustom`/`removeStarCustom`
  empty-reason check are left out. They only decide whether the operation is
  called at all.

## Findings

| source | as written | input that shows it | evidently intended | confidence | as-written member | corrected member |
|---|---|---|---|---|---|---|
| app.js:131 | the log is newest first, and the stable sort by timestamp keeps records with equal timestamps newest first, so the stack replays them in reverse order | from the initial state, `addStar` then `removeStar` both at `Date.now() == 5` give count 0, but the blackboard draws one star | records replayed oldest to newest, as the comment on the sort says, so the blackboard agrees with the count | low (needs two actions in one clock tick); not executed | Consistency.TiedAddRemoveShowsStar | Consistency.BlackboardMatchesCount |

The corrected blackboard, `Blackboard.ActiveStars`, reverses the window before
the stable sort. `Blackboard.SyncKeepsBlackboard`,
`Blackboard.ActiveStarsBounds` and the `Consistency` theorem are stated for it.
`App.StarApp.RenderStarsGrid` keeps the order as written.
