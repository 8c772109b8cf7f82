/** The star ledger as a value: the four fields of the app state, what each
    user action does to them, and what holds after any sequence of actions. */
module Ledger {
  import opened Records

  /** A copy of the count and of the log taken by `saveSnapshot`. */
  datatype Snapshot = Snapshot(timestamp: int, totalStars: int, records: seq<StarRecord>)

  /** The app state: star count, current mode, the log (newest first) and the last snapshot. */
  datatype AppState = AppState(
    totalStars: int,
    mode: Mode,
    records: seq<StarRecord>,
    lastSnapshot: Option<Snapshot>)

  /** The state `resetData` restores and the page starts from. */
  const Initial := AppState(0, Home, [], None)

  /** `addStar(reason)` with the id and clock reading it is given. */
  function AddStarTo(st: AppState, reason: string, id: string, now: int): (st': AppState)
    ensures |st'.records| == |st.records| + 1 && st'.records[1..] == st.records
    ensures var r := st'.records[0];
      r.id == id && r.kind == Add && r.reason == reason && r.timestamp == now &&
      r.mode == st.mode && r.synced == (st.mode == Home) && r.deleteReason == None
    ensures st'.totalStars == st.totalStars + 1
    ensures st'.mode == st.mode && st'.lastSnapshot == st.lastSnapshot
  {
    var record := StarRecord(id, Add, reason, now, st.mode, st.mode == Home, None);
    st.(records := [record] + st.records, totalStars := st.totalStars + 1)
  }

  /** `removeStar(reason)`: nothing at all happens while the count is not
      positive; otherwise a remove record is put at the head of the log and
      the count goes down by one. */
  function RemoveStarFrom(st: AppState, reason: string, id: string, now: int): (st': AppState)
    ensures st.totalStars <= 0 ==> st' == st
    ensures st.totalStars > 0 ==>
      |st'.records| == |st.records| + 1 && st'.records[1..] == st.records &&
      st'.totalStars == st.totalStars - 1
    ensures st.totalStars > 0 ==> var r := st'.records[0];
      r.id == id && r.kind == Remove && r.reason == reason && r.timestamp == now &&
      r.mode == st.mode && r.synced == (st.mode == Home) &&
      r.deleteReason == (if st.mode == Away then Some(reason) else None)
    ensures st'.mode == st.mode && st'.lastSnapshot == st.lastSnapshot
  {
    if st.totalStars <= 0 then st
    else
      var record := StarRecord(id, Remove, reason, now, st.mode, st.mode == Home,
                               if st.mode == Away then Some(reason) else None);
      st.(records := [record] + st.records, totalStars := st.totalStars - 1)
  }

  /** `syncToBlackboard`: only the synced flags of the log change. */
  function SyncToBlackboard(st: AppState): (st': AppState)
    ensures st'.totalStars == st.totalStars && st'.mode == st.mode && st'.lastSnapshot == st.lastSnapshot
    ensures |st'.records| == |st.records|
  {
    st.(records := SyncAll(st.records))
  }

  /** `switchMode(mode)`. */
  function SwitchMode(st: AppState, m: Mode): (st': AppState)
    ensures st' == st.(mode := m)
    ensures st.mode == m ==> st' == st
  {
    if st.mode == m then st else st.(mode := m)
  }

  /** `saveSnapshot`: the current count and log, stamped with `now`. */
  function SaveSnapshot(st: AppState, now: int): (st': AppState)
    ensures st'.lastSnapshot.Some?
    ensures var snap := st'.lastSnapshot.value;
      snap.timestamp == now && snap.totalStars == st.totalStars && snap.records == st.records
    ensures st'.totalStars == st.totalStars && st'.mode == st.mode && st'.records == st.records
  {
    st.(lastSnapshot := Some(Snapshot(now, st.totalStars, st.records)))
  }

  /** Sync marks exactly the pending away records; count, mode, snapshot,
      length and order of the log are unchanged; a second sync changes nothing. */
  lemma {:induction false} SyncProperties(st: AppState)
    ensures var st' := SyncToBlackboard(st);
      st'.totalStars == st.totalStars && st'.mode == st.mode &&
      st'.lastSnapshot == st.lastSnapshot && |st'.records| == |st.records| &&
      (forall k :: 0 <= k < |st.records| ==>
         st'.records[k] == st.records[k].(synced := st.records[k].synced || IsPendingAway(st.records[k])))
    ensures SyncToBlackboard(SyncToBlackboard(st)) == SyncToBlackboard(st)
    ensures forall r :: r in SyncToBlackboard(st).records ==> !IsPendingAway(r)
  {
    SyncIdempotent(st.records);
  }

  // ---------------------------------------------------------------- sequences of actions

  /** The user actions that change the state (the buttons and `saveSnapshot`). */
  datatype Action =
    | AddStar(reason: string, id: string, at: int)
    | RemoveStar(reason: string, id: string, at: int)
    | Sync
    | Switch(mode: Mode)
    | TakeSnapshot(at: int)

  function Apply(st: AppState, a: Action): AppState {
    match a
    case AddStar(reason, id, at) => AddStarTo(st, reason, id, at)
    case RemoveStar(reason, id, at) => RemoveStarFrom(st, reason, id, at)
    case Sync => SyncToBlackboard(st)
    case Switch(m) => SwitchMode(st, m)
    case TakeSnapshot(at) => SaveSnapshot(st, at)
  }

  /** The state after the actions, first to last. */
  function Run(st: AppState, actions: seq<Action>): AppState {
    if actions == [] then st else Apply(Run(st, actions[..|actions| - 1]), actions[|actions| - 1])
  }

  /** `before` becomes `after` the only way a log entry may change: same entry,
      `synced` only ever going from false to true. */
  predicate Evolves(before: seq<StarRecord>, after: seq<StarRecord>) {
    |before| == |after| &&
    forall k :: 0 <= k < |before| ==>
      after[k] == before[k].(synced := after[k].synced) && (before[k].synced ==> after[k].synced)
  }

  /** `st'` is reached from `st` with the log only grown at its head, old
      entries changed only by being synced, and the count moved by exactly the
      adds minus the removes among the new entries. */
  predicate KeepsHistory(st: AppState, st': AppState) {
    var k := |st'.records| - |st.records|;
    k >= 0 && Evolves(st.records, st'.records[k..]) &&
    st'.totalStars == st.totalStars
      + |Filter(st'.records[..k], OfKind(Add))| - |Filter(st'.records[..k], OfKind(Remove))|
  }

  lemma {:induction false} PrependKeepsHistory(st: AppState, mid: AppState, st': AppState, r: StarRecord)
    requires KeepsHistory(st, mid)
    requires st'.records == [r] + mid.records
    requires st'.totalStars == mid.totalStars + (if r.kind == Add then 1 else -1)
    ensures KeepsHistory(st, st')
  {
    var k := |mid.records| - |st.records|;
    var added := mid.records[..k];
    assert |st'.records| - |st.records| == k + 1;
    assert st'.records[k + 1..] == mid.records[k..];
    assert Evolves(st.records, st'.records[k + 1..]);
    assert st'.records[..k + 1] == [r] + added;
    FilterPrepend(r, added, OfKind(Add));
    FilterPrepend(r, added, OfKind(Remove));
    assert mid.totalStars == st.totalStars
      + |Filter(added, OfKind(Add))| - |Filter(added, OfKind(Remove))|;
  }

  lemma {:induction false} EvolvesSync(before: seq<StarRecord>, after: seq<StarRecord>)
    requires Evolves(before, after)
    ensures Evolves(before, SyncAll(after))
  {
    var synced := SyncAll(after);
    forall k | 0 <= k < |before|
      ensures synced[k] == before[k].(synced := synced[k].synced) && (before[k].synced ==> synced[k].synced)
    {
      assert synced[k] == SyncOne(after[k]);
    }
  }

  lemma {:induction false} SyncKeepsHistory(st: AppState, mid: AppState)
    requires KeepsHistory(st, mid)
    ensures KeepsHistory(st, SyncToBlackboard(mid))
  {
    var k := |mid.records| - |st.records|;
    var synced := SyncAll(mid.records);
    var added := mid.records[..k];
    SyncAllSlice(mid.records, k);
    EvolvesSync(st.records, mid.records[k..]);
    SyncFilter(added, OfKind(Add));
    SyncFilter(added, OfKind(Remove));
    var st' := SyncToBlackboard(mid);
    assert st'.records == synced && st'.totalStars == mid.totalStars;
    assert |synced| - |st.records| == k;
    assert Evolves(st.records, synced[k..]);
    assert |Filter(synced[..k], OfKind(Add))| == |Filter(added, OfKind(Add))|;
    assert |Filter(synced[..k], OfKind(Remove))| == |Filter(added, OfKind(Remove))|;
  }

  /** Records are only ever put at the head of the log and never deleted; old
      entries change only by being synced; and the count moves by exactly the
      adds minus the removes among the new entries. */
  lemma {:induction false} RunKeepsHistory(st: AppState, actions: seq<Action>)
    ensures KeepsHistory(st, Run(st, actions))
    decreases |actions|
  {
    if actions == [] {
      assert st.records[..0] == [];
      assert st.records[0..] == st.records;
    } else {
      var mid := Run(st, actions[..|actions| - 1]);
      RunKeepsHistory(st, actions[..|actions| - 1]);
      var a := actions[|actions| - 1];
      var st' := Apply(mid, a);
      assert st' == Run(st, actions);
      if a.AddStar? || (a.RemoveStar? && mid.totalStars > 0) {
        PrependKeepsHistory(st, mid, st', st'.records[0]);
      } else if a.Sync? {
        SyncKeepsHistory(st, mid);
      } else {
        assert st'.records == mid.records && st'.totalStars == mid.totalStars;
        assert KeepsHistory(st, st');
      }
    }
  }

  /** From a non-negative count no sequence of actions makes the count negative. */
  lemma {:induction false} RunNeverNegative(st: AppState, actions: seq<Action>)
    requires st.totalStars >= 0
    ensures Run(st, actions).totalStars >= 0
    decreases |actions|
  {
    if actions != [] {
      RunNeverNegative(st, actions[..|actions| - 1]);
    }
  }

  // ---------------------------------------------------------------- storage

  /** The stored blob as read back: any top-level field may be missing or null. */
  datatype Stored = Stored(
    totalStars: Option<int>,
    mode: Option<Mode>,
    records: Option<seq<StarRecord>>,
    lastSnapshot: Option<Snapshot>)

  /** What `localStorage.getItem` gives back: nothing, a blob that does not parse, or a parsed blob. */
  datatype Saved = NothingSaved | Unparsable | Parsed(blob: Stored)

  /** The defaulting of `loadData`: a missing log becomes empty, a missing
      count zero, a missing mode home; everything present is kept. */
  function Normalize(b: Stored): (st: AppState)
    ensures st.records == (if b.records.Some? then b.records.value else [])
    ensures st.totalStars == (if b.totalStars.Some? then b.totalStars.value else 0)
    ensures st.mode == (if b.mode.Some? then b.mode.value else Home)
    ensures st.lastSnapshot == b.lastSnapshot
  {
    AppState(
      match b.totalStars case Some(n) => n case None => 0,
      match b.mode case Some(m) => m case None => Home,
      match b.records case Some(rs) => rs case None => [],
      b.lastSnapshot)
  }

  /** What `saveData` writes: every field present. */
  function Serialize(st: AppState): (b: Stored)
    ensures Normalize(b) == st
  {
    Stored(Some(st.totalStars), Some(st.mode), Some(st.records), st.lastSnapshot)
  }

  /** `loadData`: with nothing saved the current state stays, a blob that
      does not parse resets, a parsed blob is normalised. */
  function Load(current: AppState, saved: Saved): (st: AppState)
    ensures saved.NothingSaved? ==> st == current
    ensures saved.Unparsable? ==> st == Initial
    ensures saved.Parsed? ==> st == Normalize(saved.blob)
  {
    match saved
    case NothingSaved => current
    case Unparsable => Initial
    case Parsed(b) => Normalize(b)
  }

  /** Saving then loading gives back the state that was saved, and loading is
      idempotent: normalising a normalised blob changes nothing. */
  lemma {:induction false} SaveLoadRoundTrip(st: AppState, current: AppState, b: Stored)
    ensures Load(current, Parsed(Serialize(st))) == st
    ensures Normalize(Serialize(Normalize(b))) == Normalize(b)
  {
  }
}
