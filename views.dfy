/** The read-only views over the record log: the away counts that gate the sync
    button, the history filter, and the thirty-day statistics of the snapshot card. */
module Views {
  import opened Records

  /** The away-star summary `{added, removed, net, total}`. */
  datatype AwayCounts = AwayCounts(added: int, removed: int, net: int, total: int)

  /** Whether the sync button is shown (`records.some(...)`): some away record
      is still unsynced, which is the case exactly when the filter that
      `getAwayStarsCount` counts is not empty. */
  predicate HasUnsyncedAway(records: seq<StarRecord>): (shown: bool)
    ensures shown <==> Filter(records, PendingAway) != []
  {
    var away := Filter(records, PendingAway);
    FilterMembers(records, PendingAway);
    assert away != [] ==> away[0] in away;
    exists r :: r in records && IsPendingAway(r)
  }

  /** `getAwayStarsCount`: counts taken over the unsynced away records only. */
  function AwayStarsCount(records: seq<StarRecord>): (c: AwayCounts)
    ensures c.added + c.removed == c.total
    ensures c.net == c.added - c.removed
    ensures 0 <= c.added && 0 <= c.removed
    ensures c.total <= |records|
    ensures c.total == 0 <==> !HasUnsyncedAway(records)
  {
    var away := Filter(records, PendingAway);
    var added := |Filter(away, OfKind(Add))|;
    var removed := |Filter(away, OfKind(Remove))|;
    KindSplit(away);
    AwayCounts(added, removed, added - removed, |away|)
  }

  /** A record put at the head of the log moves the away counts only if it is
      itself a pending away record, and then by one in its own column. */
  lemma {:induction false} AwayCountsAfterPrepend(r: StarRecord, records: seq<StarRecord>)
    ensures var before, after := AwayStarsCount(records), AwayStarsCount([r] + records);
      if IsPendingAway(r) then
        after.total == before.total + 1 &&
        (r.kind == Add ==> after.added == before.added + 1 && after.removed == before.removed) &&
        (r.kind == Remove ==> after.removed == before.removed + 1 && after.added == before.added)
      else
        after == before
  {
    FilterPrepend(r, records, PendingAway);
    var away := Filter(records, PendingAway);
    if IsPendingAway(r) {
      assert Filter([r] + records, PendingAway) == [r] + away;
      FilterPrepend(r, away, OfKind(Add));
      FilterPrepend(r, away, OfKind(Remove));
    } else {
      assert Filter([r] + records, PendingAway) == away;
    }
  }

  /** After a sync nothing is pending: the sync button disappears. */
  lemma {:induction false} AwayCountsAfterSync(records: seq<StarRecord>)
    ensures AwayStarsCount(SyncAll(records)) == AwayCounts(0, 0, 0, 0)
  {
    SyncFilter(records, PendingAway);
  }

  // ---------------------------------------------------------------- history

  /** The four buttons of the history panel: 'all', 'add', 'remove', 'away'. */
  datatype HistoryFilter = ShowAll | ShowAdds | ShowRemoves | ShowAway

  /** `renderHistory`'s filter chain over the log (newest first). */
  function FilterHistory(records: seq<StarRecord>, f: HistoryFilter): (shown: seq<StarRecord>)
    ensures IsSubseq(shown, records)
    ensures f == ShowAll ==> shown == records
    ensures f == ShowAdds ==> forall x :: x in shown <==> x in records && x.kind == Add
    ensures f == ShowRemoves ==> forall x :: x in shown <==> x in records && x.kind == Remove
    ensures f == ShowAway ==> forall x :: x in shown <==> x in records && x.mode == Away
  {
    match f
    case ShowAll =>
      SubseqRefl(records);
      records
    case ShowAdds =>
      FilterMembers(records, OfKind(Add));
      Filter(records, OfKind(Add))
    case ShowRemoves =>
      FilterMembers(records, OfKind(Remove));
      Filter(records, OfKind(Remove))
    case ShowAway =>
      FilterMembers(records, InMode(Away));
      Filter(records, InMode(Away))
  }

  /** The 'add' and 'remove' views together list as many records as 'all'. */
  lemma {:induction false} HistorySplit(records: seq<StarRecord>)
    ensures |FilterHistory(records, ShowAdds)| + |FilterHistory(records, ShowRemoves)|
         == |FilterHistory(records, ShowAll)|
  {
    KindSplit(records);
  }

  /** The 'away' view shows synced and unsynced away records alike, so a sync
      does not change what it lists apart from the flags. */
  lemma {:induction false} HistoryAwayAfterSync(records: seq<StarRecord>)
    ensures FilterHistory(SyncAll(records), ShowAway) == SyncAll(FilterHistory(records, ShowAway))
  {
    SyncFilter(records, InMode(Away));
  }

  // ---------------------------------------------------------------- snapshot card

  /** What `showSnapshot` displays besides the total: the month's adds,
      removes, net, and at most ten of the window's records. */
  datatype MonthStats = MonthStats(monthAdd: int, monthRemove: int, monthNet: int, recent: seq<StarRecord>)

  function SnapshotStats(records: seq<StarRecord>, now: int): (st: MonthStats)
    ensures st.monthAdd + st.monthRemove == |Window(records, now)|
    ensures st.monthNet == st.monthAdd - st.monthRemove
    ensures 0 <= st.monthAdd && 0 <= st.monthRemove
    ensures |st.recent| == if |Window(records, now)| < 10 then |Window(records, now)| else 10
    ensures st.recent <= Window(records, now)
  {
    var recent := Window(records, now);
    var monthAdd := |Filter(recent, OfKind(Add))|;
    var monthRemove := |Filter(recent, OfKind(Remove))|;
    KindSplit(recent);
    MonthStats(monthAdd, monthRemove, monthAdd - monthRemove,
               if |recent| < 10 then recent else recent[..10])
  }

  /** A record put at the head of the log moves the month's counts only if it
      lies inside the thirty-day window, and then by one in the column of its
      own type. */
  lemma {:induction false} SnapshotStatsAfterPrepend(r: StarRecord, records: seq<StarRecord>, now: int)
    ensures var before, after := SnapshotStats(records, now), SnapshotStats([r] + records, now);
      if r.timestamp >= now - WindowMs then
        (r.kind == Add ==> after.monthAdd == before.monthAdd + 1 && after.monthRemove == before.monthRemove) &&
        (r.kind == Remove ==> after.monthRemove == before.monthRemove + 1 && after.monthAdd == before.monthAdd)
      else
        after == before
  {
    FilterPrepend(r, records, Since(now - WindowMs));
    var w := Window(records, now);
    if r.timestamp >= now - WindowMs {
      assert Window([r] + records, now) == [r] + w;
      FilterPrepend(r, w, OfKind(Add));
      FilterPrepend(r, w, OfKind(Remove));
    } else {
      assert Window([r] + records, now) == w;
    }
  }
}
