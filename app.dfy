/** The mutable `appState` record and the operations that update it in place.
    Each method is tied to the value-level transition in `Ledger`, where the
    properties of sequences of operations are proved. */
module App {
  import opened Records
  import opened Ledger
  import Views
  import Blackboard

  class StarApp {
    var totalStars: int
    var mode: Mode
    var records: seq<StarRecord>
    var lastSnapshot: Option<Snapshot>

    /** The four fields as one value. */
    function Value(): AppState
      reads this
    {
      AppState(totalStars, mode, records, lastSnapshot)
    }

    constructor ()
      ensures Value() == Initial
    {
      totalStars, mode, records, lastSnapshot := 0, Home, [], None;
    }

    /** `resetData`. */
    method ResetData()
      modifies this
      ensures Value() == Initial
    {
      totalStars, mode, records, lastSnapshot := 0, Home, [], None;
    }

    /** `loadData`, given what storage returned. */
    method LoadData(saved: Saved)
      modifies this
      ensures Value() == Load(old(Value()), saved)
    {
      match saved {
        case NothingSaved =>
        case Unparsable =>
          ResetData();
        case Parsed(b) =>
          records := if b.records.Some? then b.records.value else [];
          totalStars := if b.totalStars.Some? then b.totalStars.value else 0;
          mode := if b.mode.Some? then b.mode.value else Home;
          lastSnapshot := b.lastSnapshot;
      }
    }

    /** `addStar(reason)`; `id` and `now` stand for `generateId()` and `Date.now()`. */
    method AddStar(reason: string, id: string, now: int)
      modifies this
      ensures Value() == AddStarTo(old(Value()), reason, id, now)
      ensures Views.AwayStarsCount(records).added
           == Views.AwayStarsCount(old(records)).added + (if old(mode) == Away then 1 else 0)
    {
      var record := StarRecord(id, Add, reason, now, mode, mode == Home, None);
      records := [record] + records;
      totalStars := totalStars + 1;
      Views.AwayCountsAfterPrepend(record, old(records));
    }

    /** `removeStar(reason)`; `removed` is false on the "no stars left" branch. */
    method RemoveStar(reason: string, id: string, now: int) returns (removed: bool)
      modifies this
      ensures removed == (old(totalStars) > 0)
      ensures Value() == RemoveStarFrom(old(Value()), reason, id, now)
      ensures !removed ==> unchanged(this)
    {
      if totalStars <= 0 {
        return false;
      }
      var record := StarRecord(id, Remove, reason, now, mode, mode == Home,
                               if mode == Away then Some(reason) else None);
      records := [record] + records;
      totalStars := totalStars - 1;
      removed := true;
    }

    /** `syncToBlackboard`: walks the log and marks each pending away record synced. */
    method SyncToBlackboard()
      modifies this
      ensures Value() == Ledger.SyncToBlackboard(old(Value()))
      ensures !Views.HasUnsyncedAway(records)
    {
      var i := 0;
      while i < |records|
        invariant 0 <= i <= |records| == |old(records)|
        invariant forall k :: 0 <= k < i ==> records[k] == SyncOne(old(records)[k])
        invariant forall k :: i <= k < |records| ==> records[k] == old(records)[k]
        invariant totalStars == old(totalStars) && mode == old(mode) && lastSnapshot == old(lastSnapshot)
      {
        if records[i].mode == Away && !records[i].synced {
          records := records[i := records[i].(synced := true)];
        }
        i := i + 1;
      }
      Views.AwayCountsAfterSync(old(records));
    }

    /** `switchMode(mode)`. */
    method SwitchMode(m: Mode)
      modifies this
      ensures Value() == Ledger.SwitchMode(old(Value()), m)
    {
      if mode == m {
        return;
      }
      mode := m;
    }

    /** `saveSnapshot`; `now` stands for `Date.now()`. */
    method SaveSnapshot(now: int)
      modifies this
      ensures Value() == Ledger.SaveSnapshot(old(Value()), now)
    {
      lastSnapshot := Some(Snapshot(now, totalStars, records));
    }

    /** The record selection of `renderStarsGrid` at time `now`: the window,
        sorted by timestamp, replayed through the star stack. */
    method RenderStarsGrid(now: int) returns (stars: seq<StarRecord>)
      ensures stars == Blackboard.ActiveStarsAsWritten(records, now)
      ensures forall x :: x in stars ==> x in records && x.kind == Add && x.timestamp >= now - WindowMs
      ensures |stars| <= |Filter(Window(records, now), OfKind(Add))|
      ensures |stars| >= |Filter(Window(records, now), OfKind(Add))| - |Filter(Window(records, now), OfKind(Remove))|
    {
      var recent := Window(records, now);
      var sorted := Blackboard.SortByTimestamp(recent);
      stars := Blackboard.ReplayStack(sorted);
      Blackboard.SortProperties(recent);
      Blackboard.WindowReplayBounds(records, now, sorted);
    }
  }

  /** A day at home: three stars earned and one taken away. */
  method HomeDay() returns (app: StarApp)
    ensures fresh(app)
    ensures app.totalStars == 2 && app.mode == Home && |app.records| == 4
    ensures Views.AwayStarsCount(app.records).total == 0
  {
    app := new StarApp();
    app.AddStar("good behavior", "s1", 1000);
    app.AddStar("good behavior", "s2", 2000);
    app.AddStar("good behavior", "s3", 3000);
    assert app.totalStars == 3 && |app.records| == 3;
    var removed := app.RemoveStar("misbehaved", "s4", 4000);
    assert removed && app.totalStars == 2 && |app.records| == 4;
    assert !Views.HasUnsyncedAway(app.records) by {
      ghost var rs := app.records;
      assert rs[0].synced && rs[1].synced && rs[2].synced && rs[3].synced;
      assert rs == [rs[0], rs[1], rs[2], rs[3]];
    }
  }

  /** A session: the day at home, then a star earned away, then synced. */
  method Session() {
    var app := HomeDay();
    ghost var home := app.records;
    app.SwitchMode(Away);
    app.AddStar("shared", "s5", 5000);
    assert app.totalStars == 3 && app.records[1..] == home;
    ghost var shared := app.records[0];
    assert IsPendingAway(shared) && shared.kind == Add;
    Views.AwayCountsAfterPrepend(shared, home);
    assert app.records == [shared] + home;
    assert Views.AwayStarsCount(app.records) == Views.AwayCounts(1, 0, 1, 1);
    app.SyncToBlackboard();
    assert app.records[0].synced && app.totalStars == 3;
    assert Views.AwayStarsCount(app.records).total == 0;
  }
}
