/** Whether the blackboard agrees with the star counter. Starting from the
    initial state, with a clock that never runs backwards and every record
    still inside the thirty-day window, the blackboard shows exactly
    `totalStars` stars. The code as written orders ties in timestamp newest
    first and can break this; see `TiedAddRemoveShowsStar`. */
module Consistency {
  import opened Records
  import opened Ledger
  import opened Blackboard

  predicate IsStarAction(a: Action) {
    a.AddStar? || a.RemoveStar?
  }

  /** `Date.now()` never decreases from one add or remove to the next. */
  predicate ClockMonotone(actions: seq<Action>) {
    forall i, j :: 0 <= i < j < |actions| && IsStarAction(actions[i]) && IsStarAction(actions[j]) ==>
      actions[i].at <= actions[j].at
  }

  /** Every record made by the actions is stamped no later than the latest star action. */
  lemma {:induction false} StampsAtMost(actions: seq<Action>, hi: int)
    requires forall a :: a in actions && IsStarAction(a) ==> a.at <= hi
    ensures forall r :: r in Run(Initial, actions).records ==> r.timestamp <= hi
    decreases |actions|
  {
    if actions != [] {
      var init := actions[..|actions| - 1];
      assert forall a :: a in init ==> a in actions;
      StampsAtMost(init, hi);
      var recs := Run(Initial, init).records;
      var a := actions[|actions| - 1];
      if a.Sync? {
        forall r | r in SyncAll(recs) ensures r.timestamp <= hi {
          var k :| 0 <= k < |recs| && SyncAll(recs)[k] == r;
          assert recs[k] in recs;
        }
      } else if a.AddStar? || a.RemoveStar? {
        assert a in actions;
      }
    }
  }

  /** Every record made by the actions is stamped no earlier than the earliest star action. */
  lemma {:induction false} StampsAtLeast(actions: seq<Action>, lo: int)
    requires forall a :: a in actions && IsStarAction(a) ==> lo <= a.at
    ensures forall r :: r in Run(Initial, actions).records ==> lo <= r.timestamp
    decreases |actions|
  {
    if actions != [] {
      var init := actions[..|actions| - 1];
      assert forall a :: a in init ==> a in actions;
      StampsAtLeast(init, lo);
      var recs := Run(Initial, init).records;
      var a := actions[|actions| - 1];
      if a.Sync? {
        forall r | r in SyncAll(recs) ensures lo <= r.timestamp {
          var k :| 0 <= k < |recs| && SyncAll(recs)[k] == r;
          assert recs[k] in recs;
        }
      } else if a.AddStar? || a.RemoveStar? {
        assert a in actions;
      }
    }
  }

  lemma {:induction false} ReversePrepend(r: StarRecord, s: seq<StarRecord>)
    ensures Reverse([r] + s) == Reverse(s) + [r]
  {
  }

  /** Replaying the log oldest first, record by record in the order it was
      made, leaves exactly as many stars on the stack as the counter holds. */
  lemma {:induction false} ReplayTracksTotal(actions: seq<Action>)
    ensures |Replay(Reverse(Run(Initial, actions).records))| == Run(Initial, actions).totalStars
    decreases |actions|
  {
    if actions != [] {
      var mid := Run(Initial, actions[..|actions| - 1]);
      ReplayTracksTotal(actions[..|actions| - 1]);
      ReplayTracksStep(mid, actions[|actions| - 1]);
    }
  }

  /** One action moves the replayed stack of the turned-around log by as much
      as it moves the count. */
  lemma {:induction false} ReplayTracksStep(mid: AppState, a: Action)
    requires |Replay(Reverse(mid.records))| == mid.totalStars
    ensures |Replay(Reverse(Apply(mid, a).records))| == Apply(mid, a).totalStars
  {
    var st' := Apply(mid, a);
    var before := Reverse(mid.records);
    if a.AddStar? || (a.RemoveStar? && mid.totalStars > 0) {
      var r := st'.records[0];
      assert st'.records == [r] + mid.records;
      ReversePrepend(r, mid.records);
      assert (before + [r])[..|before|] == before;
    } else if a.Sync? {
      ReverseSync(mid.records);
      ReplaySync(before);
    }
  }

  /** The star actions before the last one are stamped no later than it. */
  lemma {:induction false} EarlierStamps(actions: seq<Action>)
    requires ClockMonotone(actions) && actions != [] && IsStarAction(actions[|actions| - 1])
    ensures forall b :: b in actions[..|actions| - 1] && IsStarAction(b) ==> b.at <= actions[|actions| - 1].at
  {
    var init := actions[..|actions| - 1];
    forall b | b in init && IsStarAction(b) ensures b.at <= actions[|actions| - 1].at {
      var i :| 0 <= i < |init| && init[i] == b;
      assert actions[i] == b;
    }
  }

  /** With a monotone clock the log is newest first, so turned around it is oldest first. */
  lemma {:induction false} LogChronological(actions: seq<Action>)
    requires ClockMonotone(actions)
    ensures Chronological(Reverse(Run(Initial, actions).records))
    decreases |actions|
  {
    if actions != [] {
      var init := actions[..|actions| - 1];
      var mid := Run(Initial, init);
      assert ClockMonotone(init);
      LogChronological(init);
      var a := actions[|actions| - 1];
      var st' := Apply(mid, a);
      assert st' == Run(Initial, actions);
      var before := Reverse(mid.records);
      if a.AddStar? || (a.RemoveStar? && mid.totalStars > 0) {
        EarlierStamps(actions);
        StampsAtMost(init, a.at);
        var r := st'.records[0];
        assert st'.records == [r] + mid.records;
        ReversePrepend(r, mid.records);
        assert forall i :: 0 <= i < |before| ==> before[i].timestamp <= r.timestamp by {
          assert forall i :: 0 <= i < |before| ==> before[i] in mid.records;
        }
        ChronologicalAppend(before, r);
      } else if a.Sync? {
        ReverseSync(mid.records);
        SyncKeepsChronological(before);
      } else {
        assert st'.records == mid.records;
      }
    }
  }

  /** The corrected blackboard agrees with the counter: from the initial
      state, with a monotone clock and every add and remove made within the
      last thirty days, it shows exactly `totalStars` stars. */
  lemma {:induction false} BlackboardMatchesCount(actions: seq<Action>, now: int)
    requires ClockMonotone(actions)
    requires forall a :: a in actions && IsStarAction(a) ==> now - WindowMs <= a.at
    ensures |ActiveStars(Run(Initial, actions).records, now)| == Run(Initial, actions).totalStars
  {
    var records := Run(Initial, actions).records;
    StampsAtLeast(actions, now - WindowMs);
    FilterAllMatch(records, Since(now - WindowMs));
    LogChronological(actions);
    SortChronological(Reverse(records));
    ReplayTracksTotal(actions);
  }

  /** Two records with the same timestamp are already sorted, in either order. */
  lemma {:induction false} SortTie(a: StarRecord, b: StarRecord)
    requires a.timestamp == b.timestamp
    ensures SortByTimestamp([a, b]) == [a, b]
  {
    assert [a, b][..1] == [a];
    assert [a][..0] == [];
    assert SortByTimestamp([a]) == [a];
  }

  /** A remove replayed before its add is ignored; replayed after it, it pops the add. */
  lemma {:induction false} ReplayPair(add: StarRecord, remove: StarRecord)
    requires add.kind == Add && remove.kind == Remove
    ensures Replay([remove, add]) == [add]
    ensures Replay([add, remove]) == []
  {
    assert [remove, add][..1] == [remove];
    assert [add, remove][..1] == [add];
    assert [remove][..0] == [] && [add][..0] == [];
    assert Replay([remove]) == [];
    assert Replay([add]) == [add];
  }

  /** The log after an add and then a remove, both at time 5. */
  lemma {:induction false} TiedRun(add: StarRecord, remove: StarRecord)
    requires add == StarRecord("1", Add, "a", 5, Home, true, None)
    requires remove == StarRecord("2", Remove, "b", 5, Home, true, None)
    ensures Run(Initial, [AddStar("a", "1", 5), RemoveStar("b", "2", 5)]) == AppState(0, Home, [remove, add], None)
  {
    var actions := [AddStar("a", "1", 5), RemoveStar("b", "2", 5)];
    assert actions[..1][..0] == [];
    assert Run(Initial, actions[..1]) == AppState(1, Home, [add], None);
  }

  /** The code as written: an add and then a remove stamped with the same
      millisecond leave the counter at zero, but the window, newest first, is
      left in that order by the stable sort, so the remove is replayed on an
      empty stack and the add stays on the blackboard. */
  lemma {:induction false} TiedAddRemoveShowsStar()
    ensures var st := Run(Initial, [AddStar("a", "1", 5), RemoveStar("b", "2", 5)]);
      st.totalStars == 0 &&
      |ActiveStarsAsWritten(st.records, 5)| == 1 &&
      |ActiveStars(st.records, 5)| == 0
  {
    var add := StarRecord("1", Add, "a", 5, Home, true, None);
    var remove := StarRecord("2", Remove, "b", 5, Home, true, None);
    TiedRun(add, remove);
    FilterAllMatch([remove, add], Since(5 - WindowMs));
    assert Reverse([remove, add]) == [add, remove];
    SortTie(remove, add);
    SortTie(add, remove);
    ReplayPair(add, remove);
  }
}
