/** Which records the star blackboard shows: the thirty-day window, ordered
    oldest first, replayed through a stack where an add pushes its record and a
    remove pops the newest star (and is ignored when there is none). */
module Blackboard {
  import opened Records

  /** Timestamps never decrease from left to right (oldest first). */
  predicate Chronological(s: seq<StarRecord>) {
    forall i, j :: 0 <= i < j < |s| ==> s[i].timestamp <= s[j].timestamp
  }

  /** A record no earlier than every record of an oldest-first list may go at its end. */
  lemma {:induction false} ChronologicalAppend(s: seq<StarRecord>, r: StarRecord)
    requires Chronological(s)
    requires forall i :: 0 <= i < |s| ==> s[i].timestamp <= r.timestamp
    ensures Chronological(s + [r])
  {
    var t := s + [r];
    forall i, j | 0 <= i < j < |t| ensures t[i].timestamp <= t[j].timestamp {
      if j < |s| {
        assert t[i] == s[i] && t[j] == s[j];
      } else {
        assert t[i] == s[i] && t[j] == r;
      }
    }
  }

  lemma {:induction false} ChronologicalPrefix(s: seq<StarRecord>)
    requires Chronological(s) && s != []
    ensures Chronological(s[..|s| - 1])
    ensures forall i :: 0 <= i < |s| - 1 ==> s[i].timestamp <= s[|s| - 1].timestamp
  {
    var init := s[..|s| - 1];
    forall i, j | 0 <= i < j < |init| ensures init[i].timestamp <= init[j].timestamp {
      assert init[i] == s[i] && init[j] == s[j];
    }
  }

  /** One step of a stable insertion sort: `x` goes after the longest tail of
      `sorted` stamped later than it, so after every record of `sorted` whose
      timestamp is not later than its own. */
  function Insert(sorted: seq<StarRecord>, x: StarRecord): (r: seq<StarRecord>)
    ensures |r| == |sorted| + 1
  {
    if sorted == [] || sorted[|sorted| - 1].timestamp <= x.timestamp then
      sorted + [x]
    else
      Insert(sorted[..|sorted| - 1], x) + [sorted[|sorted| - 1]]
  }

  /** Inserting into a list of records no later than `hi` a record no later than `hi`. */
  lemma {:induction false} InsertBounded(sorted: seq<StarRecord>, x: StarRecord, hi: int)
    requires forall i :: 0 <= i < |sorted| ==> sorted[i].timestamp <= hi
    requires x.timestamp <= hi
    ensures forall i :: 0 <= i < |sorted| + 1 ==> Insert(sorted, x)[i].timestamp <= hi
    decreases |sorted|
  {
    if sorted != [] && sorted[|sorted| - 1].timestamp > x.timestamp {
      var init := sorted[..|sorted| - 1];
      assert forall i :: 0 <= i < |init| ==> init[i] == sorted[i];
      InsertBounded(init, x, hi);
    }
  }

  /** Insertion keeps a list oldest first. */
  lemma {:induction false} InsertChronological(sorted: seq<StarRecord>, x: StarRecord)
    requires Chronological(sorted)
    ensures Chronological(Insert(sorted, x))
    decreases |sorted|
  {
    if sorted == [] || sorted[|sorted| - 1].timestamp <= x.timestamp {
      if sorted != [] {
        ChronologicalPrefix(sorted);
      }
      ChronologicalAppend(sorted, x);
    } else {
      var init, last := sorted[..|sorted| - 1], sorted[|sorted| - 1];
      ChronologicalPrefix(sorted);
      InsertChronological(init, x);
      InsertBounded(init, x, last.timestamp);
      ChronologicalAppend(Insert(init, x), last);
    }
  }

  lemma {:induction false} InsertAtEnd(sorted: seq<StarRecord>, x: StarRecord)
    requires forall i :: 0 <= i < |sorted| ==> sorted[i].timestamp <= x.timestamp
    ensures Insert(sorted, x) == sorted + [x]
  {
    if sorted != [] {
      assert sorted[|sorted| - 1].timestamp <= x.timestamp;
    }
  }

  lemma {:induction false} InsertPermutes(sorted: seq<StarRecord>, x: StarRecord)
    ensures multiset(Insert(sorted, x)) == multiset(sorted) + multiset{x}
    decreases |sorted|
  {
    if sorted != [] && sorted[|sorted| - 1].timestamp > x.timestamp {
      var init, last := sorted[..|sorted| - 1], sorted[|sorted| - 1];
      InsertPermutes(init, x);
      assert sorted == init + [last];
    }
  }

  /** The comparator sort `(a, b) => a.timestamp - b.timestamp` of a stable
      `Array.prototype.sort`, as an insertion sort from the first record to
      the last. */
  function SortByTimestamp(s: seq<StarRecord>): (r: seq<StarRecord>)
    ensures |r| == |s|
  {
    if s == [] then [] else Insert(SortByTimestamp(s[..|s| - 1]), s[|s| - 1])
  }

  /** The sort puts the records oldest first and neither adds nor drops one. */
  lemma {:induction false} SortProperties(s: seq<StarRecord>)
    ensures Chronological(SortByTimestamp(s))
    ensures multiset(SortByTimestamp(s)) == multiset(s)
    decreases |s|
  {
    if s != [] {
      var init := s[..|s| - 1];
      SortProperties(init);
      InsertChronological(SortByTimestamp(init), s[|s| - 1]);
      InsertPermutes(SortByTimestamp(init), s[|s| - 1]);
      assert s == init + [s[|s| - 1]];
    }
  }

  lemma {:induction false} InsertKeepsTies(sorted: seq<StarRecord>, x: StarRecord, t: int)
    ensures Filter(Insert(sorted, x), StampedAt(t))
         == Filter(sorted, StampedAt(t)) + (if x.timestamp == t then [x] else [])
    decreases |sorted|
  {
    if sorted == [] || sorted[|sorted| - 1].timestamp <= x.timestamp {
      assert (sorted + [x])[..|sorted|] == sorted;
    } else {
      var init, last := sorted[..|sorted| - 1], sorted[|sorted| - 1];
      InsertKeepsTies(init, x, t);
      var r := Insert(init, x);
      assert (r + [last])[..|r|] == r;
    }
  }

  /** Stability: the records stamped with any one time come out in the order
      they went in. With `SortProperties` this pins the result down uniquely. */
  lemma {:induction false} SortKeepsTies(s: seq<StarRecord>, t: int)
    ensures Filter(SortByTimestamp(s), StampedAt(t)) == Filter(s, StampedAt(t))
    decreases |s|
  {
    if s != [] {
      SortKeepsTies(s[..|s| - 1], t);
      InsertKeepsTies(SortByTimestamp(s[..|s| - 1]), s[|s| - 1], t);
    }
  }

  /** Sorting a log that is already oldest first leaves it as it is. */
  lemma {:induction false} SortChronological(s: seq<StarRecord>)
    requires Chronological(s)
    ensures SortByTimestamp(s) == s
    decreases |s|
  {
    if s != [] {
      var init, last := s[..|s| - 1], s[|s| - 1];
      ChronologicalPrefix(s);
      SortChronological(init);
      InsertAtEnd(init, last);
      assert s == init + [last];
    }
  }

  function Reverse(s: seq<StarRecord>): (r: seq<StarRecord>)
    ensures |r| == |s|
    ensures forall i :: 0 <= i < |s| ==> r[i] == s[|s| - 1 - i]
  {
    if s == [] then [] else [s[|s| - 1]] + Reverse(s[..|s| - 1])
  }

  // ---------------------------------------------------------------- replay

  /** The stack after one record: an add pushes it, a remove pops the top star
      if there is one. */
  function ReplayStep(stack: seq<StarRecord>, r: StarRecord): seq<StarRecord> {
    if r.kind == Add then stack + [r]
    else if |stack| > 0 then stack[..|stack| - 1]
    else stack
  }

  /** The stack after replaying `s` from the first record to the last, starting empty. */
  function Replay(s: seq<StarRecord>): (stack: seq<StarRecord>)
    ensures |stack| <= |s|
  {
    if s == [] then [] else ReplayStep(Replay(s[..|s| - 1]), s[|s| - 1])
  }

  /** The stars left after a replay are add records taken from `s` in order;
      there are no more of them than adds, and no fewer than adds minus
      removes, since a remove finding the stack empty is ignored. */
  lemma {:induction false} ReplayBounds(s: seq<StarRecord>)
    ensures forall x :: x in Replay(s) ==> x.kind == Add
    ensures IsSubseq(Replay(s), s)
    ensures |Replay(s)| <= |Filter(s, OfKind(Add))|
    ensures |Replay(s)| >= |Filter(s, OfKind(Add))| - |Filter(s, OfKind(Remove))|
  {
    ReplaySubseq(s);
    ReplayCount(s);
  }

  lemma {:induction false} ReplaySubseq(s: seq<StarRecord>)
    ensures forall x :: x in Replay(s) ==> x.kind == Add
    ensures IsSubseq(Replay(s), s)
    decreases |s|
  {
    if s != [] {
      var init, r := s[..|s| - 1], s[|s| - 1];
      ReplaySubseq(init);
      var stack := Replay(init);
      if r.kind == Add {
        assert (stack + [r])[..|stack|] == stack;
      } else if |stack| > 0 {
        SubseqDropLast(stack, init);
        assert forall x :: x in stack[..|stack| - 1] ==> x in stack;
        assert IsSubseq(stack[..|stack| - 1], init);
      }
    }
  }

  lemma {:induction false} ReplayCount(s: seq<StarRecord>)
    ensures |Replay(s)| <= |Filter(s, OfKind(Add))|
    ensures |Replay(s)| >= |Filter(s, OfKind(Add))| - |Filter(s, OfKind(Remove))|
    decreases |s|
  {
    if s != [] {
      ReplayCount(s[..|s| - 1]);
    }
  }

  /** The replay loop of `renderStarsGrid`: `starStack` built with push and pop
      over the timestamp-sorted window. */
  method ReplayStack(sorted: seq<StarRecord>) returns (stack: seq<StarRecord>)
    ensures stack == Replay(sorted)
    ensures forall x :: x in stack ==> x in sorted && x.kind == Add
    ensures |Filter(sorted, OfKind(Add))| - |Filter(sorted, OfKind(Remove))| <= |stack|
    ensures |stack| <= |Filter(sorted, OfKind(Add))|
  {
    stack := [];
    var i := 0;
    while i < |sorted|
      invariant 0 <= i <= |sorted|
      invariant stack == Replay(sorted[..i])
    {
      var record := sorted[i];
      assert sorted[..i + 1][..i] == sorted[..i];
      if record.kind == Add {
        stack := stack + [record];
      } else if |stack| > 0 {
        stack := stack[..|stack| - 1];
      }
      i := i + 1;
    }
    assert sorted[..i] == sorted;
    ReplayBounds(sorted);
    forall x | x in stack ensures x in sorted {
      SubseqMembers(stack, sorted, x);
    }
  }

  lemma {:induction false} SubseqMembers<T>(a: seq<T>, b: seq<T>, x: T)
    requires IsSubseq(a, b) && x in a
    ensures x in b
    decreases |b|
  {
    if IsSubseq(a, b[..|b| - 1]) {
      SubseqMembers(a, b[..|b| - 1], x);
    } else if x != a[|a| - 1] {
      assert a == a[..|a| - 1] + [a[|a| - 1]];
      SubseqMembers(a[..|a| - 1], b[..|b| - 1], x);
    }
  }

  // ---------------------------------------------------------------- the blackboard

  /** The stars drawn by `renderStarsGrid` at time `now`, as the code orders
      them: the window is newest first, so the stable sort leaves records with
      equal timestamps newest first. */
  function ActiveStarsAsWritten(records: seq<StarRecord>, now: int): (stars: seq<StarRecord>)
    ensures |stars| <= |Window(records, now)|
  {
    Replay(SortByTimestamp(Window(records, now)))
  }

  /** The corrected blackboard: the window turned oldest first before the
      stable sort, so that ties in timestamp replay in the order the records
      were made. */
  function ActiveStars(records: seq<StarRecord>, now: int): seq<StarRecord> {
    Replay(SortByTimestamp(Reverse(Window(records, now))))
  }

  lemma {:induction false} ReverseMultiset(s: seq<StarRecord>)
    ensures multiset(Reverse(s)) == multiset(s)
    decreases |s|
  {
    if s != [] {
      var init := s[..|s| - 1];
      ReverseMultiset(init);
      assert s == init + [s[|s| - 1]];
      assert Reverse(s) == [s[|s| - 1]] + Reverse(init);
    }
  }

  /** Replaying any reordering of the window: every star is an add record of
      the window, and there are between adds minus removes and adds of them. */
  lemma {:induction false} WindowReplayBounds(records: seq<StarRecord>, now: int, sorted: seq<StarRecord>)
    requires multiset(sorted) == multiset(Window(records, now))
    ensures forall x :: x in Replay(sorted) ==>
      x in records && x.kind == Add && x.timestamp >= now - WindowMs
    ensures |Replay(sorted)| <= |Filter(Window(records, now), OfKind(Add))|
    ensures |Replay(sorted)|
         >= |Filter(Window(records, now), OfKind(Add))| - |Filter(Window(records, now), OfKind(Remove))|
  {
    var w := Window(records, now);
    ReplayBounds(sorted);
    FilterCountPermutation(sorted, w, OfKind(Add));
    FilterCountPermutation(sorted, w, OfKind(Remove));
    FilterMembers(records, Since(now - WindowMs));
    forall x | x in Replay(sorted)
      ensures x in records && x.timestamp >= now - WindowMs
    {
      SubseqMembers(Replay(sorted), sorted, x);
      assert x in multiset(sorted);
      assert x in w;
    }
  }

  /** Every star on the blackboard is an add record of the last thirty days;
      there are at most as many stars as adds in the window, and at least adds
      minus removes. */
  lemma {:induction false} ActiveStarsBounds(records: seq<StarRecord>, now: int)
    ensures forall x :: x in ActiveStars(records, now) ==>
      x in records && x.kind == Add && x.timestamp >= now - WindowMs
    ensures |ActiveStars(records, now)| <= |Filter(Window(records, now), OfKind(Add))|
    ensures |ActiveStars(records, now)|
         >= |Filter(Window(records, now), OfKind(Add))| - |Filter(Window(records, now), OfKind(Remove))|
  {
    var w := Window(records, now);
    ReverseMultiset(w);
    SortProperties(Reverse(w));
    WindowReplayBounds(records, now, SortByTimestamp(Reverse(w)));
  }

  // ---------------------------------------------------------------- sync leaves the blackboard alone

  lemma {:induction false} SyncKeepsChronological(s: seq<StarRecord>)
    requires Chronological(s)
    ensures Chronological(SyncAll(s))
  {
  }

  lemma {:induction false} InsertSync(sorted: seq<StarRecord>, x: StarRecord)
    ensures Insert(SyncAll(sorted), SyncOne(x)) == SyncAll(Insert(sorted, x))
    decreases |sorted|
  {
    var synced := SyncAll(sorted);
    if sorted != [] && sorted[|sorted| - 1].timestamp > x.timestamp {
      var init, last := sorted[..|sorted| - 1], sorted[|sorted| - 1];
      InsertSync(init, x);
      SyncAllSlice(sorted, |sorted| - 1);
      assert synced[|sorted| - 1] == SyncOne(last);
      assert Insert(synced, SyncOne(x)) == Insert(SyncAll(init), SyncOne(x)) + [SyncOne(last)];
      SyncAllAppend(Insert(init, x), [last]);
    } else {
      SyncAllAppend(sorted, [x]);
    }
  }

  lemma {:induction false} SortSync(s: seq<StarRecord>)
    ensures SortByTimestamp(SyncAll(s)) == SyncAll(SortByTimestamp(s))
    decreases |s|
  {
    if s != [] {
      var init := s[..|s| - 1];
      SortSync(init);
      assert SyncAll(s)[..|s| - 1] == SyncAll(init);
      InsertSync(SortByTimestamp(init), s[|s| - 1]);
    }
  }

  lemma {:induction false} ReverseSync(s: seq<StarRecord>)
    ensures Reverse(SyncAll(s)) == SyncAll(Reverse(s))
  {
  }

  lemma {:induction false} ReplaySync(s: seq<StarRecord>)
    ensures Replay(SyncAll(s)) == SyncAll(Replay(s))
    decreases |s|
  {
    if s != [] {
      var init, r := s[..|s| - 1], s[|s| - 1];
      ReplaySync(init);
      assert SyncAll(s)[..|s| - 1] == SyncAll(init);
      var stack := Replay(init);
      if r.kind == Add {
        SyncAllAppend(stack, [r]);
      } else if |stack| > 0 {
        assert SyncAll(stack)[..|stack| - 1] == SyncAll(stack[..|stack| - 1]);
      }
    }
  }

  /** Syncing is a visibility marker, not a change of count: after it both
      the blackboard as written and the corrected one show the same records in
      the same order, only marked synced, and none of them is drawn as a
      pending away star. */
  lemma {:induction false} SyncKeepsBlackboard(records: seq<StarRecord>, now: int)
    ensures ActiveStarsAsWritten(SyncAll(records), now) == SyncAll(ActiveStarsAsWritten(records, now))
    ensures ActiveStars(SyncAll(records), now) == SyncAll(ActiveStars(records, now))
    ensures forall x :: x in ActiveStars(SyncAll(records), now) ==> !IsPendingAway(x)
  {
    var w := Window(records, now);
    var sorted := SortByTimestamp(Reverse(w));
    assert Window(SyncAll(records), now) == SyncAll(w) by {
      SyncFilter(records, Since(now - WindowMs));
    }
    assert ActiveStarsAsWritten(SyncAll(records), now) == SyncAll(ActiveStarsAsWritten(records, now)) by {
      SortSync(w);
      ReplaySync(SortByTimestamp(w));
    }
    assert SortByTimestamp(Reverse(SyncAll(w))) == SyncAll(sorted) by {
      ReverseSync(w);
      SortSync(Reverse(w));
    }
    ReplaySync(sorted);
    SyncAllNotPending(Replay(sorted));
  }
}
