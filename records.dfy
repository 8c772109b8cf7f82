/** The star record, the filters every view applies to the record log, and the
    blackboard-sync marking of a single record. */
module Records {

  datatype Option<+T> = None | Some(value: T)

  /** The `type` field of a record: 'add' or 'remove'. */
  datatype Kind = Add | Remove

  /** 'home' or 'away'. */
  datatype Mode = Home | Away

  /** One entry of the log. `deleteReason` is absent on add records and null on
      home removals; both are `None` here. */
  datatype StarRecord = StarRecord(
    id: string,
    kind: Kind,
    reason: string,
    timestamp: int,
    mode: Mode,
    synced: bool,
    deleteReason: Option<string>)

  /** Thirty days in milliseconds: the window of the blackboard and of the snapshot statistics. */
  const WindowMs: int := 30 * 24 * 60 * 60 * 1000

  /** A record earned or lost away from home and not yet copied onto the blackboard. */
  predicate IsPendingAway(r: StarRecord) {
    r.mode == Away && !r.synced
  }

  /** The record tests the app filters the log by. */
  datatype Criterion =
    | OfKind(kind: Kind)
    | InMode(mode: Mode)
    | PendingAway
    | Since(cutoff: int)
    | StampedAt(at: int)

  predicate Matches(c: Criterion, r: StarRecord) {
    match c
    case OfKind(k) => r.kind == k
    case InMode(m) => r.mode == m
    case PendingAway => IsPendingAway(r)
    case Since(cutoff) => r.timestamp >= cutoff
    case StampedAt(t) => r.timestamp == t
  }

  /** `a` is `b` with some elements deleted, the rest kept in order. */
  ghost predicate IsSubseq<T>(a: seq<T>, b: seq<T>)
    decreases |b|
  {
    a == [] ||
    (b != [] &&
      (IsSubseq(a, b[..|b| - 1]) ||
       (a[|a| - 1] == b[|b| - 1] && IsSubseq(a[..|a| - 1], b[..|b| - 1]))))
  }

  lemma {:induction false} SubseqDropLast<T>(a: seq<T>, b: seq<T>)
    requires IsSubseq(a, b) && a != []
    ensures IsSubseq(a[..|a| - 1], b)
    decreases |b|
  {
    var a' := a[..|a| - 1];
    if a' != [] {
      if IsSubseq(a, b[..|b| - 1]) {
        SubseqDropLast(a, b[..|b| - 1]);
      } else {
        SubseqDropLast(a', b[..|b| - 1]);
        assert a'[..|a'| - 1] == a[..|a| - 2];
      }
    }
  }

  lemma {:induction false} SubseqRefl<T>(s: seq<T>)
    ensures IsSubseq(s, s)
    decreases |s|
  {
    if s != [] {
      SubseqRefl(s[..|s| - 1]);
    }
  }

  /** `Array.prototype.filter` with the test `c`, over the log from its first record to its last. */
  function Filter(s: seq<StarRecord>, c: Criterion): (r: seq<StarRecord>)
    ensures |r| <= |s|
  {
    if s == [] then []
    else if Matches(c, s[|s| - 1]) then Filter(s[..|s| - 1], c) + [s[|s| - 1]]
    else Filter(s[..|s| - 1], c)
  }

  /** The filter keeps exactly the matching records, in log order. */
  lemma {:induction false} FilterMembers(s: seq<StarRecord>, c: Criterion)
    ensures forall x :: x in Filter(s, c) <==> x in s && Matches(c, x)
    ensures IsSubseq(Filter(s, c), s)
    decreases |s|
  {
    if s != [] {
      var last := s[|s| - 1];
      var kept := Filter(s[..|s| - 1], c);
      FilterMembers(s[..|s| - 1], c);
      assert s == s[..|s| - 1] + [last];
      if Matches(c, last) {
        assert (kept + [last])[..|kept|] == kept;
      }
    }
  }

  lemma {:induction false} FilterAppend(a: seq<StarRecord>, b: seq<StarRecord>, c: Criterion)
    ensures Filter(a + b, c) == Filter(a, c) + Filter(b, c)
    decreases |b|
  {
    if b != [] {
      var b' := b[..|b| - 1];
      assert (a + b)[..|a + b| - 1] == a + b';
      FilterAppend(a, b', c);
    } else {
      assert a + b == a;
    }
  }

  /** Filtering a log with one record put at its head. */
  lemma {:induction false} FilterPrepend(r: StarRecord, s: seq<StarRecord>, c: Criterion)
    ensures Filter([r] + s, c) == (if Matches(c, r) then [r] else []) + Filter(s, c)
  {
    FilterAppend([r], s, c);
    assert [r][..0] == [];
  }

  /** When every record matches, filtering keeps the whole log. */
  lemma {:induction false} FilterAllMatch(s: seq<StarRecord>, c: Criterion)
    requires forall x :: x in s ==> Matches(c, x)
    ensures Filter(s, c) == s
    decreases |s|
  {
    if s != [] {
      var s', last := s[..|s| - 1], s[|s| - 1];
      assert Matches(c, last) by {
        assert last in s;
      }
      forall x | x in s' ensures Matches(c, x) {
        var i :| 0 <= i < |s'| && s'[i] == x;
        assert s[i] == x;
      }
      FilterAllMatch(s', c);
      assert s == s' + [last];
    }
  }

  /** Every record is either an add or a remove, so the two kind filters split the log. */
  lemma {:induction false} KindSplit(s: seq<StarRecord>)
    ensures |Filter(s, OfKind(Add))| + |Filter(s, OfKind(Remove))| == |s|
    decreases |s|
  {
    if s != [] {
      KindSplit(s[..|s| - 1]);
    }
  }

  /** Taking one record out of the log lowers a count by one exactly when that record matches. */
  lemma {:induction false} FilterCountRemoveAt(b: seq<StarRecord>, k: nat, c: Criterion)
    requires k < |b|
    ensures |Filter(b, c)| == |Filter(b[..k] + b[k + 1..], c)| + (if Matches(c, b[k]) then 1 else 0)
  {
    var b1, b2 := b[..k], b[k + 1..];
    assert b == (b1 + [b[k]]) + b2;
    FilterAppend(b1 + [b[k]], b2, c);
    FilterAppend(b1, [b[k]], c);
    FilterAppend(b1, b2, c);
    assert [b[k]][..0] == [];
  }

  lemma {:induction false} MultisetRemoveAt(a: seq<StarRecord>, b: seq<StarRecord>, k: nat)
    requires multiset(a) == multiset(b) && a != [] && k < |b| && b[k] == a[|a| - 1]
    ensures multiset(a[..|a| - 1]) == multiset(b[..k] + b[k + 1..])
  {
    var x := a[|a| - 1];
    assert a == a[..|a| - 1] + [x];
    assert b == b[..k] + [x] + b[k + 1..];
    assert multiset(b[..k] + b[k + 1..]) == multiset(b[..k]) + multiset(b[k + 1..]);
    calc {
      multiset(a[..|a| - 1]);
      multiset(a) - multiset{x};
      multiset(b) - multiset{x};
      multiset(b[..k]) + multiset(b[k + 1..]);
    }
  }

  /** Counts taken by `Filter` depend only on which records are present, not on their order. */
  lemma {:induction false} FilterCountPermutation(a: seq<StarRecord>, b: seq<StarRecord>, c: Criterion)
    requires multiset(a) == multiset(b)
    ensures |Filter(a, c)| == |Filter(b, c)|
    decreases |a|
  {
    if a == [] {
      assert |b| == |multiset(b)| == 0;
    } else {
      var x := a[|a| - 1];
      assert x in multiset(b) by {
        assert a == a[..|a| - 1] + [x];
      }
      var k :| 0 <= k < |b| && b[k] == x;
      MultisetRemoveAt(a, b, k);
      FilterCountPermutation(a[..|a| - 1], b[..k] + b[k + 1..], c);
      FilterCountRemoveAt(b, k, c);
      FilterCountRemoveAt(a, |a| - 1, c);
      assert a[..|a| - 1] + a[|a|..] == a[..|a| - 1];
    }
  }

  /** The records of the last thirty days before `now` (`r.timestamp >= thirtyDaysAgo`). */
  function Window(s: seq<StarRecord>, now: int): (recent: seq<StarRecord>)
    ensures |recent| <= |s|
  {
    Filter(s, Since(now - WindowMs))
  }

  /** The window holds exactly the records stamped no earlier than thirty days before `now`, in log order. */
  lemma {:induction false} WindowMembers(s: seq<StarRecord>, now: int)
    ensures forall x :: x in Window(s, now) <==> x in s && x.timestamp >= now - WindowMs
    ensures IsSubseq(Window(s, now), s)
  {
    FilterMembers(s, Since(now - WindowMs));
  }

  // ---------------------------------------------------------------- sync

  /** What syncing to the blackboard does to one record: a pending away record
      becomes synced, any other record is left as it is. */
  function SyncOne(r: StarRecord): (r': StarRecord)
    ensures r'.synced == (r.synced || r.mode == Away)
  {
    if r.mode == Away && !r.synced then r.(synced := true) else r
  }

  /** The log after syncing: every record passed through `SyncOne`, same length, same order. */
  function SyncAll(s: seq<StarRecord>): (r: seq<StarRecord>)
    ensures |r| == |s|
    ensures forall k :: 0 <= k < |s| ==> r[k] == SyncOne(s[k])
  {
    if s == [] then [] else SyncAll(s[..|s| - 1]) + [SyncOne(s[|s| - 1])]
  }

  lemma {:induction false} SyncAllAppend(a: seq<StarRecord>, b: seq<StarRecord>)
    ensures SyncAll(a + b) == SyncAll(a) + SyncAll(b)
  {
  }

  /** Syncing commutes with cutting the log in two. */
  lemma {:induction false} SyncAllSlice(s: seq<StarRecord>, k: nat)
    requires k <= |s|
    ensures SyncAll(s)[..k] == SyncAll(s[..k])
    ensures SyncAll(s)[k..] == SyncAll(s[k..])
  {
    var r, front, back := SyncAll(s), SyncAll(s[..k]), SyncAll(s[k..]);
    assert r[..k] == front by {
      assert forall i :: 0 <= i < k ==> front[i] == SyncOne(s[i]);
    }
    assert r[k..] == back by {
      forall i | 0 <= i < |s| - k ensures back[i] == r[k + i] {
        assert s[k..][i] == s[k + i];
      }
    }
  }

  /** No record of a synced log is pending. */
  lemma {:induction false} SyncAllNotPending(s: seq<StarRecord>)
    ensures forall x :: x in SyncAll(s) ==> !IsPendingAway(x)
  {
    var r := SyncAll(s);
    forall x | x in r ensures !IsPendingAway(x) {
      var k :| 0 <= k < |r| && r[k] == x;
      assert x == SyncOne(s[k]);
    }
  }

  /** Syncing twice is syncing once. */
  lemma {:induction false} SyncIdempotent(s: seq<StarRecord>)
    ensures SyncAll(SyncAll(s)) == SyncAll(s)
  {
  }

  /** After syncing no record is pending, and every kind and mode count is what it was. */
  lemma {:induction false} SyncFilter(s: seq<StarRecord>, c: Criterion)
    ensures c.PendingAway? ==> Filter(SyncAll(s), c) == []
    ensures !c.PendingAway? ==> Filter(SyncAll(s), c) == SyncAll(Filter(s, c))
    decreases |s|
  {
    if s != [] {
      var s' := s[..|s| - 1];
      SyncFilter(s', c);
      assert SyncAll(s)[..|s| - 1] == SyncAll(s');
      if !c.PendingAway? {
        var last := s[|s| - 1];
        SyncAllAppend(Filter(s', c), if Matches(c, last) then [last] else []);
      }
    }
  }
}
