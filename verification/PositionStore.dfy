/**
 The persistent store of the offline position queue, one specification function per
 IndexedDB transaction. The class OfflineQueue runs the same operations step by step and is
 proved against these functions; the interleaved protocol in QueueProtocol is built on them.
 */
module PositionStore {
  import opened Wrappers
  import Counting

  const QUEUE_MAX_SIZE: nat := 10000
  const QUEUE_WARN_SIZE: nat := QUEUE_MAX_SIZE * 8 / 10
  const COMPACT_HORIZON_MS: int := 5 * 60 * 1000
  const COMPACT_BUCKET_MS: int := 45 * 1000

  // A timestamp field as the compaction reads it: absent (the queueing time stands in),
  // present but not a date, or a number of milliseconds.
  datatype Stamp = Missing | Unreadable | At(ms: int)

  datatype Position = Position(payload: int, timestamp: Stamp)

  datatype Entry = Entry(id: nat, pos: Position, queuedAt: int, compressed: bool)

  /** The time the compaction sorts an entry by, if it has one. */
  function Millis(e: Entry): Option<int> {
    match e.pos.timestamp
    case Missing => Some(e.queuedAt)
    case Unreadable => None
    case At(ms) => Some(ms)
  }

  predicate Dated(e: Entry) {
    Millis(e).Some? && Millis(e).value > 0
  }

  /** The start of the 45 s slice an entry falls in. */
  function Bucket(e: Entry): int
    requires Dated(e)
  {
    Millis(e).value / COMPACT_BUCKET_MS * COMPACT_BUCKET_MS
  }

  predicate Old(e: Entry, cutoff: int) {
    Dated(e) && Millis(e).value < cutoff
  }

  predicate OldIn(e: Entry, cutoff: int, bucket: int) {
    Old(e, cutoff) && Bucket(e) == bucket
  }

  predicate BucketSeen(s: seq<Entry>, cutoff: int, bucket: int) {
    exists i :: 0 <= i < |s| && OldIn(s[i], cutoff, bucket)
  }

  /** Two stored forms of the same fix: compaction may only have set the mark. */
  predicate SameFix(e: Entry, f: Entry) {
    e.id == f.id && e.pos == f.pos && e.queuedAt == f.queuedAt
  }

  /** e keeps the track of f: it is f itself, or it lies in the same 45 s slice. */
  predicate Covers(e: Entry, f: Entry) {
    SameFix(e, f) || (Dated(e) && Dated(f) && Bucket(e) == Bucket(f))
  }

  predicate Ordered(s: seq<Entry>) {
    forall i, j :: 0 <= i < j < |s| ==> s[i].id < s[j].id
  }

  predicate Stored(s: seq<Entry>, id: nat) {
    exists i :: 0 <= i < |s| && s[i].id == id
  }

  function Ids(s: seq<Entry>): set<nat> {
    set i | 0 <= i < |s| :: s[i].id
  }

  /** The store after deleting the given ids. */
  function Without(s: seq<Entry>, ids: set<nat>): (r: seq<Entry>)
    ensures |r| <= |s|
  {
    if s == [] then []
    else
      var last := s[|s| - 1];
      Without(s[..|s| - 1], ids) + if last.id in ids then [] else [last]
  }

  /**
   The store after compaction: recent and undated entries stay, and of the old entries of one
   bucket only the first stays, marked.
   */
  function Compact(s: seq<Entry>, cutoff: int): (r: seq<Entry>)
    ensures |r| <= |s|
  {
    if s == [] then []
    else
      var before := s[..|s| - 1];
      var last := s[|s| - 1];
      Compact(before, cutoff) +
      if !Old(last, cutoff) then [last]
      else if BucketSeen(before, cutoff, Bucket(last)) then []
      else [last.(compressed := true)]
  }

  /** The first entries of the store, at most `limit` of them; None reads everything. */
  function Take(s: seq<Entry>, limit: Option<int>): (r: seq<Entry>)
    ensures r <= s
    ensures limit.Some? ==> |r| == if limit.value <= 0 then 0 else if limit.value < |s| then limit.value else |s|
    ensures limit.None? ==> r == s
  {
    if limit.None? || limit.value >= |s| then s
    else if limit.value <= 0 then []
    else s[..limit.value]
  }

  // ---------------------------------------------------------------- deletion

  lemma {:induction false} WithoutMembers(s: seq<Entry>, ids: set<nat>)
    ensures forall e :: e in Without(s, ids) <==> e in s && e.id !in ids
  {
    if s != [] {
      WithoutMembers(s[..|s| - 1], ids);
      assert s == s[..|s| - 1] + [s[|s| - 1]];
    }
  }

  lemma {:induction false} WithoutOrdered(s: seq<Entry>, ids: set<nat>)
    requires Ordered(s)
    ensures Ordered(Without(s, ids))
  {
    if s != [] {
      WithoutOrdered(s[..|s| - 1], ids);
      WithoutMembers(s[..|s| - 1], ids);
    }
  }

  lemma {:induction false} WithoutTwice(s: seq<Entry>, a: set<nat>, b: set<nat>)
    ensures Without(Without(s, a), b) == Without(s, a + b)
  {
    if s != [] {
      var before, last := s[..|s| - 1], s[|s| - 1];
      WithoutTwice(before, a, b);
      if last.id !in a {
        assert (Without(before, a) + [last])[..|Without(before, a)|] == Without(before, a);
      } else {
        assert Without(s, a) == Without(before, a);
      }
    }
  }

  lemma {:induction false} WithoutAbsent(s: seq<Entry>, ids: set<nat>, id: nat)
    requires !Stored(s, id)
    ensures Without(s, ids + {id}) == Without(s, ids)
  {
    if s != [] {
      assert s[|s| - 1].id != id;
      assert !Stored(s[..|s| - 1], id);
      WithoutAbsent(s[..|s| - 1], ids, id);
    }
  }

  lemma {:induction false} WithoutNothing(s: seq<Entry>)
    ensures Without(s, {}) == s
  {
    if s != [] {
      WithoutNothing(s[..|s| - 1]);
    }
  }

  lemma {:induction false} WithoutAll(s: seq<Entry>, ids: set<nat>)
    requires forall i :: 0 <= i < |s| ==> s[i].id in ids
    ensures Without(s, ids) == []
  {
    if s != [] {
      WithoutAll(s[..|s| - 1], ids);
    }
  }

  /** Deleting the ids of a leading chunk leaves exactly the rest of the store. */
  lemma {:induction false} WithoutPrefix(s: seq<Entry>, n: nat)
    requires Ordered(s) && n <= |s|
    ensures Without(s, Ids(s[..n])) == s[n..]
  {
    if |s| == n {
      assert s[..n] == s;
      WithoutAll(s, Ids(s));
    } else {
      var before := s[..|s| - 1];
      assert before[..n] == s[..n];
      WithoutPrefix(before, n);
      assert s[n..] == before[n..] + [s[|s| - 1]];
    }
  }

  // -------------------------------------------------------------- compaction

  /** The entry at i is kept because it opens its bucket. */
  predicate OpensBucket(s: seq<Entry>, i: int, cutoff: int) {
    0 <= i < |s| && Old(s[i], cutoff) && !BucketSeen(s[..i], cutoff, Bucket(s[i]))
  }

  /** What compaction keeps, stated without recursion. */
  ghost predicate Survives(s: seq<Entry>, cutoff: int, e: Entry) {
    (e in s && !Old(e, cutoff)) ||
    exists i :: OpensBucket(s, i, cutoff) && e == s[i].(compressed := true)
  }

  lemma {:induction false} CompactMembers(s: seq<Entry>, cutoff: int)
    ensures forall e :: e in Compact(s, cutoff) <==> Survives(s, cutoff, e)
  {
    if s != [] {
      var before, last := s[..|s| - 1], s[|s| - 1];
      CompactMembers(before, cutoff);
      assert forall i :: 0 <= i < |before| ==> s[..i] == before[..i];
      assert s[..|s| - 1] == before;
      forall e ensures e in Compact(s, cutoff) <==> Survives(s, cutoff, e) {
        if Survives(before, cutoff, e) {
          if !(e in before && !Old(e, cutoff)) {
            var i :| OpensBucket(before, i, cutoff) && e == before[i].(compressed := true);
            assert OpensBucket(s, i, cutoff);
          }
          assert Survives(s, cutoff, e);
        }
        if Survives(s, cutoff, e) && !Survives(before, cutoff, e) {
          if !(e in s && !Old(e, cutoff)) {
            var i :| OpensBucket(s, i, cutoff) && e == s[i].(compressed := true);
            assert i < |before| ==> OpensBucket(before, i, cutoff);
            assert i == |before|;
          }
        }
        if e in Compact(s, cutoff) && e !in Compact(before, cutoff) {
          if Old(last, cutoff) {
            assert OpensBucket(s, |before|, cutoff);
          }
        }
      }
    }
  }

  /** Survivors are stored forms of entries that were there before. */
  lemma CompactOrigin(s: seq<Entry>, cutoff: int, e: Entry)
    requires e in Compact(s, cutoff)
    ensures exists i :: 0 <= i < |s| && SameFix(s[i], e)
  {
    CompactMembers(s, cutoff);
  }

  lemma {:induction false} CompactOrdered(s: seq<Entry>, cutoff: int)
    requires Ordered(s)
    ensures Ordered(Compact(s, cutoff))
  {
    if s != [] {
      var before, last := s[..|s| - 1], s[|s| - 1];
      CompactOrdered(before, cutoff);
      forall e | e in Compact(before, cutoff) ensures e.id < last.id {
        CompactOrigin(before, cutoff, e);
      }
    }
  }

  /** The mark changes neither the time of an entry nor its bucket. */
  lemma MarkKeepsTime(e: Entry)
    ensures var m := e.(compressed := true);
            && Millis(m) == Millis(e) && (Dated(m) <==> Dated(e)) && (Dated(e) ==> Bucket(m) == Bucket(e))
            && (forall cutoff :: Old(m, cutoff) <==> Old(e, cutoff))
  {
  }

  /** No old bucket disappears: at any later cutoff the same buckets are represented. */
  lemma {:induction false} CompactKeepsBuckets(s: seq<Entry>, cutoff: int, later: int, bucket: int)
    requires cutoff <= later
    ensures BucketSeen(Compact(s, cutoff), later, bucket) <==> BucketSeen(s, later, bucket)
  {
    if s != [] {
      var before, last := s[..|s| - 1], s[|s| - 1];
      MarkKeepsTime(last);
      hide Millis, Dated, Bucket;
      CompactKeepsBuckets(before, cutoff, later, bucket);
      BucketSeenSnoc(before, last, later, bucket);
      assert before + [last] == s;
      if !Old(last, cutoff) {
        BucketSeenSnoc(Compact(before, cutoff), last, later, bucket);
      } else if BucketSeen(before, cutoff, Bucket(last)) {
        if OldIn(last, later, bucket) {
          var i :| 0 <= i < |before| && OldIn(before[i], cutoff, Bucket(last));
          assert OldIn(before[i], later, bucket);
        }
        assert Compact(s, cutoff) == Compact(before, cutoff);
      } else {
        BucketSeenSnoc(Compact(before, cutoff), last.(compressed := true), later, bucket);
        assert OldIn(last, later, bucket) <==> OldIn(last.(compressed := true), later, bucket);
      }
    }
  }

  lemma BucketSeenSnoc(s: seq<Entry>, e: Entry, cutoff: int, bucket: int)
    ensures BucketSeen(s + [e], cutoff, bucket) <==> BucketSeen(s, cutoff, bucket) || OldIn(e, cutoff, bucket)
  {
    hide OldIn;
    if BucketSeen(s, cutoff, bucket) {
      var i :| 0 <= i < |s| && OldIn(s[i], cutoff, bucket);
      assert (s + [e])[i] == s[i];
    }
    if OldIn(e, cutoff, bucket) {
      assert (s + [e])[|s|] == e;
    }
    if BucketSeen(s + [e], cutoff, bucket) {
      var i :| 0 <= i < |s + [e]| && OldIn((s + [e])[i], cutoff, bucket);
      assert i < |s| ==> (s + [e])[i] == s[i];
    }
  }

  /** The documented promise: whatever compaction removes keeps a representative of its slice. */
  lemma CompactCovers(s: seq<Entry>, cutoff: int, e: Entry)
    requires e in s
    ensures exists f :: f in Compact(s, cutoff) && Covers(f, e)
  {
    CompactMembers(s, cutoff);
    if !Old(e, cutoff) {
      assert Survives(s, cutoff, e);
      assert Covers(e, e);
    } else {
      var k :| 0 <= k < |s| && s[k] == e;
      assert BucketSeen(s, cutoff, Bucket(e)) by { assert OldIn(s[k], cutoff, Bucket(e)); }
      CompactKeepsBuckets(s, cutoff, cutoff, Bucket(e));
      var c := Compact(s, cutoff);
      var i :| 0 <= i < |c| && OldIn(c[i], cutoff, Bucket(e));
      assert c[i] in c && Covers(c[i], e);
    }
  }

  /** A compacted segment: old entries are marked and in pairwise distinct buckets. */
  predicate Settled(s: seq<Entry>, cutoff: int) {
    (forall i :: 0 <= i < |s| && Old(s[i], cutoff) ==> s[i].compressed) && DistinctBuckets(s, cutoff)
  }

  predicate DistinctBuckets(s: seq<Entry>, cutoff: int) {
    forall i, j :: 0 <= i < j < |s| && Old(s[i], cutoff) && Old(s[j], cutoff) ==> Bucket(s[i]) != Bucket(s[j])
  }

  lemma {:induction false} CompactSettles(s: seq<Entry>, cutoff: int)
    ensures Settled(Compact(s, cutoff), cutoff)
  {
    if s != [] {
      var before, last := s[..|s| - 1], s[|s| - 1];
      MarkKeepsTime(last);
      hide Millis, Dated, Bucket;
      CompactSettles(before, cutoff);
      if Old(last, cutoff) && !BucketSeen(before, cutoff, Bucket(last)) {
        CompactKeepsBuckets(before, cutoff, cutoff, Bucket(last));
        var c := Compact(before, cutoff);
        forall i | 0 <= i < |c| && Old(c[i], cutoff) ensures Bucket(c[i]) != Bucket(last) {
          assert OldIn(c[i], cutoff, Bucket(c[i]));
        }
      }
    }
  }

  lemma NoEarlierInBucket(s: seq<Entry>, cutoff: int)
    requires s != [] && Old(s[|s| - 1], cutoff) && DistinctBuckets(s, cutoff)
    ensures !BucketSeen(s[..|s| - 1], cutoff, Bucket(s[|s| - 1]))
  {
    hide Millis, Bucket;
    var before := s[..|s| - 1];
    forall i | 0 <= i < |before| ensures !OldIn(before[i], cutoff, Bucket(s[|s| - 1])) {
      assert before[i] == s[i];
    }
  }

  lemma {:induction false} SettledIsFixed(s: seq<Entry>, cutoff: int)
    requires Settled(s, cutoff)
    ensures Compact(s, cutoff) == s
  {
    if s != [] {
      var before, last := s[..|s| - 1], s[|s| - 1];
      hide Millis, Dated, Bucket;
      SettledIsFixed(before, cutoff);
      if Old(last, cutoff) {
        assert last == last.(compressed := true);
        NoEarlierInBucket(s, cutoff);
      }
    }
  }

  /** An earlier compaction changes nothing in what a later one leaves. */
  lemma {:induction false} LaterAbsorbsEarlier(s: seq<Entry>, c1: int, c2: int)
    requires c1 <= c2
    ensures Compact(Compact(s, c1), c2) == Compact(s, c2)
  {
    if s != [] {
      var before, last := s[..|s| - 1], s[|s| - 1];
      var mid := Compact(before, c1);
      MarkKeepsTime(last);
      hide Millis, Dated, Bucket;
      LaterAbsorbsEarlier(before, c1, c2);
      if Dated(last) {
        CompactKeepsBuckets(before, c1, c2, Bucket(last));
      }
      if !Old(last, c1) {
        assert (mid + [last])[..|mid|] == mid;
      } else if BucketSeen(before, c1, Bucket(last)) {
        var i :| 0 <= i < |before| && OldIn(before[i], c1, Bucket(last));
        assert OldIn(before[i], c2, Bucket(last));
        assert Compact(s, c1) == mid;
      } else {
        var marked := last.(compressed := true);
        assert (mid + [marked])[..|mid|] == mid;
        assert Compact(s, c1) == mid + [marked];
      }
    }
  }

  /** Compacting at two cutoffs, in either order, is compacting once at the later one. */
  lemma CompactionAbsorbs(s: seq<Entry>, c1: int, c2: int)
    requires c1 <= c2
    ensures Compact(Compact(s, c1), c2) == Compact(s, c2)
    ensures Compact(Compact(s, c2), c1) == Compact(s, c2)
  {
    LaterAbsorbsEarlier(s, c1, c2);
    CompactSettles(s, c2);
    assert Settled(Compact(s, c2), c1);
    SettledIsFixed(Compact(s, c2), c1);
  }

  /** Compaction frees room exactly when two old entries share a bucket. */
  lemma {:induction false} CompactShrinks(s: seq<Entry>, cutoff: int)
    ensures |Compact(s, cutoff)| == |s| <==> DistinctBuckets(s, cutoff)
  {
    if s != [] {
      var before, last := s[..|s| - 1], s[|s| - 1];
      hide Millis, Dated, Bucket;
      CompactShrinks(before, cutoff);
      if Old(last, cutoff) && BucketSeen(before, cutoff, Bucket(last)) {
        var i :| 0 <= i < |before| && OldIn(before[i], cutoff, Bucket(last));
        assert s[i] == before[i];
        assert !DistinctBuckets(s, cutoff);
      } else if DistinctBuckets(before, cutoff) && Old(last, cutoff) {
        forall i | 0 <= i < |before| && Old(s[i], cutoff) ensures Bucket(s[i]) != Bucket(last) {
          assert before[i] == s[i];
          assert OldIn(before[i], cutoff, Bucket(before[i]));
        }
      }
      if DistinctBuckets(s, cutoff) {
        forall i, j | 0 <= i < j < |before| && Old(before[i], cutoff) && Old(before[j], cutoff)
          ensures Bucket(before[i]) != Bucket(before[j])
        {
          assert s[i] == before[i] && s[j] == before[j];
        }
      }
    }
  }

  // ------------------------------------------------- what compaction drops, in figures

  /** The time an entry is sorted by: the timestamp, the queueing time if there is none, or nothing. */
  predicate TimeIs(e: Entry, ms: int) {
    e.pos.timestamp == At(ms) || (e.pos.timestamp == Missing && e.queuedAt == ms)
  }

  /** Two entries fall together: both times are after the epoch, more than five minutes back, and in one 45 s slice. */
  ghost predicate FallTogether(e: Entry, f: Entry, now: int) {
    exists t, u ::
      TimeIs(e, t) && TimeIs(f, u) && 0 < t < now - 300000 && 0 < u < now - 300000 && t / 45000 == u / 45000
  }

  lemma FallTogetherIsOldIn(e: Entry, f: Entry, now: int)
    ensures FallTogether(e, f, now) <==>
            Old(e, now - COMPACT_HORIZON_MS) && Old(f, now - COMPACT_HORIZON_MS) && Bucket(e) == Bucket(f)
  {
    var cutoff := now - COMPACT_HORIZON_MS;
    if Old(e, cutoff) && Old(f, cutoff) && Bucket(e) == Bucket(f) {
      assert TimeIs(e, Millis(e).value) && TimeIs(f, Millis(f).value);
    }
  }

  /** An entry goes exactly if an earlier one falls together with it; of one that stays only the mark may change. */
  lemma CompactDropsIff(s: seq<Entry>, now: int, i: nat)
    requires Ordered(s) && i < |s|
    ensures Stored(Compact(s, now - COMPACT_HORIZON_MS), s[i].id) <==>
            forall j :: 0 <= j < i ==> !FallTogether(s[j], s[i], now)
    ensures forall e :: e in Compact(s, now - COMPACT_HORIZON_MS) && e.id == s[i].id ==>
              e == s[i].(compressed := s[i].compressed || FallTogether(s[i], s[i], now))
  {
    var cutoff := now - COMPACT_HORIZON_MS;
    var c := Compact(s, cutoff);
    hide Compact, Millis, Bucket, FallTogether;
    CompactMembers(s, cutoff);
    forall j | 0 <= j <= i
      ensures FallTogether(s[j], s[i], now) <==> Old(s[j], cutoff) && Old(s[i], cutoff) && Bucket(s[j]) == Bucket(s[i])
    {
      FallTogetherIsOldIn(s[j], s[i], now);
    }
    SurvivorAt(s, cutoff, i);
    if Old(s[i], cutoff) {
      OpensIff(s, cutoff, i);
      if OpensBucket(s, i, cutoff) {
        assert Survives(s, cutoff, s[i].(compressed := true));
        StoredIn(c, s[i].(compressed := true));
      }
    } else {
      assert Survives(s, cutoff, s[i]);
      StoredIn(c, s[i]);
    }
    if Stored(c, s[i].id) {
      var k :| 0 <= k < |c| && c[k].id == s[i].id;
      assert Survives(s, cutoff, c[k]);
    }
  }

  lemma StoredIn(s: seq<Entry>, e: Entry)
    requires e in s
    ensures Stored(s, e.id)
  {
  }

  lemma OpensIff(s: seq<Entry>, cutoff: int, i: nat)
    requires i < |s| && Old(s[i], cutoff)
    ensures OpensBucket(s, i, cutoff) <==>
        forall j :: 0 <= j < i ==> !(Old(s[j], cutoff) && Bucket(s[j]) == Bucket(s[i]))
  {
    hide Millis, Bucket;
    var before := s[..i];
    assert forall j :: 0 <= j < i ==> before[j] == s[j];
    if exists j :: 0 <= j < i && Old(s[j], cutoff) && Bucket(s[j]) == Bucket(s[i]) {
      var j :| 0 <= j < i && Old(s[j], cutoff) && Bucket(s[j]) == Bucket(s[i]);
      assert OldIn(before[j], cutoff, Bucket(s[i]));
    }
  }

  /** A survivor with the id of the i-th entry is that entry, marked if it opens its bucket. */
  lemma SurvivorAt(s: seq<Entry>, cutoff: int, i: nat)
    requires Ordered(s) && i < |s|
    ensures forall e :: Survives(s, cutoff, e) && e.id == s[i].id ==>
              if Old(s[i], cutoff) then OpensBucket(s, i, cutoff) && e == s[i].(compressed := true) else e == s[i]
  {
    hide Millis, Bucket;
    forall e | Survives(s, cutoff, e) && e.id == s[i].id
      ensures if Old(s[i], cutoff) then OpensBucket(s, i, cutoff) && e == s[i].(compressed := true) else e == s[i]
    {
      if e in s && !Old(e, cutoff) {
        var k :| 0 <= k < |s| && s[k] == e;
        assert k == i;
      } else {
        var k :| OpensBucket(s, k, cutoff) && e == s[k].(compressed := true);
        assert k == i;
      }
    }
  }

  // ------------------------------------------------- how much compaction leaves

  function OldEntries(s: seq<Entry>, cutoff: int): seq<Entry> {
    if s == [] then []
    else OldEntries(s[..|s| - 1], cutoff) + if Old(s[|s| - 1], cutoff) then [s[|s| - 1]] else []
  }

  function Slice(e: Entry): int
    requires Dated(e)
  {
    Millis(e).value / COMPACT_BUCKET_MS
  }

  lemma {:induction false} OldEntriesDistinct(s: seq<Entry>, cutoff: int)
    requires DistinctBuckets(s, cutoff)
    ensures DistinctBuckets(OldEntries(s, cutoff), cutoff)
    ensures forall e :: e in OldEntries(s, cutoff) <==> e in s && Old(e, cutoff)
  {
    if s != [] {
      var before, last := s[..|s| - 1], s[|s| - 1];
      assert s == before + [last];
      assert DistinctBuckets(before, cutoff) by {
        assert forall i :: 0 <= i < |before| ==> before[i] == s[i];
      }
      OldEntriesDistinct(before, cutoff);
      var o := OldEntries(before, cutoff);
      if Old(last, cutoff) {
        forall i | 0 <= i < |o| && Old(o[i], cutoff) ensures Bucket(o[i]) != Bucket(last) {
          assert o[i] in before;
          var k :| 0 <= k < |before| && before[k] == o[i];
          assert s[k] == before[k];
        }
      }
    }
  }

  /**
   The old segment that survives has at most one entry per slice between the oldest time and
   the cutoff, however long the outage was.
   */
  lemma CompactedOldBound(s: seq<Entry>, cutoff: int, minTs: int)
    requires 0 < minTs <= cutoff
    requires forall e :: e in s && Old(e, cutoff) ==> minTs <= Millis(e).value
    ensures |OldEntries(Compact(s, cutoff), cutoff)| <= cutoff / COMPACT_BUCKET_MS - minTs / COMPACT_BUCKET_MS + 1
  {
    var o := OldEntries(Compact(s, cutoff), cutoff);
    CompactSettles(s, cutoff);
    OldEntriesDistinct(Compact(s, cutoff), cutoff);
    forall e | e in o ensures Old(e, cutoff) && minTs <= Millis(e).value {
      OldSurvivor(s, cutoff, minTs, e);
    }
    hide Millis, Bucket, Compact, OldEntries, Old, DistinctBuckets;
    DistinctSlices(o, cutoff, minTs);
  }

  lemma OldSurvivor(s: seq<Entry>, cutoff: int, minTs: int, e: Entry)
    requires e in Compact(s, cutoff) && Old(e, cutoff)
    requires forall f :: f in s && Old(f, cutoff) ==> minTs <= Millis(f).value
    ensures minTs <= Millis(e).value
  {
    CompactOrigin(s, cutoff, e);
    var k :| 0 <= k < |s| && SameFix(s[k], e);
    assert s[k] in s && Old(s[k], cutoff);
  }

  lemma SliceInRange(e: Entry, cutoff: int, minTs: int)
    requires Old(e, cutoff) && minTs <= Millis(e).value
    ensures minTs / COMPACT_BUCKET_MS <= Slice(e) <= cutoff / COMPACT_BUCKET_MS
  {
  }

  lemma SlicesApart(e: Entry, f: Entry)
    requires Dated(e) && Dated(f) && Bucket(e) != Bucket(f)
    ensures Slice(e) != Slice(f)
  {
  }

  lemma DistinctSlices(o: seq<Entry>, cutoff: int, minTs: int)
    requires 0 < minTs <= cutoff
    requires DistinctBuckets(o, cutoff)
    requires forall e :: e in o ==> Old(e, cutoff) && minTs <= Millis(e).value
    ensures |o| <= cutoff / COMPACT_BUCKET_MS - minTs / COMPACT_BUCKET_MS + 1
  {
    hide Millis, Dated, Bucket, Slice;
    forall i | 0 <= i < |o|
      ensures Old(o[i], cutoff) && minTs / COMPACT_BUCKET_MS <= Slice(o[i]) <= cutoff / COMPACT_BUCKET_MS
    {
      assert o[i] in o;
      SliceInRange(o[i], cutoff, minTs);
    }
    var slices := seq(|o|, i requires 0 <= i < |o| && Dated(o[i]) => Slice(o[i]));
    forall i, j | 0 <= i < j < |slices| ensures slices[i] != slices[j] {
      SlicesApart(o[i], o[j]);
    }
    Counting.DistinctInRange(slices, minTs / COMPACT_BUCKET_MS, cutoff / COMPACT_BUCKET_MS);
  }

  // ------------------------------------------------------- one enqueue, alone

  datatype EnqueueResult = EnqueueResult(queued: bool, droppedOldest: bool, nearCapacity: bool)

  /** The store an enqueue adds to: compacted only when the quota was reached. */
  function MakeRoom(s: seq<Entry>, cutoff: int): (r: seq<Entry>)
  {
    if |s| >= QUEUE_MAX_SIZE then Compact(s, cutoff) else s
  }

  /** The entry, if any, that an enqueue running alone throws away. */
  function Evicted(s: seq<Entry>, cutoff: int): Option<Entry> {
    var room := MakeRoom(s, cutoff);
    if |room| >= QUEUE_MAX_SIZE then Some(room[0]) else None
  }

  /** The slices that the old entries lie in. */
  function OldBuckets(s: seq<Entry>, cutoff: int): set<int> {
    set i | 0 <= i < |s| && Old(s[i], cutoff) :: Bucket(s[i])
  }

  lemma OldBucketsSnoc(s: seq<Entry>, e: Entry, cutoff: int)
    ensures OldBuckets(s + [e], cutoff) == OldBuckets(s, cutoff) + if Old(e, cutoff) then {Bucket(e)} else {}
    ensures forall b :: b in OldBuckets(s, cutoff) <==> BucketSeen(s, cutoff, b)
  {
    hide Millis, Bucket;
    forall b ensures b in OldBuckets(s, cutoff) <==> BucketSeen(s, cutoff, b) {
      if b in OldBuckets(s, cutoff) {
        var i :| 0 <= i < |s| && Old(s[i], cutoff) && Bucket(s[i]) == b;
        assert OldIn(s[i], cutoff, b);
      }
    }
    var more := s + [e];
    assert more[|s|] == e;
    assert forall i :: 0 <= i < |s| ==> more[i] == s[i];
  }

  /** What compaction leaves: everything that is not old, and one entry for each old slice. */
  lemma {:induction false} CompactedSize(s: seq<Entry>, cutoff: int)
    ensures |Compact(s, cutoff)| == |s| - |OldEntries(s, cutoff)| + |OldBuckets(s, cutoff)|
  {
    hide Millis, Bucket, Old, OldBuckets, BucketSeen;
    if s == [] {
      NoOldBuckets(cutoff);
    } else {
      var before, last := s[..|s| - 1], s[|s| - 1];
      CompactedSize(before, cutoff);
      OldBucketsSnoc(before, last, cutoff);
      assert s == before + [last];
    }
  }

  lemma NoOldBuckets(cutoff: int)
    ensures OldBuckets([], cutoff) == {}
  {
  }

  /**
   When an enqueue evicts, exactly, for a store of any size: the entries that are not old, with one
   for each old slice, already fill the quota. Nothing is said of how recent the queue is.
   */
  lemma EvictionCondition(s: seq<Entry>, cutoff: int)
    ensures Evicted(s, cutoff).Some? <==>
            |s| - |OldEntries(s, cutoff)| + |OldBuckets(s, cutoff)| >= QUEUE_MAX_SIZE
  {
    CompactedSize(s, cutoff);
  }

  /**
   For a store within the quota this says: the queue is full and no two old entries share a slice.
   The comments promise eviction only for an entirely recent queue; EvictsOldQueue shows that is
   not what the code does.
   */
  lemma EvictionWithinQuota(s: seq<Entry>, cutoff: int)
    requires |s| <= QUEUE_MAX_SIZE
    ensures Evicted(s, cutoff).Some? <==> |s| == QUEUE_MAX_SIZE && DistinctBuckets(s, cutoff)
  {
    CompactShrinks(s, cutoff);
  }

  /** A full queue of old entries, one per slice: nothing is recent, and it still evicts. */
  lemma EvictsOldQueue()
    ensures exists s: seq<Entry>, cutoff ::
              Ordered(s) && |s| == QUEUE_MAX_SIZE && (forall e :: e in s ==> Old(e, cutoff)) &&
              Evicted(s, cutoff).Some?
  {
    var cutoff := 45000 * QUEUE_MAX_SIZE + 45000;
    var s := seq(QUEUE_MAX_SIZE, (i: nat) => Entry(i, Position(0, At(45000 * i + 1)), 1, false));
    forall i, j | 0 <= i < j < |s| ensures Bucket(s[i]) != Bucket(s[j]) {
      assert Millis(s[i]).value / COMPACT_BUCKET_MS == i;
      assert Millis(s[j]).value / COMPACT_BUCKET_MS == j;
    }
    assert DistinctBuckets(s, cutoff);
    EvictionWithinQuota(s, cutoff);
    assert forall e :: e in s ==> Old(e, cutoff);
  }

  /**
   One enqueue running alone loses nothing silently: every entry stored before is covered by an
   entry stored afterwards, or by the one entry whose eviction the result reports.
   */
  lemma EnqueueAloneCovers(s: seq<Entry>, cutoff: int, e: Entry, added: Entry)
    requires e in s
    ensures var room := MakeRoom(s, cutoff);
            var gone := Evicted(s, cutoff);
            var after := (if gone.Some? then room[1..] else room) + [added];
            (exists f :: f in after && Covers(f, e)) || (gone.Some? && Covers(gone.value, e))
  {
    var room := MakeRoom(s, cutoff);
    var gone := Evicted(s, cutoff);
    var after := (if gone.Some? then room[1..] else room) + [added];
    if |s| >= QUEUE_MAX_SIZE {
      CompactCovers(s, cutoff, e);
    } else {
      assert Covers(e, e);
    }
    var f :| f in room && Covers(f, e);
    var i :| 0 <= i < |room| && room[i] == f;
    if gone.Some? && i == 0 {
    } else {
      assert f in after by {
        assert after[if gone.Some? then i - 1 else i] == f;
      }
    }
  }
}
