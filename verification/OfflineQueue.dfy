/**
 The offline queue as the program runs it: the store is changed in place, the compaction scans
 with a cursor, a bucket map and a delete list, and the flush loops under the module's lock.
 Every method is proved against the specification functions of PositionStore.
 */
module OfflineQueue {
  import opened Wrappers
  import opened PositionStore
  import opened Sequences

  // ------------------------------------------------------ the flush, as a function

  /** The chunks handed to the sender, what the store still holds, and whether the flush resolved. */
  datatype FlushOutcome = FlushOutcome(sent: seq<seq<Entry>>, left: seq<Entry>, resolved: bool)

  /** One successful send less before the failing one; None never fails. */
  function Fewer(budget: Option<nat>): Option<nat> {
    if budget.None? || budget.value == 0 then budget else Some(budget.value - 1)
  }

  /**
   A flush whose sender succeeds `budget` times and then fails (None: it always succeeds). The
   flush stops at the first failure, so this covers every pattern of outcomes.
   */
  function Flush(s: seq<Entry>, limit: Option<int>, budget: Option<nat>): FlushOutcome
    decreases |s|
  {
    var chunk := Take(s, limit);
    if chunk == [] then FlushOutcome([], s, true)
    else if budget == Some(0) then FlushOutcome([chunk], s, false)
    else
      var rest := Flush(s[|chunk|..], limit, Fewer(budget));
      FlushOutcome([chunk] + rest.sent, rest.left, rest.resolved)
  }

  /** The chunks whose send succeeded. */
  function Acknowledged(o: FlushOutcome): seq<seq<Entry>> {
    if o.resolved || o.sent == [] then o.sent else o.sent[..|o.sent| - 1]
  }

  /**
   Whatever the sender does, the acknowledged chunks are a prefix of the store in order and the
   rest stays in order.
   */
  lemma {:induction false} FlushIsFifo(s: seq<Entry>, limit: Option<int>, budget: Option<nat>)
    ensures var o := Flush(s, limit, budget);
            Flatten(Acknowledged(o)) + o.left == s
    decreases |s|
  {
    var chunk := Take(s, limit);
    if chunk != [] && budget != Some(0) {
      FlushIsFifo(s[|chunk|..], limit, Fewer(budget));
      FlushStops(s[|chunk|..], limit, Fewer(budget));
      FifoStep(chunk, Flush(s[|chunk|..], limit, Fewer(budget)), s);
    }
  }

  /** Nothing is sent after a failure: a flush fails exactly at the send the budget refuses. */
  lemma {:induction false} FlushStops(s: seq<Entry>, limit: Option<int>, budget: Option<nat>)
    ensures var o := Flush(s, limit, budget);
            && (!o.resolved ==> budget.Some? && |o.sent| == budget.value + 1)
            && (o.resolved ==> Take(o.left, limit) == [] && (budget.Some? ==> |o.sent| <= budget.value))
    decreases |s|
  {
    var chunk := Take(s, limit);
    if chunk != [] && budget != Some(0) {
      FlushStops(s[|chunk|..], limit, Fewer(budget));
    }
  }

  lemma FifoStep(chunk: seq<Entry>, rest: FlushOutcome, s: seq<Entry>)
    requires chunk <= s
    requires !rest.resolved ==> rest.sent != []
    requires Flatten(Acknowledged(rest)) + rest.left == s[|chunk|..]
    ensures Flatten(Acknowledged(FlushOutcome([chunk] + rest.sent, rest.left, rest.resolved))) + rest.left == s
  {
    AcknowledgedCons(chunk, rest);
    FlattenCons(chunk, Acknowledged(rest));
    assert chunk + Flatten(Acknowledged(rest)) + rest.left == chunk + (Flatten(Acknowledged(rest)) + rest.left);
  }

  lemma AcknowledgedCons(chunk: seq<Entry>, rest: FlushOutcome)
    requires !rest.resolved ==> rest.sent != []
    ensures Acknowledged(FlushOutcome([chunk] + rest.sent, rest.left, rest.resolved)) == [chunk] + Acknowledged(rest)
  {
  }

  /** Each chunk is not empty and within the limit, and all but the last are full. */
  predicate WithinLimit(chunks: seq<seq<Entry>>, size: nat) {
    && (forall k :: 0 <= k < |chunks| ==> 0 < |chunks[k]| <= size)
    && (forall k :: 0 <= k < |chunks| - 1 ==> |chunks[k]| == size)
  }

  lemma WithinCons(chunk: seq<Entry>, rest: seq<seq<Entry>>, size: nat)
    requires WithinLimit(rest, size) && 0 < |chunk| <= size && (rest != [] ==> |chunk| == size)
    ensures WithinLimit([chunk] + rest, size)
  {
  }

  lemma {:induction false} ChunksAreWithinLimit(s: seq<Entry>, size: nat, budget: Option<nat>)
    requires size > 0
    ensures WithinLimit(Flush(s, Some(size), budget).sent, size)
    decreases |s|
  {
    hide WithinLimit;
    var chunk := Take(s, Some(size));
    OneChunk(chunk, size);
    if chunk != [] && budget != Some(0) {
      ChunksAreWithinLimit(s[|chunk|..], size, Fewer(budget));
      if |s| <= size {
        assert s[|chunk|..] == [];
      }
      WithinCons(chunk, Flush(s[|chunk|..], Some(size), Fewer(budget)).sent, size);
    }
  }

  lemma OneChunk(chunk: seq<Entry>, size: nat)
    requires |chunk| <= size
    ensures WithinLimit([], size) && (chunk != [] ==> WithinLimit([chunk], size))
  {
  }

  /** With a working sender the store is emptied, in n / size sends rounded up. */
  lemma {:induction false} FlushDrains(s: seq<Entry>, size: nat)
    requires size > 0
    ensures var o := Flush(s, Some(size), None);
            o.resolved && o.left == [] && |s| <= |o.sent| * size < |s| + size
    decreases |s|
  {
    var chunk := Take(s, Some(size));
    if chunk != [] {
      FlushDrains(s[|chunk|..], size);
      var rest := Flush(s[|chunk|..], Some(size), None);
      assert (1 + |rest.sent|) * size == size + |rest.sent| * size;
      if |s| <= size {
        assert s[|chunk|..] == [];
      }
    }
  }

  // -------------------------------------------------------------- the queue

  class OfflineQueue {
    var store: seq<Entry>
    var nextId: nat
    var isFlushing: bool

    ghost predicate Valid()
      reads this
    {
      Ordered(store) && forall i :: 0 <= i < |store| ==> store[i].id < nextId
    }

    constructor ()
      ensures Valid() && store == [] && nextId == 1 && !isFlushing
    {
      store, nextId, isFlushing := [], 1, false;
    }

    /** Deletes the listed ids one by one; an id already gone is skipped. */
    method DeletePositions(ids: seq<nat>)
      requires Valid()
      modifies this`store
      ensures Valid()
      ensures store == Without(old(store), Listed(ids))
    {
      WithoutNothing(store);
      assert Listed(ids[..0]) == {};
      for k := 0 to |ids|
        invariant store == Without(old(store), Listed(ids[..k]))
      {
        WithoutTwice(old(store), Listed(ids[..k]), {ids[k]});
        ListedSnoc(ids[..k], ids[k]);
        assert ids[..k + 1] == ids[..k] + [ids[k]];
        store := Without(store, {ids[k]});
      }
      assert ids[..|ids|] == ids;
      WithoutOrdered(old(store), Listed(ids));
      WithoutMembers(old(store), Listed(ids));
      assert forall i :: 0 <= i < |store| ==> store[i] in store;
    }

    /** The cursor scan; `now` is the clock the cutoff is taken from. */
    method CompactOldestPositions(now: int) returns (absorbed: bool)
      requires Valid()
      modifies this`store
      ensures Valid()
      ensures store == Compact(old(store), now - COMPACT_HORIZON_MS)
      ensures absorbed <==> |store| < |old(store)|
    {
      var cutoff := now - COMPACT_HORIZON_MS;
      var keptPerBucket: map<int, nat> := map[];
      var toDelete: seq<nat> := [];
      var cursor := 0;
      ghost var orig := store;
      while cursor < |store|
        invariant Scanned(orig, store, cursor, toDelete, cutoff)
        invariant KeptBuckets(orig, cursor, keptPerBucket, cutoff)
      {
        var value := store[cursor];
        if Old(value, cutoff) {
          var bucket := Bucket(value);
          if bucket !in keptPerBucket {
            ScanMark(orig, store, cursor, toDelete, keptPerBucket, cutoff);
            keptPerBucket := keptPerBucket[bucket := value.id];
            store := store[cursor := value.(compressed := true)];
          } else {
            ScanDrop(orig, store, cursor, toDelete, keptPerBucket, cutoff);
            if keptPerBucket[bucket] != value.id {
              toDelete := toDelete + [value.id];
            }
          }
        } else {
          ScanKeep(orig, store, cursor, toDelete, keptPerBucket, cutoff);
        }
        cursor := cursor + 1;
      }
      assert store[..cursor] == store && orig[..cursor] == orig;
      assert Ordered(store);
      absorbed := toDelete != [];
      DeletePositions(toDelete);
    }

    /** Reads at most `limit` entries, oldest first, deleting nothing. */
    method DequeuePositions(limit: Option<int>) returns (items: seq<Entry>)
      ensures items == Take(store, limit)
    {
      items := [];
      var cursor := 0;
      while cursor < |store| && (limit.None? || |items| < limit.value)
        invariant 0 <= cursor <= |store|
        invariant items == store[..cursor]
        invariant limit.Some? && cursor > 0 ==> cursor <= limit.value
      {
        items := items + [store[cursor]];
        cursor := cursor + 1;
      }
    }

    method DequeueOldest() returns (oldest: Option<Entry>)
      requires Valid()
      modifies this`store
      ensures Valid()
      ensures old(store) == [] ==> oldest == None && store == []
      ensures old(store) != [] ==> oldest == Some(old(store)[0]) && store == old(store)[1..]
    {
      if store == [] {
        oldest := None;
      } else {
        oldest := Some(store[0]);
        store := store[1..];
      }
    }

    /**
     One enqueue with no other operation between its transactions. `scanned` is the clock at the
     compaction, `queuedAt` the clock at the insertion.
     */
    method EnqueuePosition(pos: Position, scanned: int, queuedAt: int)
      returns (r: EnqueueResult, oldest: Option<Entry>)
      requires Valid()
      modifies this`store, this`nextId
      ensures Valid()
      ensures var cutoff := scanned - COMPACT_HORIZON_MS;
              var room := MakeRoom(old(store), cutoff);
              && oldest == Evicted(old(store), cutoff)
              && store == (if oldest.Some? then room[1..] else room) + [Entry(old(nextId), pos, queuedAt, false)]
              && r == EnqueueResult(true, oldest.Some?, |room| + 1 >= QUEUE_WARN_SIZE)
      // Below the quota nothing is touched; at or above it, what goes is what compaction drops, and then at most one.
      ensures nextId == old(nextId) + 1
      ensures |old(store)| < 10000 ==> oldest.None? && store == old(store) + [Entry(old(nextId), pos, queuedAt, false)]
      ensures |old(store)| >= 10000 ==>
                var kept := Compact(old(store), scanned - 300000);
                if |kept| < 10000 then oldest.None? && store == kept + [Entry(old(nextId), pos, queuedAt, false)]
                else oldest == Some(kept[0]) && store == kept[1..] + [Entry(old(nextId), pos, queuedAt, false)]
      ensures r == EnqueueResult(true, oldest.Some?, |store| >= 8000)
      ensures |old(store)| <= QUEUE_MAX_SIZE ==> |store| <= QUEUE_MAX_SIZE
      ensures |store| >= QUEUE_WARN_SIZE ==> r.nearCapacity
    {
      var size := |store|;
      var droppedOldest := false;
      oldest := None;
      if size >= QUEUE_MAX_SIZE {
        var _ := CompactOldestPositions(scanned);
        size := |store|;
      }
      if size >= QUEUE_MAX_SIZE {
        oldest := DequeueOldest();
        if oldest.None? {
          return EnqueueResult(false, droppedOldest, false), None;
        }
        droppedOldest := true;
      }
      store := store + [Entry(nextId, pos, queuedAt, false)];
      nextId := nextId + 1;
      r := EnqueueResult(true, droppedOldest, size + 1 >= QUEUE_WARN_SIZE);
    }

    /**
     The chunked flush. The sender succeeds `budget` times and then fails; a flush that finds the
     lock taken does nothing, and the lock is released on success and on failure alike.
     */
    method FlushQueue(limit: Option<int>, budget: Option<nat>) returns (sent: seq<seq<Entry>>, resolved: bool)
      requires Valid()
      modifies this`store, this`isFlushing
      ensures Valid()
      ensures isFlushing == old(isFlushing)
      ensures FlushOutcome(sent, store, resolved) ==
              if old(isFlushing) then FlushOutcome([], old(store), true) else Flush(old(store), limit, budget)
    {
      sent := [];
      if isFlushing {
        return sent, true;
      }
      isFlushing := true;
      var left := budget;
      ghost var whole := Flush(store, limit, budget);
      while true
        invariant Valid()
        invariant isFlushing
        invariant whole == After(sent, Flush(store, limit, left))
        decreases |store|
      {
        var positions := DequeuePositions(limit);
        if positions == [] {
          isFlushing := false;
          return sent, true;
        }
        var ids := seq(|positions|, i requires 0 <= i < |positions| => positions[i].id);
        FlushTurn(store, limit, left, sent, ids);
        sent := sent + [positions];
        if left == Some(0) {
          isFlushing := false;
          return sent, false;
        }
        left := Fewer(left);
        DeletePositions(ids);
      }
    }
  }

  // ------------------------------------------------------ steps of the two loops

  /** The outcome of a flush that had already sent `sent`. */
  function After(sent: seq<seq<Entry>>, rest: FlushOutcome): FlushOutcome {
    FlushOutcome(sent + rest.sent, rest.left, rest.resolved)
  }

  lemma FlushTurn(s: seq<Entry>, limit: Option<int>, budget: Option<nat>, sent: seq<seq<Entry>>, ids: seq<nat>)
    requires Ordered(s)
    requires var chunk := Take(s, limit);
             chunk != [] && |ids| == |chunk| && forall i :: 0 <= i < |ids| ==> ids[i] == chunk[i].id
    ensures var chunk := Take(s, limit);
            var after := Without(s, Listed(ids));
            && |after| < |s|
            && After(sent, Flush(s, limit, budget)) ==
               if budget == Some(0) then FlushOutcome(sent + [chunk], s, false)
               else After(sent + [chunk], Flush(after, limit, Fewer(budget)))
  {
    var chunk := Take(s, limit);
    assert Listed(ids) == Ids(chunk);
    assert chunk == s[..|chunk|];
    WithoutPrefix(s, |chunk|);
    var rest := Flush(s[|chunk|..], limit, Fewer(budget));
    assert sent + ([chunk] + rest.sent) == sent + [chunk] + rest.sent;
  }

  /** Deleting what is listed so far from the scanned part gives the compacted part. */
  ghost predicate Scanned(orig: seq<Entry>, s: seq<Entry>, cursor: int, toDelete: seq<nat>, cutoff: int) {
    && |s| == |orig| && 0 <= cursor <= |orig|
    && (forall i :: 0 <= i < |orig| ==> s[i].id == orig[i].id)
    && s[cursor..] == orig[cursor..]
    && Without(s[..cursor], Listed(toDelete)) == Compact(orig[..cursor], cutoff)
    && (forall d :: d in toDelete ==> Stored(orig[..cursor], d))
    && |Compact(orig[..cursor], cutoff)| + |toDelete| == cursor
  }

  ghost predicate KeptBuckets(orig: seq<Entry>, cursor: int, kept: map<int, nat>, cutoff: int)
    requires 0 <= cursor <= |orig|
  {
    && (forall b :: b in kept <==> BucketSeen(orig[..cursor], cutoff, b))
    && (forall b :: b in kept ==> Stored(orig[..cursor], kept[b]))
  }

  /** What the three branches of the scan share. */
  lemma ScanFacts(orig: seq<Entry>, s: seq<Entry>, cursor: int, toDelete: seq<nat>, cutoff: int)
    requires Ordered(orig) && Scanned(orig, s, cursor, toDelete, cutoff) && cursor < |s|
    ensures s[cursor] == orig[cursor]
    ensures orig[..cursor + 1] == orig[..cursor] + [orig[cursor]]
    ensures !Stored(orig[..cursor], orig[cursor].id) && !Stored(s[..cursor], orig[cursor].id)
    ensures orig[cursor].id !in toDelete
    ensures forall id :: Stored(orig[..cursor + 1], id) <==> Stored(orig[..cursor], id) || id == orig[cursor].id
    ensures forall b :: BucketSeen(orig[..cursor + 1], cutoff, b) <==>
        BucketSeen(orig[..cursor], cutoff, b) || OldIn(orig[cursor], cutoff, b)
  {
    assert s[cursor..][0] == orig[cursor..][0];
    StoredGrows(orig[..cursor], orig[cursor]);
    BucketSeenGrows(orig[..cursor], orig[cursor], cutoff);
    assert orig[..cursor + 1] == orig[..cursor] + [orig[cursor]];
  }

  lemma ScanKeep(orig: seq<Entry>, s: seq<Entry>, cursor: int, toDelete: seq<nat>, kept: map<int, nat>, cutoff: int)
    requires Ordered(orig) && Scanned(orig, s, cursor, toDelete, cutoff) && cursor < |s|
    requires KeptBuckets(orig, cursor, kept, cutoff)
    requires !Old(s[cursor], cutoff)
    ensures Scanned(orig, s, cursor + 1, toDelete, cutoff)
    ensures KeptBuckets(orig, cursor + 1, kept, cutoff)
  {
    ScanFacts(orig, s, cursor, toDelete, cutoff);
    hide Millis, Dated, Bucket, Old, Compact, Without;
    CompactSnoc(orig[..cursor], orig[cursor], cutoff);
    assert s[..cursor + 1] == s[..cursor] + [s[cursor]];
    WithoutSnoc(s[..cursor], s[cursor], Listed(toDelete));
  }

  lemma ScanMark(orig: seq<Entry>, s: seq<Entry>, cursor: int, toDelete: seq<nat>, kept: map<int, nat>, cutoff: int)
    requires Ordered(orig) && Scanned(orig, s, cursor, toDelete, cutoff) && cursor < |s|
    requires KeptBuckets(orig, cursor, kept, cutoff)
    requires Old(s[cursor], cutoff) && Bucket(s[cursor]) !in kept
    ensures var value := s[cursor];
            && Scanned(orig, s[cursor := value.(compressed := true)], cursor + 1, toDelete, cutoff)
            && KeptBuckets(orig, cursor + 1, kept[Bucket(value) := value.id], cutoff)
  {
    ScanFacts(orig, s, cursor, toDelete, cutoff);
    MarkKeepsTime(s[cursor]);
    hide Millis, Dated, Bucket, Old, Compact, Without;
    CompactSnoc(orig[..cursor], orig[cursor], cutoff);
    var marked := s[cursor].(compressed := true);
    var s' := s[cursor := marked];
    assert s'[..cursor + 1] == s[..cursor] + [marked];
    WithoutSnoc(s[..cursor], marked, Listed(toDelete));
  }

  lemma ScanDrop(orig: seq<Entry>, s: seq<Entry>, cursor: int, toDelete: seq<nat>, kept: map<int, nat>, cutoff: int)
    requires Ordered(orig) && Scanned(orig, s, cursor, toDelete, cutoff) && cursor < |s|
    requires KeptBuckets(orig, cursor, kept, cutoff)
    requires Old(s[cursor], cutoff) && Bucket(s[cursor]) in kept
    ensures kept[Bucket(s[cursor])] != s[cursor].id
    ensures Scanned(orig, s, cursor + 1, toDelete + [s[cursor].id], cutoff)
    ensures KeptBuckets(orig, cursor + 1, kept, cutoff)
  {
    ScanFacts(orig, s, cursor, toDelete, cutoff);
    hide Millis, Dated, Bucket, Old, Compact, Without;
    var value := s[cursor];
    CompactSnoc(orig[..cursor], value, cutoff);
    ListedSnoc(toDelete, value.id);
    WithoutAbsent(s[..cursor], Listed(toDelete), value.id);
    assert s[..cursor + 1] == s[..cursor] + [value];
    WithoutSnoc(s[..cursor], value, Listed(toDelete + [value.id]));
  }

  function Listed(ids: seq<nat>): set<nat> {
    set i | 0 <= i < |ids| :: ids[i]
  }

  lemma ListedSnoc(ids: seq<nat>, id: nat)
    ensures Listed(ids + [id]) == Listed(ids) + {id}
  {
    assert forall i :: 0 <= i < |ids| ==> (ids + [id])[i] == ids[i];
    assert (ids + [id])[|ids|] == id;
  }

  lemma WithoutSnoc(s: seq<Entry>, e: Entry, ids: set<nat>)
    ensures Without(s + [e], ids) == Without(s, ids) + if e.id in ids then [] else [e]
  {
    assert (s + [e])[..|s|] == s;
  }

  lemma CompactSnoc(s: seq<Entry>, e: Entry, cutoff: int)
    ensures Compact(s + [e], cutoff) == Compact(s, cutoff) +
            if !Old(e, cutoff) then [e]
            else if BucketSeen(s, cutoff, Bucket(e)) then []
            else [e.(compressed := true)]
  {
    assert (s + [e])[..|s|] == s;
  }

  lemma BucketSeenGrows(s: seq<Entry>, e: Entry, cutoff: int)
    ensures forall b :: BucketSeen(s + [e], cutoff, b) <==> BucketSeen(s, cutoff, b) || OldIn(e, cutoff, b)
  {
    forall b ensures BucketSeen(s + [e], cutoff, b) <==> BucketSeen(s, cutoff, b) || OldIn(e, cutoff, b) {
      BucketSeenSnoc(s, e, cutoff, b);
    }
  }

  lemma StoredGrows(s: seq<Entry>, e: Entry)
    ensures forall id :: Stored(s + [e], id) <==> Stored(s, id) || id == e.id
  {
    forall id ensures Stored(s + [e], id) <==> Stored(s, id) || id == e.id {
      if Stored(s, id) {
        var i :| 0 <= i < |s| && s[i].id == id;
        assert (s + [e])[i].id == id;
      }
      if id == e.id {
        assert (s + [e])[|s|].id == id;
      }
      if Stored(s + [e], id) {
        var i :| 0 <= i < |s + [e]| && (s + [e])[i].id == id;
        assert i < |s| ==> s[i].id == id;
      }
    }
  }
}
