/**
 No silent loss, position by position: which entry keeps a position, and where that entry is.
 */
module QueueFates {
  import opened PositionStore
  import opened QueueProtocol
  import opened QueueSafety
  import opened QueueEvictions
  import opened Wrappers

  // ---------------------------------------------------------- the entry that keeps a position

  /** The first of the old entries of a slice: the one that compaction keeps. */
  function FirstOld(s: seq<Entry>, cutoff: int, bucket: int): Option<nat> {
    if s == [] then None
    else
      var before := FirstOld(s[..|s| - 1], cutoff, bucket);
      if before.Some? then before
      else if OldIn(s[|s| - 1], cutoff, bucket) then Some(s[|s| - 1].id)
      else None
  }

  lemma {:induction false} FirstOldSurvives(s: seq<Entry>, cutoff: int, bucket: int)
    ensures FirstOld(s, cutoff, bucket).Some? <==> BucketSeen(s, cutoff, bucket)
    ensures FirstOld(s, cutoff, bucket).Some? ==>
              exists e ::
                e in Compact(s, cutoff) && e.id == FirstOld(s, cutoff, bucket).value && OldIn(e, cutoff, bucket)
  {
    hide Millis, Bucket, Dated;
    if s != [] {
      var before, last := s[..|s| - 1], s[|s| - 1];
      FirstOldSurvives(before, cutoff, bucket);
      BucketSeenSnoc(before, last, cutoff, bucket);
      assert s == before + [last];
      if FirstOld(before, cutoff, bucket).Some? {
        var e :| e in Compact(before, cutoff) && e.id == FirstOld(before, cutoff, bucket).value &&
          OldIn(e, cutoff, bucket);
        assert e in Compact(s, cutoff);
      } else if OldIn(last, cutoff, bucket) {
        MarkKeepsTime(last);
        assert last.(compressed := true) in Compact(s, cutoff);
      }
    }
  }

  /** A compaction step finds the position stored and old. */
  ghost predicate Absorbs(s: State, ev: Event, id: nat) {
    && ev.OfCall? && ev.call.CompactStore? && ev.c in s.calls && s.calls[ev.c].phase.Compacting?
    && Stored(s.store, id) && id in s.history && Old(s.history[id], ev.call.now - COMPACT_HORIZON_MS)
  }

  ghost function KeeperAfter(s: State, ev: Event, id: nat): nat {
    if !Absorbs(s, ev, id) then id
    else
      var cutoff := ev.call.now - COMPACT_HORIZON_MS;
      var first := FirstOld(s.store, cutoff, Bucket(s.history[id]));
      if first.Some? then first.value else id
  }

  /**
   The entry that keeps the position: itself, until a compaction finds it old and puts the first of
   its slice in its place.
   */
  ghost function Keeper(evs: seq<Event>, id: nat): nat {
    if evs == [] then id
    else
      var rest := evs[..|evs| - 1];
      KeeperAfter(Run(Init(true), rest), evs[|evs| - 1], Keeper(rest, id))
  }

  // ------------------------------------------------------------------ where it is

  ghost predicate AccountedFor(s: State, y: nat) {
    || Stored(s.store, y)
    || y in s.persisted
    || y in s.refused
    || (y in s.evicted && s.evicted[y] in s.calls && Signals(s.calls[s.evicted[y]].phase))
  }

  /** The eviction has no report: a storage error rejected the call that made it. */
  ghost predicate Unreported(s: State, y: nat) {
    y in s.evicted && s.evicted[y] in s.calls && s.calls[s.evicted[y]].phase.Failed?
  }

  /** On disk, with the server, reported invalid by it, or evicted. */
  ghost predicate Accounted(s: State, y: nat) {
    Stored(s.store, y) || y in s.persisted || y in s.refused || y in s.evicted
  }

  /** A step that only adds to the history, and takes no entry away without accounting for it. */
  ghost predicate Keeps(s: State, s': State, id: nat) {
    && (forall y :: y in s.history ==> y in s'.history && s'.history[y] == s.history[y])
    && (forall y :: y in s'.history && y !in s.history ==> Stored(s'.store, y))
    && (Accounted(s, id) ==> Accounted(s', id))
  }

  lemma StoredSnoc(store: seq<Entry>, e: Entry)
    ensures Stored(store + [e], e.id) && forall id :: Stored(store, id) ==> Stored(store + [e], id)
  {
    assert (store + [e])[|store|] == e;
    forall id | Stored(store, id) ensures Stored(store + [e], id) {
      var i :| 0 <= i < |store| && store[i].id == id;
      assert (store + [e])[i].id == id;
    }
  }

  lemma InsertKeeps(s: State, c: nat, now: int, id: nat)
    requires StoreInv(s.store, s.history, s.nextId)
    ensures Keeps(s, DoInsert(s, c, now), id)
  {
    if c in s.calls && s.calls[c].phase.Adding? {
      StoredSnoc(s.store, Entry(s.nextId, s.calls[c].pos, now, false));
      assert s.nextId !in s.history;
    }
    hide Stored;
  }

  lemma EvictKeepsAccounts(s: State, c: nat, id: nat)
    ensures Keeps(s, DoEvict(s, c), id)
  {
    if s.store != [] && Stored(s.store, id) && id != s.store[0].id {
      var i :| 0 <= i < |s.store| && s.store[i].id == id;
      assert s.store[1..][i - 1].id == id;
    }
  }

  /** The other steps of a call leave the store alone. */
  lemma CallKeeps(s: State, c: nat, step: CallStep, id: nat)
    requires StoreInv(s.store, s.history, s.nextId) && !step.CompactStore?
    ensures Keeps(s, ApplyCall(s, c, step), id)
  {
    hide Keeps, DoInsert, DoEvict, StoreInv;
    match step
    case Start(pos) => SameKeeps(s, DoStartEnqueue(s, c, pos), id);
    case ReadSize => SameKeeps(s, DoReadSize(s, c), id);
    case ReadSizeAgain => SameKeeps(s, DoReadSizeAgain(s, c), id);
    case EvictOldest => EvictKeepsAccounts(s, c, id);
    case Insert(now) => InsertKeeps(s, c, now, id);
    case FailCall => SameKeeps(s, DoFailCall(s, c), id);
  }

  lemma SameKeeps(s: State, s': State, id: nat)
    requires s'.store == s.store && s'.history == s.history && s'.evicted == s.evicted
    requires s.persisted <= s'.persisted && s.refused <= s'.refused
    ensures Keeps(s, s', id)
  {
    hide Stored;
  }

  /** A flush deletes what the server has answered. */
  lemma DeleteKeeps(s: State, f: nat, id: nat)
    requires SentInv(s.batches, s.flushers) && AckInv(s.batches, s.flushed, AnsweredIds(s))
    ensures Keeps(s, DoDeleteChunk(s, f), id)
  {
    if f in s.flushers && s.flushers[f].phase.Deleting? {
      var ids := Ids(s.flushers[f].phase.chunk);
      assert SentOk(s.flushers[f], s.batches);
      assert ids <= AnsweredIds(s);
      WithoutMembers(s.store, ids);
      if Stored(s.store, id) && id !in ids {
        var i :| 0 <= i < |s.store| && s.store[i].id == id;
        assert s.store[i] in Without(s.store, ids);
      }
    }
  }

  lemma BeginKeeps(s: State, f: nat, limit: Option<int>, id: nat)
    ensures Keeps(s, DoStartFlush(s, f, limit), id)
  {
    hide Keeps;
    SameKeeps(s, DoStartFlush(s, f, limit), id);
  }

  lemma ReadKeeps(s: State, f: nat, id: nat)
    ensures Keeps(s, DoReadChunk(s, f), id)
  {
    hide Keeps, Take;
    SameKeeps(s, DoReadChunk(s, f), id);
  }

  lemma EmitKeeps(s: State, f: nat, b: nat, id: nat)
    ensures Keeps(s, DoEmit(s, f, b), id)
  {
    hide Keeps;
    SameKeeps(s, DoEmit(s, f, b), id);
  }

  lemma ResumeKeeps(s: State, f: nat, id: nat)
    ensures Keeps(s, DoResume(s, f), id)
  {
    hide Keeps;
    SameKeeps(s, DoResume(s, f), id);
  }

  lemma AbortKeeps(s: State, f: nat, id: nat)
    ensures Keeps(s, DoFailFlush(s, f), id)
  {
    hide Keeps;
    SameKeeps(s, DoFailFlush(s, f), id);
  }

  lemma FlushKeeps(s: State, f: nat, step: FlushStep, id: nat)
    requires SentInv(s.batches, s.flushers) && AckInv(s.batches, s.flushed, AnsweredIds(s))
    ensures Keeps(s, ApplyFlush(s, f, step), id)
  {
    hide Keeps, SentInv, AckInv, DoStartFlush, DoReadChunk, DoEmit, DoResume, DoDeleteChunk, DoFailFlush;
    match step
    case Begin(limit) => BeginKeeps(s, f, limit, id);
    case ReadChunk => ReadKeeps(s, f, id);
    case Emit(b) => EmitKeeps(s, f, b, id);
    case Resume => ResumeKeeps(s, f, id);
    case DeleteChunk => DeleteKeeps(s, f, id);
    case Abort => AbortKeeps(s, f, id);
  }

  lemma NetKeeps(s: State, step: NetStep, id: nat)
    ensures Keeps(s, ApplyNet(s, step), id)
  {
    hide Keeps, Ids, Hear;
    SameKeeps(s, ApplyNet(s, step), id);
  }

  /** Compaction: what it finds old is kept by the first of its slice, which stays in the store. */
  lemma CompactKeeper(s: State, c: nat, now: int, id: nat)
    requires StoreInv(s.store, s.history, s.nextId) && id in s.history && Accounted(s, id)
    ensures var s' := DoCompact(s, c, now);
            var k := KeeperAfter(s, OfCall(c, CompactStore(now)), id);
            k in s.history && Covers(s.history[k], s.history[id]) && Accounted(s', k)
  {
    var s', cutoff := DoCompact(s, c, now), now - COMPACT_HORIZON_MS;
    if c in s.calls && s.calls[c].phase.Compacting? && Stored(s.store, id) {
      var i :| 0 <= i < |s.store| && s.store[i].id == id;
      SameFixSameTime(s.store[i], s.history[id], cutoff);
      if Absorbs(s, OfCall(c, CompactStore(now)), id) {
        SliceKeeper(s, i, cutoff);
      } else {
        CompactMembers(s.store, cutoff);
        assert Survives(s.store, cutoff, s.store[i]);
        var k :| 0 <= k < |s'.store| && s'.store[k] == s.store[i];
      }
    }
  }

  lemma SameFixSameTime(e: Entry, f: Entry, cutoff: int)
    requires SameFix(e, f)
    ensures (Dated(e) <==> Dated(f)) && (Dated(e) ==> Bucket(e) == Bucket(f)) && (Old(e, cutoff) <==> Old(f, cutoff))
  {
  }

  lemma SliceKeeper(s: State, i: nat, cutoff: int)
    requires StoreInv(s.store, s.history, s.nextId) && i < |s.store| && Old(s.store[i], cutoff)
    ensures var k := FirstOld(s.store, cutoff, Bucket(s.store[i]));
            && k.Some? && k.value in s.history && Stored(Compact(s.store, cutoff), k.value)
            && Covers(s.history[k.value], s.store[i])
  {
    hide Millis, Bucket;
    var bucket := Bucket(s.store[i]);
    assert OldIn(s.store[i], cutoff, bucket);
    FirstOldSurvives(s.store, cutoff, bucket);
    var c := Compact(s.store, cutoff);
    var e :| e in c && e.id == FirstOld(s.store, cutoff, bucket).value && OldIn(e, cutoff, bucket);
    var k :| 0 <= k < |c| && c[k] == e;
    CompactOrigin(s.store, cutoff, e);
    var j :| 0 <= j < |s.store| && SameFix(s.store[j], e);
    SameFixSameTime(s.history[e.id], e, cutoff);
  }

  /** One step: the keeper is known, of the same slice, and accounted for. */
  lemma KeeperStep(s: State, ev: Event, id: nat)
    requires Inv(s) && id in s.history && Accounted(s, id)
    ensures var s' := Apply(s, ev);
            var k := KeeperAfter(s, ev, id);
            k in s.history && Covers(s.history[k], s.history[id]) && Accounted(s', k)
  {
    hide StoreInv, CallInv, LockInv, LogInv, ChunkInv, PromiseInv, SentInv, ReplyInv, AckInv;
    hide ApplyFlush, ApplyNet, DoStartEnqueue, DoReadSize, DoCompact, DoReadSizeAgain, DoEvict, DoInsert, DoFailCall;
    hide Covers, Old, FirstOld;
    CoversItself(s.history[id]);
    if ev.OfCall? && ev.call.CompactStore? {
      CompactKeeper(s, ev.c, ev.call.now, id);
    } else {
      StepKeeps(s, ev, id);
    }
  }

  lemma CoversItself(e: Entry)
    ensures Covers(e, e)
  {
  }

  lemma StepKeeps(s: State, ev: Event, id: nat)
    requires Inv(s) && !(ev.OfCall? && ev.call.CompactStore?)
    ensures Keeps(s, Apply(s, ev), id)
  {
    hide StoreInv, CallInv, LockInv, LogInv, ChunkInv, PromiseInv, SentInv, ReplyInv, AckInv, Keeps;
    hide ApplyCall, ApplyFlush, ApplyNet;
    match ev
    case OfCall(c, step) => CallKeeps(s, c, step, id);
    case OfFlush(f, step) => FlushKeeps(s, f, step, id);
    case OfNet(step) => NetKeeps(s, step, id);
  }

  /** No step forgets an entry, and a new one is in the store. */
  lemma HistoryStep(s: State, ev: Event, id: nat)
    requires Inv(s)
    ensures var s' := Apply(s, ev);
            && (id in s.history ==> id in s'.history && s'.history[id] == s.history[id])
            && (id in s'.history && id !in s.history ==> Stored(s'.store, id))
  {
    if !(ev.OfCall? && ev.call.CompactStore?) {
      StepKeeps(s, ev, id);
    }
    hide Inv, Stored;
  }

  lemma CoversChain(e: Entry, f: Entry, g: Entry)
    requires Covers(e, f) && Covers(f, g)
    ensures Covers(e, g)
  {
  }

  ghost predicate KeptBy(s: State, k: nat, id: nat)
    requires id in s.history
  {
    k in s.history && Covers(s.history[k], s.history[id]) && Accounted(s, k)
  }

  /** Over every run: each position that was ever stored is kept by an entry that is accounted for. */
  lemma {:induction false} KeeperIsAccounted(evs: seq<Event>, id: nat)
    ensures var s := Run(Init(true), evs);
            if id in s.history then KeptBy(s, Keeper(evs, id), id) else Keeper(evs, id) == id
  {
    hide Inv, Apply, Covers, Accounted;
    if evs != [] {
      var rest, last := evs[..|evs| - 1], evs[|evs| - 1];
      var s, s', z := Run(Init(true), rest), Run(Init(true), evs), Keeper(rest, id);
      KeeperIsAccounted(rest, id);
      RunKeepsInv(rest);
      HistoryStep(s, last, id);
      if id in s.history {
        KeeperStep(s, last, z);
        HistoryStep(s, last, Keeper(evs, id));
        CoversChain(s.history[Keeper(evs, id)], s.history[z], s.history[id]);
      } else {
        Unknown(s, last, id);
        if id in s'.history {
          CoversItself(s'.history[id]);
          StoredIsAccounted(s', id);
        }
      }
    }
  }

  lemma Unknown(s: State, ev: Event, id: nat)
    requires id !in s.history
    ensures KeeperAfter(s, ev, id) == id
  {
  }

  lemma StoredIsAccounted(s: State, id: nat)
    requires Stored(s.store, id)
    ensures Accounted(s, id)
  {
  }

  lemma AccountedIsReported(s: State, y: nat)
    requires CallInv(s.calls, s.evicted, s.history) && Accounted(s, y)
    ensures AccountedFor(s, y) || Unreported(s, y)
  {
  }

  // ------------------------------------------------------------------- theorems

  /**
   For every interleaving: a position reported as queued was inserted, and the entry that keeps it
   is of its slice and stored, saved by the server, reported invalid by it, or evicted: by a call
   that signals the eviction, unless a storage error rejected that call.
   */
  lemma {:induction false} NoSilentLoss(evs: seq<Event>, c: nat)
    ensures var s := Run(Init(true), evs);
            c in s.calls && s.calls[c].phase.Done? && s.calls[c].phase.result.queued ==>
              var id := s.calls[c].phase.id;
              && id.Some? && id.value in s.history && s.history[id.value].pos == s.calls[c].pos
              && var k := Keeper(evs, id.value);
                 k in s.history && Covers(s.history[k], s.history[id.value]) && (AccountedFor(s, k) || Unreported(s, k))
  {
    hide Run, Keeper, Covers, Accounted, AccountedFor, Unreported;
    var s := Run(Init(true), evs);
    RunKeepsInv(evs);
    if c in s.calls && s.calls[c].phase.Done? && s.calls[c].phase.result.queued {
      assert Truthful(s.calls[c], s.history);
      var id := s.calls[c].phase.id.value;
      KeeperIsAccounted(evs, id);
      AccountedIsReported(s, Keeper(evs, id));
    }
  }

  /** Some compaction of the run found the position stored and old. */
  ghost predicate FoundOld(evs: seq<Event>, id: nat) {
    exists k :: 0 <= k < |evs| && Absorbs(Run(Init(true), evs[..k]), evs[k], id)
  }

  /** Full resolution: a position that no compaction has found old keeps itself. */
  lemma {:induction false} RecentKeepsItself(evs: seq<Event>, id: nat)
    requires !FoundOld(evs, id)
    ensures Keeper(evs, id) == id
  {
    hide Absorbs, Run, FirstOld;
    if evs != [] {
      var rest := evs[..|evs| - 1];
      forall k | 0 <= k < |rest| ensures !Absorbs(Run(Init(true), rest[..k]), rest[k], id) {
        assert rest[..k] == evs[..k] && rest[k] == evs[k];
      }
      RecentKeepsItself(rest, id);
      assert !Absorbs(Run(Init(true), evs[..|rest|]), evs[|rest|], id);
    }
  }

  /** So a position that no compaction has found old is itself stored, answered or evicted. */
  lemma {:induction false} RecentIsNeverMerged(evs: seq<Event>, id: nat)
    requires !FoundOld(evs, id)
    ensures var s := Run(Init(true), evs); id in s.history ==> AccountedFor(s, id) || Unreported(s, id)
  {
    hide Run, FoundOld, Covers, Accounted, AccountedFor, Unreported;
    var s := Run(Init(true), evs);
    RunKeepsInv(evs);
    RecentKeepsItself(evs, id);
    KeeperIsAccounted(evs, id);
    if id in s.history {
      AccountedIsReported(s, id);
    }
  }

  lemma {:induction false} HistoryStays(evs: seq<Event>, n: nat, id: nat)
    requires n <= |evs| && id in Run(Init(true), evs[..n]).history
    ensures var s, s' := Run(Init(true), evs[..n]), Run(Init(true), evs);
            id in s'.history && s'.history[id] == s.history[id]
    decreases |evs|
  {
    if n == |evs| {
      assert evs[..n] == evs;
    } else {
      var rest := evs[..|evs| - 1];
      assert rest[..n] == evs[..n];
      HistoryStays(rest, n, id);
      RunKeepsInv(rest);
      HistoryStep(Run(Init(true), rest), evs[|evs| - 1], id);
    }
  }

  /** In particular one without a usable date, which compaction never finds old. */
  lemma {:induction false} UndatedIsNeverMerged(evs: seq<Event>, id: nat)
    ensures var s := Run(Init(true), evs);
            id in s.history && !Dated(s.history[id]) ==> AccountedFor(s, id) || Unreported(s, id)
  {
    var s := Run(Init(true), evs);
    if id in s.history && !Dated(s.history[id]) {
      forall k | 0 <= k < |evs| ensures !Absorbs(Run(Init(true), evs[..k]), evs[k], id) {
        if id in Run(Init(true), evs[..k]).history {
          HistoryStays(evs, k, id);
        }
      }
      RecentIsNeverMerged(evs, id);
    }
  }

  /**
   If no insertion failed after an eviction, nothing is lost silently: the entry that keeps a
   position reported as queued is stored, saved, reported invalid, or evicted with a report.
   */
  lemma {:induction false} NothingLostWithoutReport(evs: seq<Event>, c: nat)
    requires forall d :: !InsertFails(evs, d)
    ensures var s := Run(Init(true), evs);
            c in s.calls && s.calls[c].phase.Done? && s.calls[c].phase.result.queued ==>
              var id := s.calls[c].phase.id;
              && id.Some? && id.value in s.history && s.history[id.value].pos == s.calls[c].pos
              && var k := Keeper(evs, id.value);
                 k in s.history && Covers(s.history[k], s.history[id.value]) && AccountedFor(s, k)
  {
    hide InsertFails, Run, Keeper, Covers;
    NoSilentLoss(evs, c);
    var s := Run(Init(true), evs);
    forall y | Unreported(s, y) ensures AccountedFor(s, y) {
      EvictorSignals(evs, y);
    }
  }
}
