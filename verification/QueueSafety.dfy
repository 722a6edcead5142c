/** Every step of the offline pipeline keeps its invariants, and what that means over whole runs. */
module QueueSafety {
  import opened Wrappers
  import opened PositionStore
  import opened QueueProtocol

  lemma InitHolds()
    ensures Inv(Init(true))
  {
  }

  // ---------------------------------------------- what the steps have in common

  /** A call moves to a phase that tells the truth and still signals what it evicted, unless it fails. */
  lemma MoveCall(calls: map<nat, Call>, evicted: map<nat, nat>, history: Ledger, c: nat, p: Phase)
    requires CallInv(calls, evicted, history) && c in calls && Running(calls[c].phase)
    requires Signals(calls[c].phase) ==> Signals(p) || p.Failed?
    requires Truthful(calls[c].(phase := p), history)
    ensures CallInv(calls[c := calls[c].(phase := p)], evicted, history)
  {
  }

  lemma NewCall(calls: map<nat, Call>, evicted: map<nat, nat>, history: Ledger, c: nat, pos: Position)
    requires CallInv(calls, evicted, history) && c !in calls
    ensures CallInv(calls[c := Call(pos, Sizing)], evicted, history)
  {
  }

  /** Each entry of s' is a stored form of an entry of s. */
  ghost predicate DerivedFrom(s': seq<Entry>, s: seq<Entry>) {
    Ordered(s') && forall i :: 0 <= i < |s'| ==> Stored(s, s'[i].id) && exists k :: 0 <= k < |s| && SameFix(s[k], s'[i])
  }

  lemma ShrinkStore(s: seq<Entry>, s': seq<Entry>, history: Ledger, nextId: nat)
    requires StoreInv(s, history, nextId) && DerivedFrom(s', s)
    ensures StoreInv(s', history, nextId)
  {
  }

  lemma ShrinkLog(s: seq<Entry>, s': seq<Entry>, history: Ledger, flushed: seq<nat>)
    requires LogInv(s, history, flushed) && DerivedFrom(s', s)
    ensures LogInv(s', history, flushed)
  {
  }

  /** The closure of an in-flight chunk survives whatever compaction and eviction take away. */
  lemma ShrinkChunk(chunk: seq<Entry>, s: seq<Entry>, s': seq<Entry>, history: Ledger, flushed: seq<nat>)
    requires ChunkOk(chunk, s, history, flushed) && DerivedFrom(s', s)
    ensures ChunkOk(chunk, s', history, flushed)
  {
  }

  lemma ShrinkChunks(flushers: map<nat, Flusher>, s: seq<Entry>, s': seq<Entry>, history: Ledger, flushed: seq<nat>)
    requires ChunkInv(flushers, s, history, flushed) && DerivedFrom(s', s)
    ensures ChunkInv(flushers, s', history, flushed)
  {
    forall f | f in flushers && HasChunk(flushers[f].phase)
      ensures ChunkOk(flushers[f].phase.chunk, s', history, flushed)
    {
      ShrinkChunk(flushers[f].phase.chunk, s, s', history, flushed);
    }
  }

  lemma ShrinkAll(flushers: map<nat, Flusher>, s: seq<Entry>, s': seq<Entry>, history: Ledger, nextId: nat,
      flushed: seq<nat>)
    requires StoreInv(s, history, nextId) && LogInv(s, history, flushed) && ChunkInv(flushers, s, history, flushed)
    requires DerivedFrom(s', s)
    ensures StoreInv(s', history, nextId) && LogInv(s', history, flushed) && ChunkInv(flushers, s', history, flushed)
  {
    ShrinkStore(s, s', history, nextId);
    ShrinkLog(s, s', history, flushed);
    ShrinkChunks(flushers, s, s', history, flushed);
  }

  lemma CompactDerived(s: seq<Entry>, cutoff: int)
    requires Ordered(s)
    ensures DerivedFrom(Compact(s, cutoff), s)
  {
    var c := Compact(s, cutoff);
    CompactOrdered(s, cutoff);
    forall i | 0 <= i < |c| ensures Stored(s, c[i].id) && exists k :: 0 <= k < |s| && SameFix(s[k], c[i]) {
      assert c[i] in c;
      CompactOrigin(s, cutoff, c[i]);
    }
  }

  lemma WithoutDerived(s: seq<Entry>, ids: set<nat>)
    requires Ordered(s)
    ensures DerivedFrom(Without(s, ids), s)
  {
    var c := Without(s, ids);
    WithoutOrdered(s, ids);
    WithoutMembers(s, ids);
    forall i | 0 <= i < |c| ensures Stored(s, c[i].id) && exists k :: 0 <= k < |s| && SameFix(s[k], c[i]) {
      assert c[i] in c;
      var k :| 0 <= k < |s| && s[k] == c[i];
    }
  }

  lemma TailDerived(s: seq<Entry>)
    requires Ordered(s) && s != []
    ensures DerivedFrom(s[1..], s)
  {
    forall i | 0 <= i < |s[1..]|
      ensures Stored(s, s[1..][i].id) && exists k :: 0 <= k < |s| && SameFix(s[k], s[1..][i])
    {
      assert s[1..][i] == s[i + 1];
    }
  }

  // ----------------------------------------------- steps of an enqueue call

  lemma StepStartEnqueue(s: State, c: nat, pos: Position)
    requires Inv(s)
    ensures Inv(DoStartEnqueue(s, c, pos))
  {
    if c !in s.calls {
      NewCall(s.calls, s.evicted, s.history, c, pos);
    }
  }

  lemma StepReadSize(s: State, c: nat)
    requires Inv(s)
    ensures Inv(DoReadSize(s, c))
  {
    var s' := DoReadSize(s, c);
    if s' != s {
      MoveCall(s.calls, s.evicted, s.history, c, s'.calls[c].phase);
    }
  }

  lemma StepReadSizeAgain(s: State, c: nat)
    requires Inv(s)
    ensures Inv(DoReadSizeAgain(s, c))
  {
    var s' := DoReadSizeAgain(s, c);
    if s' != s {
      MoveCall(s.calls, s.evicted, s.history, c, s'.calls[c].phase);
    }
  }

  lemma StepFailCall(s: State, c: nat)
    requires Inv(s)
    ensures Inv(DoFailCall(s, c))
  {
    if c in s.calls && Running(s.calls[c].phase) {
      MoveCall(s.calls, s.evicted, s.history, c, Failed);
    }
  }

  lemma CompactAll(flushers: map<nat, Flusher>, s: seq<Entry>, cutoff: int, history: Ledger, nextId: nat,
      flushed: seq<nat>)
    requires StoreInv(s, history, nextId) && LogInv(s, history, flushed) && ChunkInv(flushers, s, history, flushed)
    ensures var s' := Compact(s, cutoff);
            StoreInv(s', history, nextId) && LogInv(s', history, flushed) && ChunkInv(flushers, s', history, flushed)
  {
    CompactDerived(s, cutoff);
    ShrinkAll(flushers, s, Compact(s, cutoff), history, nextId, flushed);
  }

  lemma StepCompact(s: State, c: nat, now: int)
    requires Inv(s)
    ensures Inv(DoCompact(s, c, now))
  {
    if c in s.calls && s.calls[c].phase.Compacting? {
      CompactAll(s.flushers, s.store, now - COMPACT_HORIZON_MS, s.history, s.nextId, s.flushed);
      MoveCall(s.calls, s.evicted, s.history, c, Resizing);
    }
  }

  lemma EvictCalls(calls: map<nat, Call>, evicted: map<nat, nat>, history: Ledger, c: nat, y: nat, size: nat)
    requires CallInv(calls, evicted, history) && c in calls && calls[c].phase.Evicting?
    ensures CallInv(calls[c := calls[c].(phase := Adding(size, true))], evicted[y := c], history)
  {
  }

  lemma StepEvict(s: State, c: nat)
    requires Inv(s)
    ensures Inv(DoEvict(s, c))
  {
    if c in s.calls && s.calls[c].phase.Evicting? {
      if s.store == [] {
        MoveCall(s.calls, s.evicted, s.history, c, Done(EnqueueResult(false, false, false), None));
      } else {
        var after := s.store[1..];
        TailDerived(s.store);
        ShrinkAll(s.flushers, s.store, after, s.history, s.nextId, s.flushed);
        EvictCalls(s.calls, s.evicted, s.history, c, s.store[0].id, s.calls[c].phase.size);
      }
    }
  }

  lemma InsertStore(s: seq<Entry>, history: Ledger, nextId: nat, e: Entry)
    requires StoreInv(s, history, nextId) && e.id == nextId
    ensures StoreInv(s + [e], history[nextId := e], nextId + 1)
  {
  }

  lemma InsertLog(s: seq<Entry>, history: Ledger, nextId: nat, e: Entry, flushed: seq<nat>)
    requires StoreInv(s, history, nextId) && LogInv(s, history, flushed) && e.id == nextId
    ensures LogInv(s + [e], history[nextId := e], flushed)
  {
  }

  lemma InsertChunks(flushers: map<nat, Flusher>, s: seq<Entry>, history: Ledger, nextId: nat, e: Entry,
      flushed: seq<nat>)
    requires StoreInv(s, history, nextId) && ChunkInv(flushers, s, history, flushed) && e.id == nextId
    ensures ChunkInv(flushers, s + [e], history[nextId := e], flushed)
  {
    forall f | f in flushers && HasChunk(flushers[f].phase)
      ensures ChunkOk(flushers[f].phase.chunk, s + [e], history[nextId := e], flushed)
    {
      assert ChunkOk(flushers[f].phase.chunk, s, history, flushed);
    }
  }

  lemma InsertCalls(calls: map<nat, Call>, evicted: map<nat, nat>, history: Ledger, nextId: nat, c: nat, e: Entry,
      near: bool)
    requires CallInv(calls, evicted, history) && nextId !in history
    requires c in calls && calls[c].phase.Adding? && e.pos == calls[c].pos
    ensures var done := Done(EnqueueResult(true, calls[c].phase.dropped, near), Some(nextId));
            CallInv(calls[c := calls[c].(phase := done)], evicted, history[nextId := e])
  {
  }

  lemma StepInsert(s: State, c: nat, now: int)
    requires Inv(s)
    ensures Inv(DoInsert(s, c, now))
  {
    if c in s.calls && s.calls[c].phase.Adding? {
      var e := Entry(s.nextId, s.calls[c].pos, now, false);
      InsertStore(s.store, s.history, s.nextId, e);
      InsertLog(s.store, s.history, s.nextId, e, s.flushed);
      InsertChunks(s.flushers, s.store, s.history, s.nextId, e, s.flushed);
      InsertCalls(s.calls, s.evicted, s.history, s.nextId, c, e, s.calls[c].phase.size + 1 >= QUEUE_WARN_SIZE);
    }
  }

  // ------------------------------------------------------ steps of a flush

  /** A flush moves on: the parts of the invariant that speak of its phase. */
  lemma MoveFlush(s: State, f: nat, p: FlushPhase)
    requires f in s.flushers && Busy(s.flushers[f].phase)
    requires LockInv(s.flushers, s.isFlushing) && PromiseInv(s.batches, s.flushers) && SentInv(s.batches, s.flushers)
    requires SentOk(s.flushers[f].(phase := p), s.batches)
    requires s.flushers[f].phase.Sending? ==> !Holding(s, s.flushers[f].phase.batch)
    ensures var flushers := s.flushers[f := s.flushers[f].(phase := p)];
            LockInv(flushers, Busy(p)) && PromiseInv(s.batches, flushers) && SentInv(s.batches, flushers)
  {
    var flushers := s.flushers[f := s.flushers[f].(phase := p)];
    assert Busy(p) ==> f in flushers && Busy(flushers[f].phase);
    forall b | b in s.batches ensures !Pending(s.batches[b]) {
      assert forall g :: g in s.flushers && Awaits(s.flushers[g], b) ==> g == f;
    }
  }

  predicate Holding(s: State, b: nat) {
    b in s.batches && Pending(s.batches[b])
  }

  lemma MoveChunk(flushers: map<nat, Flusher>, f: nat, p: FlushPhase, store: seq<Entry>, history: Ledger,
      flushed: seq<nat>)
    requires f in flushers && ChunkInv(flushers, store, history, flushed)
    requires HasChunk(p) ==> ChunkOk(p.chunk, store, history, flushed)
    ensures ChunkInv(flushers[f := flushers[f].(phase := p)], store, history, flushed)
  {
  }

  lemma StepStartFlush(s: State, f: nat, limit: Option<int>)
    requires Inv(s)
    ensures Inv(DoStartFlush(s, f, limit))
  {
    if f !in s.flushers {
      NewFlush(s, f, Flusher(limit, if s.isFlushing then Ended else Reading, []));
    }
  }

  lemma NewFlush(s: State, f: nat, fl: Flusher)
    requires f !in s.flushers && fl.sent == [] && fl.phase == (if s.isFlushing then Ended else Reading)
    requires LockInv(s.flushers, s.isFlushing) && PromiseInv(s.batches, s.flushers) && SentInv(s.batches, s.flushers)
    requires ChunkInv(s.flushers, s.store, s.history, s.flushed)
    ensures var flushers := s.flushers[f := fl];
            && LockInv(flushers, true) && PromiseInv(s.batches, flushers) && SentInv(s.batches, flushers)
            && ChunkInv(flushers, s.store, s.history, s.flushed)
  {
    var flushers := s.flushers[f := fl];
    if s.isFlushing {
      var g :| g in s.flushers && Busy(s.flushers[g].phase);
      assert g in flushers && Busy(flushers[g].phase);
    } else {
      assert f in flushers && Busy(flushers[f].phase);
    }
    forall b | b in s.batches && Pending(s.batches[b]) ensures exists g :: g in flushers && Awaits(flushers[g], b) {
      var g :| g in s.flushers && Awaits(s.flushers[g], b);
      assert Awaits(flushers[g], b);
    }
  }

  /** A chunk just read is the low end of the store. */
  lemma FreshChunk(store: seq<Entry>, limit: Option<int>, history: Ledger, nextId: nat, flushed: seq<nat>)
    requires StoreInv(store, history, nextId) && LogInv(store, history, flushed)
    requires Take(store, limit) != []
    ensures ChunkOk(Take(store, limit), store, history, flushed)
  {
    var chunk := Take(store, limit);
    forall i | 0 <= i < |store| && store[i].id <= chunk[|chunk| - 1].id ensures store[i].id in Ids(chunk) {
      assert i < |chunk|;
      assert chunk[i] == store[i];
    }
  }

  lemma StepReadChunk(s: State, f: nat)
    requires Inv(s)
    ensures Inv(DoReadChunk(s, f))
  {
    if f in s.flushers && s.flushers[f].phase.Reading? {
      var chunk := Take(s.store, s.flushers[f].limit);
      var p := if chunk == [] then Ended else Chunked(chunk);
      if chunk != [] {
        FreshChunk(s.store, s.flushers[f].limit, s.history, s.nextId, s.flushed);
      }
      assert SentOk(s.flushers[f], s.batches);
      MoveFlush(s, f, p);
      MoveChunk(s.flushers, f, p, s.store, s.history, s.flushed);
    }
  }

  /** Batches change without losing a chunk or a resolution. */
  lemma KeepSent(batches: map<nat, Batch>, batches': map<nat, Batch>, flushers: map<nat, Flusher>)
    requires SentInv(batches, flushers)
    requires forall b :: b in batches ==> b in batches' && batches'[b].chunk == batches[b].chunk
    requires forall b :: Resolved(batches, b) ==> Resolved(batches', b)
    ensures SentInv(batches', flushers)
  {
    forall f | f in flushers ensures SentOk(flushers[f], batches') {
      assert SentOk(flushers[f], batches);
    }
  }

  lemma EmitSent(flushers: map<nat, Flusher>, batches: map<nat, Batch>, f: nat, b: nat)
    requires f in flushers && flushers[f].phase.Chunked? && b !in batches
    requires SentInv(batches, flushers)
    ensures var fl := flushers[f];
            var chunk := fl.phase.chunk;
            SentInv(batches[b := Batch(chunk, true, true, true, [])],
                    flushers[f := fl.(phase := Sending(b, chunk), sent := fl.sent + [b])])
  {
    var fl := flushers[f];
    var batches' := batches[b := Batch(fl.phase.chunk, true, true, true, [])];
    assert SentOk(fl, batches);
    KeepSent(batches, batches', flushers);
    assert SentOk(fl, batches');
    assert SentOk(fl.(phase := Sending(b, fl.phase.chunk), sent := fl.sent + [b]), batches');
  }

  lemma EmitPromises(flushers: map<nat, Flusher>, batches: map<nat, Batch>, f: nat, b: nat)
    requires f in flushers && flushers[f].phase.Chunked? && b !in batches
    requires PromiseInv(batches, flushers)
    ensures var fl := flushers[f];
            var chunk := fl.phase.chunk;
            PromiseInv(batches[b := Batch(chunk, true, true, true, [])],
                       flushers[f := fl.(phase := Sending(b, chunk), sent := fl.sent + [b])])
  {
    var fl := flushers[f];
    var batches' := batches[b := Batch(fl.phase.chunk, true, true, true, [])];
    var flushers' := flushers[f := fl.(phase := Sending(b, fl.phase.chunk), sent := fl.sent + [b])];
    assert f in flushers' && Awaits(flushers'[f], b);
    forall x | x in batches' && Pending(batches'[x]) ensures exists g :: g in flushers' && Awaits(flushers'[g], x) {
      if x != b {
        var g :| g in flushers && Awaits(flushers[g], x);
        assert g in flushers' && Awaits(flushers'[g], x);
      }
    }
  }

  lemma EmitLock(flushers: map<nat, Flusher>, isFlushing: bool, f: nat, fl: Flusher)
    requires f in flushers && Busy(flushers[f].phase) && Busy(fl.phase)
    requires LockInv(flushers, isFlushing)
    ensures LockInv(flushers[f := fl], isFlushing)
  {
    assert f in flushers[f := fl] && Busy(flushers[f := fl][f].phase);
  }

  lemma EmitFlush(s: State, f: nat, b: nat)
    requires f in s.flushers && s.flushers[f].phase.Chunked? && b !in s.batches
    requires LockInv(s.flushers, s.isFlushing) && PromiseInv(s.batches, s.flushers) && SentInv(s.batches, s.flushers)
    requires ChunkInv(s.flushers, s.store, s.history, s.flushed)
    ensures var s' := DoEmit(s, f, b);
            && LockInv(s'.flushers, s'.isFlushing) && PromiseInv(s'.batches, s'.flushers) &&
                 SentInv(s'.batches, s'.flushers)
            && ChunkInv(s'.flushers, s.store, s.history, s.flushed)
  {
    EmitSent(s.flushers, s.batches, f, b);
    EmitPromises(s.flushers, s.batches, f, b);
    EmitLock(s.flushers, s.isFlushing, f, DoEmit(s, f, b).flushers[f]);
  }

  lemma EmitReplies(replies: set<Reply>, batches: map<nat, Batch>, answered: set<nat>, flushed: seq<nat>, b: nat,
      x: Batch)
    requires ReplyInv(replies, batches, answered) && AckInv(batches, flushed, answered)
    requires b !in batches && x.outcomes == []
    ensures ReplyInv(replies, batches[b := x], answered) && AckInv(batches[b := x], flushed, answered)
  {
    assert forall y :: Resolved(batches[b := x], y) ==> Resolved(batches, y);
  }

  lemma StepEmit(s: State, f: nat, b: nat)
    requires Inv(s)
    ensures Inv(DoEmit(s, f, b))
  {
    if f in s.flushers && s.flushers[f].phase.Chunked? && b !in s.batches {
      EmitFlush(s, f, b);
      EmitReplies(s.replies, s.batches, AnsweredIds(s), s.flushed, b,
        Batch(s.flushers[f].phase.chunk, true, true, true, []));
    }
  }

  lemma StepResume(s: State, f: nat)
    requires Inv(s)
    ensures Inv(DoResume(s, f))
  {
    if f in s.flushers && s.flushers[f].phase.Sending? {
      var b, chunk := s.flushers[f].phase.batch, s.flushers[f].phase.chunk;
      assert SentOk(s.flushers[f], s.batches);
      if s.batches[b].outcomes != [] {
        assert Disarmed(s.batches[b]);
        var p := if s.batches[b].outcomes[0] then Deleting(b, chunk) else Ended;
        MoveFlush(s, f, p);
        MoveChunk(s.flushers, f, p, s.store, s.history, s.flushed);
      }
    }
  }

  /** The log grows by the ids of a chunk that is newer than all of it. */
  lemma LogGrows(chunk: seq<Entry>, flushed: seq<nat>)
    requires chunk != [] && Ordered(chunk) && Increasing(flushed) && After(flushed, chunk[0].id)
    ensures Increasing(flushed + IdSeq(chunk))
  {
    var flushed' := flushed + IdSeq(chunk);
    forall i, j | 0 <= i < j < |flushed'| ensures flushed'[i] < flushed'[j] {
      if i < |flushed| <= j {
        assert flushed'[i] <= flushed[|flushed| - 1] < chunk[0].id <= flushed'[j];
      }
    }
  }

  /** After deleting a downward closed chunk, everything left in the store is newer than it. */
  lemma LeftIsNewer(store: seq<Entry>, chunk: seq<Entry>, flushed: seq<nat>)
    requires chunk != [] && DownwardClosed(chunk, store)
    ensures var store' := Without(store, Ids(chunk));
            forall i :: 0 <= i < |store'| ==> After(flushed + IdSeq(chunk), store'[i].id)
  {
    var store', flushed' := Without(store, Ids(chunk)), flushed + IdSeq(chunk);
    WithoutMembers(store, Ids(chunk));
    hide Without;
    assert flushed'[|flushed'| - 1] == chunk[|chunk| - 1].id;
    forall i | 0 <= i < |store'| ensures After(flushed', store'[i].id) {
      assert store'[i] in store';
      var k :| 0 <= k < |store| && store[k] == store'[i];
    }
  }

  /** The deletion of an acknowledged chunk keeps the store and the log in order. */
  lemma DeleteLog(store: seq<Entry>, chunk: seq<Entry>, history: Ledger, nextId: nat, flushed: seq<nat>)
    requires StoreInv(store, history, nextId) && LogInv(store, history, flushed)
    requires ChunkOk(chunk, store, history, flushed)
    ensures var store' := Without(store, Ids(chunk));
            StoreInv(store', history, nextId) && LogInv(store', history, flushed + IdSeq(chunk))
  {
    WithoutDerived(store, Ids(chunk));
    ShrinkStore(store, Without(store, Ids(chunk)), history, nextId);
    LeftIsNewer(store, chunk, flushed);
    LogGrows(chunk, flushed);
    hide StoreInv, Without, DownwardClosed, Ordered, Increasing, After, Ids;
  }

  lemma DeleteChunks(flushers: map<nat, Flusher>, isFlushing: bool, f: nat, store: seq<Entry>, history: Ledger,
      flushed: seq<nat>)
    requires LockInv(flushers, isFlushing) && f in flushers && Busy(flushers[f].phase)
    ensures ChunkInv(flushers[f := flushers[f].(phase := Reading)], store, history, flushed)
  {
    assert forall g :: g in flushers && HasChunk(flushers[g].phase) ==> g == f;
  }

  lemma DeleteAcks(batches: map<nat, Batch>, flushed: seq<nat>, answered: set<nat>, chunk: seq<Entry>)
    requires AckInv(batches, flushed, answered) && Ids(chunk) <= answered
    ensures AckInv(batches, flushed + IdSeq(chunk), answered)
  {
    var flushed' := flushed + IdSeq(chunk);
    forall i | 0 <= i < |flushed'| ensures flushed'[i] in answered {
      if i >= |flushed| {
        assert flushed'[i] == chunk[i - |flushed|].id;
      }
    }
  }

  lemma StepDeleteChunk(s: State, f: nat)
    requires Inv(s)
    ensures Inv(DoDeleteChunk(s, f))
  {
    if f in s.flushers && s.flushers[f].phase.Deleting? {
      var b, chunk := s.flushers[f].phase.batch, s.flushers[f].phase.chunk;
      assert SentOk(s.flushers[f], s.batches);
      assert Ids(chunk) <= AnsweredIds(s);
      DeleteLog(s.store, chunk, s.history, s.nextId, s.flushed);
      DeleteChunks(s.flushers, s.isFlushing, f, Without(s.store, Ids(chunk)), s.history, s.flushed + IdSeq(chunk));
      DeleteAcks(s.batches, s.flushed, AnsweredIds(s), chunk);
      MoveFlush(s, f, Reading);
    }
  }

  lemma StepFailFlush(s: State, f: nat)
    requires Inv(s)
    ensures Inv(DoFailFlush(s, f))
  {
    if f in s.flushers && (s.flushers[f].phase.Reading? || s.flushers[f].phase.Deleting?) {
      assert SentOk(s.flushers[f], s.batches);
      MoveFlush(s, f, Ended);
      MoveChunk(s.flushers, f, Ended, s.store, s.history, s.flushed);
    }
  }

  // ------------------------------------------- the server and the network

  lemma GrowAnswers(replies: set<Reply>, batches: map<nat, Batch>, flushed: seq<nat>, answered: set<nat>,
      more: set<nat>)
    requires ReplyInv(replies, batches, answered) && AckInv(batches, flushed, answered) && answered <= more
    ensures ReplyInv(replies, batches, more) && AckInv(batches, flushed, more)
  {
  }

  lemma StepServerSave(s: State, b: nat, invalid: set<nat>)
    requires Inv(s)
    ensures Inv(DoServerSave(s, b, invalid))
  {
    if b in s.batches {
      var s' := DoServerSave(s, b, invalid);
      GrowAnswers(s.replies, s.batches, s.flushed, AnsweredIds(s), AnsweredIds(s'));
      assert Ids(s.batches[b].chunk) <= AnsweredIds(s');
    }
  }

  lemma StepServerReject(s: State, b: nat)
    requires Inv(s)
    ensures Inv(DoServerReject(s, b))
  {
  }

  /** Hearing an answer, or timing out: batches move from pending to settled, and only so. */
  lemma SettleBatches(s: State, batches': map<nat, Batch>)
    requires PromiseInv(s.batches, s.flushers) && SentInv(s.batches, s.flushers)
    requires ReplyInv(s.replies, s.batches, AnsweredIds(s)) && AckInv(s.batches, s.flushed, AnsweredIds(s))
    requires batches'.Keys == s.batches.Keys
    requires forall b :: b in s.batches ==>
               batches'[b] == s.batches[b] || SettledBy(s.batches[b], batches'[b], false) ||
               (SettledBy(s.batches[b], batches'[b], true) && Saved(Some(b)) in s.replies)
    ensures PromiseInv(batches', s.flushers) && SentInv(batches', s.flushers)
    ensures ReplyInv(s.replies, batches', AnsweredIds(s)) && AckInv(batches', s.flushed, AnsweredIds(s))
  {
    hide SentInv, Ids;
    assert forall b :: Resolved(s.batches, b) ==> Resolved(batches', b);
    KeepSent(s.batches, batches', s.flushers);
  }

  predicate SettledBy(x: Batch, x': Batch, ok: bool) {
    Pending(x) && x' == Batch(x.chunk, false, false, false, [ok])
  }

  lemma HearOne(x: Batch, b: nat, r: Reply)
    requires Pending(x) || Disarmed(x)
    ensures Hear(x, b, r) == x || (SettledBy(x, Hear(x, b, r), r.Saved?) && r.tag in {None, Some(b)})
  {
  }

  lemma StepDeliver(s: State, r: Reply)
    requires Inv(s)
    ensures Inv(DoDeliver(s, r))
  {
    if r in s.replies {
      var batches' := DoDeliver(s, r).batches;
      forall b | b in s.batches
        ensures batches'[b] == s.batches[b] ||
                (SettledBy(s.batches[b], batches'[b], r.Saved?) && (r.Saved? ==> r == Saved(Some(b))))
      {
        HearOne(s.batches[b], b, r);
      }
      SettleBatches(s, batches');
    }
  }

  lemma StepTimeout(s: State, b: nat)
    requires Inv(s)
    ensures Inv(DoTimeout(s, b))
  {
    if b in s.batches && s.batches[b].timer {
      var batches' := DoTimeout(s, b).batches;
      assert Pending(s.batches[b]);
      assert SettledBy(s.batches[b], batches'[b], false);
      SettleBatches(s, batches');
    }
  }

  // ------------------------------------------------------------- whole runs

  lemma CallStepKeepsInv(s: State, c: nat, step: CallStep)
    requires Inv(s)
    ensures Inv(ApplyCall(s, c, step))
  {
    match step
    case Start(pos) => StepStartEnqueue(s, c, pos);
    case ReadSize => StepReadSize(s, c);
    case CompactStore(now) => StepCompact(s, c, now);
    case ReadSizeAgain => StepReadSizeAgain(s, c);
    case EvictOldest => StepEvict(s, c);
    case Insert(now) => StepInsert(s, c, now);
    case FailCall => StepFailCall(s, c);
  }

  lemma FlushStepKeepsInv(s: State, f: nat, step: FlushStep)
    requires Inv(s)
    ensures Inv(ApplyFlush(s, f, step))
  {
    match step
    case Begin(limit) => StepStartFlush(s, f, limit);
    case ReadChunk => StepReadChunk(s, f);
    case Emit(b) => StepEmit(s, f, b);
    case Resume => StepResume(s, f);
    case DeleteChunk => StepDeleteChunk(s, f);
    case Abort => StepFailFlush(s, f);
  }

  lemma NetStepKeepsInv(s: State, step: NetStep)
    requires Inv(s)
    ensures Inv(ApplyNet(s, step))
  {
    match step
    case ServerSave(b, invalid) => StepServerSave(s, b, invalid);
    case ServerSaveUntagged(b, invalid) =>
    case ServerReject(b) => StepServerReject(s, b);
    case Deliver(r) => StepDeliver(s, r);
    case Timeout(b) => StepTimeout(s, b);
  }

  /** Every step, of every call, flush and server, keeps the invariant. */
  lemma StepKeepsInv(s: State, ev: Event)
    requires Inv(s)
    ensures Inv(Apply(s, ev))
  {
    match ev
    case OfCall(c, step) => CallStepKeepsInv(s, c, step);
    case OfFlush(f, step) => FlushStepKeepsInv(s, f, step);
    case OfNet(step) => NetStepKeepsInv(s, step);
  }

  lemma {:induction false} RunKeepsInv(evs: seq<Event>)
    ensures Inv(Run(Init(true), evs))
  {
    if evs == [] {
      InitHolds();
    } else {
      RunKeepsInv(evs[..|evs| - 1]);
      StepKeepsInv(Run(Init(true), evs[..|evs| - 1]), evs[|evs| - 1]);
    }
  }
}
