/** What the offline pipeline guarantees over every run. */
module QueueTheorems {
  import opened Wrappers
  import opened PositionStore
  import opened QueueProtocol
  import opened QueueSafety

  // --------------------------------------------------- what each kind of step leaves alone

  /** No id is stored that was not. */
  ghost predicate Shrinks(store: seq<Entry>, store': seq<Entry>) {
    forall id :: Stored(store', id) ==> Stored(store, id)
  }

  ghost predicate FlushLeaves(s: State, s': State, f: nat) {
    && s'.calls == s.calls && s'.evicted == s.evicted && s'.nextId == s.nextId
    && |s'.store| <= |s.store| && Shrinks(s.store, s'.store)
    && (forall g :: g in s.flushers && (g != f || s.flushers[g].phase.Ended?) ==>
          g in s'.flushers && s'.flushers[g] == s.flushers[g])
    && (forall b :: b in s.batches ==> b in s'.batches && s'.batches[b] == s.batches[b])
  }

  lemma BeginFrame(s: State, f: nat, limit: Option<int>)
    ensures FlushLeaves(s, DoStartFlush(s, f, limit), f)
  {
  }

  /** A flush that moves to another phase, keeping or releasing the lock. */
  lemma MoveLeaves(s: State, f: nat, p: FlushPhase, lock: bool)
    requires f in s.flushers && Busy(s.flushers[f].phase)
    ensures FlushLeaves(s, SetFlush(s, f, p).(isFlushing := lock), f)
  {
    hide Stored;
  }

  lemma NothingLeaves(s: State, f: nat)
    ensures FlushLeaves(s, s, f)
  {
    hide Stored;
  }

  lemma ResumeFrame(s: State, f: nat)
    ensures FlushLeaves(s, DoResume(s, f), f)
  {
    hide FlushLeaves;
    NothingLeaves(s, f);
    if f in s.flushers && s.flushers[f].phase.Sending? {
      MoveLeaves(s, f, Ended, false);
      MoveLeaves(s, f, Deleting(s.flushers[f].phase.batch, s.flushers[f].phase.chunk), s.isFlushing);
    }
  }

  lemma AbortFrame(s: State, f: nat)
    ensures FlushLeaves(s, DoFailFlush(s, f), f)
  {
    hide FlushLeaves;
    NothingLeaves(s, f);
    if f in s.flushers && Busy(s.flushers[f].phase) {
      MoveLeaves(s, f, Ended, false);
    }
  }

  lemma ReadFrame(s: State, f: nat)
    ensures FlushLeaves(s, DoReadChunk(s, f), f)
  {
    hide FlushLeaves, Take;
    NothingLeaves(s, f);
    if f in s.flushers && s.flushers[f].phase.Reading? {
      MoveLeaves(s, f, Ended, false);
      MoveLeaves(s, f, Chunked(Take(s.store, s.flushers[f].limit)), s.isFlushing);
    }
  }

  lemma EmitFrame(s: State, f: nat, b: nat)
    ensures FlushLeaves(s, DoEmit(s, f, b), f)
  {
  }

  lemma WithoutShrinks(store: seq<Entry>, ids: set<nat>)
    ensures Shrinks(store, Without(store, ids))
  {
    var store' := Without(store, ids);
    WithoutMembers(store, ids);
    forall id | Stored(store', id) ensures Stored(store, id) {
      var i :| 0 <= i < |store'| && store'[i].id == id;
      assert store'[i] in store;
    }
  }

  lemma CompactShrinksIds(store: seq<Entry>, cutoff: int)
    ensures Shrinks(store, Compact(store, cutoff))
  {
    var store' := Compact(store, cutoff);
    forall id | Stored(store', id) ensures Stored(store, id) {
      var i :| 0 <= i < |store'| && store'[i].id == id;
      CompactOrigin(store, cutoff, store'[i]);
    }
  }

  lemma DeleteFrame(s: State, f: nat)
    ensures FlushLeaves(s, DoDeleteChunk(s, f), f)
  {
    if f in s.flushers && s.flushers[f].phase.Deleting? {
      WithoutShrinks(s.store, Ids(s.flushers[f].phase.chunk));
    }
  }

  /** A flush step touches no call, no other flush and no settled promise, and never adds to the store. */
  lemma FlushFrame(s: State, f: nat, step: FlushStep)
    ensures FlushLeaves(s, ApplyFlush(s, f, step), f)
  {
    match step
    case Begin(limit) => BeginFrame(s, f, limit);
    case ReadChunk => ReadFrame(s, f);
    case Emit(b) => EmitFrame(s, f, b);
    case Resume => ResumeFrame(s, f);
    case DeleteChunk => DeleteFrame(s, f);
    case Abort => AbortFrame(s, f);
  }

  ghost predicate NetLeaves(s: State, s': State) {
    && s'.calls == s.calls && s'.evicted == s.evicted && s'.nextId == s.nextId
    && s'.store == s.store && s'.flushers == s.flushers
    && (forall b :: b in s.batches && Disarmed(s.batches[b]) ==> b in s'.batches && s'.batches[b] == s.batches[b])
  }

  lemma ServerFrame(s: State, b: nat, invalid: set<nat>)
    ensures NetLeaves(s, DoServerSave(s, b, invalid)) && NetLeaves(s, DoServerSaveUntagged(s, b, invalid))
    ensures NetLeaves(s, DoServerReject(s, b))
  {
    hide Ids, Disarmed;
  }

  lemma DeliverFrame(s: State, r: Reply)
    ensures NetLeaves(s, DoDeliver(s, r))
  {
  }

  lemma TimeoutFrame(s: State, b: nat)
    ensures NetLeaves(s, DoTimeout(s, b))
  {
  }

  /** The server and the network touch neither the store nor a call nor a flush, nor a settled promise. */
  lemma NetFrame(s: State, step: NetStep)
    ensures NetLeaves(s, ApplyNet(s, step))
  {
    hide NetLeaves;
    match step
    case ServerSave(b, invalid) => ServerFrame(s, b, invalid);
    case ServerSaveUntagged(b, invalid) => ServerFrame(s, b, invalid);
    case ServerReject(b) => ServerFrame(s, b, {});
    case Deliver(r) => DeliverFrame(s, r);
    case Timeout(b) => TimeoutFrame(s, b);
  }

  ghost predicate CallLeaves(s: State, s': State, c: nat, fails: bool) {
    && s'.flushers == s.flushers && s'.batches == s.batches
    && (forall d :: d in s.calls ==> d in s'.calls && s'.calls[d].pos == s.calls[d].pos)
    && (forall d :: d in s.calls && d != c ==> s'.calls[d] == s.calls[d])
    && (forall d :: d in s'.calls ==>
          (d in s.calls && s'.calls[d] == s.calls[d]) || (d == c && (fails || !s'.calls[d].phase.Failed?)))
  }

  lemma StartFrame(s: State, c: nat, pos: Position)
    ensures CallLeaves(s, DoStartEnqueue(s, c, pos), c, false)
  {
  }

  lemma SizeFrame(s: State, c: nat)
    ensures CallLeaves(s, DoReadSize(s, c), c, false)
  {
  }

  lemma SizeAgainFrame(s: State, c: nat)
    ensures CallLeaves(s, DoReadSizeAgain(s, c), c, false)
  {
  }

  lemma FailFrame(s: State, c: nat)
    ensures CallLeaves(s, DoFailCall(s, c), c, true)
  {
  }

  lemma CompactFrame(s: State, c: nat, now: int)
    ensures CallLeaves(s, DoCompact(s, c, now), c, false)
  {
    hide CallLeaves, Compact;
    if c in s.calls && s.calls[c].phase.Compacting? {
      PhaseLeaves(s, DoCompact(s, c, now), c, Resizing);
    } else {
      CallUnmoved(s, c);
    }
  }

  lemma PhaseLeaves(s: State, s': State, c: nat, p: Phase)
    requires c in s.calls && s'.calls == s.calls[c := s.calls[c].(phase := p)]
    requires s'.flushers == s.flushers && s'.batches == s.batches
    ensures CallLeaves(s, s', c, p.Failed?)
  {
  }

  lemma CallUnmoved(s: State, c: nat)
    ensures CallLeaves(s, s, c, false)
  {
  }

  lemma EvictFrame(s: State, c: nat)
    ensures CallLeaves(s, DoEvict(s, c), c, false)
  {
    hide CallLeaves;
    if c in s.calls && s.calls[c].phase.Evicting? {
      if s.store == [] {
        PhaseLeaves(s, DoEvict(s, c), c, Done(EnqueueResult(false, false, false), None));
      } else {
        PhaseLeaves(s, DoEvict(s, c), c, Adding(s.calls[c].phase.size, true));
      }
    } else {
      CallUnmoved(s, c);
    }
  }

  lemma InsertFrame(s: State, c: nat, now: int)
    ensures CallLeaves(s, DoInsert(s, c, now), c, false)
  {
    hide CallLeaves;
    if c in s.calls && s.calls[c].phase.Adding? {
      PhaseLeaves(s, DoInsert(s, c, now), c, DoInsert(s, c, now).calls[c].phase);
    } else {
      CallUnmoved(s, c);
    }
  }

  /** A call step touches no other call, no flush and no promise, and fails only its own call. */
  lemma CallFrame(s: State, c: nat, step: CallStep)
    ensures CallLeaves(s, ApplyCall(s, c, step), c, step.FailCall?)
  {
    match step
    case Start(pos) => StartFrame(s, c, pos);
    case ReadSize => SizeFrame(s, c);
    case CompactStore(now) => CompactFrame(s, c, now);
    case ReadSizeAgain => SizeAgainFrame(s, c);
    case EvictOldest => EvictFrame(s, c);
    case Insert(now) => InsertFrame(s, c, now);
    case FailCall => FailFrame(s, c);
  }

  lemma Frame(s: State, ev: Event)
    ensures ev.OfCall? ==> Apply(s, ev) == ApplyCall(s, ev.c, ev.call)
    ensures !ev.OfCall? ==>
              && Apply(s, ev).calls == s.calls && Apply(s, ev).evicted == s.evicted && Apply(s, ev).nextId == s.nextId
              && |Apply(s, ev).store| <= |s.store| && Shrinks(s.store, Apply(s, ev).store)
    ensures forall f :: f in s.flushers && s.flushers[f].phase.Ended? ==>
              f in Apply(s, ev).flushers && Apply(s, ev).flushers[f] == s.flushers[f]
    ensures forall b :: b in s.batches && Disarmed(s.batches[b]) ==>
              b in Apply(s, ev).batches && Apply(s, ev).batches[b] == s.batches[b]
  {
    match ev
    case OfCall(c, step) => CallFrame(s, c, step);
    case OfFlush(f, step) => FlushFrame(s, f, step);
    case OfNet(step) => NetFrame(s, step);
  }

  // ---------------------------------------------------------------- flushing

  /** What a flush deletes was answered by the server: saved, or reported as invalid. */
  lemma {:induction false} FlushedWasAnswered(evs: seq<Event>)
    ensures var s := Run(Init(true), evs);
            forall i :: 0 <= i < |s.flushed| ==> s.flushed[i] in s.persisted || s.flushed[i] in s.refused
  {
    RunKeepsInv(evs);
  }

  /**
   Each batch promise is either awaiting its answer with both listeners and its timer armed and
   one flush waiting for it, or settled once with nothing armed.
   */
  lemma {:induction false} PromisesLeaveNothing(evs: seq<Event>, b: nat)
    ensures var s := Run(Init(true), evs);
            b in s.batches ==>
              || (Pending(s.batches[b]) && exists f :: f in s.flushers && Awaits(s.flushers[f], b))
              || Disarmed(s.batches[b])
  {
    RunKeepsInv(evs);
  }

  lemma RunAppend(s0: State, evs: seq<Event>, more: seq<Event>)
    requires more != []
    ensures Run(s0, evs + more) == Apply(Run(s0, evs + more[..|more| - 1]), more[|more| - 1])
  {
    assert (evs + more)[..|evs + more| - 1] == evs + more[..|more| - 1];
  }

  /** A settled promise never changes again, whatever late answer or timer comes. */
  lemma {:induction false} SettledForGood(evs: seq<Event>, more: seq<Event>, b: nat)
    ensures var s, s' := Run(Init(true), evs), Run(Init(true), evs + more);
            b in s.batches && Disarmed(s.batches[b]) ==> b in s'.batches && s'.batches[b] == s.batches[b]
  {
    hide Apply, Disarmed;
    if more == [] {
      assert evs + more == evs;
    } else {
      SettledForGood(evs, more[..|more| - 1], b);
      RunAppend(Init(true), evs, more);
      Frame(Run(Init(true), evs + more[..|more| - 1]), more[|more| - 1]);
    }
  }

  /**
   Flushes remove positions oldest first: the ids they delete increase over the whole run, and
   everything still stored is newer than anything flushed.
   */
  lemma {:induction false} FlushesAreFifo(evs: seq<Event>)
    ensures var s := Run(Init(true), evs);
            && (forall i, j :: 0 <= i < j < |s.flushed| ==> s.flushed[i] < s.flushed[j])
            && (forall i, j :: 0 <= i < |s.flushed| && 0 <= j < |s.store| ==> s.flushed[i] < s.store[j].id)
  {
    var s := Run(Init(true), evs);
    RunKeepsInv(evs);
    forall i, j | 0 <= i < |s.flushed| && 0 <= j < |s.store| ensures s.flushed[i] < s.store[j].id {
      assert s.flushed[i] <= s.flushed[|s.flushed| - 1];
      assert After(s.flushed, s.store[j].id);
    }
  }

  /** Whatever enqueues, compactions and evictions do meanwhile, a chunk in flight is the low end of the store. */
  lemma {:induction false} InFlightIsDownwardClosed(evs: seq<Event>, f: nat)
    ensures var s := Run(Init(true), evs);
            f in s.flushers && HasChunk(s.flushers[f].phase) ==>
              var chunk := s.flushers[f].phase.chunk;
              chunk != [] &&
              forall i :: 0 <= i < |s.store| && s.store[i].id <= chunk[|chunk| - 1].id ==> Stored(chunk, s.store[i].id)
  {
    var s := Run(Init(true), evs);
    RunKeepsInv(evs);
    if f in s.flushers && HasChunk(s.flushers[f].phase) {
      var chunk := s.flushers[f].phase.chunk;
      assert ChunkOk(chunk, s.store, s.history, s.flushed);
    }
  }

  /** Two flushes never overlap, and the lock is free exactly when none is running. */
  lemma {:induction false} FlushesNeverOverlap(evs: seq<Event>)
    ensures var s := Run(Init(true), evs);
            && (forall f, g :: f in s.flushers && g in s.flushers && f != g ==>
                  !(Busy(s.flushers[f].phase) && Busy(s.flushers[g].phase)))
            && (s.isFlushing <==> exists f :: f in s.flushers && Busy(s.flushers[f].phase))
  {
    RunKeepsInv(evs);
  }

  /** Nothing is sent after a failure: of the batches one flush sent, all but the last resolved. */
  lemma {:induction false} NothingSentAfterFailure(evs: seq<Event>, f: nat)
    ensures var s := Run(Init(true), evs);
            f in s.flushers ==>
              forall i :: 0 <= i < |s.flushers[f].sent| - 1 ==> Resolved(s.batches, s.flushers[f].sent[i])
  {
    var s := Run(Init(true), evs);
    RunKeepsInv(evs);
    if f in s.flushers {
      assert SentOk(s.flushers[f], s.batches);
    }
  }

  /** A flush that ended stays ended: it sends and deletes nothing more. */
  lemma {:induction false} EndedForGood(evs: seq<Event>, more: seq<Event>, f: nat)
    ensures var s, s' := Run(Init(true), evs), Run(Init(true), evs + more);
            f in s.flushers && s.flushers[f].phase.Ended? ==> f in s'.flushers && s'.flushers[f] == s.flushers[f]
  {
    hide Apply;
    if more == [] {
      assert evs + more == evs;
    } else {
      EndedForGood(evs, more[..|more| - 1], f);
      RunAppend(Init(true), evs, more);
      Frame(Run(Init(true), evs + more[..|more| - 1]), more[|more| - 1]);
    }
  }

  // ------------------------------------------------------------------- quota

  function RunningCalls(calls: map<nat, Call>): set<nat> {
    set c | c in calls && Running(calls[c].phase)
  }

  function AddingCalls(calls: map<nat, Call>): set<nat> {
    set c | c in calls && calls[c].phase.Adding?
  }

  /** The largest number of enqueue calls in progress at any moment of the run. */
  function Overlap(s0: State, evs: seq<Event>): nat {
    var now := |RunningCalls(Run(s0, evs).calls)|;
    if evs == [] then now
    else
      var before := Overlap(s0, evs[..|evs| - 1]);
      if now > before then now else before
  }

  lemma SubsetSize(a: set<nat>, b: set<nat>)
    requires a <= b
    ensures |a| <= |b|
  {
    assert b == a + (b - a);
  }

  lemma AddingMoves(calls: map<nat, Call>, c: nat, p: Phase)
    requires c in calls
    ensures var a := AddingCalls(calls);
            AddingCalls(calls[c := calls[c].(phase := p)]) == if p.Adding? then a + {c} else a - {c}
  {
  }

  lemma QuotaReadSize(s: State, c: nat, again: bool)
    ensures var s' := if again then DoReadSizeAgain(s, c) else DoReadSize(s, c);
            s'.store == s.store && (AddingCalls(s'.calls) == AddingCalls(s.calls) || |s.store| <= QUEUE_MAX_SIZE - 1)
  {
    var s' := if again then DoReadSizeAgain(s, c) else DoReadSize(s, c);
    if s' != s {
      AddingMoves(s.calls, c, s'.calls[c].phase);
    }
  }

  lemma QuotaEvict(s: State, c: nat)
    ensures var s' := DoEvict(s, c);
            |s'.store| + |AddingCalls(s'.calls)| == |s.store| + |AddingCalls(s.calls)|
  {
    if c in s.calls && s.calls[c].phase.Evicting? {
      assert c !in AddingCalls(s.calls);
      hide AddingCalls;
      if s.store == [] {
        AddingMoves(s.calls, c, Done(EnqueueResult(false, false, false), None));
      } else {
        AddingMoves(s.calls, c, Adding(s.calls[c].phase.size, true));
      }
    }
  }

  lemma QuotaInsert(s: State, c: nat, now: int)
    ensures var s' := DoInsert(s, c, now);
            |s'.store| + |AddingCalls(s'.calls)| == |s.store| + |AddingCalls(s.calls)|
  {
    var s' := DoInsert(s, c, now);
    if s' != s {
      AddingMoves(s.calls, c, s'.calls[c].phase);
      assert c in AddingCalls(s.calls);
    }
  }

  lemma QuotaOtherCall(s: State, c: nat, step: CallStep)
    requires step.Start? || step.CompactStore? || step.FailCall?
    ensures var s' := ApplyCall(s, c, step);
            |s'.store| <= |s.store| && AddingCalls(s'.calls) <= AddingCalls(s.calls)
  {
  }

  /** A step raises the stored count plus the pending insertions only when there was room. */
  lemma QuotaStep(s: State, ev: Event)
    ensures var s' := Apply(s, ev);
            |s'.store| + |AddingCalls(s'.calls)| <= |s.store| + |AddingCalls(s.calls)| ||
            |s'.store| <= QUEUE_MAX_SIZE - 1
  {
    if ev.OfCall? {
      match ev.call
      case EvictOldest => QuotaEvict(s, ev.c);
      case Insert(now) => QuotaInsert(s, ev.c, now);
      case ReadSize => QuotaReadSize(s, ev.c, false);
      case ReadSizeAgain => QuotaReadSize(s, ev.c, true);
      case _ =>
        QuotaOtherCall(s, ev.c, ev.call);
        SubsetSize(AddingCalls(Apply(s, ev).calls), AddingCalls(s.calls));
    } else {
      Frame(s, ev);
    }
  }

  /** With at most K enqueues overlapping, the store never exceeds the quota by more than K - 1. */
  lemma {:induction false} QuotaUnderConcurrency(tagged: bool, evs: seq<Event>)
    ensures var s := Run(Init(tagged), evs);
            |s.store| + |AddingCalls(s.calls)| <= QUEUE_MAX_SIZE - 1 + Overlap(Init(tagged), evs)
  {
    if evs != [] {
      var before, last := evs[..|evs| - 1], evs[|evs| - 1];
      QuotaUnderConcurrency(tagged, before);
      QuotaStep(Run(Init(tagged), before), last);
      var s := Run(Init(tagged), evs);
      SubsetSize(AddingCalls(s.calls), RunningCalls(s.calls));
    } else {
      assert AddingCalls(Init(tagged).calls) == {};
    }
  }

  /** Calls that never overlap keep the exact quota. */
  lemma {:induction false} QuotaWhenSequential(tagged: bool, evs: seq<Event>)
    requires Overlap(Init(tagged), evs) <= 1
    ensures |Run(Init(tagged), evs).store| <= QUEUE_MAX_SIZE
  {
    QuotaUnderConcurrency(tagged, evs);
  }
}
