/** One round of a flush, from its start to the deletion of its chunk or to its end without one. */
module QueueRounds {
  import opened Wrappers
  import opened PositionStore
  import opened QueueProtocol
  import opened QueueSafety
  import opened QueueProgress

  /** The entries the first chunk of a flush takes: as many as its limit allows, or all. */
  function ChunkSize(stored: nat, limit: Option<int>): nat {
    if limit.None? || limit.value > stored then stored else if limit.value < 0 then 0 else limit.value
  }

  /** A flush reads, sends, is answered and deletes. */
  function GoodRound(f: nat, b: nat, invalid: set<nat>): seq<Event> {
    [OfFlush(f, ReadChunk), OfFlush(f, Emit(b))] + [OfNet(ServerSave(b, invalid)), OfNet(Deliver(Saved(Some(b))))] +
      [OfFlush(f, Resume), OfFlush(f, DeleteChunk)]
  }

  /** The server refuses the batch as a whole, or nothing is heard of it before its timer. */
  function BadAnswer(b: nat, heard: bool): seq<Event> {
    if heard then [OfNet(ServerReject(b)), OfNet(Deliver(Rejected(Some(b))))] else [OfNet(Timeout(b))]
  }

  function BadRound(f: nat, b: nat, heard: bool): seq<Event> {
    [OfFlush(f, ReadChunk), OfFlush(f, Emit(b))] + BadAnswer(b, heard) + [OfFlush(f, Resume)]
  }

  lemma RunOne(s: State, x: Event)
    ensures Run(s, [x]) == Apply(s, x)
  {
    hide Apply;
    assert [x][..0] == [];
  }

  lemma RunTwo(s: State, x: Event, y: Event)
    ensures Run(s, [x, y]) == Apply(Apply(s, x), y)
  {
    hide Apply;
    assert [x, y][..1] == [x];
    RunOne(s, x);
  }

  // ------------------------------------------------------------------------- the round

  /** A flush that holds this chunk, and what it has not touched. */
  ghost predicate Holding(s: State, s': State, f: nat, fl: Flusher) {
    && f in s'.flushers && s'.flushers[f] == fl && s'.isFlushing
    && s'.store == s.store && s'.persisted == s.persisted && s'.refused == s.refused && s'.flushed == s.flushed
  }

  /** A flush that starts: it takes the lock and its limit, or ends at once if another one holds it. */
  lemma BeginDecides(s: State, f: nat, limit: Option<int>)
    requires f !in s.flushers
    ensures var s' := Apply(s, OfFlush(f, Begin(limit)));
            && Holding(s, s', f, Flusher(limit, if s.isFlushing then Ended else Reading, []))
            && s'.batches == s.batches
  {
  }

  lemma ReadStep(s: State, f: nat, limit: Option<int>, sent: seq<nat>)
    requires f in s.flushers && s.flushers[f] == Flusher(limit, Reading, sent) && s.isFlushing
    requires ChunkSize(|s.store|, limit) > 0
    ensures var s' := Apply(s, OfFlush(f, ReadChunk));
            && Holding(s, s', f, Flusher(limit, Chunked(s.store[..ChunkSize(|s.store|, limit)]), sent))
            && s'.batches == s.batches
  {
    hide Take;
    var chunk := Take(s.store, limit);
    assert chunk == s.store[..|chunk|];
  }

  lemma EmitStep(s: State, f: nat, b: nat, limit: Option<int>, chunk: seq<Entry>, sent: seq<nat>)
    requires f in s.flushers && s.flushers[f] == Flusher(limit, Chunked(chunk), sent) && s.isFlushing
    requires b !in s.batches
    ensures var s' := Apply(s, OfFlush(f, Emit(b)));
            && Holding(s, s', f, Flusher(limit, Sending(b, chunk), sent + [b]))
            && b in s'.batches && s'.batches[b] == Batch(chunk, true, true, true, [])
  {
  }

  lemma SaveStep(s: State, b: nat, invalid: set<nat>)
    requires b in s.batches
    ensures var s' := Apply(s, OfNet(ServerSave(b, invalid)));
            var ids := Ids(s.batches[b].chunk);
            && s' == s.(persisted := s.persisted + (ids - invalid), refused := s.refused + ids * invalid,
                        replies := s.replies + {Saved(Some(b))})
  {
  }

  lemma RejectStep(s: State, b: nat)
    requires b in s.batches
    ensures Apply(s, OfNet(ServerReject(b))) == s.(replies := s.replies + {Rejected(Some(b))})
  {
  }

  lemma AnswerStep(s: State, f: nat, b: nat, fl: Flusher, good: bool)
    requires f in s.flushers && s.flushers[f] == fl && s.isFlushing
    requires b in s.batches && Pending(s.batches[b]) &&
        (if good then Saved(Some(b)) else Rejected(Some(b))) in s.replies
    ensures var s' := Apply(s, OfNet(Deliver(if good then Saved(Some(b)) else Rejected(Some(b)))));
            && Holding(s, s', f, fl)
            && b in s'.batches && s'.batches[b] == Batch(s.batches[b].chunk, false, false, false, [good])
  {
  }

  lemma TimerStep(s: State, f: nat, b: nat, fl: Flusher)
    requires f in s.flushers && s.flushers[f] == fl && s.isFlushing && b in s.batches && Pending(s.batches[b])
    ensures var s' := Apply(s, OfNet(Timeout(b)));
            && Holding(s, s', f, fl)
            && b in s'.batches && s'.batches[b] == Batch(s.batches[b].chunk, false, false, false, [false])
  {
  }

  lemma GoodResume(s: State, f: nat, b: nat, limit: Option<int>, chunk: seq<Entry>, sent: seq<nat>)
    requires f in s.flushers && s.flushers[f] == Flusher(limit, Sending(b, chunk), sent) && s.isFlushing
    requires b in s.batches && s.batches[b].outcomes == [true]
    ensures Holding(s, Apply(s, OfFlush(f, Resume)), f, Flusher(limit, Deleting(b, chunk), sent))
  {
  }

  lemma BadResume(s: State, f: nat, b: nat, limit: Option<int>, chunk: seq<Entry>, sent: seq<nat>)
    requires f in s.flushers && s.flushers[f] == Flusher(limit, Sending(b, chunk), sent)
    requires b in s.batches && s.batches[b].outcomes == [false]
    ensures var s' := Apply(s, OfFlush(f, Resume));
            && f in s'.flushers && s'.flushers[f] == Flusher(limit, Ended, sent) && !s'.isFlushing
            && s'.store == s.store && s'.persisted == s.persisted && s'.refused == s.refused && s'.flushed == s.flushed
  {
  }

  lemma DeleteStep(s: State, f: nat, b: nat, limit: Option<int>, n: nat, sent: seq<nat>)
    requires Ordered(s.store) && n <= |s.store| && s.isFlushing
    requires f in s.flushers && s.flushers[f] == Flusher(limit, Deleting(b, s.store[..n]), sent)
    ensures var s' := Apply(s, OfFlush(f, DeleteChunk));
            && s'.store == s.store[n..] && s'.flushed == s.flushed + IdSeq(s.store[..n])
            && f in s'.flushers && s'.flushers[f] == Flusher(limit, Reading, sent) && s'.isFlushing
            && s'.persisted == s.persisted && s'.refused == s.refused
  {
    hide Without, Ids, IdSeq;
    WithoutPrefix(s.store, n);
  }

  /** A flush about to read its next chunk, a fresh batch id, and a chunk to read. */
  predicate AtRead(s: State, f: nat, b: nat) {
    && f in s.flushers && s.flushers[f].phase == Reading && s.isFlushing && b !in s.batches
    && ChunkSize(|s.store|, s.flushers[f].limit) > 0
  }

  /** Up to the emission of the batch. */
  lemma Opening(s: State, f: nat, b: nat, limit: Option<int>, sent: seq<nat>)
    requires AtRead(s, f, b) && s.flushers[f] == Flusher(limit, Reading, sent)
    ensures var s' := Run(s, [OfFlush(f, ReadChunk), OfFlush(f, Emit(b))]);
            var chunk := s.store[..ChunkSize(|s.store|, limit)];
            && Holding(s, s', f, Flusher(limit, Sending(b, chunk), sent + [b]))
            && b in s'.batches && s'.batches[b] == Batch(chunk, true, true, true, [])
  {
    hide Apply, Run;
    ReadStep(s, f, limit, sent);
    EmitStep(Apply(s, OfFlush(f, ReadChunk)), f, b, limit, s.store[..ChunkSize(|s.store|, limit)], sent);
    RunTwo(s, OfFlush(f, ReadChunk), OfFlush(f, Emit(b)));
  }

  /**
   One round whose batch is saved takes the first entries, as many as the limit allows, out of the
   store and no others; the server has them all, but for those it refused, and the flush reads on.
   */
  lemma RoundDelivers(s: State, f: nat, b: nat, invalid: set<nat>)
    requires Ordered(s.store) && AtRead(s, f, b)
    ensures var s' := Run(s, GoodRound(f, b, invalid));
            var n := ChunkSize(|s.store|, s.flushers[f].limit);
            && s'.store == s.store[n..] && s'.flushed == s.flushed + IdSeq(s.store[..n])
            && s'.persisted == s.persisted + (Ids(s.store[..n]) - invalid)
            && s'.refused == s.refused + Ids(s.store[..n]) * invalid
            && f in s'.flushers && s'.flushers[f] == s.flushers[f].(sent := s.flushers[f].sent + [b]) && s'.isFlushing
  {
    hide Apply, Run, Ids, IdSeq;
    var limit, sent := s.flushers[f].limit, s.flushers[f].sent + [b];
    var n := ChunkSize(|s.store|, limit);
    var chunk := s.store[..n];
    var first := [OfFlush(f, ReadChunk), OfFlush(f, Emit(b))];
    var answer := [OfNet(ServerSave(b, invalid)), OfNet(Deliver(Saved(Some(b))))];
    var last := [OfFlush(f, Resume), OfFlush(f, DeleteChunk)];
    RunConcat(s, first + answer, last);
    RunConcat(s, first, answer);
    Opening(s, f, b, limit, s.flushers[f].sent);
    var s2 := Run(s, first);
    RunTwo(s2, OfNet(ServerSave(b, invalid)), OfNet(Deliver(Saved(Some(b)))));
    SaveStep(s2, b, invalid);
    var s3 := Apply(s2, OfNet(ServerSave(b, invalid)));
    AnswerStep(s3, f, b, Flusher(limit, Sending(b, chunk), sent), true);
    var s4 := Apply(s3, OfNet(Deliver(Saved(Some(b)))));
    RunTwo(s4, OfFlush(f, Resume), OfFlush(f, DeleteChunk));
    GoodResume(s4, f, b, limit, chunk, sent);
    DeleteStep(Apply(s4, OfFlush(f, Resume)), f, b, limit, n, sent);
  }

  /**
   One round whose batch is refused as a whole, or not answered in time, leaves the store and what the
   server has as they were, ends the flush and frees the lock.
   */
  lemma RoundFails(s: State, f: nat, b: nat, heard: bool)
    requires AtRead(s, f, b)
    ensures var s' := Run(s, BadRound(f, b, heard));
            && s'.store == s.store && s'.flushed == s.flushed
            && s'.persisted == s.persisted && s'.refused == s.refused && !s'.isFlushing
            && f in s'.flushers
            && s'.flushers[f] == Flusher(s.flushers[f].limit, Ended, s.flushers[f].sent + [b])
  {
    hide Apply, Run;
    var limit, sent := s.flushers[f].limit, s.flushers[f].sent + [b];
    var chunk := s.store[..ChunkSize(|s.store|, limit)];
    var first := [OfFlush(f, ReadChunk), OfFlush(f, Emit(b))];
    RunConcat(s, first + BadAnswer(b, heard), [OfFlush(f, Resume)]);
    RunConcat(s, first, BadAnswer(b, heard));
    Opening(s, f, b, limit, s.flushers[f].sent);
    var s2 := Run(s, first);
    var fl := Flusher(limit, Sending(b, chunk), sent);
    if heard {
      RunTwo(s2, OfNet(ServerReject(b)), OfNet(Deliver(Rejected(Some(b)))));
      RejectStep(s2, b);
      AnswerStep(Apply(s2, OfNet(ServerReject(b))), f, b, fl, false);
    } else {
      RunOne(s2, OfNet(Timeout(b)));
      TimerStep(s2, f, b, fl);
    }
    var s3 := Run(s2, BadAnswer(b, heard));
    RunOne(s3, OfFlush(f, Resume));
    BadResume(s3, f, b, limit, chunk, sent);
  }

  /** A storage error while a flush reads or deletes ends it with the lock freed and the store as it was. */
  lemma StorageErrorEnds(s: State, f: nat)
    requires f in s.flushers && (s.flushers[f].phase.Reading? || s.flushers[f].phase.Deleting?)
    ensures Apply(s, OfFlush(f, Abort)) ==
            s.(flushers := s.flushers[f := s.flushers[f].(phase := Ended)], isFlushing := false)
  {
  }

  // ---------------------------------------------------------- the queue can be drained

  /** What was stored is still stored, or has been flushed. */
  ghost predicate KeptOrFlushed(s: State, s': State) {
    && s.flushed <= s'.flushed
    && forall i :: 0 <= i < |s.store| ==> s.store[i] in s'.store || s.store[i].id in s'.flushed
  }

  lemma DeleteKeeps(s: State, f: nat)
    ensures KeptOrFlushed(s, DoDeleteChunk(s, f))
  {
    hide Without;
    if f in s.flushers && s.flushers[f].phase.Deleting? {
      var chunk := s.flushers[f].phase.chunk;
      WithoutMembers(s.store, Ids(chunk));
      var s' := DoDeleteChunk(s, f);
      forall i | 0 <= i < |s.store| ensures s.store[i] in s'.store || s.store[i].id in s'.flushed {
        if s.store[i].id in Ids(chunk) {
          var k :| 0 <= k < |chunk| && chunk[k].id == s.store[i].id;
          assert s'.flushed[|s.flushed| + k] == s.store[i].id;
        }
      }
    }
  }

  predicate SameStore(s: State, s': State) {
    s'.store == s.store && s'.flushed == s.flushed
  }

  lemma StartsKeep(s: State, f: nat, limit: Option<int>, b: nat)
    ensures SameStore(s, DoStartFlush(s, f, limit)) && SameStore(s, DoEmit(s, f, b))
  {
  }

  lemma ReadKeeps(s: State, f: nat)
    ensures SameStore(s, DoReadChunk(s, f))
  {
    hide Take;
  }

  lemma EndsKeep(s: State, f: nat)
    ensures SameStore(s, DoResume(s, f)) && SameStore(s, DoFailFlush(s, f))
  {
  }

  lemma OthersKeep(s: State, f: nat, step: FlushStep)
    requires !step.DeleteChunk?
    ensures SameStore(s, ApplyFlush(s, f, step))
  {
    hide DoReadChunk, DoEmit, DoResume, DoFailFlush, DoStartFlush, SameStore;
    match step
    case Begin(limit) => StartsKeep(s, f, limit, 0);
    case ReadChunk => ReadKeeps(s, f);
    case Emit(b) => StartsKeep(s, f, None, b);
    case Resume => EndsKeep(s, f);
    case Abort => EndsKeep(s, f);
  }

  lemma OwnStepKeeps(s: State, ev: Event, f: nat)
    requires OwnStep(s, ev, f)
    ensures KeptOrFlushed(s, Apply(s, ev))
  {
    hide DoDeleteChunk, DoReadChunk, DoEmit, DoResume, DoFailFlush, DoStartFlush;
    if ev.OfFlush? {
      if ev.flush.DeleteChunk? {
        DeleteKeeps(s, ev.f);
      } else {
        OthersKeep(s, ev.f, ev.flush);
      }
    }
  }

  lemma KeptThrough(s: State, t: State, u: State)
    requires KeptOrFlushed(s, t) && KeptOrFlushed(t, u)
    ensures KeptOrFlushed(s, u)
  {
    forall i | 0 <= i < |s.store| ensures s.store[i] in u.store || s.store[i].id in u.flushed {
      if s.store[i] in t.store {
        var k :| 0 <= k < |t.store| && t.store[k] == s.store[i];
      }
    }
  }

  lemma {:induction false} OwnStepsKeep(s: State, more: seq<Event>, f: nat)
    requires OwnSteps(s, more, f)
    ensures KeptOrFlushed(s, Run(s, more))
  {
    hide Apply, OwnStep, KeptOrFlushed;
    if more == [] {
      NothingMoves(s);
    } else {
      var before := more[..|more| - 1];
      assert forall k :: 0 <= k < |before| ==> before[..k] == more[..k] && before[k] == more[k];
      OwnStepsKeep(s, before, f);
      OwnStepKeeps(Run(s, before), more[|more| - 1], f);
      KeptThrough(s, Run(s, before), Run(s, more));
    }
  }

  lemma NothingMoves(s: State)
    ensures KeptOrFlushed(s, s)
  {
  }

  /** With the lock free, a flush without a limit empties the store in one round. */
  lemma DrainFromFree(s: State) returns (more: seq<Event>)
    requires Inv(s) && !s.isFlushing
    ensures Run(s, more).store == [] && s.flushed <= Run(s, more).flushed
    ensures forall i :: 0 <= i < |s.store| ==> s.store[i].id in Run(s, more).persisted
    ensures Run(s, more).persisted >= s.persisted && Run(s, more).refused >= s.refused
  {
    hide Apply, CallInv, LockInv, LogInv, ChunkInv, PromiseInv, SentInv, ReplyInv, AckInv, Run;
    if s.store == [] {
      more := [];
      RunNone(s);
    } else {
      var f := FreshKey(s.flushers.Keys);
      var b := FreshKey(s.batches.Keys);
      var first := [OfFlush(f, Begin(None))];
      more := first + GoodRound(f, b, {});
      RunConcat(s, first, GoodRound(f, b, {}));
      RunOne(s, first[0]);
      BeginDecides(s, f, None);
      var s1 := Run(s, first);
      RoundDelivers(s1, f, b, {});
      assert s.store[..|s.store|] == s.store;
    }
  }

  lemma RunNone(s: State)
    ensures Run(s, []) == s
  {
  }

  /**
   From every reachable state the queue can be drained: some continuation empties the store, and every
   entry that was stored has been answered by the server.
   */
  lemma {:induction false} QueueCanBeDrained(evs: seq<Event>)
    ensures exists more ::
              var s, s' := Run(Init(true), evs), Run(Init(true), evs + more);
              s'.store == [] && forall i :: 0 <= i < |s.store| ==> s.store[i].id in s'.persisted + s'.refused
  {
    hide Inv, Apply, OwnSteps;
    var s := Run(Init(true), evs);
    RunKeepsInv(evs);
    var first: seq<Event> := [];
    if s.isFlushing {
      var f := Holder(s);
      first := Finish(s, f);
      OwnStepsKeep(s, first, f);
    } else {
      NothingMoves(s);
      RunNone(s);
    }
    RunConcat(Init(true), evs, first);
    RunKeepsInv(evs + first);
    var t := Run(s, first);
    var last := DrainFromFree(t);
    RunConcat(s, first, last);
    RunConcat(Init(true), evs, first + last);
    RunConcat(Init(true), evs + first, last);
    assert evs + (first + last) == evs + first + last;
    RunKeepsInv(evs + first + last);
    DrainedAnswers(s, t, Run(t, last));
  }

  lemma Holder(s: State) returns (f: nat)
    requires Inv(s) && s.isFlushing
    ensures f in s.flushers && Busy(s.flushers[f].phase)
  {
    f := HolderOf(s);
  }

  lemma DrainedAnswers(s: State, t: State, u: State)
    requires KeptOrFlushed(s, t) && t.flushed <= u.flushed && Inv(u)
    requires forall i :: 0 <= i < |t.store| ==> t.store[i].id in u.persisted
    ensures forall i :: 0 <= i < |s.store| ==> s.store[i].id in u.persisted + u.refused
  {
    hide StoreInv, CallInv, LockInv, LogInv, ChunkInv, PromiseInv, SentInv, ReplyInv;
    forall i | 0 <= i < |s.store| ensures s.store[i].id in u.persisted + u.refused {
      if s.store[i] in t.store {
        var k :| 0 <= k < |t.store| && t.store[k] == s.store[i];
      } else {
        var k :| 0 <= k < |t.flushed| && t.flushed[k] == s.store[i].id;
        assert u.flushed[k] == s.store[i].id;
      }
    }
  }
}
