/** Concrete runs of the offline pipeline: where its bounds are attained and where a promise stops. */
module QueueWitnesses {
  import opened Wrappers
  import opened PositionStore
  import opened QueueProtocol
  import opened QueueTheorems

  ghost predicate Reachable(tagged: bool, s: State) {
    exists evs :: Run(Init(tagged), evs) == s
  }

  lemma RunSnoc(s: State, evs: seq<Event>, ev: Event)
    ensures Run(s, evs + [ev]) == Apply(Run(s, evs), ev)
  {
    assert (evs + [ev])[..|evs|] == evs;
  }

  lemma ReachStep(tagged: bool, s: State, ev: Event)
    requires Reachable(tagged, s)
    ensures Reachable(tagged, Apply(s, ev))
  {
    var evs :| Run(Init(tagged), evs) == s;
    RunSnoc(Init(tagged), evs, ev);
  }

  lemma ReachInit(tagged: bool)
    ensures Reachable(tagged, Init(tagged))
  {
    assert Run(Init(tagged), []) == Init(tagged);
  }

  // A position without a readable date, so that it is covered by nothing but itself.
  const UNDATED: Position := Position(0, Unreadable)

  function Enqueued(s: State, c: nat): State {
    var e := Entry(s.nextId, UNDATED, 0, false);
    var done := Done(EnqueueResult(true, false, |s.store| + 1 >= QUEUE_WARN_SIZE), Some(s.nextId));
    s.(calls := s.calls[c := Call(UNDATED, done)],
       store := s.store + [e], nextId := s.nextId + 1, history := s.history[s.nextId := e])
  }

  function Admitted(s: State, c: nat): State {
    s.(calls := s.calls[c := Call(UNDATED, Adding(|s.store|, false))])
  }

  /** A call that starts and reads the size below the quota is about to insert. */
  lemma AdmitSteps(s: State, c: nat)
    requires c !in s.calls && |s.store| < QUEUE_MAX_SIZE
    ensures DoReadSize(DoStartEnqueue(s, c, UNDATED), c) == Admitted(s, c)
  {
    var s1 := DoStartEnqueue(s, c, UNDATED);
    assert DoReadSize(s1, c).calls == Admitted(s, c).calls;
  }

  lemma InsertStep(s: State, c: nat)
    requires c !in s.calls
    ensures DoInsert(Admitted(s, c), c, 0) == Enqueued(s, c)
  {
    assert DoInsert(Admitted(s, c), c, 0).calls == Enqueued(s, c).calls;
  }

  lemma ReachAdmitted(tagged: bool, s: State, c: nat)
    requires Reachable(tagged, s) && c !in s.calls && |s.store| < QUEUE_MAX_SIZE
    ensures Reachable(tagged, Admitted(s, c))
  {
    AdmitSteps(s, c);
    ReachStep(tagged, s, OfCall(c, Start(UNDATED)));
    ReachStep(tagged, DoStartEnqueue(s, c, UNDATED), OfCall(c, ReadSize));
  }

  lemma ReachEnqueued(tagged: bool, s: State, c: nat)
    requires Reachable(tagged, s) && c !in s.calls && |s.store| < QUEUE_MAX_SIZE
    ensures Reachable(tagged, Enqueued(s, c))
  {
    ReachAdmitted(tagged, s, c);
    InsertStep(s, c);
    ReachStep(tagged, Admitted(s, c), OfCall(c, Insert(0)));
  }

  /** n undated positions queued one after the other, and nothing else. */
  function Filled(tagged: bool, n: nat): State {
    if n == 0 then Init(tagged) else Enqueued(Filled(tagged, n - 1), n - 1)
  }

  ghost predicate FilledShape(s: State, tagged: bool, n: nat) {
    && |s.store| == n && s.nextId == n + 1
    && (forall c: nat :: c in s.calls <==> c < n)
    && (forall c :: c in s.calls ==> s.calls[c].phase.Done?)
    && s == State(tagged, s.store, s.nextId, s.calls, false, map[], map[], {}, s.history, map[], {}, {}, [])
  }

  lemma EnqueuedShape(s: State, tagged: bool, n: nat)
    requires FilledShape(s, tagged, n)
    ensures FilledShape(Enqueued(s, n), tagged, n + 1)
  {
  }

  lemma {:induction false} FilledFacts(tagged: bool, n: nat)
    ensures FilledShape(Filled(tagged, n), tagged, n)
  {
    if n > 0 {
      FilledFacts(tagged, n - 1);
      EnqueuedShape(Filled(tagged, n - 1), tagged, n - 1);
    }
  }

  lemma {:induction false} ReachFilled(tagged: bool, n: nat)
    requires n <= QUEUE_MAX_SIZE
    ensures Reachable(tagged, Filled(tagged, n))
  {
    hide Enqueued, Reachable;
    if n == 0 {
      ReachInit(tagged);
    } else {
      ReachFilled(tagged, n - 1);
      FilledFacts(tagged, n - 1);
      ReachEnqueued(tagged, Filled(tagged, n - 1), n - 1);
    }
  }

  // ----------------------------------------------------------- the quota is tight

  /** The first two steps of a call, with nobody else starting meanwhile. */
  lemma ExtendAdmit(s0: State, evs: seq<Event>, s: State, c: nat, bound: nat)
    requires Run(s0, evs) == s && Overlap(s0, evs) <= bound
    requires c !in s.calls && |s.store| < QUEUE_MAX_SIZE && |RunningCalls(s.calls)| < bound
    ensures var two := evs + [OfCall(c, Start(UNDATED))] + [OfCall(c, ReadSize)];
            Run(s0, two) == Admitted(s, c) && Overlap(s0, two) <= bound
  {
    CallSteps(s, c);
    Extend(s0, evs, s, OfCall(c, Start(UNDATED)), Started(s, c), bound);
    Extend(s0, evs + [OfCall(c, Start(UNDATED))], Started(s, c), OfCall(c, ReadSize), Admitted(s, c), bound);
  }

  /** One whole call. */
  lemma ExtendCall(s0: State, evs: seq<Event>, s: State, c: nat, bound: nat)
    requires Run(s0, evs) == s && Overlap(s0, evs) <= bound
    requires c !in s.calls && |s.store| < QUEUE_MAX_SIZE && |RunningCalls(s.calls)| < bound
    ensures var three := evs + [OfCall(c, Start(UNDATED))] + [OfCall(c, ReadSize)] + [OfCall(c, Insert(0))];
            Run(s0, three) == Enqueued(s, c) && Overlap(s0, three) <= bound
  {
    CallSteps(s, c);
    ExtendAdmit(s0, evs, s, c, bound);
    Extend(s0, evs + [OfCall(c, Start(UNDATED))] + [OfCall(c, ReadSize)], Admitted(s, c), OfCall(c, Insert(0)),
      Enqueued(s, c), bound);
  }

  function FillEvents(n: nat): seq<Event> {
    if n == 0 then []
    else FillEvents(n - 1) + [OfCall(n - 1, Start(UNDATED))] + [OfCall(n - 1, ReadSize)] + [OfCall(n - 1, Insert(0))]
  }

  /** One more event: the run reaches s' and the overlap stays within the bound. */
  lemma Extend(s0: State, evs: seq<Event>, s: State, ev: Event, s': State, bound: nat)
    requires Run(s0, evs) == s && Overlap(s0, evs) <= bound
    requires Apply(s, ev) == s' && |RunningCalls(s'.calls)| <= bound
    ensures Run(s0, evs + [ev]) == s' && Overlap(s0, evs + [ev]) <= bound
  {
    RunSnoc(s0, evs, ev);
    assert (evs + [ev])[..|evs|] == evs;
  }

  function Started(s: State, c: nat): State {
    s.(calls := s.calls[c := Call(UNDATED, Sizing)])
  }

  /** The three steps of one call below the quota, and who is running meanwhile. */
  lemma CallSteps(s: State, c: nat)
    requires c !in s.calls && |s.store| < QUEUE_MAX_SIZE
    ensures Apply(s, OfCall(c, Start(UNDATED))) == Started(s, c)
    ensures Apply(Started(s, c), OfCall(c, ReadSize)) == Admitted(s, c)
    ensures Apply(Admitted(s, c), OfCall(c, Insert(0))) == Enqueued(s, c)
    ensures RunningCalls(Started(s, c).calls) == RunningCalls(s.calls) + {c}
    ensures RunningCalls(Admitted(s, c).calls) == RunningCalls(s.calls) + {c}
    ensures RunningCalls(Enqueued(s, c).calls) == RunningCalls(s.calls)
  {
    AdmitSteps(s, c);
    InsertStep(s, c);
  }

  ghost predicate FillReached(n: nat) {
    Run(Init(true), FillEvents(n)) == Filled(true, n) && Overlap(Init(true), FillEvents(n)) <= 1
  }

  lemma FillGrows(n: nat)
    requires n < QUEUE_MAX_SIZE && FillReached(n)
    ensures FillReached(n + 1)
  {
    FilledFacts(true, n);
    var s := Filled(true, n);
    assert RunningCalls(s.calls) == {};
    ExtendCall(Init(true), FillEvents(n), s, n, 1);
  }

  lemma {:induction false} FillRun(n: nat)
    requires n <= QUEUE_MAX_SIZE
    ensures FillReached(n)
  {
    if n == 0 {
      assert RunningCalls(Init(true).calls) == {};
    } else {
      FillRun(n - 1);
      FillGrows(n - 1);
    }
  }

  // K calls that all read the size one below the quota (n) before any of them inserts.
  function CrowdEvents(n: nat, k: nat): seq<Event> {
    if k == 0 then FillEvents(n)
    else CrowdEvents(n, k - 1) + [OfCall(n + k - 1, Start(UNDATED))] + [OfCall(n + k - 1, ReadSize)]
  }

  function Crowd(n: nat, k: nat): State {
    if k == 0 then Filled(true, n) else Admitted(Crowd(n, k - 1), n + k - 1)
  }

  lemma AdmittedAdds(s: State, c: nat)
    requires c !in s.calls
    ensures |AddingCalls(Admitted(s, c).calls)| == |AddingCalls(s.calls)| + 1
  {
    assert AddingCalls(Admitted(s, c).calls) == AddingCalls(s.calls) + {c} && c !in AddingCalls(s.calls);
  }

  lemma AdmittedRuns(s: State, c: nat)
    requires c !in s.calls
    ensures |RunningCalls(Admitted(s, c).calls)| == |RunningCalls(s.calls)| + 1
  {
    assert RunningCalls(Admitted(s, c).calls) == RunningCalls(s.calls) + {c} && c !in RunningCalls(s.calls);
  }

  ghost predicate Numbered(s: State, m: nat) {
    forall c :: c in s.calls ==> c < m
  }

  /** n entries queued, and k calls about to insert. */
  ghost predicate CrowdShape(s: State, n: nat, k: nat) {
    && |s.store| == n && Numbered(s, n + k)
    && |AddingCalls(s.calls)| == k && |RunningCalls(s.calls)| == k
  }

  lemma CrowdBase(n: nat)
    ensures CrowdShape(Filled(true, n), n, 0)
  {
    FilledFacts(true, n);
    hide Filled;
    var s := Filled(true, n);
    assert AddingCalls(s.calls) == RunningCalls(s.calls) == {};
  }

  lemma NumberedStep(s: State, m: nat)
    requires Numbered(s, m)
    ensures m !in s.calls && Numbered(Admitted(s, m), m + 1)
  {
  }

  lemma CrowdStep(s: State, n: nat, k: nat)
    requires CrowdShape(s, n, k)
    ensures CrowdShape(Admitted(s, n + k), n, k + 1)
  {
    hide AddingCalls, RunningCalls, Numbered;
    NumberedStep(s, n + k);
    AdmittedAdds(s, n + k);
    AdmittedRuns(s, n + k);
  }

  lemma {:induction false} CrowdFacts(n: nat, k: nat)
    ensures CrowdShape(Crowd(n, k), n, k)
  {
    hide CrowdShape, Filled, Admitted;
    if k == 0 {
      CrowdBase(n);
    } else {
      CrowdFacts(n, k - 1);
      CrowdStep(Crowd(n, k - 1), n, k - 1);
    }
  }

  ghost predicate CrowdReached(n: nat, k: nat, bound: nat) {
    Run(Init(true), CrowdEvents(n, k)) == Crowd(n, k) && Overlap(Init(true), CrowdEvents(n, k)) <= bound
  }

  lemma CrowdGrows(n: nat, k: nat, bound: nat)
    requires n < QUEUE_MAX_SIZE && k > 0 && k <= bound && CrowdReached(n, k - 1, bound)
    ensures CrowdReached(n, k, bound)
  {
    hide Run, Overlap, Filled, FillEvents, AddingCalls, RunningCalls, Admitted;
    CrowdFacts(n, k - 1);
    NumberedStep(Crowd(n, k - 1), n + k - 1);
    ExtendAdmit(Init(true), CrowdEvents(n, k - 1), Crowd(n, k - 1), n + k - 1, bound);
  }

  lemma {:induction false} CrowdRun(n: nat, k: nat, bound: nat)
    requires n < QUEUE_MAX_SIZE && k <= bound && bound >= 1
    ensures CrowdReached(n, k, bound)
  {
    if k == 0 {
      FillRun(n);
    } else {
      CrowdRun(n, k - 1, bound);
      CrowdGrows(n, k, bound);
    }
  }

  /** The calls from m on, up to the last, are about to insert. */
  ghost predicate Waiting(s: State, m: nat, last: nat) {
    forall c: nat :: m <= c < last ==> c in s.calls && s.calls[c].phase.Adding?
  }

  lemma WaitingStep(s: State, m: nat, last: nat)
    requires Waiting(s, m, last)
    ensures Waiting(Admitted(s, last), m, last + 1)
  {
  }

  lemma {:induction false} CrowdWaits(n: nat, k: nat)
    ensures Waiting(Crowd(n, k), n, n + k)
  {
    hide Waiting, Admitted, Filled;
    if k == 0 {
      NobodyWaits(Crowd(n, 0), n);
    } else {
      CrowdWaits(n, k - 1);
      WaitingStep(Crowd(n, k - 1), n, n + k - 1);
    }
  }

  lemma NobodyWaits(s: State, m: nat)
    ensures Waiting(s, m, m)
  {
  }

  /** Of k such calls, j have inserted. */
  ghost predicate Drained(s: State, n: nat, k: nat, j: nat) {
    |s.store| == n + j && |RunningCalls(s.calls)| == k - j && Waiting(s, n + j, n + k)
  }

  lemma InsertRuns(s: State, c: nat)
    requires c in s.calls && s.calls[c].phase.Adding?
    ensures |RunningCalls(DoInsert(s, c, 0).calls)| == |RunningCalls(s.calls)| - 1
  {
    assert RunningCalls(DoInsert(s, c, 0).calls) == RunningCalls(s.calls) - {c} && c in RunningCalls(s.calls);
  }

  lemma InsertWaits(s: State, m: nat, last: nat)
    requires m < last && Waiting(s, m, last)
    ensures m in s.calls && s.calls[m].phase.Adding? && Waiting(DoInsert(s, m, 0), m + 1, last)
    ensures |DoInsert(s, m, 0).store| == |s.store| + 1
  {
  }

  lemma DrainStep(s: State, n: nat, k: nat, j: nat)
    requires j < k && Drained(s, n, k, j)
    ensures Drained(DoInsert(s, n + j, 0), n, k, j + 1)
  {
    hide Waiting, RunningCalls, DoInsert;
    InsertWaits(s, n + j, n + k);
    InsertRuns(s, n + j);
  }

  lemma {:induction false} Drain(n: nat, k: nat, j: nat) returns (evs: seq<Event>)
    requires n < QUEUE_MAX_SIZE && j <= k && k >= 1
    ensures Overlap(Init(true), evs) <= k && Drained(Run(Init(true), evs), n, k, j)
  {
    hide Run, Overlap, Waiting, RunningCalls, Crowd, CrowdEvents, DoInsert, FillEvents;
    if j == 0 {
      CrowdRun(n, k, k);
      CrowdFacts(n, k);
      CrowdWaits(n, k);
      evs := CrowdEvents(n, k);
    } else {
      var before := Drain(n, k, j - 1);
      var s := Run(Init(true), before);
      DrainStep(s, n, k, j - 1);
      assert Apply(s, OfCall(n + j - 1, Insert(0))) == DoInsert(s, n + j - 1, 0);
      Extend(Init(true), before, s, OfCall(n + j - 1, Insert(0)), DoInsert(s, n + j - 1, 0), k);
      evs := before + [OfCall(n + j - 1, Insert(0))];
    }
  }

  /** For every K there is a run with at most K overlapping calls that leaves that many entries stored. */
  lemma QuotaIsTight(k: nat)
    requires k >= 1
    ensures exists evs :: Overlap(Init(true), evs) <= k && |Run(Init(true), evs).store| == QUEUE_MAX_SIZE - 1 + k
  {
    var n :| n == QUEUE_MAX_SIZE - 1;
    var evs := Drain(n, k, k);
    assert Overlap(Init(true), evs) <= k;
  }

  ghost predicate KeepsQuota(k: nat) {
    forall evs :: Overlap(Init(true), evs) <= k ==> |Run(Init(true), evs).store| <= QUEUE_MAX_SIZE
  }

  /** The quota holds in all runs with at most K overlapping calls exactly if K is at most one. */
  lemma QuotaHoldsIffSequential(k: nat)
    ensures KeepsQuota(k) <==> k <= 1
  {
    hide Run, Overlap;
    if k <= 1 {
      forall evs | Overlap(Init(true), evs) <= k ensures |Run(Init(true), evs).store| <= QUEUE_MAX_SIZE {
        QuotaUnderConcurrency(true, evs);
      }
    } else {
      QuotaIsTight(k);
      var evs :| Overlap(Init(true), evs) <= k && |Run(Init(true), evs).store| == QUEUE_MAX_SIZE - 1 + k;
      assert !(|Run(Init(true), evs).store| <= QUEUE_MAX_SIZE);
    }
  }

  // -------------------------------------------- steps of the runs that follow

  function FlushSent(s: State, f: nat, b: nat): State {
    s.(isFlushing := true, flushers := s.flushers[f := Flusher(None, Sending(b, s.store), [b])],
       batches := s.batches[b := Batch(s.store, true, true, true, [])])
  }

  /** A flush takes the lock, reads everything and sends it. */
  lemma ReachSent(tagged: bool, s: State, f: nat, b: nat)
    requires Reachable(tagged, s)
    requires f !in s.flushers && !s.isFlushing && s.store != [] && b !in s.batches
    ensures Reachable(tagged, FlushSent(s, f, b))
  {
    ReachStep(tagged, s, OfFlush(f, Begin(None)));
    var s1 := DoStartFlush(s, f, None);
    ReachStep(tagged, s1, OfFlush(f, ReadChunk));
    var s2 := DoReadChunk(s1, f);
    assert Take(s1.store, None) == s.store;
    ReachStep(tagged, s2, OfFlush(f, Emit(b)));
    assert [] + [b] == [b];
    assert DoEmit(s2, f, b).flushers == FlushSent(s, f, b).flushers;
  }

  /** A flush whose batch has resolved deletes what it sent. */
  lemma ReachDeleted(tagged: bool, s: State, f: nat)
    requires Reachable(tagged, s)
    requires f in s.flushers && s.flushers[f].phase.Sending? && s.flushers[f].phase.chunk == s.store
    requires Resolved(s.batches, s.flushers[f].phase.batch)
    ensures var s' := DoDeleteChunk(DoResume(s, f), f);
            Reachable(tagged, s') && s'.store == [] &&
              s' == s.(store := [], flushers := s'.flushers, flushed := s'.flushed)
    ensures DoDeleteChunk(DoResume(s, f), f).flushed == s.flushed + IdSeq(s.store)
  {
    ReachStep(tagged, s, OfFlush(f, Resume));
    ReachStep(tagged, DoResume(s, f), OfFlush(f, DeleteChunk));
    WithoutAll(s.store, Ids(s.store));
  }

  // ------------------------------------------- queued: false is reachable

  function Evictor(s: State, c: nat, p: Phase): State {
    s.(calls := s.calls[c := Call(UNDATED, p)])
  }

  lemma FullSteps(s: State, c: nat)
    requires c !in s.calls && |s.store| >= QUEUE_MAX_SIZE
    ensures ApplyCall(s, c, Start(UNDATED)) == Evictor(s, c, Sizing)
    ensures ApplyCall(Evictor(s, c, Sizing), c, ReadSize) == Evictor(s, c, Compacting)
  {
    assert DoReadSize(Evictor(s, c, Sizing), c).calls == Evictor(s, c, Compacting).calls;
  }

  lemma UnmergedStep(s: State, c: nat, now: int)
    requires c !in s.calls && Compact(s.store, now - COMPACT_HORIZON_MS) == s.store
    ensures ApplyCall(Evictor(s, c, Compacting), c, CompactStore(now)) == Evictor(s, c, Resizing)
  {
    assert DoCompact(Evictor(s, c, Compacting), c, now).calls == Evictor(s, c, Resizing).calls;
  }

  lemma StillFullStep(s: State, c: nat)
    requires c !in s.calls && |s.store| >= QUEUE_MAX_SIZE
    ensures ApplyCall(Evictor(s, c, Resizing), c, ReadSizeAgain) == Evictor(s, c, Evicting(|s.store|))
  {
    assert DoReadSizeAgain(Evictor(s, c, Resizing), c).calls == Evictor(s, c, Evicting(|s.store|)).calls;
  }

  /** A call that finds a full queue with nothing to merge comes to evict. */
  lemma ReachEvicting(tagged: bool, s: State, c: nat)
    requires Reachable(tagged, s) && c !in s.calls && |s.store| >= QUEUE_MAX_SIZE
    requires Compact(s.store, 0 - COMPACT_HORIZON_MS) == s.store
    ensures Reachable(tagged, Evictor(s, c, Evicting(|s.store|)))
  {
    FullSteps(s, c);
    UnmergedStep(s, c, 0);
    StillFullStep(s, c);
    hide ApplyCall, Evictor, Compact;
    ReachStep(tagged, s, OfCall(c, Start(UNDATED)));
    ReachStep(tagged, Evictor(s, c, Sizing), OfCall(c, ReadSize));
    ReachStep(tagged, Evictor(s, c, Compacting), OfCall(c, CompactStore(0)));
    ReachStep(tagged, Evictor(s, c, Resizing), OfCall(c, ReadSizeAgain));
  }

  lemma {:induction false} FilledUndated(tagged: bool, n: nat, cutoff: int)
    ensures Compact(Filled(tagged, n).store, cutoff) == Filled(tagged, n).store
  {
    if n > 0 {
      FilledUndated(tagged, n - 1, cutoff);
      var before := Filled(tagged, n - 1).store;
      assert Filled(tagged, n).store[..|before|] == before;
    }
  }

  /** A flush answered by the server empties the store and touches no enqueue call. */
  lemma ReachEmptied(tagged: bool, s: State)
    requires Reachable(tagged, s) && s.flushers == map[] && s.batches == map[] && !s.isFlushing && s.store != []
    ensures exists s' ::
              && Reachable(tagged, s') && s'.store == [] && s'.calls == s.calls
              && s'.evicted == s.evicted && |s'.flushed| == |s.flushed| + |s.store|
  {
    ReachSent(tagged, s, 0, 0);
    var s1 := FlushSent(s, 0, 0);
    ReachStep(tagged, s1, OfNet(ServerSave(0, {})));
    var s2 := DoServerSave(s1, 0, {});
    ReachStep(tagged, s2, OfNet(Deliver(Saved(Some(0)))));
    var s3 := DoDeliver(s2, Saved(Some(0)));
    ReachDeleted(tagged, s3, 0);
  }

  lemma RefuseStep(tagged: bool, s: State, c: nat)
    requires Reachable(tagged, s) && s.store == [] && c in s.calls && s.calls[c].phase.Evicting?
    ensures exists s' ::
              && Reachable(tagged, s') && c in s'.calls &&
                   s'.calls[c].phase == Done(EnqueueResult(false, false, false), None)
              && s'.evicted == s.evicted && s'.flushed == s.flushed
  {
    ReachStep(tagged, s, OfCall(c, EvictOldest));
    var s' := DoEvict(s, c);
    assert Apply(s, OfCall(c, EvictOldest)) == s';
    assert c in s'.calls && s'.calls[c].phase == Done(EnqueueResult(false, false, false), None);
  }

  /**
   A call can answer queued: false. Here nothing was ever evicted: a flush took the whole queue
   between the call's second count and its eviction. Alone a call never does (EnqueuePosition).
   */
  lemma RefusalIsReachable()
    ensures exists s, c ::
              && Reachable(true, s) && c in s.calls &&
                   s.calls[c].phase == Done(EnqueueResult(false, false, false), None)
              && s.evicted == map[] && |s.flushed| == QUEUE_MAX_SIZE
  {
    hide Compact;
    var n :| n == QUEUE_MAX_SIZE;
    var full := Filled(true, n);
    ReachFilled(true, n);
    FilledFacts(true, n);
    FilledUndated(true, n, 0 - COMPACT_HORIZON_MS);
    hide Filled, Run;
    ReachEvicting(true, full, n);
    ReachEmptied(true, Evictor(full, n, Evicting(n)));
    var s :| && Reachable(true, s) && s.store == [] && s.calls == Evictor(full, n, Evicting(n)).calls
             && s.evicted == map[] && |s.flushed| == n;
    RefuseStep(true, s, n);
  }

  // -------------------------- why the batch id matters: untagged acknowledgements

  /** One entry was saved, its flush is over, and its untagged answer is still in the network. */
  ghost predicate LateAnswer(s: State) {
    && Reachable(false, s) && Saved(None) in s.replies && !s.isFlushing
    && s.store == [Entry(1, UNDATED, 0, false)] && s.nextId == 2
    && s.persisted == {1} && s.refused == {} && s.evicted == map[]
    && 1 !in s.calls && 1 !in s.flushers && s.batches.Keys == {0} && Disarmed(s.batches[0])
  }

  lemma OneId(e: Entry)
    ensures Ids([e]) == {e.id}
  {
    assert [e][0] == e;
  }

  /** A flush whose batch timed out is over, and the store is as it was. */
  function GivenUp(s: State, f: nat, b: nat): State {
    s.(isFlushing := false, flushers := s.flushers[f := Flusher(None, Ended, [b])],
       batches := s.batches[b := Batch(s.store, false, false, false, [false])])
  }

  lemma TimeoutStep(s: State, f: nat, b: nat)
    ensures ApplyNet(FlushSent(s, f, b), Timeout(b)) ==
            FlushSent(s, f, b).(batches := s.batches[b := Batch(s.store, false, false, false, [false])])
  {
    assert [] + [false] == [false];
    assert FlushSent(s, f, b).batches[b := Batch(s.store, false, false, false, [false])] ==
           s.batches[b := Batch(s.store, false, false, false, [false])];
  }

  lemma GiveUpStep(s: State, f: nat, b: nat)
    ensures var s1 := FlushSent(s, f, b).(batches := s.batches[b := Batch(s.store, false, false, false, [false])]);
            ApplyFlush(s1, f, Resume) == GivenUp(s, f, b)
  {
    var s1 := FlushSent(s, f, b).(batches := s.batches[b := Batch(s.store, false, false, false, [false])]);
    assert DoResume(s1, f) == EndFlush(s1, f);
    assert EndFlush(s1, f).flushers == GivenUp(s, f, b).flushers;
  }

  lemma ReachGivenUp(tagged: bool, s: State, f: nat, b: nat)
    requires Reachable(tagged, s)
    requires f !in s.flushers && !s.isFlushing && s.store != [] && b !in s.batches
    ensures Reachable(tagged, GivenUp(s, f, b))
  {
    ReachSent(tagged, s, f, b);
    TimeoutStep(s, f, b);
    GiveUpStep(s, f, b);
    hide ApplyNet, ApplyFlush, FlushSent, GivenUp;
    ReachStep(tagged, FlushSent(s, f, b), OfNet(Timeout(b)));
    ReachStep(tagged, FlushSent(s, f, b).(batches := s.batches[b := Batch(s.store, false, false, false, [false])]),
      OfFlush(f, Resume));
  }

  lemma SaveLateStep(s: State, b: nat)
    requires b in s.batches && !s.tagged
    ensures ApplyNet(s, ServerSaveUntagged(b, {})) ==
            s.(persisted := s.persisted + Ids(s.batches[b].chunk), replies := s.replies + {Saved(None)})
  {
    hide Ids;
    var ids, none: set<nat> := Ids(s.batches[b].chunk), {};
    assert ids - none == ids && s.refused + ids * none == s.refused;
    var s' := ApplyNet(s, ServerSaveUntagged(b, none));
    assert s' == Handle(s, b, none, Saved(None));
    assert s'.refused == s.refused;
    assert s'.persisted == s.persisted + ids;
  }

  lemma LateAnswerIsReachable()
    ensures exists s :: LateAnswer(s)
  {
    var s0 := Filled(false, 1);
    ReachFilled(false, 1);
    FilledFacts(false, 1);
    assert s0 == Enqueued(Init(false), 0);
    assert s0.store == [Entry(1, UNDATED, 0, false)];
    OneId(s0.store[0]);
    hide Filled, Run, ApplyNet, Ids;
    ReachGivenUp(false, s0, 0, 0);
    var s3 := GivenUp(s0, 0, 0);
    SaveLateStep(s3, 0);
    ReachStep(false, s3, OfNet(ServerSaveUntagged(0, {})));
    var s4 := s3.(persisted := {1}, replies := {Saved(None)});
    assert s3.batches.Keys == {0} && s3.flushers.Keys == {0};
    assert LateAnswer(s4);
  }

  /** The late answer reaches the listeners of the next batch. */
  lemma LateAnswerResolves(s: State)
    requires LateAnswer(s)
    ensures var s' := DoDeliver(FlushSent(Enqueued(s, 1), 1, 1), Saved(None));
            && Reachable(false, s') && Resolved(s'.batches, 1)
            && s' == FlushSent(Enqueued(s, 1), 1, 1).(batches := s'.batches)
  {
    ReachEnqueued(false, s, 1);
    ReachSent(false, Enqueued(s, 1), 1, 1);
    ReachStep(false, FlushSent(Enqueued(s, 1), 1, 1), OfNet(Deliver(Saved(None))));
  }

  ghost predicate SilentlyLost(s: State, c: nat, id: nat) {
    && id in s.flushed
    && c in s.calls && s.calls[c].phase == Done(EnqueueResult(true, false, false), Some(id))
    && !Stored(s.store, id) && id !in s.persisted && id !in s.refused && id !in s.evicted
  }

  /**
   If the server did not echo the batch id, the late answer would settle the next batch: its
   position would be deleted although the server never saved it, and nobody would be told.
   */
  lemma UntaggedAnswersLose()
    ensures exists s, c, id :: Reachable(false, s) && SilentlyLost(s, c, id)
  {
    LateAnswerIsReachable();
    var s0 :| LateAnswer(s0);
    LateAnswerResolves(s0);
    var s := DoDeliver(FlushSent(Enqueued(s0, 1), 1, 1), Saved(None));
    ReachDeleted(false, s, 1);
    LostAfterwards(s0, s);
  }

  lemma LostAfterwards(s0: State, s: State)
    requires LateAnswer(s0) && Reachable(false, s) && s == FlushSent(Enqueued(s0, 1), 1, 1).(batches := s.batches)
    requires var s' := DoDeleteChunk(DoResume(s, 1), 1);
             && Reachable(false, s') && s'.store == [] &&
                  s' == s.(store := [], flushers := s'.flushers, flushed := s'.flushed)
             && s'.flushed == s.flushed + IdSeq(s.store)
    ensures exists s', c, id :: Reachable(false, s') && SilentlyLost(s', c, id)
  {
    hide Reachable, DoDeleteChunk, DoResume;
    var s' := DoDeleteChunk(DoResume(s, 1), 1);
    assert s.store[1].id == 2;
    assert s'.flushed[|s0.flushed| + 1] == 2;
    assert SilentlyLost(s', 1, 2);
  }

  // ------------------------------- why storage errors are excepted from reporting

  /**
   If the insertion that follows an eviction fails, the evicted position is gone and no call has
   reported it: the only report is the result of the call that failed.
   */
  lemma FailedInsertHidesEviction()
    ensures exists s, id ::
              && Reachable(true, s) && id in s.evicted
              && !Stored(s.store, id) && id !in s.persisted && id !in s.refused
              && (forall c :: c in s.calls ==> !Running(s.calls[c].phase))
              && (forall c :: c in s.calls && s.calls[c].phase.Done? ==> !s.calls[c].phase.result.droppedOldest)
  {
    hide Compact;
    var n :| n == QUEUE_MAX_SIZE;
    var full := Filled(true, n);
    ReachFilled(true, n);
    FilledFacts(true, n);
    FilledUndated(true, n, 0 - COMPACT_HORIZON_MS);
    FilledReports(true, n);
    hide Filled, Run;
    ReachEvicting(true, full, n);
    EvictThenFail(full, n);
  }

  lemma {:induction false} FilledReports(tagged: bool, n: nat)
    ensures var s := Filled(tagged, n);
            (forall c :: c in s.calls ==> s.calls[c].phase.Done? && !s.calls[c].phase.result.droppedOldest) &&
              Ordered(s.store) &&
            (forall i :: 0 <= i < |s.store| ==> s.store[i].id < s.nextId)
  {
    if n > 0 {
      FilledReports(tagged, n - 1);
    }
  }

  /** The call has evicted and then failed. */
  function HalfDone(s: State, c: nat): State
    requires s.store != []
  {
    Evictor(s, c, Failed).(store := s.store[1..], evicted := s.evicted[s.store[0].id := c])
  }

  lemma EvictStep(s: State, c: nat, size: nat)
    requires s.store != []
    ensures ApplyCall(Evictor(s, c, Evicting(size)), c, EvictOldest) ==
        HalfDone(s, c).(calls := Evictor(s, c, Adding(size, true)).calls)
  {
    assert DoEvict(Evictor(s, c, Evicting(size)), c).calls == Evictor(s, c, Adding(size, true)).calls;
  }

  lemma FailStep(s: State, c: nat, size: nat)
    requires s.store != []
    ensures ApplyCall(HalfDone(s, c).(calls := Evictor(s, c, Adding(size, true)).calls), c, FailCall) == HalfDone(s, c)
  {
    assert Evictor(s, c, Adding(size, true)).calls[c := Call(UNDATED, Failed)] == Evictor(s, c, Failed).calls;
  }

  lemma ReachHalfDone(tagged: bool, s: State, c: nat)
    requires s.store != [] && Reachable(tagged, Evictor(s, c, Evicting(|s.store|)))
    ensures Reachable(tagged, HalfDone(s, c))
  {
    EvictStep(s, c, |s.store|);
    FailStep(s, c, |s.store|);
    hide ApplyCall, Evictor, HalfDone;
    ReachStep(tagged, Evictor(s, c, Evicting(|s.store|)), OfCall(c, EvictOldest));
    ReachStep(tagged, HalfDone(s, c).(calls := Evictor(s, c, Adding(|s.store|, true)).calls), OfCall(c, FailCall));
  }

  lemma EvictThenFail(s: State, c: nat)
    requires Reachable(true, Evictor(s, c, Evicting(|s.store|)))
    requires c !in s.calls && s.store != [] && s.persisted == {} && s.refused == {} && Ordered(s.store)
    requires forall d :: d in s.calls ==> s.calls[d].phase.Done? && !s.calls[d].phase.result.droppedOldest
    ensures exists s', id ::
              && Reachable(true, s') && id in s'.evicted
              && !Stored(s'.store, id) && id !in s'.persisted && id !in s'.refused
              && (forall d :: d in s'.calls ==> !Running(s'.calls[d].phase))
              && (forall d :: d in s'.calls && s'.calls[d].phase.Done? ==> !s'.calls[d].phase.result.droppedOldest)
  {
    var s3 := HalfDone(s, c);
    ReachHalfDone(true, s, c);
    hide Reachable;
    var id := s.store[0].id;
    assert forall i :: 0 <= i < |s3.store| ==> s3.store[i] == s.store[i + 1];
    assert !Stored(s3.store, id);
  }
}
