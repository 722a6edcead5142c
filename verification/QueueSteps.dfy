/** What the interleaved steps read and do, in figures: the quota and the chunk limit. */
module QueueSteps {
  import opened Wrappers
  import opened PositionStore
  import opened QueueProtocol
  import opened QueueSafety
  import opened QueueTheorems

  // ------------------------------------------------------- a call does what it has read

  /** The event is this call's count of the store: its first, or again after its compaction. */
  predicate Counts(s: State, ev: Event, c: nat, again: bool, size: nat) {
    && ev == OfCall(c, if again then ReadSizeAgain else ReadSize)
    && |s.store| == size && c in s.calls
    && if again then s.calls[c].phase.Resizing? else s.calls[c].phase.Sizing?
  }

  ghost predicate Counted(evs: seq<Event>, c: nat, again: bool, size: nat) {
    exists k :: 0 <= k < |evs| && Counts(Run(Init(true), evs[..k]), evs[k], c, again, size)
  }

  /** A first count found the queue full. */
  ghost predicate FoundFull(evs: seq<Event>, c: nat) {
    exists size: nat :: size >= 10000 && Counted(evs, c, false, size)
  }

  /** The last count of the call, which decides what it does. */
  ghost predicate LastCount(evs: seq<Event>, c: nat, size: nat) {
    if size >= 10000 then FoundFull(evs, c) && Counted(evs, c, true, size)
    else Counted(evs, c, false, size) || (FoundFull(evs, c) && Counted(evs, c, true, size))
  }

  ghost predicate PhaseTells(evs: seq<Event>, c: nat, p: Phase) {
    match p
    case Sizing => true
    case Compacting => FoundFull(evs, c)
    case Resizing => FoundFull(evs, c)
    case Evicting(size) => size >= 10000 && LastCount(evs, c, size)
    case Adding(size, dropped) => LastCount(evs, c, size) && (dropped <==> size >= 10000)
    case Done(result, id) =>
      exists size: nat ::
        && LastCount(evs, c, size)
        && result == (if id.Some? then EnqueueResult(true, size >= 10000, size + 1 >= 8000)
                      else EnqueueResult(false, false, false))
        && (id.None? ==> size >= 10000)
    case Failed => true
  }

  lemma CountedSnoc(evs: seq<Event>, ev: Event, c: nat, again: bool, size: nat)
    ensures Counted(evs + [ev], c, again, size) <==>
            Counted(evs, c, again, size) || Counts(Run(Init(true), evs), ev, c, again, size)
  {
    hide Counts, Run;
    var more := evs + [ev];
    assert more[..|evs|] == evs && more[|evs|] == ev;
    forall k | 0 <= k < |evs| ensures more[..k] == evs[..k] && more[k] == evs[k] {}
  }

  lemma FoundFullSnoc(evs: seq<Event>, ev: Event, c: nat)
    requires FoundFull(evs, c)
    ensures FoundFull(evs + [ev], c)
  {
    hide Counted;
    var size: nat :| size >= 10000 && Counted(evs, c, false, size);
    CountedSnoc(evs, ev, c, false, size);
  }

  lemma LastCountSnoc(evs: seq<Event>, ev: Event, c: nat, size: nat)
    requires LastCount(evs, c, size)
    ensures LastCount(evs + [ev], c, size)
  {
    hide Counted, FoundFull;
    if FoundFull(evs, c) {
      FoundFullSnoc(evs, ev, c);
    }
    if Counted(evs, c, false, size) {
      CountedSnoc(evs, ev, c, false, size);
    }
    if Counted(evs, c, true, size) {
      CountedSnoc(evs, ev, c, true, size);
    }
  }

  lemma PhaseTellsSnoc(evs: seq<Event>, ev: Event, c: nat, p: Phase)
    requires PhaseTells(evs, c, p)
    ensures PhaseTells(evs + [ev], c, p)
  {
    hide LastCount, FoundFull;
    match p
    case Sizing =>
    case Compacting => FoundFullSnoc(evs, ev, c);
    case Resizing => FoundFullSnoc(evs, ev, c);
    case Evicting(size) => LastCountSnoc(evs, ev, c, size);
    case Adding(size, dropped) => LastCountSnoc(evs, ev, c, size);
    case Done(result, id) =>
      var size: nat :|
        && LastCount(evs, c, size)
        && result == (if id.Some? then EnqueueResult(true, size >= 10000, size + 1 >= 8000)
                      else EnqueueResult(false, false, false))
        && (id.None? ==> size >= 10000);
      LastCountSnoc(evs, ev, c, size);
    case Failed =>
  }

  /** What the two counts decide. */
  lemma CountDecides(s: State, c: nat)
    requires c in s.calls
    ensures s.calls[c].phase.Sizing? ==>
              var s' := Apply(s, OfCall(c, ReadSize));
              c in s'.calls && s'.calls[c].phase == if |s.store| >= 10000 then Compacting else Adding(|s.store|, false)
    ensures s.calls[c].phase.Resizing? ==>
              var s' := Apply(s, OfCall(c, ReadSizeAgain));
              c in s'.calls && s'.calls[c].phase == if |s.store| >= 10000 then Evicting(|s.store|)
                else Adding(|s.store|, false)
  {
  }

  /** What the other steps of a call make of its phase. */
  function NextPhase(s: State, p: Phase, step: CallStep): Phase {
    match step
    case CompactStore(_) => if p.Compacting? then Resizing else p
    case EvictOldest =>
      if !p.Evicting? then p
      else if s.store == [] then Done(EnqueueResult(false, false, false), None)
      else Adding(p.size, true)
    case Insert(_) =>
      if !p.Adding? then p else Done(EnqueueResult(true, p.dropped, p.size + 1 >= 8000), Some(s.nextId))
    case FailCall => if p.Done? then p else Failed
    case _ => p
  }

  predicate PhaseAfter(s: State, s': State, c: nat, step: CallStep)
    requires c in s.calls
  {
    c in s'.calls && s'.calls[c].phase == NextPhase(s, s.calls[c].phase, step)
  }

  lemma ShrinkPhase(s: State, c: nat, now: int)
    requires c in s.calls
    ensures PhaseAfter(s, DoCompact(s, c, now), c, CompactStore(now)) && PhaseAfter(s, DoEvict(s, c), c, EvictOldest)
  {
    hide Compact;
  }

  lemma EndPhase(s: State, c: nat, now: int)
    requires c in s.calls
    ensures PhaseAfter(s, DoInsert(s, c, now), c, Insert(now)) && PhaseAfter(s, DoFailCall(s, c), c, FailCall)
  {
  }

  lemma StepsPhase(s: State, c: nat, step: CallStep)
    requires c in s.calls
    requires !(step.ReadSize? && s.calls[c].phase.Sizing?) && !(step.ReadSizeAgain? && s.calls[c].phase.Resizing?)
    ensures PhaseAfter(s, ApplyCall(s, c, step), c, step)
  {
    hide DoCompact, DoEvict, DoInsert, DoFailCall;
    match step
    case Start(pos) =>
    case ReadSize =>
    case CompactStore(now) => ShrinkPhase(s, c, now);
    case ReadSizeAgain =>
    case EvictOldest => ShrinkPhase(s, c, 0);
    case Insert(now) => EndPhase(s, c, now);
    case FailCall => EndPhase(s, c, 0);
  }

  /** The phase a step of its own takes a call to. */
  lemma OwnPhase(evs: seq<Event>, c: nat, step: CallStep)
    requires var s := Run(Init(true), evs); c in s.calls && PhaseTells(evs, c, s.calls[c].phase)
    ensures var s' := Apply(Run(Init(true), evs), OfCall(c, step));
            c in s'.calls && PhaseTells(evs + [OfCall(c, step)], c, s'.calls[c].phase)
  {
    hide Run, PhaseTells, ApplyCall, NextPhase;
    var s := Run(Init(true), evs);
    var ev := OfCall(c, step);
    PhaseTellsSnoc(evs, ev, c, s.calls[c].phase);
    if step.ReadSize? && s.calls[c].phase.Sizing? {
      CountDecides(s, c);
      CountedSnoc(evs, ev, c, false, |s.store|);
      FirstCount(evs + [ev], c, |s.store|);
    } else if step.ReadSizeAgain? && s.calls[c].phase.Resizing? {
      CountDecides(s, c);
      CountedSnoc(evs, ev, c, true, |s.store|);
      SecondCount(evs + [ev], c, |s.store|);
    } else {
      StepsPhase(s, c, step);
      NextTells(evs + [ev], c, s, s.calls[c].phase, step);
    }
  }

  lemma NextTells(evs: seq<Event>, c: nat, s: State, p: Phase, step: CallStep)
    requires PhaseTells(evs, c, p)
    ensures PhaseTells(evs, c, NextPhase(s, p, step))
  {
    hide LastCount, FoundFull;
  }

  lemma FirstCount(evs: seq<Event>, c: nat, size: nat)
    requires Counted(evs, c, false, size)
    ensures PhaseTells(evs, c, if size >= 10000 then Compacting else Adding(size, false))
  {
    hide Counted;
  }

  lemma SecondCount(evs: seq<Event>, c: nat, size: nat)
    requires Counted(evs, c, true, size) && PhaseTells(evs, c, Resizing)
    ensures PhaseTells(evs, c, if size >= 10000 then Evicting(size) else Adding(size, false))
  {
    hide Counted, FoundFull;
  }

  /**
   Over every run, where a call stands tells what it has counted: it compacts only after a first
   count, and evicts only after a second, of at least 10000, and its answer is that of its last count.
   */
  lemma {:induction false} CallsDoWhatTheyCounted(evs: seq<Event>, c: nat)
    ensures var s := Run(Init(true), evs); c in s.calls ==> PhaseTells(evs, c, s.calls[c].phase)
  {
    hide Apply, PhaseTells;
    if evs != [] {
      var rest, last := evs[..|evs| - 1], evs[|evs| - 1];
      var s := Run(Init(true), rest);
      assert evs == rest + [last];
      CallsDoWhatTheyCounted(rest, c);
      if c in s.calls {
        if last.OfCall? && last.c == c {
          OwnPhase(rest, c, last.call);
        } else {
          PhaseTellsSnoc(rest, last, c, s.calls[c].phase);
          OtherPhase(s, last, c);
        }
      } else if c in Apply(s, last).calls {
        NewPhase(s, last, c);
        SizingTells(evs, c);
      }
    }
  }

  lemma OtherPhase(s: State, ev: Event, c: nat)
    requires c in s.calls && !(ev.OfCall? && ev.c == c)
    ensures c in Apply(s, ev).calls && Apply(s, ev).calls[c] == s.calls[c]
  {
    hide ApplyCall;
    Frame(s, ev);
    if ev.OfCall? {
      CallFrame(s, ev.c, ev.call);
    }
  }

  lemma NewPhase(s: State, ev: Event, c: nat)
    requires c !in s.calls && c in Apply(s, ev).calls
    ensures Apply(s, ev).calls[c].phase == Sizing
  {
    hide DoReadSize, DoReadSizeAgain, DoCompact, DoEvict, DoInsert, DoFailCall;
    Frame(s, ev);
    if ev.OfCall? && !ev.call.Start? {
      OldCallsOnly(s, ev.c, ev.call);
    }
  }

  lemma OldCallsOnly(s: State, c: nat, step: CallStep)
    requires !step.Start?
    ensures forall d :: d in ApplyCall(s, c, step).calls ==> d in s.calls
  {
    hide Compact;
  }

  lemma SizingTells(evs: seq<Event>, c: nat)
    ensures PhaseTells(evs, c, Sizing)
  {
  }

  /** Only a call that has counted at least 10000 compacts or evicts: what each of the two steps does to the store. */
  lemma {:induction false} StoreShrinksOnlyWhenFull(evs: seq<Event>, c: nat, now: int)
    ensures var s := Run(Init(true), evs);
            var compacted, evicted := Apply(s, OfCall(c, CompactStore(now))), Apply(s, OfCall(c, EvictOldest));
            && (compacted.store == s.store || (FoundFull(evs, c) && compacted.store == Compact(s.store, now - 300000)))
            && (evicted.store == s.store ||
                  (s.store != [] && evicted.store == s.store[1..] && exists size: nat ::
                    size >= 10000 && Counted(evs, c, true, size)))
  {
    hide Run, Compact, FoundFull, Counted;
    CallsDoWhatTheyCounted(evs, c);
  }

  /** What an insertion appends. */
  lemma InsertAppends(s: State, c: nat, now: int)
    requires c in s.calls && s.calls[c].phase.Adding?
    ensures var s' := Apply(s, OfCall(c, Insert(now)));
            s'.store == s.store + [Entry(s.nextId, s.calls[c].pos, now, false)] && s'.nextId == s.nextId + 1
  {
  }

  // ----------------------------------------------------------------- the chunk limit

  ghost predicate Within(limit: Option<int>, chunk: seq<Entry>) {
    chunk != [] && (limit.Some? ==> |chunk| <= limit.value)
  }

  /** What one flush has in flight and what it has sent is within its limit. */
  ghost predicate FlushWithin(fl: Flusher, batches: map<nat, Batch>) {
    && (HasChunk(fl.phase) ==> Within(fl.limit, fl.phase.chunk))
    && (forall i :: 0 <= i < |fl.sent| ==> fl.sent[i] in batches && Within(fl.limit, batches[fl.sent[i]].chunk))
  }

  ghost predicate LimitInv(s: State) {
    forall f :: f in s.flushers ==> FlushWithin(s.flushers[f], s.batches)
  }

  /** No step changes what a batch carries. */
  ghost predicate KeepsChunks(batches: map<nat, Batch>, batches': map<nat, Batch>) {
    forall b :: b in batches ==> b in batches' && batches'[b].chunk == batches[b].chunk
  }

  lemma LimitStays(s: State, s': State)
    requires LimitInv(s) && KeepsChunks(s.batches, s'.batches)
    requires forall f ::
        f in s'.flushers ==>
          (f in s.flushers && s'.flushers[f] == s.flushers[f]) || FlushWithin(s'.flushers[f], s'.batches)
    ensures LimitInv(s')
  {
    hide Within;
  }

  /** The read of a chunk: the first entries of the store, as many as the limit allows, or the whole store. */
  lemma ReadTakesFirst(s: State, f: nat)
    requires f in s.flushers && s.flushers[f].phase.Reading?
    ensures var s' := Apply(s, OfFlush(f, ReadChunk));
            var limit := s.flushers[f].limit;
            var n := if limit.None? || limit.value > |s.store| then |s.store| else if limit.value < 0 then 0
              else limit.value;
            && f in s'.flushers && s'.store == s.store && s'.batches == s.batches
            && s'.flushers == s.flushers[f := s'.flushers[f]]
            && s'.flushers[f].sent == s.flushers[f].sent && s'.flushers[f].limit == limit
            && (n == 0 ==> s'.flushers[f].phase == Ended && !s'.isFlushing)
            && (n > 0 ==> s'.flushers[f].phase == Chunked(s.store[..n]) && s'.isFlushing == s.isFlushing)
  {
    hide Take;
    var chunk := Take(s.store, s.flushers[f].limit);
    assert chunk == s.store[..|chunk|];
    assert Apply(s, OfFlush(f, ReadChunk)) == if chunk == [] then EndFlush(s, f) else SetFlush(s, f, Chunked(chunk));
  }

  lemma EmitWithin(s: State, f: nat, b: nat)
    requires LimitInv(s)
    ensures LimitInv(DoEmit(s, f, b))
  {
    hide Within;
    if f in s.flushers && s.flushers[f].phase.Chunked? && b !in s.batches {
      var s' := DoEmit(s, f, b);
      assert FlushWithin(s.flushers[f], s.batches);
      assert FlushWithin(s'.flushers[f], s'.batches);
      LimitStays(s, s');
    }
  }

  lemma ReadWithin(s: State, f: nat)
    requires LimitInv(s)
    ensures LimitInv(DoReadChunk(s, f))
  {
    if f in s.flushers && s.flushers[f].phase.Reading? {
      ReadTakesFirst(s, f);
      var s' := DoReadChunk(s, f);
      assert Apply(s, OfFlush(f, ReadChunk)) == s';
      assert FlushWithin(s.flushers[f], s.batches);
      assert FlushWithin(s'.flushers[f], s'.batches);
      LimitStays(s, s');
    }
  }

  /** A flush moves to a phase with no chunk or with the one it has. */
  lemma MoveWithin(s: State, s': State, f: nat, x: Flusher)
    requires LimitInv(s) && s'.batches == s.batches && s'.flushers == s.flushers[f := x]
    requires f in s.flushers ==> x.limit == s.flushers[f].limit && x.sent == s.flushers[f].sent
    requires f !in s.flushers ==> x.sent == []
    requires HasChunk(x.phase) ==>
        f in s.flushers && HasChunk(s.flushers[f].phase) && x.phase.chunk == s.flushers[f].phase.chunk
    ensures LimitInv(s')
  {
    hide Within;
    if f in s.flushers {
      assert FlushWithin(s.flushers[f], s.batches);
    }
    assert FlushWithin(x, s'.batches);
    LimitStays(s, s');
  }

  lemma BeginWithin(s: State, f: nat, limit: Option<int>)
    requires LimitInv(s)
    ensures LimitInv(DoStartFlush(s, f, limit))
  {
    hide LimitInv;
    if f !in s.flushers {
      MoveWithin(s, DoStartFlush(s, f, limit), f, Flusher(limit, if s.isFlushing then Ended else Reading, []));
    }
  }

  lemma ResumeWithin(s: State, f: nat)
    requires LimitInv(s)
    ensures LimitInv(DoResume(s, f))
  {
    hide LimitInv;
    if f in s.flushers && DoResume(s, f) != s {
      MoveWithin(s, DoResume(s, f), f, DoResume(s, f).flushers[f]);
    }
  }

  lemma AbortWithin(s: State, f: nat)
    requires LimitInv(s)
    ensures LimitInv(DoFailFlush(s, f))
  {
    hide LimitInv;
    if f in s.flushers && DoFailFlush(s, f) != s {
      MoveWithin(s, DoFailFlush(s, f), f, s.flushers[f].(phase := Ended));
    }
  }

  lemma DeleteWithin(s: State, f: nat)
    requires LimitInv(s)
    ensures LimitInv(DoDeleteChunk(s, f))
  {
    hide LimitInv, Without, Ids;
    if f in s.flushers && s.flushers[f].phase.Deleting? {
      MoveWithin(s, DoDeleteChunk(s, f), f, s.flushers[f].(phase := Reading));
    }
  }

  lemma NetKeepsChunks(s: State, step: NetStep)
    ensures KeepsChunks(s.batches, ApplyNet(s, step).batches)
  {
    hide Ids, DoDeliver, DoTimeout;
    match step
    case ServerSave(b, invalid) =>
    case ServerSaveUntagged(b, invalid) =>
    case ServerReject(b) =>
    case Deliver(r) => DeliverKeepsChunks(s, r);
    case Timeout(b) => TimeoutKeepsChunks(s, b);
  }

  lemma DeliverKeepsChunks(s: State, r: Reply)
    ensures KeepsChunks(s.batches, DoDeliver(s, r).batches)
  {
  }

  lemma TimeoutKeepsChunks(s: State, b: nat)
    ensures KeepsChunks(s.batches, DoTimeout(s, b).batches)
  {
  }

  lemma NetLimit(s: State, s': State)
    requires LimitInv(s) && s'.flushers == s.flushers && KeepsChunks(s.batches, s'.batches)
    ensures LimitInv(s')
  {
    hide Within, FlushWithin;
    LimitStaysForAll(s, s');
  }

  lemma LimitStaysForAll(s: State, s': State)
    requires LimitInv(s) && s'.flushers == s.flushers && KeepsChunks(s.batches, s'.batches)
    ensures forall f :: f in s.flushers ==> FlushWithin(s.flushers[f], s'.batches)
  {
    hide Within;
  }

  lemma NetWithin(s: State, step: NetStep)
    requires LimitInv(s)
    ensures LimitInv(ApplyNet(s, step))
  {
    hide Within, LimitInv, FlushWithin, KeepsChunks, ApplyNet, Disarmed;
    NetFrame(s, step);
    NetKeepsChunks(s, step);
    NetLimit(s, ApplyNet(s, step));
  }

  lemma FlushWithinStep(s: State, f: nat, step: FlushStep)
    requires LimitInv(s)
    ensures LimitInv(ApplyFlush(s, f, step))
  {
    hide LimitInv, DoStartFlush, DoReadChunk, DoEmit, DoResume, DoDeleteChunk, DoFailFlush;
    match step
    case Begin(limit) => BeginWithin(s, f, limit);
    case ReadChunk => ReadWithin(s, f);
    case Emit(b) => EmitWithin(s, f, b);
    case Resume => ResumeWithin(s, f);
    case DeleteChunk => DeleteWithin(s, f);
    case Abort => AbortWithin(s, f);
  }

  lemma StepKeepsLimit(s: State, ev: Event)
    requires LimitInv(s)
    ensures LimitInv(Apply(s, ev))
  {
    hide LimitInv, ApplyCall, ApplyFlush, ApplyNet;
    match ev
    case OfCall(c, step) =>
      CallFrame(s, c, step);
      SameLimit(s, Apply(s, ev));
    case OfFlush(f, step) =>
      FlushWithinStep(s, f, step);
    case OfNet(step) => NetWithin(s, step);
  }

  lemma SameLimit(s: State, s': State)
    requires LimitInv(s) && s'.flushers == s.flushers && s'.batches == s.batches
    ensures LimitInv(s')
  {
  }

  lemma {:induction false} RunKeepsLimit(evs: seq<Event>)
    ensures LimitInv(Run(Init(true), evs))
  {
    hide Apply;
    if evs != [] {
      RunKeepsLimit(evs[..|evs| - 1]);
      StepKeepsLimit(Run(Init(true), evs[..|evs| - 1]), evs[|evs| - 1]);
    }
  }

  /** Over every run, no chunk in flight and no batch that a flush sent is larger than its limit. */
  lemma {:induction false} BatchesAreWithinLimit(evs: seq<Event>, f: nat)
    ensures var s := Run(Init(true), evs);
            f in s.flushers && s.flushers[f].limit.Some? ==>
              && (HasChunk(s.flushers[f].phase) ==> 0 < |s.flushers[f].phase.chunk| <= s.flushers[f].limit.value)
              && forall i :: 0 <= i < |s.flushers[f].sent| ==>
                   var b := s.flushers[f].sent[i];
                   b in s.batches && 0 < |s.batches[b].chunk| <= s.flushers[f].limit.value
  {
    RunKeepsLimit(evs);
    hide Run;
  }
}
