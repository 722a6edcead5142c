/** When an eviction is reported, exactly. */
module QueueEvictions {
  import opened PositionStore
  import opened QueueProtocol
  import opened QueueSafety
  import opened QueueTheorems

  predicate Dropped(p: Phase) {
    p.Adding? && p.dropped
  }

  /** A storage error hits a call between its eviction and its insertion. */
  predicate FailsAfterEvicting(s: State, ev: Event, c: nat) {
    ev == OfCall(c, FailCall) && c in s.calls && Dropped(s.calls[c].phase)
  }

  ghost predicate InsertFails(evs: seq<Event>, c: nat) {
    exists k :: 0 <= k < |evs| && FailsAfterEvicting(Run(Init(true), evs[..k]), evs[k], c)
  }

  lemma InsertFailsSnoc(evs: seq<Event>, ev: Event, c: nat)
    ensures InsertFails(evs + [ev], c) <==> InsertFails(evs, c) || FailsAfterEvicting(Run(Init(true), evs), ev, c)
  {
    hide FailsAfterEvicting, Run;
    var more := evs + [ev];
    assert more[..|evs|] == evs && more[|evs|] == ev;
    forall k | 0 <= k < |evs| ensures more[..k] == evs[..k] && more[k] == evs[k] {}
  }

  // --------------------------------------------------------- one step of one call

  /** Where a step can take a call that has evicted. */
  ghost predicate Carries(s: State, s': State, ev: Event, c: nat)
    requires c in s.calls
  {
    && c in s'.calls
    && (s.calls[c].phase.Failed? || s.calls[c].phase.Done? ==> s'.calls[c].phase == s.calls[c].phase)
    && (Dropped(s.calls[c].phase) ==> Signals(s'.calls[c].phase) || FailsAfterEvicting(s, ev, c))
    && (FailsAfterEvicting(s, ev, c) ==> s'.calls[c].phase.Failed?)
  }

  lemma OwnStep(s: State, c: nat, step: CallStep)
    requires c in s.calls
    ensures Carries(s, ApplyCall(s, c, step), OfCall(c, step), c)
  {
    hide Compact;
  }

  lemma CallCarries(s: State, ev: Event, c: nat)
    requires c in s.calls
    ensures Carries(s, Apply(s, ev), ev, c)
  {
    hide ApplyCall;
    Frame(s, ev);
    if ev.OfCall? {
      if ev.c == c {
        OwnStep(s, c, ev.call);
      } else {
        CallFrame(s, ev.c, ev.call);
      }
    }
  }

  // ------------------------------------------------------- what stays evicted, and by whom

  ghost predicate HasEvicted(evicted: map<nat, nat>, c: nat) {
    exists y :: y in evicted && evicted[y] == c
  }

  /** What was evicted is gone for good, and a call about to report an eviction made one. */
  ghost predicate EvictInv(calls: map<nat, Call>, evicted: map<nat, nat>, store: seq<Entry>, nextId: nat) {
    && (forall y :: y in evicted ==> y < nextId && !Stored(store, y))
    && (forall c :: c in calls && Dropped(calls[c].phase) ==> HasEvicted(evicted, c))
  }

  /** A step that evicts nothing. */
  ghost predicate Spares(s: State, s': State) {
    && s'.evicted == s.evicted && s.nextId <= s'.nextId
    && (forall y: nat :: y < s.nextId && Stored(s'.store, y) ==> Stored(s.store, y))
    && (forall c :: c in s'.calls && Dropped(s'.calls[c].phase) ==> c in s.calls && Dropped(s.calls[c].phase))
  }

  lemma SparingKeeps(s: State, s': State)
    requires EvictInv(s.calls, s.evicted, s.store, s.nextId) && Spares(s, s')
    ensures EvictInv(s'.calls, s'.evicted, s'.store, s'.nextId)
  {
    hide Dropped, HasEvicted;
  }

  lemma CompactSpares(s: State, c: nat, now: int)
    ensures Spares(s, DoCompact(s, c, now))
  {
    CompactShrinksIds(s.store, now - COMPACT_HORIZON_MS);
  }

  lemma InsertSpares(s: State, c: nat, now: int)
    ensures Spares(s, DoInsert(s, c, now))
  {
    var s' := DoInsert(s, c, now);
    forall y: nat | y < s.nextId && Stored(s'.store, y) ensures Stored(s.store, y) {
      var i :| 0 <= i < |s'.store| && s'.store[i].id == y;
      assert i < |s.store| ==> s.store[i].id == y;
    }
  }

  /** A call moves, to a phase in which it has evicted nothing. */
  lemma MoveSpares(s: State, c: nat, call: Call)
    requires !Dropped(call.phase)
    ensures Spares(s, s.(calls := s.calls[c := call])) && Spares(s, s)
  {
    hide Stored;
  }

  lemma ReadSpares(s: State, c: nat)
    ensures Spares(s, DoReadSize(s, c)) && Spares(s, DoReadSizeAgain(s, c))
  {
    hide Spares;
    MoveSpares(s, c, Call(Position(0, Missing), Sizing));
    if c in s.calls {
      MoveSpares(s, c, s.calls[c].(phase := Adding(|s.store|, false)));
      MoveSpares(s, c, s.calls[c].(phase := Compacting));
      MoveSpares(s, c, s.calls[c].(phase := Evicting(|s.store|)));
    }
  }

  lemma EndSpares(s: State, c: nat, pos: Position)
    ensures Spares(s, DoStartEnqueue(s, c, pos)) && Spares(s, DoFailCall(s, c))
  {
    hide Spares;
    MoveSpares(s, c, Call(pos, Sizing));
    if c in s.calls {
      MoveSpares(s, c, s.calls[c].(phase := Failed));
    }
  }

  lemma CallSpares(s: State, c: nat, step: CallStep)
    requires !step.EvictOldest?
    ensures Spares(s, ApplyCall(s, c, step))
  {
    hide Spares, DoStartEnqueue, DoReadSize, DoReadSizeAgain, DoFailCall, DoCompact, DoInsert, DoEvict;
    match step
    case Start(pos) => EndSpares(s, c, pos);
    case ReadSize => ReadSpares(s, c);
    case CompactStore(now) => CompactSpares(s, c, now);
    case ReadSizeAgain => ReadSpares(s, c);
    case Insert(now) => InsertSpares(s, c, now);
    case FailCall => EndSpares(s, c, Position(0, Missing));
  }

  /** The lowest id leaves the store. */
  lemma TailLoses(store: seq<Entry>)
    requires store != [] && Ordered(store)
    ensures Stored(store, store[0].id)
    ensures forall y :: Stored(store[1..], y) ==> Stored(store, y) && y != store[0].id
  {
    forall y | Stored(store[1..], y) ensures Stored(store, y) && y != store[0].id {
      var i :| 0 <= i < |store[1..]| && store[1..][i].id == y;
      assert store[i + 1].id == y;
    }
  }

  lemma EvictorsGrow(calls: map<nat, Call>, evicted: map<nat, nat>, c: nat, y: nat, size: nat)
    requires c in calls && y !in evicted
    requires forall d :: d in calls && Dropped(calls[d].phase) ==> HasEvicted(evicted, d)
    ensures var calls' := calls[c := calls[c].(phase := Adding(size, true))];
            forall d :: d in calls' && Dropped(calls'[d].phase) ==> HasEvicted(evicted[y := c], d)
  {
    var calls' := calls[c := calls[c].(phase := Adding(size, true))];
    assert y in evicted[y := c] && evicted[y := c][y] == c;
    forall d | d in calls' && Dropped(calls'[d].phase) ensures HasEvicted(evicted[y := c], d) {
      if d != c {
        var z :| z in evicted && evicted[z] == d;
        assert evicted[y := c][z] == d;
      }
    }
  }

  /** An eviction takes the lowest id, which was never evicted before. */
  lemma EvictKeeps(s: State, c: nat)
    requires StoreInv(s.store, s.history, s.nextId) && EvictInv(s.calls, s.evicted, s.store, s.nextId)
    ensures var s' := DoEvict(s, c);
            && EvictInv(s'.calls, s'.evicted, s'.store, s'.nextId)
            && forall y :: y in s.evicted ==> y in s'.evicted && s'.evicted[y] == s.evicted[y]
  {
    hide HasEvicted;
    if c in s.calls && s.calls[c].phase.Evicting? && s.store != [] {
      TailLoses(s.store);
      EvictorsGrow(s.calls, s.evicted, c, s.store[0].id, s.calls[c].phase.size);
    }
  }

  lemma StepKeepsEvictions(s: State, ev: Event)
    requires Inv(s) && EvictInv(s.calls, s.evicted, s.store, s.nextId)
    ensures var s' := Apply(s, ev);
            && EvictInv(s'.calls, s'.evicted, s'.store, s'.nextId)
            && forall y :: y in s.evicted ==> y in s'.evicted && s'.evicted[y] == s.evicted[y]
  {
    hide ApplyCall, EvictInv, StoreInv, CallInv, LockInv, LogInv, ChunkInv, PromiseInv, SentInv, ReplyInv,
      AckInv;
    Frame(s, ev);
    if ev.OfCall? && ev.call.EvictOldest? {
      EvictKeeps(s, ev.c);
      EvictIsEvict(s, ev.c);
    } else {
      if ev.OfCall? {
        CallSpares(s, ev.c, ev.call);
      }
      SparingKeeps(s, Apply(s, ev));
    }
  }

  lemma EvictIsEvict(s: State, c: nat)
    ensures ApplyCall(s, c, EvictOldest) == DoEvict(s, c)
  {
  }

  lemma {:induction false} RunKeepsEvictions(evs: seq<Event>)
    ensures var s := Run(Init(true), evs); EvictInv(s.calls, s.evicted, s.store, s.nextId)
  {
    if evs != [] {
      var rest := evs[..|evs| - 1];
      RunKeepsEvictions(rest);
      RunKeepsInv(rest);
      StepKeepsEvictions(Run(Init(true), rest), evs[|evs| - 1]);
    }
  }

  // --------------------------------------------------------------- the reports

  /** A call whose insertion failed after an eviction is over without a report, and did evict. */
  lemma {:induction false} FailedInsertStaysFailed(evs: seq<Event>, c: nat)
    requires InsertFails(evs, c)
    ensures var s := Run(Init(true), evs);
            c in s.calls && s.calls[c].phase.Failed? && HasEvicted(s.evicted, c)
  {
    hide Inv, EvictInv, Apply;
    var rest, last := evs[..|evs| - 1], evs[|evs| - 1];
    var s := Run(Init(true), rest);
    assert evs == rest + [last];
    InsertFailsSnoc(rest, last, c);
    RunKeepsInv(rest);
    RunKeepsEvictions(rest);
    StepKeepsEvictions(s, last);
    if InsertFails(rest, c) {
      FailedInsertStaysFailed(rest, c);
    } else {
      DroppedHasEvicted(s, c);
    }
    CallCarries(s, last, c);
  }

  lemma DroppedHasEvicted(s: State, c: nat)
    requires EvictInv(s.calls, s.evicted, s.store, s.nextId) && c in s.calls && Dropped(s.calls[c].phase)
    ensures HasEvicted(s.evicted, c)
  {
  }

  /** A call that evicted signals it, or its insertion has failed. */
  lemma {:induction false} EvictorSignals(evs: seq<Event>, y: nat)
    ensures var s := Run(Init(true), evs);
            y in s.evicted ==>
              && s.evicted[y] in s.calls
              && (Signals(s.calls[s.evicted[y]].phase) || InsertFails(evs, s.evicted[y]))
  {
    hide Inv, InsertFails, Apply;
    if evs != [] {
      var rest, last := evs[..|evs| - 1], evs[|evs| - 1];
      var s, s' := Run(Init(true), rest), Run(Init(true), evs);
      assert evs == rest + [last];
      EvictorSignals(rest, y);
      if y in s'.evicted {
        InsertFailsSnoc(rest, last, s'.evicted[y]);
        if y in s.evicted && s'.evicted[y] == s.evicted[y] {
          CallCarries(s, last, s.evicted[y]);
        } else {
          FreshEviction(s, last, y);
        }
      }
    }
  }

  lemma NewOwner(evicted: map<nat, nat>, low: nat, c: nat, y: nat)
    requires var evicted' := evicted[low := c]; y in evicted' && !(y in evicted && evicted'[y] == evicted[y])
    ensures evicted[low := c][y] == c
  {
  }

  /** The two fields an eviction changes. */
  lemma EvictEffect(s: State, c: nat)
    requires c in s.calls && s.calls[c].phase.Evicting? && s.store != []
    ensures var s' := DoEvict(s, c);
            && s'.evicted == s.evicted[s.store[0].id := c]
            && c in s'.calls && Signals(s'.calls[c].phase)
  {
  }

  lemma FreshOwner(s: State, c: nat, y: nat)
    requires y in DoEvict(s, c).evicted && !(y in s.evicted && DoEvict(s, c).evicted[y] == s.evicted[y])
    ensures var s' := DoEvict(s, c); s'.evicted[y] in s'.calls && Signals(s'.calls[s'.evicted[y]].phase)
  {
    hide Signals, DoEvict;
    EvictsOnlyThen(s, c);
    EvictEffect(s, c);
    NewOwner(s.evicted, s.store[0].id, c, y);
  }

  lemma EvictsOnlyThen(s: State, c: nat)
    requires DoEvict(s, c).evicted != s.evicted
    ensures c in s.calls && s.calls[c].phase.Evicting? && s.store != []
  {
  }

  /** A step that evicts leaves its call about to report it. */
  lemma FreshEviction(s: State, ev: Event, y: nat)
    requires y in Apply(s, ev).evicted && !(y in s.evicted && Apply(s, ev).evicted[y] == s.evicted[y])
    ensures var s' := Apply(s, ev); s'.evicted[y] in s'.calls && Signals(s'.calls[s'.evicted[y]].phase)
  {
    hide ApplyCall, Signals, Dropped, Stored, Shrinks, Disarmed;
    Frame(s, ev);
    if ev.OfCall? {
      if ev.call.EvictOldest? {
        EvictIsEvict(s, ev.c);
        hide DoEvict;
        FreshOwner(s, ev.c, y);
      } else {
        CallSpares(s, ev.c, ev.call);
      }
    }
  }

  ghost predicate Over(s: State, c: nat) {
    c in s.calls && !Running(s.calls[c].phase)
  }

  predicate Reported(s: State, c: nat) {
    c in s.calls && s.calls[c].phase.Done? && s.calls[c].phase.result.droppedOldest
  }

  /**
   Once the evicting call is over, it has answered droppedOldest exactly if it was not rejected,
   and it was rejected exactly if a storage error hit it between its eviction and its insertion.
   */
  lemma {:induction false} EvictionsAreReported(evs: seq<Event>, y: nat)
    ensures var s := Run(Init(true), evs);
            y in s.evicted && Over(s, s.evicted[y]) ==>
              var c := s.evicted[y];
              && (Reported(s, c) <==> !s.calls[c].phase.Failed?)
              && (Reported(s, c) <==> !InsertFails(evs, c))
  {
    EvictorSignals(evs, y);
    var s := Run(Init(true), evs);
    if y in s.evicted && InsertFails(evs, s.evicted[y]) {
      FailedInsertStaysFailed(evs, s.evicted[y]);
    }
    hide InsertFails, Run;
  }

  ghost predicate AllReported(s: State) {
    forall y :: y in s.evicted && Over(s, s.evicted[y]) ==> Reported(s, s.evicted[y])
  }

  lemma FailedInsertHides(evs: seq<Event>, c: nat)
    requires InsertFails(evs, c)
    ensures !AllReported(Run(Init(true), evs))
  {
    FailedInsertStaysFailed(evs, c);
    hide InsertFails, Run;
    var s := Run(Init(true), evs);
    var y :| y in s.evicted && s.evicted[y] == c;
    assert Over(s, s.evicted[y]) && !Reported(s, s.evicted[y]);
  }

  /** Every eviction of a run is reported exactly if no insertion failed after an eviction. */
  lemma {:induction false} AllEvictionsReportedIff(evs: seq<Event>)
    ensures AllReported(Run(Init(true), evs)) <==> forall c :: !InsertFails(evs, c)
  {
    hide InsertFails, Run;
    var s := Run(Init(true), evs);
    forall y | y in s.evicted && Over(s, s.evicted[y])
      ensures Reported(s, s.evicted[y]) <==> !InsertFails(evs, s.evicted[y])
    {
      EvictionsAreReported(evs, y);
    }
    forall c | InsertFails(evs, c) ensures !AllReported(s) {
      FailedInsertHides(evs, c);
    }
  }
}
