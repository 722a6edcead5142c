/**
 The two halves together: the sender hands positions to the local queue, whose calls, flushes and
 batches interleave with it. Every offered position is followed to the end.
 */
module DriverPipeline {
  import opened PositionStore
  import opened QueueFates
  import opened Wrappers
  import Q = QueueProtocol
  import QueueTheorems
  import S = PositionSender

  // `link` says which enqueue call a position was handed to.
  datatype State = State(sender: S.State, queue: Q.State, link: map<nat, nat>)

  // A step of the sender, with the number of the enqueue call and the timestamp if it hands a
  // position over; or a step of the queue, the flushes and the network.
  datatype Event = Sense(sense: S.Event, c: nat, stamp: Stamp) | Store(store: Q.Event)

  function Init(attributed: bool): State {
    State(S.Init(attributed), Q.Init(true), map[])
  }

  /** The position that a step of the sender hands to queuePosition, if any. */
  function HandedOver(x: S.State, x': S.State): Option<nat> {
    if |x'.log| > |x.log| && x'.log[|x.log|].fate.Queued? then Some(x'.log[|x.log|].fix) else None
  }

  /** The enqueue that the sender awaits is over, with a result or with an error that is swallowed. */
  predicate EnqueueOver(s: State) {
    s.sender.waiting.Some? ==>
      && s.sender.waiting.value in s.link
      && s.link[s.sender.waiting.value] in s.queue.calls
      && !Q.Running(s.queue.calls[s.link[s.sender.waiting.value]].phase)
  }

  /** The sender goes on after the enqueue it awaits; a new enqueue gets a new number. */
  predicate Enabled(s: State, ev: Event) {
    if ev.Store? then !(ev.store.OfCall? && ev.store.call.Start?)
    else
      && (ev.sense.QueueDone? ==> EnqueueOver(s))
      && (HandedOver(s.sender, S.Apply(s.sender, ev.sense)).Some? ==> ev.c !in s.queue.calls)
  }

  function StartOf(fix: nat, c: nat, stamp: Stamp): Q.Event {
    Q.OfCall(c, Q.Start(Position(fix, stamp)))
  }

  function Apply(s: State, ev: Event): State {
    if !Enabled(s, ev) then s
    else
      match ev
      case Store(store) => s.(queue := Q.Apply(s.queue, store))
      case Sense(sense, c, stamp) =>
        var x := S.Apply(s.sender, sense);
        var fix := HandedOver(s.sender, x);
        if fix.None? then s.(sender := x)
        else State(x, Q.Apply(s.queue, StartOf(fix.value, c, stamp)), s.link[fix.value := c])
  }

  function Run(s: State, evs: seq<Event>): State {
    if evs == [] then s else Apply(Run(s, evs[..|evs| - 1]), evs[|evs| - 1])
  }

  // ------------------------------------------------- each half runs as if it were alone

  function SenderStep(s: State, ev: Event): seq<S.Event> {
    if Enabled(s, ev) && ev.Sense? then [ev.sense] else []
  }

  function QueueStep(s: State, ev: Event): seq<Q.Event> {
    if !Enabled(s, ev) then []
    else if ev.Store? then [ev.store]
    else
      var fix := HandedOver(s.sender, S.Apply(s.sender, ev.sense));
      if fix.None? then [] else [StartOf(fix.value, ev.c, ev.stamp)]
  }

  function SenderEvents(s: State, evs: seq<Event>): seq<S.Event> {
    if evs == [] then []
    else
      var rest := evs[..|evs| - 1];
      SenderEvents(s, rest) + SenderStep(Run(s, rest), evs[|evs| - 1])
  }

  function QueueEvents(s: State, evs: seq<Event>): seq<Q.Event> {
    if evs == [] then []
    else
      var rest := evs[..|evs| - 1];
      QueueEvents(s, rest) + QueueStep(Run(s, rest), evs[|evs| - 1])
  }

  lemma SenderRunStep(x: S.State, evs: seq<S.Event>, more: seq<S.Event>)
    requires |more| <= 1
    ensures S.Run(x, evs + more) == if more == [] then S.Run(x, evs) else S.Apply(S.Run(x, evs), more[0])
  {
    hide S.Apply;
    if more == [] {
      assert evs + more == evs;
    } else {
      assert (evs + more)[..|evs|] == evs && (evs + more)[|evs|] == more[0];
    }
  }

  lemma QueueRunStep(q: Q.State, evs: seq<Q.Event>, more: seq<Q.Event>)
    requires |more| <= 1
    ensures Q.Run(q, evs + more) == if more == [] then Q.Run(q, evs) else Q.Apply(Q.Run(q, evs), more[0])
  {
    hide Q.Apply;
    if more == [] {
      assert evs + more == evs;
    } else {
      assert (evs + more)[..|evs|] == evs && (evs + more)[|evs|] == more[0];
    }
  }

  lemma HalvesStep(s: State, ev: Event)
    ensures var s', xs, qs := Apply(s, ev), SenderStep(s, ev), QueueStep(s, ev);
            && |xs| <= 1 && s'.sender == (if xs == [] then s.sender else S.Apply(s.sender, xs[0]))
            && |qs| <= 1 && s'.queue == (if qs == [] then s.queue else Q.Apply(s.queue, qs[0]))
  {
    hide S.Apply, Q.Apply, Enabled, HandedOver;
  }

  lemma {:induction false} HalvesRun(attributed: bool, evs: seq<Event>)
    ensures var s0 := Init(attributed);
            var s := Run(s0, evs);
            && s.sender == S.Run(s0.sender, SenderEvents(s0, evs))
            && s.queue == Q.Run(s0.queue, QueueEvents(s0, evs))
  {
    hide Apply, S.Apply, Q.Apply, S.Init, Q.Init, SenderStep, QueueStep;
    if evs != [] {
      var s0, rest, last := Init(attributed), evs[..|evs| - 1], evs[|evs| - 1];
      var s := Run(s0, rest);
      HalvesRun(attributed, rest);
      HalvesStep(s, last);
      SenderRunStep(s0.sender, SenderEvents(s0, rest), SenderStep(s, last));
      QueueRunStep(s0.queue, QueueEvents(s0, rest), QueueStep(s, last));
    }
  }

  // -------------------------------------------------------------- the link between them

  /** The position was handed to a call that is for this position. */
  ghost predicate Linked(s: State, fix: nat) {
    fix in s.link && s.link[fix] in s.queue.calls && s.queue.calls[s.link[fix]].pos.payload == fix
  }

  ghost predicate LinkInv(s: State) {
    forall k :: 0 <= k < |s.sender.log| && s.sender.log[k].fate.Queued? ==> Linked(s, s.sender.log[k].fix)
  }

  /** No step changes the position a call is for. */
  lemma CallsKeepPosition(q: Q.State, ev: Q.Event, c: nat)
    requires c in q.calls
    ensures var q' := Q.Apply(q, ev); c in q'.calls && q'.calls[c].pos == q.calls[c].pos
  {
    hide Q.ApplyCall;
    QueueTheorems.Frame(q, ev);
    if ev.OfCall? {
      QueueTheorems.CallFrame(q, ev.c, ev.call);
    }
  }

  /** A step of the sender adds at most one outcome. */
  lemma LogStep(x: S.State, ev: S.Event)
    ensures var x' := S.Apply(x, ev);
            x'.log == x.log || (|x'.log| == |x.log| + 1 && x'.log[..|x.log|] == x.log)
  {
  }

  lemma StartIsLinked(q: Q.State, fix: nat, c: nat, stamp: Stamp)
    requires c !in q.calls
    ensures var q' := Q.Apply(q, StartOf(fix, c, stamp));
            c in q'.calls && q'.calls[c].pos.payload == fix
  {
  }

  lemma LinkStep(s: State, ev: Event)
    requires LinkInv(s)
    ensures LinkInv(Apply(s, ev))
  {
    hide S.Apply, Q.Apply, StartOf, EnqueueOver;
    var s' := Apply(s, ev);
    if Enabled(s, ev) {
      if ev.Sense? {
        LogStep(s.sender, ev.sense);
        var fix := HandedOver(s.sender, S.Apply(s.sender, ev.sense));
        if fix.Some? {
          StartIsLinked(s.queue, fix.value, ev.c, ev.stamp);
        }
      }
      forall k | 0 <= k < |s'.sender.log| && s'.sender.log[k].fate.Queued? ensures Linked(s', s'.sender.log[k].fix) {
        if k < |s.sender.log| {
          LinkedStays(s, ev, s.sender.log[k].fix);
        }
      }
    }
  }

  lemma LinkedStays(s: State, ev: Event, fix: nat)
    requires Enabled(s, ev) && Linked(s, fix)
    ensures var s' := Apply(s, ev);
            Linked(s', fix) || (fix in s'.link && HandedOver(s.sender, s'.sender) == Some(fix) && ev.Sense?)
  {
    hide S.Apply, Q.Apply, EnqueueOver, HandedOver;
    match ev
    case Store(store) =>
      CallsKeepPosition(s.queue, store, s.link[fix]);
    case Sense(sense, c, stamp) =>
      var x := HandedOver(s.sender, S.Apply(s.sender, sense));
      if x.Some? {
        CallsKeepPosition(s.queue, StartOf(x.value, c, stamp), s.link[fix]);
      }
  }

  lemma {:induction false} RunIsLinked(attributed: bool, evs: seq<Event>)
    ensures LinkInv(Run(Init(attributed), evs))
  {
    hide Apply;
    if evs != [] {
      RunIsLinked(attributed, evs[..|evs| - 1]);
      LinkStep(Run(Init(attributed), evs[..|evs| - 1]), evs[|evs| - 1]);
    }
  }

  // ------------------------------------------------------------- the two in step

  /** A step of the sender that hands a position over starts an enqueue call for it, and nothing else. */
  lemma HandOverStarts(s: State, sense: S.Event, c: nat, stamp: Stamp, fix: nat)
    requires c !in s.queue.calls && !sense.QueueDone?
    requires S.Apply(s.sender, sense).log == s.sender.log + [S.Outcome(fix, S.Queued)]
    ensures var s' := Apply(s, Sense(sense, c, stamp));
            && s'.sender == S.Apply(s.sender, sense) && s'.link == s.link[fix := c]
            && s'.queue == s.queue.(calls := s.queue.calls[c := Q.Call(Position(fix, stamp), Q.Sizing)])
  {
    hide S.Apply;
  }

  /** While its enqueue runs the sender stays busy; when the call has answered or failed, it is free again. */
  lemma SenderAwaitsEnqueue(s: State, fix: nat, c: nat, stamp: Stamp)
    requires s.sender.waiting == Some(fix) && fix in s.link && s.link[fix] in s.queue.calls
    ensures var s' := Apply(s, Sense(S.QueueDone, c, stamp));
            var phase := s.queue.calls[s.link[fix]].phase;
            s' == if phase.Done? || phase.Failed? then
              s.(sender := s.sender.(waiting := None, isSending := false)) else s
  {
    var x := S.Apply(s.sender, S.QueueDone);
    assert x == s.sender.(waiting := None, isSending := false);
    assert HandedOver(s.sender, x).None?;
  }

  /** The queue, the flushes and the network run on their own, but for the start of a call. */
  lemma QueueRunsFreely(s: State, store: Q.Event)
    ensures Apply(s, Store(store)) ==
            if store.OfCall? && store.call.Start? then s else s.(queue := Q.Apply(s.queue, store))
  {
    hide Q.Apply;
  }

  // ------------------------------------------------------------------- the theorem

  /** The entry that keeps the position, once its call has answered queued. */
  ghost predicate KeptAs(s: State, qs: seq<Q.Event>, fix: nat, reported: bool) {
    && Linked(s, fix)
    && var call := s.queue.calls[s.link[fix]];
       && call.phase.Done? && call.phase.result.queued && call.phase.id.Some?
       && call.phase.id.value in s.queue.history && s.queue.history[call.phase.id.value].pos == call.pos
       && var k := Keeper(qs, call.phase.id.value);
          && k in s.queue.history && Covers(s.queue.history[k], s.queue.history[call.phase.id.value])
          && if reported then AccountedFor(s.queue, k) else Unreported(s.queue, k) && !AccountedFor(s.queue, k)
  }

  /** The call that the position was handed to is still running. */
  predicate BeingQueued(s: State, fix: nat) {
    fix in s.link && s.link[fix] in s.queue.calls && Q.Running(s.queue.calls[s.link[fix]].phase)
  }

  /** A storage error rejected the call, and queuePosition swallows it. */
  predicate EnqueueFailed(s: State, fix: nat) {
    fix in s.link && s.link[fix] in s.queue.calls && s.queue.calls[s.link[fix]].phase.Failed?
  }

  /** The call answered queued: false, for which queuePosition raises no alert. */
  predicate Refused(s: State, fix: nat) {
    && fix in s.link && s.link[fix] in s.queue.calls
    && s.queue.calls[s.link[fix]].phase.Done? && !s.queue.calls[s.link[fix]].phase.result.queued
  }

  /** In flight, saved, thrown away as invalid, being queued, or kept by an entry that is accounted for. */
  ghost predicate Safe(s: State, qs: seq<Q.Event>, fix: nat) {
    || S.InFlight(s.sender.requests, fix)
    || (S.Outcome(fix, S.Saved) in s.sender.log && fix in s.sender.persisted)
    || S.Outcome(fix, S.Dropped) in s.sender.log
    || (S.Outcome(fix, S.Queued) in s.sender.log && (BeingQueued(s, fix) || KeptAs(s, qs, fix, true)))
  }

  /** Another position's answer was taken for it, its enqueue failed or was refused, or its eviction went unreported. */
  ghost predicate Lost(s: State, qs: seq<Q.Event>, fix: nat) {
    || (S.Outcome(fix, S.Saved) in s.sender.log && fix !in s.sender.persisted)
    || (S.Outcome(fix, S.Queued) in s.sender.log &&
          (EnqueueFailed(s, fix) || Refused(s, fix) || KeptAs(s, qs, fix, false)))
  }

  /** A position with an outcome has no other, and is not in flight. */
  lemma OneOutcome(x: S.State, fix: nat)
    requires S.FateInv(x) && fix in x.offered
    ensures S.InFlight(x.requests, fix) || exists f :: S.Outcome(fix, f) in x.log
    ensures forall f, g :: S.Outcome(fix, f) in x.log && S.Outcome(fix, g) in x.log ==> f == g
    ensures forall f :: S.Outcome(fix, f) in x.log ==> !S.InFlight(x.requests, fix)
  {
    if S.Logged(x.log, fix) {
      var k :| 0 <= k < |x.log| && x.log[k].fix == fix;
      assert x.log[k] == S.Outcome(fix, x.log[k].fate);
    }
    forall f, g | S.Outcome(fix, f) in x.log && S.Outcome(fix, g) in x.log ensures f == g {
      var k :| 0 <= k < |x.log| && x.log[k] == S.Outcome(fix, f);
      var l :| 0 <= l < |x.log| && x.log[l] == S.Outcome(fix, g);
      assert !(k < l) && !(l < k);
    }
  }

  /** What became of a position that was handed to the queue. */
  lemma QueuedFate(attributed: bool, evs: seq<Event>, fix: nat)
    requires S.Outcome(fix, S.Queued) in Run(Init(attributed), evs).sender.log
    ensures var s, qs := Run(Init(attributed), evs), QueueEvents(Init(attributed), evs);
            BeingQueued(s, fix) || EnqueueFailed(s, fix) || Refused(s, fix) || KeptAs(s, qs, fix, true) ||
              KeptAs(s, qs, fix, false)
  {
    hide Run, QueueEvents, SenderEvents, Keeper, AccountedFor, Unreported, Covers, Q.Run, S.Run;
    var s, qs := Run(Init(attributed), evs), QueueEvents(Init(attributed), evs);
    RunIsLinked(attributed, evs);
    HalvesRun(attributed, evs);
    var k :| 0 <= k < |s.sender.log| && s.sender.log[k] == S.Outcome(fix, S.Queued);
    assert Linked(s, fix);
    NoSilentLoss(qs, s.link[fix]);
  }

  /**
   End to end: over every interleaving of the sender, the queue and the network, each offered
   position is safe, unless another position's answer was taken for it, its enqueue was rejected or
   refused, or the entry that kept it was evicted without a report.
   */
  lemma {:induction false} EveryOfferedPositionIsSafeOrLost(attributed: bool, evs: seq<Event>, fix: nat)
    ensures var s, qs := Run(Init(attributed), evs), QueueEvents(Init(attributed), evs);
            fix in s.sender.offered ==> (Safe(s, qs, fix) <==> !Lost(s, qs, fix))
  {
    hide Run, QueueEvents, SenderEvents, BeingQueued, EnqueueFailed, Refused, KeptAs, S.InFlight, S.Run, Q.Run;
    var s, qs := Run(Init(attributed), evs), QueueEvents(Init(attributed), evs);
    HalvesRun(attributed, evs);
    S.RunKeepsInv(attributed, SenderEvents(Init(attributed), evs));
    if fix in s.sender.offered {
      OneOutcome(s.sender, fix);
      if S.Outcome(fix, S.Queued) in s.sender.log {
        QueuedFate(attributed, evs, fix);
        QueuedFatesDiffer(s, qs, fix);
      }
    }
  }

  lemma QueuedFatesDiffer(s: State, qs: seq<Q.Event>, fix: nat)
    ensures BeingQueued(s, fix) || KeptAs(s, qs, fix, true) ==>
              !EnqueueFailed(s, fix) && !Refused(s, fix) && !KeptAs(s, qs, fix, false)
  {
    hide Keeper, AccountedFor, Unreported, Covers;
  }
}
