/**
 The single-position send: the busy flag, the throttle, one request with its timer and its two
 listeners, and the local queue that takes every position not sent.
 */
module PositionSender {
  import opened Wrappers

  const ACCURACY_REJECT: int := 80
  const DEFAULT_ACCURACY: int := 50
  const LOCATION_FASTEST_INTERVAL_MS: int := 2000

  // One emitted position: what is still armed for it, and its settled flag.
  datatype Request = Request(fix: nat, onSaved: bool, onRejected: bool, timer: bool, settled: bool)

  // What became of an offered position.
  datatype Fate = Saved | Queued | Dropped

  datatype Outcome = Outcome(fix: nat, fate: Fate)

  // A server answer; `owner` is the position it answers, which the message does not carry.
  datatype Reply = PositionSaved(owner: nat) | PositionRejected(owner: nat, invalid: bool)

  datatype State = State(
    attributed: bool,            // answers reach the request they belong to
    isSending: bool,
    lastSendTime: int,
    requests: seq<Request>,
    waiting: Option<nat>,        // a local enqueue whose completion clears the busy flag
    offered: set<nat>,
    log: seq<Outcome>,
    initiations: seq<int>,
    persisted: set<nat>,
    handled: set<nat>,           // the requests the server has dealt with: each once
    replies: set<Reply>          // answers not yet delivered: each is delivered or lost once
  )

  datatype Event =
    | Offer(fix: nat, accuracy: Option<int>, now: int, connected: bool)
    | ServerSave(i: nat)
    | ServerReject(i: nat, invalid: bool)
    | ServerSilent(i: nat, saved: bool)  // some branches answer nothing, one of them after saving
    | Hear(i: nat, r: Reply)             // the i-th request's listener runs
    | Lose(r: Reply)                     // nobody listens, or the connection is gone
    | Timeout(i: nat)
    | QueueDone

  function Init(attributed: bool): State {
    State(attributed, false, 0, [], None, {}, [], [], {}, {}, {})
  }

  function HandOver(s: State, fix: nat): State {
    s.(log := s.log + [Outcome(fix, Queued)])
  }

  function DoOffer(s: State, fix: nat, accuracy: Option<int>, now: int, connected: bool): State {
    if fix in s.offered then s
    else
      var s' := s.(offered := s.offered + {fix});
      var acc := if accuracy.Some? then accuracy.value else DEFAULT_ACCURACY;
      if s.isSending || acc >= ACCURACY_REJECT || now - s.lastSendTime < LOCATION_FASTEST_INTERVAL_MS then
        HandOver(s', fix)
      else
        var busy := s'.(lastSendTime := now, isSending := true, initiations := s.initiations + [now]);
        if connected then busy.(requests := s.requests + [Request(fix, true, true, true, false)])
        else HandOver(busy, fix).(waiting := Some(fix))
  }

  function DoServerSave(s: State, i: nat): State {
    if i >= |s.requests| || i in s.handled then s
    else
      var fix := s.requests[i].fix;
      s.(persisted := s.persisted + {fix}, handled := s.handled + {i}, replies := s.replies + {PositionSaved(fix)})
  }

  function DoServerReject(s: State, i: nat, invalid: bool): State {
    if i >= |s.requests| || i in s.handled then s
    else s.(handled := s.handled + {i}, replies := s.replies + {PositionRejected(s.requests[i].fix, invalid)})
  }

  function DoServerSilent(s: State, i: nat, saved: bool): State {
    if i >= |s.requests| || i in s.handled then s
    else
      var more := if saved then {s.requests[i].fix} else {};
      s.(persisted := s.persisted + more, handled := s.handled + {i})
  }

  function DoLose(s: State, r: Reply): State {
    s.(replies := s.replies - {r})
  }

  /** The settled flag is set, the timer cleared and both listeners removed. */
  function Disarm(s: State, i: nat): State
    requires i < |s.requests|
  {
    s.(requests := s.requests[i := Request(s.requests[i].fix, false, false, false, true)])
  }

  /** A delivered answer is consumed, whether or not the listener still acts on it. */
  function DoHear(s: State, i: nat, r: Reply): State {
    if i >= |s.requests| || r !in s.replies || (s.attributed && r.owner != s.requests[i].fix) then s
    else
      var x := s.requests[i];
      var s' := DoLose(s, r);
      match r
      case PositionSaved(_) =>
        if !x.onSaved || x.settled then s'
        else Disarm(s', i).(isSending := false, log := s.log + [Outcome(x.fix, Saved)])
      case PositionRejected(_, invalid) =>
        if !x.onRejected || x.settled then s'
        else if invalid then Disarm(s', i).(isSending := false, log := s.log + [Outcome(x.fix, Dropped)])
        else HandOver(Disarm(s', i), x.fix).(waiting := Some(x.fix))
  }

  function DoTimeout(s: State, i: nat): State {
    if i >= |s.requests| || !s.requests[i].timer || s.requests[i].settled then s
    else HandOver(Disarm(s, i), s.requests[i].fix).(isSending := false)
  }

  function DoQueueDone(s: State): State {
    if s.waiting.None? then s else s.(waiting := None, isSending := false)
  }

  function Apply(s: State, ev: Event): State {
    match ev
    case Offer(fix, accuracy, now, connected) => DoOffer(s, fix, accuracy, now, connected)
    case ServerSave(i) => DoServerSave(s, i)
    case ServerReject(i, invalid) => DoServerReject(s, i, invalid)
    case ServerSilent(i, saved) => DoServerSilent(s, i, saved)
    case Hear(i, r) => DoHear(s, i, r)
    case Lose(r) => DoLose(s, r)
    case Timeout(i) => DoTimeout(s, i)
    case QueueDone => DoQueueDone(s)
  }

  function Run(s: State, evs: seq<Event>): State {
    if evs == [] then s else Apply(Run(s, evs[..|evs| - 1]), evs[|evs| - 1])
  }

  // -------------------------------------------------- the callbacks, as they run

  class Sender {
    var isSending: bool
    var lastSendTime: int
    var requests: seq<Request>
    var waiting: Option<nat>
    // The histories, and the network as the protocol sees it.
    ghost const attributed: bool
    ghost var offered: set<nat>
    ghost var log: seq<Outcome>
    ghost var initiations: seq<int>
    ghost var persisted: set<nat>
    ghost var handled: set<nat>
    ghost var replies: set<Reply>

    ghost function Abs(): State
      reads this
    {
      State(attributed, isSending, lastSendTime, requests, waiting, offered, log, initiations, persisted, handled,
        replies)
    }

    constructor (ghost attributed: bool)
      ensures Abs() == Init(attributed)
    {
      this.attributed := attributed;
      isSending, lastSendTime, requests, waiting := false, 0, [], None;
      offered, log, initiations, persisted, handled, replies := {}, [], [], {}, {}, {};
    }

    /** sendPosition; the result is the position handed to the local queue, if any. */
    method SendPosition(fix: nat, accuracy: Option<int>, now: int, connected: bool) returns (queued: Option<nat>)
      requires fix !in offered
      modifies this
      ensures Abs() == DoOffer(old(Abs()), fix, accuracy, now, connected)
      ensures log == old(log) + Handed(queued)
      // In figures: emitted if free, accurate enough, not too soon after the last send, and connected.
      ensures var starts := !old(isSending) && (accuracy.None? || accuracy.value < 80) &&
          now - old(lastSendTime) >= 2000;
              && requests ==
                   old(requests) + (if starts && connected then [Request(fix, true, true, true, false)] else [])
              && queued == (if starts && connected then None else Some(fix))
              && waiting == (if starts && !connected then Some(fix) else old(waiting))
              && isSending == (old(isSending) || starts)
              && lastSendTime == (if starts then now else old(lastSendTime))
    {
      offered := offered + {fix};
      queued := None;
      if isSending {
        queued := Some(fix);
        log := log + [Outcome(fix, Queued)];
        return;
      }
      var acc := if accuracy.Some? then accuracy.value else DEFAULT_ACCURACY;
      if acc >= ACCURACY_REJECT {
        queued := Some(fix);
        log := log + [Outcome(fix, Queued)];
        return;
      }
      if now - lastSendTime < LOCATION_FASTEST_INTERVAL_MS {
        queued := Some(fix);
        log := log + [Outcome(fix, Queued)];
        return;
      }
      lastSendTime := now;
      isSending := true;
      initiations := initiations + [now];
      if connected {
        requests := requests + [Request(fix, true, true, true, false)];
      } else {
        waiting := Some(fix);
        queued := Some(fix);
        log := log + [Outcome(fix, Queued)];
      }
    }

    /** The positionSaved listener of the i-th request; the result is the position taken as saved. */
    method OnSaved(i: nat, ghost r: Reply) returns (saved: Option<nat>)
      requires i < |requests| && requests[i].onSaved && r.PositionSaved? && r in replies
      requires attributed ==> r.owner == requests[i].fix
      modifies this
      ensures Abs() == DoHear(old(Abs()), i, r)
      ensures log == old(log) + (if saved.Some? then [Outcome(saved.value, Saved)] else [])
      ensures old(requests)[i].settled ==> saved.None? && requests == old(requests) && isSending == old(isSending)
      ensures !old(requests)[i].settled ==>
                && saved == Some(old(requests)[i].fix) && !isSending && waiting == old(waiting)
                && requests == old(requests)[i := Request(old(requests)[i].fix, false, false, false, true)]
    {
      saved := None;
      replies := replies - {r};
      if requests[i].settled {
        return;
      }
      saved := Some(requests[i].fix);
      requests := requests[i := Request(requests[i].fix, false, false, false, true)];
      isSending := false;
      log := log + [Outcome(saved.value, Saved)];
    }

    /**
     The positionRejected listener of the i-th request; `invalid` is the reason invalid_payload. The
     results are the position handed to the local queue and the position thrown away.
     */
    method OnRejected(i: nat, invalid: bool, ghost r: Reply) returns (queued: Option<nat>, dropped: Option<nat>)
      requires i < |requests| && requests[i].onRejected
      requires r.PositionRejected? && r.invalid == invalid && r in replies
      requires attributed ==> r.owner == requests[i].fix
      modifies this
      ensures Abs() == DoHear(old(Abs()), i, r)
      ensures log == old(log) + Handed(queued) + (if dropped.Some? then [Outcome(dropped.value, Dropped)] else [])
      ensures old(requests)[i].settled ==>
                queued.None? && dropped.None? && requests == old(requests) && isSending == old(isSending) &&
                  waiting == old(waiting)
      ensures !old(requests)[i].settled ==>
                && requests == old(requests)[i := Request(old(requests)[i].fix, false, false, false, true)]
                && (invalid ==>
                     dropped == Some(old(requests)[i].fix) && queued.None? && !isSending && waiting == old(waiting))
                && (!invalid ==>
                     queued == waiting == Some(old(requests)[i].fix) && dropped.None? && isSending == old(isSending))
    {
      queued, dropped := None, None;
      replies := replies - {r};
      if requests[i].settled {
        return;
      }
      var fix := requests[i].fix;
      requests := requests[i := Request(fix, false, false, false, true)];
      if invalid {
        isSending := false;
        dropped := Some(fix);
        log := log + [Outcome(fix, Dropped)];
        return;
      }
      waiting := Some(fix);
      queued := Some(fix);
      log := log + [Outcome(fix, Queued)];
    }

    /** The 2 s safety timer of the i-th request; the result is the position handed to the local queue. */
    method OnTimeout(i: nat) returns (queued: Option<nat>)
      requires i < |requests| && requests[i].timer
      modifies this
      ensures Abs() == DoTimeout(old(Abs()), i)
      ensures log == old(log) + Handed(queued)
      ensures old(requests)[i].settled ==> queued.None? && requests == old(requests) && isSending == old(isSending)
      ensures !old(requests)[i].settled ==>
                && queued == Some(old(requests)[i].fix) && !isSending && waiting == old(waiting)
                && requests == old(requests)[i := Request(old(requests)[i].fix, false, false, false, true)]
    {
      queued := None;
      if requests[i].settled {
        return;
      }
      var fix := requests[i].fix;
      requests := requests[i := Request(fix, false, false, false, true)];
      isSending := false;
      queued := Some(fix);
      log := log + [Outcome(fix, Queued)];
    }

    /** The continuation of the local enqueue that was awaited. */
    method OnQueued()
      requires waiting.Some?
      modifies this
      ensures Abs() == DoQueueDone(old(Abs()))
      ensures waiting.None? && !isSending && requests == old(requests) && log == old(log)
    {
      waiting := None;
      isSending := false;
    }
  }

  /** What handing a position to the local queue adds to the outcomes. */
  function Handed(queued: Option<nat>): seq<Outcome> {
    if queued.Some? then [Outcome(queued.value, Queued)] else []
  }

  // ------------------------------------------------------------------ invariant

  predicate Armed(x: Request) {
    x.onSaved && x.onRejected && x.timer && !x.settled
  }

  predicate Closed(x: Request) {
    !x.onSaved && !x.onRejected && !x.timer && x.settled
  }

  ghost predicate Logged(log: seq<Outcome>, fix: nat) {
    exists k :: 0 <= k < |log| && log[k].fix == fix
  }

  ghost predicate InFlight(requests: seq<Request>, fix: nat) {
    exists i :: 0 <= i < |requests| && Armed(requests[i]) && requests[i].fix == fix
  }

  /** The busy flag is one armed request, or one awaited local enqueue, and never both. */
  ghost predicate BusyInv(s: State) {
    && (forall i :: 0 <= i < |s.requests| ==> Armed(s.requests[i]) || Closed(s.requests[i]))
    && (forall i, j :: 0 <= i < j < |s.requests| ==> !(Armed(s.requests[i]) && Armed(s.requests[j])))
    && (s.waiting.Some? ==> forall i :: 0 <= i < |s.requests| ==> !Armed(s.requests[i]))
    && (s.isSending <==> s.waiting.Some? || exists i :: 0 <= i < |s.requests| && Armed(s.requests[i]))
  }

  /** Every offered position has one outcome, or is the one in flight and has none yet. */
  ghost predicate FateInv(s: State) {
    && (forall k, l :: 0 <= k < l < |s.log| ==> s.log[k].fix != s.log[l].fix)
    && (forall k :: 0 <= k < |s.log| ==> s.log[k].fix in s.offered)
    && (forall i :: 0 <= i < |s.requests| ==> s.requests[i].fix in s.offered)
    && (forall i :: 0 <= i < |s.requests| && Armed(s.requests[i]) ==> !Logged(s.log, s.requests[i].fix))
    && (forall fix :: fix in s.offered ==> Logged(s.log, fix) || InFlight(s.requests, fix))
  }

  /** Initiations are at least the minimal interval apart on the clock that was read. */
  ghost predicate RateInv(s: State) {
    && (forall i :: 0 < i < |s.initiations| ==> s.initiations[i] - s.initiations[i - 1] >= LOCATION_FASTEST_INTERVAL_MS)
    && s.lastSendTime == (if s.initiations == [] then 0 else s.initiations[|s.initiations| - 1])
  }

  /** With attribution, an answer settles the position it was given for. */
  ghost predicate TruthInv(s: State) {
    && (forall r :: r in s.replies && r.PositionSaved? ==> r.owner in s.persisted)
    && (s.attributed ==> forall k :: 0 <= k < |s.log| && s.log[k].fate.Saved? ==> s.log[k].fix in s.persisted)
  }

  ghost predicate Inv(s: State) {
    BusyInv(s) && FateInv(s) && RateInv(s) && TruthInv(s)
  }

  lemma LogSnoc(log: seq<Outcome>, o: Outcome)
    ensures forall fix :: Logged(log + [o], fix) <==> Logged(log, fix) || fix == o.fix
  {
    forall fix ensures Logged(log + [o], fix) <==> Logged(log, fix) || fix == o.fix {
      if Logged(log, fix) {
        var k :| 0 <= k < |log| && log[k].fix == fix;
        assert (log + [o])[k].fix == fix;
      }
      assert (log + [o])[|log|].fix == o.fix;
    }
  }

  lemma StepOffer(s: State, fix: nat, accuracy: Option<int>, now: int, connected: bool)
    requires Inv(s)
    ensures Inv(DoOffer(s, fix, accuracy, now, connected))
  {
    var s' := DoOffer(s, fix, accuracy, now, connected);
    LogSnoc(s.log, Outcome(fix, Queued));
    forall f | InFlight(s.requests, f) ensures InFlight(s'.requests, f) {
      var i :| 0 <= i < |s.requests| && Armed(s.requests[i]) && s.requests[i].fix == f;
      assert s'.requests[i] == s.requests[i];
    }
    if s' != s && |s'.requests| > |s.requests| {
      assert Armed(s'.requests[|s.requests|]) && s'.requests[|s.requests|].fix == fix;
    }
  }

  /** The one armed request is settled with some outcome. */
  lemma Settle(s: State, i: nat, fate: Fate, s': State)
    requires Inv(s) && i < |s.requests| && Armed(s.requests[i])
    requires s'.requests == s.requests[i := Request(s.requests[i].fix, false, false, false, true)]
    requires s'.log == s.log + [Outcome(s.requests[i].fix, fate)] && s'.offered == s.offered
    requires s'.isSending == s'.waiting.Some?
    ensures BusyInv(s') && FateInv(s')
  {
    LogSnoc(s.log, Outcome(s.requests[i].fix, fate));
    forall f | f in s'.offered ensures Logged(s'.log, f) || InFlight(s'.requests, f) {
      assert InFlight(s.requests, f) ==> f == s.requests[i].fix;
    }
  }

  lemma StepHear(s: State, i: nat, r: Reply)
    requires Inv(s)
    ensures Inv(DoHear(s, i, r))
  {
    var s' := DoHear(s, i, r);
    if s'.log != s.log {
      Settle(s, i, s'.log[|s.log|].fate, s');
    }
  }

  lemma StepTimeout(s: State, i: nat)
    requires Inv(s)
    ensures Inv(DoTimeout(s, i))
  {
    var s' := DoTimeout(s, i);
    if s' != s {
      Settle(s, i, Queued, s');
    }
  }

  lemma StepKeepsInv(s: State, ev: Event)
    requires Inv(s)
    ensures Inv(Apply(s, ev))
  {
    match ev
    case Offer(fix, accuracy, now, connected) => StepOffer(s, fix, accuracy, now, connected);
    case ServerSave(i) =>
    case ServerReject(i, invalid) =>
    case ServerSilent(i, saved) =>
    case Hear(i, r) => StepHear(s, i, r);
    case Lose(r) =>
    case Timeout(i) => StepTimeout(s, i);
    case QueueDone =>
  }

  lemma {:induction false} RunKeepsInv(attributed: bool, evs: seq<Event>)
    ensures Inv(Run(Init(attributed), evs))
  {
    if evs != [] {
      RunKeepsInv(attributed, evs[..|evs| - 1]);
      StepKeepsInv(Run(Init(attributed), evs[..|evs| - 1]), evs[|evs| - 1]);
    }
  }

  // ------------------------------------------------------------------- theorems

  /** The busy flag is exactly one armed request or one awaited local enqueue. */
  lemma {:induction false} BusyMeansOneThingPending(attributed: bool, evs: seq<Event>)
    ensures BusyInv(Run(Init(attributed), evs))
  {
    RunKeepsInv(attributed, evs);
  }

  /** Every offered position ends as exactly one of saved, queued or dropped, or is the one in flight. */
  lemma {:induction false} EveryOfferHasOneFate(attributed: bool, evs: seq<Event>, fix: nat)
    ensures var s := Run(Init(attributed), evs);
            fix in s.offered ==>
              && (Logged(s.log, fix) <==> !InFlight(s.requests, fix))
              && (forall k, l ::
                   0 <= k < |s.log| && 0 <= l < |s.log| && s.log[k].fix == fix && s.log[l].fix == fix ==> k == l)
  {
    RunKeepsInv(attributed, evs);
  }

  /** The position was handed to the socket. */
  ghost predicate Emitted(requests: seq<Request>, fix: nat) {
    exists i :: 0 <= i < |requests| && requests[i].fix == fix
  }

  /** An offered position is emitted, or in the local queue's hands; only emitted ones are saved or dropped. */
  ghost predicate HandInv(s: State, fix: nat) {
    && (fix in s.offered ==> Emitted(s.requests, fix) || Outcome(fix, Queued) in s.log)
    && (Outcome(fix, Saved) in s.log || Outcome(fix, Dropped) in s.log ==> Emitted(s.requests, fix))
  }

  /** Requests are only appended to, and keep their positions. */
  ghost predicate KeepsFixes(requests: seq<Request>, requests': seq<Request>) {
    |requests| <= |requests'| && forall i :: 0 <= i < |requests| ==> requests'[i].fix == requests[i].fix
  }

  lemma EmittedGrows(requests: seq<Request>, requests': seq<Request>, fix: nat)
    requires KeepsFixes(requests, requests')
    ensures Emitted(requests, fix) ==> Emitted(requests', fix)
  {
    if Emitted(requests, fix) {
      var i :| 0 <= i < |requests| && requests[i].fix == fix;
      assert requests'[i].fix == fix;
    }
  }

  lemma OfferKeepsHand(s: State, x: nat, accuracy: Option<int>, now: int, connected: bool, fix: nat)
    requires HandInv(s, fix)
    ensures HandInv(DoOffer(s, x, accuracy, now, connected), fix)
  {
    var s' := DoOffer(s, x, accuracy, now, connected);
    EmittedGrows(s.requests, s'.requests, fix);
    if |s'.requests| > |s.requests| {
      assert s'.requests[|s.requests|].fix == x;
    }
  }

  lemma HearKeepsHand(s: State, i: nat, r: Reply, fix: nat)
    requires HandInv(s, fix)
    ensures HandInv(DoHear(s, i, r), fix)
  {
    EmittedGrows(s.requests, DoHear(s, i, r).requests, fix);
  }

  lemma TimeoutKeepsHand(s: State, i: nat, fix: nat)
    requires HandInv(s, fix)
    ensures HandInv(DoTimeout(s, i), fix)
  {
    EmittedGrows(s.requests, DoTimeout(s, i).requests, fix);
  }

  lemma StepKeepsHand(s: State, ev: Event, fix: nat)
    requires HandInv(s, fix)
    ensures HandInv(Apply(s, ev), fix)
  {
    hide DoOffer, DoHear, DoTimeout, Emitted;
    match ev
    case Offer(x, accuracy, now, connected) => OfferKeepsHand(s, x, accuracy, now, connected, fix);
    case ServerSave(i) =>
    case ServerReject(i, invalid) =>
    case ServerSilent(i, saved) =>
    case Hear(i, r) => HearKeepsHand(s, i, r, fix);
    case Lose(r) =>
    case Timeout(i) => TimeoutKeepsHand(s, i, fix);
    case QueueDone =>
  }

  /** Whatever is not emitted — busy, inaccurate, throttled, disconnected — goes to the local queue. */
  lemma {:induction false} UnsentIsQueued(attributed: bool, evs: seq<Event>, fix: nat)
    ensures HandInv(Run(Init(attributed), evs), fix)
  {
    if evs != [] {
      UnsentIsQueued(attributed, evs[..|evs| - 1], fix);
      StepKeepsHand(Run(Init(attributed), evs[..|evs| - 1]), evs[|evs| - 1], fix);
    }
  }

  /** The sender is free: nothing is in flight and no local enqueue is awaited. */
  ghost predicate Free(s: State) {
    s.waiting.None? && forall fix :: !InFlight(s.requests, fix)
  }

  /** When the last send was initiated; 0 before the first. */
  function LastInitiation(s: State): int {
    if s.initiations == [] then 0 else s.initiations[|s.initiations| - 1]
  }

  /**
   After any run, a new position is emitted exactly if the sender is free, the accuracy is absent or
   below 80 m, 2 s have passed since the last initiation, and the socket is connected; otherwise it
   goes to the local queue, which is awaited only when it was the connection that was missing.
   */
  lemma {:induction false} EmittedExactlyWhen(attributed: bool, evs: seq<Event>, fix: nat, accuracy: Option<int>,
      now: int, connected: bool)
    ensures var s := Run(Init(attributed), evs);
            var s' := Apply(s, Offer(fix, accuracy, now, connected));
            var starts := Free(s) && (accuracy.None? || accuracy.value < 80) && now - LastInitiation(s) >= 2000;
            fix !in s.offered ==>
              && (InFlight(s'.requests, fix) <==> starts && connected)
              && (Outcome(fix, Queued) in s'.log <==> !(starts && connected))
              && s'.waiting == (if starts && !connected then Some(fix) else s.waiting)
              && s'.initiations == (if starts then s.initiations + [now] else s.initiations)
              && s'.persisted == s.persisted
  {
    hide Run;
    RunKeepsInv(attributed, evs);
    var s := Run(Init(attributed), evs);
    FreeIffNotSending(s);
    if fix !in s.offered {
      NewIsNowhere(s, fix);
      var s' := DoOffer(s, fix, accuracy, now, connected);
      if |s'.requests| > |s.requests| {
        assert Armed(s'.requests[|s.requests|]) && s'.requests[|s.requests|].fix == fix;
      }
      assert s'.requests == s.requests ==> !InFlight(s'.requests, fix);
    }
  }

  lemma FreeIffNotSending(s: State)
    requires BusyInv(s)
    ensures Free(s) <==> !s.isSending
  {
    forall i | 0 <= i < |s.requests| && Armed(s.requests[i]) ensures InFlight(s.requests, s.requests[i].fix) {}
  }

  lemma NewIsNowhere(s: State, fix: nat)
    requires FateInv(s) && fix !in s.offered
    ensures !InFlight(s.requests, fix) && forall f :: Outcome(fix, f) !in s.log
  {
  }

  /** What each settling event makes of the position in flight. */
  lemma {:induction false} SettledAs(attributed: bool, evs: seq<Event>, i: nat, r: Reply)
    requires var s := Run(Init(attributed), evs);
             i < |s.requests| && Armed(s.requests[i]) && r in s.replies && (attributed ==> r.owner == s.requests[i].fix)
    ensures var s := Run(Init(attributed), evs);
            var fix := s.requests[i].fix;
            var heard, late := Apply(s, Hear(i, r)), Apply(s, Timeout(i));
            && heard.log ==
                 s.log + [Outcome(fix, if r.PositionSaved? then Saved else if r.invalid then Dropped else Queued)]
            && late.log == s.log + [Outcome(fix, Queued)]
            && !InFlight(heard.requests, fix) && !InFlight(late.requests, fix) && Free(late)
            && heard.waiting == (if r.PositionRejected? && !r.invalid then Some(fix) else None)
            && (Free(heard) <==> heard.waiting.None?)
            && r !in heard.replies
  {
    RunKeepsInv(attributed, evs);
    RunKeepsAttributed(attributed, evs);
    var s := Run(Init(attributed), evs);
    StepKeepsInv(s, Hear(i, r));
    StepKeepsInv(s, Timeout(i));
    FreeIffNotSending(Apply(s, Hear(i, r)));
    FreeIffNotSending(Apply(s, Timeout(i)));
  }

  lemma {:induction false} RunKeepsAttributed(attributed: bool, evs: seq<Event>)
    ensures Run(Init(attributed), evs).attributed == attributed
  {
    if evs != [] {
      RunKeepsAttributed(attributed, evs[..|evs| - 1]);
    }
  }

  lemma {:induction false} Spread(ts: seq<int>, i: nat, j: nat)
    requires i <= j < |ts|
    requires forall k :: 0 < k < |ts| ==> ts[k] - ts[k - 1] >= LOCATION_FASTEST_INTERVAL_MS
    ensures ts[j] - ts[i] >= (j - i) * LOCATION_FASTEST_INTERVAL_MS
    decreases j - i
  {
    if i < j {
      Spread(ts, i, j - 1);
    }
  }

  /** Any W ms contain at most W / 2000 + 1 initiated sends, whoever called. */
  lemma {:induction false} SendRateIsBounded(attributed: bool, evs: seq<Event>, i: nat, j: nat, w: nat)
    requires var ts := Run(Init(attributed), evs).initiations;
             i <= j < |ts| && ts[j] - ts[i] <= w
    ensures j - i + 1 <= w / LOCATION_FASTEST_INTERVAL_MS + 1
  {
    RunKeepsInv(attributed, evs);
    Spread(Run(Init(attributed), evs).initiations, i, j);
  }

  /** If answers reach the request they belong to, a position taken as saved was saved. */
  lemma {:induction false} SavedMeansPersisted(evs: seq<Event>)
    ensures var s := Run(Init(true), evs);
            forall k :: 0 <= k < |s.log| && s.log[k].fate.Saved? ==> s.log[k].fix in s.persisted
  {
    RunKeepsInv(true, evs);
    RunKeepsAttributed(true, evs);
  }

  ghost predicate TruthfulLog(s: State) {
    forall k :: 0 <= k < |s.log| && s.log[k].fate.Saved? ==> s.log[k].fix in s.persisted
  }

  predicate AnswerAround(s: State) {
    exists r :: r in s.replies && r.PositionSaved?
  }

  /**
   The answer carries no id. In a state with a truthful log, whichever answer the armed request
   hears keeps it truthful exactly if the server has its position or no answer is around.
   */
  lemma MisattributedAnswer(s: State, i: nat)
    requires !s.attributed && i < |s.requests| && Armed(s.requests[i]) && TruthfulLog(s)
    ensures (forall r :: r in s.replies && r.PositionSaved? ==> TruthfulLog(DoHear(s, i, r))) <==>
            s.requests[i].fix in s.persisted || !AnswerAround(s)
  {
    var fix := s.requests[i].fix;
    forall r | r in s.replies && r.PositionSaved? ensures TruthfulLog(DoHear(s, i, r)) <==> fix in s.persisted {
      var s' := DoHear(s, i, r);
      assert s'.log[|s.log|] == Outcome(fix, Saved) && s'.persisted == s.persisted;
      assert forall k :: 0 <= k < |s.log| ==> s'.log[k] == s.log[k];
    }
  }

  /** Some continuation takes the position as saved although the server never saved it. */
  ghost predicate CanBeLost(s: State, fix: nat) {
    exists more: seq<Event> :: LostIn(Run(s, more), fix)
  }

  predicate LostIn(s: State, fix: nat) {
    Outcome(fix, Saved) in s.log && fix !in s.persisted
  }

  /** Requests are of different positions, only the last is armed, and answers are of handled requests. */
  ghost predicate NetInv(s: State) {
    && (forall j, k :: 0 <= j < k < |s.requests| ==> s.requests[j].fix != s.requests[k].fix)
    && (forall j :: 0 <= j < |s.requests| - 1 ==> !Armed(s.requests[j]))
    && (forall r :: r in s.replies ==> Answers(s, r))
  }

  ghost predicate Answers(s: State, r: Reply) {
    exists j :: 0 <= j < |s.requests| && j in s.handled && s.requests[j].fix == r.owner
  }

  /** An earlier request whose answer, saying saved, can still arrive. */
  predicate Stray(s: State, j: nat) {
    j < |s.requests| && (j !in s.handled || PositionSaved(s.requests[j].fix) in s.replies)
  }

  /** No step makes an answer to an earlier request possible again. */
  ghost predicate Quieter(s: State, s': State) {
    && s.persisted <= s'.persisted && KeepsFixes(s.requests, s'.requests)
    && forall j :: 0 <= j < |s.requests| && Stray(s', j) ==> Stray(s, j)
  }

  lemma AnswersGrow(s: State, s': State, r: Reply)
    requires KeepsFixes(s.requests, s'.requests) && s.handled <= s'.handled && Answers(s, r)
    ensures Answers(s', r)
  {
    var j :| 0 <= j < |s.requests| && j in s.handled && s.requests[j].fix == r.owner;
    assert s'.requests[j].fix == r.owner;
  }

  lemma NetOffer(s: State, fix: nat, accuracy: Option<int>, now: int, connected: bool)
    requires Inv(s) && NetInv(s)
    ensures NetInv(DoOffer(s, fix, accuracy, now, connected)) && Quieter(s, DoOffer(s, fix, accuracy, now, connected))
  {
    hide Answers;
    var s' := DoOffer(s, fix, accuracy, now, connected);
    forall r | r in s'.replies ensures Answers(s', r) {
      AnswersGrow(s, s', r);
    }
  }

  lemma NetServer(s: State, i: nat, invalid: bool, saved: bool)
    requires NetInv(s)
    ensures NetInv(DoServerSave(s, i)) && Quieter(s, DoServerSave(s, i))
    ensures NetInv(DoServerReject(s, i, invalid)) && Quieter(s, DoServerReject(s, i, invalid))
    ensures NetInv(DoServerSilent(s, i, saved)) && Quieter(s, DoServerSilent(s, i, saved))
  {
    NetGrows(s, DoServerSave(s, i), i);
    NetGrows(s, DoServerReject(s, i, invalid), i);
    NetGrows(s, DoServerSilent(s, i, saved), i);
  }

  /** The server deals with one request more, and answers it or not. */
  lemma NetGrows(s: State, s': State, i: nat)
    requires NetInv(s) && s'.requests == s.requests && s.persisted <= s'.persisted
    requires s' == s || (i < |s.requests| && i !in s.handled && s'.handled == s.handled + {i})
    requires forall r :: r in s'.replies ==> r in s.replies || (s' != s && r.owner == s.requests[i].fix)
    ensures NetInv(s') && Quieter(s, s')
  {
    hide Answers;
    forall r | r in s'.replies ensures Answers(s', r) {
      if r in s.replies {
        AnswersGrow(s, s', r);
      } else {
        AnswerOf(s', r, i);
      }
    }
  }

  lemma AnswerOf(s: State, r: Reply, i: nat)
    requires i < |s.requests| && i in s.handled && s.requests[i].fix == r.owner
    ensures Answers(s, r)
  {
  }

  /** A request is settled, and an answer may be used up. */
  lemma NetSettles(s: State, s': State)
    requires NetInv(s) && s'.handled == s.handled && s'.replies <= s.replies && s'.persisted == s.persisted
    requires KeepsFixes(s.requests, s'.requests) && |s'.requests| == |s.requests|
    requires forall j :: 0 <= j < |s.requests| && Armed(s'.requests[j]) ==> Armed(s.requests[j])
    ensures NetInv(s') && Quieter(s, s')
  {
    hide Answers;
    forall r | r in s'.replies ensures Answers(s', r) {
      AnswersGrow(s, s', r);
    }
  }

  lemma StepKeepsNet(s: State, ev: Event)
    requires Inv(s) && NetInv(s)
    ensures NetInv(Apply(s, ev)) && Quieter(s, Apply(s, ev))
  {
    hide NetInv, Quieter, BusyInv, FateInv, RateInv, TruthInv, DoOffer, DoServerSave, DoServerReject, DoServerSilent;
    match ev
    case Offer(fix, accuracy, now, connected) => NetOffer(s, fix, accuracy, now, connected);
    case ServerSave(i) => NetServer(s, i, true, true);
    case ServerReject(i, invalid) => NetServer(s, i, invalid, true);
    case ServerSilent(i, saved) => NetServer(s, i, true, saved);
    case Hear(i, r) => NetSettles(s, DoHear(s, i, r));
    case Lose(r) => NetSettles(s, DoLose(s, r));
    case Timeout(i) => NetSettles(s, DoTimeout(s, i));
    case QueueDone => NetSettles(s, DoQueueDone(s));
  }

  lemma {:induction false} RunKeepsNet(attributed: bool, evs: seq<Event>)
    ensures NetInv(Run(Init(attributed), evs))
  {
    if evs != [] {
      RunKeepsInv(attributed, evs[..|evs| - 1]);
      RunKeepsNet(attributed, evs[..|evs| - 1]);
      StepKeepsNet(Run(Init(attributed), evs[..|evs| - 1]), evs[|evs| - 1]);
    }
  }

  /** While no answer to an earlier request can arrive, the i-th is taken as saved only if it was. */
  ghost predicate Safe(s: State, i: nat) {
    && i < |s.requests| && Inv(s) && NetInv(s)
    && (forall j :: 0 <= j < i ==> !Stray(s, j))
    && (Outcome(s.requests[i].fix, Saved) in s.log ==> s.requests[i].fix in s.persisted)
  }

  lemma HearIsSafe(s: State, i: nat, k: nat, r: Reply)
    requires Safe(s, i)
    ensures Outcome(s.requests[i].fix, Saved) in DoHear(s, k, r).log ==> s.requests[i].fix in s.persisted
  {
    var fix := s.requests[i].fix;
    if Outcome(fix, Saved) in DoHear(s, k, r).log && Outcome(fix, Saved) !in s.log {
      assert Armed(s.requests[k]) && s.requests[k].fix == fix;
      assert k == i && i == |s.requests| - 1;
      var j :| 0 <= j < |s.requests| && j in s.handled && s.requests[j].fix == r.owner;
      assert j < i ==> Stray(s, j);
      assert j == i && r.owner in s.persisted;
    }
  }

  lemma StepIsSafe(s: State, ev: Event, i: nat)
    requires Safe(s, i)
    ensures Safe(Apply(s, ev), i) && Apply(s, ev).requests[i].fix == s.requests[i].fix
  {
    StepKeepsInv(s, ev);
    StepKeepsNet(s, ev);
    if ev.Hear? {
      HearIsSafe(s, i, ev.i, ev.r);
    } else {
      OnlyHearingSaves(s, ev, s.requests[i].fix);
    }
    hide Inv, NetInv, Stray, DoOffer, DoServerSave, DoServerReject, DoServerSilent, DoHear, DoLose, DoTimeout,
      DoQueueDone;
  }

  lemma OnlyHearingSaves(s: State, ev: Event, fix: nat)
    requires !ev.Hear?
    ensures Outcome(fix, Saved) in Apply(s, ev).log <==> Outcome(fix, Saved) in s.log
  {
  }

  lemma {:induction false} RunIsSafe(s: State, more: seq<Event>, i: nat)
    requires Safe(s, i)
    ensures Safe(Run(s, more), i) && Run(s, more).requests[i].fix == s.requests[i].fix
  {
    hide Safe, Apply;
    if more != [] {
      RunIsSafe(s, more[..|more| - 1], i);
      StepIsSafe(Run(s, more[..|more| - 1]), more[|more| - 1], i);
    }
  }

  lemma {:induction false} RunKeepsPersisted(s: State, more: seq<Event>)
    ensures s.persisted <= Run(s, more).persisted
  {
    if more != [] {
      RunKeepsPersisted(s, more[..|more| - 1]);
    }
  }

  lemma RunTwo(s: State, a: Event, b: Event)
    ensures Run(s, [a, b]) == Apply(Apply(s, a), b) && Run(s, [b]) == Apply(s, b)
  {
    assert [a, b][..1] == [a] && [a][..0] == [] && [b][..0] == [];
    assert Run(s, [a]) == Apply(Run(s, []), a) && Run(s, [b]) == Apply(Run(s, []), b);
  }

  /** The answer to an earlier request, late, is taken for the one in flight. */
  lemma StrayAnswerMisleads(s: State, i: nat, j: nat)
    requires NetInv(s) && !s.attributed && j < i < |s.requests| && Armed(s.requests[i]) && Stray(s, j)
    requires s.requests[i].fix !in s.persisted
    ensures CanBeLost(s, s.requests[i].fix)
  {
    var fix, r := s.requests[i].fix, PositionSaved(s.requests[j].fix);
    var s1 := DoServerSave(s, j);
    var s2 := DoHear(s1, i, r);
    RunTwo(s, ServerSave(j), Hear(i, r));
    assert r in s1.replies;
    assert s2.log[|s.log|] == Outcome(fix, Saved);
    assert LostIn(Run(s, [ServerSave(j), Hear(i, r)]), fix);
  }

  /**
   When a position in flight can still be lost: exactly if the server does not have it yet and to
   some earlier position an answer saying saved can still arrive, because the server has not dealt
   with it or because that answer is on its way.
   */
  lemma {:induction false} MisattributionCondition(evs: seq<Event>, i: nat)
    requires var s := Run(Init(false), evs); i < |s.requests| && Armed(s.requests[i])
    ensures var s := Run(Init(false), evs);
            CanBeLost(s, s.requests[i].fix) <==>
            && s.requests[i].fix !in s.persisted
            && exists j :: 0 <= j < i && (j !in s.handled || PositionSaved(s.requests[j].fix) in s.replies)
  {
    var s := Run(Init(false), evs);
    var fix := s.requests[i].fix;
    RunKeepsInv(false, evs);
    RunKeepsNet(false, evs);
    RunKeepsAttributed(false, evs);
    forall j | 0 <= j < i
      ensures Stray(s, j) <==> j !in s.handled || PositionSaved(s.requests[j].fix) in s.replies
    {
    }
    forall j | 0 <= j < i && Stray(s, j) && fix !in s.persisted ensures CanBeLost(s, fix) {
      StrayAnswerMisleads(s, i, j);
    }
    forall more | LostIn(Run(s, more), fix) ensures fix !in s.persisted && exists j :: 0 <= j < i && Stray(s, j) {
      RunKeepsPersisted(s, more);
      NotSafe(s, more, i);
    }
  }

  lemma NotSafe(s: State, more: seq<Event>, i: nat)
    requires i < |s.requests| && Inv(s) && NetInv(s) && Armed(s.requests[i]) && LostIn(Run(s, more), s.requests[i].fix)
    ensures exists j :: 0 <= j < i && Stray(s, j)
  {
    if forall j :: 0 <= j < i ==> !Stray(s, j) {
      assert !Logged(s.log, s.requests[i].fix);
      assert Safe(s, i);
      RunIsSafe(s, more, i);
      assert false;
    }
  }

  /** Such a run: the answer to a position that timed out settles the next one, which is then lost. */
  lemma LateAnswerLosesAPosition()
    ensures exists evs :: var s := Run(Init(false), evs);
              s.log == [Outcome(1, Queued), Outcome(2, Saved)] && s.persisted == {1}
  {
    var s0 := Init(false);
    var e1, e2, e3, e4, e5 := Offer(1, None, 2000, true), ServerSave(0), Timeout(0), Offer(2, None, 4000, true),
      Hear(1, PositionSaved(1));
    var r0, r1 := Request(1, true, true, true, false), Request(2, true, true, true, false);
    var d0 := Request(1, false, false, false, true);
    var s1 := s0.(offered := {1}, lastSendTime := 2000, isSending := true, initiations := [2000], requests := [r0]);
    assert Apply(s0, e1) == s1;
    var s2 := s1.(persisted := {1}, handled := {0}, replies := {PositionSaved(1)});
    assert Apply(s1, e2) == s2;
    var s3 := s2.(requests := [d0], log := [Outcome(1, Queued)], isSending := false);
    assert Apply(s2, e3) == s3;
    var s4 := s3.(offered := {1, 2}, lastSendTime := 4000, isSending := true, initiations := [2000, 4000],
      requests := [d0, r1]);
    assert Apply(s3, e4) == s4;
    assert Apply(s4, e5).log == [Outcome(1, Queued), Outcome(2, Saved)];
    RunFive(s0, e1, e2, e3, e4, e5);
  }

  lemma RunFive(s: State, e1: Event, e2: Event, e3: Event, e4: Event, e5: Event)
    ensures Run(s, [e1, e2, e3, e4, e5]) == Apply(Apply(Apply(Apply(Apply(s, e1), e2), e3), e4), e5)
  {
    assert [e1, e2, e3, e4, e5][..4] == [e1, e2, e3, e4];
    assert [e1, e2, e3, e4][..3] == [e1, e2, e3];
    assert [e1, e2, e3][..2] == [e1, e2];
    assert [e1, e2][..1] == [e1];
    assert [e1][..0] == [];
    assert Run(s, []) == s;
    assert Run(s, [e1]) == Apply(s, e1);
    assert Run(s, [e1, e2]) == Apply(Apply(s, e1), e2);
    assert Run(s, [e1, e2, e3]) == Apply(Run(s, [e1, e2]), e3);
    assert Run(s, [e1, e2, e3, e4]) == Apply(Run(s, [e1, e2, e3]), e4);
  }

  /** The server saves a request's position and says so, refuses it, or says nothing, having saved it or not. */
  lemma ServerActs(s: State, i: nat, invalid: bool, saved: bool)
    requires i < |s.requests| && i !in s.handled
    ensures var fix := s.requests[i].fix;
            var t := s.(handled := s.handled + {i});
            var kept := t.(persisted := s.persisted + {fix});
            && Apply(s, ServerSave(i)) == kept.(replies := s.replies + {PositionSaved(fix)})
            && Apply(s, ServerReject(i, invalid)) == t.(replies := s.replies + {PositionRejected(fix, invalid)})
            && Apply(s, ServerSilent(i, saved)) == if saved then kept else t
  {
    assert s.persisted + {} == s.persisted;
  }
}
