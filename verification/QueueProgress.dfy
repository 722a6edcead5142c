/** The lock of the flush can always be released, without a storage error and without the server. */
module QueueProgress {
  import opened PositionStore
  import opened QueueProtocol
  import opened QueueSafety

  /** What is left of a flush: fewer and fewer steps, if its batch times out. */
  function Rank(s: State, f: nat): nat
    requires f in s.flushers
  {
    match s.flushers[f].phase
    case Deleting(_, _) => 5
    case Reading => 4
    case Chunked(_) => 3
    case Sending(b, _) =>
      if b !in s.batches || s.batches[b].outcomes == [] then 2 else if s.batches[b].outcomes[0] then 6 else 1
    case Ended => 0
  }

  /** A step of this flush that no storage error caused, or the timer of the batch it awaits. */
  predicate OwnStep(s: State, ev: Event, f: nat) {
    || (ev.OfFlush? && ev.f == f && !ev.flush.Abort?)
    || (ev.OfNet? && ev.net.Timeout? && f in s.flushers && Awaits(s.flushers[f], ev.net.b))
  }

  ghost predicate Nearer(s: State, s': State, f: nat)
    requires f in s.flushers
  {
    !s'.isFlushing || (f in s'.flushers && Busy(s'.flushers[f].phase) && Rank(s', f) < Rank(s, f))
  }

  lemma {:induction false} FreshKey(keys: set<nat>) returns (b: nat)
    ensures forall k :: k in keys ==> k < b
  {
    if keys == {} {
      b := 0;
    } else {
      var k :| k in keys;
      var c := FreshKey(keys - {k});
      b := if c > k then c else k + 1;
      forall x | x in keys ensures x < b {
        assert x == k || x in keys - {k};
      }
    }
  }

  lemma ReadNearer(s: State, f: nat)
    requires f in s.flushers && s.flushers[f].phase.Reading?
    ensures Nearer(s, DoReadChunk(s, f), f)
  {
    hide Take;
  }

  lemma EmitNearer(s: State, f: nat, b: nat)
    requires f in s.flushers && s.flushers[f].phase.Chunked? && b !in s.batches
    ensures Nearer(s, DoEmit(s, f, b), f)
  {
  }

  lemma TimeoutNearer(s: State, f: nat, b: nat)
    requires f in s.flushers && Awaits(s.flushers[f], b) && b in s.batches && Pending(s.batches[b])
    ensures Nearer(s, DoTimeout(s, b), f)
  {
    assert DoTimeout(s, b).batches[b].outcomes == [false];
  }

  lemma ResumeNearer(s: State, f: nat, b: nat)
    requires f in s.flushers && Awaits(s.flushers[f], b) && b in s.batches && Disarmed(s.batches[b])
    ensures Nearer(s, DoResume(s, f), f)
  {
  }

  lemma DeleteNearer(s: State, f: nat)
    requires f in s.flushers && s.flushers[f].phase.Deleting?
    ensures Nearer(s, DoDeleteChunk(s, f), f)
  {
    hide Without;
  }

  /** A busy flush always has a step of its own, or a timer, that brings it nearer to its end. */
  lemma NextStep(s: State, f: nat) returns (ev: Event)
    requires Inv(s) && f in s.flushers && Busy(s.flushers[f].phase)
    ensures OwnStep(s, ev, f) && Nearer(s, Apply(s, ev), f)
  {
    hide Nearer, StoreInv, CallInv, LockInv, LogInv, ChunkInv, ReplyInv, AckInv;
    hide DoReadChunk, DoEmit, DoTimeout, DoResume, DoDeleteChunk;
    match s.flushers[f].phase
    case Reading =>
      ReadNearer(s, f);
      ev := OfFlush(f, ReadChunk);
    case Chunked(_) =>
      var b := FreshKey(s.batches.Keys);
      EmitNearer(s, f, b);
      ev := OfFlush(f, Emit(b));
    case Sending(b, chunk) =>
      assert SentOk(s.flushers[f], s.batches);
      assert Pending(s.batches[b]) || Disarmed(s.batches[b]);
      if Pending(s.batches[b]) {
        TimeoutNearer(s, f, b);
        ev := OfNet(Timeout(b));
      } else {
        ResumeNearer(s, f, b);
        ev := OfFlush(f, Resume);
      }
    case Deleting(_, _) =>
      DeleteNearer(s, f);
      ev := OfFlush(f, DeleteChunk);
  }

  lemma {:induction false} RunCons(s: State, ev: Event, more: seq<Event>)
    ensures Run(s, [ev] + more) == Run(Apply(s, ev), more)
  {
    hide Apply;
    if more == [] {
      assert [ev] + more == [ev] && [ev][..0] == [];
      assert Run(s, [ev]) == Apply(Run(s, []), ev);
    } else {
      RunCons(s, ev, more[..|more| - 1]);
      assert ([ev] + more)[..|more|] == [ev] + more[..|more| - 1];
    }
  }

  lemma {:induction false} RunConcat(s: State, evs: seq<Event>, more: seq<Event>)
    ensures Run(s, evs + more) == Run(Run(s, evs), more)
  {
    hide Apply;
    if more == [] {
      assert evs + more == evs;
    } else {
      RunConcat(s, evs, more[..|more| - 1]);
      assert (evs + more)[..|evs + more| - 1] == evs + more[..|more| - 1];
    }
  }

  predicate OwnSteps(s: State, more: seq<Event>, f: nat) {
    forall k :: 0 <= k < |more| ==> OwnStep(Run(s, more[..k]), more[k], f)
  }

  lemma OwnStepsCons(s: State, ev: Event, rest: seq<Event>, f: nat)
    requires OwnStep(s, ev, f) && OwnSteps(Apply(s, ev), rest, f)
    ensures OwnSteps(s, [ev] + rest, f)
  {
    hide OwnStep, Apply;
    var more := [ev] + rest;
    forall k | 0 <= k < |more| ensures OwnStep(Run(s, more[..k]), more[k], f) {
      if k == 0 {
        assert more[..0] == [];
      } else {
        assert more[..k] == [ev] + rest[..k - 1];
        RunCons(s, ev, rest[..k - 1]);
      }
    }
  }

  lemma {:induction false} Finish(s: State, f: nat) returns (more: seq<Event>)
    requires Inv(s) && f in s.flushers && Busy(s.flushers[f].phase)
    ensures |more| <= Rank(s, f) && OwnSteps(s, more, f) && !Run(s, more).isFlushing
    decreases Rank(s, f)
  {
    hide Inv, Apply, OwnStep;
    var ev := NextStep(s, f);
    var s' := Apply(s, ev);
    StepKeepsInv(s, ev);
    var rest: seq<Event> := [];
    if s'.isFlushing {
      rest := Finish(s', f);
    }
    OwnStepsCons(s, ev, rest, f);
    RunCons(s, ev, rest);
    BusyHasRank(s, f);
    more := [ev] + rest;
  }

  lemma BusyHasRank(s: State, f: nat)
    requires f in s.flushers && Busy(s.flushers[f].phase)
    ensures Rank(s, f) >= 1
  {
  }

  ghost predicate HoldsLock(s: State, f: nat) {
    s.isFlushing && f in s.flushers && Busy(s.flushers[f].phase)
  }

  /**
   From every reachable state in which the lock is held, at most six steps release it: those of the
   flush that holds it, and the timer of the batch it awaits.
   */
  lemma {:induction false} LockCanBeReleased(evs: seq<Event>)
    ensures var s := Run(Init(true), evs);
            s.isFlushing ==>
              exists f, more ::
                && HoldsLock(s, f) && |more| <= 6 && OwnSteps(s, more, f)
                && !Run(Init(true), evs + more).isFlushing
  {
    RunKeepsInv(evs);
    var s := Run(Init(true), evs);
    if s.isFlushing {
      var f := HolderOf(s);
      var more := Finish(s, f);
      RunConcat(Init(true), evs, more);
      RankBound(s, f);
      assert HoldsLock(s, f) && OwnSteps(s, more, f);
    }
  }

  lemma RankBound(s: State, f: nat)
    requires f in s.flushers
    ensures Rank(s, f) <= 6
  {
  }

  lemma HolderOf(s: State) returns (f: nat)
    requires LockInv(s.flushers, s.isFlushing) && s.isFlushing
    ensures f in s.flushers && Busy(s.flushers[f].phase)
  {
    f :| f in s.flushers && Busy(s.flushers[f].phase);
  }
}
