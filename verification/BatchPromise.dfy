/**
 The promise of one batch, as its callbacks run: listeners registered with `once` are removed
 before they are called, and subscribe again when the answer belongs to another batch.
 */
module BatchPromise {
  import opened Wrappers
  import opened PositionStore
  import opened QueueProtocol

  class BatchPromise {
    const chunk: seq<Entry>
    const batchId: nat
    var onSaved: bool
    var onRejected: bool
    var timer: bool
    var outcomes: seq<bool>  // each call of resolve (true) or reject (false)

    ghost function Abs(): Batch
      reads this
    {
      Batch(chunk, onSaved, onRejected, timer, outcomes)
    }

    constructor (chunk: seq<Entry>, batchId: nat)
      ensures this.batchId == batchId && Abs() == Batch(chunk, true, true, true, [])
    {
      this.chunk, this.batchId := chunk, batchId;
      onSaved, onRejected, timer, outcomes := true, true, true, [];
    }

    method OnPositionsSaved(tag: Option<nat>)
      requires onSaved
      modifies this
      ensures Abs() == Hear(old(Abs()), batchId, Saved(tag))
      ensures tag.Some? && tag.value != batchId ==> Abs() == old(Abs())
      ensures !(tag.Some? && tag.value != batchId) ==>
                !onSaved && !onRejected && !timer && outcomes == old(outcomes) + [true]
    {
      onSaved := false;
      if tag.Some? && tag.value != batchId {
        onSaved := true;
        return;
      }
      timer := false;
      onRejected := false;
      outcomes := outcomes + [true];
    }

    method OnPositionsRejected(tag: Option<nat>)
      requires onRejected
      modifies this
      ensures Abs() == Hear(old(Abs()), batchId, Rejected(tag))
      ensures tag.Some? && tag.value != batchId ==> Abs() == old(Abs())
      ensures !(tag.Some? && tag.value != batchId) ==>
                !onSaved && !onRejected && !timer && outcomes == old(outcomes) + [false]
    {
      onRejected := false;
      if tag.Some? && tag.value != batchId {
        onRejected := true;
        return;
      }
      timer := false;
      onSaved := false;
      outcomes := outcomes + [false];
    }

    method OnTimeout()
      requires timer
      modifies this
      ensures Abs() == Batch(chunk, false, false, false, old(outcomes) + [false])
    {
      timer := false;
      onSaved := false;
      onRejected := false;
      outcomes := outcomes + [false];
    }
  }

  /** A batch promise that has heard some answers and perhaps its timer, in any order. */
  datatype Stimulus = Answer(r: Reply) | Expiry

  function Feel(x: Batch, b: nat, st: Stimulus): Batch {
    match st
    case Answer(r) => Hear(x, b, r)
    case Expiry => if x.timer then Batch(x.chunk, false, false, false, x.outcomes + [false]) else x
  }

  function FeelAll(x: Batch, b: nat, sts: seq<Stimulus>): Batch {
    if sts == [] then x else Feel(FeelAll(x, b, sts[..|sts| - 1]), b, sts[|sts| - 1])
  }

  /** What settles the promise of batch b: its timer, or an answer that carries b or no id. */
  predicate Settles(b: nat, st: Stimulus) {
    st.Expiry? || st.r.tag.None? || st.r.tag == Some(b)
  }

  /** The outcome that a stimulus gives when it settles. */
  predicate Good(st: Stimulus) {
    st.Answer? && st.r.Saved?
  }

  /** The first stimulus that settles decides the outcome, and nothing after it does anything. */
  lemma {:induction false} FirstOwnAnswerDecides(chunk: seq<Entry>, b: nat, sts: seq<Stimulus>, k: nat)
    requires k <= |sts|
    requires forall i :: 0 <= i < k ==> !Settles(b, sts[i])
    requires k < |sts| ==> Settles(b, sts[k])
    ensures var x := FeelAll(Batch(chunk, true, true, true, []), b, sts);
            x == if k < |sts| then Batch(chunk, false, false, false, [Good(sts[k])])
                 else Batch(chunk, true, true, true, [])
  {
    if sts != [] {
      var before := sts[..|sts| - 1];
      FirstOwnAnswerDecides(chunk, b, before, if k < |sts| then k else |before|);
    }
  }
}
