/**
 The webhook retry processor: what one retry writes to its delivery, which deliveries a cron pass
 selects, and the two entry points run alone.
 */
module WebhookRetry {
  import opened Wrappers

  datatype Status = Pending | Success | Failed

  datatype Delivery = Delivery(company: nat, status: Status, attempts: nat, maxAttempts: nat, nextRetryAt: Option<int>)

  // The deterministic job id retry:<delivery>:<attempts>.
  datatype Job = Job(id: nat, attempts: nat)

  datatype JobState = Waiting | Active | Finished

  // The columns the cron reads.
  datatype Snapshot = Snapshot(id: nat, attempts: nat, maxAttempts: nat)

  const MINUTE_MS: int := 60000

  function Pow2(n: nat): (r: nat)
    ensures r >= 1
  {
    if n == 0 then 1 else 2 * Pow2(n - 1)
  }

  lemma PowersOfTwo(n: nat)
    ensures Pow2(0) == 1 && Pow2(n + 1) == Pow2(n) + Pow2(n)
  {
  }

  /** The first guard of a retry: nothing is left to do. */
  predicate Settled(r: Delivery) {
    r.status.Success? || r.attempts >= r.maxAttempts
  }

  /** The final update, computed from the row as it was read before the POST. */
  function WriteResult(row: Delivery, read: Delivery, ok: bool, now: int): Delivery {
    var newAttempts := read.attempts + 1;
    row.(status := if ok then Success else Failed,
         attempts := newAttempts,
         nextRetryAt := if !ok && read.maxAttempts > newAttempts then Some(now + Pow2(newAttempts) * MINUTE_MS)
                        else None)
  }

  /** The update of the two abort branches. */
  function WriteAbort(row: Delivery): Delivery {
    row.(status := Failed, nextRetryAt := None)
  }

  /** The cron's selection. */
  predicate Due(r: Delivery, deleted: set<nat>, now: int) {
    r.status.Failed? && r.nextRetryAt.Some? && r.nextRetryAt.value <= now && r.company !in deleted
  }

  /** Adding a job whose id is already known changes nothing, whatever state that job is in. */
  function AddJob(jobs: map<Job, JobState>, job: Job): map<Job, JobState> {
    if job in jobs then jobs else jobs[job := Waiting]
  }

  function AddRetry(jobs: map<Job, JobState>, x: Snapshot): map<Job, JobState> {
    if x.attempts >= x.maxAttempts then jobs else AddJob(jobs, Job(x.id, x.attempts))
  }

  function AddRetries(jobs: map<Job, JobState>, xs: seq<Snapshot>): map<Job, JobState> {
    if xs == [] then jobs else AddRetry(AddRetries(jobs, xs[..|xs| - 1]), xs[|xs| - 1])
  }

  /** What a whole retry does to the row when nothing else happens meanwhile. */
  function Retried(row: Delivery, deleted: set<nat>, urlSafe: bool, ok: bool, now: int): Delivery {
    if Settled(row) then row
    else if row.company in deleted || !urlSafe then WriteAbort(row)
    else WriteResult(row, row, ok, now)
  }

  predicate Posts(row: Delivery, deleted: set<nat>, urlSafe: bool) {
    !Settled(row) && row.company !in deleted && urlSafe
  }

  /** A next attempt is only ever scheduled for a failed delivery with attempts left. */
  predicate RowOk(r: Delivery) {
    r.attempts <= r.maxAttempts && (r.nextRetryAt.Some? ==> r.status.Failed? && r.attempts < r.maxAttempts)
  }

  // ------------------------------------------------------------- termination

  /** The minutes scheduled from here on if every further attempt fails. */
  function ScheduledMinutes(row: Delivery, now: int): int
    requires row.attempts <= row.maxAttempts
    decreases row.maxAttempts - row.attempts
  {
    if row.attempts >= row.maxAttempts then 0
    else
      var next := WriteResult(row, row, false, now);
      (if next.nextRetryAt.Some? then (next.nextRetryAt.value - now) / MINUTE_MS else 0) + ScheduledMinutes(next, now)
  }

  /** The backoff is geometric: 2^max - 2^(attempts + 1) minutes in all. */
  lemma {:induction false} GeometricBackoff(row: Delivery, now: int)
    requires row.attempts < row.maxAttempts
    ensures ScheduledMinutes(row, now) == Pow2(row.maxAttempts) - Pow2(row.attempts + 1)
    decreases row.maxAttempts - row.attempts
  {
    var next := WriteResult(row, row, false, now);
    if next.attempts < row.maxAttempts {
      GeometricBackoff(next, now);
      assert (next.nextRetryAt.value - now) / MINUTE_MS == Pow2(next.attempts);
    } else {
      assert ScheduledMinutes(next, now) == 0;
    }
  }

  /** A retry keeps the row well-formed, and either posts once more or leaves it unscheduled for good. */
  lemma RetryMakesProgress(row: Delivery, deleted: set<nat>, urlSafe: bool, ok: bool, now: int)
    requires RowOk(row)
    ensures var r := Retried(row, deleted, urlSafe, ok, now);
            && RowOk(r) && r.maxAttempts == row.maxAttempts && r.company == row.company
            && r.maxAttempts - r.attempts ==
                 row.maxAttempts - row.attempts - (if Posts(row, deleted, urlSafe) then 1 else 0)
            && (!Posts(row, deleted, urlSafe) ==> r.nextRetryAt.None? || r == row)
            && (row.status.Success? ==> r == row)
  {
  }

  /** The selection holds this delivery at this attempt, with attempts left. */
  ghost predicate Listed(failed: seq<Snapshot>, j: Job) {
    exists i :: 0 <= i < |failed| && failed[i].id == j.id && failed[i].attempts == j.attempts < failed[i].maxAttempts
  }

  lemma {:induction false} AddsListed(jobs: map<Job, JobState>, failed: seq<Snapshot>)
    ensures var jobs' := AddRetries(jobs, failed);
            && (forall j :: j in jobs ==> j in jobs' && jobs'[j] == jobs[j])
            && (forall j :: j in jobs' && j !in jobs ==> jobs'[j] == Waiting && Listed(failed, j))
            && (forall j :: Listed(failed, j) ==> j in jobs')
  {
    if failed != [] {
      var rest, last := failed[..|failed| - 1], failed[|failed| - 1];
      AddsListed(jobs, rest);
      forall j ensures Listed(failed, j) <==>
        Listed(rest, j) || (last.id == j.id && last.attempts == j.attempts < last.maxAttempts) {
        if Listed(rest, j) {
          var i :| 0 <= i < |rest| && rest[i].id == j.id && rest[i].attempts == j.attempts < rest[i].maxAttempts;
          assert failed[i] == rest[i];
        }
      }
    }
  }

  // ------------------------------------------------------- the two entry points

  class Processor {
    var deliveries: map<nat, Delivery>
    var deleted: set<nat>
    var jobs: map<Job, JobState>

    constructor ()
      ensures deliveries == map[] && deleted == {} && jobs == map[]
    {
      deliveries, deleted, jobs := map[], {}, map[];
    }

    /** One retry run alone; `urlSafe` and `ok` are the answers of the URL check and of the POST. */
    method Process(id: nat, urlSafe: bool, ok: bool, now: int) returns (posted: bool)
      modifies this`deliveries
      ensures id !in old(deliveries) ==> deliveries == old(deliveries) && !posted
      ensures id in old(deliveries) ==>
                && deliveries == old(deliveries)[id := Retried(old(deliveries)[id], deleted, urlSafe, ok, now)]
                && posted == Posts(old(deliveries)[id], deleted, urlSafe)
      // The same, field by field.
      ensures forall other :: other in old(deliveries) && other != id ==>
                other in deliveries && deliveries[other] == old(deliveries)[other]
      ensures id in old(deliveries) ==>
                var was := old(deliveries)[id];
                var live := was.status != Success && was.attempts < was.maxAttempts;
                && id in deliveries
                && (posted <==> live && was.company !in deleted && urlSafe)
                && (!live ==> deliveries[id] == was)
                && (live && !posted ==> deliveries[id] == was.(status := Failed, nextRetryAt := None))
      ensures posted ==>
                && id in deliveries && id in old(deliveries)
                && var was, row := old(deliveries)[id], deliveries[id];
                   && row.company == was.company && row.maxAttempts == was.maxAttempts
                   && row.attempts == was.attempts + 1
                   && (if ok then row.status == Success else row.status == Failed)
                   && (if !ok && row.attempts < row.maxAttempts
                       then row.nextRetryAt == Some(now + Pow2(row.attempts) * 60000)
                       else row.nextRetryAt == None)
    {
      posted := false;
      if id !in deliveries {
        return;
      }
      var delivery := deliveries[id];
      if delivery.status.Success? || delivery.attempts >= delivery.maxAttempts {
        return;
      }
      if delivery.company in deleted {
        deliveries := deliveries[id := delivery.(status := Failed, nextRetryAt := None)];
        return;
      }
      if !urlSafe {
        deliveries := deliveries[id := delivery.(status := Failed, nextRetryAt := None)];
        return;
      }
      posted := true;
      var newAttempts := delivery.attempts + 1;
      var remaining := delivery.maxAttempts - newAttempts;
      var nextRetryAt := if !ok && remaining > 0 then Some(now + Pow2(newAttempts) * MINUTE_MS) else None;
      var status := if ok then Success else Failed;
      deliveries := deliveries[id := delivery.(status := status, attempts := newAttempts, nextRetryAt := nextRetryAt)];
    }

    /** The cron loop over what the selection returned. */
    method EnqueueFailedDeliveries(failed: seq<Snapshot>)
      modifies this`jobs
      ensures jobs == AddRetries(old(jobs), failed)
      // Known jobs stay as they are, and each delivery with attempts left has one for that attempt.
      ensures forall j :: j in old(jobs) ==> j in jobs && jobs[j] == old(jobs)[j]
      ensures forall j :: j in jobs && j !in old(jobs) ==> jobs[j] == Waiting && Listed(failed, j)
      ensures forall j :: Listed(failed, j) ==> j in jobs
    {
      AddsListed(jobs, failed);
      for i := 0 to |failed|
        invariant jobs == AddRetries(old(jobs), failed[..i])
      {
        assert failed[..i + 1][..i] == failed[..i];
        var delivery := failed[i];
        if delivery.attempts >= delivery.maxAttempts {
          continue;
        }
        var jobId := Job(delivery.id, delivery.attempts);
        if jobId !in jobs {
          jobs := jobs[jobId := Waiting];
        }
      }
      assert failed[..|failed|] == failed;
    }
  }

  /** Enqueueing twice from the same selection, in any two instances, adds nothing the first did not. */
  lemma {:induction false} EnqueueTwice(jobs: map<Job, JobState>, xs: seq<Snapshot>, more: map<Job, JobState>)
    requires forall j :: j in AddRetries(jobs, xs) ==> j in more
    ensures AddRetries(more, xs) == more
  {
    if xs != [] {
      EnqueueTwice(jobs, xs[..|xs| - 1], more);
    }
  }
}
