/** One retry from its selection to its answer, when nothing else runs meanwhile. */
module WebhookProgress {
  import opened Wrappers
  import opened WebhookRetry
  import opened WebhookProtocol

  /** A pass selects the delivery and enqueues its job; a worker takes it and loads the row. */
  function Approach(id: nat, attempts: nat, k: nat, w: nat, now: int): seq<Event> {
    [CronSelect(k, [id], now), CronAdd(k), Take(w, Job(id, attempts)), Read(w)]
  }

  /** Then it posts and is answered, or gives up because the URL is not safe. */
  function Outcome(w: nat, safe: bool, ok: bool, later: int): seq<Event> {
    if safe then [UrlCheck(w, true), Send(w), Complete(w, ok, later)] else [UrlCheck(w, false), Abort(w)]
  }

  lemma {:induction false} RunConcat(s: State, evs: seq<Event>, more: seq<Event>)
    ensures Run(s, evs + more) == Run(Run(s, evs), more)
  {
    hide Apply;
    if more == [] {
      assert evs + more == evs;
    } else {
      RunConcat(s, evs, more[..|more| - 1]);
      assert (evs + more)[..|evs + more| - 1] == evs + more[..|more| - 1];
    }
  }

  lemma RunOne(s: State, x: Event)
    ensures Run(s, [x]) == Apply(s, x)
  {
    hide Apply;
    assert [x][..0] == [];
  }

  lemma RunTwo(s: State, x: Event, y: Event)
    ensures Run(s, [x, y]) == Apply(Apply(s, x), y)
  {
    hide Apply;
    assert [x, y][..1] == [x];
    RunOne(s, x);
  }

  lemma RunThree(s: State, x: Event, y: Event, z: Event)
    ensures Run(s, [x, y, z]) == Apply(Apply(Apply(s, x), y), z)
  {
    hide Apply;
    assert [x, y, z][..2] == [x, y];
    RunTwo(s, x, y);
  }

  predicate IsDue(s: State, id: nat, now: int) {
    && id in s.rows
    && var row := s.rows[id];
       row.status == Failed && row.nextRetryAt.Some? && row.nextRetryAt.value <= now && row.company !in s.deleted &&
         row.attempts < row.maxAttempts
  }

  /** Only this job and this worker have changed. */
  predicate Standing(s: State, s': State, w: nat, x: Stage) {
    && w in s'.workers && s'.workers[w] == x && s'.rows == s.rows && s'.posts == s.posts && s'.deleted == s.deleted
    && x.job in s'.jobs && s'.jobs[x.job] == Active
  }

  lemma SelectAndAdd(s: State, id: nat, k: nat, now: int)
    requires IsDue(s, id, now) && k !in s.crons && Job(id, s.rows[id].attempts) !in s.jobs
    ensures var job := Job(id, s.rows[id].attempts);
            var s' := Apply(Apply(s, CronSelect(k, [id], now)), CronAdd(k));
            && s'.rows == s.rows && s'.posts == s.posts && s'.deleted == s.deleted && s'.workers == s.workers
            && job in s'.jobs && s'.jobs[job] == Waiting
  {
    var x := Snapshot(id, s.rows[id].attempts, s.rows[id].maxAttempts);
    var s1 := DoCronSelect(s, k, [id], now);
    assert s1.crons[k] == [x];
    assert AddRetry(s1.jobs, x) == s1.jobs[Job(id, s.rows[id].attempts) := Waiting];
    assert Apply(s, CronSelect(k, [id], now)) == s1 && Apply(s1, CronAdd(k)) == DoCronAdd(s1, k);
  }

  lemma TakeAndRead(s: State, id: nat, w: nat)
    requires id in s.rows && s.rows[id].status != Success && s.rows[id].attempts < s.rows[id].maxAttempts
    requires s.rows[id].company !in s.deleted && w !in s.workers
    requires var job := Job(id, s.rows[id].attempts); job in s.jobs && s.jobs[job] == Waiting
    ensures var job := Job(id, s.rows[id].attempts);
            Standing(s, Apply(Apply(s, Take(w, job)), Read(w)), w, Checking(job, s.rows[id]))
  {
    var job := Job(id, s.rows[id].attempts);
    var s1 := DoTake(s, w, job);
    assert Apply(s, Take(w, job)) == s1 && Apply(s1, Read(w)) == DoRead(s1, w);
  }

  lemma Approached(s: State, id: nat, k: nat, w: nat, now: int)
    requires IsDue(s, id, now) && k !in s.crons && w !in s.workers && Job(id, s.rows[id].attempts) !in s.jobs
    ensures var job := Job(id, s.rows[id].attempts);
            Standing(s, Run(s, Approach(id, job.attempts, k, w, now)), w, Checking(job, s.rows[id]))
  {
    hide Apply, Run;
    var job := Job(id, s.rows[id].attempts);
    var a, b := [CronSelect(k, [id], now), CronAdd(k)], [Take(w, job), Read(w)];
    assert Approach(id, job.attempts, k, w, now) == a + b;
    RunConcat(s, a, b);
    RunTwo(s, a[0], a[1]);
    SelectAndAdd(s, id, k, now);
    var s1 := Run(s, a);
    RunTwo(s1, b[0], b[1]);
    TakeAndRead(s1, id, w);
  }

  lemma CheckAndSend(s: State, w: nat, job: Job, read: Delivery)
    requires w in s.workers && s.workers[w] == Checking(job, read)
    ensures var s' := Apply(Apply(s, UrlCheck(w, true)), Send(w));
            && w in s'.workers && s'.workers[w] == Posting(job, read) && s'.rows == s.rows
            && s'.posts == s.posts + [Post(job.id, read.attempts + 1)]
  {
    assert Apply(s, UrlCheck(w, true)) == DoUrlCheck(s, w, true);
  }

  lemma Answered(s: State, w: nat, job: Job, ok: bool, later: int)
    requires w in s.workers && job.id in s.rows && s.workers[w] == Posting(job, s.rows[job.id])
    ensures var s' := Apply(s, Complete(w, ok, later));
            var row := s.rows[job.id];
            && w !in s'.workers && job in s'.jobs && s'.jobs[job] == Finished && s'.posts == s.posts
            && s'.rows == s.rows[job.id := row.(status := if ok then Success else Failed, attempts := row.attempts + 1,
                                                nextRetryAt := if ok || row.attempts + 1 >= row.maxAttempts then None
                                                               else Some(later + Pow2(row.attempts + 1) * 60000))]
  {
    hide Pow2;
  }

  lemma GivenUp(s: State, w: nat, job: Job, read: Delivery)
    requires w in s.workers && job.id in s.rows && s.workers[w] == Checking(job, read)
    ensures var s' := Apply(Apply(s, UrlCheck(w, false)), Abort(w));
            && w !in s'.workers && job in s'.jobs && s'.jobs[job] == Finished && s'.posts == s.posts
            && s'.rows == s.rows[job.id := s.rows[job.id].(status := Failed, nextRetryAt := None)]
  {
    assert Apply(s, UrlCheck(w, false)) == DoUrlCheck(s, w, false);
  }

  /**
   From any state: a due delivery whose attempt has no job yet is posted once more, if its URL is safe,
   and its row then says what the answer was and when it is tried again; an unsafe URL ends it unposted.
   */
  lemma DueDeliveryIsRetried(s: State, id: nat, k: nat, w: nat, safe: bool, ok: bool, now: int, later: int)
    requires IsDue(s, id, now) && k !in s.crons && w !in s.workers && Job(id, s.rows[id].attempts) !in s.jobs
    ensures var row := s.rows[id];
            var s' := Run(s, Approach(id, row.attempts, k, w, now) + Outcome(w, safe, ok, later));
            && s'.posts == (if safe then s.posts + [Post(id, row.attempts + 1)] else s.posts)
            && s'.rows == s.rows[id := if safe then
                                     row.(status := if ok then Success else Failed, attempts := row.attempts + 1,
                                          nextRetryAt := if ok || row.attempts + 1 >= row.maxAttempts then None
                                                         else Some(later + Pow2(row.attempts + 1) * 60000))
                                   else row.(status := Failed, nextRetryAt := None)]
            && w !in s'.workers
            && Job(id, row.attempts) in s'.jobs && s'.jobs[Job(id, row.attempts)] == Finished
  {
    hide Apply, Run, Pow2;
    var row := s.rows[id];
    var job := Job(id, row.attempts);
    var first := Approach(id, row.attempts, k, w, now);
    RunConcat(s, first, Outcome(w, safe, ok, later));
    Approached(s, id, k, w, now);
    var s1 := Run(s, first);
    if safe {
      RunThree(s1, UrlCheck(w, true), Send(w), Complete(w, ok, later));
      CheckAndSend(s1, w, job, row);
      Answered(Apply(Apply(s1, UrlCheck(w, true)), Send(w)), w, job, ok, later);
    } else {
      RunTwo(s1, UrlCheck(w, false), Abort(w));
      GivenUp(s1, w, job, row);
    }
  }

  /** A finished job is forgotten once no pass still holds its delivery at its attempt. */
  lemma ForgottenWhenUnselected(s: State, job: Job)
    requires job in s.jobs && s.jobs[job] == Finished && s.retained
    ensures var held := exists k, i ::
              k in s.crons && 0 <= i < |s.crons[k]| && s.crons[k][i].id == job.id &&
                s.crons[k][i].attempts == job.attempts;
            Apply(s, Expire(job)) == if held then s else s.(jobs := s.jobs - {job})
  {
  }

  /** Deliveries come and go, companies are deleted and passes stop at any time. */
  lemma OthersAct(s: State, id: nat, row: Delivery, company: nat, k: nat)
    ensures id !in s.born && RowOk(row) ==> Apply(s, Create(id, row)).rows == s.rows[id := row]
    ensures Apply(s, Drop(id)) == s.(rows := s.rows - {id})
    ensures Apply(s, DeleteCompany(company)).deleted == s.deleted + {company}
    ensures Apply(s, CronStop(k)) == s.(crons := s.crons - {k})
  {
  }
}
