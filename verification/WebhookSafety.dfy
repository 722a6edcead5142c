/** Every step of the retry system keeps its invariant, and what that means over whole runs. */
module WebhookSafety {
  import opened Wrappers
  import opened WebhookRetry
  import opened WebhookProtocol
  import Counting

  // -------------------------------------------------- one worker moves to stage x

  lemma MoveAlone(workers: Workers, w: nat, x: Stage)
    requires AloneInv(workers)
    requires forall v :: v in workers && v != w ==> !Rival(workers[v], x)
    ensures AloneInv(workers[w := x])
  {
  }

  lemma MovePosts(posts: seq<Post>, rows: Rows, workers: Workers, born: Rows, w: nat, x: Stage)
    requires PostInv(posts, rows, workers, born)
    requires w in workers ==> !workers[w].Posting?
    ensures PostInv(posts, rows, workers[w := x], born)
  {
    forall p | InFlight(workers, p) ensures InFlight(workers[w := x], p) {
      var v :| v in workers && workers[v].Posting? && Post(workers[v].job.id, workers[v].read.attempts + 1) == p;
      assert v in workers[w := x] && workers[w := x][v] == workers[v];
    }
  }

  lemma MoveFresh(posts: seq<Post>, workers: Workers, born: Rows, w: nat, x: Stage)
    requires FreshInv(posts, workers, born)
    requires x.Checking? || x.Ready? ==>
               && Post(x.job.id, x.read.attempts + 1) !in posts
               && x.job.id in born && x.read.maxAttempts == born[x.job.id].maxAttempts
    ensures FreshInv(posts, workers[w := x], born)
  {
  }

  lemma MoveDeletion(s: State, w: nat, x: Stage)
    requires DeletionInv(s.marks, s.deleted, s.posts, s.workers, s.born)
    requires x.Checking? ==> x.job.id in s.born && s.born[x.job.id].company !in s.deleted
    requires x.Ready? ==> w in s.workers && AboutToPost(s.workers[w], x.job.id)
    ensures DeletionInv(s.marks, s.deleted, s.posts, s.workers[w := x], s.born)
  {
  }

  lemma MoveWork(workers: Workers, jobs: Jobs, rows: Rows, w: nat, x: Stage)
    requires WorkInv(workers, jobs, rows) && w in workers && x.job == workers[w].job && WorkerOk(x, rows)
    ensures WorkInv(workers[w := x], jobs, rows)
  {
  }

  /** The parts of the invariant about workers, for a worker that is not awaiting an answer. */
  lemma Move(s: State, w: nat, x: Stage)
    requires Inv(s) && w in s.workers && x.job == s.workers[w].job && !s.workers[w].Posting?
    requires WorkerOk(x, s.rows)
    requires forall v :: v in s.workers && v != w ==> !Rival(s.workers[v], x)
    requires x.Checking? || x.Ready? ==>
               && Post(x.job.id, x.read.attempts + 1) !in s.posts
               && x.job.id in s.born && x.read.maxAttempts == s.born[x.job.id].maxAttempts
    requires x.Checking? ==> s.born[x.job.id].company !in s.deleted
    requires x.Ready? ==> AboutToPost(s.workers[w], x.job.id)
    ensures Inv(s.(workers := s.workers[w := x]))
  {
    MoveAlone(s.workers, w, x);
    MovePosts(s.posts, s.rows, s.workers, s.born, w, x);
    MoveFresh(s.posts, s.workers, s.born, w, x);
    MoveDeletion(s, w, x);
    MoveWork(s.workers, s.jobs, s.rows, w, x);
  }

  // ----------------------------------------------------------- rows and companies

  lemma StepCreate(s: State, id: nat, row: Delivery)
    requires Inv(s)
    ensures Inv(DoCreate(s, id, row))
  {
    hide JobInv, CronInv, WorkInv, PostInv, FreshInv, DeletionInv;
    if id !in s.born && RowOk(row) {
      CreateRows(s.rows, s.born, s.jobs, s.crons, id, row);
      CreateWork(s.workers, s.jobs, s.rows, s.born, id, row);
      CreatePosts(s.posts, s.rows, s.workers, s.born, id, row);
      CreateDeletion(s, id, row);
    }
  }

  lemma CreateRows(rows: Rows, born: Rows, jobs: Jobs, crons: Crons, id: nat, row: Delivery)
    requires id !in born && RowOk(row) && RowInv(rows, born) && JobInv(jobs, rows, born) &&
        CronInv(crons, rows, jobs, born)
    ensures RowInv(rows[id := row], born[id := row]) && JobInv(jobs, rows[id := row], born[id := row])
    ensures CronInv(crons, rows[id := row], jobs, born[id := row])
  {
  }

  lemma CreateWork(workers: Workers, jobs: Jobs, rows: Rows, born: Rows, id: nat, row: Delivery)
    requires id !in born && JobInv(jobs, rows, born) && WorkInv(workers, jobs, rows)
    ensures WorkInv(workers, jobs, rows[id := row])
  {
  }

  lemma CreatePosts(posts: seq<Post>, rows: Rows, workers: Workers, born: Rows, id: nat, row: Delivery)
    requires id !in born && PostInv(posts, rows, workers, born) && FreshInv(posts, workers, born)
    ensures PostInv(posts, rows[id := row], workers, born[id := row]) && FreshInv(posts, workers, born[id := row])
  {
    forall i | 0 <= i < |posts| ensures PostOk(posts[i], rows[id := row], workers) {
      assert PostOk(posts[i], rows, workers);
    }
  }

  lemma CreateDeletion(s: State, id: nat, row: Delivery)
    requires id !in s.born && PostInv(s.posts, s.rows, s.workers, s.born)
    requires DeletionInv(s.marks, s.deleted, s.posts, s.workers, s.born)
    ensures DeletionInv(s.marks, s.deleted, s.posts, s.workers, s.born[id := row])
  {
    forall i, c | 0 <= i < |s.posts|
      ensures Owned(s.born[id := row], s.posts[i].id, c) <==> Owned(s.born, s.posts[i].id, c)
    {
      assert s.posts[i].id in s.born;
    }
  }

  lemma StepDrop(s: State, id: nat)
    requires Inv(s)
    ensures Inv(DoDrop(s, id))
  {
  }

  lemma StepDeleteCompany(s: State, company: nat)
    requires Inv(s)
    ensures Inv(DoDeleteCompany(s, company))
  {
    hide RowInv, JobInv, CronInv, WorkInv, AloneInv, PostInv, FreshInv;
  }

  // ------------------------------------------------------------------- the cron

  lemma StepCronSelect(s: State, k: nat, ids: seq<nat>, now: int)
    requires Inv(s)
    ensures Inv(DoCronSelect(s, k, ids, now))
  {
  }

  lemma StepCronAdd(s: State, k: nat)
    requires Inv(s)
    ensures Inv(DoCronAdd(s, k))
  {
    hide RowInv, AloneInv, PostInv, FreshInv, DeletionInv;
  }

  lemma StepCronStop(s: State, k: nat)
    requires Inv(s)
    ensures Inv(DoCronStop(s, k))
  {
  }

  lemma StepExpire(s: State, job: Job)
    requires Inv(s)
    ensures Inv(DoExpire(s, job))
  {
  }

  // ---------------------------------------------------------------- the workers

  lemma TakeWork(workers: Workers, jobs: Jobs, rows: Rows, w: nat, job: Job)
    requires WorkInv(workers, jobs, rows) && w !in workers && job in jobs && jobs[job].Waiting?
    ensures WorkInv(workers[w := Taken(job)], jobs[job := Active], rows)
  {
  }

  lemma TakeJob(jobs: Jobs, rows: Rows, born: Rows, crons: Crons, job: Job)
    requires JobInv(jobs, rows, born) && CronInv(crons, rows, jobs, born) && job in jobs && jobs[job].Waiting?
    ensures JobInv(jobs[job := Active], rows, born) && CronInv(crons, rows, jobs[job := Active], born)
  {
  }

  lemma StepTake(s: State, w: nat, job: Job)
    requires Inv(s)
    ensures Inv(DoTake(s, w, job))
  {
    if w !in s.workers && job in s.jobs && s.jobs[job].Waiting? {
      TakeWork(s.workers, s.jobs, s.rows, w, job);
      TakeJob(s.jobs, s.rows, s.born, s.crons, job);
      MoveAlone(s.workers, w, Taken(job));
      MovePosts(s.posts, s.rows, s.workers, s.born, w, Taken(job));
      MoveFresh(s.posts, s.workers, s.born, w, Taken(job));
      MoveDeletion(s, w, Taken(job));
    }
  }

  /** A worker that loads a live row is the only one past its read for it, and has not posted. */
  lemma OnlyWorker(s: State, w: nat)
    requires Inv(s) && w in s.workers && s.workers[w].Taken? && s.workers[w].job.id in s.rows
    ensures s.rows[s.workers[w].job.id].attempts == s.workers[w].job.attempts
    ensures forall v :: v in s.workers && v != w ==> s.workers[v].job.id != s.workers[w].job.id
    ensures Post(s.workers[w].job.id, s.workers[w].job.attempts + 1) !in s.posts
  {
    var job := s.workers[w].job;
    var row := s.rows[job.id];
    assert JobOk(job, s.jobs[job], s.rows);
    forall v | v in s.workers && s.workers[v].job.id == job.id ensures v == w {
      assert JobOk(s.workers[v].job, s.jobs[s.workers[v].job], s.rows);
      assert s.workers[v].job == job;
    }
    forall i | 0 <= i < |s.posts| ensures s.posts[i] != Post(job.id, job.attempts + 1) {
      assert PostOk(s.posts[i], s.rows, s.workers);
    }
  }

  lemma FinishOthers(s: State, w: nat)
    requires AloneInv(s.workers) && FreshInv(s.posts, s.workers, s.born)
    requires DeletionInv(s.marks, s.deleted, s.posts, s.workers, s.born)
    ensures AloneInv(s.workers - {w}) && FreshInv(s.posts, s.workers - {w}, s.born)
    ensures DeletionInv(s.marks, s.deleted, s.posts, s.workers - {w}, s.born)
  {
  }

  lemma FinishParts(s: State, w: nat, rows: Rows)
    requires Inv(s) && w in s.workers
    requires WorkInv(s.workers - {w}, s.jobs[s.workers[w].job := Finished], rows)
    requires RowInv(rows, s.born) && PostInv(s.posts, rows, s.workers - {w}, s.born)
    requires JobInv(s.jobs[s.workers[w].job := Finished], rows, s.born)
    requires CronInv(s.crons, rows, s.jobs[s.workers[w].job := Finished], s.born)
    ensures Inv(Finish(s, w).(rows := rows))
  {
    hide RowInv, JobInv, CronInv, WorkInv, PostInv, FreshInv, DeletionInv;
    FinishOthers(s, w);
  }

  lemma FinishWork(workers: Workers, jobs: Jobs, rows: Rows, w: nat)
    requires WorkInv(workers, jobs, rows) && w in workers
    ensures WorkInv(workers - {w}, jobs[workers[w].job := Finished], rows)
  {
  }

  lemma FinishJobs(jobs: Jobs, rows: Rows, born: Rows, crons: Crons, job: Job)
    requires JobInv(jobs, rows, born) && CronInv(crons, rows, jobs, born) && job in jobs
    ensures JobInv(jobs[job := Finished], rows, born) && CronInv(crons, rows, jobs[job := Finished], born)
  {
  }

  lemma FinishPosts(posts: seq<Post>, rows: Rows, workers: Workers, born: Rows, w: nat)
    requires PostInv(posts, rows, workers, born) && w in workers && !workers[w].Posting?
    ensures PostInv(posts, rows, workers - {w}, born)
  {
    forall p | InFlight(workers, p) ensures InFlight(workers - {w}, p) {
      var v :| v in workers && workers[v].Posting? && Post(workers[v].job.id, workers[v].read.attempts + 1) == p;
      assert v in workers - {w} && (workers - {w})[v] == workers[v];
    }
  }

  lemma StepRead(s: State, w: nat)
    requires Inv(s)
    ensures Inv(DoRead(s, w))
  {
    if w in s.workers && s.workers[w].Taken? {
      var job := s.workers[w].job;
      if job.id !in s.rows || Settled(s.rows[job.id]) {
        FinishWork(s.workers, s.jobs, s.rows, w);
        FinishJobs(s.jobs, s.rows, s.born, s.crons, job);
        FinishPosts(s.posts, s.rows, s.workers, s.born, w);
        FinishParts(s, w, s.rows);
      } else if s.rows[job.id].company in s.deleted {
        Move(s, w, Aborting(job));
      } else {
        OnlyWorker(s, w);
        Move(s, w, Checking(job, s.rows[job.id]));
      }
    }
  }

  lemma StepUrlCheck(s: State, w: nat, safe: bool)
    requires Inv(s)
    ensures Inv(DoUrlCheck(s, w, safe))
  {
    if w in s.workers && s.workers[w].Checking? {
      var x := s.workers[w];
      Move(s, w, if safe then Ready(x.job, x.read) else Aborting(x.job));
    }
  }

  lemma SendPosts(posts: seq<Post>, rows: Rows, workers: Workers, born: Rows, w: nat)
    requires PostInv(posts, rows, workers, born) && FreshInv(posts, workers, born)
    requires w in workers && workers[w].Ready? && WorkerOk(workers[w], rows)
    ensures var x := workers[w];
            PostInv(posts + [Post(x.job.id, x.read.attempts + 1)], rows, workers[w := Posting(x.job, x.read)], born)
  {
    var x := workers[w];
    var p, workers' := Post(x.job.id, x.read.attempts + 1), workers[w := Posting(x.job, x.read)];
    assert w in workers' && workers'[w].Posting?;
    assert InFlight(workers', p);
    MovePosts(posts, rows, workers, born, w, Posting(x.job, x.read));
  }

  lemma SendFresh(posts: seq<Post>, workers: Workers, born: Rows, w: nat)
    requires FreshInv(posts, workers, born) && AloneInv(workers) && w in workers && workers[w].Ready?
    ensures var x := workers[w];
            FreshInv(posts + [Post(x.job.id, x.read.attempts + 1)], workers[w := Posting(x.job, x.read)], born)
  {
    var x := workers[w];
    var p, workers' := Post(x.job.id, x.read.attempts + 1), workers[w := Posting(x.job, x.read)];
    forall v | v in workers' && (workers'[v].Checking? || workers'[v].Ready?)
      ensures Post(workers'[v].job.id, workers'[v].read.attempts + 1) !in posts + [p]
    {
      assert v != w && !Rival(workers[v], workers[w]);
    }
  }

  lemma SendDeletion(s: State, w: nat)
    requires DeletionInv(s.marks, s.deleted, s.posts, s.workers, s.born)
    requires AloneInv(s.workers) && w in s.workers && s.workers[w].Ready?
    ensures var s' := DoSend(s, w);
            DeletionInv(s'.marks, s'.deleted, s'.posts, s'.workers, s'.born)
  {
    var s' := DoSend(s, w);
    var id := s.workers[w].job.id;
    assert AboutToPost(s.workers[w], id);
    forall v | v in s'.workers ensures !AboutToPost(s'.workers[v], id) {
      assert v != w ==> !Rival(s.workers[v], s.workers[w]);
    }
  }

  lemma StepSend(s: State, w: nat)
    requires Inv(s)
    ensures Inv(DoSend(s, w))
  {
    hide RowInv, JobInv, CronInv, PostInv, FreshInv, DeletionInv;
    if w in s.workers && s.workers[w].Ready? {
      var x := s.workers[w];
      SendPosts(s.posts, s.rows, s.workers, s.born, w);
      SendFresh(s.posts, s.workers, s.born, w);
      SendDeletion(s, w);
      MoveAlone(s.workers, w, Posting(x.job, x.read));
      MoveWork(s.workers, s.jobs, s.rows, w, Posting(x.job, x.read));
    }
  }

  // -------------------------------------------------------- the two final updates

  /** The row of an active job changes as its worker leaves: nobody else works on that row. */
  lemma WriteWork(workers: Workers, jobs: Jobs, rows: Rows, born: Rows, w: nat, row: Delivery)
    requires WorkInv(workers, jobs, rows) && JobInv(jobs, rows, born) && w in workers && workers[w].job.id in rows
    ensures WorkInv(workers - {w}, jobs[workers[w].job := Finished], rows[workers[w].job.id := row])
  {
    var job := workers[w].job;
    assert JobOk(job, jobs[job], rows);
    forall v | v in workers && workers[v].job.id == job.id ensures v == w {
      assert JobOk(workers[v].job, jobs[workers[v].job], rows);
      assert workers[v].job == job;
    }
  }

  lemma WriteJobs(jobs: Jobs, rows: Rows, born: Rows, crons: Crons, job: Job, row: Delivery)
    requires JobInv(jobs, rows, born) && CronInv(crons, rows, jobs, born)
    requires job in jobs && jobs[job].Active? && job.id in rows
    requires rows[job.id].attempts <= row.attempts && row.maxAttempts == rows[job.id].maxAttempts
    ensures JobInv(jobs[job := Finished], rows[job.id := row], born)
    ensures CronInv(crons, rows[job.id := row], jobs[job := Finished], born)
  {
    assert JobOk(job, jobs[job], rows);
    forall j | j in jobs ensures JobOk(j, jobs[job := Finished][j], rows[job.id := row]) {
      assert JobOk(j, jobs[j], rows);
    }
    forall k, i | k in crons && 0 <= i < |crons[k]|
      ensures SnapshotOk(crons[k][i], rows[job.id := row], jobs[job := Finished])
    {
      assert SnapshotOk(crons[k][i], rows, jobs);
    }
  }

  lemma CompletePosts(posts: seq<Post>, rows: Rows, workers: Workers, born: Rows, w: nat, row: Delivery)
    requires PostInv(posts, rows, workers, born) && w in workers && workers[w].Posting?
    requires workers[w].job.id in rows && rows[workers[w].job.id].attempts + 1 <= row.attempts
    ensures PostInv(posts, rows[workers[w].job.id := row], workers - {w}, born)
  {
    var id := workers[w].job.id;
    forall i | 0 <= i < |posts| ensures PostOk(posts[i], rows[id := row], workers - {w}) {
      assert PostOk(posts[i], rows, workers);
      if posts[i].id != id && InFlight(workers, posts[i]) {
        var v :| v in workers && workers[v].Posting? &&
          Post(workers[v].job.id, workers[v].read.attempts + 1) == posts[i];
        assert v in workers - {w} && (workers - {w})[v] == workers[v];
      }
    }
  }

  /** When the row is already gone, the worker leaves without writing. */
  lemma GonePosts(posts: seq<Post>, rows: Rows, workers: Workers, born: Rows, w: nat)
    requires PostInv(posts, rows, workers, born) && w in workers && workers[w].job.id !in rows
    ensures PostInv(posts, rows, workers - {w}, born)
  {
    forall i | 0 <= i < |posts| ensures PostOk(posts[i], rows, workers - {w}) {
      assert PostOk(posts[i], rows, workers);
      if posts[i].id in rows && InFlight(workers, posts[i]) {
        var v :| v in workers && workers[v].Posting? &&
          Post(workers[v].job.id, workers[v].read.attempts + 1) == posts[i];
        assert v in workers - {w} && (workers - {w})[v] == workers[v];
      }
    }
  }

  lemma StepComplete(s: State, w: nat, ok: bool, now: int)
    requires Inv(s)
    ensures Inv(DoComplete(s, w, ok, now))
  {
    if w in s.workers && s.workers[w].Posting? {
      var x := s.workers[w];
      if x.job.id in s.rows {
        var row := WriteResult(s.rows[x.job.id], x.read, ok, now);
        assert RowOk(row);
        WriteWork(s.workers, s.jobs, s.rows, s.born, w, row);
        WriteJobs(s.jobs, s.rows, s.born, s.crons, x.job, row);
        CompletePosts(s.posts, s.rows, s.workers, s.born, w, row);
        FinishParts(s, w, s.rows[x.job.id := row]);
      } else {
        FinishWork(s.workers, s.jobs, s.rows, w);
        FinishJobs(s.jobs, s.rows, s.born, s.crons, x.job);
        GonePosts(s.posts, s.rows, s.workers, s.born, w);
        FinishParts(s, w, s.rows);
      }
    }
  }

  lemma RewritePosts(posts: seq<Post>, rows: Rows, workers: Workers, born: Rows, id: nat, row: Delivery)
    requires PostInv(posts, rows, workers, born) && id in rows && row.attempts == rows[id].attempts
    ensures PostInv(posts, rows[id := row], workers, born)
  {
    forall i | 0 <= i < |posts| ensures PostOk(posts[i], rows[id := row], workers) {
      assert PostOk(posts[i], rows, workers);
    }
  }

  lemma StepAbort(s: State, w: nat)
    requires Inv(s)
    ensures Inv(DoAbort(s, w))
  {
    if w in s.workers && s.workers[w].Aborting? {
      var job := s.workers[w].job;
      FinishPosts(s.posts, s.rows, s.workers, s.born, w);
      if job.id in s.rows {
        var row := WriteAbort(s.rows[job.id]);
        WriteWork(s.workers, s.jobs, s.rows, s.born, w, row);
        WriteJobs(s.jobs, s.rows, s.born, s.crons, job, row);
        RewritePosts(s.posts, s.rows, s.workers - {w}, s.born, job.id, row);
        FinishParts(s, w, s.rows[job.id := row]);
      } else {
        FinishWork(s.workers, s.jobs, s.rows, w);
        FinishJobs(s.jobs, s.rows, s.born, s.crons, job);
        FinishParts(s, w, s.rows);
      }
    }
  }

  // ------------------------------------------------------------------ whole runs

  lemma StepKeepsInv(s: State, ev: Event)
    requires Inv(s)
    ensures Inv(Apply(s, ev))
  {
    hide Inv;
    hide DoCreate, DoDrop, DoDeleteCompany, DoCronSelect, DoCronAdd, DoCronStop, DoTake, DoRead, DoUrlCheck, DoSend,
      DoComplete, DoAbort, DoExpire;
    match ev
    case Create(id, row) => StepCreate(s, id, row);
    case Drop(id) => StepDrop(s, id);
    case DeleteCompany(company) => StepDeleteCompany(s, company);
    case CronSelect(k, ids, now) => StepCronSelect(s, k, ids, now);
    case CronAdd(k) => StepCronAdd(s, k);
    case CronStop(k) => StepCronStop(s, k);
    case Take(w, job) => StepTake(s, w, job);
    case Read(w) => StepRead(s, w);
    case UrlCheck(w, safe) => StepUrlCheck(s, w, safe);
    case Send(w) => StepSend(s, w);
    case Complete(w, ok, now) => StepComplete(s, w, ok, now);
    case Abort(w) => StepAbort(s, w);
    case Expire(job) => StepExpire(s, job);
  }

  lemma {:induction false} RunKeepsInv(evs: seq<Event>)
    ensures Inv(Run(Init(true), evs))
  {
    if evs != [] {
      RunKeepsInv(evs[..|evs| - 1]);
      StepKeepsInv(Run(Init(true), evs[..|evs| - 1]), evs[|evs| - 1]);
    }
  }

  /** Whatever the instances do, each attempt of each delivery is POSTed at most once. */
  lemma {:induction false} AtMostOncePerAttempt(evs: seq<Event>)
    ensures var posts := Run(Init(true), evs).posts;
            forall i, j :: 0 <= i < j < |posts| ==> posts[i] != posts[j]
  {
    RunKeepsInv(evs);
  }

  /** Attempts never pass the limit, and a next attempt is scheduled only while some are left. */
  lemma {:induction false} AttemptsStayBounded(evs: seq<Event>)
    ensures var s := Run(Init(true), evs);
            && (forall id :: id in s.rows ==> s.rows[id].attempts <= s.rows[id].maxAttempts)
            && (forall id :: id in s.rows && s.rows[id].nextRetryAt.Some? ==>
                  s.rows[id].status.Failed? && s.rows[id].attempts < s.rows[id].maxAttempts)
            && (forall i :: 0 <= i < |s.posts| ==>
                  s.posts[i].id in s.born && 0 < s.posts[i].attempt <= s.born[s.posts[i].id].maxAttempts)
  {
    RunKeepsInv(evs);
  }

  function AttemptsPosted(posts: seq<Post>, id: nat): seq<nat> {
    if posts == [] then []
    else
      var last := posts[|posts| - 1];
      AttemptsPosted(posts[..|posts| - 1], id) + (if last.id == id then [last.attempt] else [])
  }

  predicate DistinctAttempts(xs: seq<nat>, posts: seq<Post>, id: nat) {
    && (forall i, j :: 0 <= i < j < |xs| ==> xs[i] != xs[j])
    && (forall i :: 0 <= i < |xs| ==> Post(id, xs[i]) in posts)
  }

  lemma {:induction false} AttemptsPostedFacts(posts: seq<Post>, id: nat)
    requires forall i, j :: 0 <= i < j < |posts| ==> posts[i] != posts[j]
    ensures DistinctAttempts(AttemptsPosted(posts, id), posts, id)
  {
    if posts != [] {
      var before, last := posts[..|posts| - 1], posts[|posts| - 1];
      AttemptsPostedFacts(before, id);
      assert posts == before + [last] && last !in before;
    }
  }

  /** Retrying ends: a delivery is POSTed by retries at most maxAttempts times, over any run. */
  lemma {:induction false} PostsAreBounded(evs: seq<Event>, id: nat)
    ensures var s := Run(Init(true), evs);
            id in s.born ==> |AttemptsPosted(s.posts, id)| <= s.born[id].maxAttempts
  {
    var s := Run(Init(true), evs);
    RunKeepsInv(evs);
    if id in s.born {
      var xs := AttemptsPosted(s.posts, id);
      AttemptsPostedFacts(s.posts, id);
      forall i | 0 <= i < |xs| ensures 1 <= xs[i] <= s.born[id].maxAttempts {
        var k :| 0 <= k < |s.posts| && s.posts[k] == Post(id, xs[i]);
      }
      Counting.DistinctInRange(xs, 1, s.born[id].maxAttempts);
    }
  }

  /** Only a worker's final update, or its abort, changes a row that is there before and after. */
  lemma RowFrame(s: State, ev: Event, id: nat)
    requires id in s.rows && id in s.born && id in Apply(s, ev).rows
    ensures !ev.Complete? && !ev.Abort? ==> Apply(s, ev).rows[id] == s.rows[id]
  {
    hide Due, SnapshotOf, AddRetry, Selected, Settled;
  }

  lemma CompleteRow(s: State, w: nat, ok: bool, now: int, id: nat)
    requires WorkInv(s.workers, s.jobs, s.rows) && id in s.rows
    ensures var s' := DoComplete(s, w, ok, now);
            && id in s'.rows && s'.rows[id].maxAttempts == s.rows[id].maxAttempts
            && s.rows[id].attempts <= s'.rows[id].attempts <= s.rows[id].attempts + 1
            && (s.rows[id].status.Success? ==> s'.rows[id] == s.rows[id])
  {
    if w in s.workers {
      assert WorkerOk(s.workers[w], s.rows);
    }
  }

  lemma AbortRow(s: State, w: nat, id: nat)
    requires WorkInv(s.workers, s.jobs, s.rows) && id in s.rows
    ensures var s' := DoAbort(s, w);
            && id in s'.rows && s'.rows[id].maxAttempts == s.rows[id].maxAttempts &&
                 s'.rows[id].attempts == s.rows[id].attempts
            && (s.rows[id].status.Success? ==> s'.rows[id] == s.rows[id])
  {
    if w in s.workers {
      assert WorkerOk(s.workers[w], s.rows);
    }
  }

  /**
   No step lowers a delivery's attempts, raises them by more than one, or changes its limit; and
   success is final: no later step, however stale its reading, changes a delivered row.
   */
  lemma StepOnRow(s: State, ev: Event, id: nat)
    requires Inv(s) && id in s.rows && id in Apply(s, ev).rows
    ensures var r := Apply(s, ev).rows[id];
            && s.rows[id].attempts <= r.attempts <= s.rows[id].attempts + 1 && r.maxAttempts == s.rows[id].maxAttempts
            && (s.rows[id].status.Success? ==> r == s.rows[id])
  {
    hide JobInv, CronInv, WorkInv, AloneInv, PostInv, FreshInv, DeletionInv;
    hide DoCreate, DoDrop, DoDeleteCompany, DoCronSelect, DoCronAdd, DoCronStop, DoTake, DoRead, DoUrlCheck, DoSend,
      DoComplete, DoAbort, DoExpire;
    RowFrame(s, ev, id);
    if ev.Complete? {
      CompleteRow(s, ev.w, ev.ok, ev.now, id);
    } else if ev.Abort? {
      AbortRow(s, ev.w, id);
    }
  }

  /** A worker awaits the answer of its POST for this delivery. */
  predicate AwaitsAnswer(s: State, w: nat, id: nat) {
    w in s.workers && s.workers[w].Posting? && s.workers[w].job.id == id
  }

  /** What the answer of a POST writes, field by field: the row as it stood counts one attempt more. */
  lemma AnswerWrites(s: State, w: nat, ok: bool, now: int, id: nat)
    requires Inv(s) && AwaitsAnswer(s, w, id) && id in s.rows
    ensures var s' := Apply(s, Complete(w, ok, now));
            && id in s'.rows
            && var was, row := s.rows[id], s'.rows[id];
               && row.company == was.company && row.maxAttempts == was.maxAttempts && row.attempts == was.attempts + 1
               && (if ok then row.status == Success else row.status == Failed)
               && (if !ok && row.attempts < row.maxAttempts then
                    row.nextRetryAt == Some(now + Pow2(row.attempts) * 60000)
                   else row.nextRetryAt == None)
  {
    assert WorkerOk(s.workers[w], s.rows);
  }

  /** A delivery turns to success at a step exactly if the step is a good answer to its worker's POST. */
  lemma SuccessComesFromAnswer(s: State, ev: Event, id: nat)
    requires Inv(s) && id in s.rows && id in Apply(s, ev).rows && !s.rows[id].status.Success?
    ensures Apply(s, ev).rows[id].status.Success? <==> ev.Complete? && ev.ok && AwaitsAnswer(s, ev.w, id)
  {
    hide JobInv, CronInv, WorkInv, AloneInv, PostInv, FreshInv, DeletionInv;
    hide DoCreate, DoDrop, DoDeleteCompany, DoCronSelect, DoCronAdd, DoCronStop, DoTake, DoRead, DoUrlCheck, DoSend;
    hide DoComplete, DoAbort, DoExpire;
    RowFrame(s, ev, id);
    if ev.Complete? {
      CompleteStatus(s, ev.w, ev.ok, ev.now, id);
    } else if ev.Abort? {
      AbortStatus(s, ev.w, id);
    }
  }

  lemma CompleteStatus(s: State, w: nat, ok: bool, now: int, id: nat)
    requires id in s.rows && !s.rows[id].status.Success?
    ensures id in DoComplete(s, w, ok, now).rows
    ensures DoComplete(s, w, ok, now).rows[id].status.Success? <==> ok && AwaitsAnswer(s, w, id)
  {
  }

  lemma AbortStatus(s: State, w: nat, id: nat)
    requires id in s.rows && !s.rows[id].status.Success?
    ensures id in DoAbort(s, w).rows && !DoAbort(s, w).rows[id].status.Success?
  {
  }

  /** A pass selects only failed deliveries whose time has come, of companies that are not deleted. */
  lemma SelectsOnlyDue(s: State, k: nat, ids: seq<nat>, now: int, i: nat)
    requires k !in s.crons && k in Apply(s, CronSelect(k, ids, now)).crons && i < |ids|
    ensures && ids[i] in s.rows
            && var row := s.rows[ids[i]];
               && row.status == Failed && row.nextRetryAt.Some? && row.nextRetryAt.value <= now &&
                    row.company !in s.deleted
               && Apply(s, CronSelect(k, ids, now)).crons[k][i] == Snapshot(ids[i], row.attempts, row.maxAttempts)
  {
    assert Apply(s, CronSelect(k, ids, now)) == DoCronSelect(s, k, ids, now);
  }

  /** Where a worker goes from its read: on, if the delivery is live and its company not deleted. */
  lemma ReadDecides(s: State, w: nat)
    requires w in s.workers && s.workers[w].Taken?
    ensures var job := s.workers[w].job;
            var s' := Apply(s, Read(w));
            var live := job.id in s.rows && s.rows[job.id].status != Success
                        && s.rows[job.id].attempts < s.rows[job.id].maxAttempts;
            && (live && s.rows[job.id].company !in s.deleted ==>
                 w in s'.workers && s'.workers[w] == Checking(job, s.rows[job.id]))
            && (live && s.rows[job.id].company in s.deleted ==> w in s'.workers && s'.workers[w] == Aborting(job))
            && (!live ==> w !in s'.workers && job in s'.jobs && s'.jobs[job] == Finished)
            && s'.rows == s.rows && s'.posts == s.posts
  {
  }

  /** What the abort branches write, and that an unsafe URL leads there without a POST. */
  lemma AbortWrites(s: State, w: nat, job: Job, safe: bool)
    requires w in s.workers && job.id in s.rows
    ensures s.workers[w] == Aborting(job) ==>
              var s' := Apply(s, Abort(w));
              s'.rows == s.rows[job.id := s.rows[job.id].(status := Failed, nextRetryAt := None)] && s'.posts == s.posts
    ensures s.workers[w].Checking? && s.workers[w].job == job ==>
              var s' := Apply(s, UrlCheck(w, safe));
              && w in s'.workers && s'.posts == s.posts && s'.rows == s.rows
              && s'.workers[w] == if safe then Ready(job, s.workers[w].read) else Aborting(job)
  {
  }

  /** Attempts only grow over a run, and a delivery that succeeded is never touched again. */
  lemma {:induction false} RowsOnlyAdvance(evs: seq<Event>, more: seq<Event>, id: nat)
    requires id in Run(Init(true), evs).rows && id in Run(Init(true), evs + more).rows
    requires forall k :: 0 <= k <= |more| ==> id in Run(Init(true), evs + more[..k]).rows
    ensures var r, r' := Run(Init(true), evs).rows[id], Run(Init(true), evs + more).rows[id];
            && r.attempts <= r'.attempts && r'.maxAttempts == r.maxAttempts
            && (r.status.Success? ==> r' == r)
  {
    assert evs + more[..0] == evs && more[..|more|] == more;
    if more != [] {
      var before := more[..|more| - 1];
      assert evs + more == evs + before + [more[|more| - 1]];
      assert (evs + more)[..|evs + more| - 1] == evs + before;
      forall k | 0 <= k <= |before| ensures evs + before[..k] == evs + more[..k] {
        assert before[..k] == more[..k];
      }
      RowsOnlyAdvance(evs, before, id);
      RunKeepsInv(evs + before);
      StepOnRow(Run(Init(true), evs + before), more[|more| - 1], id);
    }
  }

  /**
   Once a company is deleted, each of its deliveries is POSTed at most once more, by a worker that
   had already passed the deletion check.
   */
  lemma {:induction false} DeletionStopsRetries(evs: seq<Event>, company: nat)
    ensures var s := Run(Init(true), evs);
            company in s.deleted ==>
              && company in s.marks
              && forall i, j :: s.marks[company] <= i < j < |s.posts| && Owned(s.born, s.posts[i].id, company) ==>
                   s.posts[i].id != s.posts[j].id
  {
    RunKeepsInv(evs);
  }

  predicate OfWorker(ev: Event) {
    ev.Take? || ev.Read? || ev.UrlCheck? || ev.Send? || ev.Complete? || ev.Abort?
  }

  lemma OthersLeaveWorkers(s: State, ev: Event)
    ensures !OfWorker(ev) ==> Apply(s, ev).workers == s.workers
  {
    hide DoTake, DoRead, DoUrlCheck, DoSend, DoComplete, DoAbort, Due, SnapshotOf, AddRetry, Selected;
  }

  predicate Past(workers: Workers, w: nat) {
    w in workers && PastRead(workers[w])
  }

  lemma MovesPassNobody(s: State, v: nat, job: Job, safe: bool, w: nat)
    ensures Past(DoTake(s, v, job).workers, w) ==> Past(s.workers, w)
    ensures Past(DoUrlCheck(s, v, safe).workers, w) ==> Past(s.workers, w)
    ensures Past(DoSend(s, v).workers, w) ==> Past(s.workers, w)
  {
  }

  lemma ExitsPassNobody(s: State, v: nat, ok: bool, now: int, w: nat)
    ensures Past(DoComplete(s, v, ok, now).workers, w) || Past(DoAbort(s, v).workers, w) ==> Past(s.workers, w)
  {
    hide WriteResult, WriteAbort;
  }

  lemma ElsewhereUnmoved(workers: Workers, v: nat, x: Stage, w: nat)
    requires v != w
    ensures Past(workers[v := x], w) <==> Past(workers, w)
    ensures Past(workers - {v}, w) <==> Past(workers, w)
  {
  }

  lemma ReadPassesOne(s: State, v: nat, w: nat)
    ensures Past(DoRead(s, v).workers, w) ==> Past(s.workers, w) || v == w
  {
    hide Settled, Past;
    if v != w && v in s.workers && s.workers[v].Taken? {
      var job := s.workers[v].job;
      ElsewhereUnmoved(s.workers, v, Aborting(job), w);
      if job.id in s.rows {
        ElsewhereUnmoved(s.workers, v, Checking(job, s.rows[job.id]), w);
      }
    }
  }

  lemma WorkerStep(s: State, ev: Event, w: nat)
    requires OfWorker(ev) && Past(Apply(s, ev).workers, w) && !Past(s.workers, w)
    ensures ev == Read(w)
  {
    hide DoTake, DoRead, DoUrlCheck, DoSend, DoComplete, DoAbort, Past;
    match ev
    case Take(v, job) => MovesPassNobody(s, v, job, true, w);
    case UrlCheck(v, safe) => MovesPassNobody(s, v, Job(0, 0), safe, w);
    case Send(v) => MovesPassNobody(s, v, Job(0, 0), true, w);
    case Complete(v, ok, now) => ExitsPassNobody(s, v, ok, now, w);
    case Abort(v) => ExitsPassNobody(s, v, true, 0, w);
    case Read(v) => ReadPassesOne(s, v, w);
  }

  /** A worker comes past its read only by reading. */
  lemma WorkerFrame(s: State, ev: Event, w: nat)
    requires Past(Apply(s, ev).workers, w) && !Past(s.workers, w)
    ensures ev == Read(w)
  {
    hide Apply;
    OthersLeaveWorkers(s, ev);
    if OfWorker(ev) {
      WorkerStep(s, ev, w);
    }
  }

  /** After the deletion no further worker can come past that check. */
  lemma NobodyPassesTheCheckAnew(s: State, ev: Event, w: nat)
    requires Inv(s) && Past(Apply(s, ev).workers, w) && !Past(s.workers, w)
    ensures var id := Apply(s, ev).workers[w].job.id;
            id in s.born && s.born[id].company !in s.deleted
  {
    hide JobInv, CronInv, WorkInv, AloneInv, PostInv, FreshInv, DeletionInv;
    hide DoCreate, DoDrop, DoDeleteCompany, DoCronSelect, DoCronAdd, DoCronStop, DoTake, DoUrlCheck, DoSend,
      DoComplete, DoAbort, DoExpire;
    WorkerFrame(s, ev, w);
  }

  // --------------------------------------- why finished jobs must be remembered

  ghost predicate Reachable(retained: bool, s: State) {
    exists evs :: Run(Init(retained), evs) == s
  }

  lemma ReachStep(retained: bool, s: State, ev: Event)
    requires Reachable(retained, s)
    ensures Reachable(retained, Apply(s, ev))
  {
    var evs :| Run(Init(retained), evs) == s;
    assert (evs + [ev])[..|evs|] == evs;
    assert Run(Init(retained), evs + [ev]) == Apply(s, ev);
  }

  const FIRST_FAILED: Delivery := Delivery(0, Failed, 1, 5, Some(0))

  /** A pass that selects one due row and has not yet enqueued it. */
  lemma SelectStep(s: State, k: nat, now: int)
    requires k !in s.crons && 7 in s.rows && Due(s.rows[7], s.deleted, now)
    ensures Apply(s, CronSelect(k, [7], now)) == s.(crons := s.crons[k := [SnapshotOf(s.rows, 7)]])
  {
    assert DoCronSelect(s, k, [7], now).crons[k] == [SnapshotOf(s.rows, 7)];
  }

  lemma AddStep(s: State, k: nat, x: Snapshot)
    requires k in s.crons && s.crons[k] == [x] && x.attempts < x.maxAttempts && Job(x.id, x.attempts) !in s.jobs
    ensures Apply(s, CronAdd(k)) == s.(jobs := s.jobs[Job(x.id, x.attempts) := Waiting], crons := s.crons[k := []])
  {
    assert s.crons[k][1..] == [];
    assert AddRetry(s.jobs, x) == s.jobs[Job(x.id, x.attempts) := Waiting];
    assert Apply(s, CronAdd(k)) == DoCronAdd(s, k);
  }

  lemma ExpireStep(s: State, job: Job)
    requires !s.retained && job in s.jobs && s.jobs[job].Finished?
    ensures Apply(s, Expire(job)) == s.(jobs := s.jobs - {job})
  {
  }

  lemma CompleteStep(s: State, w: nat, job: Job, read: Delivery)
    requires w in s.workers && s.workers[w] == Posting(job, read) && job.id in s.rows
    ensures Apply(s, Complete(w, false, 0)) ==
            s.(jobs := s.jobs[job := Finished], workers := s.workers - {w},
               rows := s.rows[job.id := WriteResult(s.rows[job.id], read, false, 0)])
  {
  }

  /** Two passes selected delivery 7; the job of the first has run, failed and been forgotten. */
  ghost predicate Forgotten(s: State) {
    && Reachable(false, s) && s.workers == map[] && s.jobs == map[] && s.deleted == {}
    && s.posts == [Post(7, 2)]
    && 7 in s.rows && s.rows[7] == Delivery(0, Failed, 2, 5, Some(240000))
    && 1 in s.crons && s.crons[1] == [Snapshot(7, 1, 5)] && 2 !in s.crons
  }

  /** Two passes hold the same selection of a failed delivery. */
  function SelectedTwice(): State {
    State(false, map[7 := FIRST_FAILED], map[7 := FIRST_FAILED], {}, map[],
          map[0 := [Snapshot(7, 1, 5)], 1 := [Snapshot(7, 1, 5)]], map[], [], map[])
  }

  lemma SelectedTwiceIsReachable()
    ensures Reachable(false, SelectedTwice())
  {
    var s0 := Init(false);
    assert Run(Init(false), []) == s0;
    ReachStep(false, s0, Create(7, FIRST_FAILED));
    var s1 := s0.(rows := map[7 := FIRST_FAILED], born := map[7 := FIRST_FAILED]);
    SelectStep(s1, 0, 0);
    ReachStep(false, s1, CronSelect(0, [7], 0));
    var s2 := s1.(crons := map[0 := [Snapshot(7, 1, 5)]]);
    SelectStep(s2, 1, 0);
    ReachStep(false, s2, CronSelect(1, [7], 0));
  }

  /** The first pass's job has posted and finished; its row has one attempt more. */
  lemma FirstRetryIsReachable()
    ensures exists s :: Forgotten(s)
  {
    var job := Job(7, 1);
    SelectedTwiceIsReachable();
    var s3 := SelectedTwice();
    AddStep(s3, 0, Snapshot(7, 1, 5));
    ReachStep(false, s3, CronAdd(0));
    var s4 := s3.(jobs := s3.jobs[job := Waiting], crons := s3.crons[0 := []]);
    ReachPost(s4, 0, job, FIRST_FAILED);
    RetryAndForget(PostedBy(s4, 0, job, FIRST_FAILED));
  }

  lemma RetryAndForget(s5: State)
    requires Reachable(false, s5) && s5.workers == map[0 := Posting(Job(7, 1), FIRST_FAILED)]
    requires s5.jobs == map[Job(7, 1) := Active] && s5.deleted == {} && s5.posts == [Post(7, 2)] && !s5.retained
    requires 7 in s5.rows && s5.rows[7] == FIRST_FAILED
    requires 1 in s5.crons && s5.crons[1] == [Snapshot(7, 1, 5)] && 2 !in s5.crons
    ensures exists s :: Forgotten(s)
  {
    hide Apply;
    var job := Job(7, 1);
    CompleteStep(s5, 0, job, FIRST_FAILED);
    ReachStep(false, s5, Complete(0, false, 0));
    var s6 := s5.(jobs := s5.jobs[job := Finished], workers := s5.workers - {0},
                  rows := s5.rows[7 := WriteResult(FIRST_FAILED, FIRST_FAILED, false, 0)]);
    ReachStep(false, s6, Expire(job));
    ExpireStep(s6, job);
    var s7 := s6.(jobs := s6.jobs - {job});
    assert Pow2(2) == 4;
    assert s7.jobs == map[] && s7.workers == map[];
    assert Forgotten(s7);
  }

  /**
   If a finished job were forgotten while a pass that selected it is still enqueueing, the same
   attempt could be POSTed twice: once for the stale job and once for the current one.
   */
  lemma ForgottenJobsRepeatPosts()
    ensures exists s :: Reachable(false, s) && s.posts == [Post(7, 2), Post(7, 3), Post(7, 3)]
  {
    hide Apply;
    FirstRetryIsReachable();
    var s0 :| Forgotten(s0);
    var row := s0.rows[7];
    AddStep(s0, 1, Snapshot(7, 1, 5));
    ReachStep(false, s0, CronAdd(1));
    var s1 := s0.(jobs := s0.jobs[Job(7, 1) := Waiting], crons := s0.crons[1 := []]);
    SelectStep(s1, 2, 240000);
    ReachStep(false, s1, CronSelect(2, [7], 240000));
    var s2 := s1.(crons := s1.crons[2 := [Snapshot(7, 2, 5)]]);
    AddStep(s2, 2, Snapshot(7, 2, 5));
    ReachStep(false, s2, CronAdd(2));
    var s3 := s2.(jobs := s2.jobs[Job(7, 2) := Waiting], crons := s2.crons[2 := []]);
    ReachPost(s3, 0, Job(7, 1), row);
    ReachPost(PostedBy(s3, 0, Job(7, 1), row), 1, Job(7, 2), row);
  }

  function PostedBy(s: State, w: nat, job: Job, row: Delivery): State {
    s.(jobs := s.jobs[job := Active], workers := s.workers[w := Posting(job, row)],
       posts := s.posts + [Post(job.id, row.attempts + 1)])
  }

  lemma TakeStep(s: State, w: nat, job: Job)
    requires w !in s.workers && job in s.jobs && s.jobs[job].Waiting?
    ensures Apply(s, Take(w, job)) == s.(jobs := s.jobs[job := Active], workers := s.workers[w := Taken(job)])
  {
  }

  /** Loading a live row and passing the URL check. */
  lemma LoadSteps(s: State, w: nat, job: Job, row: Delivery)
    requires w in s.workers && s.workers[w] == Taken(job)
    requires job.id in s.rows && s.rows[job.id] == row && !Settled(row) && row.company !in s.deleted
    ensures Apply(s, Read(w)) == s.(workers := s.workers[w := Checking(job, row)])
    ensures Apply(s.(workers := s.workers[w := Checking(job, row)]), UrlCheck(w, true)) ==
            s.(workers := s.workers[w := Ready(job, row)])
  {
    assert s.workers[w := Checking(job, row)][w := Ready(job, row)] == s.workers[w := Ready(job, row)];
  }

  lemma SendStep(s: State, w: nat, job: Job, row: Delivery)
    requires w in s.workers && s.workers[w] == Ready(job, row)
    ensures Apply(s, Send(w)) ==
            s.(workers := s.workers[w := Posting(job, row)], posts := s.posts + [Post(job.id, row.attempts + 1)])
  {
  }

  lemma ReachReady(s: State, w: nat, job: Job, row: Delivery)
    requires Reachable(false, s) && w in s.workers && s.workers[w] == Taken(job)
    requires job.id in s.rows && s.rows[job.id] == row && !Settled(row) && row.company !in s.deleted
    ensures Reachable(false, s.(workers := s.workers[w := Ready(job, row)]))
  {
    LoadSteps(s, w, job, row);
    ReachStep(false, s, Read(w));
    ReachStep(false, s.(workers := s.workers[w := Checking(job, row)]), UrlCheck(w, true));
  }

  lemma ReachPost(s: State, w: nat, job: Job, row: Delivery)
    requires Reachable(false, s) && w !in s.workers && job in s.jobs && s.jobs[job].Waiting?
    requires job.id in s.rows && s.rows[job.id] == row && !Settled(row) && row.company !in s.deleted
    ensures Reachable(false, PostedBy(s, w, job, row))
  {
    hide Apply;
    var s1 := s.(jobs := s.jobs[job := Active], workers := s.workers[w := Taken(job)]);
    var s2 := s1.(workers := s1.workers[w := Ready(job, row)]);
    TakeStep(s, w, job);
    ReachStep(false, s, Take(w, job));
    ReachReady(s1, w, job, row);
    SendStep(s2, w, job, row);
    ReachStep(false, s2, Send(w));
    assert s2.workers[w := Posting(job, row)] == s.workers[w := Posting(job, row)];
  }
}
