/**
 Several API and worker instances retrying webhooks at once: cron passes that work from stale
 selections, and workers whose every database access and POST is a separate step.
 */
module WebhookProtocol {
  import opened WebhookRetry

  // Where a worker stands in process(); `read` is the row as it was when loaded.
  datatype Stage =
    | Taken(job: Job)
    | Checking(job: Job, read: Delivery)
    | Ready(job: Job, read: Delivery)
    | Posting(job: Job, read: Delivery)
    | Aborting(job: Job)

  datatype Post = Post(id: nat, attempt: nat)

  datatype State = State(
    retained: bool,                    // finished jobs outlive the cron passes that selected them
    rows: map<nat, Delivery>,
    born: map<nat, Delivery>,          // every delivery ever created, as created
    deleted: set<nat>,                 // soft-deleted companies
    jobs: map<Job, JobState>,
    crons: map<nat, seq<Snapshot>>,    // what each cron pass has still to enqueue
    workers: map<nat, Stage>,
    posts: seq<Post>,                  // every POST started by a retry
    marks: map<nat, nat>               // how many POSTs had started when a company was deleted
  )

  datatype Event =
    | Create(id: nat, row: Delivery)
    | Drop(id: nat)
    | DeleteCompany(company: nat)
    | CronSelect(k: nat, ids: seq<nat>, now: int)
    | CronAdd(k: nat)
    | CronStop(k: nat)
    | Take(w: nat, job: Job)
    | Read(w: nat)
    | UrlCheck(w: nat, safe: bool)
    | Send(w: nat)
    | Complete(w: nat, ok: bool, now: int)
    | Abort(w: nat)
    | Expire(job: Job)

  function Init(retained: bool): State {
    State(retained, map[], map[], {}, map[], map[], map[], [], map[])
  }

  function DoCreate(s: State, id: nat, row: Delivery): State {
    if id in s.born || !RowOk(row) then s else s.(rows := s.rows[id := row], born := s.born[id := row])
  }

  function DoDrop(s: State, id: nat): State {
    s.(rows := s.rows - {id})
  }

  function DoDeleteCompany(s: State, company: nat): State {
    if company in s.deleted then s
    else s.(deleted := s.deleted + {company}, marks := s.marks[company := |s.posts|])
  }

  function SnapshotOf(rows: map<nat, Delivery>, id: nat): Snapshot
    requires id in rows
  {
    Snapshot(id, rows[id].attempts, rows[id].maxAttempts)
  }

  function DoCronSelect(s: State, k: nat, ids: seq<nat>, now: int): State {
    if k in s.crons || exists i :: 0 <= i < |ids| && !(ids[i] in s.rows && Due(s.rows[ids[i]], s.deleted, now)) then s
    else
      var selected := seq(|ids|, i requires 0 <= i < |ids| && ids[i] in s.rows => SnapshotOf(s.rows, ids[i]));
      s.(crons := s.crons[k := selected])
  }

  function DoCronAdd(s: State, k: nat): State {
    if k !in s.crons || s.crons[k] == [] then s
    else s.(jobs := AddRetry(s.jobs, s.crons[k][0]), crons := s.crons[k := s.crons[k][1..]])
  }

  function DoCronStop(s: State, k: nat): State {
    s.(crons := s.crons - {k})
  }

  function DoTake(s: State, w: nat, job: Job): State {
    if w in s.workers || job !in s.jobs || !s.jobs[job].Waiting? then s
    else s.(jobs := s.jobs[job := Active], workers := s.workers[w := Taken(job)])
  }

  function Finish(s: State, w: nat): State
    requires w in s.workers
  {
    s.(jobs := s.jobs[s.workers[w].job := Finished], workers := s.workers - {w})
  }

  function DoRead(s: State, w: nat): State {
    if w !in s.workers || !s.workers[w].Taken? then s
    else
      var job := s.workers[w].job;
      if job.id !in s.rows || Settled(s.rows[job.id]) then Finish(s, w)
      else if s.rows[job.id].company in s.deleted then s.(workers := s.workers[w := Aborting(job)])
      else s.(workers := s.workers[w := Checking(job, s.rows[job.id])])
  }

  function DoUrlCheck(s: State, w: nat, safe: bool): State {
    if w !in s.workers || !s.workers[w].Checking? then s
    else
      var x := s.workers[w];
      s.(workers := s.workers[w := if safe then Ready(x.job, x.read) else Aborting(x.job)])
  }

  function DoSend(s: State, w: nat): State {
    if w !in s.workers || !s.workers[w].Ready? then s
    else
      var x := s.workers[w];
      s.(workers := s.workers[w := Posting(x.job, x.read)], posts := s.posts + [Post(x.job.id, x.read.attempts + 1)])
  }

  /** The final update; if the row is gone it throws, and the job ends all the same. */
  function DoComplete(s: State, w: nat, ok: bool, now: int): State {
    if w !in s.workers || !s.workers[w].Posting? then s
    else
      var x := s.workers[w];
      var id := x.job.id;
      var rows := if id in s.rows then s.rows[id := WriteResult(s.rows[id], x.read, ok, now)] else s.rows;
      Finish(s, w).(rows := rows)
  }

  function DoAbort(s: State, w: nat): State {
    if w !in s.workers || !s.workers[w].Aborting? then s
    else
      var id := s.workers[w].job.id;
      Finish(s, w).(rows := if id in s.rows then s.rows[id := WriteAbort(s.rows[id])] else s.rows)
  }

  predicate Selected(crons: map<nat, seq<Snapshot>>, job: Job) {
    exists k :: k in crons && exists i :: 0 <= i < |crons[k]| && Job(crons[k][i].id, crons[k][i].attempts) == job
  }

  /** A finished job is forgotten; while it is retained, only after the passes that selected it. */
  function DoExpire(s: State, job: Job): State {
    if job !in s.jobs || !s.jobs[job].Finished? || (s.retained && Selected(s.crons, job)) then s
    else s.(jobs := s.jobs - {job})
  }

  function Apply(s: State, ev: Event): State {
    match ev
    case Create(id, row) => DoCreate(s, id, row)
    case Drop(id) => DoDrop(s, id)
    case DeleteCompany(company) => DoDeleteCompany(s, company)
    case CronSelect(k, ids, now) => DoCronSelect(s, k, ids, now)
    case CronAdd(k) => DoCronAdd(s, k)
    case CronStop(k) => DoCronStop(s, k)
    case Take(w, job) => DoTake(s, w, job)
    case Read(w) => DoRead(s, w)
    case UrlCheck(w, safe) => DoUrlCheck(s, w, safe)
    case Send(w) => DoSend(s, w)
    case Complete(w, ok, now) => DoComplete(s, w, ok, now)
    case Abort(w) => DoAbort(s, w)
    case Expire(job) => DoExpire(s, job)
  }

  function Run(s: State, evs: seq<Event>): State {
    if evs == [] then s else Apply(Run(s, evs[..|evs| - 1]), evs[|evs| - 1])
  }

  // -------------------------------------------------------------- invariants

  type Rows = map<nat, Delivery>
  type Jobs = map<Job, JobState>
  type Crons = map<nat, seq<Snapshot>>
  type Workers = map<nat, Stage>

  /** Rows are well-formed and keep the company and the limit they were created with. */
  ghost predicate RowInv(rows: Rows, born: Rows) {
    forall id :: id in rows ==>
      RowOk(rows[id]) && id in born && rows[id].company == born[id].company &&
        rows[id].maxAttempts == born[id].maxAttempts
  }

  /** A job that is not finished is for the row's current attempt; none is ahead of it. */
  predicate JobOk(job: Job, st: JobState, rows: Rows) {
    job.id in rows ==>
      job.attempts <= rows[job.id].attempts && (!st.Finished? ==> job.attempts == rows[job.id].attempts)
  }

  ghost predicate JobInv(jobs: Jobs, rows: Rows, born: Rows) {
    forall j :: j in jobs ==> j.id in born && JobOk(j, jobs[j], rows)
  }

  /** A stale selection is harmless: the job it would add is known and finished. */
  predicate SnapshotOk(x: Snapshot, rows: Rows, jobs: Jobs) {
    x.id in rows ==>
      && x.attempts <= rows[x.id].attempts && x.maxAttempts == rows[x.id].maxAttempts
      && (x.attempts < rows[x.id].attempts ==>
            Job(x.id, x.attempts) in jobs && jobs[Job(x.id, x.attempts)].Finished?)
  }

  ghost predicate CronInv(crons: Crons, rows: Rows, jobs: Jobs, born: Rows) {
    forall k, i :: k in crons && 0 <= i < |crons[k]| ==> crons[k][i].id in born && SnapshotOk(crons[k][i], rows, jobs)
  }

  predicate PastRead(x: Stage) {
    x.Checking? || x.Ready? || x.Posting?
  }

  /** What a worker read still holds when it writes. */
  predicate WorkerOk(x: Stage, rows: Rows) {
    && (PastRead(x) ==> x.read.attempts == x.job.attempts && !Settled(x.read))
    && (PastRead(x) && x.job.id in rows ==>
          rows[x.job.id].attempts == x.read.attempts && rows[x.job.id].maxAttempts == x.read.maxAttempts)
    && (!x.Taken? && x.job.id in rows ==> !rows[x.job.id].status.Success?)
  }

  /** Every worker holds an active job of its own, and one delivery has one worker past its read. */
  ghost predicate WorkInv(workers: Workers, jobs: Jobs, rows: Rows) {
    && (forall w ::
         w in workers ==> workers[w].job in jobs && jobs[workers[w].job].Active? && WorkerOk(workers[w], rows))
    && (forall w, v :: w in workers && v in workers && workers[w].job == workers[v].job ==> w == v)
  }

  predicate Rival(x: Stage, y: Stage) {
    PastRead(x) && PastRead(y) && x.job.id == y.job.id
  }

  ghost predicate AloneInv(workers: Workers) {
    forall w, v :: w in workers && v in workers && Rival(workers[w], workers[v]) ==> w == v
  }

  /** The POST of a row's current attempt is in the log only while its worker awaits the answer. */
  predicate InFlight(workers: Workers, p: Post) {
    exists w :: w in workers && workers[w].Posting? && Post(workers[w].job.id, workers[w].read.attempts + 1) == p
  }

  predicate PostOk(p: Post, rows: Rows, workers: Workers) {
    p.id in rows ==>
      && 0 < p.attempt
      && (p.attempt <= rows[p.id].attempts || (p.attempt == rows[p.id].attempts + 1 && InFlight(workers, p)))
  }

  ghost predicate PostInv(posts: seq<Post>, rows: Rows, workers: Workers, born: Rows) {
    && (forall i, j :: 0 <= i < j < |posts| ==> posts[i] != posts[j])
    && (forall i :: 0 <= i < |posts| ==>
          posts[i].id in born && 0 < posts[i].attempt <= born[posts[i].id].maxAttempts &&
            PostOk(posts[i], rows, workers))
  }

  /** A worker about to POST has not posted, and neither has anyone else for that attempt. */
  ghost predicate FreshInv(posts: seq<Post>, workers: Workers, born: Rows) {
    forall w :: w in workers && (workers[w].Checking? || workers[w].Ready?) ==>
      && Post(workers[w].job.id, workers[w].read.attempts + 1) !in posts
      && workers[w].job.id in born && workers[w].read.maxAttempts == born[workers[w].job.id].maxAttempts
  }

  predicate Owned(born: Rows, id: nat, company: nat) {
    id in born && born[id].company == company
  }

  predicate AboutToPost(x: Stage, id: nat) {
    (x.Checking? || x.Ready?) && x.job.id == id
  }

  /** After a deletion, a delivery of the company has been posted at most once, and then no worker is about to. */
  ghost predicate DeletionInv(marks: map<nat, nat>, deleted: set<nat>, posts: seq<Post>, workers: Workers, born: Rows) {
    && marks.Keys == deleted
    && (forall c :: c in marks ==> marks[c] <= |posts|)
    && (forall c, i :: c in marks && marks[c] <= i < |posts| && Owned(born, posts[i].id, c) ==>
          forall w :: w in workers ==> !AboutToPost(workers[w], posts[i].id))
    && (forall c, i, j ::
         c in marks && marks[c] <= i < j < |posts| && Owned(born, posts[i].id, c) ==> posts[i].id != posts[j].id)
  }

  ghost predicate Inv(s: State) {
    && s.retained
    && RowInv(s.rows, s.born)
    && JobInv(s.jobs, s.rows, s.born)
    && CronInv(s.crons, s.rows, s.jobs, s.born)
    && WorkInv(s.workers, s.jobs, s.rows)
    && AloneInv(s.workers)
    && PostInv(s.posts, s.rows, s.workers, s.born)
    && FreshInv(s.posts, s.workers, s.born)
    && DeletionInv(s.marks, s.deleted, s.posts, s.workers, s.born)
  }
}
