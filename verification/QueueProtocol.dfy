/**
 The whole offline pipeline as an interleaving of atomic steps: enqueue calls, flushes under the
 module lock, batch promises with their listeners and timers, and a server whose answers may be
 lost, delayed, duplicated and reordered. Every step is one IndexedDB transaction or one
 callback, so calls interleave at every point where the program awaits.
 */
module QueueProtocol {
  import opened Wrappers
  import opened PositionStore

  // ------------------------------------------------------------------ state

  // Where one enqueuePosition call stands. `size` is the last count it read.
  datatype Phase =
    | Sizing
    | Compacting
    | Resizing
    | Evicting(size: nat)
    | Adding(size: nat, dropped: bool)
    | Done(result: EnqueueResult, id: Option<nat>)
    | Failed  // an IndexedDB error rejected the call

  datatype Call = Call(pos: Position, phase: Phase)

  datatype FlushPhase =
    | Reading
    | Chunked(chunk: seq<Entry>)
    | Sending(batch: nat, chunk: seq<Entry>)
    | Deleting(batch: nat, chunk: seq<Entry>)
    | Ended

  // One flushQueue call and the batches it has sent.
  datatype Flusher = Flusher(limit: Option<int>, phase: FlushPhase, sent: seq<nat>)

  // One batch promise: its two listeners, its timer, and every call of resolve (true) or reject (false).
  datatype Batch = Batch(chunk: seq<Entry>, onSaved: bool, onRejected: bool, timer: bool, outcomes: seq<bool>)

  datatype Reply = Saved(tag: Option<nat>) | Rejected(tag: Option<nat>)

  datatype State = State(
    tagged: bool,                 // the server echoes the batch id in positionsSaved
    store: seq<Entry>,
    nextId: nat,
    calls: map<nat, Call>,
    isFlushing: bool,
    flushers: map<nat, Flusher>,
    batches: map<nat, Batch>,
    replies: set<Reply>,          // answers ever emitted; each may be delivered any number of times
    history: map<nat, Entry>,     // every entry ever inserted, by id
    evicted: map<nat, nat>,       // evicted entry -> the call that evicted it
    persisted: set<nat>,          // entries the server has saved
    refused: set<nat>,            // entries the server has reported as invalid
    flushed: seq<nat>             // ids deleted by flushes, in order
  )

  // The steps of one enqueuePosition call, each at an await of its code.
  datatype CallStep =
    | Start(pos: Position)
    | ReadSize
    | CompactStore(now: int)
    | ReadSizeAgain
    | EvictOldest
    | Insert(now: int)
    | FailCall

  // The steps of one flushQueue call.
  datatype FlushStep =
    | Begin(limit: Option<int>)
    | ReadChunk
    | Emit(b: nat)
    | Resume
    | DeleteChunk
    | Abort

  // The server, the network and the timers.
  datatype NetStep =
    | ServerSave(b: nat, invalid: set<nat>)
    | ServerSaveUntagged(b: nat, invalid: set<nat>)
    | ServerReject(b: nat)
    | Deliver(r: Reply)
    | Timeout(b: nat)

  datatype Event = OfCall(c: nat, call: CallStep) | OfFlush(f: nat, flush: FlushStep) | OfNet(net: NetStep)

  function Init(tagged: bool): State {
    State(tagged, [], 1, map[], false, map[], map[], {}, map[], map[], {}, {}, [])
  }

  // ------------------------------------------------------------------ steps

  function SetPhase(s: State, c: nat, p: Phase): State
    requires c in s.calls
  {
    s.(calls := s.calls[c := s.calls[c].(phase := p)])
  }

  function SetFlush(s: State, f: nat, p: FlushPhase): State
    requires f in s.flushers
  {
    s.(flushers := s.flushers[f := s.flushers[f].(phase := p)])
  }

  /** The finally block: the flush is over and the lock is free. */
  function EndFlush(s: State, f: nat): State
    requires f in s.flushers
  {
    SetFlush(s, f, Ended).(isFlushing := false)
  }

  predicate Running(p: Phase) {
    !p.Done? && !p.Failed?
  }

  function DoStartEnqueue(s: State, c: nat, pos: Position): State {
    if c in s.calls then s else s.(calls := s.calls[c := Call(pos, Sizing)])
  }

  function DoReadSize(s: State, c: nat): State {
    if c !in s.calls || !s.calls[c].phase.Sizing? then s
    else SetPhase(s, c, if |s.store| >= QUEUE_MAX_SIZE then Compacting else Adding(|s.store|, false))
  }

  function DoCompact(s: State, c: nat, now: int): State {
    if c !in s.calls || !s.calls[c].phase.Compacting? then s
    else SetPhase(s, c, Resizing).(store := Compact(s.store, now - COMPACT_HORIZON_MS))
  }

  function DoReadSizeAgain(s: State, c: nat): State {
    if c !in s.calls || !s.calls[c].phase.Resizing? then s
    else SetPhase(s, c, if |s.store| >= QUEUE_MAX_SIZE then Evicting(|s.store|) else Adding(|s.store|, false))
  }

  function DoEvict(s: State, c: nat): State {
    if c !in s.calls || !s.calls[c].phase.Evicting? then s
    else if s.store == [] then SetPhase(s, c, Done(EnqueueResult(false, false, false), None))
    else SetPhase(s, c, Adding(s.calls[c].phase.size, true))
         .(store := s.store[1..], evicted := s.evicted[s.store[0].id := c])
  }

  function DoInsert(s: State, c: nat, now: int): State {
    if c !in s.calls || !s.calls[c].phase.Adding? then s
    else
      var p := s.calls[c].phase;
      var e := Entry(s.nextId, s.calls[c].pos, now, false);
      SetPhase(s, c, Done(EnqueueResult(true, p.dropped, p.size + 1 >= QUEUE_WARN_SIZE), Some(s.nextId)))
      .(store := s.store + [e], nextId := s.nextId + 1, history := s.history[s.nextId := e])
  }

  function DoFailCall(s: State, c: nat): State {
    if c !in s.calls || !Running(s.calls[c].phase) then s else SetPhase(s, c, Failed)
  }

  function DoStartFlush(s: State, f: nat, limit: Option<int>): State {
    if f in s.flushers then s
    else if s.isFlushing then s.(flushers := s.flushers[f := Flusher(limit, Ended, [])])
    else s.(flushers := s.flushers[f := Flusher(limit, Reading, [])], isFlushing := true)
  }

  function DoReadChunk(s: State, f: nat): State {
    if f !in s.flushers || !s.flushers[f].phase.Reading? then s
    else
      var chunk := Take(s.store, s.flushers[f].limit);
      if chunk == [] then EndFlush(s, f) else SetFlush(s, f, Chunked(chunk))
  }

  /** socket.emit with a fresh batch id, then the timer and the two listeners. */
  function DoEmit(s: State, f: nat, b: nat): State {
    if f !in s.flushers || !s.flushers[f].phase.Chunked? || b in s.batches then s
    else
      var chunk := s.flushers[f].phase.chunk;
      s.(batches := s.batches[b := Batch(chunk, true, true, true, [])],
         flushers := s.flushers[f := s.flushers[f].(phase := Sending(b, chunk), sent := s.flushers[f].sent + [b])])
  }

  function Handle(s: State, b: nat, invalid: set<nat>, r: Reply): State
    requires b in s.batches
  {
    var ids := Ids(s.batches[b].chunk);
    s.(persisted := s.persisted + (ids - invalid), refused := s.refused + ids * invalid, replies := s.replies + {r})
  }

  function DoServerSave(s: State, b: nat, invalid: set<nat>): State {
    if b !in s.batches then s else Handle(s, b, invalid, Saved(Some(b)))
  }

  function DoServerSaveUntagged(s: State, b: nat, invalid: set<nat>): State {
    if b !in s.batches || s.tagged then s else Handle(s, b, invalid, Saved(None))
  }

  function DoServerReject(s: State, b: nat): State {
    if b !in s.batches then s else s.(replies := s.replies + {Rejected(Some(b))})
  }

  /** An answer carrying another batch's id makes the listener subscribe again; the rest settle. */
  function Hear(x: Batch, b: nat, r: Reply): Batch {
    var other := r.tag.Some? && r.tag.value != b;
    match r
    case Saved(_) =>
      if !x.onSaved || other then x else Batch(x.chunk, false, false, false, x.outcomes + [true])
    case Rejected(_) =>
      if !x.onRejected || other then x else Batch(x.chunk, false, false, false, x.outcomes + [false])
  }

  function DoDeliver(s: State, r: Reply): State {
    if r !in s.replies then s
    else s.(batches := map b | b in s.batches :: Hear(s.batches[b], b, r))
  }

  function DoTimeout(s: State, b: nat): State {
    if b !in s.batches || !s.batches[b].timer then s
    else
      var x := s.batches[b];
      s.(batches := s.batches[b := Batch(x.chunk, false, false, false, x.outcomes + [false])])
  }

  /** The flush loop continues after its awaited send: to the deletion, or out through finally. */
  function DoResume(s: State, f: nat): State {
    if f !in s.flushers || !s.flushers[f].phase.Sending? then s
    else
      var b := s.flushers[f].phase.batch;
      if b !in s.batches || s.batches[b].outcomes == [] then s
      else if s.batches[b].outcomes[0] then SetFlush(s, f, Deleting(b, s.flushers[f].phase.chunk))
      else EndFlush(s, f)
  }

  function IdSeq(chunk: seq<Entry>): (r: seq<nat>)
    ensures |r| == |chunk| && forall i :: 0 <= i < |r| ==> r[i] == chunk[i].id
  {
    seq(|chunk|, i requires 0 <= i < |chunk| => chunk[i].id)
  }

  function DoDeleteChunk(s: State, f: nat): State {
    if f !in s.flushers || !s.flushers[f].phase.Deleting? then s
    else
      var chunk := s.flushers[f].phase.chunk;
      SetFlush(s, f, Reading).(store := Without(s.store, Ids(chunk)), flushed := s.flushed + IdSeq(chunk))
  }

  function DoFailFlush(s: State, f: nat): State {
    if f !in s.flushers || !(s.flushers[f].phase.Reading? || s.flushers[f].phase.Deleting?) then s
    else EndFlush(s, f)
  }

  function ApplyCall(s: State, c: nat, step: CallStep): State {
    match step
    case Start(pos) => DoStartEnqueue(s, c, pos)
    case ReadSize => DoReadSize(s, c)
    case CompactStore(now) => DoCompact(s, c, now)
    case ReadSizeAgain => DoReadSizeAgain(s, c)
    case EvictOldest => DoEvict(s, c)
    case Insert(now) => DoInsert(s, c, now)
    case FailCall => DoFailCall(s, c)
  }

  function ApplyFlush(s: State, f: nat, step: FlushStep): State {
    match step
    case Begin(limit) => DoStartFlush(s, f, limit)
    case ReadChunk => DoReadChunk(s, f)
    case Emit(b) => DoEmit(s, f, b)
    case Resume => DoResume(s, f)
    case DeleteChunk => DoDeleteChunk(s, f)
    case Abort => DoFailFlush(s, f)
  }

  function ApplyNet(s: State, step: NetStep): State {
    match step
    case ServerSave(b, invalid) => DoServerSave(s, b, invalid)
    case ServerSaveUntagged(b, invalid) => DoServerSaveUntagged(s, b, invalid)
    case ServerReject(b) => DoServerReject(s, b)
    case Deliver(r) => DoDeliver(s, r)
    case Timeout(b) => DoTimeout(s, b)
  }

  /** One step; an event that is not enabled changes nothing. */
  function Apply(s: State, ev: Event): State {
    match ev
    case OfCall(c, step) => ApplyCall(s, c, step)
    case OfFlush(f, step) => ApplyFlush(s, f, step)
    case OfNet(step) => ApplyNet(s, step)
  }

  function Run(s: State, evs: seq<Event>): State {
    if evs == [] then s else Apply(Run(s, evs[..|evs| - 1]), evs[|evs| - 1])
  }

  // -------------------------------------------------------------- invariants
  // Each is stated over the fields it depends on, so a step keeps the others at once.

  type Ledger = map<nat, Entry>

  /** Stored entries are stored forms of inserted entries, in id order. */
  ghost predicate StoreInv(store: seq<Entry>, history: Ledger, nextId: nat) {
    && Ordered(store)
    && (forall i :: 0 <= i < |store| ==> store[i].id in history && SameFix(store[i], history[store[i].id]))
    && (forall id :: id in history ==> id < nextId && history[id].id == id)
  }

  /** The call that evicted reports it, or is about to. */
  predicate Signals(p: Phase) {
    (p.Adding? && p.dropped) || (p.Done? && p.result.droppedOldest)
  }

  predicate Truthful(call: Call, history: Ledger) {
    call.phase.Done? ==>
      if call.phase.result.queued then
        call.phase.id.Some? && call.phase.id.value in history && history[call.phase.id.value].pos == call.pos
      else call.phase.id.None?
  }

  /**
   Evictions are reported by their call unless a storage error rejected it, and a call that says
   queued did insert its position.
   */
  ghost predicate CallInv(calls: map<nat, Call>, evicted: map<nat, nat>, history: Ledger) {
    && (forall y ::
         y in evicted ==> evicted[y] in calls && (Signals(calls[evicted[y]].phase) || calls[evicted[y]].phase.Failed?))
    && (forall c :: c in calls ==> Truthful(calls[c], history))
  }

  predicate Busy(p: FlushPhase) {
    !p.Ended?
  }

  /** At most one flush is past the lock, and the lock is held exactly while one is. */
  ghost predicate LockInv(flushers: map<nat, Flusher>, isFlushing: bool) {
    && (forall f :: f in flushers && Busy(flushers[f].phase) ==> isFlushing)
    && (forall f, g :: f in flushers && g in flushers && Busy(flushers[f].phase) && Busy(flushers[g].phase) ==> f == g)
    && (isFlushing ==> exists f :: f in flushers && Busy(flushers[f].phase))
  }

  predicate HasChunk(p: FlushPhase) {
    p.Chunked? || p.Sending? || p.Deleting?
  }

  predicate After(log: seq<nat>, id: nat) {
    log == [] || log[|log| - 1] < id
  }

  predicate Increasing(log: seq<nat>) {
    forall i, j :: 0 <= i < j < |log| ==> log[i] < log[j]
  }

  /** Every stored entry up to the end of the chunk is in the chunk. */
  predicate DownwardClosed(chunk: seq<Entry>, store: seq<Entry>)
    requires chunk != []
  {
    forall i :: 0 <= i < |store| && store[i].id <= chunk[|chunk| - 1].id ==> store[i].id in Ids(chunk)
  }

  /** An in-flight chunk is ordered, known, newer than everything flushed, and downward closed. */
  ghost predicate ChunkOk(chunk: seq<Entry>, store: seq<Entry>, history: Ledger, flushed: seq<nat>) {
    && chunk != [] && Ordered(chunk)
    && (forall i :: 0 <= i < |chunk| ==> chunk[i].id in history)
    && After(flushed, chunk[0].id)
    && DownwardClosed(chunk, store)
  }

  ghost predicate LogInv(store: seq<Entry>, history: Ledger, flushed: seq<nat>) {
    && Increasing(flushed)
    && (forall i :: 0 <= i < |flushed| ==> flushed[i] in history)
    && (forall i :: 0 <= i < |store| ==> After(flushed, store[i].id))
  }

  ghost predicate ChunkInv(flushers: map<nat, Flusher>, store: seq<Entry>, history: Ledger, flushed: seq<nat>) {
    forall f ::
      f in flushers && HasChunk(flushers[f].phase) ==> ChunkOk(flushers[f].phase.chunk, store, history, flushed)
  }

  predicate Pending(x: Batch) {
    x.outcomes == [] && x.onSaved && x.onRejected && x.timer
  }

  predicate Disarmed(x: Batch) {
    |x.outcomes| == 1 && !x.onSaved && !x.onRejected && !x.timer
  }

  predicate Resolved(batches: map<nat, Batch>, b: nat) {
    b in batches && batches[b].outcomes == [true]
  }

  predicate Holds(batches: map<nat, Batch>, b: nat, chunk: seq<Entry>) {
    b in batches && batches[b].chunk == chunk
  }

  /** Only the last batch a flush sent may be anything but resolved. */
  ghost predicate SentOk(fl: Flusher, batches: map<nat, Batch>) {
    && (forall i :: 0 <= i < |fl.sent| ==> fl.sent[i] in batches)
    && (forall i :: 0 <= i < |fl.sent| - 1 ==> Resolved(batches, fl.sent[i]))
    && (fl.phase.Sending? || fl.phase.Deleting? ==>
          |fl.sent| > 0 && fl.sent[|fl.sent| - 1] == fl.phase.batch && Holds(batches, fl.phase.batch, fl.phase.chunk))
    && (fl.phase.Deleting? ==> Resolved(batches, fl.phase.batch))
    && (fl.phase.Reading? || fl.phase.Chunked? ==> |fl.sent| > 0 ==> Resolved(batches, fl.sent[|fl.sent| - 1]))
  }

  predicate Awaits(fl: Flusher, b: nat) {
    fl.phase.Sending? && fl.phase.batch == b
  }

  /** Every batch promise is settled once with nothing left armed, or awaited by a flush. */
  ghost predicate PromiseInv(batches: map<nat, Batch>, flushers: map<nat, Flusher>) {
    && (forall b :: b in batches ==> Pending(batches[b]) || Disarmed(batches[b]))
    && (forall b :: b in batches && Pending(batches[b]) ==> exists f :: f in flushers && Awaits(flushers[f], b))
  }

  ghost predicate SentInv(batches: map<nat, Batch>, flushers: map<nat, Flusher>) {
    forall f :: f in flushers ==> SentOk(flushers[f], batches)
  }

  /** A tagged positionsSaved is emitted only after its batch was handled. */
  ghost predicate ReplyInv(replies: set<Reply>, batches: map<nat, Batch>, answered: set<nat>) {
    && Saved(None) !in replies
    && (forall b :: Saved(Some(b)) in replies ==> b in batches && Ids(batches[b].chunk) <= answered)
  }

  /** Resolved batches and flushed entries were answered by the server. */
  ghost predicate AckInv(batches: map<nat, Batch>, flushed: seq<nat>, answered: set<nat>) {
    && (forall b :: b in batches && Resolved(batches, b) ==> Ids(batches[b].chunk) <= answered)
    && (forall i :: 0 <= i < |flushed| ==> flushed[i] in answered)
  }

  function AnsweredIds(s: State): set<nat> {
    s.persisted + s.refused
  }

  ghost predicate Inv(s: State) {
    && s.tagged
    && StoreInv(s.store, s.history, s.nextId)
    && CallInv(s.calls, s.evicted, s.history)
    && LockInv(s.flushers, s.isFlushing)
    && LogInv(s.store, s.history, s.flushed)
    && ChunkInv(s.flushers, s.store, s.history, s.flushed)
    && PromiseInv(s.batches, s.flushers)
    && SentInv(s.batches, s.flushers)
    && ReplyInv(s.replies, s.batches, AnsweredIds(s))
    && AckInv(s.batches, s.flushed, AnsweredIds(s))
  }
}
