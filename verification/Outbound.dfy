/** The outbound queue and the dispatch it drives, as a transition system. One step is one
    critical section (reserve, number, put, rollback, get, release), one database statement or
    one modem call; API threads and worker threads interleave freely between steps. */
module Outbound {
  import opened Common
  import opened Text

  datatype RowState = Created | Sending | Sent | Failed

  /** A queued job; jobs compare by `(rank, seq)` alone. */
  datatype QueueJob = QueueJob(rank: nat, seq_: nat, jobType: string, reference: string, priority: string)

  function PriorityRank(priority: string): nat {
    var p := Lower(Strip(priority));
    if p == "urgent" then 0 else if p == "high" then 1 else 2
  }

  function Key(jobType: string, reference: string): string {
    jobType + ":" + reference
  }

  function KeyOf(j: QueueJob): string {
    Key(j.jobType, j.reference)
  }

  predicate Precedes(a: QueueJob, b: QueueJob) {
    a.rank < b.rank || (a.rank == b.rank && a.seq_ < b.seq_)
  }

  /** `j` is what `get` takes out of the priority queue. */
  ghost predicate Least(queue: set<QueueJob>, j: QueueJob) {
    j in queue && forall q :: q in queue && q != j ==> Precedes(j, q)
  }

  /** A thread inside `enqueue`: its key is reserved; its job has a sequence number; or the
      queue was full and the reservation is about to be rolled back. */
  datatype Enqueuer =
    | Reserved(jobType: string, reference: string, priority: string)
    | Numbered(job: QueueJob)
    | Rejected(job: QueueJob)

  /** A worker between `get` and `release`: nothing read yet; holding a row it read as CREATED;
      inside the process-wide modem lock; the modem has created the message; SENDING is stored;
      the modem has sent it; an mmcli error is to be stored; or nothing is left but the release. */
  datatype At = Got | Holding(pk: nat) | Inside(pk: nat) | Prepared(pk: nat) | Stored(pk: nat)
              | Transmitted(pk: nat) | Failing(pk: nat) | Finished
  datatype Worker = Worker(job: QueueJob, at: At)

  datatype ModemAnswer = Ok | MmcliError | Exception

  /** `sends` counts the calls of `send_sms` per row; no step reads it. `inFlight`, `queue`,
      `nextSeq`, `enqueuers` and `workers` live in the process and die with it. */
  datatype State = State(
    rows: map<nat, RowState>, nextRow: nat, sends: map<nat, nat>,
    inFlight: set<string>, queue: set<QueueJob>, nextSeq: nat,
    enqueuers: map<nat, Enqueuer>, workers: map<nat, Worker>)

  /** The queue bound (none if not positive), the number of worker threads, and `int()` applied
      to a job reference. */
  datatype Config = Config(maxSize: int, workers: nat, parse: string -> Option<nat>)

  datatype Event =
    | NewRow                                     // the API stores a CREATED row
    | DeleteRow(pk: nat)                         // storage rotation
    | Reserve(thread: nat, jobType: string, reference: string, priority: string)
    | Number(thread: nat)
    | Put(thread: nat)
    | Rollback(thread: nat)
    | Get(worker: nat, job: QueueJob)
    | Fetch(worker: nat, dbOk: bool)
    | Acquire(worker: nat)                       // the modem lock, released when the dispatch ends
    | Prepare(worker: nat, answer: ModemAnswer)
    | StoreSending(worker: nat, dbOk: bool)
    | Send(worker: nat, answer: ModemAnswer)
    | StoreSent(worker: nat, dbOk: bool)
    | StoreFailed(worker: nat, dbOk: bool)
    | Release(worker: nat)
    | Restart                                    // the process dies; a new one starts empty

  ghost const Init := State(map[], 0, map[], {}, {}, 0, map[], map[])

  predicate Full(cfg: Config, queue: set<QueueJob>) {
    cfg.maxSize > 0 && |queue| >= cfg.maxSize
  }

  predicate InLock(at: At) {
    !at.Got? && !at.Holding? && !at.Finished?
  }

  ghost predicate LockFree(s: State) {
    forall w :: w in s.workers ==> !InLock(s.workers[w].at)
  }

  ghost predicate Enabled(cfg: Config, s: State, e: Event) {
    match e
    case NewRow => true
    case DeleteRow(pk) => pk in s.rows
    case Reserve(t, _, _, _) => t !in s.enqueuers
    case Number(t) => t in s.enqueuers && s.enqueuers[t].Reserved?
    case Put(t) => t in s.enqueuers && s.enqueuers[t].Numbered?
    case Rollback(t) => t in s.enqueuers && s.enqueuers[t].Rejected?
    case Get(w, j) => w < cfg.workers && w !in s.workers && Least(s.queue, j)
    case Fetch(w, _) => w in s.workers && s.workers[w].at.Got?
    case Acquire(w) => w in s.workers && s.workers[w].at.Holding? && LockFree(s)
    case Prepare(w, _) => w in s.workers && s.workers[w].at.Inside?
    case StoreSending(w, ok) => w in s.workers && s.workers[w].at.Prepared? && (ok ==> s.workers[w].at.pk in s.rows)
    case Send(w, _) => w in s.workers && s.workers[w].at.Stored?
    case StoreSent(w, ok) => w in s.workers && s.workers[w].at.Transmitted? && (ok ==> s.workers[w].at.pk in s.rows)
    case StoreFailed(w, ok) => w in s.workers && s.workers[w].at.Failing? && (ok ==> s.workers[w].at.pk in s.rows)
    case Release(w) => w in s.workers && s.workers[w].at.Finished?
    case Restart => true
  }

  ghost function Move(s: State, w: nat, at: At): State
    requires w in s.workers
  {
    s.(workers := s.workers[w := s.workers[w].(at := at)])
  }

  /** Where the worker stands after reading the row its job names: only a CREATED row of an
      `outbound` job is dispatched. */
  ghost function AfterFetch(cfg: Config, s: State, j: QueueJob, dbOk: bool): At {
    var pk := cfg.parse(j.reference);
    if dbOk && j.jobType == "outbound" && pk.Some? && pk.value in s.rows && s.rows[pk.value] == Created
    then Holding(pk.value) else Finished
  }

  ghost function AfterModem(answer: ModemAnswer, ok: At, pk: nat): At {
    match answer
    case Ok => ok
    case MmcliError => Failing(pk)
    case Exception => Finished
  }

  ghost function Step(cfg: Config, s: State, e: Event): State
    requires Enabled(cfg, s, e)
  {
    match e
    case NewRow => s.(rows := s.rows[s.nextRow := Created], nextRow := s.nextRow + 1)
    case DeleteRow(pk) => s.(rows := s.rows - {pk})
    case Reserve(t, jobType, reference, priority) =>
      if Key(jobType, reference) in s.inFlight then s  // already queued or running: reported as accepted
      else s.(inFlight := s.inFlight + {Key(jobType, reference)},
              enqueuers := s.enqueuers[t := Reserved(jobType, reference, priority)])
    case Number(t) =>
      var r := s.enqueuers[t];
      s.(nextSeq := s.nextSeq + 1,
         enqueuers := s.enqueuers[t := Numbered(QueueJob(PriorityRank(r.priority), s.nextSeq + 1, r.jobType,
                                                         r.reference, r.priority))])
    case Put(t) =>
      var j := s.enqueuers[t].job;
      if Full(cfg, s.queue) then s.(enqueuers := s.enqueuers[t := Rejected(j)])
      else s.(queue := s.queue + {j}, enqueuers := s.enqueuers - {t})
    case Rollback(t) =>
      s.(inFlight := s.inFlight - {KeyOf(s.enqueuers[t].job)}, enqueuers := s.enqueuers - {t})
    case Get(w, j) => s.(queue := s.queue - {j}, workers := s.workers[w := Worker(j, Got)])
    case Fetch(w, dbOk) => Move(s, w, AfterFetch(cfg, s, s.workers[w].job, dbOk))
    case Acquire(w) => Move(s, w, Inside(s.workers[w].at.pk))
    case Prepare(w, answer) =>
      var pk := s.workers[w].at.pk;
      Move(s, w, AfterModem(answer, Prepared(pk), pk))
    case StoreSending(w, dbOk) =>
      var pk := s.workers[w].at.pk;
      if dbOk then Move(s.(rows := s.rows[pk := Sending]), w, Stored(pk)) else Move(s, w, Finished)
    case Send(w, answer) =>
      var pk := s.workers[w].at.pk;
      Move(s.(sends := Add(s.sends, pk, 1)), w, AfterModem(answer, Transmitted(pk), pk))
    case StoreSent(w, dbOk) =>
      var pk := s.workers[w].at.pk;
      Move(if dbOk then s.(rows := s.rows[pk := Sent]) else s, w, Finished)
    case StoreFailed(w, dbOk) =>
      var pk := s.workers[w].at.pk;
      Move(if dbOk then s.(rows := s.rows[pk := Failed]) else s, w, Finished)
    case Release(w) =>
      s.(inFlight := s.inFlight - {KeyOf(s.workers[w].job)}, workers := s.workers - {w})
    case Restart => State(s.rows, s.nextRow, s.sends, {}, {}, 0, map[], map[])
  }

  ghost predicate Possible(cfg: Config, s: State, es: seq<Event>)
    decreases |es|
  {
    es != [] ==> Enabled(cfg, s, es[0]) && Possible(cfg, Step(cfg, s, es[0]), es[1..])
  }

  ghost function Run(cfg: Config, s: State, es: seq<Event>): State
    requires Possible(cfg, s, es)
    decreases |es|
  {
    if es == [] then s else Run(cfg, Step(cfg, s, es[0]), es[1..])
  }

  lemma RunCons(cfg: Config, s: State, e: Event, es: seq<Event>)
    requires Enabled(cfg, s, e) && Possible(cfg, Step(cfg, s, e), es)
    ensures Possible(cfg, s, [e] + es) && Run(cfg, s, [e] + es) == Run(cfg, Step(cfg, s, e), es)
  {
    assert ([e] + es)[1..] == es;
  }
}
