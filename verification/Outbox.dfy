/** The durable webhook outbox as a transition system: the job table, the in-memory copies
    held by the worker threads, and the `schedule` calls that have read a job but not yet
    saved it. Every table statement is one atomic step; anything may run between two steps. */
module Outbox {
  import opened Common
  import D = WebhookDelivery

  datatype Ref = Inbound(id: nat) | Outbound(id: nat)
  datatype Status = Pending | Processing | Delivered | Failed

  datatype Job = Job(ref: Ref, status: Status, attempts: nat, lastError: string,
                     createdAt: nat, updatedAt: nat, deliveredAt: Option<nat>)

  datatype Outcome = Acked | Refused(error: string)

  /** Where a worker stands with its copy: it has claimed the job, has counted the attempt,
      or knows how the delivery went. */
  datatype Phase = Claimed | Bumped | Done(outcome: Outcome)
  datatype Copy = Copy(pk: nat, attempts: nat, phase: Phase)

  /** One attempt to deliver: the URLs known to it, the retry setting, and what the peers answer. */
  datatype Round = Round(urls: seq<string>, retryMax: int, answers: D.Answers)

  /** The posts of a round that is not cut short. */
  ghost function PostsOf(r: Round): seq<D.Post> {
    D.PostLog(r.urls, r.retryMax, r.answers, |r.urls|)
  }

  ghost predicate ReachesAll(r: Round) {
    D.AllAcked(r.urls, r.retryMax, r.answers)
  }

  // ---- What each statement writes into one row ----

  function NewJob(ref: Ref, now: nat): Job {
    Job(ref, Pending, 0, "", now, now, None)
  }

  function Rescheduled(j: Job, now: nat): Job {
    j.(status := Pending, lastError := "", updatedAt := now)
  }

  predicate Stale(j: Job, cutoff: nat) {
    j.status == Processing && j.updatedAt < cutoff
  }

  /** A bulk update: `updated_at` is not refreshed. */
  function Reset(j: Job): Job {
    j.(status := Pending, lastError := "Reset stale processing job")
  }

  function Taken(j: Job, now: nat): Job {
    j.(status := Processing, updatedAt := now)
  }

  function Attempted(j: Job, attempts: nat, now: nat): Job {
    j.(attempts := attempts, updatedAt := now)
  }

  function Finalized(j: Job, attempts: nat, outcome: Outcome, maxAttempts: int, now: nat): Job {
    match outcome
    case Acked => j.(status := Delivered, deliveredAt := Some(now), lastError := "", updatedAt := now)
    case Refused(error) =>
      j.(status := if attempts >= maxAttempts then Failed else Pending, lastError := error, updatedAt := now)
  }

  // ---- The system ----

  /** `acked`, `rounds`, `posts` and `putBacks` are logs no step reads: the jobs a delivery
      returned True for, and per job its delivery rounds, its HTTP posts, and the number of
      times a reset or a reschedule put it back. */
  datatype State = State(
    jobs: map<nat, Job>, next: nat, now: nat,
    workers: map<nat, Copy>, schedulers: map<nat, nat>,
    acked: set<nat>, rounds: map<nat, nat>, posts: map<nat, nat>, putBacks: map<nat, nat>)

  datatype Event =
    | Tick                                       // the clock advances
    | ScheduleRead(thread: nat, ref: Ref, pk: nat)   // get_or_create
    | ScheduleSave(thread: nat)                  // the save of an existing, undelivered job
    | ScheduleAbort(thread: nat)                 // that save raised
    | Claim(worker: nat, pk: nat)
    | Bump(worker: nat, tries: nat)              // `tries` runs of the retried closure
    | Deliver(worker: nat, round: Round)
    | DeliverRaise(worker: nat, error: string, round: Round, spent: nat)  // after the first `spent` posts
    | Finalize(worker: nat)
    | Abandon(worker: nat, round: Round, spent: nat)  // crash, or a database error ends the processing
    | ResetStale(cutoff: nat)
    | Cascade(pk: nat)                           // the SMS row was deleted, its job goes with it

  /** The steps of a worker thread; the others are taken by schedulers, resets and the clock. */
  predicate ByWorker(e: Event) {
    e.Claim? || e.Bump? || e.Deliver? || e.DeliverRaise? || e.Finalize? || e.Abandon?
  }

  ghost const Init := State(map[], 0, 0, map[], map[], {}, map[], map[], map[])

  predicate Before(jobs: map<nat, Job>, a: nat, b: nat)
    requires a in jobs && b in jobs
  {
    jobs[a].createdAt < jobs[b].createdAt || (jobs[a].createdAt == jobs[b].createdAt && a < b)
  }

  /** `pk` is the row `filter(status=PENDING).order_by('created_at', 'pk').first()` returns. */
  ghost predicate OldestPending(jobs: map<nat, Job>, pk: nat) {
    && pk in jobs && jobs[pk].status == Pending
    && forall q :: q in jobs && jobs[q].status == Pending && q != pk ==> Before(jobs, pk, q)
  }

  ghost predicate Enabled(s: State, e: Event) {
    match e
    case Tick => true
    case ScheduleRead(t, ref, pk) =>
      && t !in s.schedulers
      && if pk in s.jobs then s.jobs[pk].ref == ref
         else pk == s.next && forall q :: q in s.jobs ==> s.jobs[q].ref != ref
    case ScheduleSave(t) => t in s.schedulers && s.schedulers[t] in s.jobs
    case ScheduleAbort(t) => t in s.schedulers
    case Claim(w, pk) => w !in s.workers && OldestPending(s.jobs, pk)
    case Bump(w, tries) => w in s.workers && s.workers[w].phase == Claimed && s.workers[w].pk in s.jobs && 1 <= tries
    case Deliver(w, _) => w in s.workers && s.workers[w].phase == Bumped
    case DeliverRaise(w, _, round, spent) =>
      w in s.workers && s.workers[w].phase == Bumped && spent <= |PostsOf(round)|
    case Finalize(w) => w in s.workers && s.workers[w].phase.Done? && s.workers[w].pk in s.jobs
    case Abandon(w, round, spent) => w in s.workers && spent <= |PostsOf(round)|
    case ResetStale(_) => true
    case Cascade(pk) => pk in s.jobs
  }

  ghost function Step(maxAttempts: int, s: State, e: Event): State
    requires Enabled(s, e)
  {
    match e
    case Tick => s.(now := s.now + 1)
    case ScheduleRead(t, ref, pk) =>
      if pk !in s.jobs then s.(jobs := s.jobs[pk := NewJob(ref, s.now)], next := s.next + 1)
      else if s.jobs[pk].status == Delivered then s
      else s.(schedulers := s.schedulers[t := pk])
    case ScheduleSave(t) =>
      var pk := s.schedulers[t];
      s.(jobs := s.jobs[pk := Rescheduled(s.jobs[pk], s.now)],
         schedulers := s.schedulers - {t},
         putBacks := Add(s.putBacks, pk, 1))
    case ScheduleAbort(t) => s.(schedulers := s.schedulers - {t})
    case ResetStale(cutoff) =>
      s.(jobs := map pk | pk in s.jobs :: if Stale(s.jobs[pk], cutoff) then Reset(s.jobs[pk]) else s.jobs[pk],
         putBacks := map pk | pk in s.jobs.Keys + s.putBacks.Keys ::
                      Count(s.putBacks, pk) + if pk in s.jobs && Stale(s.jobs[pk], cutoff) then 1 else 0)
    case Cascade(pk) => s.(jobs := s.jobs - {pk})
    case Claim(w, pk) =>
      s.(jobs := s.jobs[pk := Taken(s.jobs[pk], s.now)],
         workers := s.workers[w := Copy(pk, s.jobs[pk].attempts, Claimed)])
    case Bump(w, tries) =>
      var c := s.workers[w];
      var c' := Copy(c.pk, c.attempts + tries, Bumped);
      s.(jobs := s.jobs[c.pk := Attempted(s.jobs[c.pk], c'.attempts, s.now)],
         workers := s.workers[w := c'])
    case Deliver(w, round) =>
      var c := s.workers[w];
      var ok := ReachesAll(round);
      s.(workers := s.workers[w := c.(phase := Done(if ok then Acked else Refused("One or more webhook URLs failed")))],
         acked := if ok then s.acked + {c.pk} else s.acked,
         rounds := Add(s.rounds, c.pk, 1),
         posts := Add(s.posts, c.pk, |PostsOf(round)|))
    case DeliverRaise(w, error, round, spent) =>
      var c := s.workers[w];
      s.(workers := s.workers[w := c.(phase := Done(Refused(error)))],
         rounds := Add(s.rounds, c.pk, 1),
         posts := Add(s.posts, c.pk, spent))
    case Finalize(w) =>
      var c := s.workers[w];
      s.(jobs := s.jobs[c.pk := Finalized(s.jobs[c.pk], c.attempts, c.phase.outcome, maxAttempts, s.now)],
         workers := s.workers - {w})
    case Abandon(w, round, spent) =>
      var c := s.workers[w];
      var s1 := s.(workers := s.workers - {w});
      // a worker lost in the middle of a delivery leaves a round that was cut short
      if c.phase == Bumped then s1.(rounds := Add(s.rounds, c.pk, 1), posts := Add(s.posts, c.pk, spent)) else s1
  }

  /** The run `es` is possible from `s`. */
  ghost predicate Possible(maxAttempts: int, s: State, es: seq<Event>)
    decreases |es|
  {
    es != [] ==> Enabled(s, es[0]) && Possible(maxAttempts, Step(maxAttempts, s, es[0]), es[1..])
  }

  ghost function Run(maxAttempts: int, s: State, es: seq<Event>): State
    requires Possible(maxAttempts, s, es)
    decreases |es|
  {
    if es == [] then s else Run(maxAttempts, Step(maxAttempts, s, es[0]), es[1..])
  }

  lemma RunCons(maxAttempts: int, s: State, e: Event, es: seq<Event>)
    requires Enabled(s, e) && Possible(maxAttempts, Step(maxAttempts, s, e), es)
    ensures Possible(maxAttempts, s, [e] + es)
    ensures Run(maxAttempts, s, [e] + es) == Run(maxAttempts, Step(maxAttempts, s, e), es)
  {
    assert ([e] + es)[1..] == es;
  }

  // ---- The exclusive regime ----

  ghost predicate Owned(s: State, pk: nat) {
    exists w :: w in s.workers && s.workers[w].pk == pk
  }

  /** No reset and no reschedule touches a job that a live worker owns. */
  ghost predicate ExclusiveEvent(s: State, e: Event)
    requires Enabled(s, e)
  {
    match e
    case ScheduleSave(t) => !Owned(s, s.schedulers[t])
    case ResetStale(cutoff) => forall pk :: pk in s.jobs && Stale(s.jobs[pk], cutoff) ==> !Owned(s, pk)
    case _ => true
  }

  ghost predicate Exclusive(maxAttempts: int, s: State, es: seq<Event>)
    requires Possible(maxAttempts, s, es)
    decreases |es|
  {
    es != [] ==> ExclusiveEvent(s, es[0]) && Exclusive(maxAttempts, Step(maxAttempts, s, es[0]), es[1..])
  }
}
