/** The outbox functions as the worker threads run them: methods over the job table and over
    the job instance a worker holds in memory. The table changes are those of `Outbox`. */
module WebhookOutbox {
  import opened Common
  import opened Retries
  import opened Text
  import opened Outbox
  import D = WebhookDelivery

  const NOT_ALL := "One or more webhook URLs failed"

  /** The delivery step of worker 0: the posts, or an exception. How many posts came before the
      exception does not show in the table. */
  ghost function Delivery(fault: Option<string>, round: Round): Event {
    match fault
    case Some(error) => DeliverRaise(0, Truncated(error), round, 0)
    case None => Deliver(0, round)
  }

  ghost predicate Succeeds(fault: Option<string>, round: Round) {
    fault == None && ReachesAll(round)
  }

  ghost function OutcomeOf(fault: Option<string>, round: Round): Outcome {
    if Succeeds(fault, round) then Acked else Refused(if fault.Some? then Truncated(fault.value) else NOT_ALL)
  }

  /** The table after worker 0 bumps, delivers and, if its last save succeeds, finalizes. */
  ghost function AfterRound(maxAttempts: int, s: State, tries: nat, delivery: Event, finalized: bool): map<nat, Job>
    requires Enabled(s, Bump(0, tries)) && (delivery.Deliver? || delivery.DeliverRaise?) && delivery.worker == 0
    requires delivery.DeliverRaise? ==> delivery.spent <= |PostsOf(delivery.round)|
  {
    var s1 := Step(maxAttempts, s, Bump(0, tries));
    if finalized then Step(maxAttempts, Step(maxAttempts, s1, delivery), Finalize(0)).jobs else s1.jobs
  }

  /** The row after one attempt: counted, and finalized unless the last save failed. */
  function RoundRow(row: Job, attempts: nat, now: nat, outcome: Outcome, maxAttempts: int, finalized: bool): Job {
    var bumped := Attempted(row, attempts, now);
    if finalized then Finalized(bumped, attempts, outcome, maxAttempts, now) else bumped
  }

  /** The steps of the transition system in one go do the same, to that row alone. */
  lemma RoundInOneGo(maxAttempts: int, s: State, tries: nat, fault: Option<string>, round: Round, finalized: bool)
    requires Enabled(s, Bump(0, tries))
    ensures var c := s.workers[0];
            AfterRound(maxAttempts, s, tries, Delivery(fault, round), finalized)
            == s.jobs[c.pk := RoundRow(s.jobs[c.pk], c.attempts + tries, s.now, OutcomeOf(fault, round), maxAttempts,
                                       finalized)]
  {
    var c := s.workers[0];
    var s1 := Step(maxAttempts, s, Bump(0, tries));
    assert s1.workers[0] == Copy(c.pk, c.attempts + tries, Bumped);
    var s2 := Step(maxAttempts, s1, Delivery(fault, round));
    assert s2.jobs == s1.jobs && s2.now == s.now;
  }

  /** What a round that is finalized leaves in the row, column by column. */
  lemma FinalizedRow(row: Job, attempts: nat, now: nat, fault: Option<string>, round: Round, maxAttempts: int)
    ensures var ok := fault == None
                      && forall i: nat :: i < |round.urls| ==> D.AckedWithin(round.answers, i, round.retryMax);
            var r := RoundRow(row, attempts, now, OutcomeOf(fault, round), maxAttempts, true);
            && (ok <==> Succeeds(fault, round))
            && r.ref == row.ref && r.createdAt == row.createdAt && r.attempts == attempts && r.updatedAt == now
            && r.status == (if ok then Delivered else if attempts < maxAttempts then Pending else Failed)
            && r.deliveredAt == (if ok then Some(now) else row.deliveredAt)
            && r.lastError == if ok then "" else if fault == None then "One or more webhook URLs failed"
                              else if |fault.value| <= 2000 then fault.value else fault.value[..2000]
  {
  }

  datatype Processed = Returned(ok: bool) | Raised

  /** The in-memory `WebhookDeliveryJob` a worker works on; other threads do not see it. */
  class JobInstance {
    const pk: nat
    var status: Status
    var attempts: nat
    var lastError: string
    var deliveredAt: Option<nat>

    constructor (pk: nat, row: Job)
      ensures this.pk == pk && status == row.status && attempts == row.attempts
      ensures lastError == row.lastError && deliveredAt == row.deliveredAt
    {
      this.pk, status, attempts := pk, row.status, row.attempts;
      lastError, deliveredAt := row.lastError, row.deliveredAt;
    }
  }

  class OutboxTable {
    var jobs: map<nat, Job>
    var next: nat

    /** One uninterrupted `schedule_inbound_webhook` / `schedule_outbound_webhook`. */
    method Schedule(ref: Ref, now: nat) returns (pk: nat)
      requires forall q :: q in jobs ==> q < next
      modifies this
      ensures pk in jobs && jobs[pk].ref == ref
      ensures (exists q :: q in old(jobs) && old(jobs)[q].ref == ref) ==> pk in old(jobs) && next == old(next)
      ensures pk in old(jobs) && old(jobs)[pk].status == Delivered ==> jobs == old(jobs)
      ensures pk in old(jobs) && old(jobs)[pk].status != Delivered ==>
                jobs == old(jobs)[pk := Rescheduled(old(jobs)[pk], now)]
      ensures pk !in old(jobs) ==>
                pk == old(next) && next == pk + 1 && jobs == old(jobs)[pk := NewJob(ref, now)]
      ensures pk !in old(jobs) ==> jobs[pk] == Job(ref, Pending, 0, "", now, now, None)
      ensures pk in old(jobs) && old(jobs)[pk].status != Delivered ==>
                jobs[pk] == old(jobs)[pk].(status := Pending, lastError := "", updatedAt := now)
    {
      if found :| found in jobs && jobs[found].ref == ref {
        pk := found;
        if jobs[pk].status != Delivered {
          jobs := jobs[pk := Rescheduled(jobs[pk], now)];
        }
      } else {
        pk := next;
        jobs, next := jobs[pk := NewJob(ref, now)], next + 1;
      }
    }

    method ResetStaleProcessingJobs(cutoff: nat) returns (updated: nat)
      modifies this`jobs
      ensures jobs.Keys == old(jobs).Keys
      ensures forall pk :: pk in jobs ==>
                jobs[pk] == if Stale(old(jobs)[pk], cutoff) then Reset(old(jobs)[pk]) else old(jobs)[pk]
      ensures forall pk :: pk in jobs ==>
                jobs[pk] == if old(jobs)[pk].status == Processing && old(jobs)[pk].updatedAt < cutoff
                            then old(jobs)[pk].(status := Pending, lastError := "Reset stale processing job")
                            else old(jobs)[pk]
      ensures updated == |set pk | pk in old(jobs) && Stale(old(jobs)[pk], cutoff)|
    {
      updated := |set pk | pk in jobs && Stale(jobs[pk], cutoff)|;
      jobs := map pk | pk in jobs :: if Stale(jobs[pk], cutoff) then Reset(jobs[pk]) else jobs[pk];
    }

    /** `job` is null exactly when nothing is pending; otherwise it is the oldest pending job,
        now PROCESSING in the table and copied into a new instance. */
    method ClaimNextJob(now: nat) returns (job: JobInstance?)
      modifies this`jobs
      ensures job == null <==> forall q :: q in old(jobs) ==> old(jobs)[q].status != Pending
      ensures job == null ==> jobs == old(jobs)
      ensures job != null ==>
                && fresh(job) && OldestPending(old(jobs), job.pk)
                && jobs == old(jobs)[job.pk := Taken(old(jobs)[job.pk], now)]
                && job.status == Processing && job.attempts == jobs[job.pk].attempts
                && job.lastError == jobs[job.pk].lastError
      ensures job != null ==>
                && job.pk in old(jobs) && old(jobs)[job.pk].status == Pending
                && jobs[job.pk] == old(jobs)[job.pk].(status := Processing, updatedAt := now)
                && forall q :: q in old(jobs) && old(jobs)[q].status == Pending && q != job.pk ==>
                     || old(jobs)[job.pk].createdAt < old(jobs)[q].createdAt
                     || (old(jobs)[job.pk].createdAt == old(jobs)[q].createdAt && job.pk < q)
    {
      job := null;
      var first: Option<nat> := None;
      var unseen := jobs.Keys;
      while unseen != {}
        invariant unseen <= jobs.Keys
        invariant first == None ==> forall q :: q in jobs && q !in unseen ==> jobs[q].status != Pending
        invariant first.Some? ==>
                    && first.value in jobs && first.value !in unseen && jobs[first.value].status == Pending
                    && forall q :: q in jobs && q !in unseen && jobs[q].status == Pending && q != first.value
                                   ==> Before(jobs, first.value, q)
        decreases unseen
      {
        var q :| q in unseen;
        unseen := unseen - {q};
        if jobs[q].status == Pending && (first == None || Before(jobs, q, first.value)) {
          first := Some(q);
        }
      }
      if first.Some? {
        jobs := jobs[first.value := Taken(jobs[first.value], now)];
        job := new JobInstance(first.value, jobs[first.value]);
      }
    }

    /** The retried closure adds one to the instance's `attempts` on every run, also on the runs
        whose save is refused, and saves the sum. */
    method BumpAttempts(job: JobInstance, db: Db, retries: int, now: nat) returns (saved: bool)
      modifies this`jobs, job`attempts
      ensures saved <==> SavesBy(db, retries) && job.pk in old(jobs)
      ensures saved ==> job.attempts == old(job.attempts) + Tries(db, retries, 0)
      ensures saved ==> jobs == old(jobs)[job.pk := Attempted(old(jobs)[job.pk], job.attempts, now)]
      ensures saved ==> jobs[job.pk] == old(jobs)[job.pk].(attempts := job.attempts, updatedAt := now)
      ensures saved ==> 1 <= Tries(db, retries, 0) <= retries
      ensures !saved ==> jobs == old(jobs)
    {
      var attempt: nat := 0;
      while attempt < retries
        invariant attempt <= Max(0, retries) && jobs == old(jobs)
        invariant job.attempts == old(job.attempts) + attempt
        invariant forall i: nat :: i < attempt ==> db(i) == Locked
      {
        job.attempts := job.attempts + 1;
        match db(attempt) {
          case Saved =>
            TriesShape(db, retries, 0, attempt);
            if job.pk !in jobs {
              return false;  // no row matched the update: DatabaseError, not retried
            }
            jobs := jobs[job.pk := Attempted(jobs[job.pk], job.attempts, now)];
            return true;
          case Error => return false;
          case Locked => attempt := attempt + 1;
        }
      }
      return false;
    }

    /** The finalize closure writes the same row on every run, so only its last run counts. */
    method FinalizeJob(job: JobInstance, ok: bool, db: Db, retries: int, maxAttempts: int, now: nat)
      returns (saved: bool)
      modifies this`jobs, job
      ensures saved <==> SavesBy(db, retries) && job.pk in old(jobs)
      ensures job.attempts == old(job.attempts)
      ensures saved ==>
                jobs == old(jobs)[job.pk := Finalized(old(jobs)[job.pk], job.attempts,
                                              if ok then Acked else Refused(old(job.lastError)), maxAttempts, now)]
      ensures saved && ok ==>
                jobs[job.pk] == old(jobs)[job.pk].(status := Delivered, lastError := "", deliveredAt := Some(now),
                                                   updatedAt := now)
      ensures saved && !ok ==>
                jobs[job.pk] == old(jobs)[job.pk].(status := if job.attempts < maxAttempts then Pending else Failed,
                                                   lastError := old(job.lastError), updatedAt := now)
      ensures !saved ==> jobs == old(jobs)
    {
      var attempt: nat := 0;
      while attempt < retries
        invariant attempt <= Max(0, retries) && jobs == old(jobs)
        invariant job.attempts == old(job.attempts)
        invariant !ok ==> job.lastError == old(job.lastError)
        invariant forall i: nat :: i < attempt ==> db(i) == Locked
      {
        if ok {
          job.status, job.deliveredAt, job.lastError := Delivered, Some(now), "";
        } else {
          job.status := if job.attempts >= maxAttempts then Failed else Pending;
        }
        match db(attempt) {
          case Saved =>
            if job.pk !in jobs {
              return false;
            }
            var row := jobs[job.pk].(status := job.status, lastError := job.lastError, updatedAt := now);
            jobs := jobs[job.pk := if ok then row.(deliveredAt := job.deliveredAt) else row];
            return true;
          case Error => return false;
          case Locked => attempt := attempt + 1;
        }
      }
      return false;
    }

    /** The delivery in the middle: what it returns, and the error text it leaves behind. */
    method AttemptDelivery(job: JobInstance, fault: Option<string>, round: Round) returns (ok: bool)
      modifies job`lastError
      ensures ok <==> Succeeds(fault, round)
      ensures !ok ==> OutcomeOf(fault, round) == Refused(job.lastError)
    {
      if fault.Some? {
        job.lastError := Truncated(fault.value);
        return false;
      }
      var allOk, _ := D.DeliverPayloadToUrls(round.urls, round.retryMax, round.answers);
      if !allOk {
        job.lastError := NOT_ALL;
      }
      ok := allOk;
    }

    /** From the delivery on: the row is finalized with its outcome, or left alone if the save fails. */
    method DeliverAndFinalize(job: JobInstance, fault: Option<string>, round: Round, db: Db, retries: int,
                              maxAttempts: int, now: nat)
      returns (ok: bool, saved: bool)
      modifies this`jobs, job
      ensures ok <==> Succeeds(fault, round)
      ensures saved <==> SavesBy(db, retries) && job.pk in old(jobs)
      ensures saved ==> jobs == old(jobs)[job.pk := Finalized(old(jobs)[job.pk], old(job.attempts),
                                                              OutcomeOf(fault, round), maxAttempts, now)]
      ensures !saved ==> jobs == old(jobs)
    {
      ok := AttemptDelivery(job, fault, round);
      saved := FinalizeJob(job, ok, db, retries, maxAttempts, now);
    }

    /** One `process_webhook_job` without interruption is bump, deliver, finalize. It raises iff
        one of its two saves does: the first leaves the table alone, the second leaves the
        attempt counted and the job PROCESSING. An exception of the delivery is `fault`. */
    method ProcessWebhookJob(job: JobInstance, fault: Option<string>, round: Round,
                             dbBump: Db, dbFinal: Db, retries: int, maxAttempts: int, now: nat)
      returns (r: Processed, ghost tries: nat)
      modifies this`jobs, job
      ensures r == Raised <==> job.pk !in old(jobs) || !SavesBy(dbBump, retries) || !SavesBy(dbFinal, retries)
      ensures r.Returned? ==> (r.ok <==> Succeeds(fault, round))
      ensures job.pk !in old(jobs) || !SavesBy(dbBump, retries) ==> jobs == old(jobs)
      ensures job.pk in old(jobs) && SavesBy(dbBump, retries) ==>
                && 1 <= tries <= retries
                && jobs == old(jobs)[job.pk := RoundRow(old(jobs)[job.pk], old(job.attempts) + tries, now,
                                                        OutcomeOf(fault, round), maxAttempts, r.Returned?)]
      ensures r.Returned? ==>
                (r.ok <==> fault == None
                           && forall i: nat :: i < |round.urls| ==> D.AckedWithin(round.answers, i, round.retryMax))
      ensures r.Returned? ==>
                && job.pk in old(jobs) && jobs[job.pk].attempts == old(job.attempts) + tries
                && jobs[job.pk].status == if r.ok then Delivered
                                          else if jobs[job.pk].attempts < maxAttempts then Pending else Failed
    {
      tries := Tries(dbBump, retries, 0);
      var bumped := BumpAttempts(job, dbBump, retries, now);
      if !bumped {
        return Raised, tries;
      }
      ghost var before := jobs[job.pk];
      var ok, saved := DeliverAndFinalize(job, fault, round, dbFinal, retries, maxAttempts, now);
      FinalizedRow(before, job.attempts, now, fault, round, maxAttempts);
      r := if saved then Returned(ok) else Raised;
    }
  }
}
