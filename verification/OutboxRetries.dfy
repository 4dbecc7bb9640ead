/** How often a refused job is tried before it is given up, and how long a claim protects it. */
module OutboxRetries {
  import opened Common
  import opened Outbox
  import opened OutboxSafety
  import opened OutboxFairness

  // ---- FAILED means the attempts are used up ----

  ghost predicate FailedIsExhausted(maxAttempts: int, s: State) {
    forall pk :: pk in s.jobs && s.jobs[pk].status == Failed ==> s.jobs[pk].attempts >= maxAttempts
  }

  lemma FailedIsExhaustedStep(maxAttempts: int, s: State, e: Event)
    requires Ownership(s) && FailedIsExhausted(maxAttempts, s) && Enabled(s, e)
    ensures FailedIsExhausted(maxAttempts, Step(maxAttempts, s, e))
  {
  }

  lemma {:induction false} ExhaustedRun(maxAttempts: int, s: State, es: seq<Event>)
    requires KeysKnown(s) && Ownership(s) && FailedIsExhausted(maxAttempts, s)
    requires Possible(maxAttempts, s, es) && Exclusive(maxAttempts, s, es)
    ensures FailedIsExhausted(maxAttempts, Run(maxAttempts, s, es))
    decreases |es|
  {
    if es != [] {
      FailedIsExhaustedStep(maxAttempts, s, es[0]);
      KeysKnownStep(maxAttempts, s, es[0]);
      OwnershipStep(maxAttempts, s, es[0]);
      ExhaustedRun(maxAttempts, Step(maxAttempts, s, es[0]), es[1..]);
    }
  }

  /** In every exclusive run a job is FAILED only with `max_attempts` counted. */
  lemma {:induction false} GivenUpIsExhausted(maxAttempts: int, es: seq<Event>, pk: nat)
    requires Possible(maxAttempts, Init, es) && Exclusive(maxAttempts, Init, es)
    requires var s := Run(maxAttempts, Init, es); pk in s.jobs && s.jobs[pk].status == Failed
    ensures Run(maxAttempts, Init, es).jobs[pk].attempts >= maxAttempts
  {
    ExhaustedRun(maxAttempts, Init, es);
  }

  /** A refused round leaves the job PENDING iff the attempts the table counts are below the
      limit, and FAILED otherwise. */
  lemma RefusedIsTriedAgainIff(maxAttempts: int, s: State, w: nat)
    requires Ownership(s) && Enabled(s, Finalize(w)) && s.workers[w].phase.outcome.Refused?
    ensures var pk := s.workers[w].pk;
            var status := Step(maxAttempts, s, Finalize(w)).jobs[pk].status;
            && (status == Pending <==> s.jobs[pk].attempts < maxAttempts)
            && (status == Failed <==> s.jobs[pk].attempts >= maxAttempts)
  {
  }

  /** Only the save of a `schedule` call takes a job out of FAILED: a reset does not. */
  lemma FailedIsLeftIff(maxAttempts: int, s: State, e: Event, pk: nat)
    requires KeysKnown(s) && Ownership(s) && Enabled(s, e) && e != Cascade(pk)
    requires pk in s.jobs && s.jobs[pk].status == Failed
    ensures pk in Step(maxAttempts, s, e).jobs
    ensures Step(maxAttempts, s, e).jobs[pk].status != Failed <==> e.ScheduleSave? && s.schedulers[e.thread] == pk
  {
  }

  // ---- Exactly as many rounds ----

  /** No bump of the run had to be run twice. */
  ghost predicate OneRunPerBump(es: seq<Event>) {
    forall e :: e in es && e.Bump? ==> e.tries == 1
  }

  ghost predicate UnderWay(s: State, pk: nat) {
    exists w :: w in s.workers && s.workers[w].pk == pk && s.workers[w].phase == Bumped
  }

  /** Every attempt counted for the job is a round, but for the one that is under way. */
  ghost predicate RoundsAreAttempts(s: State, pk: nat) {
    pk in s.jobs ==> Count(s.rounds, pk) == s.jobs[pk].attempts - (if UnderWay(s, pk) then 1 else 0)
  }

  ghost predicate TableBelow(maxAttempts: int, s: State, pk: nat) {
    pk in s.jobs ==>
      && (s.jobs[pk].status == Pending ==> s.jobs[pk].attempts < Max(1, maxAttempts))
      && (s.jobs[pk].status == Failed ==> s.jobs[pk].attempts == Max(1, maxAttempts))
  }

  ghost predicate CopiesBelow(maxAttempts: int, s: State, pk: nat) {
    forall w :: w in s.workers && s.workers[w].pk == pk ==>
      if s.workers[w].phase == Claimed then s.workers[w].attempts < Max(1, maxAttempts)
      else 1 <= s.workers[w].attempts <= Max(1, maxAttempts)
  }

  ghost predicate Exact(maxAttempts: int, s: State, pk: nat) {
    RoundsAreAttempts(s, pk) && TableBelow(maxAttempts, s, pk) && CopiesBelow(maxAttempts, s, pk)
  }

  /** The step is one a worker takes on the job it holds. */
  ghost predicate ByOwner(s: State, e: Event, pk: nat)
    requires Enabled(s, e)
  {
    ByWorker(e) && !e.Claim? && s.workers[e.worker].pk == pk
  }

  lemma OnlyBumpedIsUnderWay(s: State, w: nat)
    requires SingleOwner(s) && w in s.workers
    ensures UnderWay(s, s.workers[w].pk) <==> s.workers[w].phase == Bumped
  {
  }

  lemma RoundsAreAttemptsByOwner(maxAttempts: int, s: State, e: Event, pk: nat)
    requires KeysKnown(s) && Ownership(s) && RoundsAreAttempts(s, pk) && Enabled(s, e)
    requires ByOwner(s, e, pk) && (e.Bump? ==> e.tries == 1)
    ensures RoundsAreAttempts(Step(maxAttempts, s, e), pk)
  {
    var s' := Step(maxAttempts, s, e);
    OnlyBumpedIsUnderWay(s, e.worker);
    if e.worker in s'.workers { assert SingleOwner(s'); OnlyBumpedIsUnderWay(s', e.worker); }
  }

  lemma CopyElsewhere(maxAttempts: int, s: State, e: Event, pk: nat, w: nat)
    requires Enabled(s, e) && !ByOwner(s, e, pk)
    ensures var s' := Step(maxAttempts, s, e);
            (w in s.workers && s.workers[w].pk == pk && s.workers[w].phase == Bumped) <==>
            (w in s'.workers && s'.workers[w].pk == pk && s'.workers[w].phase == Bumped)
  {
  }

  lemma RoundsElsewhere(maxAttempts: int, s: State, e: Event, pk: nat)
    requires Enabled(s, e) && !ByOwner(s, e, pk)
    ensures Count(Step(maxAttempts, s, e).rounds, pk) == Count(s.rounds, pk)
  {
  }

  lemma UnderWayElsewhere(maxAttempts: int, s: State, e: Event, pk: nat)
    requires Enabled(s, e) && !ByOwner(s, e, pk)
    ensures UnderWay(Step(maxAttempts, s, e), pk) <==> UnderWay(s, pk)
  {
    var s' := Step(maxAttempts, s, e);
    if UnderWay(s, pk) {
      var w :| w in s.workers && s.workers[w].pk == pk && s.workers[w].phase == Bumped;
      CopyElsewhere(maxAttempts, s, e, pk, w);
    }
    if UnderWay(s', pk) {
      var w :| w in s'.workers && s'.workers[w].pk == pk && s'.workers[w].phase == Bumped;
      CopyElsewhere(maxAttempts, s, e, pk, w);
    }
  }

  lemma AttemptsElsewhere(maxAttempts: int, s: State, e: Event, pk: nat)
    requires KeysKnown(s) && Enabled(s, e) && !ByOwner(s, e, pk)
    requires pk in Step(maxAttempts, s, e).jobs
    ensures Step(maxAttempts, s, e).jobs[pk].attempts == if pk in s.jobs then s.jobs[pk].attempts else 0
    ensures pk !in s.jobs ==> s.next <= pk
  {
  }

  lemma NothingUnderWay(s: State, pk: nat)
    requires CopiesKnown(s) && LogsKnown(s) && s.next <= pk
    ensures !UnderWay(s, pk) && Count(s.rounds, pk) == 0
  {
  }

  lemma RoundsAreAttemptsStep(maxAttempts: int, s: State, e: Event, pk: nat)
    requires KeysKnown(s) && Ownership(s) && RoundsAreAttempts(s, pk) && Enabled(s, e) && (e.Bump? ==> e.tries == 1)
    ensures RoundsAreAttempts(Step(maxAttempts, s, e), pk)
  {
    if ByOwner(s, e, pk) {
      RoundsAreAttemptsByOwner(maxAttempts, s, e, pk);
    } else if pk in Step(maxAttempts, s, e).jobs {
      UnderWayElsewhere(maxAttempts, s, e, pk);
      RoundsElsewhere(maxAttempts, s, e, pk);
      AttemptsElsewhere(maxAttempts, s, e, pk);
      if pk !in s.jobs { NothingUnderWay(s, pk); }
    }
  }

  lemma TableBelowStep(maxAttempts: int, s: State, e: Event, pk: nat)
    requires Ownership(s) && TableBelow(maxAttempts, s, pk) && CopiesBelow(maxAttempts, s, pk)
    requires Enabled(s, e) && !PutsBack(e)
    ensures TableBelow(maxAttempts, Step(maxAttempts, s, e), pk)
  {
  }

  lemma CopiesBelowStep(maxAttempts: int, s: State, e: Event, pk: nat)
    requires TableBelow(maxAttempts, s, pk) && CopiesBelow(maxAttempts, s, pk)
    requires Enabled(s, e) && (e.Bump? ==> e.tries == 1)
    ensures CopiesBelow(maxAttempts, Step(maxAttempts, s, e), pk)
  {
  }

  lemma {:induction false} ExactRun(maxAttempts: int, s: State, es: seq<Event>, pk: nat)
    requires KeysKnown(s) && Ownership(s) && Exact(maxAttempts, s, pk)
    requires Possible(maxAttempts, s, es) && NothingPutBack(es) && OneRunPerBump(es)
    ensures Exact(maxAttempts, Run(maxAttempts, s, es), pk)
    decreases |es|
  {
    if es != [] {
      assert es[0] in es;
      RoundsAreAttemptsStep(maxAttempts, s, es[0], pk);
      TableBelowStep(maxAttempts, s, es[0], pk);
      CopiesBelowStep(maxAttempts, s, es[0], pk);
      KeysKnownStep(maxAttempts, s, es[0]);
      OwnershipStep(maxAttempts, s, es[0]);
      ExactRun(maxAttempts, Step(maxAttempts, s, es[0]), es[1..], pk);
    }
  }

  /** Without resets, reschedules and bumps that had to be repeated: a job is given up after
      exactly `max_attempts` rounds (one, if that is less), and while fewer were made it is
      tried again. */
  lemma {:induction false} GivenUpAfterItsRounds(maxAttempts: int, es: seq<Event>, pk: nat)
    requires Possible(maxAttempts, Init, es) && NothingPutBack(es) && OneRunPerBump(es)
    requires pk in Run(maxAttempts, Init, es).jobs
    ensures var s := Run(maxAttempts, Init, es);
            && (s.jobs[pk].status == Failed ==> Count(s.rounds, pk) == Max(1, maxAttempts))
            && (s.jobs[pk].status == Pending ==> Count(s.rounds, pk) == s.jobs[pk].attempts < Max(1, maxAttempts))
  {
    ExactRun(maxAttempts, Init, es, pk);
    var s := Run(maxAttempts, Init, es);
    OwnershipInRun(maxAttempts, Init, es);
    if UnderWay(s, pk) {
      var w :| w in s.workers && s.workers[w].pk == pk && s.workers[w].phase == Bumped;
      assert s.jobs[pk].status == Processing;
    }
  }

  lemma {:induction false} OwnershipInRun(maxAttempts: int, s: State, es: seq<Event>)
    requires KeysKnown(s) && Ownership(s) && Possible(maxAttempts, s, es) && NothingPutBack(es)
    ensures KeysKnown(Run(maxAttempts, s, es)) && Ownership(Run(maxAttempts, s, es))
    decreases |es|
  {
    if es != [] {
      assert es[0] in es;
      KeysKnownStep(maxAttempts, s, es[0]);
      OwnershipStep(maxAttempts, s, es[0]);
      OwnershipInRun(maxAttempts, Step(maxAttempts, s, es[0]), es[1..]);
    }
  }

  // ---- A job that every round refuses ----

  /** The only job is PENDING with `n` attempts counted, and nobody works on it. */
  ghost predicate Alone(s: State, pk: nat, n: nat) {
    s.jobs.Keys == {pk} && s.jobs[pk].status == Pending && s.jobs[pk].attempts == n && s.workers == map[]
  }

  function RoundEvents(round: Round): seq<Event> {
    [Bump(0, 1), Deliver(0, round), Finalize(0)]
  }

  lemma RefusedRound(maxAttempts: int, s: State, pk: nat, n: nat, round: Round)
    requires s.jobs.Keys == {pk} && s.jobs[pk].attempts == n && s.workers == map[0 := Copy(pk, n, Claimed)]
    requires !ReachesAll(round)
    ensures Possible(maxAttempts, s, RoundEvents(round))
    ensures var s' := Run(maxAttempts, s, RoundEvents(round));
            if n + 1 < maxAttempts then Alone(s', pk, n + 1)
            else pk in s'.jobs && s'.jobs[pk].status == Failed
  {
    var s2 := Step(maxAttempts, s, Bump(0, 1));
    var s3 := Step(maxAttempts, s2, Deliver(0, round));
    RunCons(maxAttempts, s3, Finalize(0), []);
    RunCons(maxAttempts, s2, Deliver(0, round), [Finalize(0)] + []);
    RunCons(maxAttempts, s, Bump(0, 1), [Deliver(0, round)] + ([Finalize(0)] + []));
    assert [Bump(0, 1)] + ([Deliver(0, round)] + ([Finalize(0)] + [])) == RoundEvents(round);
  }

  /** One more round is refused. */
  lemma OneRefusal(maxAttempts: int, s: State, pk: nat, n: nat, round: Round) returns (es: seq<Event>)
    requires Alone(s, pk, n) && !ReachesAll(round)
    ensures es == [Claim(0, pk)] + RoundEvents(round)
    ensures Possible(maxAttempts, s, es)
    ensures var s' := Run(maxAttempts, s, es);
            if n + 1 < maxAttempts then Alone(s', pk, n + 1)
            else pk in s'.jobs && s'.jobs[pk].status == Failed
  {
    RefusedRound(maxAttempts, Step(maxAttempts, s, Claim(0, pk)), pk, n, round);
    RunCons(maxAttempts, s, Claim(0, pk), RoundEvents(round));
    es := [Claim(0, pk)] + RoundEvents(round);
  }

  /** Every delivery of the run is this one, and nothing else happens but claims, bumps and finalizes. */
  ghost predicate OnlyRefusals(es: seq<Event>, round: Round) {
    forall e :: e in es ==> e.Claim? || e == Bump(0, 1) || e == Deliver(0, round) || e == Finalize(0)
  }

  lemma {:induction false} RefusedUntilFailed(maxAttempts: int, s: State, pk: nat, n: nat, round: Round)
    returns (es: seq<Event>)
    requires Alone(s, pk, n) && !ReachesAll(round)
    ensures Possible(maxAttempts, s, es) && OnlyRefusals(es, round)
    ensures var s' := Run(maxAttempts, s, es); pk in s'.jobs && s'.jobs[pk].status == Failed
    decreases maxAttempts - n
  {
    es := OneRefusal(maxAttempts, s, pk, n, round);
    if n + 1 < maxAttempts {
      var more := RefusedUntilFailed(maxAttempts, Run(maxAttempts, s, es), pk, n + 1, round);
      RunAppend(maxAttempts, s, es, more);
      es := es + more;
    }
  }

  lemma {:induction false} RunAppend(maxAttempts: int, s: State, es: seq<Event>, fs: seq<Event>)
    requires Possible(maxAttempts, s, es) && Possible(maxAttempts, Run(maxAttempts, s, es), fs)
    ensures Possible(maxAttempts, s, es + fs)
    ensures Run(maxAttempts, s, es + fs) == Run(maxAttempts, Run(maxAttempts, s, es), fs)
    decreases |es|
  {
    if es == [] {
      assert es + fs == fs;
    } else {
      RunAppend(maxAttempts, Step(maxAttempts, s, es[0]), es[1..], fs);
      assert (es + fs)[1..] == es[1..] + fs;
    }
  }

  /** So a job whose deliveries are all refused does get its `max_attempts` rounds (one, if that
      is less), and is FAILED after them. */
  lemma RefusedJobGetsItsRounds(maxAttempts: int, ref: Ref, round: Round) returns (es: seq<Event>)
    requires !ReachesAll(round)
    ensures Possible(maxAttempts, Init, [ScheduleRead(0, ref, 0)] + es) && OnlyRefusals(es, round)
    ensures var s := Run(maxAttempts, Init, [ScheduleRead(0, ref, 0)] + es);
            0 in s.jobs && s.jobs[0].status == Failed && Count(s.rounds, 0) == Max(1, maxAttempts)
  {
    var read := ScheduleRead(0, ref, 0);
    es := RefusedUntilFailed(maxAttempts, Step(maxAttempts, Init, read), 0, 0, round);
    RunCons(maxAttempts, Init, read, es);
    GivenUpAfterItsRounds(maxAttempts, [read] + es, 0);
  }

  // ---- How long a claim protects a job ----

  /** Worker `w` alone holds the job, which was last written at `t` or later. */
  ghost predicate HeldSince(s: State, w: nat, pk: nat, t: nat) {
    && w in s.workers && s.workers[w].pk == pk && (forall v :: v in s.workers && s.workers[v].pk == pk ==> v == w)
    && pk in s.jobs && s.jobs[pk].status == Processing && t <= s.jobs[pk].updatedAt && t <= s.now
  }

  /** No reset of the run looks back to a time after `t`, no reschedule is saved, the SMS is not
      deleted, and `w` goes on working. */
  ghost predicate LeavesAlone(es: seq<Event>, w: nat, pk: nat, t: nat) {
    forall e :: e in es ==>
      && (e.ResetStale? ==> e.cutoff <= t) && !e.ScheduleSave? && e != Cascade(pk)
      && ((e.Finalize? || e.Abandon?) ==> e.worker != w)
  }

  lemma HeldSinceStep(maxAttempts: int, s: State, e: Event, w: nat, pk: nat, t: nat)
    requires KeysKnown(s) && HeldSince(s, w, pk, t) && Enabled(s, e) && LeavesAlone([e], w, pk, t)
    ensures HeldSince(Step(maxAttempts, s, e), w, pk, t)
  {
    assert e in [e];
  }

  lemma {:induction false} HeldSinceRun(maxAttempts: int, s: State, es: seq<Event>, w: nat, pk: nat, t: nat)
    requires KeysKnown(s) && HeldSince(s, w, pk, t) && Possible(maxAttempts, s, es) && LeavesAlone(es, w, pk, t)
    ensures HeldSince(Run(maxAttempts, s, es), w, pk, t)
    decreases |es|
  {
    if es != [] {
      assert es[0] in es;
      HeldSinceStep(maxAttempts, s, es[0], w, pk, t);
      KeysKnownStep(maxAttempts, s, es[0]);
      HeldSinceRun(maxAttempts, Step(maxAttempts, s, es[0]), es[1..], w, pk, t);
    }
  }

  /** From a claim on, and again from the bump on, the job belongs to its worker alone, whatever
      resets run, as long as they look back no further than to that time. */
  lemma {:induction false} ClaimProtects(maxAttempts: int, s: State, e: Event, es: seq<Event>)
    requires KeysKnown(s) && Ownership(s) && Enabled(s, e) && (e.Claim? || e.Bump?)
    requires var pk := if e.Claim? then e.pk else s.workers[e.worker].pk;
             && Possible(maxAttempts, Step(maxAttempts, s, e), es)
             && LeavesAlone(es, e.worker, pk, s.now)
    ensures var pk := if e.Claim? then e.pk else s.workers[e.worker].pk;
            var s' := Run(maxAttempts, Step(maxAttempts, s, e), es);
            && pk in s'.jobs && s'.jobs[pk].status == Processing
            && e.worker in s'.workers && s'.workers[e.worker].pk == pk
            && forall v :: v in s'.workers && s'.workers[v].pk == pk ==> v == e.worker
  {
    var pk := if e.Claim? then e.pk else s.workers[e.worker].pk;
    var s1 := Step(maxAttempts, s, e);
    KeysKnownStep(maxAttempts, s, e);
    OwnershipStep(maxAttempts, s, e);
    HeldSinceRun(maxAttempts, s1, es, e.worker, pk, s.now);
  }
}
