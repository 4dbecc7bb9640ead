/** Bounded bypass: how many claims can go to other jobs while one PENDING job waits. */
module OutboxFairness {
  import opened Common
  import opened Outbox
  import opened OutboxSafety

  // ---- The place of a job in the queue ----

  /** A job keeps its `created_at` and its SMS through every step, so a failed job returns to
      its old place. */
  lemma PlaceIsKept(maxAttempts: int, s: State, e: Event, pk: nat)
    requires KeysKnown(s) && Enabled(s, e) && pk in s.jobs && pk in Step(maxAttempts, s, e).jobs
    ensures Step(maxAttempts, s, e).jobs[pk].createdAt == s.jobs[pk].createdAt
    ensures Step(maxAttempts, s, e).jobs[pk].ref == s.jobs[pk].ref
  {
  }

  ghost predicate ClockAhead(s: State) {
    forall pk :: pk in s.jobs ==> s.jobs[pk].createdAt <= s.now
  }

  /** The claim statement has exactly one answer, and has one whenever a job is pending. */
  lemma OldestPendingIsUnique(jobs: map<nat, Job>, p: nat, q: nat)
    requires OldestPending(jobs, p) && OldestPending(jobs, q)
    ensures p == q
  {
  }

  lemma {:induction false} ClaimFindsAJobIff(jobs: map<nat, Job>)
    ensures (exists pk :: OldestPending(jobs, pk)) <==> (exists pk :: pk in jobs && jobs[pk].status == Pending)
  {
    if seed :| seed in jobs && jobs[seed].status == Pending {
      var pk := OldestOfPending(jobs, PendingKeys(jobs), seed);
      assert OldestPending(jobs, pk);
    }
  }

  // ---- How often the jobs ahead can still be claimed ----

  ghost predicate HeldIn(s: State, pk: nat, claimed: bool) {
    exists w :: w in s.workers && s.workers[w].pk == pk && s.workers[w].phase.Claimed? == claimed
  }

  /** Claims job `pk` can still take if nothing resets or reschedules it. */
  ghost function ClaimsLeft(maxAttempts: int, s: State, pk: nat): nat {
    if pk !in s.jobs then 0
    else if s.jobs[pk].status == Pending then Max(1, maxAttempts - s.jobs[pk].attempts)
    else if s.jobs[pk].status != Processing then 0
    else if HeldIn(s, pk, true) then Max(0, maxAttempts - s.jobs[pk].attempts - 1)
    else if HeldIn(s, pk, false) then Max(0, maxAttempts - s.jobs[pk].attempts)
    else 0
  }

  ghost function Ahead(maxAttempts: int, s: State, mine: nat, pk: nat): nat
    requires mine in s.jobs
  {
    if pk in s.jobs && pk != mine && Before(s.jobs, pk, mine) then ClaimsLeft(maxAttempts, s, pk) else 0
  }

  /** Claims still to come from the jobs ahead of `mine` among the first `n` keys. */
  ghost function ClaimsAhead(maxAttempts: int, s: State, mine: nat, n: nat): nat
    requires mine in s.jobs
  {
    if n == 0 then 0 else ClaimsAhead(maxAttempts, s, mine, n - 1) + Ahead(maxAttempts, s, mine, n - 1)
  }

  ghost predicate PutsBack(e: Event) {
    e.ScheduleSave? || e.ResetStale?
  }

  lemma ClaimUsesUpAClaim(maxAttempts: int, s: State, e: Event, pk: nat)
    requires KeysKnown(s) && Ownership(s) && Enabled(s, e) && pk in s.jobs && e.Claim?
    ensures ClaimsLeft(maxAttempts, Step(maxAttempts, s, e), pk)
         <= ClaimsLeft(maxAttempts, s, pk) - (if e.pk == pk then 1 else 0)
  {
  }

  lemma ClaimsLeftByWorker(maxAttempts: int, s: State, e: Event, pk: nat)
    requires KeysKnown(s) && Ownership(s) && Enabled(s, e) && !PutsBack(e) && pk in s.jobs
    requires ByWorker(e) && !e.Claim?
    ensures ClaimsLeft(maxAttempts, Step(maxAttempts, s, e), pk) <= ClaimsLeft(maxAttempts, s, pk)
  {
  }

  lemma ClaimsLeftByOthers(maxAttempts: int, s: State, e: Event, pk: nat)
    requires KeysKnown(s) && Ownership(s) && Enabled(s, e) && !PutsBack(e) && pk in s.jobs
    requires !ByWorker(e)
    ensures ClaimsLeft(maxAttempts, Step(maxAttempts, s, e), pk) <= ClaimsLeft(maxAttempts, s, pk)
  {
  }

  /** One step never gives a job ahead more claims, and a claim uses one up. */
  lemma ClaimsLeftStep(maxAttempts: int, s: State, e: Event, pk: nat)
    requires KeysKnown(s) && Ownership(s) && Enabled(s, e) && !PutsBack(e) && pk in s.jobs
    ensures ClaimsLeft(maxAttempts, Step(maxAttempts, s, e), pk)
         <= ClaimsLeft(maxAttempts, s, pk) - (if e.Claim? && e.pk == pk then 1 else 0)
  {
    if e.Claim? {
      ClaimUsesUpAClaim(maxAttempts, s, e, pk);
    } else if ByWorker(e) {
      ClaimsLeftByWorker(maxAttempts, s, e, pk);
    } else {
      ClaimsLeftByOthers(maxAttempts, s, e, pk);
    }
  }

  lemma AheadStep(maxAttempts: int, s: State, e: Event, mine: nat, pk: nat)
    requires KeysKnown(s) && ClockAhead(s) && Ownership(s) && Enabled(s, e) && !PutsBack(e)
    requires mine in s.jobs && mine in Step(maxAttempts, s, e).jobs
    ensures Ahead(maxAttempts, Step(maxAttempts, s, e), mine, pk)
         <= Ahead(maxAttempts, s, mine, pk) -
            (if e.Claim? && e.pk == pk && pk != mine && Before(s.jobs, pk, mine) then 1 else 0)
  {
    var s' := Step(maxAttempts, s, e);
    PlaceIsKept(maxAttempts, s, e, mine);
    if pk in s.jobs {
      ClaimsLeftStep(maxAttempts, s, e, pk);
      if pk in s'.jobs { PlaceIsKept(maxAttempts, s, e, pk); }
    }
  }

  lemma {:induction false} AheadAddsUp(maxAttempts: int, s: State, s': State, mine: nat, taken: set<nat>, n: nat)
    requires mine in s.jobs && mine in s'.jobs
    requires forall pk: nat ::
               Ahead(maxAttempts, s', mine, pk) <= Ahead(maxAttempts, s, mine, pk) - if pk in taken then 1 else 0
    ensures forall pk :: pk in taken && pk < n ==>
              ClaimsAhead(maxAttempts, s', mine, n) <= ClaimsAhead(maxAttempts, s, mine, n) - 1
    ensures ClaimsAhead(maxAttempts, s', mine, n) <= ClaimsAhead(maxAttempts, s, mine, n)
  {
    if n > 0 { AheadAddsUp(maxAttempts, s, s', mine, taken, n - 1); }
  }

  lemma ClaimsAheadStep(maxAttempts: int, s: State, e: Event, mine: nat, n: nat)
    requires KeysKnown(s) && ClockAhead(s) && Ownership(s) && Enabled(s, e) && !PutsBack(e)
    requires mine in s.jobs && mine in Step(maxAttempts, s, e).jobs
    ensures ClaimsAhead(maxAttempts, Step(maxAttempts, s, e), mine, n)
         <= ClaimsAhead(maxAttempts, s, mine, n) -
            (if e.Claim? && e.pk < n && e.pk != mine && Before(s.jobs, e.pk, mine) then 1 else 0)
  {
    var taken := if e.Claim? && e.pk != mine && Before(s.jobs, e.pk, mine) then {e.pk} else {};
    forall pk: nat
      ensures Ahead(maxAttempts, Step(maxAttempts, s, e), mine, pk)
           <= Ahead(maxAttempts, s, mine, pk) - if pk in taken then 1 else 0
    {
      AheadStep(maxAttempts, s, e, mine, pk);
    }
    AheadAddsUp(maxAttempts, s, Step(maxAttempts, s, e), mine, taken, n);
  }

  /** Keys handed out later are never ahead. */
  lemma {:induction false} LaterKeysAreBehind(maxAttempts: int, s: State, mine: nat, n: nat)
    requires KeysKnown(s) && mine in s.jobs && s.next <= n
    ensures ClaimsAhead(maxAttempts, s, mine, n) == ClaimsAhead(maxAttempts, s, mine, s.next)
  {
    if s.next < n { LaterKeysAreBehind(maxAttempts, s, mine, n - 1); }
  }

  lemma ClockAheadStep(maxAttempts: int, s: State, e: Event)
    requires ClockAhead(s) && Enabled(s, e)
    ensures ClockAhead(Step(maxAttempts, s, e))
  {
  }

  function Claims(es: seq<Event>): nat {
    if es == [] then 0 else (if es[0].Claim? then 1 else 0) + Claims(es[1..])
  }

  ghost predicate NobodyClaims(es: seq<Event>, pk: nat) {
    forall e :: e in es && e.Claim? ==> e.pk != pk
  }

  ghost predicate NothingPutBack(es: seq<Event>) {
    forall e :: e in es ==> !PutsBack(e)
  }

  lemma WaitingJobStaysPending(maxAttempts: int, s: State, e: Event, pk: nat)
    requires KeysKnown(s) && Ownership(s) && Enabled(s, e) && pk in s.jobs && s.jobs[pk].status == Pending
    requires !(e.Claim? && e.pk == pk) && e != Cascade(pk) && !PutsBack(e)
    ensures pk in Step(maxAttempts, s, e).jobs && Step(maxAttempts, s, e).jobs[pk] == s.jobs[pk]
  {
  }

  /** While a PENDING job waits, every claim taken by another job is paid for by a job ahead of
      it: after at most `ClaimsAhead` claims its own turn comes. Holds from every state of the
      exclusive regime, for any number of workers, while new SMS keep arriving. */
  lemma {:induction false} BoundedBypass(maxAttempts: int, s: State, es: seq<Event>, pk: nat)
    requires KeysKnown(s) && ClockAhead(s) && Ownership(s) && Possible(maxAttempts, s, es)
    requires NothingPutBack(es) && NobodyClaims(es, pk) && Cascade(pk) !in es
    requires pk in s.jobs && s.jobs[pk].status == Pending
    ensures Claims(es) <= ClaimsAhead(maxAttempts, s, pk, s.next)
    decreases |es|
  {
    if es != [] {
      var e, s1 := es[0], Step(maxAttempts, s, es[0]);
      assert e in es;
      WaitingJobStaysPending(maxAttempts, s, e, pk);
      KeysKnownStep(maxAttempts, s, e);
      OwnershipStep(maxAttempts, s, e);
      ClockAheadStep(maxAttempts, s, e);
      BoundedBypass(maxAttempts, s1, es[1..], pk);
      ClaimsAheadStep(maxAttempts, s, e, pk, s1.next);
      LaterKeysAreBehind(maxAttempts, s, pk, s1.next);
    }
  }

  /** The sum of `max_attempts - attempts` over the unfinished jobs ahead of `mine` among the
      first `n` keys. */
  ghost function AttemptsAhead(maxAttempts: int, s: State, mine: nat, n: nat): nat
    requires mine in s.jobs
  {
    if n == 0 then 0
    else
      var pk := n - 1;
      AttemptsAhead(maxAttempts, s, mine, pk)
      + if pk in s.jobs && pk != mine && Before(s.jobs, pk, mine) && s.jobs[pk].status in {Pending, Processing}
        then Max(0, maxAttempts - s.jobs[pk].attempts) else 0
  }

  ghost predicate PendingBelowLimit(maxAttempts: int, s: State) {
    forall pk :: pk in s.jobs && s.jobs[pk].status == Pending ==> s.jobs[pk].attempts < maxAttempts
  }

  lemma PendingBelowLimitStep(maxAttempts: int, s: State, e: Event)
    requires 1 <= maxAttempts && Ownership(s) && PendingBelowLimit(maxAttempts, s) && Enabled(s, e) && !PutsBack(e)
    ensures PendingBelowLimit(maxAttempts, Step(maxAttempts, s, e))
  {
  }

  /** Without resets and reschedules only jobs below the attempt limit are ever pending. */
  lemma {:induction false} BelowLimitRun(maxAttempts: int, s: State, es: seq<Event>)
    requires 1 <= maxAttempts && Possible(maxAttempts, s, es) && NothingPutBack(es)
    requires KeysKnown(s) && ClockAhead(s) && Ownership(s) && PendingBelowLimit(maxAttempts, s)
    ensures var s' := Run(maxAttempts, s, es);
            KeysKnown(s') && ClockAhead(s') && Ownership(s') && PendingBelowLimit(maxAttempts, s')
    decreases |es|
  {
    if es != [] {
      var e := es[0];
      assert e in es;
      KeysKnownStep(maxAttempts, s, e);
      OwnershipStep(maxAttempts, s, e);
      ClockAheadStep(maxAttempts, s, e);
      PendingBelowLimitStep(maxAttempts, s, e);
      BelowLimitRun(maxAttempts, Step(maxAttempts, s, e), es[1..]);
    }
  }

  lemma {:induction false} BypassInAttempts(maxAttempts: int, s: State, mine: nat, n: nat)
    requires mine in s.jobs && PendingBelowLimit(maxAttempts, s)
    ensures ClaimsAhead(maxAttempts, s, mine, n) <= AttemptsAhead(maxAttempts, s, mine, n)
  {
    if n > 0 { BypassInAttempts(maxAttempts, s, mine, n - 1); }
  }

  /** From an empty table and without resets and reschedules: whenever a job is pending, at
      most the sum of `max_attempts - attempts` over its unfinished older jobs many claims
      pass before it is claimed itself. */
  lemma {:induction false} BoundedBypassFromStart(maxAttempts: int, past: seq<Event>, es: seq<Event>, pk: nat)
    requires 1 <= maxAttempts && Possible(maxAttempts, Init, past) && NothingPutBack(past)
    requires var s := Run(maxAttempts, Init, past);
             Possible(maxAttempts, s, es) && pk in s.jobs && s.jobs[pk].status == Pending
    requires NothingPutBack(es) && NobodyClaims(es, pk) && Cascade(pk) !in es
    ensures var s := Run(maxAttempts, Init, past);
            Claims(es) <= AttemptsAhead(maxAttempts, s, pk, s.next)
  {
    var s := Run(maxAttempts, Init, past);
    BelowLimitRun(maxAttempts, Init, past);
    BoundedBypass(maxAttempts, s, es, pk);
    BypassInAttempts(maxAttempts, s, pk, s.next);
  }
}
