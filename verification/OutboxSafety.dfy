/** What every interleaving of the outbox keeps, and what the exclusive regime adds. */
module OutboxSafety {
  import opened Common
  import opened Outbox
  import D = WebhookDelivery

  // ---- Every interleaving ----

  ghost predicate JobsKnown(s: State) {
    forall pk :: pk in s.jobs ==> pk < s.next
  }

  ghost predicate CopiesKnown(s: State) {
    forall w :: w in s.workers ==> s.workers[w].pk < s.next
  }

  ghost predicate SavesKnown(s: State) {
    forall t :: t in s.schedulers ==> s.schedulers[t] < s.next
  }

  ghost predicate LogsKnown(s: State) {
    forall pk :: pk in s.acked || pk in s.rounds || pk in s.posts || pk in s.putBacks ==> pk < s.next
  }

  /** Keys are never reused, and every key in the system was once handed out. */
  ghost predicate KeysKnown(s: State) {
    JobsKnown(s) && CopiesKnown(s) && SavesKnown(s) && LogsKnown(s)
  }

  /** At most one job exists per SMS. */
  ghost predicate OneJobPerSms(s: State) {
    forall p, q :: p in s.jobs && q in s.jobs && s.jobs[p].ref == s.jobs[q].ref ==> p == q
  }

  ghost predicate AckedIsLogged(s: State) {
    forall w :: w in s.workers && s.workers[w].phase == Done(Acked) ==> s.workers[w].pk in s.acked
  }

  ghost predicate DeliveredIsLogged(s: State) {
    forall pk :: pk in s.jobs && s.jobs[pk].status == Delivered ==>
      pk in s.acked && s.jobs[pk].lastError == "" && s.jobs[pk].deliveredAt.Some?
  }

  /** DELIVERED is backed by a delivery that returned True. */
  ghost predicate Backed(s: State) {
    AckedIsLogged(s) && DeliveredIsLogged(s)
  }

  ghost predicate Sound(s: State) {
    KeysKnown(s) && OneJobPerSms(s) && Backed(s)
  }

  lemma JobsKnownStep(maxAttempts: int, s: State, e: Event)
    requires JobsKnown(s) && Enabled(s, e)
    ensures JobsKnown(Step(maxAttempts, s, e))
  {
  }

  lemma CopiesKnownStep(maxAttempts: int, s: State, e: Event)
    requires JobsKnown(s) && CopiesKnown(s) && Enabled(s, e)
    ensures CopiesKnown(Step(maxAttempts, s, e))
  {
  }

  lemma SavesKnownStep(maxAttempts: int, s: State, e: Event)
    requires JobsKnown(s) && SavesKnown(s) && Enabled(s, e)
    ensures SavesKnown(Step(maxAttempts, s, e))
  {
  }

  lemma LogsKnownStep(maxAttempts: int, s: State, e: Event)
    requires KeysKnown(s) && Enabled(s, e)
    ensures LogsKnown(Step(maxAttempts, s, e))
  {
  }

  lemma KeysKnownStep(maxAttempts: int, s: State, e: Event)
    requires KeysKnown(s) && Enabled(s, e)
    ensures KeysKnown(Step(maxAttempts, s, e))
  {
    JobsKnownStep(maxAttempts, s, e);
    CopiesKnownStep(maxAttempts, s, e);
    SavesKnownStep(maxAttempts, s, e);
    LogsKnownStep(maxAttempts, s, e);
  }

  /** No step changes the SMS of a job, and a new job is for an SMS without one. */
  lemma RefsAreKept(maxAttempts: int, s: State, e: Event, pk: nat)
    requires Enabled(s, e) && pk in Step(maxAttempts, s, e).jobs
    ensures var ref := Step(maxAttempts, s, e).jobs[pk].ref;
            if pk in s.jobs then ref == s.jobs[pk].ref else e.ScheduleRead? && e.pk == pk && e.ref == ref
  {
  }

  lemma OneJobPerSmsStep(maxAttempts: int, s: State, e: Event)
    requires OneJobPerSms(s) && Enabled(s, e)
    ensures OneJobPerSms(Step(maxAttempts, s, e))
  {
    var s' := Step(maxAttempts, s, e);
    forall p, q | p in s'.jobs && q in s'.jobs && s'.jobs[p].ref == s'.jobs[q].ref ensures p == q {
      RefsAreKept(maxAttempts, s, e, p);
      RefsAreKept(maxAttempts, s, e, q);
    }
  }

  lemma AckedIsLoggedStep(maxAttempts: int, s: State, e: Event)
    requires Backed(s) && Enabled(s, e)
    ensures AckedIsLogged(Step(maxAttempts, s, e))
  {
  }

  lemma DeliveredIsLoggedByWorker(maxAttempts: int, s: State, e: Event)
    requires Backed(s) && Enabled(s, e) && ByWorker(e)
    ensures DeliveredIsLogged(Step(maxAttempts, s, e))
  {
  }

  lemma DeliveredIsLoggedByOthers(maxAttempts: int, s: State, e: Event)
    requires Backed(s) && Enabled(s, e) && !ByWorker(e)
    ensures DeliveredIsLogged(Step(maxAttempts, s, e))
  {
  }

  lemma DeliveredIsLoggedStep(maxAttempts: int, s: State, e: Event)
    requires Backed(s) && Enabled(s, e)
    ensures DeliveredIsLogged(Step(maxAttempts, s, e))
  {
    if ByWorker(e) {
      DeliveredIsLoggedByWorker(maxAttempts, s, e);
    } else {
      DeliveredIsLoggedByOthers(maxAttempts, s, e);
    }
  }

  lemma BackedStep(maxAttempts: int, s: State, e: Event)
    requires Backed(s) && Enabled(s, e)
    ensures Backed(Step(maxAttempts, s, e))
  {
    AckedIsLoggedStep(maxAttempts, s, e);
    DeliveredIsLoggedStep(maxAttempts, s, e);
  }

  lemma {:induction false} SoundRun(maxAttempts: int, s: State, es: seq<Event>)
    requires Sound(s) && Possible(maxAttempts, s, es)
    ensures Sound(Run(maxAttempts, s, es))
    decreases |es|
  {
    if es != [] {
      KeysKnownStep(maxAttempts, s, es[0]);
      OneJobPerSmsStep(maxAttempts, s, es[0]);
      BackedStep(maxAttempts, s, es[0]);
      SoundRun(maxAttempts, Step(maxAttempts, s, es[0]), es[1..]);
    }
  }

  /** `schedule` is idempotent: no run ever holds two jobs for one SMS. */
  lemma {:induction false} NeverTwoJobsForOneSms(maxAttempts: int, es: seq<Event>, p: nat, q: nat)
    requires Possible(maxAttempts, Init, es)
    requires p in Run(maxAttempts, Init, es).jobs && q in Run(maxAttempts, Init, es).jobs && p != q
    ensures Run(maxAttempts, Init, es).jobs[p].ref != Run(maxAttempts, Init, es).jobs[q].ref
  {
    SoundRun(maxAttempts, Init, es);
  }

  lemma {:induction false} PrefixPossible(maxAttempts: int, s: State, es: seq<Event>, n: nat)
    requires Possible(maxAttempts, s, es) && n <= |es|
    ensures Possible(maxAttempts, s, es[..n])
    decreases |es|
  {
    if n > 0 {
      PrefixPossible(maxAttempts, Step(maxAttempts, s, es[0]), es[1..], n - 1);
      assert es[..n][1..] == es[1..][..n - 1];
    }
  }

  /** Event `i` of the run is a delivery of job `pk` that every URL acknowledged. */
  ghost predicate AckedAt(maxAttempts: int, s: State, es: seq<Event>, i: nat, pk: nat)
    requires Possible(maxAttempts, s, es)
  {
    && i < |es| && es[i].Deliver? && ReachesAll(es[i].round)
    && (PrefixPossible(maxAttempts, s, es, i);
        var t := Run(maxAttempts, s, es[..i]);
        es[i].worker in t.workers && t.workers[es[i].worker].pk == pk)
  }

  /** `acked` is an honest log: a job enters it only by a round of that job that reached every URL. */
  lemma {:induction false} AcknowledgedByADelivery(maxAttempts: int, s: State, es: seq<Event>, pk: nat) returns (i: nat)
    requires Possible(maxAttempts, s, es)
    requires pk in Run(maxAttempts, s, es).acked && pk !in s.acked
    ensures AckedAt(maxAttempts, s, es, i, pk)
    decreases |es|
  {
    var s1 := Step(maxAttempts, s, es[0]);
    if pk in s1.acked {
      i := 0;
      assert es[..0] == [];
    } else {
      var j := AcknowledgedByADelivery(maxAttempts, s1, es[1..], pk);
      i := j + 1;
      assert es[..i][1..] == es[1..][..j];
    }
  }

  /** In every run from an empty table, whatever resets, reschedules and stale workers do, a
      job stored as DELIVERED had a delivery that every URL acknowledged, carries no error and
      has a delivery time. */
  lemma {:induction false} DeliveredMeansAcknowledged(maxAttempts: int, es: seq<Event>, pk: nat)
    requires Possible(maxAttempts, Init, es)
    ensures var s := Run(maxAttempts, Init, es);
            pk in s.jobs && s.jobs[pk].status == Delivered ==>
              && (exists i :: AckedAt(maxAttempts, Init, es, i, pk))
              && s.jobs[pk].lastError == "" && s.jobs[pk].deliveredAt.Some?
  {
    SoundRun(maxAttempts, Init, es);
    if pk in Run(maxAttempts, Init, es).acked {
      var i := AcknowledgedByADelivery(maxAttempts, Init, es, pk);
    }
  }

  // ---- Ownership ----

  ghost predicate HeldIsProcessing(s: State) {
    forall w :: w in s.workers && s.workers[w].pk in s.jobs ==> s.jobs[s.workers[w].pk].status == Processing
  }

  ghost predicate CopyAgrees(s: State) {
    forall w :: w in s.workers && s.workers[w].pk in s.jobs ==>
      s.jobs[s.workers[w].pk].attempts == s.workers[w].attempts
  }

  ghost predicate SingleOwner(s: State) {
    forall v, w :: v in s.workers && w in s.workers && s.workers[v].pk == s.workers[w].pk ==> v == w
  }

  /** Every live worker's job is PROCESSING in the table, agrees with the copy on `attempts`,
      and no two live workers hold the same job. */
  ghost predicate Ownership(s: State) {
    HeldIsProcessing(s) && CopyAgrees(s) && SingleOwner(s)
  }

  lemma HeldIsProcessingStep(maxAttempts: int, s: State, e: Event)
    requires KeysKnown(s) && Ownership(s) && Enabled(s, e) && ExclusiveEvent(s, e)
    ensures HeldIsProcessing(Step(maxAttempts, s, e))
  {
  }

  lemma CopyAgreesByWorker(maxAttempts: int, s: State, e: Event)
    requires Ownership(s) && Enabled(s, e) && ByWorker(e)
    ensures CopyAgrees(Step(maxAttempts, s, e))
  {
  }

  lemma CopyAgreesByOthers(maxAttempts: int, s: State, e: Event)
    requires KeysKnown(s) && Ownership(s) && Enabled(s, e) && !ByWorker(e)
    ensures CopyAgrees(Step(maxAttempts, s, e))
  {
  }

  lemma CopyAgreesStep(maxAttempts: int, s: State, e: Event)
    requires KeysKnown(s) && Ownership(s) && Enabled(s, e)
    ensures CopyAgrees(Step(maxAttempts, s, e))
  {
    if ByWorker(e) { CopyAgreesByWorker(maxAttempts, s, e); } else { CopyAgreesByOthers(maxAttempts, s, e); }
  }

  lemma SingleOwnerStep(maxAttempts: int, s: State, e: Event)
    requires KeysKnown(s) && Ownership(s) && Enabled(s, e)
    ensures SingleOwner(Step(maxAttempts, s, e))
  {
    if e.Claim? && Owned(s, e.pk) { assert false; }
  }

  /** The exclusive regime keeps ownership. */
  lemma OwnershipStep(maxAttempts: int, s: State, e: Event)
    requires KeysKnown(s) && Ownership(s) && Enabled(s, e) && ExclusiveEvent(s, e)
    ensures Ownership(Step(maxAttempts, s, e))
  {
    HeldIsProcessingStep(maxAttempts, s, e);
    CopyAgreesStep(maxAttempts, s, e);
    SingleOwnerStep(maxAttempts, s, e);
  }

  lemma {:induction false} OwnershipRun(maxAttempts: int, s: State, es: seq<Event>)
    requires KeysKnown(s) && Ownership(s) && Possible(maxAttempts, s, es) && Exclusive(maxAttempts, s, es)
    ensures KeysKnown(Run(maxAttempts, s, es)) && Ownership(Run(maxAttempts, s, es))
    decreases |es|
  {
    if es != [] {
      KeysKnownStep(maxAttempts, s, es[0]);
      OwnershipStep(maxAttempts, s, es[0]);
      OwnershipRun(maxAttempts, Step(maxAttempts, s, es[0]), es[1..]);
    }
  }

  /** In every exclusive run no two live workers hold the same job, and a held job is
      PROCESSING. */
  lemma {:induction false} OneOwnerPerJob(maxAttempts: int, es: seq<Event>, v: nat, w: nat)
    requires Possible(maxAttempts, Init, es) && Exclusive(maxAttempts, Init, es)
    requires var s := Run(maxAttempts, Init, es); v in s.workers && w in s.workers
    ensures var s := Run(maxAttempts, Init, es);
            && (s.workers[v].pk == s.workers[w].pk ==> v == w)
            && (s.workers[v].pk in s.jobs ==> s.jobs[s.workers[v].pk].status == Processing)
  {
    OwnershipRun(maxAttempts, Init, es);
  }

  // ---- The exclusive regime is exactly what one owner per job takes ----

  ghost predicate TwoOwners(s: State, pk: nat) {
    exists v, w :: v in s.workers && w in s.workers && v != w && s.workers[v].pk == pk && s.workers[w].pk == pk
  }

  /** However the run goes on in the exclusive regime, no job gets a second live owner. */
  ghost predicate NeverTwoOwners(maxAttempts: int, s: State) {
    forall es: seq<Event>, pk: nat | Possible(maxAttempts, s, es) && Exclusive(maxAttempts, s, es) ::
      !TwoOwners(Run(maxAttempts, s, es), pk)
  }

  function PendingKeys(jobs: map<nat, Job>): set<nat> {
    set pk | pk in jobs && jobs[pk].status == Pending
  }

  lemma {:induction false} FreeWorker(ws: set<nat>) returns (n: nat)
    ensures forall w :: w in ws ==> w < n
    decreases ws
  {
    n := 0;
    if ws != {} {
      var w :| w in ws;
      var m := FreeWorker(ws - {w});
      n := Max(m, w + 1);
      assert forall v :: v in ws ==> v == w || v in ws - {w};
    }
  }

  /** A held job that is pending again: fresh workers claim the oldest pending jobs until one of
      them claims it. */
  lemma {:induction false} PendingWhileHeld(maxAttempts: int, s: State, pk: nat, v: nat) returns (es: seq<Event>)
    requires pk in s.jobs && s.jobs[pk].status == Pending && v in s.workers && s.workers[v].pk == pk
    ensures Possible(maxAttempts, s, es) && Exclusive(maxAttempts, s, es)
    ensures TwoOwners(Run(maxAttempts, s, es), pk)
    decreases |PendingKeys(s.jobs)|
  {
    var oldest := OldestOfPending(s.jobs, PendingKeys(s.jobs), pk);
    var w := FreeWorker(s.workers.Keys);
    var claim := Claim(w, oldest);
    var s1 := Step(maxAttempts, s, claim);
    assert s1.workers[v] == s.workers[v];
    if oldest == pk {
      assert s1.workers[w].pk == pk && v != w;
      es := [];
    } else {
      assert PendingKeys(s1.jobs) == PendingKeys(s.jobs) - {oldest};
      es := PendingWhileHeld(maxAttempts, s1, pk, v);
    }
    RunCons(maxAttempts, s, claim, es);
    assert ([claim] + es)[1..] == es;
    es := [claim] + es;
  }

  lemma {:induction false} OldestOfPending(jobs: map<nat, Job>, among: set<nat>, seed: nat) returns (pk: nat)
    requires seed in among && (forall q :: q in among ==> q in jobs && jobs[q].status == Pending)
    ensures pk in among && forall q :: q in among && q != pk ==> Before(jobs, pk, q)
    decreases among
  {
    pk := seed;
    if q :| q in among && q != seed {
      var rest := OldestOfPending(jobs, among - {seed}, q);
      pk := if Before(jobs, rest, seed) then rest else seed;
      forall r | r in among && r != pk ensures Before(jobs, pk, r) {
        assert r == seed || r in among - {seed};
      }
    }
  }

  /** A step outside the regime puts some held job back to PENDING. */
  lemma OutsideTheRegime(maxAttempts: int, s: State, e: Event) returns (pk: nat, v: nat)
    requires Ownership(s) && Enabled(s, e) && !ExclusiveEvent(s, e)
    ensures var s' := Step(maxAttempts, s, e);
            pk in s'.jobs && s'.jobs[pk].status == Pending && v in s'.workers && s'.workers[v].pk == pk
  {
    if e.ScheduleSave? {
      pk := s.schedulers[e.thread];
    } else {
      pk :| pk in s.jobs && Stale(s.jobs[pk], e.cutoff) && Owned(s, pk);
    }
    v :| v in s.workers && s.workers[v].pk == pk;
  }

  lemma OwnersStaySingle(maxAttempts: int, s: State)
    requires KeysKnown(s) && Ownership(s)
    ensures NeverTwoOwners(maxAttempts, s)
  {
    forall es: seq<Event>, pk: nat | Possible(maxAttempts, s, es) && Exclusive(maxAttempts, s, es)
      ensures !TwoOwners(Run(maxAttempts, s, es), pk)
    {
      OwnershipRun(maxAttempts, s, es);
    }
  }

  /** The regime is exact. A step leaves every exclusive continuation with one owner per job
      iff it is itself exclusive: any other step lets a second worker claim a held job. */
  lemma OneOwnerIffExclusive(maxAttempts: int, s: State, e: Event)
    requires KeysKnown(s) && Ownership(s) && Enabled(s, e)
    ensures NeverTwoOwners(maxAttempts, Step(maxAttempts, s, e)) <==> ExclusiveEvent(s, e)
  {
    if ExclusiveEvent(s, e) {
      KeysKnownStep(maxAttempts, s, e);
      OwnershipStep(maxAttempts, s, e);
      OwnersStaySingle(maxAttempts, Step(maxAttempts, s, e));
    } else {
      var pk, v := OutsideTheRegime(maxAttempts, s, e);
      var es := PendingWhileHeld(maxAttempts, Step(maxAttempts, s, e), pk, v);
    }
  }

  /** For a reset: iff no job old enough to be reset has a live owner. */
  lemma ResetKeepsOwnershipIff(maxAttempts: int, s: State, cutoff: nat)
    requires KeysKnown(s) && Ownership(s)
    ensures NeverTwoOwners(maxAttempts, Step(maxAttempts, s, ResetStale(cutoff))) <==>
            forall w :: w in s.workers && s.workers[w].pk in s.jobs ==> cutoff <= s.jobs[s.workers[w].pk].updatedAt
  {
    OneOwnerIffExclusive(maxAttempts, s, ResetStale(cutoff));
    forall w | w in s.workers && s.workers[w].pk in s.jobs ensures Owned(s, s.workers[w].pk) {}
  }

  /** And for the save of a reschedule: iff its job has no live owner. */
  lemma RescheduleKeepsOwnershipIff(maxAttempts: int, s: State, t: nat)
    requires KeysKnown(s) && Ownership(s) && Enabled(s, ScheduleSave(t))
    ensures NeverTwoOwners(maxAttempts, Step(maxAttempts, s, ScheduleSave(t))) <==> !Owned(s, s.schedulers[t])
  {
    OneOwnerIffExclusive(maxAttempts, s, ScheduleSave(t));
  }

  /** Outside the regime ownership fails: a reschedule under a live worker lets a second
      worker claim the same job. */
  lemma RescheduleUnderALiveWorkerGivesTwoOwners(maxAttempts: int)
    ensures exists es :: Possible(maxAttempts, Init, es) &&
              var s := Run(maxAttempts, Init, es);
              0 in s.workers && 1 in s.workers && s.workers[0].pk == s.workers[1].pk
  {
    var read := ScheduleRead(0, Inbound(7), 0);
    var s1 := Step(maxAttempts, Init, read);
    var s2 := Step(maxAttempts, s1, Claim(0, 0));
    var s3 := Step(maxAttempts, s2, read);
    var s4 := Step(maxAttempts, s3, ScheduleSave(0));
    var es := [Claim(1, 0)];
    RunCons(maxAttempts, s4, Claim(1, 0), []);
    RunCons(maxAttempts, s3, ScheduleSave(0), es);
    es := [ScheduleSave(0)] + es;
    RunCons(maxAttempts, s2, read, es);
    es := [read] + es;
    RunCons(maxAttempts, s1, Claim(0, 0), es);
    es := [Claim(0, 0)] + es;
    RunCons(maxAttempts, Init, read, es);
    es := [read] + es;
  }

  // ---- DELIVERED is final ----

  /** The only two writes that take a job out of DELIVERED, in any interleaving: the save of a
      scheduler that read the job earlier, and the finalize of another worker whose own
      delivery failed. (Deleting the SMS removes the row.) */
  ghost predicate Undoes(s: State, e: Event, pk: nat)
    requires Enabled(s, e)
  {
    match e
    case ScheduleSave(t) => s.schedulers[t] == pk
    case Finalize(w) => s.workers[w].pk == pk && s.workers[w].phase.outcome.Refused?
    case _ => false
  }

  lemma DeliveredIsLeftIff(maxAttempts: int, s: State, e: Event, pk: nat)
    requires KeysKnown(s) && Enabled(s, e) && e != Cascade(pk)
    requires pk in s.jobs && s.jobs[pk].status == Delivered
    ensures pk in Step(maxAttempts, s, e).jobs
    ensures Step(maxAttempts, s, e).jobs[pk].status != Delivered <==> Undoes(s, e, pk)
  {
  }

  /** A `schedule` call has read the job as undelivered and is yet to save it. */
  ghost predicate SavePending(s: State, pk: nat) {
    exists t :: t in s.schedulers && s.schedulers[t] == pk
  }

  lemma DeliveredStaysOneStep(maxAttempts: int, s: State, e: Event, pk: nat)
    requires KeysKnown(s) && Ownership(s) && Enabled(s, e) && ExclusiveEvent(s, e) && e != Cascade(pk)
    requires pk in s.jobs && s.jobs[pk].status == Delivered && !SavePending(s, pk)
    ensures var s' := Step(maxAttempts, s, e);
            pk in s'.jobs && s'.jobs[pk] == s.jobs[pk] && !SavePending(s', pk)
  {
    var s' := Step(maxAttempts, s, e);
    DeliveredIsLeftIff(maxAttempts, s, e, pk);
    forall t | t in s'.schedulers ensures s'.schedulers[t] != pk {
      assert t in s.schedulers ==> s.schedulers[t] != pk;
    }
  }

  /** In the exclusive regime DELIVERED is never left, once no `schedule` call is in the middle
      of its work on the job. */
  lemma {:induction false} DeliveredIsFinal(maxAttempts: int, s: State, es: seq<Event>, pk: nat)
    requires KeysKnown(s) && Ownership(s) && Possible(maxAttempts, s, es) && Exclusive(maxAttempts, s, es)
    requires pk in s.jobs && s.jobs[pk].status == Delivered && !SavePending(s, pk) && Cascade(pk) !in es
    ensures var s' := Run(maxAttempts, s, es); pk in s'.jobs && s'.jobs[pk] == s.jobs[pk]
    decreases |es|
  {
    if es != [] {
      assert es[0] in es;
      DeliveredStaysOneStep(maxAttempts, s, es[0], pk);
      KeysKnownStep(maxAttempts, s, es[0]);
      OwnershipStep(maxAttempts, s, es[0]);
      DeliveredIsFinal(maxAttempts, Step(maxAttempts, s, es[0]), es[1..], pk);
    }
  }

  ghost predicate NeverLeavesDelivered(maxAttempts: int, s: State, pk: nat) {
    forall es: seq<Event> | Possible(maxAttempts, s, es) && Exclusive(maxAttempts, s, es) && Cascade(pk) !in es ::
      pk in Run(maxAttempts, s, es).jobs && Run(maxAttempts, s, es).jobs[pk].status == Delivered
  }

  /** And that condition is exact: a pending save may still undo the delivery. */
  lemma DeliveredIsFinalIff(maxAttempts: int, s: State, pk: nat)
    requires KeysKnown(s) && Ownership(s) && pk in s.jobs && s.jobs[pk].status == Delivered
    ensures NeverLeavesDelivered(maxAttempts, s, pk) <==> !SavePending(s, pk)
  {
    if t :| t in s.schedulers && s.schedulers[t] == pk {
      var save := ScheduleSave(t);
      RunCons(maxAttempts, s, save, []);
      assert [save] + [] == [save] && Run(maxAttempts, s, [save]).jobs[pk].status == Pending;
      assert Exclusive(maxAttempts, s, [save]) && Cascade(pk) !in [save];
    } else {
      forall es: seq<Event> | Possible(maxAttempts, s, es) && Exclusive(maxAttempts, s, es) && Cascade(pk) !in es
        ensures pk in Run(maxAttempts, s, es).jobs && Run(maxAttempts, s, es).jobs[pk].status == Delivered
      {
        DeliveredIsFinal(maxAttempts, s, es, pk);
      }
    }
  }

  // ---- Abandoned jobs ----

  /** A job whose worker died, or whose bump or finalize raised, stays PROCESSING: only a
      reset, a reschedule or the deletion of its SMS moves it on, and no worker picks it up. */
  ghost predicate Orphaned(s: State, pk: nat) {
    pk in s.jobs && s.jobs[pk].status == Processing && !Owned(s, pk)
  }

  lemma {:induction false} OrphanWaitsForReset(maxAttempts: int, s: State, e: Event, pk: nat)
    requires KeysKnown(s) && Orphaned(s, pk) && Enabled(s, e)
    ensures Orphaned(Step(maxAttempts, s, e), pk) <==>
            !( || (e.ScheduleSave? && s.schedulers[e.thread] == pk)
               || (e.ResetStale? && Stale(s.jobs[pk], e.cutoff))
               || e == Cascade(pk))
  {
    var s' := Step(maxAttempts, s, e);
    if Owned(s', pk) {
      var w :| w in s'.workers && s'.workers[w].pk == pk;
      assert w !in s.workers || s.workers[w].pk != pk;
    }
  }

  lemma AbandonOrphans(maxAttempts: int, s: State, w: nat, round: Round, spent: nat)
    requires Ownership(s) && Enabled(s, Abandon(w, round, spent)) && s.workers[w].pk in s.jobs
    ensures Orphaned(Step(maxAttempts, s, Abandon(w, round, spent)), s.workers[w].pk)
  {
  }

  // ---- Delivery rounds ----

  /** Deliveries of `pk` are still to come from its present status or its present owner. */
  ghost predicate RoundDue(s: State, pk: nat) {
    || (pk in s.jobs && s.jobs[pk].status == Pending)
    || (exists w :: w in s.workers && s.workers[w].pk == pk && !s.workers[w].phase.Done?)
  }

  ghost function Allowance(maxAttempts: int, s: State, pk: nat): int {
    Max(1, maxAttempts) + Count(s.putBacks, pk)
  }

  ghost predicate TableCoversRounds(s: State, pk: nat) {
    pk in s.jobs ==> Count(s.rounds, pk) <= s.jobs[pk].attempts
  }

  ghost predicate CopiesCoverRounds(s: State, pk: nat) {
    forall w :: w in s.workers && s.workers[w].pk == pk ==>
      Count(s.rounds, pk) + (if s.workers[w].phase == Bumped then 1 else 0) <= s.workers[w].attempts
  }

  /** Every round was counted in `attempts` before it began; a bump may count more than one. */
  ghost predicate AttemptsCoverRounds(s: State, pk: nat) {
    TableCoversRounds(s, pk) && CopiesCoverRounds(s, pk)
  }

  ghost predicate RoundsWithin(maxAttempts: int, s: State, pk: nat) {
    Count(s.rounds, pk) + (if RoundDue(s, pk) then 1 else 0) <= Allowance(maxAttempts, s, pk)
  }

  lemma TableCoversRoundsStep(maxAttempts: int, s: State, e: Event, pk: nat)
    requires KeysKnown(s) && Ownership(s) && AttemptsCoverRounds(s, pk) && Enabled(s, e) && ExclusiveEvent(s, e)
    ensures TableCoversRounds(Step(maxAttempts, s, e), pk)
  {
  }

  lemma CopiesCoverRoundsByWorker(maxAttempts: int, s: State, e: Event, pk: nat)
    requires Ownership(s) && AttemptsCoverRounds(s, pk) && Enabled(s, e) && ByWorker(e)
    ensures CopiesCoverRounds(Step(maxAttempts, s, e), pk)
  {
  }

  lemma CopiesCoverRoundsByOthers(maxAttempts: int, s: State, e: Event, pk: nat)
    requires CopiesCoverRounds(s, pk) && Enabled(s, e) && !ByWorker(e)
    ensures CopiesCoverRounds(Step(maxAttempts, s, e), pk)
  {
  }

  lemma CopiesCoverRoundsStep(maxAttempts: int, s: State, e: Event, pk: nat)
    requires Ownership(s) && AttemptsCoverRounds(s, pk) && Enabled(s, e)
    ensures CopiesCoverRounds(Step(maxAttempts, s, e), pk)
  {
    if ByWorker(e) {
      CopiesCoverRoundsByWorker(maxAttempts, s, e, pk);
    } else {
      CopiesCoverRoundsByOthers(maxAttempts, s, e, pk);
    }
  }

  lemma AttemptsCoverRoundsStep(maxAttempts: int, s: State, e: Event, pk: nat)
    requires KeysKnown(s) && Ownership(s) && AttemptsCoverRounds(s, pk) && Enabled(s, e) && ExclusiveEvent(s, e)
    ensures AttemptsCoverRounds(Step(maxAttempts, s, e), pk)
  {
    TableCoversRoundsStep(maxAttempts, s, e, pk);
    CopiesCoverRoundsStep(maxAttempts, s, e, pk);
  }

  lemma RoundsWithinByTaking(maxAttempts: int, s: State, e: Event, pk: nat)
    requires KeysKnown(s) && Ownership(s) && AttemptsCoverRounds(s, pk) && RoundsWithin(maxAttempts, s, pk)
    requires Enabled(s, e) && (e.Claim? || e.Bump? || e.Finalize?)
    ensures RoundsWithin(maxAttempts, Step(maxAttempts, s, e), pk)
  {
  }

  lemma RoundsWithinByDelivering(maxAttempts: int, s: State, e: Event, pk: nat)
    requires KeysKnown(s) && Ownership(s) && AttemptsCoverRounds(s, pk) && RoundsWithin(maxAttempts, s, pk)
    requires Enabled(s, e) && (e.Deliver? || e.DeliverRaise? || e.Abandon?)
    ensures RoundsWithin(maxAttempts, Step(maxAttempts, s, e), pk)
  {
  }

  lemma RoundsWithinByOthers(maxAttempts: int, s: State, e: Event, pk: nat)
    requires KeysKnown(s) && Ownership(s) && AttemptsCoverRounds(s, pk) && RoundsWithin(maxAttempts, s, pk)
    requires Enabled(s, e) && ExclusiveEvent(s, e)
    requires !ByWorker(e)
    ensures RoundsWithin(maxAttempts, Step(maxAttempts, s, e), pk)
  {
  }

  lemma RoundsWithinStep(maxAttempts: int, s: State, e: Event, pk: nat)
    requires KeysKnown(s) && Ownership(s) && AttemptsCoverRounds(s, pk) && RoundsWithin(maxAttempts, s, pk)
    requires Enabled(s, e) && ExclusiveEvent(s, e)
    ensures RoundsWithin(maxAttempts, Step(maxAttempts, s, e), pk)
  {
    if e.Claim? || e.Bump? || e.Finalize? {
      RoundsWithinByTaking(maxAttempts, s, e, pk);
    } else if ByWorker(e) {
      RoundsWithinByDelivering(maxAttempts, s, e, pk);
    } else {
      RoundsWithinByOthers(maxAttempts, s, e, pk);
    }
  }

  lemma {:induction false} RoundsWithinRun(maxAttempts: int, s: State, es: seq<Event>, pk: nat)
    requires KeysKnown(s) && Ownership(s) && AttemptsCoverRounds(s, pk) && RoundsWithin(maxAttempts, s, pk)
    requires Possible(maxAttempts, s, es) && Exclusive(maxAttempts, s, es)
    ensures RoundsWithin(maxAttempts, Run(maxAttempts, s, es), pk)
    decreases |es|
  {
    if es != [] {
      KeysKnownStep(maxAttempts, s, es[0]);
      OwnershipStep(maxAttempts, s, es[0]);
      AttemptsCoverRoundsStep(maxAttempts, s, es[0], pk);
      RoundsWithinStep(maxAttempts, s, es[0], pk);
      RoundsWithinRun(maxAttempts, Step(maxAttempts, s, es[0]), es[1..], pk);
    }
  }

  /** In every exclusive run a job gets at most `max_attempts` delivery rounds, plus one for
      each time a reset or a reschedule put it back. (With `max_attempts` below one it still
      gets its first round: the limit is only read after a delivery.) */
  lemma {:induction false} BoundedRounds(maxAttempts: int, es: seq<Event>, pk: nat)
    requires Possible(maxAttempts, Init, es) && Exclusive(maxAttempts, Init, es)
    ensures var s := Run(maxAttempts, Init, es);
            Count(s.rounds, pk) <= Max(1, maxAttempts) + Count(s.putBacks, pk)
  {
    RoundsWithinRun(maxAttempts, Init, es, pk);
  }

  // ---- HTTP posts ----

  /** No round of the run knows more than `urls` URLs or posts to one more than `retryMax` times. */
  ghost predicate RoundsCost(es: seq<Event>, urls: nat, retryMax: int) {
    forall e :: e in es && (e.Deliver? || e.DeliverRaise? || e.Abandon?) ==>
      |e.round.urls| <= urls && e.round.retryMax <= retryMax
  }

  /** No round makes more posts than one that is not cut short. */
  lemma RoundCost(round: Round, spent: nat, urls: nat, retryMax: int)
    requires |round.urls| <= urls && round.retryMax <= retryMax && spent <= |PostsOf(round)|
    ensures spent <= |PostsOf(round)| <= urls * Max(0, retryMax)
  {
    D.PostsBounded(round.urls, round.retryMax, round.answers, |round.urls|);
    MulMono(|round.urls|, Max(0, round.retryMax), urls, Max(0, retryMax));
  }

  lemma PostsStep(maxAttempts: int, s: State, e: Event, pk: nat, urls: nat, retryMax: int)
    requires Enabled(s, e) && RoundsCost([e], urls, retryMax)
    requires Count(s.posts, pk) <= Count(s.rounds, pk) * (urls * Max(0, retryMax))
    ensures var s' := Step(maxAttempts, s, e);
            Count(s'.posts, pk) <= Count(s'.rounds, pk) * (urls * Max(0, retryMax))
  {
    var cost := urls * Max(0, retryMax);
    assert e in [e];
    assert (Count(s.rounds, pk) + 1) * cost == Count(s.rounds, pk) * cost + cost;
    if e.Deliver? {
      RoundCost(e.round, 0, urls, retryMax);
    } else if e.DeliverRaise? || e.Abandon? {
      RoundCost(e.round, e.spent, urls, retryMax);
    }
  }

  lemma {:induction false} PostsRun(maxAttempts: int, s: State, es: seq<Event>, pk: nat, urls: nat, retryMax: int)
    requires Possible(maxAttempts, s, es) && RoundsCost(es, urls, retryMax)
    requires Count(s.posts, pk) <= Count(s.rounds, pk) * (urls * Max(0, retryMax))
    ensures var s' := Run(maxAttempts, s, es);
            Count(s'.posts, pk) <= Count(s'.rounds, pk) * (urls * Max(0, retryMax))
    decreases |es|
  {
    if es != [] {
      assert es[0] in es;
      PostsStep(maxAttempts, s, es[0], pk, urls, retryMax);
      PostsRun(maxAttempts, Step(maxAttempts, s, es[0]), es[1..], pk, urls, retryMax);
    }
  }

  /** An exclusive run makes at most `(max_attempts + put-backs) * retry_max * urls` posts for
      one job: without resets and reschedules, `max_attempts * retry_max * urls`. */
  lemma {:induction false} BoundedPosts(maxAttempts: int, es: seq<Event>, pk: nat, urls: nat, retryMax: int)
    requires Possible(maxAttempts, Init, es) && Exclusive(maxAttempts, Init, es)
    requires RoundsCost(es, urls, retryMax)
    ensures var s := Run(maxAttempts, Init, es);
            Count(s.posts, pk) <= (Max(1, maxAttempts) + Count(s.putBacks, pk)) * (urls * Max(0, retryMax))
  {
    var s := Run(maxAttempts, Init, es);
    PostsRun(maxAttempts, Init, es, pk, urls, retryMax);
    BoundedRounds(maxAttempts, es, pk);
    MulMono(0, 0, urls, Max(0, retryMax));
    var cost := urls * Max(0, retryMax);
    MulMono(Count(s.rounds, pk), cost, Max(1, maxAttempts) + Count(s.putBacks, pk), cost);
  }
}
