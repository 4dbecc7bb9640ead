/** Whether what is saved in an SMS row after its webhook job was delivered is still posted. */
module OutboxLatePatches {
  import opened Common
  import opened Outbox
  import opened OutboxSafety

  /** Only the owner of a job makes delivery rounds for it. */
  lemma RoundsNeedAnOwner(maxAttempts: int, s: State, e: Event, pk: nat)
    requires Enabled(s, e) && !Owned(s, pk)
    ensures Count(Step(maxAttempts, s, e).rounds, pk) == Count(s.rounds, pk)
  {
  }

  /** A delivered job gets no further round, whatever is saved and scheduled from then on. */
  lemma {:induction false} DeliveredIsPostedNoMore(maxAttempts: int, s: State, es: seq<Event>, pk: nat)
    requires KeysKnown(s) && Ownership(s) && Possible(maxAttempts, s, es) && Exclusive(maxAttempts, s, es)
    requires pk in s.jobs && s.jobs[pk].status == Delivered && !SavePending(s, pk) && Cascade(pk) !in es
    ensures Count(Run(maxAttempts, s, es).rounds, pk) == Count(s.rounds, pk)
    decreases |es|
  {
    if es != [] {
      assert es[0] in es;
      RoundsNeedAnOwner(maxAttempts, s, es[0], pk);
      DeliveredStaysOneStep(maxAttempts, s, es[0], pk);
      KeysKnownStep(maxAttempts, s, es[0]);
      OwnershipStep(maxAttempts, s, es[0]);
      DeliveredIsPostedNoMore(maxAttempts, Step(maxAttempts, s, es[0]), es[1..], pk);
    }
  }

  /** The run goes on in the exclusive regime, deletes nothing, and makes a round for the job. */
  ghost predicate PostsIn(maxAttempts: int, s: State, es: seq<Event>, pk: nat) {
    && Possible(maxAttempts, s, es) && Exclusive(maxAttempts, s, es) && Cascade(pk) !in es
    && Count(Run(maxAttempts, s, es).rounds, pk) > Count(s.rounds, pk)
  }

  lemma PostsCons(maxAttempts: int, s: State, e: Event, es: seq<Event>, pk: nat)
    requires Enabled(s, e) && ExclusiveEvent(s, e) && e != Cascade(pk)
    requires Count(Step(maxAttempts, s, e).rounds, pk) >= Count(s.rounds, pk)
    requires PostsIn(maxAttempts, Step(maxAttempts, s, e), es, pk)
    ensures PostsIn(maxAttempts, s, [e] + es, pk)
  {
    RunCons(maxAttempts, s, e, es);
    assert ([e] + es)[1..] == es;
  }

  lemma ClaimedIsPosted(maxAttempts: int, s: State, w: nat, pk: nat) returns (es: seq<Event>)
    requires w in s.workers && s.workers[w].pk == pk && s.workers[w].phase == Claimed && pk in s.jobs
    ensures PostsIn(maxAttempts, s, es, pk)
  {
    var deliver := Deliver(w, Round([], 0, (i, k) => true));
    var s1 := Step(maxAttempts, s, Bump(w, 1));
    var s2 := Step(maxAttempts, s1, deliver);
    assert Count(s2.rounds, pk) == Count(s1.rounds, pk) + 1;
    RunCons(maxAttempts, s1, deliver, []);
    assert [deliver] + [] == [deliver] && [deliver][1..] == [];
    assert Run(maxAttempts, s1, [deliver]) == s2;
    assert PostsIn(maxAttempts, s1, [deliver], pk);
    PostsCons(maxAttempts, s, Bump(w, 1), [deliver], pk);
    es := [Bump(w, 1)] + [deliver];
  }

  /** A pending job is reached by fresh workers, and then posted. */
  lemma {:induction false} PendingIsPosted(maxAttempts: int, s: State, pk: nat) returns (es: seq<Event>)
    requires pk in s.jobs && s.jobs[pk].status == Pending
    ensures PostsIn(maxAttempts, s, es, pk)
    decreases |PendingKeys(s.jobs)|
  {
    var oldest := OldestOfPending(s.jobs, PendingKeys(s.jobs), pk);
    var w := FreeWorker(s.workers.Keys);
    var s1 := Step(maxAttempts, s, Claim(w, oldest));
    if oldest == pk {
      es := ClaimedIsPosted(maxAttempts, s1, w, pk);
    } else {
      assert PendingKeys(s1.jobs) == PendingKeys(s.jobs) - {oldest};
      es := PendingIsPosted(maxAttempts, s1, pk);
    }
    PostsCons(maxAttempts, s, Claim(w, oldest), es, pk);
    es := [Claim(w, oldest)] + es;
  }

  /** A job nobody holds is put back by a schedule call, unless it is delivered. */
  lemma ScheduledIsPosted(maxAttempts: int, s: State, pk: nat) returns (es: seq<Event>)
    requires pk in s.jobs && s.jobs[pk].status != Delivered && !Owned(s, pk)
    ensures PostsIn(maxAttempts, s, es, pk)
  {
    var t := FreeWorker(s.schedulers.Keys);
    var read := ScheduleRead(t, s.jobs[pk].ref, pk);
    var s1 := Step(maxAttempts, s, read);
    var s2 := Step(maxAttempts, s1, ScheduleSave(t));
    es := PendingIsPosted(maxAttempts, s2, pk);
    PostsCons(maxAttempts, s1, ScheduleSave(t), es, pk);
    es := [ScheduleSave(t)] + es;
    PostsCons(maxAttempts, s, read, es, pk);
    es := [read] + es;
  }

  /** Something saved now, with no worker and no `schedule` call at work on the job, can still be
      posted iff the job is not DELIVERED: a text patched after the delivery never is. */
  lemma LatePatchIsPostedIff(maxAttempts: int, s: State, pk: nat)
    requires KeysKnown(s) && Ownership(s) && pk in s.jobs && !Owned(s, pk) && !SavePending(s, pk)
    ensures (exists es :: PostsIn(maxAttempts, s, es, pk)) <==> s.jobs[pk].status != Delivered
  {
    if s.jobs[pk].status != Delivered {
      var es := ScheduledIsPosted(maxAttempts, s, pk);
    } else if es :| PostsIn(maxAttempts, s, es, pk) {
      DeliveredIsPostedNoMore(maxAttempts, s, es, pk);
    }
  }

  // ---- A worker that is lost ----

  /** Nothing in the run puts a job back or deletes the SMS of this one. */
  ghost predicate NothingPutBack(es: seq<Event>, pk: nat) {
    forall e :: e in es ==> !e.ScheduleSave? && !e.ResetStale? && e != Cascade(pk)
  }

  /** A job without owner gets no round and stays as it is while nothing puts jobs back. */
  lemma {:induction false} OrphanGetsNoRound(maxAttempts: int, s: State, es: seq<Event>, pk: nat)
    requires KeysKnown(s) && Orphaned(s, pk) && Possible(maxAttempts, s, es) && NothingPutBack(es, pk)
    ensures Orphaned(Run(maxAttempts, s, es), pk)
    ensures Count(Run(maxAttempts, s, es).rounds, pk) == Count(s.rounds, pk)
    decreases |es|
  {
    if es != [] {
      assert es[0] in es && forall e :: e in es[1..] ==> e in es;
      OrphanWaitsForReset(maxAttempts, s, es[0], pk);
      RoundsNeedAnOwner(maxAttempts, s, es[0], pk);
      KeysKnownStep(maxAttempts, s, es[0]);
      OrphanGetsNoRound(maxAttempts, Step(maxAttempts, s, es[0]), es[1..], pk);
    }
  }

  /** So a job whose worker dies or meets a database error is not retried before a reset or a
      reschedule. */
  lemma LostWorkerIsNotRetried(maxAttempts: int, s: State, w: nat, round: Round, spent: nat, es: seq<Event>)
    requires KeysKnown(s) && Ownership(s) && Enabled(s, Abandon(w, round, spent)) && s.workers[w].pk in s.jobs
    requires var s1 := Step(maxAttempts, s, Abandon(w, round, spent));
             Possible(maxAttempts, s1, es) && NothingPutBack(es, s.workers[w].pk)
    ensures var s1 := Step(maxAttempts, s, Abandon(w, round, spent));
            Orphaned(Run(maxAttempts, s1, es), s.workers[w].pk)
            && Count(Run(maxAttempts, s1, es).rounds, s.workers[w].pk) == Count(s1.rounds, s.workers[w].pk)
  {
    AbandonOrphans(maxAttempts, s, w, round, spent);
    KeysKnownStep(maxAttempts, s, Abandon(w, round, spent));
    OrphanGetsNoRound(maxAttempts, Step(maxAttempts, s, Abandon(w, round, spent)), es, s.workers[w].pk);
  }
}
