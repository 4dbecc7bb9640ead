/** In which order the outbound workers get the jobs, and what one whole `enqueue` does. */
module OutboundOrder {
  import opened Common
  import opened Outbound
  import opened OutboundQueue

  // ---- Order ----

  ghost predicate Ranked(s: State, j: QueueJob) {
    j.rank == PriorityRank(j.priority) && j.seq_ <= s.nextSeq
  }

  ghost predicate QueueInOrder(s: State) {
    && (forall j :: j in s.queue ==> Ranked(s, j))
    && (forall i, j :: i in s.queue && j in s.queue && i != j ==> i.seq_ != j.seq_)
  }

  /** A job with a number that is not yet in the queue. */
  ghost predicate Arriving(s: State, t: nat) {
    t in s.enqueuers && s.enqueuers[t].Numbered?
  }

  ghost predicate ArrivalsInOrder(s: State) {
    && (forall t :: Arriving(s, t) ==> Ranked(s, s.enqueuers[t].job))
    && (forall t, u :: Arriving(s, t) && Arriving(s, u) && t != u ==>
          s.enqueuers[t].job.seq_ != s.enqueuers[u].job.seq_)
    && (forall t, j :: Arriving(s, t) && j in s.queue ==> s.enqueuers[t].job.seq_ != j.seq_)
  }

  ghost predicate InOrder(s: State) {
    QueueInOrder(s) && ArrivalsInOrder(s)
  }

  lemma QueueInOrderStep(cfg: Config, s: State, e: Event)
    requires InOrder(s) && Enabled(cfg, s, e)
    ensures QueueInOrder(Step(cfg, s, e))
  {
    if e.Put? { assert Arriving(s, e.thread); }
  }

  /** A job on its way to the queue was so before, or got the next number just now. */
  lemma ArrivalsCameFrom(cfg: Config, s: State, e: Event, t: nat)
    requires Enabled(cfg, s, e) && Arriving(Step(cfg, s, e), t)
    ensures e == Number(t) ==> Ranked(Step(cfg, s, e), Step(cfg, s, e).enqueuers[t].job)
    ensures e == Number(t) ==> Step(cfg, s, e).enqueuers[t].job.seq_ == s.nextSeq + 1
    ensures e != Number(t) ==>
              Arriving(s, t) && Step(cfg, s, e).enqueuers[t] == s.enqueuers[t] && s.nextSeq <= Step(cfg, s, e).nextSeq
  {
  }

  lemma QueuedCameFrom(cfg: Config, s: State, e: Event, j: QueueJob)
    requires Enabled(cfg, s, e) && j in Step(cfg, s, e).queue
    ensures j in s.queue || (e.Put? && Arriving(s, e.thread) && j == s.enqueuers[e.thread].job)
    ensures e.Put? ==> !Arriving(Step(cfg, s, e), e.thread)
  {
  }

  lemma ArrivalsApart(cfg: Config, s: State, e: Event, t: nat, u: nat)
    requires InOrder(s) && Enabled(cfg, s, e) && Arriving(Step(cfg, s, e), t) && Arriving(Step(cfg, s, e), u) && t != u
    ensures Step(cfg, s, e).enqueuers[t].job.seq_ != Step(cfg, s, e).enqueuers[u].job.seq_
  {
    ArrivalsCameFrom(cfg, s, e, t);
    ArrivalsCameFrom(cfg, s, e, u);
  }

  lemma ArrivalsNotQueued(cfg: Config, s: State, e: Event, t: nat, j: QueueJob)
    requires InOrder(s) && Enabled(cfg, s, e) && Arriving(Step(cfg, s, e), t) && j in Step(cfg, s, e).queue
    ensures Step(cfg, s, e).enqueuers[t].job.seq_ != j.seq_
  {
    ArrivalsCameFrom(cfg, s, e, t);
    QueuedCameFrom(cfg, s, e, j);
  }

  lemma ArrivalsInOrderStep(cfg: Config, s: State, e: Event)
    requires InOrder(s) && Enabled(cfg, s, e)
    ensures ArrivalsInOrder(Step(cfg, s, e))
  {
    var s' := Step(cfg, s, e);
    forall t | Arriving(s', t) ensures Ranked(s', s'.enqueuers[t].job) { ArrivalsCameFrom(cfg, s, e, t); }
    forall t, u | Arriving(s', t) && Arriving(s', u) && t != u
      ensures s'.enqueuers[t].job.seq_ != s'.enqueuers[u].job.seq_
    {
      ArrivalsApart(cfg, s, e, t, u);
    }
    forall t, j | Arriving(s', t) && j in s'.queue ensures s'.enqueuers[t].job.seq_ != j.seq_ {
      ArrivalsNotQueued(cfg, s, e, t, j);
    }
  }

  lemma {:induction false} InOrderRun(cfg: Config, s: State, es: seq<Event>)
    requires InOrder(s) && Possible(cfg, s, es)
    ensures InOrder(Run(cfg, s, es))
    decreases |es|
  {
    if es != [] {
      QueueInOrderStep(cfg, s, es[0]);
      ArrivalsInOrderStep(cfg, s, es[0]);
      InOrderRun(cfg, Step(cfg, s, es[0]), es[1..]);
    }
  }

  /** In every run a free worker gets a queued job iff no other queued job is more urgent, and
      none that is as urgent has a lower number. */
  lemma {:induction false} GetsTheMostUrgent(cfg: Config, es: seq<Event>, w: nat, job: QueueJob)
    requires Possible(cfg, Init, es)
    ensures var s := Run(cfg, Init, es);
            Enabled(cfg, s, Get(w, job)) <==>
              && w < cfg.workers && w !in s.workers && job in s.queue
              && forall q :: q in s.queue && q != job ==>
                   NoLessUrgent(job, q) && (NoLessUrgent(q, job) ==> job.seq_ < q.seq_)
  {
    var s := Run(cfg, Init, es);
    InOrderRun(cfg, Init, es);
    if job in s.queue {
      forall q | q in s.queue && q != job
        ensures Precedes(job, q) <==> NoLessUrgent(job, q) && (NoLessUrgent(q, job) ==> job.seq_ < q.seq_)
      {
        RankIsUrgency(job, q);
        RankIsUrgency(q, job);
      }
    }
  }

  // ---- The bound ----

  lemma {:induction false} BoundedRun(cfg: Config, s: State, es: seq<Event>)
    requires cfg.maxSize > 0 && |s.queue| <= cfg.maxSize && Possible(cfg, s, es)
    ensures |Run(cfg, s, es).queue| <= cfg.maxSize
    decreases |es|
  {
    if es != [] {
      if es[0].Get? { assert |s.queue - {es[0].job}| <= |s.queue|; }
      BoundedRun(cfg, Step(cfg, s, es[0]), es[1..]);
    }
  }

  /** In every run a bounded queue stays within its bound. */
  lemma {:induction false} QueueStaysBounded(cfg: Config, es: seq<Event>)
    requires cfg.maxSize > 0 && Possible(cfg, Init, es)
    ensures |Run(cfg, Init, es).queue| <= cfg.maxSize
  {
    BoundedRun(cfg, Init, es);
  }

  // ---- One enqueue by itself ----

  /** From the put on. */
  lemma PutAndRollback(cfg: Config, s: State, t: nat, others: map<nat, Enqueuer>) returns (es: seq<Event>)
    requires t in s.enqueuers && s.enqueuers[t].Numbered? && s.enqueuers - {t} == others
    ensures Possible(cfg, s, es)
    ensures var job, s' := s.enqueuers[t].job, s.(enqueuers := others);
            Run(cfg, s, es)
            == if cfg.maxSize > 0 && |s.queue| >= cfg.maxSize
               then s'.(inFlight := s.inFlight - {job.jobType + ":" + job.reference})
               else s'.(queue := s.queue + {job})
  {
    var s1 := Step(cfg, s, Put(t));
    es := [];
    if Full(cfg, s.queue) {
      assert s1.enqueuers - {t} == others;
      RunCons(cfg, s1, Rollback(t), []);
      es := [Rollback(t)] + [];
    }
    RunCons(cfg, s, Put(t), es);
    es := [Put(t)] + es;
  }

  /** From the number on. */
  lemma NumberAndPut(cfg: Config, s: State, t: nat, others: map<nat, Enqueuer>) returns (es: seq<Event>)
    requires t in s.enqueuers && s.enqueuers[t].Reserved? && s.enqueuers - {t} == others
    ensures Possible(cfg, s, es)
    ensures var r := s.enqueuers[t];
            var job := QueueJob(PriorityRank(r.priority), s.nextSeq + 1, r.jobType, r.reference, r.priority);
            var s' := s.(nextSeq := s.nextSeq + 1, enqueuers := others);
            Run(cfg, s, es)
            == if cfg.maxSize > 0 && |s.queue| >= cfg.maxSize
               then s'.(inFlight := s.inFlight - {r.jobType + ":" + r.reference})
               else s'.(queue := s.queue + {job})
  {
    var s1 := Step(cfg, s, Number(t));
    assert s1.enqueuers - {t} == others;
    es := PutAndRollback(cfg, s1, t, others);
    RunCons(cfg, s, Number(t), es);
    es := [Number(t)] + es;
  }

  /** The steps of `enqueue` in one go: a key in flight is accepted without effect; a full queue
      leaves everything but the counter; otherwise key and job are added. */
  lemma EnqueueInOneGo(cfg: Config, s: State, t: nat, jobType: string, reference: string, priority: string)
    returns (es: seq<Event>)
    requires t !in s.enqueuers
    ensures Possible(cfg, s, es) && es != [] && es[0] == Reserve(t, jobType, reference, priority)
    ensures var key := jobType + ":" + reference;
            var job := QueueJob(PriorityRank(priority), s.nextSeq + 1, jobType, reference, priority);
            Run(cfg, s, es)
            == if key in s.inFlight then s
               else if cfg.maxSize > 0 && |s.queue| >= cfg.maxSize then s.(nextSeq := s.nextSeq + 1)
               else s.(nextSeq := s.nextSeq + 1, inFlight := s.inFlight + {key}, queue := s.queue + {job})
  {
    var reserve := Reserve(t, jobType, reference, priority);
    var s1 := Step(cfg, s, reserve);
    es := [];
    if Key(jobType, reference) !in s.inFlight {
      assert s1.enqueuers - {t} == s.enqueuers;
      assert s1.inFlight - {Key(jobType, reference)} == s.inFlight;
      es := NumberAndPut(cfg, s1, t, s.enqueuers);
    }
    RunCons(cfg, s, reserve, es);
    es := [reserve] + es;
  }
}
