/** Mutual exclusion in the outbound queue, and at-most-once sending. */
module OutboundSafety {
  import opened Common
  import opened Outbound

  // ---- Every in-flight key has exactly one holder ----

  datatype Holder = Enqueuing(thread: nat) | Queued(job: QueueJob) | Working(worker: nat)

  ghost predicate Holds(s: State, h: Holder) {
    match h
    case Enqueuing(t) => t in s.enqueuers
    case Queued(j) => j in s.queue
    case Working(w) => w in s.workers
  }

  ghost function HeldKey(s: State, h: Holder): string
    requires Holds(s, h)
  {
    match h
    case Enqueuing(t) =>
      (match s.enqueuers[t]
       case Reserved(jobType, reference, _) => Key(jobType, reference)
       case Numbered(j) => KeyOf(j)
       case Rejected(j) => KeyOf(j))
    case Queued(j) => KeyOf(j)
    case Working(w) => KeyOf(s.workers[w].job)
  }

  /** `_in_flight` is the disjoint union of the reserved, the queued and the processing keys,
      and each key occurs once among them. */
  ghost predicate InFlightPartition(s: State) {
    && (forall h :: Holds(s, h) ==> HeldKey(s, h) in s.inFlight)
    && (forall k :: k in s.inFlight ==> exists h :: Holds(s, h) && HeldKey(s, h) == k)
    && (forall g, h :: Holds(s, g) && Holds(s, h) && HeldKey(s, g) == HeldKey(s, h) ==> g == h)
  }

  /** Where the key that `h` holds after `e` was before: `put` hands it from the thread to the
      queue, `get` from the queue to the worker. */
  ghost function Origin(cfg: Config, s: State, e: Event, h: Holder): Holder
    requires Enabled(cfg, s, e)
  {
    match e
    case Put(t) => if !Full(cfg, s.queue) && h == Queued(s.enqueuers[t].job) then Enqueuing(t) else h
    case Get(w, j) => if h == Working(w) then Queued(j) else h
    case _ => h
  }

  ghost function Destination(cfg: Config, s: State, e: Event, h: Holder): Holder
    requires Enabled(cfg, s, e)
  {
    match e
    case Put(t) => if !Full(cfg, s.queue) && h == Enqueuing(t) then Queued(s.enqueuers[t].job) else h
    case Get(w, j) => if h == Queued(j) then Working(w) else h
    case _ => h
  }

  ghost predicate Reserves(s: State, e: Event, h: Holder) {
    e.Reserve? && h == Enqueuing(e.thread) && Key(e.jobType, e.reference) !in s.inFlight
  }

  ghost predicate LetsGo(e: Event, h: Holder) {
    e == Restart || (e.Rollback? && h == Enqueuing(e.thread)) || (e.Release? && h == Working(e.worker))
  }

  lemma KeysDiffer(s: State, g: Holder, h: Holder)
    requires InFlightPartition(s) && Holds(s, g) && Holds(s, h) && g != h
    ensures HeldKey(s, g) != HeldKey(s, h)
  {
  }

  lemma HolderMovedFrom(cfg: Config, s: State, e: Event, h: Holder)
    requires InFlightPartition(s) && Enabled(cfg, s, e) && Holds(Step(cfg, s, e), h) && (e.Put? || e.Get?)
    ensures Holds(s, Origin(cfg, s, e, h)) && HeldKey(s, Origin(cfg, s, e, h)) == HeldKey(Step(cfg, s, e), h)
    ensures Destination(cfg, s, e, Origin(cfg, s, e, h)) == h
  {
    if e.Put? {
      forall j | j in s.queue ensures j != s.enqueuers[e.thread].job { KeysDiffer(s, Queued(j), Enqueuing(e.thread)); }
    }
  }

  lemma HolderStayed(cfg: Config, s: State, e: Event, h: Holder)
    requires Enabled(cfg, s, e) && Holds(Step(cfg, s, e), h) && !Reserves(s, e, h) && !e.Put? && !e.Get?
    ensures Holds(s, h) && HeldKey(s, h) == HeldKey(Step(cfg, s, e), h) && !LetsGo(e, h)
  {
  }

  lemma HolderCameFrom(cfg: Config, s: State, e: Event, h: Holder)
    requires InFlightPartition(s) && Enabled(cfg, s, e) && Holds(Step(cfg, s, e), h) && !Reserves(s, e, h)
    ensures Holds(s, Origin(cfg, s, e, h)) && HeldKey(s, Origin(cfg, s, e, h)) == HeldKey(Step(cfg, s, e), h)
    ensures !LetsGo(e, Origin(cfg, s, e, h)) && Destination(cfg, s, e, Origin(cfg, s, e, h)) == h
  {
    if e.Put? || e.Get? { HolderMovedFrom(cfg, s, e, h); } else { HolderStayed(cfg, s, e, h); }
  }

  lemma HolderMovesTo(cfg: Config, s: State, e: Event, h: Holder)
    requires Enabled(cfg, s, e) && Holds(s, h) && (e.Put? || e.Get?)
    ensures var h' := Destination(cfg, s, e, h);
            Holds(Step(cfg, s, e), h') && HeldKey(Step(cfg, s, e), h') == HeldKey(s, h)
  {
  }

  lemma HolderStays(cfg: Config, s: State, e: Event, h: Holder)
    requires Enabled(cfg, s, e) && Holds(s, h) && !LetsGo(e, h) && !e.Put? && !e.Get?
    ensures Holds(Step(cfg, s, e), h) && HeldKey(Step(cfg, s, e), h) == HeldKey(s, h)
  {
  }

  lemma HolderGoesTo(cfg: Config, s: State, e: Event, h: Holder)
    requires Enabled(cfg, s, e) && Holds(s, h) && !LetsGo(e, h)
    ensures var h' := Destination(cfg, s, e, h);
            Holds(Step(cfg, s, e), h') && HeldKey(Step(cfg, s, e), h') == HeldKey(s, h)
  {
    if e.Put? || e.Get? { HolderMovesTo(cfg, s, e, h); } else { HolderStays(cfg, s, e, h); }
  }

  lemma InFlightAfter(cfg: Config, s: State, e: Event)
    requires InFlightPartition(s) && Enabled(cfg, s, e)
    ensures forall k :: k in Step(cfg, s, e).inFlight <==>
              || (exists h :: Reserves(s, e, h) && Key(e.jobType, e.reference) == k)
              || (exists h :: Holds(s, h) && !LetsGo(e, h) && HeldKey(s, h) == k)
  {
    var s' := Step(cfg, s, e);
    forall k
      ensures k in s'.inFlight <==>
              || (exists h :: Reserves(s, e, h) && Key(e.jobType, e.reference) == k)
              || (exists h :: Holds(s, h) && !LetsGo(e, h) && HeldKey(s, h) == k)
    {
      if e.Rollback? { assert HeldKey(s, Enqueuing(e.thread)) == KeyOf(s.enqueuers[e.thread].job); }
      if e.Release? { assert HeldKey(s, Working(e.worker)) == KeyOf(s.workers[e.worker].job); }
      if e.Reserve? && Key(e.jobType, e.reference) !in s.inFlight { assert Reserves(s, e, Enqueuing(e.thread)); }
    }
  }

  lemma PartitionStep(cfg: Config, s: State, e: Event)
    requires InFlightPartition(s) && Enabled(cfg, s, e)
    ensures InFlightPartition(Step(cfg, s, e))
  {
    var s' := Step(cfg, s, e);
    InFlightAfter(cfg, s, e);
    forall h | Holds(s', h) ensures HeldKey(s', h) in s'.inFlight {
      if !Reserves(s, e, h) { HolderCameFrom(cfg, s, e, h); }
    }
    forall k | k in s'.inFlight ensures exists h :: Holds(s', h) && HeldKey(s', h) == k {
      if h :| Holds(s, h) && !LetsGo(e, h) && HeldKey(s, h) == k {
        HolderGoesTo(cfg, s, e, h);
      } else {
        assert Holds(s', Enqueuing(e.thread)) && HeldKey(s', Enqueuing(e.thread)) == k;
      }
    }
    forall g, h | Holds(s', g) && Holds(s', h) && HeldKey(s', g) == HeldKey(s', h) ensures g == h {
      if !Reserves(s, e, g) { HolderCameFrom(cfg, s, e, g); }
      if !Reserves(s, e, h) { HolderCameFrom(cfg, s, e, h); }
    }
  }

  lemma {:induction false} PartitionRun(cfg: Config, s: State, es: seq<Event>)
    requires InFlightPartition(s) && Possible(cfg, s, es)
    ensures InFlightPartition(Run(cfg, s, es))
    decreases |es|
  {
    if es != [] {
      PartitionStep(cfg, s, es[0]);
      PartitionRun(cfg, Step(cfg, s, es[0]), es[1..]);
    }
  }

  /** In every run no two workers process the same key, and a key being processed is neither
      queued nor reserved. */
  lemma {:induction false} MutualExclusion(cfg: Config, es: seq<Event>, g: Holder, h: Holder)
    requires Possible(cfg, Init, es)
    requires var s := Run(cfg, Init, es); Holds(s, g) && Holds(s, h) && g != h
    ensures var s := Run(cfg, Init, es);
            HeldKey(s, g) != HeldKey(s, h) && HeldKey(s, g) in s.inFlight
  {
    PartitionRun(cfg, Init, es);
  }

  // ---- The modem lock ----

  ghost predicate OneInTheLock(s: State) {
    forall v, w :: v in s.workers && w in s.workers && InLock(s.workers[v].at) && InLock(s.workers[w].at) ==> v == w
  }

  lemma OneInTheLockStep(cfg: Config, s: State, e: Event)
    requires OneInTheLock(s) && Enabled(cfg, s, e)
    ensures OneInTheLock(Step(cfg, s, e))
  {
  }

  lemma {:induction false} OneInTheLockRun(cfg: Config, s: State, es: seq<Event>)
    requires OneInTheLock(s) && Possible(cfg, s, es)
    ensures OneInTheLock(Run(cfg, s, es))
    decreases |es|
  {
    if es != [] {
      OneInTheLockStep(cfg, s, es[0]);
      OneInTheLockRun(cfg, Step(cfg, s, es[0]), es[1..]);
    }
  }

  /** From before its message is created until its outcome is stored a dispatch has the modem to
      itself. */
  lemma {:induction false} DispatchesTakeTurns(cfg: Config, es: seq<Event>, v: nat, w: nat)
    requires Possible(cfg, Init, es)
    requires var s := Run(cfg, Init, es);
             && v in s.workers && w in s.workers && v != w
             && var at := s.workers[v].at; at.Inside? || at.Prepared? || at.Stored? || at.Transmitted? || at.Failing?
    ensures var at := Run(cfg, Init, es).workers[w].at; at.Got? || at.Holding? || at.Finished?
  {
    OneInTheLockRun(cfg, Init, es);
  }

  // ---- Rollback ----

  /** A rollback takes back exactly the reservation: the keys of everybody else stay. */
  lemma RollbackRestores(cfg: Config, s: State, t: nat)
    requires InFlightPartition(s) && Enabled(cfg, s, Rollback(t))
    ensures forall h :: Holds(s, h) && h != Enqueuing(t) ==> HeldKey(s, h) in Step(cfg, s, Rollback(t)).inFlight
    ensures HeldKey(s, Enqueuing(t)) !in Step(cfg, s, Rollback(t)).inFlight
    ensures |s.inFlight| == |Step(cfg, s, Rollback(t)).inFlight| + 1
  {
    var k := HeldKey(s, Enqueuing(t));
    assert k == KeyOf(s.enqueuers[t].job) && k in s.inFlight;
    assert Step(cfg, s, Rollback(t)).inFlight == s.inFlight - {k};
  }

  // ---- At most one send per row ----

  /** No two of these references name the same row to `int()`. */
  ghost predicate OneSpelling(cfg: Config, refs: iset<string>) {
    forall a, b :: a in refs && b in refs && cfg.parse(a).Some? && cfg.parse(a) == cfg.parse(b) ==> a == b
  }

  /** Two references to one row can only meet if there are two workers to take them up. */
  ghost predicate OneAtATime(cfg: Config, refs: iset<string>) {
    OneSpelling(cfg, refs) || cfg.workers <= 1
  }

  ghost predicate Known(refs: iset<string>, jobType: string, reference: string) {
    jobType == "outbound" ==> reference in refs
  }

  /** All outbound jobs of the run are enqueued under these references. */
  ghost predicate Uses(refs: iset<string>, es: seq<Event>) {
    forall e :: e in es && e.Reserve? ==> Known(refs, e.jobType, e.reference)
  }

  predicate Dispatching(at: At) {
    !at.Got? && !at.Finished?
  }

  ghost predicate JobsKnown(refs: iset<string>, s: State) {
    && (forall t :: t in s.enqueuers ==>
          match s.enqueuers[t]
          case Reserved(jobType, reference, _) => Known(refs, jobType, reference)
          case Numbered(j) => Known(refs, j.jobType, j.reference)
          case Rejected(j) => Known(refs, j.jobType, j.reference))
    && (forall j :: j in s.queue ==> Known(refs, j.jobType, j.reference))
    && (forall w :: w in s.workers ==> Known(refs, s.workers[w].job.jobType, s.workers[w].job.reference))
  }

  ghost predicate WorkersNumbered(cfg: Config, s: State) {
    forall w :: w in s.workers ==> w < cfg.workers
  }

  /** A dispatching worker is at the row its job names. */
  ghost predicate WorkersAtTheirRow(cfg: Config, s: State) {
    forall w :: w in s.workers && Dispatching(s.workers[w].at) ==>
      && s.workers[w].job.jobType == "outbound"
      && cfg.parse(s.workers[w].job.reference) == Some(s.workers[w].at.pk)
      && s.workers[w].at.pk < s.nextRow
  }

  /** How far the row and its sends can be while worker `w` stands where it stands. */
  ghost predicate InStep(s: State, w: nat)
    requires w in s.workers
  {
    match s.workers[w].at
    case Holding(pk) => Count(s.sends, pk) == 0 && (pk in s.rows ==> s.rows[pk] == Created)
    case Inside(pk) => Count(s.sends, pk) == 0 && (pk in s.rows ==> s.rows[pk] == Created)
    case Prepared(pk) => Count(s.sends, pk) == 0 && (pk in s.rows ==> s.rows[pk] == Created)
    case Stored(pk) => Count(s.sends, pk) == 0 && (pk in s.rows ==> s.rows[pk] == Sending)
    case Transmitted(pk) => pk in s.rows ==> s.rows[pk] == Sending
    case Failing(pk) => pk in s.rows ==> s.rows[pk] in {Created, Sending}
    case _ => true
  }

  ghost predicate RowsKnown(s: State) {
    (forall pk :: pk in s.rows ==> pk < s.nextRow) && (forall pk :: pk in s.sends ==> pk < s.nextRow)
  }

  ghost predicate SendsAreFew(s: State) {
    forall pk: nat :: Count(s.sends, pk) <= 1
  }

  ghost predicate CreatedIsUnsent(s: State) {
    forall pk :: pk in s.rows && s.rows[pk] == Created ==> Count(s.sends, pk) == 0
  }

  ghost predicate SentOnce(s: State) {
    RowsKnown(s) && SendsAreFew(s) && CreatedIsUnsent(s)
  }

  ghost predicate AllInStep(s: State) {
    forall w :: w in s.workers ==> InStep(s, w)
  }

  lemma JobsKnownStep(cfg: Config, refs: iset<string>, s: State, e: Event)
    requires JobsKnown(refs, s) && Enabled(cfg, s, e) && Uses(refs, [e])
    ensures JobsKnown(refs, Step(cfg, s, e))
  {
    assert e in [e];
  }

  /** The steps that move a worker along its dispatch. */
  predicate Dispatches(e: Event) {
    e.Fetch? || e.Acquire? || e.Prepare? || ActsOnRow(e)
  }

  lemma RowKeptByFetch(cfg: Config, s: State, e: Event)
    requires WorkersAtTheirRow(cfg, s) && RowsKnown(s) && Enabled(cfg, s, e) && e.Fetch?
    ensures WorkersAtTheirRow(cfg, Step(cfg, s, e))
  {
  }

  lemma RowKeptByPreparing(cfg: Config, s: State, e: Event)
    requires WorkersAtTheirRow(cfg, s) && Enabled(cfg, s, e) && (e.Acquire? || e.Prepare?)
    ensures WorkersAtTheirRow(cfg, Step(cfg, s, e))
  {
  }

  lemma RowKeptByActing(cfg: Config, s: State, e: Event)
    requires WorkersAtTheirRow(cfg, s) && Enabled(cfg, s, e) && ActsOnRow(e)
    ensures WorkersAtTheirRow(cfg, Step(cfg, s, e))
  {
  }

  lemma RowKeptByOthers(cfg: Config, s: State, e: Event)
    requires WorkersAtTheirRow(cfg, s) && Enabled(cfg, s, e) && !Dispatches(e)
    ensures WorkersAtTheirRow(cfg, Step(cfg, s, e))
  {
  }

  lemma WorkersAtTheirRowStep(cfg: Config, s: State, e: Event)
    requires WorkersAtTheirRow(cfg, s) && SentOnce(s) && Enabled(cfg, s, e)
    ensures WorkersAtTheirRow(cfg, Step(cfg, s, e))
  {
    if e.Fetch? {
      RowKeptByFetch(cfg, s, e);
    } else if ActsOnRow(e) {
      RowKeptByActing(cfg, s, e);
    } else if Dispatches(e) {
      RowKeptByPreparing(cfg, s, e);
    } else {
      RowKeptByOthers(cfg, s, e);
    }
  }

  /** Two workers at the same row would hold the same key. */
  lemma OneWorkerPerRow(cfg: Config, refs: iset<string>, s: State, v: nat, w: nat)
    requires OneAtATime(cfg, refs) && WorkersNumbered(cfg, s)
    requires InFlightPartition(s) && JobsKnown(refs, s) && WorkersAtTheirRow(cfg, s)
    requires v in s.workers && w in s.workers && Dispatching(s.workers[v].at) && Dispatching(s.workers[w].at)
    requires s.workers[v].at.pk == s.workers[w].at.pk
    ensures v == w
  {
    assert OneSpelling(cfg, refs) ==> s.workers[v].job.reference == s.workers[w].job.reference;
    assert HeldKey(s, Working(v)) == HeldKey(s, Working(w));
  }

  lemma RowsKnownStep(cfg: Config, s: State, e: Event)
    requires WorkersAtTheirRow(cfg, s) && RowsKnown(s) && Enabled(cfg, s, e)
    ensures RowsKnown(Step(cfg, s, e))
  {
  }

  lemma SendsAreFewStep(cfg: Config, s: State, e: Event)
    requires SendsAreFew(s) && AllInStep(s) && Enabled(cfg, s, e)
    ensures SendsAreFew(Step(cfg, s, e))
  {
    if e.Send? { assert InStep(s, e.worker); }
    forall pk: nat ensures Count(Step(cfg, s, e).sends, pk) <= 1 {
      assert Count(s.sends, pk) <= 1;
    }
  }

  lemma CreatedIsUnsentStep(cfg: Config, s: State, e: Event)
    requires SentOnce(s) && AllInStep(s) && Enabled(cfg, s, e)
    ensures CreatedIsUnsent(Step(cfg, s, e))
  {
    if ActsOnRow(e) { assert InStep(s, e.worker); }
  }

  lemma SentOnceStep(cfg: Config, s: State, e: Event)
    requires WorkersAtTheirRow(cfg, s) && SentOnce(s) && AllInStep(s) && Enabled(cfg, s, e)
    ensures SentOnce(Step(cfg, s, e))
  {
    RowsKnownStep(cfg, s, e);
    SendsAreFewStep(cfg, s, e);
    CreatedIsUnsentStep(cfg, s, e);
  }

  predicate ActsOnRow(e: Event) {
    e.StoreSending? || e.Send? || e.StoreSent? || e.StoreFailed?
  }

  /** A step of another worker leaves the row of `w` and its sends alone. */
  lemma OthersLeaveTheRowAlone(cfg: Config, refs: iset<string>, s: State, e: Event, w: nat)
    requires OneAtATime(cfg, refs) && WorkersNumbered(cfg, s)
    requires InFlightPartition(s) && JobsKnown(refs, s) && WorkersAtTheirRow(cfg, s)
    requires SentOnce(s) && Enabled(cfg, s, e) && w in s.workers && Dispatching(s.workers[w].at)
    requires !(ActsOnRow(e) && e.worker == w)
    ensures var s', pk := Step(cfg, s, e), s.workers[w].at.pk;
            && Count(s'.sends, pk) == Count(s.sends, pk)
            && (pk in s'.rows ==> pk in s.rows && s'.rows[pk] == s.rows[pk])
  {
    if ActsOnRow(e) && s.workers[w].at.pk == s.workers[e.worker].at.pk {
      OneWorkerPerRow(cfg, refs, s, w, e.worker);
    }
  }

  /** What a worker's own step does to it. */
  lemma OwnStepStaysInStep(cfg: Config, s: State, e: Event, w: nat)
    requires WorkersAtTheirRow(cfg, s) && SentOnce(s) && w in s.workers && InStep(s, w)
    requires Enabled(cfg, s, e) && w in Step(cfg, s, e).workers
    requires Dispatches(e)
    requires e.worker == w
    ensures InStep(Step(cfg, s, e), w)
  {
  }

  lemma InStepStep(cfg: Config, refs: iset<string>, s: State, e: Event, w: nat)
    requires OneAtATime(cfg, refs) && WorkersNumbered(cfg, s)
    requires InFlightPartition(s) && JobsKnown(refs, s) && WorkersAtTheirRow(cfg, s)
    requires SentOnce(s) && AllInStep(s) && Enabled(cfg, s, e) && w in Step(cfg, s, e).workers
    ensures InStep(Step(cfg, s, e), w)
  {
    if w in s.workers {
      assert InStep(s, w);
      if Dispatches(e) && e.worker == w {
        OwnStepStaysInStep(cfg, s, e, w);
      } else {
        assert Step(cfg, s, e).workers[w] == s.workers[w];
        if Dispatching(s.workers[w].at) { OthersLeaveTheRowAlone(cfg, refs, s, e, w); }
      }
    }
  }

  ghost predicate Safe(cfg: Config, refs: iset<string>, s: State) {
    && WorkersNumbered(cfg, s) && InFlightPartition(s) && JobsKnown(refs, s) && WorkersAtTheirRow(cfg, s)
    && SentOnce(s) && AllInStep(s)
  }

  lemma SafeStep(cfg: Config, refs: iset<string>, s: State, e: Event)
    requires OneAtATime(cfg, refs) && Safe(cfg, refs, s) && Enabled(cfg, s, e) && Uses(refs, [e])
    ensures Safe(cfg, refs, Step(cfg, s, e))
  {
    PartitionStep(cfg, s, e);
    JobsKnownStep(cfg, refs, s, e);
    WorkersAtTheirRowStep(cfg, s, e);
    SentOnceStep(cfg, s, e);
    forall w | w in Step(cfg, s, e).workers ensures InStep(Step(cfg, s, e), w) {
      InStepStep(cfg, refs, s, e, w);
    }
  }

  lemma {:induction false} SafeRun(cfg: Config, refs: iset<string>, s: State, es: seq<Event>)
    requires OneAtATime(cfg, refs) && Safe(cfg, refs, s) && Possible(cfg, s, es) && Uses(refs, es)
    ensures Safe(cfg, refs, Run(cfg, s, es))
    decreases |es|
  {
    if es != [] {
      assert es[0] in es;
      SafeStep(cfg, refs, s, es[0]);
      SafeRun(cfg, refs, Step(cfg, s, es[0]), es[1..]);
    }
  }

  /** Whatever the threads, the database and the modem do, over re-enqueues, dispatches that die
      and process restarts: `send_sms` is called at most once for a row, and a row with a send
      is no longer CREATED. */
  lemma {:induction false} AtMostOneSend(cfg: Config, refs: iset<string>, es: seq<Event>, pk: nat)
    requires OneAtATime(cfg, refs) && Possible(cfg, Init, es) && Uses(refs, es)
    ensures var s := Run(cfg, Init, es);
            && Count(s.sends, pk) <= 1
            && (pk in s.rows && Count(s.sends, pk) == 1 ==> s.rows[pk] != Created)
  {
    SafeRun(cfg, refs, Init, es);
  }

  /** A send is only ever made after SENDING was stored for a row read as CREATED. */
  lemma {:induction false} SendFollowsStore(cfg: Config, refs: iset<string>, es: seq<Event>, w: nat,
                                            answer: ModemAnswer)
    requires OneAtATime(cfg, refs) && Possible(cfg, Init, es) && Uses(refs, es)
    requires Enabled(cfg, Run(cfg, Init, es), Send(w, answer))
    ensures var s := Run(cfg, Init, es);
            && Count(s.sends, s.workers[w].at.pk) == 0
            && (s.workers[w].at.pk in s.rows ==> s.rows[s.workers[w].at.pk] == Sending)
  {
    SafeRun(cfg, refs, Init, es);
  }

  predicate Follows(a: RowState, b: RowState) {
    a == b || a == Created || (a == Sending && (b == Sent || b == Failed))
  }

  /** Only a deletion takes a row away, and only the API adds one; a restart of the process does
      neither. */
  lemma RowsGoOnlyByDeletion(cfg: Config, s: State, e: Event, pk: nat)
    requires Enabled(cfg, s, e)
    ensures pk in Step(cfg, s, e).rows <==>
            (pk in s.rows && e != DeleteRow(pk)) || (e == NewRow && pk == s.nextRow)
  {
  }

  /** A row only moves CREATED to SENDING to SENT or FAILED, or straight from CREATED to FAILED. */
  lemma RowsOnlyMoveForward(cfg: Config, refs: iset<string>, s: State, e: Event, pk: nat)
    requires Safe(cfg, refs, s) && Enabled(cfg, s, e) && pk in s.rows && pk in Step(cfg, s, e).rows
    ensures var a, b := s.rows[pk], Step(cfg, s, e).rows[pk];
            Follows(a, b) && (a == Created ==> b != Sent)
  {
    if e.StoreSending? || e.StoreSent? || e.StoreFailed? {
      assert InStep(s, e.worker);
    }
  }

  // ---- One spelling per row is exactly what it takes ----

  ghost function NextJob(s: State, reference: string): QueueJob {
    QueueJob(PriorityRank("normal"), s.nextSeq + 1, "outbound", reference, "normal")
  }

  /** A fresh key goes through an empty queue to a free worker. */
  lemma ThroughTheQueue(cfg: Config, s: State, reference: string, w: nat) returns (es: seq<Event>)
    requires s.queue == {} && s.enqueuers == map[] && w !in s.workers && w < cfg.workers
    requires Key("outbound", reference) !in s.inFlight
    ensures Possible(cfg, s, es) && (forall e :: e in es && e.Reserve? ==> e.reference == reference)
    ensures Run(cfg, s, es) == s.(inFlight := s.inFlight + {Key("outbound", reference)}, nextSeq := s.nextSeq + 1,
              workers := s.workers[w := Worker(NextJob(s, reference), Got)])
  {
    var s1 := Step(cfg, s, Reserve(0, "outbound", reference, "normal"));
    var s2 := Step(cfg, s1, Number(0));
    var s3 := Step(cfg, s2, Put(0));
    var get := Get(w, NextJob(s, reference));
    es := [get];
    RunCons(cfg, s3, get, []);
    RunCons(cfg, s2, Put(0), es);
    es := [Put(0)] + es;
    RunCons(cfg, s1, Number(0), es);
    es := [Number(0)] + es;
    RunCons(cfg, s, Reserve(0, "outbound", reference, "normal"), es);
    es := [Reserve(0, "outbound", reference, "normal")] + es;
    assert s3.queue - {get.job} == s.queue;
    assert s3.enqueuers == s.enqueuers;
  }

  /** A worker inside the lock sends its row, whatever state the row has meanwhile, and ends. */
  lemma InsideSends(cfg: Config, s: State, w: nat, pk: nat) returns (es: seq<Event>)
    requires w in s.workers && s.workers[w].at == Prepared(pk) && pk in s.rows
    ensures Possible(cfg, s, es) && forall e :: e in es ==> !e.Reserve?
    ensures Run(cfg, s, es) == s.(rows := s.rows[pk := Sent], sends := Add(s.sends, pk, 1),
                                  workers := s.workers[w := Worker(s.workers[w].job, Finished)])
  {
    var s1 := Step(cfg, s, StoreSending(w, true));
    var s2 := Step(cfg, s1, Send(w, Ok));
    es := [StoreSent(w, true)];
    RunCons(cfg, s2, StoreSent(w, true), []);
    RunCons(cfg, s1, Send(w, Ok), es);
    es := [Send(w, Ok)] + es;
    RunCons(cfg, s, StoreSending(w, true), es);
    es := [StoreSending(w, true)] + es;
  }

  /** A worker that holds a row and finds the lock free sends it and ends. */
  lemma HolderSends(cfg: Config, s: State, w: nat, pk: nat) returns (es: seq<Event>)
    requires w in s.workers && s.workers[w].at == Holding(pk) && pk in s.rows && LockFree(s)
    ensures Possible(cfg, s, es) && forall e :: e in es ==> !e.Reserve?
    ensures Run(cfg, s, es) == s.(rows := s.rows[pk := Sent], sends := Add(s.sends, pk, 1),
                                  workers := s.workers[w := Worker(s.workers[w].job, Finished)])
  {
    var s1 := Step(cfg, s, Acquire(w));
    var s2 := Step(cfg, s1, Prepare(w, Ok));
    es := InsideSends(cfg, s2, w, pk);
    RunCons(cfg, s1, Prepare(w, Ok), es);
    es := [Prepare(w, Ok)] + es;
    RunCons(cfg, s, Acquire(w), es);
    es := [Acquire(w)] + es;
  }

  lemma {:induction false} RunAppend(cfg: Config, s: State, es: seq<Event>, fs: seq<Event>)
    requires Possible(cfg, s, es) && Possible(cfg, Run(cfg, s, es), fs)
    ensures Possible(cfg, s, es + fs) && Run(cfg, s, es + fs) == Run(cfg, Run(cfg, s, es), fs)
    decreases |es|
  {
    if es == [] {
      assert es + fs == fs;
    } else {
      RunAppend(cfg, Step(cfg, s, es[0]), es[1..], fs);
      assert (es + fs)[1..] == es[1..] + fs;
    }
  }

  /** Both workers read CREATED before either has the lock, and one after the other send the row. */
  lemma TwoReadersSendTwice(cfg: Config, s: State, pk: nat) returns (es: seq<Event>)
    requires pk in s.rows && s.rows[pk] == Created && Count(s.sends, pk) == 0 && s.workers.Keys == {0, 1}
    requires s.workers[0].at == Got && s.workers[0].job.jobType == "outbound"
    requires s.workers[1].at == Got && s.workers[1].job.jobType == "outbound"
    requires cfg.parse(s.workers[0].job.reference) == cfg.parse(s.workers[1].job.reference) == Some(pk)
    ensures Possible(cfg, s, es) && Count(Run(cfg, s, es).sends, pk) == 2 && forall e :: e in es ==> !e.Reserve?
  {
    var s1 := Step(cfg, s, Fetch(0, true));
    es := [Fetch(1, true)];
    RunCons(cfg, s1, Fetch(1, true), []);
    RunCons(cfg, s, Fetch(0, true), es);
    es := [Fetch(0, true)] + es;
    var first := HolderSends(cfg, Run(cfg, s, es), 0, pk);
    RunAppend(cfg, s, es, first);
    es := es + first;
    var second := HolderSends(cfg, Run(cfg, s, es), 1, pk);
    RunAppend(cfg, s, es, second);
    es := es + second;
  }

  lemma {:induction false} RowsUpTo(cfg: Config, pk: nat) returns (es: seq<Event>)
    ensures Possible(cfg, Init, es) && forall e :: e in es ==> !e.Reserve?
    ensures var s := Run(cfg, Init, es);
            s == Init.(rows := s.rows, nextRow := pk + 1) && pk in s.rows && s.rows[pk] == Created
  {
    es := [];
    if pk > 0 { es := RowsUpTo(cfg, pk - 1); }
    RunCons(cfg, Run(cfg, Init, es), NewRow, []);
    RunAppend(cfg, Init, es, [NewRow]);
    es := es + [NewRow];
  }

  /** Two references to one row get past the in-flight set, and the row is sent twice. */
  lemma TwoSpellingsSendTwice(cfg: Config, a: string, b: string, pk: nat) returns (es: seq<Event>)
    requires a != b && cfg.parse(a) == cfg.parse(b) == Some(pk) && 2 <= cfg.workers
    ensures Possible(cfg, Init, es) && Uses(iset{a, b}, es) && Count(Run(cfg, Init, es).sends, pk) == 2
  {
    es := RowsUpTo(cfg, pk);
    var first := ThroughTheQueue(cfg, Run(cfg, Init, es), a, 0);
    RunAppend(cfg, Init, es, first);
    es := es + first;
    assert Key("outbound", a)[9..] == a && Key("outbound", b)[9..] == b;
    var second := ThroughTheQueue(cfg, Run(cfg, Init, es), b, 1);
    RunAppend(cfg, Init, es, second);
    es := es + second;
    var sends := TwoReadersSendTwice(cfg, Run(cfg, Init, es), pk);
    RunAppend(cfg, Init, es, sends);
    es := es + sends;
  }

  ghost predicate NeverSendsTwice(cfg: Config, refs: iset<string>) {
    forall es: seq<Event>, pk: nat | Possible(cfg, Init, es) && Uses(refs, es) ::
      Count(Run(cfg, Init, es).sends, pk) <= 1
  }

  /** With these references no run ever sends a row twice iff no two of them name one row, or
      there is at most one worker. */
  lemma SendsOnceIff(cfg: Config, refs: iset<string>)
    ensures NeverSendsTwice(cfg, refs) <==> OneSpelling(cfg, refs) || cfg.workers <= 1
  {
    if OneAtATime(cfg, refs) {
      forall es: seq<Event>, pk: nat | Possible(cfg, Init, es) && Uses(refs, es)
        ensures Count(Run(cfg, Init, es).sends, pk) <= 1
      {
        AtMostOneSend(cfg, refs, es, pk);
      }
    } else {
      var a, b :| a in refs && b in refs && cfg.parse(a).Some? && cfg.parse(a) == cfg.parse(b) && a != b;
      var es := TwoSpellingsSendTwice(cfg, a, b, cfg.parse(a).value);
      assert Uses(refs, es);
    }
  }

  // ---- The references the API writes ----

  function Digit(d: nat): char
    requires d < 10
  {
    '0' + d as char
  }

  /** `str(pk)`. */
  function Show(n: nat): string {
    (if n < 10 then "" else Show(n / 10)) + [Digit(n % 10)]
  }

  /** `int()` on a text of decimal digits; None stands for a ValueError. */
  function ReadDigits(s: string): Option<nat> {
    if s == "" then None
    else
      var c, before := s[|s| - 1], s[..|s| - 1];
      if !('0' <= c <= '9') then None
      else if before == "" then Some((c - '0') as int)
      else if ReadDigits(before) == None then None
      else Some(ReadDigits(before).value * 10 + (c - '0') as int)
  }

  /** Every key is read back from the text it is written as. */
  lemma {:induction false} ShowReadsBack(n: nat)
    ensures Show(n) != "" && ReadDigits(Show(n)) == Some(n)
  {
    var s := Show(n);
    assert s[|s| - 1] == Digit(n % 10);
    if n < 10 {
      assert s[..|s| - 1] == "";
    } else {
      assert s[..|s| - 1] == Show(n / 10);
      ShowReadsBack(n / 10);
    }
  }

  /** So among the references the API writes, no two name one row, and no row is sent twice.
      Elsewhere `int()` is free to accept more texts, such as leading zeros or signs. */
  lemma StrIsOneSpelling(cfg: Config)
    requires forall s: string :: ReadDigits(s).Some? ==> cfg.parse(s) == ReadDigits(s)
    ensures NeverSendsTwice(cfg, iset n: nat :: Show(n))
  {
    var refs := iset n: nat :: Show(n);
    forall a, b | a in refs && b in refs && cfg.parse(a).Some? && cfg.parse(a) == cfg.parse(b) ensures a == b {
      var m: nat :| a == Show(m);
      var n: nat :| b == Show(n);
      ShowReadsBack(m);
      ShowReadsBack(n);
    }
    SendsOnceIff(cfg, refs);
  }
}
