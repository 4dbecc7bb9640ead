/** Bounded bypass in the dead-letter queue: how many batches can pass over an eligible row. */
module DeadLetterFairness {
  import opened Common
  import opened DeadLetter

  /** No two rows failed at the same instant. */
  ghost predicate DistinctTimes(s: State) {
    forall i, j :: i in s.rows && j in s.rows && s.rows[i].failedAt == s.rows[j].failedAt ==> i == j
  }

  /** The clock has moved on since every stored failure when the next one is reported. */
  ghost predicate StrictClock(s: State, e: Event) {
    e.Enqueue? ==> forall id :: id in s.rows ==> s.rows[id].failedAt < s.now
  }

  lemma DistinctTimesStep(cfg: Config, s: State, e: Event)
    requires WellKept(s) && DistinctTimes(s) && Enabled(cfg, s, e) && StrictClock(s, e)
    ensures DistinctTimes(Step(cfg, s, e))
  {
  }

  ghost predicate StrictRun(cfg: Config, s: State, es: seq<Event>)
    requires Possible(cfg, s, es)
    decreases |es|
  {
    es != [] ==> StrictClock(s, es[0]) && StrictRun(cfg, Step(cfg, s, es[0]), es[1..])
  }

  lemma {:induction false} DistinctTimesRun(cfg: Config, s: State, es: seq<Event>)
    requires WellKept(s) && DistinctTimes(s) && Possible(cfg, s, es) && StrictRun(cfg, s, es)
    ensures DistinctTimes(Run(cfg, s, es))
    decreases |es|
  {
    if es != [] {
      WellKeptStep(cfg, s, es[0]);
      DistinctTimesStep(cfg, s, es[0]);
      DistinctTimesRun(cfg, Step(cfg, s, es[0]), es[1..]);
    }
  }

  // ---- Retries left in the rows ahead ----

  ghost predicate AheadOf(cfg: Config, s: State, mine: nat, id: nat)
    requires mine in s.rows
  {
    id in s.rows && s.rows[id].failedAt < s.rows[mine].failedAt && s.rows[id].retries < cfg.maxRetries
  }

  /** Retries row `id` can still take before `mine`; a retry that is under way is not counted. */
  ghost function Turns(cfg: Config, s: State, mine: nat, id: nat): nat
    requires mine in s.rows
  {
    if AheadOf(cfg, s, mine, id)
    then cfg.maxRetries - s.rows[id].retries - (if InBatch(s.todo, id) then 1 else 0)
    else 0
  }

  ghost function TurnsAhead(cfg: Config, s: State, mine: nat, n: nat): nat
    requires mine in s.rows
  {
    if n == 0 then 0 else TurnsAhead(cfg, s, mine, n - 1) + Turns(cfg, s, mine, n - 1)
  }

  // ---- What one step does to them ----

  /** `mine` is stored, due, outside the current batch, and the next step leaves it so. */
  ghost predicate Waits(cfg: Config, s: State, mine: nat) {
    mine in s.rows && Eligible(cfg, s.rows[mine], s.now) && !InBatch(s.todo, mine)
  }

  ghost predicate PassesOver(s: State, e: Event, mine: nat)
    requires mine in s.rows
  {
    match e
    case Enqueue(path, _, _) => path != s.rows[mine].path
    case RemoveByPath(path) => path != s.rows[mine].path
    case Dequeue(_, batch) => !InBatch(batch, mine)
    case _ => true
  }

  lemma WaitsStep(cfg: Config, s: State, e: Event, mine: nat)
    requires Waits(cfg, s, mine) && Enabled(cfg, s, e) && PassesOver(s, e, mine) && mine < s.nextId
    ensures Waits(cfg, Step(cfg, s, e), mine) && Step(cfg, s, e).rows[mine] == s.rows[mine]
  {
    if e.Recovered? || e.RetryFailed? { assert s.todo[0].id != mine; }
  }

  lemma TailBatch(batch: seq<Item>, id: nat)
    requires batch != [] && DistinctItems(batch)
    ensures InBatch(batch[1..], id) <==> InBatch(batch, id) && id != batch[0].id
  {
    if InBatch(batch, id) && id != batch[0].id {
      var i :| 0 <= i < |batch| && batch[i].id == id;
      assert batch[1..][i - 1].id == id;
    }
  }

  /** Rows the step drops from a batch without charging them a retry. */
  ghost function Dropped(s: State, e: Event): seq<Item> {
    if e.Abort? then s.todo else []
  }

  lemma TurnsBySettling(cfg: Config, s: State, e: Event, mine: nat, id: nat)
    requires WellKept(s) && TodoFresh(cfg, s) && Waits(cfg, s, mine) && Enabled(cfg, s, e)
    requires e.Recovered? || e.RetryFailed?
    requires mine in Step(cfg, s, e).rows && Step(cfg, s, e).rows[mine] == s.rows[mine]
    ensures Turns(cfg, Step(cfg, s, e), mine, id) <= Turns(cfg, s, mine, id)
  {
    TailBatch(s.todo, id);
  }

  lemma TurnsByBatch(cfg: Config, s: State, e: Event, mine: nat, id: nat)
    requires DistinctTimes(s) && Waits(cfg, s, mine) && Enabled(cfg, s, e) && PassesOver(s, e, mine)
    requires e.Dequeue? || e.Abort?
    ensures Turns(cfg, Step(cfg, s, e), mine, id)
         <= Turns(cfg, s, mine, id) - (if e.Dequeue? && InBatch(e.batch, id) then 1 else 0)
            + (if InBatch(Dropped(s, e), id) then 1 else 0)
  {
    if e.Dequeue? && InBatch(e.batch, id) {
      var i :| 0 <= i < |e.batch| && e.batch[i].id == id;
      assert id != mine;
    }
  }

  lemma TurnsByOthers(cfg: Config, s: State, e: Event, mine: nat, id: nat)
    requires WellKept(s) && Waits(cfg, s, mine) && Enabled(cfg, s, e) && StrictClock(s, e)
    requires e.Tick? || e.Enqueue? || e.RemoveByPath?
    requires mine in Step(cfg, s, e).rows && Step(cfg, s, e).rows[mine] == s.rows[mine]
    ensures Turns(cfg, Step(cfg, s, e), mine, id) <= Turns(cfg, s, mine, id)
  {
  }

  /** Being dequeued costs a row ahead one turn, being dropped gives it back; no step gives it more. */
  lemma TurnsStep(cfg: Config, s: State, e: Event, mine: nat, id: nat)
    requires WellKept(s) && TodoFresh(cfg, s) && DistinctTimes(s) && Waits(cfg, s, mine)
    requires Enabled(cfg, s, e) && PassesOver(s, e, mine) && StrictClock(s, e)
    requires mine in Step(cfg, s, e).rows && Step(cfg, s, e).rows[mine] == s.rows[mine]
    ensures Turns(cfg, Step(cfg, s, e), mine, id)
         <= Turns(cfg, s, mine, id) - (if e.Dequeue? && InBatch(e.batch, id) then 1 else 0)
            + (if InBatch(Dropped(s, e), id) then 1 else 0)
  {
    if e.Recovered? || e.RetryFailed? {
      TurnsBySettling(cfg, s, e, mine, id);
    } else if e.Dequeue? || e.Abort? {
      TurnsByBatch(cfg, s, e, mine, id);
    } else {
      TurnsByOthers(cfg, s, e, mine, id);
    }
  }

  // ---- Summing up ----

  /** How many of the keys below `n` are in the batch. */
  ghost function Members(batch: seq<Item>, n: nat): nat {
    if n == 0 then 0 else Members(batch, n - 1) + if InBatch(batch, n - 1) then 1 else 0
  }

  lemma {:induction false} MembersOfNone(n: nat)
    ensures Members([], n) == 0
  {
    if n > 0 { MembersOfNone(n - 1); }
  }

  lemma {:induction false} MembersWithoutFirst(batch: seq<Item>, n: nat)
    requires batch != [] && DistinctItems(batch)
    ensures Members(batch, n) == Members(batch[1..], n) + if batch[0].id < n then 1 else 0
  {
    if n > 0 {
      MembersWithoutFirst(batch, n - 1);
      TailBatch(batch, n - 1);
      assert batch[0].id == n - 1 ==> InBatch(batch, n - 1);
    }
  }

  lemma {:induction false} MembersIsLength(batch: seq<Item>, n: nat)
    requires DistinctItems(batch) && forall i :: 0 <= i < |batch| ==> batch[i].id < n
    ensures Members(batch, n) == |batch|
    decreases |batch|
  {
    if batch == [] {
      MembersOfNone(n);
    } else {
      MembersWithoutFirst(batch, n);
      MembersIsLength(batch[1..], n);
    }
  }

  lemma {:induction false} TurnsAddUp(cfg: Config, s: State, s': State, mine: nat, taken: seq<Item>, back: seq<Item>,
                                      n: nat)
    requires mine in s.rows && mine in s'.rows
    requires forall id: nat :: Turns(cfg, s', mine, id)
                            <= Turns(cfg, s, mine, id) - (if InBatch(taken, id) then 1 else 0)
                               + (if InBatch(back, id) then 1 else 0)
    ensures TurnsAhead(cfg, s', mine, n) <= TurnsAhead(cfg, s, mine, n) - Members(taken, n) + Members(back, n)
  {
    if n > 0 { TurnsAddUp(cfg, s, s', mine, taken, back, n - 1); }
  }

  lemma TurnsAheadStep(cfg: Config, s: State, e: Event, mine: nat, n: nat)
    requires WellKept(s) && TodoFresh(cfg, s) && DistinctTimes(s) && Waits(cfg, s, mine)
    requires Enabled(cfg, s, e) && PassesOver(s, e, mine) && StrictClock(s, e)
    requires mine in Step(cfg, s, e).rows && Step(cfg, s, e).rows[mine] == s.rows[mine]
    ensures TurnsAhead(cfg, Step(cfg, s, e), mine, n)
         <= TurnsAhead(cfg, s, mine, n) - (if e.Dequeue? then Members(e.batch, n) else 0) + Members(Dropped(s, e), n)
  {
    var taken := if e.Dequeue? then e.batch else [];
    forall id: nat
      ensures Turns(cfg, Step(cfg, s, e), mine, id)
           <= Turns(cfg, s, mine, id) - (if InBatch(taken, id) then 1 else 0)
              + (if InBatch(Dropped(s, e), id) then 1 else 0)
    {
      TurnsStep(cfg, s, e, mine, id);
    }
    TurnsAddUp(cfg, s, Step(cfg, s, e), mine, taken, Dropped(s, e), n);
    MembersOfNone(n);
  }

  lemma {:induction false} LaterKeysHaveNoTurns(cfg: Config, s: State, mine: nat, n: nat)
    requires WellKept(s) && mine in s.rows && s.nextId <= n
    ensures TurnsAhead(cfg, s, mine, n) == TurnsAhead(cfg, s, mine, s.nextId)
  {
    if s.nextId < n { LaterKeysHaveNoTurns(cfg, s, mine, n - 1); }
  }

  ghost function Batches(es: seq<Event>): nat {
    if es == [] then 0 else (if es[0].Dequeue? then 1 else 0) + Batches(es[1..])
  }

  /** How many rows the run drops from batches that die before they are through. */
  ghost function DroppedRows(cfg: Config, s: State, es: seq<Event>): nat
    requires Possible(cfg, s, es)
    decreases |es|
  {
    if es == [] then 0 else |Dropped(s, es[0])| + DroppedRows(cfg, Step(cfg, s, es[0]), es[1..])
  }

  /** Every step of the run leaves `mine` waiting, the clock is strict, and no batch is smaller
      than `limit`. */
  ghost predicate PassedOver(cfg: Config, s: State, es: seq<Event>, mine: nat, limit: nat)
    requires Possible(cfg, s, es)
    decreases |es|
  {
    es != [] ==>
      && mine in s.rows && PassesOver(s, es[0], mine) && StrictClock(s, es[0])
      && (es[0].Dequeue? ==> es[0].limit < 0 || limit <= es[0].limit)
      && PassedOver(cfg, Step(cfg, s, es[0]), es[1..], mine, limit)
  }

  lemma PassingBatchIsFull(cfg: Config, s: State, limit: int, batch: seq<Item>, mine: nat)
    requires IsBatch(cfg, s.rows, s.now, limit, batch)
    requires mine in s.rows && Eligible(cfg, s.rows[mine], s.now) && !InBatch(batch, mine)
    ensures |batch| == limit
  {
  }

  /** The batches that pass over an eligible row, times their limit, are paid for by the turns of
      the rows ahead and by the rows that aborted batches dropped. */
  lemma {:induction false} BoundedBypass(cfg: Config, s: State, es: seq<Event>, mine: nat, limit: nat)
    requires WellKept(s) && TodoFresh(cfg, s) && DistinctTimes(s) && Waits(cfg, s, mine)
    requires Possible(cfg, s, es) && PassedOver(cfg, s, es, mine, limit)
    ensures Batches(es) * limit <= TurnsAhead(cfg, s, mine, s.nextId) + DroppedRows(cfg, s, es)
    decreases |es|
  {
    if es != [] {
      var e, s1 := es[0], Step(cfg, s, es[0]);
      WaitsStep(cfg, s, e, mine);
      WellKeptStep(cfg, s, e);
      TodoFreshStep(cfg, s, e);
      DistinctTimesStep(cfg, s, e);
      BoundedBypass(cfg, s1, es[1..], mine, limit);
      TurnsAheadStep(cfg, s, e, mine, s1.nextId);
      LaterKeysHaveNoTurns(cfg, s, mine, s1.nextId);
      MembersIsLength(Dropped(s, e), s1.nextId);
      if e.Dequeue? {
        MembersIsLength(e.batch, s1.nextId);
        PassingBatchIsFull(cfg, s, e.limit, e.batch, mine);
        assert (1 + Batches(es[1..])) * limit == Batches(es[1..]) * limit + limit;
      }
    }
  }

  // ---- The bound in retries ----

  /** The sum of `max_retries - retry_count` over the rows that failed before `mine`. */
  ghost function RetriesAhead(cfg: Config, s: State, mine: nat, n: nat): nat
    requires mine in s.rows
  {
    if n == 0 then 0
    else
      RetriesAhead(cfg, s, mine, n - 1)
      + if AheadOf(cfg, s, mine, n - 1) then cfg.maxRetries - s.rows[n - 1].retries else 0
  }

  lemma {:induction false} TurnsWithinRetries(cfg: Config, s: State, mine: nat, n: nat)
    requires mine in s.rows
    ensures TurnsAhead(cfg, s, mine, n) <= RetriesAhead(cfg, s, mine, n)
  {
    if n > 0 { TurnsWithinRetries(cfg, s, mine, n - 1); }
  }

  lemma {:induction false} BypassInRetries(cfg: Config, past: seq<Event>, es: seq<Event>, mine: nat, limit: nat)
    requires Possible(cfg, Init, past) && StrictRun(cfg, Init, past)
    requires var s := Run(cfg, Init, past);
             Waits(cfg, s, mine) && Possible(cfg, s, es) && PassedOver(cfg, s, es, mine, limit)
    ensures var s := Run(cfg, Init, past);
            Batches(es) * limit <= RetriesAhead(cfg, s, mine, s.nextId) + DroppedRows(cfg, s, es)
  {
    var s := Run(cfg, Init, past);
    InvariantsRun(cfg, Init, past);
    DistinctTimesRun(cfg, Init, past);
    BoundedBypass(cfg, s, es, mine, limit);
    TurnsWithinRetries(cfg, s, mine, s.nextId);
  }

  /** After any run under a strict clock: an eligible row that is not reported again is retried
      within `(RetriesAhead + DroppedRows) / limit + 1` batches; without aborted batches,
      within `RetriesAhead / limit + 1`. */
  lemma {:induction false} RetriedWithinBound(cfg: Config, past: seq<Event>, es: seq<Event>, mine: nat, limit: nat)
    requires Possible(cfg, Init, past) && StrictRun(cfg, Init, past) && 1 <= limit
    requires var s := Run(cfg, Init, past);
             Waits(cfg, s, mine) && Possible(cfg, s, es) && PassedOver(cfg, s, es, mine, limit)
    ensures var s := Run(cfg, Init, past);
            Batches(es) < (RetriesAhead(cfg, s, mine, s.nextId) + DroppedRows(cfg, s, es)) / limit + 1
  {
    var s := Run(cfg, Init, past);
    BypassInRetries(cfg, past, es, mine, limit);
    DivisionBound(Batches(es), limit, RetriesAhead(cfg, s, mine, s.nextId) + DroppedRows(cfg, s, es));
  }

  lemma DivisionBound(a: nat, b: nat, c: nat)
    requires 1 <= b && a * b <= c
    ensures a <= c / b
  {
    var q, r := c / b, c % b;
    assert c == q * b + r && r < b;
    if a > q {
      MulMono(q + 1, b, a, b);
      assert false;
    }
  }
}
