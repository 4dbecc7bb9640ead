/** The dead-letter queue of failed persists as a transition system. Every method body runs
    under the queue's lock, so each is one step; one batch processor walks its batch while
    other threads enqueue and remove rows. */
module DeadLetter {
  import opened Common
  import opened Text

  datatype Entry = Entry(path: string, modem: nat, failedAt: nat, retries: nat, lastError: string, nextRetryAt: nat)
  datatype Item = Item(id: nat, path: string, modem: nat)
  datatype Config = Config(maxSize: int, retryIntervalSec: nat, maxRetries: int)

  /** Clock readings are microseconds. */
  const SECOND := 1_000_000

  function Pow2(n: nat): (r: nat)
    ensures 1 <= r
  {
    if n == 0 then 1 else 2 * Pow2(n - 1)
  }

  /** Seconds to wait before retry number `n` + 1. */
  function BackoffSec(cfg: Config, n: nat): nat {
    Min(3600, cfg.retryIntervalSec * Pow2(Min(n, 6)))
  }

  // ---- What each statement writes into one row ----

  function NewEntry(path: string, modem: nat, error: string, now: nat): Entry {
    Entry(path, modem, now, 0, Truncated(error), now)
  }

  /** ON CONFLICT: the retry count and the modem stay. */
  function Reported(e: Entry, error: string, now: nat): Entry {
    e.(lastError := Truncated(error), failedAt := now, nextRetryAt := now)
  }

  function Retried(cfg: Config, e: Entry, error: string, now: nat): Entry {
    e.(retries := e.retries + 1, lastError := Truncated(error),
       nextRetryAt := now + BackoffSec(cfg, e.retries + 1) * SECOND)
  }

  predicate Eligible(cfg: Config, e: Entry, now: nat) {
    e.retries < cfg.maxRetries && e.nextRetryAt <= now
  }

  predicate Exhausted(cfg: Config, e: Entry) {
    e.retries >= cfg.maxRetries
  }

  ghost predicate InBatch(batch: seq<Item>, id: nat) {
    exists i :: 0 <= i < |batch| && batch[i].id == id
  }

  ghost predicate DistinctItems(batch: seq<Item>) {
    forall i, j :: 0 <= i < j < |batch| ==> batch[i].id != batch[j].id
  }

  /** `batch` answers the SELECT: eligible rows, oldest failure first, cut off at `limit` (not
      at all if negative). Rows with equal `failed_at` may come in any order. */
  ghost predicate IsBatch(cfg: Config, rows: map<nat, Entry>, now: nat, limit: int, batch: seq<Item>) {
    && DistinctItems(batch)
    && (forall i :: 0 <= i < |batch| ==>
          && batch[i].id in rows && Eligible(cfg, rows[batch[i].id], now)
          && batch[i].path == rows[batch[i].id].path && batch[i].modem == rows[batch[i].id].modem)
    && (forall i, j :: 0 <= i < j < |batch| ==> rows[batch[i].id].failedAt <= rows[batch[j].id].failedAt)
    && (limit >= 0 ==> |batch| <= limit)
    && (forall id :: id in rows && Eligible(cfg, rows[id], now) && !InBatch(batch, id) ==>
          && |batch| == limit
          && forall i :: 0 <= i < |batch| ==> rows[batch[i].id].failedAt <= rows[id].failedAt)
  }

  // ---- The system ----

  /** `todo` is what the batch processor has dequeued and not yet settled. */
  datatype State = State(rows: map<nat, Entry>, nextId: nat, now: nat, todo: seq<Item>)

  datatype Event =
    | Tick
    | Enqueue(path: string, modem: nat, error: string)
    | RemoveByPath(path: string)
    | Dequeue(limit: int, batch: seq<Item>)
    | Recovered                                  // the first row of `todo` was persisted
    | RetryFailed(error: string)                 // it was not
    | Abort                                      // the batch dies between two rows

  ghost const Init := State(map[], 0, 0, [])

  ghost predicate Enabled(cfg: Config, s: State, e: Event) {
    match e
    case Dequeue(limit, batch) => s.todo == [] && IsBatch(cfg, s.rows, s.now, limit, batch)
    case Recovered => s.todo != []
    case RetryFailed(_) => s.todo != []
    case _ => true
  }

  ghost predicate Stored(rows: map<nat, Entry>, path: string, id: nat) {
    id in rows && rows[id].path == path
  }

  ghost predicate Present(rows: map<nat, Entry>, path: string) {
    exists id :: Stored(rows, path, id)
  }

  /** A full table refuses every path, also one it already holds. */
  ghost function Enqueued(cfg: Config, s: State, path: string, modem: nat, error: string): State {
    if |s.rows| >= cfg.maxSize then s
    else if Present(s.rows, path) then
      s.(rows := map id | id in s.rows ::
                   if s.rows[id].path == path then Reported(s.rows[id], error, s.now) else s.rows[id])
    else s.(rows := s.rows[s.nextId := NewEntry(path, modem, error, s.now)], nextId := s.nextId + 1)
  }

  ghost function Step(cfg: Config, s: State, e: Event): State
    requires Enabled(cfg, s, e)
  {
    match e
    case Tick => s.(now := s.now + 1)
    case Enqueue(path, modem, error) => Enqueued(cfg, s, path, modem, error)
    case RemoveByPath(path) => s.(rows := map id | id in s.rows && s.rows[id].path != path :: s.rows[id])
    case Dequeue(_, batch) => s.(todo := batch)
    case Recovered => s.(rows := s.rows - {s.todo[0].id}, todo := s.todo[1..])
    case RetryFailed(error) =>
      var id := s.todo[0].id;
      s.(rows := if id in s.rows then s.rows[id := Retried(cfg, s.rows[id], error, s.now)] else s.rows,
         todo := s.todo[1..])
    case Abort => s.(todo := [])
  }

  ghost predicate Possible(cfg: Config, s: State, es: seq<Event>)
    decreases |es|
  {
    es != [] ==> Enabled(cfg, s, es[0]) && Possible(cfg, Step(cfg, s, es[0]), es[1..])
  }

  ghost function Run(cfg: Config, s: State, es: seq<Event>): State
    requires Possible(cfg, s, es)
    decreases |es|
  {
    if es == [] then s else Run(cfg, Step(cfg, s, es[0]), es[1..])
  }

  // ---- Invariants of every run ----

  ghost predicate Bounded(cfg: Config, s: State) {
    && |s.rows| <= Max(0, cfg.maxSize)
    && (forall id :: id in s.rows ==> s.rows[id].retries <= Max(0, cfg.maxRetries))
  }

  ghost predicate IdsKnown(s: State) {
    forall id :: id in s.rows ==> id < s.nextId && s.rows[id].failedAt <= s.now
  }

  ghost predicate PathsUnique(s: State) {
    forall i, j :: i in s.rows && j in s.rows && s.rows[i].path == s.rows[j].path ==> i == j
  }

  ghost predicate WellKept(s: State) {
    IdsKnown(s) && PathsUnique(s)
  }

  ghost predicate TodoDistinct(s: State) {
    DistinctItems(s.todo) && forall i :: 0 <= i < |s.todo| ==> s.todo[i].id < s.nextId
  }

  ghost predicate TodoAsRead(cfg: Config, s: State) {
    forall i :: 0 <= i < |s.todo| && s.todo[i].id in s.rows ==>
      s.rows[s.todo[i].id].path == s.todo[i].path && s.rows[s.todo[i].id].retries < cfg.maxRetries
  }

  /** The rows of the batch that are still stored are the ones that were read, and still have
      a retry left. */
  ghost predicate TodoFresh(cfg: Config, s: State) {
    TodoDistinct(s) && TodoAsRead(cfg, s)
  }

  lemma SmallerMap(m: map<nat, Entry>, n: map<nat, Entry>)
    requires n.Keys <= m.Keys
    ensures |n| <= |m|
  {
    SmallerSet(n.Keys, m.Keys);
  }

  lemma {:induction false} SmallerSet(a: set<nat>, b: set<nat>)
    requires a <= b
    ensures |a| <= |b|
  {
    assert b == a + (b - a);
  }

  lemma EnqueueKeepsBounds(cfg: Config, s: State, path: string, modem: nat, error: string)
    requires Bounded(cfg, s)
    ensures Bounded(cfg, Enqueued(cfg, s, path, modem, error))
  {
    var s' := Enqueued(cfg, s, path, modem, error);
    if |s.rows| < cfg.maxSize && !Present(s.rows, path) {
      assert s'.rows.Keys == s.rows.Keys + {s.nextId};
    } else {
      SmallerMap(s.rows, s'.rows);
    }
  }

  lemma BoundedStep(cfg: Config, s: State, e: Event)
    requires Bounded(cfg, s) && TodoFresh(cfg, s) && Enabled(cfg, s, e)
    ensures Bounded(cfg, Step(cfg, s, e))
  {
    if e.Enqueue? {
      EnqueueKeepsBounds(cfg, s, e.path, e.modem, e.error);
    } else {
      SmallerMap(s.rows, Step(cfg, s, e).rows);
    }
  }

  lemma IdsKnownStep(cfg: Config, s: State, e: Event)
    requires IdsKnown(s) && Enabled(cfg, s, e)
    ensures IdsKnown(Step(cfg, s, e))
  {
  }

  lemma PathsUniqueStep(cfg: Config, s: State, e: Event)
    requires WellKept(s) && Enabled(cfg, s, e)
    ensures PathsUnique(Step(cfg, s, e))
  {
    if e.Enqueue? {
      assert forall id :: id in s.rows && s.rows[id].path == e.path ==> Stored(s.rows, e.path, id);
    }
  }

  lemma WellKeptStep(cfg: Config, s: State, e: Event)
    requires WellKept(s) && Enabled(cfg, s, e)
    ensures WellKept(Step(cfg, s, e))
  {
    IdsKnownStep(cfg, s, e);
    PathsUniqueStep(cfg, s, e);
  }

  lemma TodoDistinctStep(cfg: Config, s: State, e: Event)
    requires IdsKnown(s) && TodoDistinct(s) && Enabled(cfg, s, e)
    ensures TodoDistinct(Step(cfg, s, e))
  {
  }

  lemma TodoAsReadStep(cfg: Config, s: State, e: Event)
    requires IdsKnown(s) && TodoFresh(cfg, s) && Enabled(cfg, s, e)
    ensures TodoAsRead(cfg, Step(cfg, s, e))
  {
  }

  lemma TodoFreshStep(cfg: Config, s: State, e: Event)
    requires WellKept(s) && TodoFresh(cfg, s) && Enabled(cfg, s, e)
    ensures TodoFresh(cfg, Step(cfg, s, e))
  {
    TodoDistinctStep(cfg, s, e);
    TodoAsReadStep(cfg, s, e);
  }

  lemma {:induction false} InvariantsRun(cfg: Config, s: State, es: seq<Event>)
    requires Bounded(cfg, s) && WellKept(s) && TodoFresh(cfg, s) && Possible(cfg, s, es)
    ensures var s' := Run(cfg, s, es); Bounded(cfg, s') && WellKept(s') && TodoFresh(cfg, s')
    decreases |es|
  {
    if es != [] {
      BoundedStep(cfg, s, es[0]);
      WellKeptStep(cfg, s, es[0]);
      TodoFreshStep(cfg, s, es[0]);
      InvariantsRun(cfg, Step(cfg, s, es[0]), es[1..]);
    }
  }

  /** In every run the table holds at most `max_size` rows, one per path, each with at most
      `max_retries` retries. */
  lemma {:induction false} TableStaysBounded(cfg: Config, es: seq<Event>)
    requires Possible(cfg, Init, es)
    ensures var rows := Run(cfg, Init, es).rows;
            && |rows| <= Max(0, cfg.maxSize)
            && (forall id :: id in rows ==> rows[id].retries <= Max(0, cfg.maxRetries))
            && (forall i, j :: i in rows && j in rows && i != j ==> rows[i].path != rows[j].path)
  {
    InvariantsRun(cfg, Init, es);
  }

  // ---- Exhausted rows ----

  ghost predicate DequeuesLater(es: seq<Event>, id: nat) {
    exists e :: e in es && e.Dequeue? && InBatch(e.batch, id)
  }

  /** A row without retries left is never dequeued again, however often its path is reported. */
  lemma {:induction false} ExhaustedIsNeverDequeued(cfg: Config, s: State, es: seq<Event>, id: nat)
    requires WellKept(s) && Possible(cfg, s, es) && id < s.nextId
    requires id in s.rows ==> Exhausted(cfg, s.rows[id])
    requires InBatch(s.todo, id) ==> id !in s.rows
    ensures !DequeuesLater(es, id)
    decreases |es|
  {
    if es != [] {
      var e, s1 := es[0], Step(cfg, s, es[0]);
      WellKeptStep(cfg, s, e);
      if InBatch(s1.todo, id) && (e.Recovered? || e.RetryFailed?) {
        var i :| 0 <= i < |s1.todo| && s1.todo[i].id == id;
        assert s.todo[i + 1].id == id;
      }
      ExhaustedIsNeverDequeued(cfg, s1, es[1..], id);
    }
  }

  /** A table full of exhausted rows refuses every report until some row is removed by path. */
  ghost predicate Clogged(cfg: Config, s: State) {
    |s.rows| >= cfg.maxSize && s.todo == [] && forall id :: id in s.rows ==> Exhausted(cfg, s.rows[id])
  }

  lemma {:induction false} CloggedStaysClogged(cfg: Config, s: State, es: seq<Event>)
    requires Clogged(cfg, s) && Possible(cfg, s, es)
    requires forall e :: e in es ==> !e.RemoveByPath?
    ensures Run(cfg, s, es).rows == s.rows
    decreases |es|
  {
    if es != [] {
      assert es[0] in es;
      var s1 := Step(cfg, s, es[0]);
      if es[0].Dequeue? {
        var batch := es[0].batch;
        assert batch != [] ==> batch[0].id in s.rows && Exhausted(cfg, s.rows[batch[0].id]);
      }
      CloggedStaysClogged(cfg, s1, es[1..]);
    }
  }

  // ---- Backoff ----

  lemma {:induction false} Pow2Grows(m: nat, n: nat)
    requires m <= n
    ensures Pow2(m) <= Pow2(n)
  {
    if m < n { Pow2Grows(m, n - 1); }
  }

  /** Waiting times never shrink from one retry to a later one, and never exceed an hour. */
  lemma BackoffGrowsToAnHour(cfg: Config, m: nat, n: nat)
    requires m <= n
    ensures BackoffSec(cfg, m) <= BackoffSec(cfg, n) <= 3600
  {
    Pow2Grows(Min(m, 6), Min(n, 6));
    MulMono(cfg.retryIntervalSec, Pow2(Min(m, 6)), cfg.retryIntervalSec, Pow2(Min(n, 6)));
  }
}
