/** When a row of the dead-letter queue is tried again: not before its backoff is over, and in
    the first batch after it that has room. */
module DeadLetterBackoff {
  import opened Common
  import opened DeadLetter

  /** The seconds a row waits after its n-th failed retry: twice the interval, doubled from one
      retry to the next up to 64 times the interval, and never more than an hour. */
  ghost function SecondsToWait(interval: nat, n: nat): nat {
    var factor := if n == 0 then 1 else if n == 1 then 2 else if n == 2 then 4 else if n == 3 then 8
                  else if n == 4 then 16 else if n == 5 then 32 else 64;
    if interval * factor <= 3600 then interval * factor else 3600
  }

  lemma Powers()
    ensures Pow2(0) == 1 && Pow2(1) == 2 && Pow2(2) == 4 && Pow2(3) == 8 && Pow2(4) == 16 && Pow2(5) == 32
    ensures Pow2(6) == 64
  {
    assert Pow2(3) == 2 * Pow2(2) && Pow2(4) == 2 * Pow2(3) && Pow2(5) == 2 * Pow2(4) && Pow2(6) == 2 * Pow2(5);
  }

  lemma BackoffInSeconds(cfg: Config, n: nat)
    ensures BackoffSec(cfg, n) == SecondsToWait(cfg.retryIntervalSec, n)
  {
    Powers();
  }

  // ---- The answer of the select ----

  ghost predicate SortedBatch(rows: map<nat, Entry>, batch: seq<Item>) {
    && (forall i :: 0 <= i < |batch| ==> batch[i].id in rows)
    && (forall i, j :: 0 <= i < j < |batch| ==> rows[batch[i].id].failedAt < rows[batch[j].id].failedAt)
  }

  ghost predicate NoTies(rows: map<nat, Entry>) {
    forall i, j :: i in rows && j in rows && rows[i].failedAt == rows[j].failedAt ==> i == j
  }

  /** Batches of the same rows in the same order hold them at the same places. */
  lemma {:induction false} SameOrder(rows: map<nat, Entry>, a: seq<Item>, b: seq<Item>)
    requires SortedBatch(rows, a) && SortedBatch(rows, b) && forall id :: InBatch(a, id) <==> InBatch(b, id)
    ensures |a| == |b| && forall i :: 0 <= i < |a| ==> a[i].id == b[i].id
    decreases |a|
  {
    if a == [] {
      if b != [] { assert InBatch(b, b[0].id); }
    } else {
      assert InBatch(a, a[0].id);
      assert InBatch(b, b[0].id);
      var k :| 0 <= k < |b| && b[k].id == a[0].id;
      var j :| 0 <= j < |a| && a[j].id == b[0].id;
      assert j == 0 && k == 0;
      forall id ensures InBatch(a[1..], id) <==> InBatch(b[1..], id) {
        WithoutFirst(rows, a, id);
        WithoutFirst(rows, b, id);
      }
      SameOrder(rows, a[1..], b[1..]);
      assert forall i :: 1 <= i < |a| ==> a[i] == a[1..][i - 1] && b[i] == b[1..][i - 1];
    }
  }

  lemma WithoutFirst(rows: map<nat, Entry>, a: seq<Item>, id: nat)
    requires a != [] && SortedBatch(rows, a)
    ensures InBatch(a[1..], id) <==> InBatch(a, id) && id != a[0].id
  {
    if InBatch(a, id) && id != a[0].id {
      var i :| 0 <= i < |a| && a[i].id == id;
      assert a[1..][i - 1].id == id;
    }
    if InBatch(a[1..], id) {
      InTail(a, id);
      var i :| 0 <= i < |a[1..]| && a[1..][i].id == id;
      assert rows[a[0].id].failedAt < rows[a[i + 1].id].failedAt;
    }
  }

  function IdsOf(batch: seq<Item>): set<nat> {
    set i | 0 <= i < |batch| :: batch[i].id
  }

  lemma IdsSnoc(before: seq<Item>, last: Item)
    ensures IdsOf(before + [last]) == IdsOf(before) + {last.id}
  {
    var batch := before + [last];
    forall i | 0 <= i < |before| ensures before[i].id in IdsOf(batch) { assert batch[i] == before[i]; }
    assert batch[|before|] == last;
  }

  lemma {:induction false} IdsCount(batch: seq<Item>)
    requires DistinctItems(batch)
    ensures |IdsOf(batch)| == |batch|
  {
    if batch != [] {
      var before, last := batch[..|batch| - 1], batch[|batch| - 1];
      IdsCount(before);
      IdsSnoc(before, last);
      assert batch == before + [last];
    }
  }

  lemma MoreElsewhere(a: set<nat>, b: set<nat>, id: nat) returns (x: nat)
    requires |a| <= |b| && id in a && id !in b
    ensures x in b && x !in a
  {
    assert a == a * b + (a - b) && b == a * b + (b - a);
    assert id in a - b;
    x :| x in b - a;
  }

  /** Two answers that differ have two failures that tie. */
  lemma DifferenceIsATie(cfg: Config, rows: map<nat, Entry>, now: nat, limit: int, a: seq<Item>, b: seq<Item>, id: nat)
    returns (x: nat)
    requires IsBatch(cfg, rows, now, limit, a) && IsBatch(cfg, rows, now, limit, b) && InBatch(a, id) && !InBatch(b, id)
    ensures id in rows && x in rows && x != id && rows[x].failedAt == rows[id].failedAt
  {
    var i :| 0 <= i < |a| && a[i].id == id;
    IdsCount(a);
    IdsCount(b);
    forall k | 0 <= k < |b| ensures b[k].id != id { assert InBatch(b, b[k].id); }
    x := MoreElsewhere(IdsOf(a), IdsOf(b), id);
    var k :| 0 <= k < |b| && b[k].id == x;
    forall m | 0 <= m < |a| ensures a[m].id != x { assert a[m].id in IdsOf(a); }
  }

  lemma BatchHolds(cfg: Config, rows: map<nat, Entry>, now: nat, limit: int, a: seq<Item>, b: seq<Item>, id: nat)
    requires NoTies(rows) && IsBatch(cfg, rows, now, limit, a) && IsBatch(cfg, rows, now, limit, b) && InBatch(a, id)
    ensures InBatch(b, id)
  {
    if !InBatch(b, id) { var x := DifferenceIsATie(cfg, rows, now, limit, a, b, id); }
  }

  lemma IsSorted(cfg: Config, rows: map<nat, Entry>, now: nat, limit: int, a: seq<Item>)
    requires NoTies(rows) && IsBatch(cfg, rows, now, limit, a)
    ensures SortedBatch(rows, a)
  {
  }

  /** Unless two failures tie, the select of a batch has one answer. */
  lemma BatchIsUnique(cfg: Config, rows: map<nat, Entry>, now: nat, limit: int, a: seq<Item>, b: seq<Item>)
    requires NoTies(rows) && IsBatch(cfg, rows, now, limit, a) && IsBatch(cfg, rows, now, limit, b)
    ensures a == b
  {
    forall id ensures InBatch(a, id) <==> InBatch(b, id) {
      if InBatch(a, id) { BatchHolds(cfg, rows, now, limit, a, b, id); }
      if InBatch(b, id) { BatchHolds(cfg, rows, now, limit, b, a, id); }
    }
    IsSorted(cfg, rows, now, limit, a);
    IsSorted(cfg, rows, now, limit, b);
    SameOrder(rows, a, b);
    assert forall i :: 0 <= i < |a| ==> a[i] == b[i];
  }

  // ---- Not before its time ----

  /** Wherever row `id` is still stored, it is under its path and not due before `due`. */
  ghost predicate NotBefore(s: State, id: nat, path: string, n: nat, due: nat) {
    && id < s.nextId
    && (id in s.rows ==> s.rows[id].path == path && n <= s.rows[id].retries && due <= s.rows[id].nextRetryAt)
  }

  ghost predicate NotReported(es: seq<Event>, path: string) {
    forall e :: e in es && e.Enqueue? ==> e.path != path
  }

  lemma NotBeforeStep(cfg: Config, s: State, e: Event, id: nat, path: string, n: nat, t: nat)
    requires Enabled(cfg, s, e) && (e.Enqueue? ==> e.path != path) && t <= s.now
    requires NotBefore(s, id, path, n, t + BackoffSec(cfg, n) * SECOND)
    ensures NotBefore(Step(cfg, s, e), id, path, n, t + BackoffSec(cfg, n) * SECOND)
  {
    if e.RetryFailed? && id in s.rows {
      BackoffGrowsToAnHour(cfg, n, s.rows[id].retries + 1);
      MulMono(BackoffSec(cfg, n), SECOND, BackoffSec(cfg, s.rows[id].retries + 1), SECOND);
    }
  }

  lemma {:induction false} NotBeforeRun(cfg: Config, s: State, es: seq<Event>, id: nat, path: string, n: nat, t: nat)
    requires Possible(cfg, s, es) && NotReported(es, path) && t <= s.now
    requires NotBefore(s, id, path, n, t + BackoffSec(cfg, n) * SECOND)
    ensures NotBefore(Run(cfg, s, es), id, path, n, t + BackoffSec(cfg, n) * SECOND)
    decreases |es|
  {
    if es != [] {
      assert es[0] in es;
      NotBeforeStep(cfg, s, es[0], id, path, n, t);
      NotBeforeRun(cfg, Step(cfg, s, es[0]), es[1..], id, path, n, t);
    }
  }

  /** The batch processor fails the first row of its batch. */
  ghost predicate Fails(cfg: Config, s: State, error: string, id: nat) {
    Enabled(cfg, s, RetryFailed(error)) && s.todo[0].id == id && id in s.rows && id < s.nextId
  }

  /** A row whose retry fails at time `t` is in no batch before its backoff is over, whatever
      happens in between, unless its path is reported anew. */
  lemma {:induction false} WaitsOutItsBackoff(cfg: Config, s: State, error: string, es: seq<Event>, id: nat,
                                              limit: int, batch: seq<Item>)
    requires Fails(cfg, s, error, id)
    requires var s1 := Step(cfg, s, RetryFailed(error));
             Possible(cfg, s1, es) && NotReported(es, s.rows[id].path)
             && Enabled(cfg, Run(cfg, s1, es), Dequeue(limit, batch)) && InBatch(batch, id)
    ensures Run(cfg, Step(cfg, s, RetryFailed(error)), es).now
         >= s.now + SecondsToWait(cfg.retryIntervalSec, s.rows[id].retries + 1) * 1_000_000
  {
    var n := s.rows[id].retries + 1;
    BackoffInSeconds(cfg, n);
    NotBeforeRun(cfg, Step(cfg, s, RetryFailed(error)), es, id, s.rows[id].path, n, s.now);
  }

  // ---- But then ----

  /** Row `id` is stored with `n` retries and due at `due`, and in no batch. */
  ghost predicate Rests(s: State, id: nat, path: string, n: nat, due: nat) {
    && id in s.rows && s.rows[id].path == path && s.rows[id].retries == n && s.rows[id].nextRetryAt == due
    && !InBatch(s.todo, id) && id < s.nextId
  }

  /** The run neither reports nor removes the path, and no batch of it holds the row. */
  ghost predicate LeavesResting(es: seq<Event>, id: nat, path: string) {
    forall e :: e in es ==>
      && (e.Enqueue? ==> e.path != path) && (e.RemoveByPath? ==> e.path != path)
      && (e.Dequeue? ==> !InBatch(e.batch, id))
  }

  lemma InTail(batch: seq<Item>, id: nat)
    requires batch != [] && InBatch(batch[1..], id)
    ensures InBatch(batch, id)
  {
    var i :| 0 <= i < |batch[1..]| && batch[1..][i].id == id;
    assert batch[i + 1].id == id;
  }

  lemma RestsStep(cfg: Config, s: State, e: Event, id: nat, path: string, n: nat, due: nat)
    requires Rests(s, id, path, n, due) && Enabled(cfg, s, e) && LeavesResting([e], id, path)
    ensures Rests(Step(cfg, s, e), id, path, n, due)
  {
    assert e in [e];
    if e.Recovered? || e.RetryFailed? {
      assert s.todo[0].id != id;
      if InBatch(s.todo[1..], id) { InTail(s.todo, id); }
    }
  }

  lemma {:induction false} RestsRun(cfg: Config, s: State, es: seq<Event>, id: nat, path: string, n: nat, due: nat)
    requires Rests(s, id, path, n, due) && Possible(cfg, s, es) && LeavesResting(es, id, path)
    ensures Rests(Run(cfg, s, es), id, path, n, due)
    decreases |es|
  {
    if es != [] {
      assert es[0] in es;
      RestsStep(cfg, s, es[0], id, path, n, due);
      RestsRun(cfg, Step(cfg, s, es[0]), es[1..], id, path, n, due);
    }
  }

  /** A resting row is in a batch that has room for it iff it is due and has retries left. */
  lemma TakenIff(cfg: Config, s: State, id: nat, limit: int, batch: seq<Item>)
    requires id in s.rows && Enabled(cfg, s, Dequeue(limit, batch)) && |batch| != limit
    ensures InBatch(batch, id) <==> s.rows[id].nextRetryAt <= s.now && s.rows[id].retries < cfg.maxRetries
  {
    if i :| 0 <= i < |batch| && batch[i].id == id {
      assert Eligible(cfg, s.rows[batch[i].id], s.now);
    }
  }

  /** Once the backoff is over and retries are left, every batch that is not full takes the row;
      and before, or without retries left, no batch does. */
  lemma {:induction false} RetriedOnceItsBackoffIsOver(cfg: Config, s: State, error: string, es: seq<Event>, id: nat,
                                                       limit: int, batch: seq<Item>)
    requires TodoDistinct(s) && Fails(cfg, s, error, id)
    requires var s1 := Step(cfg, s, RetryFailed(error));
             Possible(cfg, s1, es) && LeavesResting(es, id, s.rows[id].path)
             && Enabled(cfg, Run(cfg, s1, es), Dequeue(limit, batch)) && |batch| != limit
    ensures var s2 := Run(cfg, Step(cfg, s, RetryFailed(error)), es);
            InBatch(batch, id) <==>
              && s2.now >= s.now + SecondsToWait(cfg.retryIntervalSec, s.rows[id].retries + 1) * 1_000_000
              && s.rows[id].retries + 1 < cfg.maxRetries
  {
    var n, s1 := s.rows[id].retries + 1, Step(cfg, s, RetryFailed(error));
    BackoffInSeconds(cfg, n);
    if InBatch(s1.todo, id) {
      var i :| 0 <= i < |s1.todo| && s1.todo[i].id == id;
      assert s.todo[i + 1].id == id;
    }
    RestsRun(cfg, s1, es, id, s.rows[id].path, n, s.now + BackoffSec(cfg, n) * 1_000_000);
    TakenIff(cfg, Run(cfg, s1, es), id, limit, batch);
  }

  /** A report that is accepted needs no backoff: with retries left, the row of its path is in the
      next batch that is not full, also if an older backoff was still running. */
  lemma {:induction false} ReportIsDueAtOnce(cfg: Config, s: State, path: string, modem: nat, error: string,
                                             es: seq<Event>, id: nat, limit: int, batch: seq<Item>)
    requires WellKept(s) && |s.rows| < cfg.maxSize && TodoDistinct(s) && !InBatch(s.todo, id)
    requires var s1 := Step(cfg, s, Enqueue(path, modem, error));
             Stored(s1.rows, path, id) && Possible(cfg, s1, es) && LeavesResting(es, id, path)
             && Enabled(cfg, Run(cfg, s1, es), Dequeue(limit, batch)) && |batch| != limit
    ensures InBatch(batch, id) <==> (if id in s.rows then s.rows[id].retries else 0) < cfg.maxRetries
  {
    var s1 := Step(cfg, s, Enqueue(path, modem, error));
    assert id in s.rows ==> Stored(s.rows, path, id);
    RestsRun(cfg, s1, es, id, path, s1.rows[id].retries, s.now);
    ClockGrows(cfg, s1, es);
    TakenIff(cfg, Run(cfg, s1, es), id, limit, batch);
  }

  lemma {:induction false} ClockGrows(cfg: Config, s: State, es: seq<Event>)
    requires Possible(cfg, s, es)
    ensures s.now <= Run(cfg, s, es).now
    decreases |es|
  {
    if es != [] { ClockGrows(cfg, Step(cfg, s, es[0]), es[1..]); }
  }
}
