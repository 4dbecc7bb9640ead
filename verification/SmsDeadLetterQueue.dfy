/** The dead-letter queue object: methods over its table. The row contents are those of
    `DeadLetter`. */
module SmsDeadLetterQueue {
  import opened Common
  import opened Text
  import opened DeadLetter
  import opened DeadLetterBackoff

  datatype Stats = Stats(processed: nat, recovered: nat, failed: nat)

  /** What the n-th persist of a batch does: None if it returns, the error text if it raises. */
  type Persist = nat -> Option<string>

  // ---- Selecting a batch ----

  /** `batch` holds, oldest first, every eligible row that is not `left`. */
  ghost predicate Selecting(cfg: Config, rows: map<nat, Entry>, now: nat, batch: seq<Item>, left: set<nat>) {
    && DistinctItems(batch)
    && (forall i :: 0 <= i < |batch| ==>
          && batch[i].id in rows && Eligible(cfg, rows[batch[i].id], now) && batch[i].id !in left
          && batch[i].path == rows[batch[i].id].path && batch[i].modem == rows[batch[i].id].modem)
    && (forall id :: id in left ==> id in rows && Eligible(cfg, rows[id], now))
    && (forall id :: id in rows && Eligible(cfg, rows[id], now) && id !in left ==> InBatch(batch, id))
  }

  ghost predicate OldestFirst(rows: map<nat, Entry>, batch: seq<Item>, left: set<nat>)
    requires forall i :: 0 <= i < |batch| ==> batch[i].id in rows
    requires forall id :: id in left ==> id in rows
  {
    && (forall i, j :: 0 <= i < j < |batch| ==> rows[batch[i].id].failedAt <= rows[batch[j].id].failedAt)
    && (forall i, id :: 0 <= i < |batch| && id in left ==> rows[batch[i].id].failedAt <= rows[id].failedAt)
  }

  lemma SelectNext(cfg: Config, rows: map<nat, Entry>, now: nat, batch: seq<Item>, left: set<nat>, id: nat)
    requires Selecting(cfg, rows, now, batch, left) && id in left
    ensures Selecting(cfg, rows, now, batch + [Item(id, rows[id].path, rows[id].modem)], left - {id})
  {
    var batch' := batch + [Item(id, rows[id].path, rows[id].modem)];
    assert batch'[|batch|].id == id;
    forall k | InBatch(batch, k) ensures InBatch(batch', k) {
      var i :| 0 <= i < |batch| && batch[i].id == k;
      assert batch'[i].id == k;
    }
    assert InBatch(batch', id);
  }

  lemma SelectOldest(rows: map<nat, Entry>, batch: seq<Item>, left: set<nat>, id: nat)
    requires forall i :: 0 <= i < |batch| ==> batch[i].id in rows
    requires forall i :: i in left ==> i in rows
    requires OldestFirst(rows, batch, left) && id in left
    requires forall i :: i in left ==> rows[id].failedAt <= rows[i].failedAt
    ensures OldestFirst(rows, batch + [Item(id, rows[id].path, rows[id].modem)], left - {id})
  {
  }

  /** A selection that stops when nothing is left or the limit is reached is a batch. */
  lemma SelectionIsBatch(cfg: Config, rows: map<nat, Entry>, now: nat, limit: int, batch: seq<Item>, left: set<nat>)
    requires Selecting(cfg, rows, now, batch, left) && OldestFirst(rows, batch, left)
    requires limit >= 0 ==> |batch| <= limit
    requires left == {} || |batch| == limit
    ensures IsBatch(cfg, rows, now, limit, batch)
  {
  }

  // ---- Settling it ----

  function Settled(cfg: Config, rows: map<nat, Entry>, id: nat, fault: Option<string>, now: nat): map<nat, Entry> {
    match fault
    case None => rows - {id}
    case Some(error) => if id in rows then rows[id := Retried(cfg, rows[id], error, now)] else rows
  }

  /** The first `n` rows of the batch are settled, each at its own time, and the others are not. */
  ghost predicate BatchSettled(cfg: Config, before: map<nat, Entry>, rows: map<nat, Entry>, batch: seq<Item>,
                               persist: Persist, clock: nat -> nat, n: nat)
    requires n <= |batch| && forall i :: 0 <= i < |batch| ==> batch[i].id in before
  {
    && (forall i :: 0 <= i < n ==>
          if persist(i) == None then batch[i].id !in rows
          else batch[i].id in rows
               && rows[batch[i].id] == Retried(cfg, before[batch[i].id], persist(i).value, clock(i)))
    && (forall i :: n <= i < |batch| ==> batch[i].id in rows && rows[batch[i].id] == before[batch[i].id])
  }

  /** The rows outside the batch are as before. */
  ghost predicate OthersKept(before: map<nat, Entry>, rows: map<nat, Entry>, batch: seq<Item>) {
    && (forall id :: !InBatch(batch, id) ==> (id in rows <==> id in before))
    && (forall id :: id in rows && !InBatch(batch, id) ==> rows[id] == before[id])
  }

  lemma SettleNext(cfg: Config, before: map<nat, Entry>, rows: map<nat, Entry>, batch: seq<Item>,
                   persist: Persist, clock: nat -> nat, n: nat)
    requires DistinctItems(batch) && forall i :: 0 <= i < |batch| ==> batch[i].id in before
    requires n < |batch| && BatchSettled(cfg, before, rows, batch, persist, clock, n)
    ensures var rows' := Settled(cfg, rows, batch[n].id, persist(n), clock(n));
            BatchSettled(cfg, before, rows', batch, persist, clock, n + 1)
  {
    var rows' := Settled(cfg, rows, batch[n].id, persist(n), clock(n));
    forall i | 0 <= i < |batch| && i != n
      ensures batch[i].id in rows' <==> batch[i].id in rows
      ensures batch[i].id in rows ==> rows'[batch[i].id] == rows[batch[i].id]
    {
      assert batch[i].id != batch[n].id;
    }
  }

  lemma SettleKeepsOthers(cfg: Config, before: map<nat, Entry>, rows: map<nat, Entry>, batch: seq<Item>, n: nat,
                          fault: Option<string>, now: nat)
    requires n < |batch| && OthersKept(before, rows, batch)
    ensures OthersKept(before, Settled(cfg, rows, batch[n].id, fault, now), batch)
  {
    assert InBatch(batch, batch[n].id);
  }

  class Queue {
    const cfg: Config
    var rows: map<nat, Entry>
    var nextId: nat

    constructor (cfg: Config)
      ensures this.cfg == cfg && rows == map[] && nextId == 0
    {
      this.cfg := cfg;
      rows, nextId := map[], 0;
    }

    /** The same transition as `DeadLetter.Enqueued`, with its verdict. */
    method Enqueue(path: string, modem: nat, error: string, now: nat) returns (ok: bool)
      modifies this
      ensures ok <==> |old(rows)| < cfg.maxSize
      ensures var s := Enqueued(cfg, State(old(rows), old(nextId), now, []), path, modem, error);
              rows == s.rows && nextId == s.nextId
      ensures !ok ==> rows == old(rows)
      ensures forall id :: id in old(rows) && id != old(nextId) ==>
                && id in rows
                && rows[id] == if ok && old(rows)[id].path == path
                               then old(rows)[id].(lastError := if |error| <= 2000 then error else error[..2000],
                                                   failedAt := now, nextRetryAt := now)
                               else old(rows)[id]
      ensures ok && (forall id :: id in old(rows) ==> old(rows)[id].path != path) ==>
                && nextId == old(nextId) + 1
                && rows == old(rows)[old(nextId) := Entry(path, modem, now, 0,
                                                          if |error| <= 2000 then error else error[..2000], now)]
    {
      if |rows| >= cfg.maxSize {
        return false;
      }
      if id :| id in rows && rows[id].path == path {
        assert Stored(rows, path, id);
        rows := map id | id in rows :: if rows[id].path == path then Reported(rows[id], error, now) else rows[id];
      } else {
        assert !Present(rows, path);
        rows, nextId := rows[nextId := NewEntry(path, modem, error, now)], nextId + 1;
      }
      return true;
    }

    method OldestOf(ids: set<nat>) returns (id: nat)
      requires ids != {} && forall i :: i in ids ==> i in rows
      ensures id in ids && forall i :: i in ids ==> rows[id].failedAt <= rows[i].failedAt
    {
      id :| id in ids;
      var unseen := ids - {id};
      while unseen != {}
        invariant unseen <= ids && id in ids
        invariant forall i :: i in ids - unseen ==> rows[id].failedAt <= rows[i].failedAt
        decreases unseen
      {
        var i :| i in unseen;
        unseen := unseen - {i};
        if rows[i].failedAt < rows[id].failedAt {
          id := i;
        }
      }
    }

    method DequeueBatch(limit: int, now: nat) returns (batch: seq<Item>)
      ensures IsBatch(cfg, rows, now, limit, batch)
      ensures forall i :: 0 <= i < |batch| ==>
                && batch[i].id in rows
                && rows[batch[i].id].retries < cfg.maxRetries && rows[batch[i].id].nextRetryAt <= now
                && batch[i] == Item(batch[i].id, rows[batch[i].id].path, rows[batch[i].id].modem)
      ensures forall i, j :: 0 <= i < j < |batch| ==>
                batch[i].id != batch[j].id && rows[batch[i].id].failedAt <= rows[batch[j].id].failedAt
      ensures limit >= 0 ==> |batch| <= limit
      ensures forall id :: id in rows && rows[id].retries < cfg.maxRetries && rows[id].nextRetryAt <= now ==>
                || (exists i :: 0 <= i < |batch| && batch[i].id == id)
                || (|batch| == limit
                    && forall i :: 0 <= i < |batch| ==> rows[batch[i].id].failedAt <= rows[id].failedAt)
    {
      batch := [];
      var left := set id | id in rows && Eligible(cfg, rows[id], now);
      while left != {} && (limit < 0 || |batch| < limit)
        invariant limit >= 0 ==> |batch| <= limit
        invariant Selecting(cfg, rows, now, batch, left)
        invariant OldestFirst(rows, batch, left)
        decreases left
      {
        var id := OldestOf(left);
        SelectNext(cfg, rows, now, batch, left, id);
        SelectOldest(rows, batch, left, id);
        batch := batch + [Item(id, rows[id].path, rows[id].modem)];
        left := left - {id};
      }
      SelectionIsBatch(cfg, rows, now, limit, batch, left);
    }

    method MarkRecovered(id: nat)
      modifies this`rows
      ensures rows == old(rows) - {id}
    {
      rows := rows - {id};
    }

    method RemoveByPath(path: string)
      modifies this`rows
      ensures rows == map id | id in old(rows) && old(rows)[id].path != path :: old(rows)[id]
    {
      rows := map id | id in rows && rows[id].path != path :: rows[id];
    }

    method MarkRetryFailed(id: nat, error: string, now: nat)
      modifies this`rows
      ensures rows == if id in old(rows) then old(rows)[id := Retried(cfg, old(rows)[id], error, now)] else old(rows)
      ensures id in old(rows) ==>
                var n := old(rows)[id].retries + 1;
                rows[id] == old(rows)[id].(retries := n, lastError := if |error| <= 2000 then error else error[..2000],
                                           nextRetryAt := now + SecondsToWait(cfg.retryIntervalSec, n) * 1_000_000)
    {
      if id !in rows {
        return;
      }
      var count := rows[id].retries + 1;
      BackoffInSeconds(cfg, count);
      var delay := Min(3600, cfg.retryIntervalSec * Pow2(Min(count, 6)));
      rows := rows[id := rows[id].(retries := count, lastError := Truncated(error),
                                   nextRetryAt := now + delay * SECOND)];
    }

    /** Settling one row of the batch: `fault` is the error of its persist, if it raised. */
    method Settle(item: Item, fault: Option<string>, now: nat)
      modifies this`rows
      ensures rows == Settled(cfg, old(rows), item.id, fault, now)
    {
      match fault {
        case None => MarkRecovered(item.id);
        case Some(error) => MarkRetryFailed(item.id, error, now);
      }
    }

    /** One batch that nothing interrupts: its rows are the oldest eligible ones; each leaves
        the table or is charged one retry, at the time it was settled; every other row stays. */
    method ProcessBatch(limit: int, persist: Persist, now: nat, clock: nat -> nat)
      returns (stats: Stats, ghost batch: seq<Item>)
      modifies this`rows
      ensures IsBatch(cfg, old(rows), now, limit, batch)
      ensures stats.processed == stats.recovered + stats.failed == |batch|
      ensures forall i :: 0 <= i < |batch| ==>
                if persist(i) == None then batch[i].id !in rows
                else batch[i].id in rows
                     && rows[batch[i].id] == Retried(cfg, old(rows)[batch[i].id], persist(i).value, clock(i))
      ensures forall i :: 0 <= i < |batch| ==>
                && batch[i].id in old(rows)
                && old(rows)[batch[i].id].retries < cfg.maxRetries && old(rows)[batch[i].id].nextRetryAt <= now
                && (persist(i).Some? ==>
                      var before, after := old(rows)[batch[i].id], rows[batch[i].id];
                      && after.retries == before.retries + 1
                      && after.nextRetryAt
                         == clock(i) + SecondsToWait(cfg.retryIntervalSec, before.retries + 1) * 1_000_000)
      ensures forall id :: !InBatch(batch, id) ==> (id in rows <==> id in old(rows))
      ensures forall id :: id in rows && !InBatch(batch, id) ==> rows[id] == old(rows)[id]
    {
      var todo := DequeueBatch(limit, now);
      batch := todo;
      stats := Stats(0, 0, 0);
      forall n: nat ensures BackoffSec(cfg, n) == SecondsToWait(cfg.retryIntervalSec, n) { BackoffInSeconds(cfg, n); }
      for n := 0 to |todo|
        invariant stats.processed == stats.recovered + stats.failed == n
        invariant BatchSettled(cfg, old(rows), rows, todo, persist, clock, n)
        invariant OthersKept(old(rows), rows, todo)
      {
        SettleNext(cfg, old(rows), rows, todo, persist, clock, n);
        SettleKeepsOthers(cfg, old(rows), rows, todo, n, persist(n), clock(n));
        Settle(todo[n], persist(n), clock(n));
        stats := stats.(processed := stats.processed + 1);
        if persist(n) == None {
          stats := stats.(recovered := stats.recovered + 1);
        } else {
          stats := stats.(failed := stats.failed + 1);
        }
      }
    }
  }
}
