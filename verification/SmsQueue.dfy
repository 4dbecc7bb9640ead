/** The bounded persist queue, and the two producers that fill it: the D-Bus callback and the
    modem snapshot. What does not fit goes to the dead-letter queue. */
module SmsQueue {
  import opened Common
  import opened Retries
  import DL = DeadLetter
  import I = Inbound
  import Q = SmsDeadLetterQueue

  class SmsProcessingQueue {
    const maxSize: int
    var queue: seq<(string, nat)>
    var running: bool

    constructor (maxSize: int)
      ensures this.maxSize == maxSize && queue == [] && !running
    {
      this.maxSize := maxSize;
      queue, running := [], false;
    }

    predicate Full()
      reads this
    {
      maxSize > 0 && |queue| >= maxSize
    }

    method Enqueue(path: string, modem: nat) returns (ok: bool)
      modifies this`queue
      ensures ok <==> !old(Full())
      ensures queue == if ok then old(queue) + [(path, modem)] else old(queue)
    {
      ok := !(maxSize > 0 && |queue| >= maxSize);
      if ok {
        queue := queue + [(path, modem)];
      }
    }

    method Take() returns (job: Option<(string, nat)>)
      modifies this`queue
      ensures job == None <==> old(queue) == []
      ensures job == None ==> queue == old(queue)
      ensures job.Some? ==> old(queue) == [job.value] + queue
    {
      if queue == [] {
        return None;
      }
      job := Some(queue[0]);
      queue := queue[1..];
    }
  }

  /** The failure is on record: its path is in the table, or the table is full or switched off. */
  ghost predicate OnRecord(dlq: Q.Queue?, path: string)
    reads dlq
  {
    dlq != null ==> DL.Present(dlq.rows, path) || |dlq.rows| >= dlq.cfg.maxSize
  }

  lemma EnqueueKeepsRecords(cfg: DL.Config, s: DL.State, path: string, modem: nat, error: string)
    requires |s.rows| < cfg.maxSize && forall id :: id in s.rows ==> id < s.nextId
    ensures var s' := DL.Enqueued(cfg, s, path, modem, error);
            && DL.Present(s'.rows, path)
            && (forall p :: DL.Present(s.rows, p) ==> DL.Present(s'.rows, p))
            && |s.rows| <= |s'.rows|
            && (forall id :: id in s'.rows ==> id < s'.nextId)
  {
    var s' := DL.Enqueued(cfg, s, path, modem, error);
    forall p | DL.Present(s.rows, p) ensures DL.Present(s'.rows, p) {
      var id :| DL.Stored(s.rows, p, id);
      assert DL.Stored(s'.rows, p, id);
    }
    if !DL.Present(s.rows, path) {
      assert DL.Stored(s'.rows, path, s.nextId);
      assert s'.rows.Keys == s.rows.Keys + {s.nextId};
    }
    DL.SmallerMap(s'.rows, s.rows);
  }

  /** The table after the report of one failure, as the dead-letter queue makes it. */
  ghost predicate Reported(cfg: DL.Config, rows: map<nat, DL.Entry>, nextId: nat, path: string, modem: nat,
                           error: string, now: nat, rows': map<nat, DL.Entry>, nextId': nat) {
    var s := DL.Enqueued(cfg, DL.State(rows, nextId, now, []), path, modem, error);
    rows' == s.rows && nextId' == s.nextId
  }

  method EnqueuePersistFailure(dlq: Q.Queue?, path: string, modem: nat, error: string, now: nat)
    requires dlq != null ==> forall id :: id in dlq.rows ==> id < dlq.nextId
    modifies dlq
    ensures OnRecord(dlq, path)
    ensures forall p :: old(OnRecord(dlq, p)) ==> OnRecord(dlq, p)
    ensures dlq != null ==> forall id :: id in dlq.rows ==> id < dlq.nextId
    ensures dlq != null && |old(dlq.rows)| >= dlq.cfg.maxSize ==> dlq.rows == old(dlq.rows)
    ensures dlq != null ==>
              Reported(dlq.cfg, old(dlq.rows), old(dlq.nextId), path, modem, error, now, dlq.rows, dlq.nextId)
  {
    if dlq != null {
      ghost var s := DL.State(dlq.rows, dlq.nextId, now, []);
      var ok := dlq.Enqueue(path, modem, error, now);
      if ok {
        EnqueueKeepsRecords(dlq.cfg, s, path, modem, error);
      }
    }
  }

  /** The D-Bus callback: the path ends up queued or on record. */
  method OnAdded(q: SmsProcessingQueue, dlq: Q.Queue?, path: string, modem: nat, now: nat) returns (queued: bool)
    requires dlq != null ==> forall id :: id in dlq.rows ==> id < dlq.nextId
    modifies q`queue, dlq
    ensures queued <==> !old(q.Full())
    ensures queued ==> q.queue == old(q.queue) + [(path, modem)]
    ensures !queued ==> q.queue == old(q.queue) && OnRecord(dlq, path)
    ensures !queued && dlq != null ==>
              Reported(dlq.cfg, old(dlq.rows), old(dlq.nextId), path, modem, "persist queue full", now, dlq.rows,
                       dlq.nextId)
    ensures queued && dlq != null ==> dlq.rows == old(dlq.rows) && dlq.nextId == old(dlq.nextId)
  {
    queued := q.Enqueue(path, modem);
    if !queued {
      EnqueuePersistFailure(dlq, path, modem, "persist queue full", now);
    }
  }

  function Jobs(paths: seq<string>, modem: nat): seq<(string, nat)> {
    if paths == [] then [] else Jobs(paths[..|paths| - 1], modem) + [(paths[|paths| - 1], modem)]
  }

  /** The dead-letter queue after these paths were reported one after the other. */
  ghost function AllReported(cfg: DL.Config, s: DL.State, paths: seq<string>, modem: nat, error: string): DL.State {
    if paths == [] then s
    else DL.Enqueued(cfg, AllReported(cfg, s, paths[..|paths| - 1], modem, error), paths[|paths| - 1], modem, error)
  }

  lemma {:induction false} ReportingKeepsTheClock(cfg: DL.Config, s: DL.State, paths: seq<string>, modem: nat,
                                                  error: string)
    ensures var s' := AllReported(cfg, s, paths, modem, error); s'.now == s.now && s'.todo == s.todo
  {
    if paths != [] { ReportingKeepsTheClock(cfg, s, paths[..|paths| - 1], modem, error); }
  }

  ghost predicate HoldsReports(cfg: DL.Config, s: DL.State, paths: seq<string>, modem: nat, rows: map<nat, DL.Entry>,
                               nextId: nat) {
    var s' := AllReported(cfg, s, paths, modem, "persist queue full (snapshot)");
    rows == s'.rows && nextId == s'.nextId
  }

  lemma OneMoreReported(cfg: DL.Config, s: DL.State, paths: seq<string>, last: string, modem: nat,
                        rows: map<nat, DL.Entry>, nextId: nat, rows': map<nat, DL.Entry>, nextId': nat)
    requires s.todo == [] && HoldsReports(cfg, s, paths, modem, rows, nextId)
    requires Reported(cfg, rows, nextId, last, modem, "persist queue full (snapshot)", s.now, rows', nextId')
    ensures HoldsReports(cfg, s, paths + [last], modem, rows', nextId')
  {
    ReportingKeepsTheClock(cfg, s, paths, modem, "persist queue full (snapshot)");
    assert (paths + [last])[..|paths|] == paths;
    assert DL.State(rows, nextId, s.now, []) == AllReported(cfg, s, paths, modem, "persist queue full (snapshot)");
  }

  ghost predicate IdsBelow(rows: map<nat, DL.Entry>, nextId: nat) {
    forall id :: id in rows ==> id < nextId
  }

  /** Every reported path is in the table at the end, or the table is full. */
  lemma {:induction false} AllAreOnRecord(cfg: DL.Config, s: DL.State, paths: seq<string>, modem: nat, error: string,
                                          i: nat)
    requires i < |paths| && IdsBelow(s.rows, s.nextId)
    ensures var s' := AllReported(cfg, s, paths, modem, error);
            DL.Present(s'.rows, paths[i]) || |s'.rows| >= cfg.maxSize
  {
    var before, last := paths[..|paths| - 1], paths[|paths| - 1];
    IdsStayBelow(cfg, s, before, modem, error);
    var s1 := AllReported(cfg, s, before, modem, error);
    if i < |before| { AllAreOnRecord(cfg, s, before, modem, error, i); }
    if |s1.rows| < cfg.maxSize { EnqueueKeepsRecords(cfg, s1, last, modem, error); }
  }

  lemma {:induction false} IdsStayBelow(cfg: DL.Config, s: DL.State, paths: seq<string>, modem: nat, error: string)
    requires IdsBelow(s.rows, s.nextId)
    ensures var s' := AllReported(cfg, s, paths, modem, error); IdsBelow(s'.rows, s'.nextId)
  {
    if paths != [] {
      IdsStayBelow(cfg, s, paths[..|paths| - 1], modem, error);
      var s1 := AllReported(cfg, s, paths[..|paths| - 1], modem, error);
      if |s1.rows| < cfg.maxSize { EnqueueKeepsRecords(cfg, s1, paths[|paths| - 1], modem, error); }
    }
  }

  lemma LaterAreOnRecord(cfg: DL.Config, s: DL.State, paths: seq<string>, from: nat, modem: nat,
                         rows: map<nat, DL.Entry>, nextId: nat)
    requires from <= |paths| && IdsBelow(s.rows, s.nextId) && HoldsReports(cfg, s, paths[from..], modem, rows, nextId)
    ensures forall i :: from <= i < |paths| ==> DL.Present(rows, paths[i]) || |rows| >= cfg.maxSize
  {
    forall i | from <= i < |paths| ensures DL.Present(rows, paths[i]) || |rows| >= cfg.maxSize {
      AllAreOnRecord(cfg, s, paths[from..], modem, "persist queue full (snapshot)", i - from);
    }
  }

  /** The first `n` of `k` paths were queued, because there was room, and no others, because
      there was none. */
  ghost predicate Queued(before: seq<(string, nat)>, queue: seq<(string, nat)>, maxSize: int, paths: seq<string>,
                         modem: nat, n: nat, k: nat) {
    && n <= k <= |paths| && queue == before + Jobs(paths[..n], modem) && |queue| == |before| + n
    && (maxSize > 0 ==> |queue| <= maxSize) && (n < k ==> 0 < maxSize <= |queue|)
  }

  lemma OneMoreTurn(before: seq<(string, nat)>, queue: seq<(string, nat)>, maxSize: int, paths: seq<string>,
                    modem: nat, n: nat, k: nat)
    requires k < |paths| && Queued(before, queue, maxSize, paths, modem, n, k)
    ensures maxSize > 0 && |queue| >= maxSize ==> Queued(before, queue, maxSize, paths, modem, n, k + 1)
    ensures maxSize <= 0 || |queue| < maxSize ==>
              n == k && Queued(before, queue + [(paths[k], modem)], maxSize, paths, modem, k + 1, k + 1)
  {
    assert paths[..n + 1][..n] == paths[..n];
  }

  /** The paths from `n` to `k` were reported, one after the other. */
  ghost predicate Late(dlq: Q.Queue?, start: DL.State, paths: seq<string>, modem: nat, n: nat, k: nat)
    requires n <= k <= |paths|
    reads dlq
  {
    dlq != null ==>
      IdsBelow(dlq.rows, dlq.nextId) && HoldsReports(dlq.cfg, start, paths[n..k], modem, dlq.rows, dlq.nextId)
  }

  method ReportLate(dlq: Q.Queue?, paths: seq<string>, modem: nat, now: nat, ghost start: DL.State, ghost n: nat,
                    k: nat)
    requires n <= k < |paths| && start.now == now && start.todo == [] && Late(dlq, start, paths, modem, n, k)
    modifies dlq
    ensures Late(dlq, start, paths, modem, n, k + 1)
  {
    ghost var rows, nextId := if dlq == null then map[] else dlq.rows, if dlq == null then 0 else dlq.nextId;
    EnqueuePersistFailure(dlq, paths[k], modem, "persist queue full (snapshot)", now);
    if dlq != null {
      OneMoreReported(dlq.cfg, start, paths[n..k], paths[k], modem, rows, nextId, dlq.rows, dlq.nextId);
      assert paths[n..k + 1] == paths[n..k] + [paths[k]];
    }
  }

  /** The snapshot loop: the first `n` paths are queued in order, as many as fit; every later
      path is reported, in order, and on record. */
  method SyncSnapshot(q: SmsProcessingQueue, dlq: Q.Queue?, paths: seq<string>, modem: nat, now: nat) returns (n: nat)
    requires dlq != null ==> forall id :: id in dlq.rows ==> id < dlq.nextId
    requires q.maxSize > 0 ==> |q.queue| <= q.maxSize
    modifies q`queue, dlq
    ensures n == if q.maxSize <= 0 then |paths| else Min(|paths|, q.maxSize - |old(q.queue)|)
    ensures q.queue == old(q.queue) + Jobs(paths[..n], modem)
    ensures forall i :: n <= i < |paths| ==> OnRecord(dlq, paths[i])
    ensures dlq != null ==>
              HoldsReports(dlq.cfg, DL.State(old(dlq.rows), old(dlq.nextId), now, []), paths[n..], modem, dlq.rows,
                           dlq.nextId)
  {
    n := 0;
    ghost var start := if dlq == null then DL.State(map[], 0, now, []) else DL.State(dlq.rows, dlq.nextId, now, []);
    for k := 0 to |paths|
      invariant Queued(old(q.queue), q.queue, q.maxSize, paths, modem, n, k)
      invariant Late(dlq, start, paths, modem, n, k)
    {
      OneMoreTurn(old(q.queue), q.queue, q.maxSize, paths, modem, n, k);
      var ok := q.Enqueue(paths[k], modem);
      if ok {
        assert paths[n..k] == paths[k + 1..k + 1];
        n := k + 1;
      } else {
        ReportLate(dlq, paths, modem, now, start, n, k);
      }
    }
    AllSynced(dlq, start, paths, modem, n);
  }

  lemma AllSynced(dlq: Q.Queue?, start: DL.State, paths: seq<string>, modem: nat, n: nat)
    requires n <= |paths| && IdsBelow(start.rows, start.nextId) && Late(dlq, start, paths, modem, n, |paths|)
    ensures forall i :: n <= i < |paths| ==> OnRecord(dlq, paths[i])
    ensures dlq != null ==> HoldsReports(dlq.cfg, start, paths[n..], modem, dlq.rows, dlq.nextId)
  {
    assert paths[n..|paths|] == paths[n..];
    if dlq != null { LaterAreOnRecord(dlq.cfg, start, paths, n, modem, dlq.rows, dlq.nextId); }
  }

  // ---- What a worker does with a path ----

  predicate Raises(r: I.Outcome) {
    r.Failed? || r.PathUnavailable?
  }

  /** `persist_inbound_sms`: a snapshot that was stored clears its path from the dead-letter queue. */
  method PersistInboundSms(table: I.InboundTable, dlq: Q.Queue?, path: string, s: I.Sighting,
                           whitelist: seq<string>, db: Db, retries: int, saves: bool)
    returns (r: I.Outcome)
    modifies table, dlq
    ensures forall p :: p != path ==> table.Find(p) == old(table.Find(p))
    ensures var before := old(table.Find(path));
            if I.WriteFails(whitelist, before, s, db, retries, saves) then r == I.Failed && table.Find(path) == before
            else
              && table.Find(path) == I.After(whitelist, before, s)
              && r == if s == I.Missing && before == None then I.PathUnavailable
                      else if s.Seen? && !I.Allowed(whitelist, s.snapshot) then I.Rejected
                      else I.Stored(I.WrittenBy(whitelist, before, s))
    ensures r.Rejected? <==> s.Seen? && whitelist != [] && s.snapshot.fromNumber !in whitelist
    ensures r.Rejected? ==> table.rows == old(table.rows)
    ensures dlq != null ==>
              && dlq.nextId == old(dlq.nextId)
              && dlq.rows == if r.Stored? && s.Seen?
                             then map id | id in old(dlq.rows) && old(dlq.rows)[id].path != path :: old(dlq.rows)[id]
                             else old(dlq.rows)
  {
    r := table.PersistInbound(path, s, whitelist, db, retries, saves);
    if dlq != null && r.Stored? && s.Seen? {
      dlq.RemoveByPath(path);
    }
  }

  /** `_process_sms`: the path ends up stored, rejected or on record, and it is cleared from the
      dead-letter queue exactly when a snapshot of it was stored. */
  method ProcessSms(table: I.InboundTable, dlq: Q.Queue?, path: string, modem: nat, s: I.Sighting,
                    whitelist: seq<string>, db: Db, retries: int, saves: bool, error: string, now: nat)
    returns (r: I.Outcome)
    requires dlq != null ==> forall id :: id in dlq.rows ==> id < dlq.nextId
    modifies table, dlq
    ensures r.Stored? ==> table.Find(path).Some?
    ensures r.Rejected? <==> s.Seen? && whitelist != [] && s.snapshot.fromNumber !in whitelist
    ensures r.Rejected? ==> table.rows == old(table.rows)
    ensures r.Failed? || r.PathUnavailable? ==> table.Find(path) == old(table.Find(path)) && OnRecord(dlq, path)
    ensures (r.Failed? || r.PathUnavailable?) && dlq != null ==>
              Reported(dlq.cfg, old(dlq.rows), old(dlq.nextId), path, modem, error, now, dlq.rows, dlq.nextId)
    ensures dlq != null && r.Stored? && s.Seen? ==> !DL.Present(dlq.rows, path)
    ensures forall p :: p != path && old(OnRecord(dlq, p)) && !(r.Stored? && s.Seen?) ==> OnRecord(dlq, p)
  {
    r := PersistInboundSms(table, dlq, path, s, whitelist, db, retries, saves);
    if Raises(r) {
      EnqueuePersistFailure(dlq, path, modem, error, now);
    }
  }
}
