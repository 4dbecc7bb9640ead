/** What the dry run of `cleanup_sms_storage` announces, and when the real run deletes as much. */
module CleanupDryRun {
  import opened Common
  import opened Rotation
  import opened RotationTables
  import opened CleanupCommand

  /** The dry run sees every visit on the untouched table. */
  function DryRunTotal(rows: Rows, visits: seq<int>, limit: nat, batchSize: nat): nat {
    if visits == [] then 0
    else
      DryRunTotal(rows, visits[..|visits| - 1], limit, batchSize)
      + BatchOf(rows, visits[|visits| - 1], limit, batchSize)
  }

  /** What a visit after `visits` finds left of the overflow, up to one batch. */
  function NextBatch(overflow: nat, gone: nat, batchSize: nat): nat {
    Min(overflow - Min(overflow, gone), batchSize)
  }

  function OverflowOf(rows: Rows, modem: int, limit: nat): nat {
    Overflow(|OfModem(rows, modem)|, limit)
  }

  /** The rows the real run deletes. */
  function RealTotal(rows: Rows, visits: seq<int>, limit: nat, batchSize: nat): nat {
    if visits == [] then 0
    else
      var before, modem := visits[..|visits| - 1], visits[|visits| - 1];
      RealTotal(rows, before, limit, batchSize)
      + NextBatch(OverflowOf(rows, modem, limit), Reach(before, modem, batchSize), batchSize)
  }

  /** `visits` visits of one modem waste no announced row: it has no overflow, is visited once at
      most, or every visit finds a full batch. */
  predicate NothingWasted(overflow: nat, batchSize: nat, visits: nat) {
    overflow == 0 || visits <= 1 || visits * batchSize <= overflow
  }

  ghost predicate NothingWastedAt(rows: Rows, visits: seq<int>, limit: nat, batchSize: nat, modem: int) {
    NothingWasted(OverflowOf(rows, modem, limit), batchSize, Visits(visits, modem))
  }

  lemma OneMoreVisit(overflow: nat, batchSize: nat, visits: nat)
    ensures NextBatch(overflow, visits * batchSize, batchSize) <= Min(overflow, batchSize)
    ensures NothingWasted(overflow, batchSize, visits + 1) <==>
            && NothingWasted(overflow, batchSize, visits)
            && NextBatch(overflow, visits * batchSize, batchSize) == Min(overflow, batchSize)
  {
    assert (visits + 1) * batchSize == visits * batchSize + batchSize;
    if visits >= 1 { MulMono(1, batchSize, visits, batchSize); }
  }

  lemma VisitsOneMore(visits: seq<int>, visit: int, modem: int)
    ensures Visits(visits + [visit], modem) == Visits(visits, modem) + if visit == modem then 1 else 0
  {
    assert (visits + [visit])[..|visits|] == visits;
  }

  /** The dry run never announces less than is deleted, and announces exactly that iff no modem
      is visited in vain. */
  lemma {:induction false} AnnouncedIsDeletedIff(rows: Rows, visits: seq<int>, limit: nat, batchSize: nat)
    ensures RealTotal(rows, visits, limit, batchSize) <= DryRunTotal(rows, visits, limit, batchSize)
    ensures RealTotal(rows, visits, limit, batchSize) == DryRunTotal(rows, visits, limit, batchSize) <==>
            forall modem :: NothingWastedAt(rows, visits, limit, batchSize, modem)
  {
    if visits == [] {
      assert forall modem :: NothingWastedAt(rows, visits, limit, batchSize, modem);
    } else {
      var before, last := visits[..|visits| - 1], visits[|visits| - 1];
      assert visits == before + [last];
      AnnouncedIsDeletedIff(rows, before, limit, batchSize);
      OneMoreVisit(OverflowOf(rows, last, limit), batchSize, Visits(before, last));
      WastedAtLast(rows, before, last, limit, batchSize);
    }
  }

  lemma WastedAtLast(rows: Rows, before: seq<int>, last: int, limit: nat, batchSize: nat)
    ensures (forall modem :: NothingWastedAt(rows, before + [last], limit, batchSize, modem)) <==>
            && (forall modem :: NothingWastedAt(rows, before, limit, batchSize, modem))
            && NothingWastedAt(rows, before + [last], limit, batchSize, last)
  {
    forall modem ensures Visits(before + [last], modem) == Visits(before, modem) + if last == modem then 1 else 0 {
      VisitsOneMore(before, last, modem);
    }
    OneMoreVisit(OverflowOf(rows, last, limit), batchSize, Visits(before, last));
    if forall modem :: NothingWastedAt(rows, before + [last], limit, batchSize, modem) {
      forall modem ensures NothingWastedAt(rows, before, limit, batchSize, modem) {
        assert NothingWastedAt(rows, before + [last], limit, batchSize, modem);
      }
    }
    if (forall modem :: NothingWastedAt(rows, before, limit, batchSize, modem))
       && NothingWastedAt(rows, before + [last], limit, batchSize, last) {
      forall modem ensures NothingWastedAt(rows, before + [last], limit, batchSize, modem) {
        assert NothingWastedAt(rows, before, limit, batchSize, modem);
      }
    }
  }

  /** A visit deletes what `NextBatch` says of the table before all visits. */
  lemma VisitTakesNextBatch(start: Rows, rows: Rows, visits: seq<int>, visit: int, limit: nat, batchSize: nat)
    requires SizesShrink(start, rows, limit, batchSize, visits)
    ensures BatchOf(rows, visit, limit, batchSize)
         == NextBatch(OverflowOf(start, visit, limit), Reach(visits, visit, batchSize), batchSize)
  {
    assert SizeShrinks(start, rows, visit, limit, Reach(visits, visit, batchSize));
  }

  // ---- Runs of the loop ----

  ghost predicate LastVisitLeaves(mid: Rows, visits: seq<int>, limit: nat, batchSize: nat, after: Rows)
    requires visits != []
  {
    VisitLeaves(mid, visits[|visits| - 1], limit, batchSize, after)
  }

  /** What a sequence of visits can leave. */
  ghost predicate Leaves(before: Rows, visits: seq<int>, limit: nat, batchSize: nat, after: Rows)
    decreases |visits|
  {
    if visits == [] then after == before
    else exists mid :: && LastVisitLeaves(mid, visits, limit, batchSize, after)
                       && Leaves(before, visits[..|visits| - 1], limit, batchSize, mid)
  }

  lemma LeavesOneMore(before: Rows, visits: seq<int>, limit: nat, batchSize: nat, mid: Rows, visit: int, after: Rows)
    requires Leaves(before, visits, limit, batchSize, mid) && VisitLeaves(mid, visit, limit, batchSize, after)
    ensures Leaves(before, visits + [visit], limit, batchSize, after)
  {
    assert (visits + [visit])[..|visits|] == visits;
    assert LastVisitLeaves(mid, visits + [visit], limit, batchSize, after);
  }

  lemma BeforeTheLast(before: Rows, visits: seq<int>, limit: nat, batchSize: nat, after: Rows)
    returns (vs: seq<int>, mid: Rows, v: int)
    requires visits != [] && Leaves(before, visits, limit, batchSize, after)
    ensures visits == vs + [v] && vs == visits[..|visits| - 1]
    ensures Leaves(before, vs, limit, batchSize, mid) && VisitLeaves(mid, v, limit, batchSize, after)
  {
    vs, v := visits[..|visits| - 1], visits[|visits| - 1];
    mid :| LastVisitLeaves(mid, visits, limit, batchSize, after) && Leaves(before, vs, limit, batchSize, mid);
  }

  lemma NoVisits(rows: Rows, limit: nat, batchSize: nat)
    ensures NewestKept(rows, rows, limit) && SizesShrink(rows, rows, limit, batchSize, [])
    ensures TrimmedBy(rows, rows, limit, batchSize, [])
  {
    forall modem ensures TrimmedFor(rows, rows, modem, limit, Reach([], modem, batchSize)) {
      NothingTrimmed(TheListing(rows, modem), limit);
    }
  }

  ghost predicate Kept(before: Rows, visits: seq<int>, limit: nat, batchSize: nat, after: Rows) {
    && Unaltered(before, after) && NewestKept(before, after, limit)
    && SizesShrink(before, after, limit, batchSize, visits)
    && |after| == |before| - RealTotal(before, visits, limit, batchSize)
  }

  lemma RealTotalOneMore(rows: Rows, visits: seq<int>, visit: int, limit: nat, batchSize: nat)
    ensures RealTotal(rows, visits + [visit], limit, batchSize)
         == RealTotal(rows, visits, limit, batchSize)
            + NextBatch(OverflowOf(rows, visit, limit), Reach(visits, visit, batchSize), batchSize)
  {
    assert (visits + [visit])[..|visits|] == visits;
  }

  lemma KeptOneMore(before: Rows, visits: seq<int>, limit: nat, batchSize: nat, mid: Rows, visit: int, after: Rows)
    requires Kept(before, visits, limit, batchSize, mid) && VisitLeaves(mid, visit, limit, batchSize, after)
    ensures Kept(before, visits + [visit], limit, batchSize, after)
  {
    VisitShrinksSizes(mid, visit, limit, batchSize, after);
    VisitKeepsTheNewest(mid, visit, limit, batchSize, after);
    VisitTakesNextBatch(before, mid, visits, visit, limit, batchSize);
    RealTotalOneMore(before, visits, visit, limit, batchSize);
    NewestKeptCompose(before, mid, after, limit);
    SizesShrinkOneMore(before, mid, after, limit, batchSize, visits, visit);
  }

  /** Whatever the visits and however ties are ordered: the newest rows of every modem are kept,
      its overflow shrinks by one batch a visit, and `RealTotal` rows are gone. */
  lemma {:induction false} VisitsKeepNewest(before: Rows, visits: seq<int>, limit: nat, batchSize: nat, after: Rows)
    requires Leaves(before, visits, limit, batchSize, after)
    ensures Kept(before, visits, limit, batchSize, after)
    decreases |visits|
  {
    if visits == [] {
      NoVisits(before, limit, batchSize);
    } else {
      var vs, mid, v := BeforeTheLast(before, visits, limit, batchSize, after);
      VisitsKeepNewest(before, vs, limit, batchSize, mid);
      KeptOneMore(before, vs, limit, batchSize, mid, v, after);
    }
  }

  lemma TrimmedByOneMore(before: Rows, visits: seq<int>, limit: nat, batchSize: nat, mid: Rows, visit: int, after: Rows)
    requires DistinctTimes(before) && Unaltered(before, mid) && TrimmedBy(before, mid, limit, batchSize, visits)
    requires VisitLeaves(mid, visit, limit, batchSize, after)
    ensures TrimmedBy(before, after, limit, batchSize, visits + [visit])
  {
    DistinctTimesInPart(before, mid);
    VisitTrimsOnce(mid, visit, limit, batchSize, after);
    TrimmedOneMore(before, mid, after, limit, batchSize, visits, visit);
  }

  /** Given distinct times it is also known which rows are left after any number of visits. */
  lemma {:induction false} VisitsTrim(before: Rows, visits: seq<int>, limit: nat, batchSize: nat, after: Rows)
    requires DistinctTimes(before) && Leaves(before, visits, limit, batchSize, after)
    ensures TrimmedBy(before, after, limit, batchSize, visits)
    decreases |visits|
  {
    if visits == [] {
      NoVisits(before, limit, batchSize);
    } else {
      var vs, mid, v := BeforeTheLast(before, visits, limit, batchSize, after);
      VisitsTrim(before, vs, limit, batchSize, mid);
      VisitsKeepNewest(before, vs, limit, batchSize, mid);
      TrimmedByOneMore(before, vs, limit, batchSize, mid, v, after);
    }
  }

  lemma SizeOfParts(a: set<nat>, part: set<nat>)
    ensures |a| == |a * part| + |a - part|
  {
    assert a == a * part + (a - part);
  }

  /** The rows that are gone, and the jobs that went along. */
  lemma ObjectsGone(before: Rows, after: Rows, jobsBefore: set<nat>, jobsAfter: set<nat>)
    requires Unaltered(before, after) && jobsAfter * after.Keys == jobsBefore * after.Keys
    ensures var gone := before.Keys - after.Keys;
            Objects(before, jobsBefore) - Objects(after, jobsAfter) == |gone| + |gone * jobsBefore|
  {
    var gone := before.Keys - after.Keys;
    SizeOfParts(before.Keys, after.Keys);
    assert before.Keys * after.Keys == after.Keys;
    SizeOfParts(before.Keys * jobsBefore, after.Keys);
    assert before.Keys * jobsBefore * after.Keys == jobsBefore * after.Keys;
    assert jobsAfter * after.Keys == after.Keys * jobsAfter;
    assert before.Keys * jobsBefore - after.Keys == gone * jobsBefore;
  }

  lemma JobsOfRows(before: Rows, after: Rows, jobs: set<nat>, mid: set<nat>, left: set<nat>)
    requires Unaltered(before, after)
    requires mid * before.Keys == jobs * before.Keys && left * after.Keys == mid * after.Keys
    ensures left * after.Keys == jobs * after.Keys
  {
    assert after.Keys <= before.Keys;
    forall pk | pk in after.Keys ensures pk in mid <==> pk in jobs {
      assert pk in mid * before.Keys <==> pk in jobs * before.Keys;
    }
  }

  /** How far the real run has come after these visits. */
  ghost predicate RunSoFar(start: Rows, jobs: set<nat>, visits: seq<int>, limit: nat, batchSize: nat, rows: Rows,
                           withJob: set<nat>, counted: int) {
    && Leaves(start, visits, limit, batchSize, rows) && withJob * rows.Keys == jobs * rows.Keys
    && counted == Objects(start, jobs) - Objects(rows, withJob)
  }

  lemma RunOneMore(start: Rows, jobs: set<nat>, visits: seq<int>, limit: nat, batchSize: nat, rows: Rows,
                   withJob: set<nat>, counted: int, visit: int, after: Rows, left: set<nat>, n: int)
    requires RunSoFar(start, jobs, visits, limit, batchSize, rows, withJob, counted)
    requires VisitLeaves(rows, visit, limit, batchSize, after) && left * after.Keys == withJob * after.Keys
    requires n == Objects(rows, withJob) - Objects(after, left)
    ensures RunSoFar(start, jobs, visits + [visit], limit, batchSize, after, left, counted + n)
  {
    LeavesOneMore(start, visits, limit, batchSize, rows, visit, after);
    VisitShrinksSizes(rows, visit, limit, batchSize, after);
    JobsOfRows(rows, after, jobs, withJob, left);
  }

  lemma DryRunOneMore(rows: Rows, visits: seq<int>, visit: int, limit: nat, batchSize: nat)
    ensures DryRunTotal(rows, visits + [visit], limit, batchSize)
         == DryRunTotal(rows, visits, limit, batchSize) + BatchOf(rows, visit, limit, batchSize)
  {
    assert (visits + [visit])[..|visits|] == visits;
  }

  lemma RunIsOver(start: Rows, jobs: set<nat>, visits: seq<int>, limit: nat, batchSize: nat, rows: Rows,
                  withJob: set<nat>, counted: int)
    requires RunSoFar(start, jobs, visits, limit, batchSize, rows, withJob, counted)
    ensures Kept(start, visits, limit, batchSize, rows)
    ensures var gone := start.Keys - rows.Keys; counted == |gone| + |gone * jobs|
  {
    VisitsKeepNewest(start, visits, limit, batchSize, rows);
    ObjectsGone(start, rows, jobs, withJob);
  }

  /** The loop of `_rotate_model`, over any sequence of visits. */
  method VisitAll(table: ModelTable, visits: seq<int>, limit: nat, batchSize: nat, dryRun: bool) returns (counted: nat)
    modifies table
    ensures dryRun ==> table.rows == old(table.rows) && table.withJob == old(table.withJob)
    ensures dryRun ==> counted == DryRunTotal(old(table.rows), visits, limit, batchSize)
    ensures !dryRun ==> Leaves(old(table.rows), visits, limit, batchSize, table.rows)
    ensures !dryRun ==> Kept(old(table.rows), visits, limit, batchSize, table.rows)
    ensures table.withJob * table.rows.Keys == old(table.withJob) * table.rows.Keys
    ensures !dryRun ==> var gone := old(table.rows).Keys - table.rows.Keys;
                        counted == |gone| + |gone * old(table.withJob)|
  {
    counted := 0;
    ghost var start, jobs := table.rows, table.withJob;
    for k := 0 to |visits|
      invariant dryRun ==> table.rows == start && table.withJob == jobs
      invariant dryRun ==> counted == DryRunTotal(start, visits[..k], limit, batchSize)
      invariant !dryRun ==>
                  RunSoFar(start, jobs, visits[..k], limit, batchSize, table.rows, table.withJob, counted)
    {
      ghost var before, held := table.rows, table.withJob;
      var n := Visit(table, visits[k], limit, batchSize, dryRun);
      assert visits[..k + 1] == visits[..k] + [visits[k]];
      if dryRun {
        DryRunOneMore(start, visits[..k], visits[k], limit, batchSize);
      } else {
        RunOneMore(start, jobs, visits[..k], limit, batchSize, before, held, counted, visits[k], table.rows,
                   table.withJob, n);
      }
      counted := counted + n;
    }
    assert visits[..|visits|] == visits;
    if !dryRun { RunIsOver(start, jobs, visits, limit, batchSize, table.rows, table.withJob, counted); }
  }
}
