/** The sequence of visits the command makes, and what one whole `_rotate_model` leaves. */
module CleanupSweep {
  import opened Common
  import opened Rotation
  import opened RotationTables
  import opened CleanupCommand
  import opened CleanupDryRun
  import opened CleanupTies

  type Stamp = (int, nat)

  /** `--modem-index`, if given, selects one modem. */
  predicate Selected(only: Option<int>, modem: int) {
    only == None || only == Some(modem)
  }

  function Stamps(rows: Rows, only: Option<int>): set<Stamp> {
    set pk | pk in rows && Selected(only, rows[pk].modem) :: (rows[pk].modem, rows[pk].createdAt)
  }

  /** `values_list('modem_index').distinct()`: the default ordering adds `created_at` to the
      query, so it has one entry per modem and time, newest first. */
  ghost predicate IsSweep(rows: Rows, only: Option<int>, stamps: seq<Stamp>) {
    && (forall i, j :: 0 <= i < j < |stamps| ==> stamps[i] != stamps[j] && stamps[i].1 >= stamps[j].1)
    && (forall p :: p in stamps <==> p in Stamps(rows, only))
  }

  function Modems(stamps: seq<Stamp>): seq<int> {
    seq(|stamps|, i requires 0 <= i < |stamps| => stamps[i].0)
  }

  /** The instants at which rows of `modem` were created. */
  function Times(rows: Rows, modem: int): set<nat> {
    set pk | pk in rows && rows[pk].modem == modem :: rows[pk].createdAt
  }

  function TimesIn(stamps: seq<Stamp>, modem: int): set<nat> {
    set i | 0 <= i < |stamps| && stamps[i].0 == modem :: stamps[i].1
  }

  lemma TimesInSnoc(stamps: seq<Stamp>, last: Stamp, modem: int)
    requires forall i :: 0 <= i < |stamps| ==> stamps[i] != last
    ensures TimesIn(stamps + [last], modem) == TimesIn(stamps, modem) + if last.0 == modem then {last.1} else {}
    ensures last.0 == modem ==> last.1 !in TimesIn(stamps, modem)
    ensures Modems(stamps + [last]) == Modems(stamps) + [last.0]
  {
    var longer := stamps + [last];
    assert forall i :: 0 <= i < |stamps| ==> longer[i] == stamps[i];
    forall t ensures t in TimesIn(longer, modem) <==> t in TimesIn(stamps, modem) || last == (modem, t) {
      if last == (modem, t) { assert longer[|stamps|] == last; }
    }
  }

  lemma {:induction false} VisitsAreTimes(stamps: seq<Stamp>, modem: int)
    requires forall i, j :: 0 <= i < j < |stamps| ==> stamps[i] != stamps[j]
    ensures Visits(Modems(stamps), modem) == |TimesIn(stamps, modem)|
  {
    if stamps == [] {
      assert TimesIn(stamps, modem) == {};
    } else {
      var before, last := stamps[..|stamps| - 1], stamps[|stamps| - 1];
      assert stamps == before + [last];
      VisitsAreTimes(before, modem);
      TimesInSnoc(before, last, modem);
      VisitsOneMore(Modems(before), last.0, modem);
    }
  }

  /** The command visits a modem once for every instant at which a row of it was created. */
  lemma SweepVisits(rows: Rows, only: Option<int>, stamps: seq<Stamp>, modem: int)
    requires IsSweep(rows, only, stamps)
    ensures Visits(Modems(stamps), modem)
         == if only == None || modem == only.value then |Times(rows, modem)| else 0
  {
    VisitsAreTimes(stamps, modem);
    if Selected(only, modem) {
      forall t ensures t in TimesIn(stamps, modem) <==> t in Times(rows, modem) {
        assert t in TimesIn(stamps, modem) <==> (modem, t) in stamps;
      }
      assert TimesIn(stamps, modem) == Times(rows, modem);
    } else {
      assert forall i :: 0 <= i < |stamps| ==> stamps[i] in stamps;
      assert TimesIn(stamps, modem) == {};
    }
  }

  function Created(rows: Rows, keys: set<nat>): set<nat>
    requires forall k :: k in keys ==> k in rows
  {
    set k | k in keys :: rows[k].createdAt
  }

  lemma {:induction false} DistinctTimesCount(rows: Rows, keys: set<nat>)
    requires DistinctTimes(rows) && forall k :: k in keys ==> k in rows
    ensures |Created(rows, keys)| == |keys|
    decreases |keys|
  {
    if keys == {} {
      assert Created(rows, keys) == {};
    } else {
      var k :| k in keys;
      DistinctTimesCount(rows, keys - {k});
      assert Created(rows, keys) == Created(rows, keys - {k}) + {rows[k].createdAt};
    }
  }

  /** Given distinct times that is once per row. */
  lemma TimesAreRows(rows: Rows, modem: int)
    requires DistinctTimes(rows)
    ensures |Times(rows, modem)| == |OfModem(rows, modem)|
  {
    DistinctTimesCount(rows, OfModem(rows, modem));
    assert Times(rows, modem) == Created(rows, OfModem(rows, modem));
  }

  // ---- What the sweep leaves ----

  /** The sweep visits the modem often enough, and no tie crosses the boundary of its newest rows. */
  ghost predicate Clear(rows: Rows, modem: int, limit: nat, batchSize: nat) {
    OverflowOf(rows, modem, limit) <= |Times(rows, modem)| * batchSize && NoTieAcross(rows, modem, limit)
  }

  /** That is exactly what it takes to be sure of the newest `limit` rows of a selected modem. */
  lemma SweepLeavesNewestIff(rows: Rows, only: Option<int>, stamps: seq<Stamp>, limit: nat, batchSize: nat, modem: int)
    requires IsSweep(rows, only, stamps) && Selected(only, modem)
    ensures AlwaysLeavesNewest(rows, Modems(stamps), limit, batchSize, modem) <==> Clear(rows, modem, limit, batchSize)
  {
    SweepVisits(rows, only, stamps, modem);
    NewestAreLeftIff(rows, Modems(stamps), limit, batchSize, modem);
  }

  /** Distinct times meet that condition with any positive batch size. */
  lemma DistinctTimesAreClear(rows: Rows, modem: int, limit: nat, batchSize: nat)
    requires DistinctTimes(rows) && 1 <= batchSize
    ensures Clear(rows, modem, limit, batchSize)
  {
    TimesAreRows(rows, modem);
    MulMono(|OfModem(rows, modem)|, 1, |Times(rows, modem)|, batchSize);
  }

  ghost predicate AllClear(rows: Rows, only: Option<int>, limit: nat, batchSize: nat) {
    forall modem | Selected(only, modem) :: Clear(rows, modem, limit, batchSize)
  }

  /** The rows the sweep is meant to delete. */
  function OverflowRows(rows: Rows, only: Option<int>, limit: nat): set<nat> {
    set pk | pk in rows && Selected(only, rows[pk].modem) && !AmongNewest(rows, limit, pk)
  }

  lemma UnselectedAreKept(before: Rows, after: Rows, only: Option<int>, stamps: seq<Stamp>, limit: nat, batchSize: nat,
                          pk: nat)
    requires IsSweep(before, only, stamps) && Leaves(before, Modems(stamps), limit, batchSize, after)
    requires pk in before && !Selected(only, before[pk].modem)
    ensures pk in after
  {
    SweepVisits(before, only, stamps, before[pk].modem);
    VisitsKeepNewest(before, Modems(stamps), limit, batchSize, after);
    UnvisitedKeepsAll(before, after, limit, batchSize, Modems(stamps), pk);
  }

  lemma GoneIsOverflow(before: Rows, after: Rows, only: Option<int>, stamps: seq<Stamp>, limit: nat, batchSize: nat)
    requires IsSweep(before, only, stamps) && Leaves(before, Modems(stamps), limit, batchSize, after)
    requires AllClear(before, only, limit, batchSize)
    ensures before.Keys - after.Keys == OverflowRows(before, only, limit)
  {
    forall pk | pk in before ensures pk !in after <==> pk in OverflowRows(before, only, limit) {
      var modem := before[pk].modem;
      if Selected(only, modem) {
        SweepLeavesNewestIff(before, only, stamps, limit, batchSize, modem);
        assert Clear(before, modem, limit, batchSize) && ExactlyNewest(before, after, modem, limit);
        assert pk in OfModem(before, modem);
      } else {
        UnselectedAreKept(before, after, only, stamps, limit, batchSize, pk);
      }
    }
  }

  // ---- What the dry run of the sweep announces ----

  ghost predicate NothingWastedBySweep(rows: Rows, limit: nat, batchSize: nat, modem: int) {
    NothingWasted(OverflowOf(rows, modem, limit), batchSize, |Times(rows, modem)|)
  }

  /** The dry run announces what the real run deletes iff every selected modem has no overflow,
      rows of one instant only, or a full batch for each of its instants. */
  lemma SweepDryRunIsExactIff(rows: Rows, only: Option<int>, stamps: seq<Stamp>, limit: nat, batchSize: nat)
    requires IsSweep(rows, only, stamps)
    ensures DryRunTotal(rows, Modems(stamps), limit, batchSize) == RealTotal(rows, Modems(stamps), limit, batchSize)
       <==> forall modem | Selected(only, modem) :: NothingWastedBySweep(rows, limit, batchSize, modem)
  {
    AnnouncedIsDeletedIff(rows, Modems(stamps), limit, batchSize);
    forall modem
      ensures NothingWastedAt(rows, Modems(stamps), limit, batchSize, modem) <==>
              !Selected(only, modem) || NothingWastedBySweep(rows, limit, batchSize, modem)
    {
      SweepVisits(rows, only, stamps, modem);
    }
    if forall modem :: NothingWastedAt(rows, Modems(stamps), limit, batchSize, modem) {
      forall modem | Selected(only, modem) ensures NothingWastedBySweep(rows, limit, batchSize, modem) {
        assert NothingWastedAt(rows, Modems(stamps), limit, batchSize, modem);
      }
    }
  }

  /** Given distinct times: iff no selected modem overflows or the batch size is zero. */
  lemma SweepDryRunGivenDistinctTimes(rows: Rows, only: Option<int>, stamps: seq<Stamp>, limit: nat, batchSize: nat)
    requires DistinctTimes(rows) && IsSweep(rows, only, stamps) && 1 <= limit
    ensures DryRunTotal(rows, Modems(stamps), limit, batchSize) == RealTotal(rows, Modems(stamps), limit, batchSize)
       <==> batchSize == 0 || forall modem | Selected(only, modem) :: OverflowOf(rows, modem, limit) == 0
  {
    SweepDryRunIsExactIff(rows, only, stamps, limit, batchSize);
    forall modem
      ensures NothingWastedBySweep(rows, limit, batchSize, modem) <==>
              batchSize == 0 || OverflowOf(rows, modem, limit) == 0
    {
      TimesAreRows(rows, modem);
      if batchSize >= 1 { MulMono(|OfModem(rows, modem)|, 1, |OfModem(rows, modem)|, batchSize); }
    }
    if batchSize != 0 && (forall modem | Selected(only, modem) :: NothingWastedBySweep(rows, limit, batchSize, modem)) {
      forall modem | Selected(only, modem) ensures OverflowOf(rows, modem, limit) == 0 {
        assert NothingWastedBySweep(rows, limit, batchSize, modem);
      }
    }
  }

  /** The rows announced by visits that find less than a batch left. */
  function InVain(rows: Rows, visits: seq<int>, limit: nat, batchSize: nat): int {
    if visits == [] then 0
    else
      var before, modem := visits[..|visits| - 1], visits[|visits| - 1];
      InVain(rows, before, limit, batchSize) + BatchOf(rows, modem, limit, batchSize)
      - NextBatch(OverflowOf(rows, modem, limit), Reach(before, modem, batchSize), batchSize)
  }

  lemma {:induction false} InVainIsTheDifference(rows: Rows, visits: seq<int>, limit: nat, batchSize: nat)
    ensures DryRunTotal(rows, visits, limit, batchSize)
         == RealTotal(rows, visits, limit, batchSize) + InVain(rows, visits, limit, batchSize)
  {
    if visits != [] { InVainIsTheDifference(rows, visits[..|visits| - 1], limit, batchSize); }
  }

  lemma OverflowIsRealTotal(rows: Rows, only: Option<int>, stamps: seq<Stamp>, limit: nat, batchSize: nat)
    requires IsSweep(rows, only, stamps) && AllClear(rows, only, limit, batchSize)
    ensures |OverflowRows(rows, only, limit)| == RealTotal(rows, Modems(stamps), limit, batchSize)
  {
    var after := VisitsArePossible(rows, Modems(stamps), limit, batchSize);
    VisitsKeepNewest(rows, Modems(stamps), limit, batchSize, after);
    GoneIsOverflow(rows, after, only, stamps, limit, batchSize);
    RowsGone(rows, after);
  }

  lemma RowsGone(before: Rows, after: Rows)
    requires Unaltered(before, after)
    ensures |before.Keys - after.Keys| == |before| - |after|
  {
    SizeOfParts(before.Keys, after.Keys);
    assert before.Keys * after.Keys == after.Keys;
  }

  /** The counts of the two runs, where it is certain which rows go. The real one adds the
      webhook jobs of the overflow rows, so before the call it is known that they agree iff just
      as many overflow rows have a job as are announced in vain. Without such jobs that is iff
      nothing is wasted. */
  lemma CountsAgreeIff(rows: Rows, withJob: set<nat>, only: Option<int>, stamps: seq<Stamp>, limit: nat, batchSize: nat)
    requires IsSweep(rows, only, stamps) && AllClear(rows, only, limit, batchSize)
    ensures var gone := OverflowRows(rows, only, limit);
            var announced := DryRunTotal(rows, Modems(stamps), limit, batchSize);
            && (announced == |gone| + |gone * withJob| <==>
                |gone * withJob| == InVain(rows, Modems(stamps), limit, batchSize))
            && (gone * withJob == {} ==>
                  (announced == |gone| + |gone * withJob| <==>
                   forall modem | Selected(only, modem) :: NothingWastedBySweep(rows, limit, batchSize, modem)))
  {
    OverflowIsRealTotal(rows, only, stamps, limit, batchSize);
    InVainIsTheDifference(rows, Modems(stamps), limit, batchSize);
    SweepDryRunIsExactIff(rows, only, stamps, limit, batchSize);
  }

  lemma TwoRows() returns (rows: Rows, stamps: seq<Stamp>)
    ensures rows == map[0 := Sms(1, 10), 1 := Sms(1, 20)]
    ensures DistinctTimes(rows) && IsSweep(rows, None, stamps) && OverflowOf(rows, 1, 1) == 1
  {
    rows, stamps := map[0 := Sms(1, 10), 1 := Sms(1, 20)], [(1, 20), (1, 10)];
    assert (rows[0].modem, rows[0].createdAt) in Stamps(rows, None);
    assert (rows[1].modem, rows[1].createdAt) in Stamps(rows, None);
    assert OfModem(rows, 1) == {0, 1};
  }

  /** Two rows and room for one: the dry run announces more than is deleted. */
  lemma DryRunAnnouncesTooMuch() returns (rows: Rows, stamps: seq<Stamp>)
    ensures rows == map[0 := Sms(1, 10), 1 := Sms(1, 20)] && DistinctTimes(rows) && IsSweep(rows, None, stamps)
    ensures RealTotal(rows, Modems(stamps), 1, 1) < DryRunTotal(rows, Modems(stamps), 1, 1)
  {
    rows, stamps := TwoRows();
    AnnouncedIsDeletedIff(rows, Modems(stamps), 1, 1);
    SweepDryRunGivenDistinctTimes(rows, None, stamps, 1, 1);
  }

  // ---- The command ----

  lemma {:induction false} LatestExists(stamps: set<Stamp>)
    requires stamps != {}
    ensures exists p :: p in stamps && forall q :: q in stamps ==> q.1 <= p.1
    decreases |stamps|
  {
    var some :| some in stamps;
    if stamps != {some} {
      LatestExists(stamps - {some});
      var p :| p in stamps - {some} && forall q :: q in stamps - {some} ==> q.1 <= p.1;
      var latest := if some.1 <= p.1 then p else some;
      assert forall q :: q in stamps ==> q == some || q in stamps - {some};
      assert latest in stamps && forall q :: q in stamps ==> q.1 <= latest.1;
    }
  }

  method QuerySweep(table: ModelTable, only: Option<int>) returns (stamps: seq<Stamp>)
    ensures IsSweep(table.rows, only, stamps)
  {
    stamps := [];
    var left := Stamps(table.rows, only);
    while left != {}
      invariant forall p :: p in Stamps(table.rows, only) <==> p in left || p in stamps
      invariant forall i :: 0 <= i < |stamps| ==> stamps[i] !in left
      invariant forall i, j :: 0 <= i < j < |stamps| ==> stamps[i] != stamps[j] && stamps[i].1 >= stamps[j].1
      invariant forall i, p :: 0 <= i < |stamps| && p in left ==> stamps[i].1 >= p.1
      decreases left
    {
      LatestExists(left);
      var p :| p in left && forall q :: q in left ==> q.1 <= p.1;
      stamps, left := stamps + [p], left - {p};
    }
  }

  /** What a real sweep is certain to leave and to count. */
  ghost predicate Swept(before: Rows, jobs: set<nat>, after: Rows, only: Option<int>, limit: nat, batchSize: nat,
                        counted: int) {
    && (forall pk :: pk in before && !Selected(only, before[pk].modem) ==> pk in after)
    && (forall modem | Selected(only, modem) && Clear(before, modem, limit, batchSize) ::
          ExactlyNewest(before, after, modem, limit))
    && (AllClear(before, only, limit, batchSize) ==>
          var gone := OverflowRows(before, only, limit);
          before.Keys - after.Keys == gone && counted == |gone| + |gone * jobs|)
  }

  lemma SweepIsSwept(before: Rows, jobs: set<nat>, after: Rows, only: Option<int>, stamps: seq<Stamp>, limit: nat,
                     batchSize: nat, counted: int)
    requires IsSweep(before, only, stamps) && Leaves(before, Modems(stamps), limit, batchSize, after)
    requires var gone := before.Keys - after.Keys; counted == |gone| + |gone * jobs|
    ensures Swept(before, jobs, after, only, limit, batchSize, counted)
  {
    forall pk | pk in before && !Selected(only, before[pk].modem) ensures pk in after {
      UnselectedAreKept(before, after, only, stamps, limit, batchSize, pk);
    }
    forall modem | Selected(only, modem) && Clear(before, modem, limit, batchSize)
      ensures ExactlyNewest(before, after, modem, limit)
    {
      SweepLeavesNewestIff(before, only, stamps, limit, batchSize, modem);
    }
    if AllClear(before, only, limit, batchSize) { GoneIsOverflow(before, after, only, stamps, limit, batchSize); }
  }

  /** `--modem-index m` leaves the rows of all other modems, and every modem it selects, or each
      modem without it, loses one batch of its overflow per instant. */
  lemma SweptByIndex(before: Rows, after: Rows, only: Option<int>, stamps: seq<Stamp>, limit: nat, batchSize: nat)
    requires IsSweep(before, only, stamps) && Kept(before, Modems(stamps), limit, batchSize, after)
    ensures forall pk :: pk in before && only.Some? && before[pk].modem != only.value ==> pk in after
    ensures forall modem :: only == None || modem == only.value ==>
              var n := |OfModem(before, modem)|;
              |OfModem(after, modem)|
              == if n <= limit then n else n - Min(n - limit, |Times(before, modem)| * batchSize)
  {
    forall pk | pk in before && only.Some? && before[pk].modem != only.value ensures pk in after {
      SweepVisits(before, only, stamps, before[pk].modem);
      UnvisitedKeepsAll(before, after, limit, batchSize, Modems(stamps), pk);
    }
    forall modem | only == None || modem == only.value
      ensures var n := |OfModem(before, modem)|;
              |OfModem(after, modem)|
              == if n <= limit then n else n - Min(n - limit, |Times(before, modem)| * batchSize)
    {
      SweepVisits(before, only, stamps, modem);
      assert SizeShrinks(before, after, modem, limit, Reach(Modems(stamps), modem, batchSize));
    }
  }

  /** The sweep with a batch size that is not negative. */
  method RotateInBatches(table: ModelTable, only: Option<int>, limit: nat, batchSize: nat, dryRun: bool)
    returns (counted: nat, ghost stamps: seq<Stamp>)
    modifies table
    ensures IsSweep(old(table.rows), only, stamps)
    ensures table.withJob * table.rows.Keys == old(table.withJob) * table.rows.Keys
    ensures dryRun ==> table.rows == old(table.rows)
    ensures dryRun ==> counted == DryRunTotal(old(table.rows), Modems(stamps), limit, batchSize)
    ensures !dryRun ==> Kept(old(table.rows), Modems(stamps), limit, batchSize, table.rows)
    ensures !dryRun ==> var gone := old(table.rows).Keys - table.rows.Keys;
                        counted == |gone| + |gone * old(table.withJob)|
    ensures !dryRun ==>
              Swept(old(table.rows), old(table.withJob), table.rows, only, limit, batchSize, counted)
    ensures !dryRun ==>
              && (forall pk :: pk in old(table.rows) && only.Some? && old(table.rows)[pk].modem != only.value ==>
                    pk in table.rows)
              && (forall modem :: only == None || modem == only.value ==>
                    var n := |OfModem(old(table.rows), modem)|;
                    |OfModem(table.rows, modem)|
                    == if n <= limit then n else n - Min(n - limit, |Times(old(table.rows), modem)| * batchSize))
  {
    ghost var before, jobs := table.rows, table.withJob;
    var found := QuerySweep(table, only);
    stamps := found;
    counted := VisitAll(table, Modems(found), limit, batchSize, dryRun);
    if !dryRun {
      SweepIsSwept(before, jobs, table.rows, only, stamps, limit, batchSize, counted);
      SweptByIndex(before, table.rows, only, stamps, limit, batchSize);
    }
  }

  /** A negative batch size. */
  method RotateNothing(table: ModelTable, only: Option<int>, limit: nat, batchSize: int)
    returns (counted: Option<nat>, ghost stamps: seq<Stamp>)
    requires batchSize < 0
    ensures IsSweep(table.rows, only, stamps)
    ensures counted == None <==>
              limit + batchSize < 0
              && exists pk :: && pk in table.rows && (only == None || table.rows[pk].modem == only.value)
                              && limit < |OfModem(table.rows, table.rows[pk].modem)|
    ensures counted.Some? ==> counted.value == 0
  {
    var visited := QuerySweep(table, only);
    stamps := visited;
    if limit + batchSize < 0
       && exists pk :: pk in table.rows && Selected(only, table.rows[pk].modem)
                       && OverflowOf(table.rows, table.rows[pk].modem, limit) > 0 {
      return None, stamps;
    }
    counted := Some(0);
  }

  /** `_rotate_model`; None if it raises. With a negative batch size every slice is empty, or no
      valid slice if it ends below zero, which is only noticed at a modem that overflows. */
  method RotateModel(table: ModelTable, only: Option<int>, limit: nat, batchSize: int, dryRun: bool)
    returns (counted: Option<nat>, ghost stamps: seq<Stamp>)
    modifies table
    ensures IsSweep(old(table.rows), only, stamps)
    ensures table.withJob * table.rows.Keys == old(table.withJob) * table.rows.Keys
    ensures counted == None <==>
              limit + batchSize < 0
              && exists pk :: && pk in old(table.rows) && (only == None || old(table.rows)[pk].modem == only.value)
                              && limit < |OfModem(old(table.rows), old(table.rows)[pk].modem)|
    ensures 0 <= batchSize && !dryRun ==>
              && (forall pk :: pk in old(table.rows) && only.Some? && old(table.rows)[pk].modem != only.value ==>
                    pk in table.rows)
              && (forall modem :: only == None || modem == only.value ==>
                    var n := |OfModem(old(table.rows), modem)|;
                    |OfModem(table.rows, modem)|
                    == if n <= limit then n else n - Min(n - limit, |Times(old(table.rows), modem)| * batchSize))
    ensures dryRun || batchSize < 0 ==> table.rows == old(table.rows)
    ensures batchSize < 0 && counted.Some? ==> counted.value == 0
    ensures 0 <= batchSize && dryRun ==>
              counted == Some(DryRunTotal(old(table.rows), Modems(stamps), limit, batchSize))
    ensures 0 <= batchSize && !dryRun ==>
              && Kept(old(table.rows), Modems(stamps), limit, batchSize, table.rows)
              && Swept(old(table.rows), old(table.withJob), table.rows, only, limit, batchSize, counted.value)
              && var gone := old(table.rows).Keys - table.rows.Keys;
                 counted.value == |gone| + |gone * old(table.withJob)|
  {
    if batchSize >= 0 {
      var n, found := RotateInBatches(table, only, limit, batchSize, dryRun);
      return Some(n), found;
    }
    var r, visited := RotateNothing(table, only, limit, batchSize);
    counted, stamps := r, visited;
  }
}
