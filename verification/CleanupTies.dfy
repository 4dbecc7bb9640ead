/** Which rows `cleanup_sms_storage` leaves. Rows created at the same instant come in any order,
    so what matters is whether such a tie crosses the boundary of the newest `limit` rows. */
module CleanupTies {
  import opened Common
  import opened Rotation
  import opened RotationTables
  import opened CleanupCommand
  import opened CleanupDryRun

  function Newest(rows: Rows, modem: int, limit: nat): set<nat> {
    set pk | pk in OfModem(rows, modem) && AmongNewest(rows, limit, pk)
  }

  /** No row among the newest `limit` of the modem ties with one that is not. */
  ghost predicate NoTieAcross(rows: Rows, modem: int, limit: nat) {
    forall a, b | a in Newest(rows, modem, limit) && b in OfModem(rows, modem) - Newest(rows, modem, limit) ::
      rows[a].createdAt != rows[b].createdAt
  }

  ghost predicate ExactlyNewest(before: Rows, after: Rows, modem: int, limit: nat) {
    forall pk :: pk in OfModem(before, modem) ==> (pk in after <==> AmongNewest(before, limit, pk))
  }

  lemma NewestSize(rows: Rows, modem: int, limit: nat)
    ensures |Newest(rows, modem, limit)| == Min(limit, |OfModem(rows, modem)|)
  {
    var l := TheListing(rows, modem);
    TheListingLists(rows, modem);
    ListingSize(rows, modem, l);
    ListingTop(rows, modem, l, limit);
    var top := l[Max(0, |l| - limit)..];
    DistinctSize(top);
    assert Newest(rows, modem, limit) == Elements(top);
  }

  /** A row of the newest is at least as new as one that is not. */
  lemma NewestAreNewer(rows: Rows, modem: int, limit: nat, a: nat, b: nat)
    requires a in OfModem(rows, modem) && b in OfModem(rows, modem)
    requires AmongNewest(rows, limit, a) && !AmongNewest(rows, limit, b)
    ensures rows[b].createdAt <= rows[a].createdAt
  {
    var l := TheListing(rows, modem);
    TheListingLists(rows, modem);
    ListingTop(rows, modem, l, limit);
    NewerThanTheRest(rows, modem, l, limit, b, a);
  }

  /** Without a tie across the boundary everything at least as new as a newest row is a newest row. */
  lemma SinceANewest(rows: Rows, modem: int, limit: nat, pk: nat)
    requires NoTieAcross(rows, modem, limit) && pk in Newest(rows, modem, limit)
    ensures Since(rows, modem, rows[pk].createdAt) <= Newest(rows, modem, limit)
  {
    forall q | q in Since(rows, modem, rows[pk].createdAt) ensures AmongNewest(rows, limit, q) {
      if !AmongNewest(rows, limit, q) { NewestAreNewer(rows, modem, limit, pk, q); }
    }
  }

  /** Once its visits reach the whole overflow, a modem without a tie across the boundary keeps
      exactly its newest `limit` rows. */
  lemma EnoughVisitsKeepNewest(before: Rows, after: Rows, limit: nat, batchSize: nat, visits: seq<int>, modem: int)
    requires Unaltered(before, after) && NewestKept(before, after, limit)
    requires SizesShrink(before, after, limit, batchSize, visits)
    requires OverflowOf(before, modem, limit) <= Reach(visits, modem, batchSize) && NoTieAcross(before, modem, limit)
    ensures ExactlyNewest(before, after, modem, limit)
  {
    var kept := Newest(before, modem, limit);
    NewestSize(before, modem, limit);
    forall pk | pk in kept ensures pk in OfModem(after, modem) {
      NewestAreKept(before, after, limit, modem, pk);
    }
    assert SizeShrinks(before, after, modem, limit, Reach(visits, modem, batchSize));
    SubsetIsSmaller(kept, OfModem(after, modem));
    assert kept == OfModem(after, modem);
    forall pk | pk in OfModem(before, modem) ensures pk in after <==> pk in OfModem(after, modem) {}
  }

  lemma NewestAreKept(before: Rows, after: Rows, limit: nat, modem: int, pk: nat)
    requires NewestKept(before, after, limit) && NoTieAcross(before, modem, limit) && pk in Newest(before, modem, limit)
    ensures pk in OfModem(after, modem)
  {
    var since := Since(before, modem, before[pk].createdAt);
    NewestSize(before, modem, limit);
    SinceANewest(before, modem, limit, pk);
    SubsetIsSmaller(since, Newest(before, modem, limit));
    assert KeptSince(before, after, modem, limit, before[pk].createdAt);
    assert pk in since;
  }

  // ---- Every answer is possible ----

  lemma ReversedIsNewestFirst(rows: Rows, modem: int, l: seq<nat>)
    requires Elements(l) == OfModem(rows, modem) && forall i :: 0 <= i < |l| ==> l[i] in rows
    requires forall i, j :: 0 <= i < j < |l| ==> l[i] != l[j] && rows[l[i]].createdAt <= rows[l[j]].createdAt
    ensures NewestFirst(rows, modem, Reversed(l))
  {
    ReversedElements(l);
    var r := Reversed(l);
    forall i, j | 0 <= i < j < |r| ensures r[i] != r[j] && rows[r[i]].createdAt >= rows[r[j]].createdAt {
      assert r[i] == l[|l| - 1 - i] && r[j] == l[|l| - 1 - j];
    }
  }

  lemma VisitIsPossible(rows: Rows, modem: int, limit: nat, batchSize: nat) returns (after: Rows)
    ensures VisitLeaves(rows, modem, limit, batchSize, after)
  {
    var l := TheListing(rows, modem);
    TheListingLists(rows, modem);
    ListingSize(rows, modem, l);
    ReversedIsNewestFirst(rows, modem, l);
    after := rows;
    if limit < |l| { after := rows - Elements(BatchIds(Reversed(l), limit, batchSize)); }
  }

  lemma {:induction false} VisitsArePossible(before: Rows, visits: seq<int>, limit: nat, batchSize: nat)
    returns (after: Rows)
    ensures Leaves(before, visits, limit, batchSize, after)
    decreases |visits|
  {
    after := before;
    if visits != [] {
      var vs, v := visits[..|visits| - 1], visits[|visits| - 1];
      var mid := VisitsArePossible(before, vs, limit, batchSize);
      after := VisitIsPossible(mid, v, limit, batchSize);
      LeavesOneMore(before, vs, limit, batchSize, mid, v, after);
      assert visits == vs + [v];
    }
  }

  // ---- A tie across the boundary shows ----

  /** A tie across the boundary is one between the two rows at it. */
  lemma TieAtTheBoundary(rows: Rows, modem: int, limit: nat, l: seq<nat>)
    requires Listing(rows, modem, l) && !NoTieAcross(rows, modem, limit)
    ensures var from := |l| - limit;
            && 0 < from < |l| && rows[l[from - 1]].createdAt == rows[l[from]].createdAt
            && AmongNewest(rows, limit, l[from])
  {
    var a, b :| a in Newest(rows, modem, limit) && b in OfModem(rows, modem) - Newest(rows, modem, limit)
      && rows[a].createdAt == rows[b].createdAt;
    assert a in Elements(l) && b in Elements(l);
    var i :| 0 <= i < |l| && l[i] == a;
    var j :| 0 <= j < |l| && l[j] == b;
    RankInListing(rows, modem, l, i);
    RankInListing(rows, modem, l, j);
    var from := |l| - limit;
    assert j <= from - 1 < from <= i;
    RankInListing(rows, modem, l, from);
    assert j < from - 1 ==> Older(rows, l[j], l[from - 1]);
    assert Older(rows, l[from - 1], l[from]);
    assert from < i ==> Older(rows, l[from], l[i]);
  }

  /** The two rows at the boundary, the other way round. */
  function Swapped(l: seq<nat>, k: nat): seq<nat>
    requires 0 < k < |l|
  {
    l[k - 1 := l[k]][k := l[k - 1]]
  }

  lemma SwappedElements(l: seq<nat>, k: nat)
    requires 0 < k < |l|
    ensures Elements(Swapped(l, k)) == Elements(l)
  {
    var m := Swapped(l, k);
    forall x ensures x in m <==> x in l {
      if x in l {
        var i :| 0 <= i < |l| && l[i] == x;
        assert m[if i == k then k - 1 else if i == k - 1 then k else i] == x;
      }
    }
  }

  /** So the database may list them so. */
  lemma SwappedIsNewestFirst(rows: Rows, modem: int, limit: nat, l: seq<nat>)
    requires Listing(rows, modem, l) && !NoTieAcross(rows, modem, limit)
    ensures 0 < |l| - limit < |l| && NewestFirst(rows, modem, Reversed(Swapped(l, |l| - limit)))
  {
    TieAtTheBoundary(rows, modem, limit, l);
    SwappedElements(l, |l| - limit);
    ReversedIsNewestFirst(rows, modem, Swapped(l, |l| - limit));
  }

  /** And the first visit deletes one of the newest rows. */
  lemma TieVisit(rows: Rows, modem: int, limit: nat, batchSize: nat) returns (after: Rows, pk: nat)
    requires 1 <= batchSize && !NoTieAcross(rows, modem, limit)
    ensures VisitLeaves(rows, modem, limit, batchSize, after)
    ensures pk in Newest(rows, modem, limit) && pk !in after
  {
    var l := TheListing(rows, modem);
    TheListingLists(rows, modem);
    ListingSize(rows, modem, l);
    TieAtTheBoundary(rows, modem, limit, l);
    SwappedIsNewestFirst(rows, modem, limit, l);
    var newest := Reversed(Swapped(l, |l| - limit));
    var ids := BatchIds(newest, limit, batchSize);
    pk := l[|l| - limit];
    assert ids[0] == newest[limit] == pk;
    after := rows - Elements(ids);
    assert pk in Elements(l);
  }

  /** A modem whose rows are untouched has the same newest rows. */
  lemma SameNewest(before: Rows, mid: Rows, modem: int, limit: nat)
    requires Unaltered(before, mid) && OfModem(mid, modem) == OfModem(before, modem)
    ensures forall pk :: pk in OfModem(before, modem) ==>
              (AmongNewest(mid, limit, pk) <==> AmongNewest(before, limit, pk))
    ensures NoTieAcross(mid, modem, limit) <==> NoTieAcross(before, modem, limit)
  {
    forall pk | pk in OfModem(before, modem) ensures NewerCount(mid, pk) == NewerCount(before, pk) {
      assert pk in OfModem(mid, modem);
      var a := set q | q in before && before[q].modem == before[pk].modem && Older(before, pk, q);
      var b := set q | q in mid && mid[q].modem == mid[pk].modem && Older(mid, pk, q);
      forall q ensures q in a <==> q in b {
        assert q in OfModem(before, modem) <==> q in OfModem(mid, modem);
      }
      assert a == b;
    }
  }

  lemma {:induction false} TieRun(before: Rows, visits: seq<int>, limit: nat, batchSize: nat, modem: int)
    returns (after: Rows, pk: nat)
    requires 1 <= batchSize && !NoTieAcross(before, modem, limit) && 1 <= Visits(visits, modem)
    ensures Leaves(before, visits, limit, batchSize, after)
    ensures pk in Newest(before, modem, limit) && pk !in after
    decreases |visits|
  {
    var vs, v := visits[..|visits| - 1], visits[|visits| - 1];
    assert visits == vs + [v];
    var mid: Rows;
    if 1 <= Visits(vs, modem) {
      mid, pk := TieRun(before, vs, limit, batchSize, modem);
      after := VisitIsPossible(mid, v, limit, batchSize);
      VisitShrinksSizes(mid, v, limit, batchSize, after);
    } else {
      mid := VisitsArePossible(before, vs, limit, batchSize);
      VisitsKeepNewest(before, vs, limit, batchSize, mid);
      forall q | q in OfModem(before, modem) ensures q in mid {
        UnvisitedKeepsAll(before, mid, limit, batchSize, vs, q);
      }
      SameNewest(before, mid, modem, limit);
      after, pk := TieVisit(mid, modem, limit, batchSize);
    }
    LeavesOneMore(before, vs, limit, batchSize, mid, v, after);
  }

  // ---- The exact conditions ----

  ghost predicate AlwaysLeavesNewest(before: Rows, visits: seq<int>, limit: nat, batchSize: nat, modem: int) {
    forall after :: Leaves(before, visits, limit, batchSize, after) ==> ExactlyNewest(before, after, modem, limit)
  }

  /** However ties are ordered, the visits leave exactly the newest `limit` rows of a modem, iff
      they reach its whole overflow and no tie crosses the boundary. */
  lemma NewestAreLeftIff(before: Rows, visits: seq<int>, limit: nat, batchSize: nat, modem: int)
    ensures AlwaysLeavesNewest(before, visits, limit, batchSize, modem) <==>
            && OverflowOf(before, modem, limit) <= Reach(visits, modem, batchSize)
            && NoTieAcross(before, modem, limit)
  {
    if OverflowOf(before, modem, limit) > Reach(visits, modem, batchSize) {
      TooFewVisits(before, visits, limit, batchSize, modem);
    } else if NoTieAcross(before, modem, limit) {
      forall after | Leaves(before, visits, limit, batchSize, after)
        ensures ExactlyNewest(before, after, modem, limit)
      {
        VisitsKeepNewest(before, visits, limit, batchSize, after);
        EnoughVisitsKeepNewest(before, after, limit, batchSize, visits, modem);
      }
    } else {
      ATieIsVisited(before, visits, limit, batchSize, modem);
      var after, pk := TieRun(before, visits, limit, batchSize, modem);
      assert !ExactlyNewest(before, after, modem, limit);
    }
  }

  lemma TooFewVisits(before: Rows, visits: seq<int>, limit: nat, batchSize: nat, modem: int)
    requires OverflowOf(before, modem, limit) > Reach(visits, modem, batchSize)
    ensures !AlwaysLeavesNewest(before, visits, limit, batchSize, modem)
  {
    var after := VisitsArePossible(before, visits, limit, batchSize);
    VisitsKeepNewest(before, visits, limit, batchSize, after);
    assert SizeShrinks(before, after, modem, limit, Reach(visits, modem, batchSize));
    NewestSize(before, modem, limit);
    ExactlyIsNewest(before, after, modem, limit);
  }

  lemma ExactlyIsNewest(before: Rows, after: Rows, modem: int, limit: nat)
    requires Unaltered(before, after)
    ensures ExactlyNewest(before, after, modem, limit) ==> OfModem(after, modem) == Newest(before, modem, limit)
  {
    if ExactlyNewest(before, after, modem, limit) {
      forall pk | pk in OfModem(after, modem) ensures pk in OfModem(before, modem) {}
    }
  }

  lemma ATieIsVisited(before: Rows, visits: seq<int>, limit: nat, batchSize: nat, modem: int)
    requires OverflowOf(before, modem, limit) <= Reach(visits, modem, batchSize) && !NoTieAcross(before, modem, limit)
    ensures 1 <= batchSize && 1 <= Visits(visits, modem)
  {
    var l := TheListing(before, modem);
    TheListingLists(before, modem);
    ListingSize(before, modem, l);
    TieAtTheBoundary(before, modem, limit, l);
    assert batchSize == 0 || Visits(visits, modem) == 0 ==> Reach(visits, modem, batchSize) == 0;
  }

  ghost predicate AlwaysSameSurvivors(before: Rows, visits: seq<int>, limit: nat, batchSize: nat, byService: Rows,
                                      modem: int) {
    forall after, pk :: Leaves(before, visits, limit, batchSize, after) && pk in OfModem(before, modem) ==>
      (pk in after <==> pk in byService)
  }

  /** So the two algorithms are sure to leave the same rows of a modem under exactly that condition. */
  lemma SameSurvivorsIff(before: Rows, visits: seq<int>, limit: nat, batchSize: nat, byService: Rows, modem: int)
    requires KeepsNewest(before, byService, modem, limit)
    ensures AlwaysSameSurvivors(before, visits, limit, batchSize, byService, modem) <==>
            && OverflowOf(before, modem, limit) <= Reach(visits, modem, batchSize)
            && NoTieAcross(before, modem, limit)
  {
    NewestAreLeftIff(before, visits, limit, batchSize, modem);
    forall pk | pk in OfModem(before, modem) ensures pk in byService <==> AmongNewest(before, limit, pk) {}
    if AlwaysSameSurvivors(before, visits, limit, batchSize, byService, modem) {
      forall after | Leaves(before, visits, limit, batchSize, after)
        ensures ExactlyNewest(before, after, modem, limit) {}
    }
    if AlwaysLeavesNewest(before, visits, limit, batchSize, modem) {
      forall after, pk | Leaves(before, visits, limit, batchSize, after) && pk in OfModem(before, modem)
        ensures pk in after <==> pk in byService
      {
        assert ExactlyNewest(before, after, modem, limit);
      }
    }
  }
}
