/** The `cleanup_sms_storage` command: each visit of a modem deletes one batch of its overflow,
    newest overflow rows first, and a modem may be visited any number of times. */
module CleanupCommand {
  import opened Common
  import opened Rotation
  import opened RotationTables

  /** No two rows were created at the same instant; `order_by('-created_at')` then has one answer. */
  ghost predicate DistinctTimes(rows: Rows) {
    forall a, b :: a in rows && b in rows && rows[a].createdAt == rows[b].createdAt ==> a == b
  }

  /** `l` is an answer to `filter(modem_index=modem).order_by('-created_at')`. */
  ghost predicate NewestFirst(rows: Rows, modem: int, l: seq<nat>) {
    && Elements(l) == OfModem(rows, modem)
    && (forall i :: 0 <= i < |l| ==> l[i] in rows)
    && (forall i, j :: 0 <= i < j < |l| ==> l[i] != l[j] && rows[l[i]].createdAt >= rows[l[j]].createdAt)
  }

  function Reversed(l: seq<nat>): seq<nat> {
    seq(|l|, i requires 0 <= i < |l| => l[|l| - 1 - i])
  }

  lemma ReversedElements(l: seq<nat>)
    ensures Elements(Reversed(l)) == Elements(l)
  {
    var r := Reversed(l);
    forall x ensures x in r <==> x in l {
      if x in l { var i :| 0 <= i < |l| && l[i] == x; assert r[|l| - 1 - i] == x; }
      if x in r { var i :| 0 <= i < |r| && r[i] == x; assert l[|l| - 1 - i] == x; }
    }
  }

  /** Given distinct times, the newest-first answer is the oldest-first listing backwards. */
  lemma NewestFirstIsReversed(rows: Rows, modem: int, l: seq<nat>)
    requires DistinctTimes(rows) && NewestFirst(rows, modem, l)
    ensures Listing(rows, modem, Reversed(l))
  {
    ReversedElements(l);
    var r := Reversed(l);
    forall i, j | 0 <= i < j < |r| ensures Older(rows, r[i], r[j]) {
      assert r[i] == l[|l| - 1 - i] && r[j] == l[|l| - 1 - j];
    }
  }

  function Overflow(n: nat, limit: nat): nat {
    Max(0, n - limit)
  }

  /** The oldest-first listing `l` after `gone` rows were taken out of its overflow, from its
      newest end. */
  function Trimmed(l: seq<nat>, limit: nat, gone: nat): seq<nat> {
    var overflow := Overflow(|l|, limit);
    l[..Max(0, overflow - gone)] + l[overflow..]
  }

  lemma TrimmedTwice(l: seq<nat>, limit: nat, gone: nat, batchSize: nat)
    ensures Trimmed(Trimmed(l, limit, gone), limit, batchSize) == Trimmed(l, limit, gone + batchSize)
    ensures |Trimmed(l, limit, gone)| == |l| - Min(Overflow(|l|, limit), gone)
  {
  }

  /** A stretch of a sequence read backwards is a stretch of the sequence. */
  lemma BackwardsSlice(newest: seq<nat>, a: nat, b: nat)
    requires a <= b <= |newest|
    ensures Elements(newest[a..b]) == Elements(Reversed(newest)[|newest| - b..|newest| - a])
  {
    var t := Reversed(newest)[|newest| - b..|newest| - a];
    ReversedElements(t);
    assert Reversed(t) == newest[a..b];
  }

  /** The batch of one visit. */
  function BatchIds(newest: seq<nat>, limit: nat, batchSize: nat): seq<nat>
    requires limit <= |newest|
  {
    newest[limit..Min(limit + batchSize, |newest|)]
  }

  /** One visit trims the listing of its modem by one batch. */
  lemma VisitTrims(rows: Rows, modem: int, limit: nat, batchSize: nat, l: seq<nat>, newest: seq<nat>)
    requires DistinctTimes(rows) && Listing(rows, modem, l) && NewestFirst(rows, modem, newest)
    requires limit < |newest|
    ensures Listing(rows - Elements(BatchIds(newest, limit, batchSize)), modem, Trimmed(l, limit, batchSize))
  {
    NewestFirstIsReversed(rows, modem, newest);
    ListingIsUnique(rows, modem, l, Reversed(newest));
    var from, to := Max(0, |l| - limit - batchSize), |l| - limit;
    BackwardsSlice(newest, limit, Min(limit + batchSize, |newest|));
    ListingAfterDelete(rows, modem, l, from, to);
  }

  /** How often `modem` is visited. */
  function Visits(visits: seq<int>, modem: int): nat {
    if visits == [] then 0
    else Visits(visits[..|visits| - 1], modem) + if visits[|visits| - 1] == modem then 1 else 0
  }

  /** How many rows of the overflow of `modem` these visits reach. */
  function Reach(visits: seq<int>, modem: int, batchSize: nat): nat {
    Visits(visits, modem) * batchSize
  }

  lemma ReachOneMore(visits: seq<int>, visit: int, modem: int, batchSize: nat)
    ensures Reach(visits + [visit], modem, batchSize)
         == Reach(visits, modem, batchSize) + if visit == modem then batchSize else 0
  {
    assert (visits + [visit])[..|visits|] == visits;
    var k := Visits(visits, modem);
    assert (k + 1) * batchSize == k * batchSize + batchSize;
  }

  /** From `before` to `after`, the listing of `modem` lost `gone` rows of its overflow. */
  ghost predicate TrimmedFor(before: Rows, after: Rows, modem: int, limit: nat, gone: nat) {
    TheListing(after, modem) == Trimmed(TheListing(before, modem), limit, gone)
  }

  /** The listing of every modem was trimmed by one batch per visit. */
  ghost predicate TrimmedBy(before: Rows, after: Rows, limit: nat, batchSize: nat, visits: seq<int>) {
    forall modem :: TrimmedFor(before, after, modem, limit, Reach(visits, modem, batchSize))
  }

  function OneBatch(modem: int, visit: int, batchSize: nat): nat {
    if modem == visit then batchSize else 0
  }

  ghost predicate TrimmedOnce(before: Rows, after: Rows, limit: nat, batchSize: nat, visit: int) {
    forall modem :: TrimmedFor(before, after, modem, limit, OneBatch(modem, visit, batchSize))
  }

  lemma TrimmedForCompose(a: Rows, b: Rows, c: Rows, modem: int, limit: nat, gone: nat, more: nat)
    requires TrimmedFor(a, b, modem, limit, gone) && TrimmedFor(b, c, modem, limit, more)
    ensures TrimmedFor(a, c, modem, limit, gone + more)
  {
    TrimmedTwice(TheListing(a, modem), limit, gone, more);
  }

  lemma TrimmedForOneMore(start: Rows, before: Rows, after: Rows, limit: nat, batchSize: nat, visits: seq<int>,
                          visit: int, modem: int)
    requires TrimmedFor(start, before, modem, limit, Reach(visits, modem, batchSize))
    requires TrimmedFor(before, after, modem, limit, OneBatch(modem, visit, batchSize))
    ensures TrimmedFor(start, after, modem, limit, Reach(visits + [visit], modem, batchSize))
  {
    ReachOneMore(visits, visit, modem, batchSize);
    TrimmedForCompose(start, before, after, modem, limit, Reach(visits, modem, batchSize),
                      OneBatch(modem, visit, batchSize));
  }

  lemma TrimmedOneMore(start: Rows, before: Rows, after: Rows, limit: nat, batchSize: nat, visits: seq<int>, visit: int)
    requires TrimmedBy(start, before, limit, batchSize, visits) && TrimmedOnce(before, after, limit, batchSize, visit)
    ensures TrimmedBy(start, after, limit, batchSize, visits + [visit])
  {
    forall modem ensures TrimmedFor(start, after, modem, limit, Reach(visits + [visit], modem, batchSize)) {
      assert TrimmedFor(start, before, modem, limit, Reach(visits, modem, batchSize));
      assert TrimmedFor(before, after, modem, limit, OneBatch(modem, visit, batchSize));
      TrimmedForOneMore(start, before, after, limit, batchSize, visits, visit, modem);
    }
  }

  // ---- What any visits leave, equal times or not ----

  /** The rows of `modem` created at `time` or later. */
  function Since(rows: Rows, modem: int, time: nat): set<nat> {
    set pk | pk in rows && rows[pk].modem == modem && rows[pk].createdAt >= time
  }

  /** Of the rows created since `time` all are kept if there are at most `limit`, and at least
      `limit` of them otherwise. */
  ghost predicate KeptSince(before: Rows, after: Rows, modem: int, limit: nat, time: nat) {
    var b, a := Since(before, modem, time), Since(after, modem, time);
    a <= b && (|b| <= limit ==> a == b) && Min(limit, |b|) <= |a|
  }

  ghost predicate NewestKept(before: Rows, after: Rows, limit: nat) {
    forall modem, time: nat :: KeptSince(before, after, modem, limit, time)
  }

  /** What is left of `n` rows once their overflow has lost up to `gone`. */
  function LeftOf(n: nat, limit: nat, gone: nat): nat {
    n - Min(Overflow(n, limit), gone)
  }

  ghost predicate SizeShrinks(before: Rows, after: Rows, modem: int, limit: nat, gone: nat) {
    |OfModem(after, modem)| == LeftOf(|OfModem(before, modem)|, limit, gone)
  }

  /** Every visit of a modem shrank its overflow by one batch. */
  ghost predicate SizesShrink(before: Rows, after: Rows, limit: nat, batchSize: nat, visits: seq<int>) {
    forall modem :: SizeShrinks(before, after, modem, limit, Reach(visits, modem, batchSize))
  }

  lemma NewestKeptCompose(a: Rows, b: Rows, c: Rows, limit: nat)
    requires NewestKept(a, b, limit) && NewestKept(b, c, limit)
    ensures NewestKept(a, c, limit)
  {
    forall modem, time: nat ensures KeptSince(a, c, modem, limit, time) {
      assert KeptSince(a, b, modem, limit, time) && KeptSince(b, c, modem, limit, time);
    }
  }

  lemma LeftOfTwice(n: nat, limit: nat, gone: nat, more: nat)
    ensures LeftOf(LeftOf(n, limit, gone), limit, more) == LeftOf(n, limit, gone + more)
  {
  }

  lemma SizesShrinkOneMore(start: Rows, before: Rows, after: Rows, limit: nat, batchSize: nat,
                           visits: seq<int>, visit: int)
    requires SizesShrink(start, before, limit, batchSize, visits)
    requires forall modem :: SizeShrinks(before, after, modem, limit, OneBatch(modem, visit, batchSize))
    ensures SizesShrink(start, after, limit, batchSize, visits + [visit])
  {
    forall modem ensures SizeShrinks(start, after, modem, limit, Reach(visits + [visit], modem, batchSize)) {
      var gone, more := Reach(visits, modem, batchSize), OneBatch(modem, visit, batchSize);
      ReachOneMore(visits, visit, modem, batchSize);
      assert SizeShrinks(start, before, modem, limit, gone) && SizeShrinks(before, after, modem, limit, more);
      LeftOfTwice(|OfModem(start, modem)|, limit, gone, more);
    }
  }

  lemma SubsetIsSmaller(a: set<nat>, b: set<nat>)
    requires a <= b
    ensures |a| <= |b| && (|a| == |b| ==> a == b)
  {
    assert b == a + (b - a);
  }

  /** A row of the batch is no newer than each of the `limit` rows the visit keeps. */
  lemma BatchIsBehind(rows: Rows, visit: int, limit: nat, batchSize: nat, newest: seq<nat>, time: nat, pk: nat)
    requires NewestFirst(rows, visit, newest) && limit < |newest|
    requires pk in BatchIds(newest, limit, batchSize) && pk in Since(rows, visit, time)
    ensures var ids := BatchIds(newest, limit, batchSize);
            && Elements(newest[..limit]) <= Since(rows - Elements(ids), visit, time)
            && |Elements(newest[..limit])| == limit < |Since(rows, visit, time)|
  {
    var ids, top := BatchIds(newest, limit, batchSize), newest[..limit];
    var j :| 0 <= j < |ids| && ids[j] == pk;
    assert newest[limit + j] == pk;
    forall x | x in top ensures x in Since(rows, visit, time) && x !in ids {
      var i :| 0 <= i < |top| && top[i] == x;
      assert newest[i] == x && x in Elements(newest);
    }
    DistinctSize(top);
    assert pk !in Elements(top);
    SubsetIsSmaller(Elements(top) + {pk}, Since(rows, visit, time));
  }

  lemma VisitKeepsNewest(rows: Rows, visit: int, limit: nat, batchSize: nat, newest: seq<nat>)
    requires NewestFirst(rows, visit, newest) && limit < |newest|
    ensures NewestKept(rows, rows - Elements(BatchIds(newest, limit, batchSize)), limit)
  {
    var ids := BatchIds(newest, limit, batchSize);
    var after := rows - Elements(ids);
    forall x | x in ids ensures x in OfModem(rows, visit) { assert x in Elements(newest); }
    forall modem, time: nat ensures KeptSince(rows, after, modem, limit, time) {
      if pk :| pk in ids && pk in Since(rows, modem, time) {
        BatchIsBehind(rows, visit, limit, batchSize, newest, time, pk);
        SubsetIsSmaller(Elements(newest[..limit]), Since(after, visit, time));
      } else {
        assert Since(after, modem, time) == Since(rows, modem, time);
      }
    }
  }

  lemma VisitShrinks(rows: Rows, visit: int, limit: nat, batchSize: nat, newest: seq<nat>, modem: int)
    requires NewestFirst(rows, visit, newest) && limit < |OfModem(rows, visit)|
    ensures limit < |newest|
    ensures SizeShrinks(rows, rows - Elements(BatchIds(newest, limit, batchSize)), modem, limit,
                        OneBatch(modem, visit, batchSize))
  {
    BatchSize(rows, visit, limit, batchSize, newest);
    var ids := BatchIds(newest, limit, batchSize);
    forall x | x in ids ensures x in OfModem(rows, visit) { assert x in Elements(newest); }
    if modem == visit {
      assert OfModem(rows - Elements(ids), modem) == OfModem(rows, modem) - Elements(ids);
    } else {
      assert OfModem(rows - Elements(ids), modem) == OfModem(rows, modem);
    }
  }

  /** A row that fewer than `limit` others of its modem equal or beat in newness is never
      deleted, whatever the visits and however ties are ordered. */
  lemma NewestSurvive(before: Rows, after: Rows, limit: nat, pk: nat)
    requires NewestKept(before, after, limit) && pk in before
    requires |Since(before, before[pk].modem, before[pk].createdAt) - {pk}| < limit
    ensures pk in after
  {
    assert pk in Since(before, before[pk].modem, before[pk].createdAt);
    assert KeptSince(before, after, before[pk].modem, limit, before[pk].createdAt);
  }

  /** A modem that is not visited keeps all its rows. */
  lemma UnvisitedKeepsAll(before: Rows, after: Rows, limit: nat, batchSize: nat, visits: seq<int>, pk: nat)
    requires SizesShrink(before, after, limit, batchSize, visits) && Unaltered(before, after)
    requires pk in before && Visits(visits, before[pk].modem) == 0
    ensures pk in after
  {
    var modem := before[pk].modem;
    assert SizeShrinks(before, after, modem, limit, Reach(visits, modem, batchSize));
    SubsetIsSmaller(OfModem(after, modem), OfModem(before, modem));
    assert pk in OfModem(before, modem);
  }

  /** After `ceil(overflow / batch)` visits: as many rows since any instant as the newest
      `limit` rows have. */
  lemma SurvivorsByTime(before: Rows, after: Rows, limit: nat, batchSize: nat, visits: seq<int>, modem: int, time: nat)
    requires NewestKept(before, after, limit) && SizesShrink(before, after, limit, batchSize, visits)
    requires 1 <= batchSize
    requires (Overflow(|OfModem(before, modem)|, limit) + batchSize - 1) / batchSize <= Visits(visits, modem)
    ensures |Since(after, modem, time)| == Min(limit, |Since(before, modem, time)|)
  {
    EnoughVisits(Overflow(|OfModem(before, modem)|, limit), visits, modem, batchSize);
    assert KeptSince(before, after, modem, limit, time);
    assert SizeShrinks(before, after, modem, limit, Reach(visits, modem, batchSize));
    SubsetIsSmaller(Since(after, modem, time), Since(before, modem, time));
    SubsetIsSmaller(Since(after, modem, time), OfModem(after, modem));
  }

  /** After the service's deletion the top of the listing is left. */
  lemma ServiceKeepsTop(before: Rows, after: Rows, limit: nat, modem: int, l: seq<nat>)
    requires KeepsNewest(before, after, modem, limit) && Unaltered(before, after) && Listing(before, modem, l)
    ensures OfModem(after, modem) == Elements(l[Max(0, |l| - limit)..])
    ensures |OfModem(after, modem)| == Min(limit, |l|)
  {
    DistinctSize(l[Max(0, |l| - limit)..]);
    ListingTop(before, modem, l, limit);
  }

  /** The service's deletion keeps the newest too. */
  lemma NewestByTime(before: Rows, after: Rows, limit: nat, modem: int, time: nat)
    requires KeepsNewest(before, after, modem, limit) && Unaltered(before, after)
    ensures |Since(after, modem, time)| == Min(limit, |Since(before, modem, time)|)
  {
    var l := TheListing(before, modem);
    TheListingLists(before, modem);
    ServiceKeepsTop(before, after, limit, modem, l);
    var a, b, left := Since(after, modem, time), Since(before, modem, time), OfModem(after, modem);
    SubsetIsSmaller(a, b);
    SubsetIsSmaller(a, left);
    if pk :| pk in b && pk !in a {
      assert pk in OfModem(before, modem) && pk !in left;
      forall x | x in left ensures x in a {
        assert x in Elements(l[Max(0, |l| - limit)..]);
        NewerThanTheRest(before, modem, l, limit, pk, x);
      }
      DeletedOverflows(before, modem, l, limit, pk);
      TopAndOneMore(left, pk, a, b);
    } else {
      assert a == b;
    }
  }

  lemma DeletedOverflows(rows: Rows, modem: int, l: seq<nat>, limit: nat, pk: nat)
    requires Listing(rows, modem, l) && pk in OfModem(rows, modem)
    ensures limit < |l| || pk in Elements(l[Max(0, |l| - limit)..])
  {
    assert l[0..] == l;
    assert pk in Elements(l);
  }

  lemma TopAndOneMore(top: set<nat>, pk: nat, a: set<nat>, b: set<nat>)
    requires top <= a <= b && pk in b && pk !in top
    ensures |top| <= |a| && |top| < |b|
  {
    SubsetIsSmaller(top, a);
    SubsetIsSmaller(top + {pk}, b);
  }

  /** The last `limit` entries of a listing are the newest `limit` rows. */
  lemma ListingTop(rows: Rows, modem: int, l: seq<nat>, limit: nat)
    requires Listing(rows, modem, l)
    ensures forall pk :: pk in l[Max(0, |l| - limit)..] <==>
                         pk in rows && rows[pk].modem == modem && AmongNewest(rows, limit, pk)
  {
    var from := Max(0, |l| - limit);
    forall pk ensures pk in l[from..] <==> pk in rows && rows[pk].modem == modem && AmongNewest(rows, limit, pk) {
      if pk in l[from..] {
        var i :| 0 <= i < |l[from..]| && l[from..][i] == pk;
        RankInListing(rows, modem, l, from + i);
      }
      if pk in rows && rows[pk].modem == modem && AmongNewest(rows, limit, pk) {
        assert pk in OfModem(rows, modem);
        var i :| 0 <= i < |l| && l[i] == pk;
        RankInListing(rows, modem, l, i);
        assert l[from..][i - from] == pk;
      }
    }
  }

  lemma NewerThanTheRest(rows: Rows, modem: int, l: seq<nat>, limit: nat, pk: nat, x: nat)
    requires Listing(rows, modem, l) && pk in OfModem(rows, modem)
    requires x in l[Max(0, |l| - limit)..] && pk !in l[Max(0, |l| - limit)..]
    ensures x in rows && rows[x].modem == modem && rows[x].createdAt >= rows[pk].createdAt
    ensures limit < |l|
  {
    var from := Max(0, |l| - limit);
    var i :| 0 <= i < |l| && l[i] == pk;
    var j :| 0 <= j < |l[from..]| && l[from..][j] == x;
    forall k | from <= k < |l| ensures l[k] in l[from..] { assert l[from..][k - from] == l[k]; }
    assert x in Elements(l) && Older(rows, l[i], l[from + j]);
  }

  /** The two algorithms agree on every table up to ties: since any instant they leave equally
      many rows. */
  lemma SameSurvivorsUpToTies(before: Rows, byCommand: Rows, byService: Rows, limit: nat, batchSize: nat,
                              visits: seq<int>, modem: int, time: nat)
    requires NewestKept(before, byCommand, limit) && SizesShrink(before, byCommand, limit, batchSize, visits)
    requires 1 <= batchSize
    requires (Overflow(|OfModem(before, modem)|, limit) + batchSize - 1) / batchSize <= Visits(visits, modem)
    requires KeepsNewest(before, byService, modem, limit) && Unaltered(before, byService)
    ensures |Since(byCommand, modem, time)| == |Since(byService, modem, time)|
  {
    SurvivorsByTime(before, byCommand, limit, batchSize, visits, modem, time);
    NewestByTime(before, byService, limit, modem, time);
  }

  /** `ceil(overflow / batch)` visits reach the whole overflow. */
  lemma EnoughVisits(overflow: nat, visits: seq<int>, modem: int, batchSize: nat)
    requires 1 <= batchSize && (overflow + batchSize - 1) / batchSize <= Visits(visits, modem)
    ensures overflow <= Reach(visits, modem, batchSize)
  {
    var q := (overflow + batchSize - 1) / batchSize;
    assert overflow <= q * batchSize;
    MulMono(q, batchSize, Visits(visits, modem), batchSize);
  }

  // ---- The command ----

  /** What one visit counts: the rows of its batch. */
  function BatchOf(rows: Rows, modem: int, limit: nat, batchSize: nat): nat {
    Min(Overflow(|OfModem(rows, modem)|, limit), batchSize)
  }

  lemma DistinctTimesInPart(before: Rows, after: Rows)
    requires DistinctTimes(before) && Unaltered(before, after)
    ensures DistinctTimes(after)
  {
  }

  lemma OtherListings(rows: Rows, visit: int, gone: set<nat>, modem: int)
    requires gone <= OfModem(rows, visit) && modem != visit
    ensures TheListing(rows - gone, modem) == TheListing(rows, modem)
  {
    TheListingLists(rows, modem);
    TheListingLists(rows - gone, modem);
    OtherListingsStay(rows, visit, gone, modem, TheListing(rows, modem));
    ListingIsUnique(rows - gone, modem, TheListing(rows - gone, modem), TheListing(rows, modem));
  }

  /** Deleting the batch of a visit trims the visited modem and no other. */
  lemma VisitIsOneTrim(rows: Rows, visit: int, limit: nat, batchSize: nat, newest: seq<nat>)
    requires DistinctTimes(rows) && NewestFirst(rows, visit, newest) && limit < |newest|
    ensures var ids := BatchIds(newest, limit, batchSize);
            TrimmedOnce(rows, rows - Elements(ids), limit, batchSize, visit)
  {
    var ids := BatchIds(newest, limit, batchSize);
    var after := rows - Elements(ids);
    forall pk | pk in ids ensures pk in OfModem(rows, visit) { assert pk in Elements(newest); }
    forall modem ensures TrimmedFor(rows, after, modem, limit, OneBatch(modem, visit, batchSize)) {
      if modem == visit {
        TheListingLists(rows, modem);
        TheListingLists(after, modem);
        VisitTrims(rows, modem, limit, batchSize, TheListing(rows, modem), newest);
        ListingIsUnique(after, modem, TheListing(after, modem), Trimmed(TheListing(rows, modem), limit, batchSize));
      } else {
        OtherListings(rows, visit, Elements(ids), modem);
        NothingTrimmed(TheListing(rows, modem), limit);
      }
    }
  }

  lemma NothingTrimmed(l: seq<nat>, limit: nat)
    ensures Trimmed(l, limit, 0) == l
    ensures |l| <= limit ==> forall gone: nat :: Trimmed(l, limit, gone) == l
  {
  }

  /** A visit of a modem without overflow trims nothing, and neither does no visit. */
  lemma NoOverflowNoTrim(rows: Rows, visit: int, limit: nat, batchSize: nat)
    requires |OfModem(rows, visit)| <= limit
    ensures TrimmedOnce(rows, rows, limit, batchSize, visit)
  {
    forall modem ensures TrimmedFor(rows, rows, modem, limit, OneBatch(modem, visit, batchSize)) {
      TheListingLists(rows, modem);
      ListingSize(rows, modem, TheListing(rows, modem));
      NothingTrimmed(TheListing(rows, modem), limit);
    }
  }

  lemma {:induction false} NewestExists(rows: Rows, keys: set<nat>)
    requires keys != {} && forall k :: k in keys ==> k in rows
    ensures exists pk :: pk in keys && forall k :: k in keys ==> rows[k].createdAt <= rows[pk].createdAt
    decreases |keys|
  {
    var some :| some in keys;
    if keys != {some} {
      NewestExists(rows, keys - {some});
      var pk :| pk in keys - {some} && forall k :: k in keys - {some} ==> rows[k].createdAt <= rows[pk].createdAt;
      var newest := if rows[some].createdAt <= rows[pk].createdAt then pk else some;
      assert forall k :: k in keys ==> k == some || k in keys - {some};
      assert newest in keys && forall k :: k in keys ==> rows[k].createdAt <= rows[newest].createdAt;
    }
  }

  /** `filter(modem_index=idx).order_by('-created_at')`; rows with equal times come in any order. */
  method QueryNewestFirst(table: ModelTable, modem: int) returns (l: seq<nat>)
    ensures NewestFirst(table.rows, modem, l)
  {
    l := [];
    var left := OfModem(table.rows, modem);
    while left != {}
      invariant left <= OfModem(table.rows, modem) && Elements(l) == OfModem(table.rows, modem) - left
      invariant forall i :: 0 <= i < |l| ==> l[i] in table.rows && l[i] !in left
      invariant forall i, j :: 0 <= i < j < |l| ==>
                  l[i] != l[j] && table.rows[l[i]].createdAt >= table.rows[l[j]].createdAt
      invariant forall i, k :: 0 <= i < |l| && k in left ==> table.rows[l[i]].createdAt >= table.rows[k].createdAt
      decreases left
    {
      NewestExists(table.rows, left);
      var pk :| pk in left && forall k :: k in left ==> table.rows[k].createdAt <= table.rows[pk].createdAt;
      assert Elements(l + [pk]) == Elements(l) + {pk};
      l, left := l + [pk], left - {pk};
    }
  }

  lemma BatchSize(rows: Rows, modem: int, limit: nat, batchSize: nat, newest: seq<nat>)
    requires NewestFirst(rows, modem, newest) && limit < |OfModem(rows, modem)|
    ensures limit < |newest| && |BatchIds(newest, limit, batchSize)| == BatchOf(rows, modem, limit, batchSize)
    ensures |rows - Elements(BatchIds(newest, limit, batchSize))| == |rows| - BatchOf(rows, modem, limit, batchSize)
  {
    DistinctSize(newest);
    var ids := BatchIds(newest, limit, batchSize);
    DistinctSize(ids);
    assert forall i :: 0 <= i < |ids| ==> ids[i] in rows;
    assert Elements(ids) <= rows.Keys;
    assert (rows - Elements(ids)).Keys == rows.Keys - Elements(ids);
  }

  /** What one visit can leave: the answer to the newest-first query is the database's choice. */
  ghost predicate VisitLeaves(rows: Rows, modem: int, limit: nat, batchSize: nat, after: Rows) {
    if |OfModem(rows, modem)| <= limit then after == rows
    else exists newest :: && NewestFirst(rows, modem, newest) && limit < |newest|
                          && after == rows - Elements(BatchIds(newest, limit, batchSize))
  }

  lemma VisitShrinksSizes(rows: Rows, visit: int, limit: nat, batchSize: nat, after: Rows)
    requires VisitLeaves(rows, visit, limit, batchSize, after)
    ensures Unaltered(rows, after) && |after| == |rows| - BatchOf(rows, visit, limit, batchSize)
    ensures forall modem :: SizeShrinks(rows, after, modem, limit, OneBatch(modem, visit, batchSize))
  {
    if limit < |OfModem(rows, visit)| {
      var newest :| NewestFirst(rows, visit, newest) && limit < |newest|
        && after == rows - Elements(BatchIds(newest, limit, batchSize));
      BatchSize(rows, visit, limit, batchSize, newest);
      forall modem { VisitShrinks(rows, visit, limit, batchSize, newest, modem); }
    }
  }

  lemma VisitKeepsTheNewest(rows: Rows, visit: int, limit: nat, batchSize: nat, after: Rows)
    requires VisitLeaves(rows, visit, limit, batchSize, after)
    ensures NewestKept(rows, after, limit)
  {
    if limit < |OfModem(rows, visit)| {
      var newest :| NewestFirst(rows, visit, newest) && limit < |newest|
        && after == rows - Elements(BatchIds(newest, limit, batchSize));
      VisitKeepsNewest(rows, visit, limit, batchSize, newest);
    }
  }

  lemma VisitTrimsOnce(rows: Rows, visit: int, limit: nat, batchSize: nat, after: Rows)
    requires DistinctTimes(rows) && VisitLeaves(rows, visit, limit, batchSize, after)
    ensures TrimmedOnce(rows, after, limit, batchSize, visit)
  {
    if |OfModem(rows, visit)| <= limit {
      NoOverflowNoTrim(rows, visit, limit, batchSize);
    } else {
      var newest :| NewestFirst(rows, visit, newest) && limit < |newest|
        && after == rows - Elements(BatchIds(newest, limit, batchSize));
      VisitIsOneTrim(rows, visit, limit, batchSize, newest);
    }
  }

  /** One turn of the loop over modem indexes. */
  method Visit(table: ModelTable, modem: int, limit: nat, batchSize: nat, dryRun: bool) returns (counted: nat)
    modifies table
    ensures dryRun ==> table.rows == old(table.rows) && table.withJob == old(table.withJob)
    ensures dryRun ==> counted == BatchOf(table.rows, modem, limit, batchSize)
    ensures !dryRun ==> VisitLeaves(old(table.rows), modem, limit, batchSize, table.rows)
    ensures table.withJob * table.rows.Keys == old(table.withJob) * table.rows.Keys
    ensures !dryRun ==>
              counted == Objects(old(table.rows), old(table.withJob)) - Objects(table.rows, table.withJob)
  {
    var count := |OfModem(table.rows, modem)|;
    if count <= limit {
      return 0;
    }
    var newest := QueryNewestFirst(table, modem);
    BatchSize(table.rows, modem, limit, batchSize, newest);
    var ids := BatchIds(newest, limit, batchSize);
    if dryRun {
      return |ids|;
    }
    counted := table.DeleteByPk(ids);
  }
}
