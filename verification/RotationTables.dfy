/** The two rotation algorithms over a table, and why they keep the same rows. */
module RotationTables {
  import opened Common
  import opened Rotation

  /** Rows `_delete_oldest_modem_rows` takes away from `n`, and the count its dry run announces. */
  function Deleted(n: nat, limit: int): nat {
    Min(n, Max(0, n - limit))
  }

  function Announced(n: nat, limit: int): nat {
    if n == 0 then 0 else Max(0, n - limit)
  }

  /** The dry run tells the truth exactly for a limit that is not negative, or no rows. */
  lemma DryRunIsExactIff(n: nat, limit: int)
    ensures Deleted(n, limit) == Announced(n, limit) <==> limit >= 0 || n == 0
  {
  }

  /** Exactly the newest `limit` rows of the modem are left, and all rows of the others. */
  ghost predicate KeepsNewest(before: Rows, after: Rows, modem: int, limit: int) {
    forall pk :: pk in after <==> pk in before && (before[pk].modem != modem || AmongNewest(before, limit, pk))
  }

  ghost predicate Unaltered(before: Rows, after: Rows) {
    forall pk :: pk in after ==> pk in before && after[pk] == before[pk]
  }

  /** In words: a deleted row of the modem is older than each one that is kept, by creation time
      and, for equal times, by key. */
  lemma DeletedAreOlder(before: Rows, after: Rows, modem: int, limit: int, a: nat, b: nat)
    requires KeepsNewest(before, after, modem, limit) && a in before && a !in after && b in after
    requires before[a].modem == modem && before[b].modem == modem
    ensures before[a].createdAt < before[b].createdAt || (before[a].createdAt == before[b].createdAt && a < b)
  {
    var l := TheListing(before, modem);
    TheListingLists(before, modem);
    assert a in OfModem(before, modem) && b in OfModem(before, modem);
    var i :| 0 <= i < |l| && l[i] == a;
    var j :| 0 <= j < |l| && l[j] == b;
    RankInListing(before, modem, l, i);
    RankInListing(before, modem, l, j);
    assert Older(before, l[i], l[j]);
  }

  lemma DroppingOldestKeepsNewest(rows: Rows, modem: int, l: seq<nat>, limit: int)
    requires Listing(rows, modem, l)
    ensures KeepsNewest(rows, rows - Elements(l[..Deleted(|l|, limit)]), modem, limit)
  {
    var gone := l[..Deleted(|l|, limit)];
    forall pk | pk in rows && rows[pk].modem == modem
      ensures pk in gone <==> !AmongNewest(rows, limit, pk)
    {
      assert pk in OfModem(rows, modem);
      var i :| 0 <= i < |l| && l[i] == pk;
      RankInListing(rows, modem, l, i);
      if pk in gone {
        var k :| 0 <= k < |gone| && gone[k] == pk;
        RankInListing(rows, modem, l, k);
      }
      if i < |gone| { assert gone[i] == pk; }
    }
    forall pk | pk in gone ensures pk in OfModem(rows, modem) {
      assert pk in Elements(l);
    }
  }

  lemma {:induction false} ElementsGrow(l: seq<nat>, k: nat, m: nat)
    requires k + m <= |l|
    ensures Elements(l[..k]) + Elements(l[k..][..m]) == Elements(l[..k + m])
  {
    assert l[..k + m] == l[..k] + l[k..][..m];
  }

  /** The first `n` rows of the listing are gone, and nothing else. */
  ghost predicate OldestGone(before: Rows, rows: Rows, modem: int, l: seq<nat>, n: nat) {
    n <= |l| && rows == before - Elements(l[..n]) && Listing(rows, modem, l[n..])
  }

  lemma MoreGone(before: Rows, after: Rows, modem: int, l: seq<nat>, k: nat, n: nat)
    requires k + n <= |l| && after == (before - Elements(l[..k])) - Elements(l[k..][..n])
    requires Listing(after, modem, l[k..][n..])
    ensures OldestGone(before, after, modem, l, k + n)
  {
    ElementsGrow(l, k, n);
    assert l[k..][n..] == l[k + n..];
  }

  lemma AllGone(before: Rows, after: Rows, modem: int, l: seq<nat>, limit: int)
    requires Listing(before, modem, l) && OldestGone(before, after, modem, l, Deleted(|l|, limit))
    ensures Unaltered(before, after) && KeepsNewest(before, after, modem, limit)
    ensures |OfModem(after, modem)| == |l| - Deleted(|l|, limit)
  {
    ListingSize(after, modem, l[Deleted(|l|, limit)..]);
    DroppingOldestKeepsNewest(before, modem, l, limit);
  }

  /** What `delete()` counts: the rows, and the webhook jobs that hang on one of them. */
  function Objects(rows: Rows, withJob: set<nat>): nat {
    |rows.Keys| + |rows.Keys * withJob|
  }

  lemma ObjectsDeleted(rows: Rows, withJob: set<nat>, ids: set<nat>)
    ensures Objects(rows, withJob) - Objects(rows - ids, withJob - ids)
         == |ids * rows.Keys| + |ids * rows.Keys * withJob|
  {
    assert (rows - ids).Keys == rows.Keys - (ids * rows.Keys);
    assert (rows - ids).Keys * (withJob - ids) == rows.Keys * withJob - ids * rows.Keys * withJob;
  }

  class ModelTable {
    var rows: Rows
    /** The rows a webhook job hangs on; deleting the row deletes the job with it. */
    var withJob: set<nat>

    method OldestAmong(keys: set<nat>) returns (pk: nat)
      requires keys != {} && forall k :: k in keys ==> k in rows
      ensures pk in keys && forall k :: k in keys && k != pk ==> Older(rows, pk, k)
    {
      pk :| pk in keys;
      var unseen := keys - {pk};
      while unseen != {}
        invariant unseen <= keys && pk in keys && pk !in unseen
        invariant forall k :: k in keys && k !in unseen && k != pk ==> Older(rows, pk, k)
        decreases unseen
      {
        var k :| k in unseen;
        unseen := unseen - {k};
        if Older(rows, k, pk) {
          pk := k;
        }
      }
    }

    /** `filter(modem_index=modem).order_by('created_at', 'pk')`. */
    method OldestFirst(modem: int) returns (l: seq<nat>)
      ensures Listing(rows, modem, l)
    {
      l := [];
      var left := OfModem(rows, modem);
      while left != {}
        invariant left <= OfModem(rows, modem) && Elements(l) == OfModem(rows, modem) - left
        invariant forall i :: 0 <= i < |l| ==> l[i] in rows && l[i] !in left
        invariant forall i, j :: 0 <= i < j < |l| ==> Older(rows, l[i], l[j])
        invariant forall i, k :: 0 <= i < |l| && k in left ==> Older(rows, l[i], k)
        decreases left
      {
        var pk := OldestAmong(left);
        assert Elements(l + [pk]) == Elements(l) + {pk};
        l, left := l + [pk], left - {pk};
      }
    }

    /** `filter(pk__in=ids).delete()`; the result also counts the jobs that go along. */
    method DeleteByPk(ids: seq<nat>) returns (objects: nat)
      modifies this
      ensures rows == old(rows) - Elements(ids)
      ensures withJob == old(withJob) - Elements(ids)
      ensures objects == Objects(old(rows), old(withJob)) - Objects(rows, withJob)
    {
      ObjectsDeleted(rows, withJob, Elements(ids));
      var gone := Elements(ids) * rows.Keys;
      objects := |gone| + |gone * withJob|;
      rows, withJob := rows - Elements(ids), withJob - Elements(ids);
    }

    /** One turn of the loop: the oldest `chunk` rows of the modem, deleted unless it is a dry run. */
    method TakeChunk(modem: int, chunk: nat, dryRun: bool, ghost left: seq<nat>) returns (n: nat)
      requires Listing(rows, modem, left)
      modifies this
      ensures n == Min(chunk, |left|)
      ensures dryRun ==> rows == old(rows)
      ensures !dryRun ==> rows == old(rows) - Elements(left[..n]) && Listing(rows, modem, left[n..])
    {
      var found := OldestFirst(modem);
      ListingIsUnique(rows, modem, found, left);
      var ids := found[..Min(chunk, |found|)];
      n := |ids|;
      if !dryRun {
        ListingAfterDelete(rows, modem, left, 0, n);
        assert left[..0] + left[n..] == left[n..] && left[0..n] == ids;
        var _ := DeleteByPk(ids);
      }
    }

    /** The loop of `_delete_oldest_modem_rows` with a positive batch size. */
    method DeleteInBatches(modem: int, limit: int, batchSize: nat, dryRun: bool) returns (deleted: nat)
      requires 1 <= batchSize
      modifies this
      ensures Unaltered(old(rows), rows)
      ensures dryRun ==> rows == old(rows) && deleted == Announced(|OfModem(old(rows), modem)|, limit)
      ensures !dryRun ==> KeepsNewest(old(rows), rows, modem, limit)
      ensures !dryRun ==> deleted == Deleted(|OfModem(old(rows), modem)|, limit)
      ensures !dryRun ==> |OfModem(rows, modem)| == |OfModem(old(rows), modem)| - deleted
    {
      ghost var l := ListingExists(rows, modem);
      ListingSize(rows, modem, l);
      deleted := 0;
      var remaining: int := Max(0, |OfModem(rows, modem)| - limit);
      ghost var excess := remaining;
      while remaining > 0
        invariant 0 <= remaining && deleted + remaining == excess
        invariant if dryRun then rows == old(rows) && (deleted > 0 ==> |l| > 0)
                  else OldestGone(old(rows), rows, modem, l, deleted)
        decreases remaining
      {
        var n := TakeChunk(modem, Min(batchSize, remaining), dryRun, if dryRun then l else l[deleted..]);
        if n == 0 {
          break;
        }
        if !dryRun { MoreGone(old(rows), rows, modem, l, deleted, n); }
        deleted := deleted + n;
        remaining := remaining - n;
      }
      if !dryRun {
        assert deleted == Deleted(|l|, limit);
        AllGone(old(rows), rows, modem, l, limit);
      }
    }

    /** `_delete_oldest_modem_rows`; None if it raises. A batch size of zero finds no rows and
        stops; a negative one is no valid slice, which is only noticed when there is an excess. */
    method DeleteOldestModemRows(modem: int, limit: int, batchSize: int, dryRun: bool) returns (deleted: Option<nat>)
      modifies this
      ensures Unaltered(old(rows), rows)
      ensures deleted == None <==> batchSize < 0 && limit < |OfModem(old(rows), modem)|
      ensures dryRun || batchSize < 1 ==> rows == old(rows)
      ensures batchSize < 1 && deleted.Some? ==> deleted.value == 0
      ensures 1 <= batchSize && dryRun ==> deleted == Some(Announced(|OfModem(old(rows), modem)|, limit))
      ensures 1 <= batchSize && !dryRun ==> KeepsNewest(old(rows), rows, modem, limit)
      ensures 1 <= batchSize && !dryRun ==> deleted == Some(Deleted(|OfModem(old(rows), modem)|, limit))
      ensures 1 <= batchSize && !dryRun ==>
                |OfModem(rows, modem)| == |OfModem(old(rows), modem)| - Deleted(|OfModem(old(rows), modem)|, limit)
      ensures 1 <= batchSize && !dryRun ==>
                && |OfModem(rows, modem)| == Min(|OfModem(old(rows), modem)|, if limit < 0 then 0 else limit)
                && (forall pk :: pk in old(rows) && old(rows)[pk].modem != modem ==> pk in rows)
                && (forall a, b :: a in old(rows) && a !in rows && b in rows && rows[b].modem == modem ==>
                      || old(rows)[a].createdAt < rows[b].createdAt
                      || (old(rows)[a].createdAt == rows[b].createdAt && a < b))
    {
      if batchSize >= 1 {
        ghost var before := rows;
        var n := DeleteInBatches(modem, limit, batchSize, dryRun);
        if !dryRun {
          forall a, b | a in before && a !in rows && b in rows && rows[b].modem == modem
            ensures before[a].createdAt < rows[b].createdAt || (before[a].createdAt == rows[b].createdAt && a < b)
          {
            DeletedAreOlder(before, rows, modem, limit, a, b);
          }
        }
        return Some(n);
      }
      if |OfModem(rows, modem)| <= limit || batchSize == 0 {
        return Some(0);
      }
      return None;
    }
  }

  /** `rotate_modem_sms_storage`: the limit is split between the two tables, at least one row each. */
  method RotateModemSmsStorage(inbound: ModelTable, outbound: ModelTable, modem: int, limit: int, batchSize: int,
                               dryRun: bool)
    returns (inboundDeleted: Option<nat>, outboundDeleted: Option<nat>)
    requires inbound != outbound
    modifies inbound, outbound
    ensures var perType := Max(1, limit / 2);
            && (1 <= batchSize && !dryRun ==>
                  && |OfModem(inbound.rows, modem)| + |OfModem(outbound.rows, modem)| <= Max(2, limit)
                  && KeepsNewest(old(inbound.rows), inbound.rows, modem, perType)
                  && KeepsNewest(old(outbound.rows), outbound.rows, modem, perType))
            && (1 <= batchSize ==>
                  && inboundDeleted == Some(Deleted(|OfModem(old(inbound.rows), modem)|, perType))
                  && outboundDeleted == Some(Deleted(|OfModem(old(outbound.rows), modem)|, perType)))
    ensures dryRun || batchSize < 1 ==> inbound.rows == old(inbound.rows) && outbound.rows == old(outbound.rows)
    ensures outboundDeleted == None <==>
              batchSize < 0 && (|| Max(1, limit / 2) < |OfModem(old(inbound.rows), modem)|
                                || Max(1, limit / 2) < |OfModem(old(outbound.rows), modem)|)
  {
    var perType := Max(1, limit / 2);
    inboundDeleted := inbound.DeleteOldestModemRows(modem, perType, batchSize, dryRun);
    if inboundDeleted == None {
      return None, None;  // the second table is not reached
    }
    outboundDeleted := outbound.DeleteOldestModemRows(modem, perType, batchSize, dryRun);
  }
}
