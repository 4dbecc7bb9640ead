/** Storage rotation: two ways to trim the SMS rows of a modem to the newest ones. */
module Rotation {

  datatype Sms = Sms(modem: int, createdAt: nat)
  type Rows = map<nat, Sms>

  predicate Older(rows: Rows, a: nat, b: nat)
    requires a in rows && b in rows
  {
    rows[a].createdAt < rows[b].createdAt || (rows[a].createdAt == rows[b].createdAt && a < b)
  }

  function OfModem(rows: Rows, modem: int): set<nat> {
    set pk | pk in rows && rows[pk].modem == modem
  }

  function Elements(l: seq<nat>): set<nat> {
    set pk | pk in l
  }

  /** `l` is `filter(modem_index=modem).order_by('created_at', 'pk')`: all keys, oldest first. */
  ghost predicate Listing(rows: Rows, modem: int, l: seq<nat>) {
    && Elements(l) == OfModem(rows, modem)
    && (forall i :: 0 <= i < |l| ==> l[i] in rows)
    && (forall i, j :: 0 <= i < j < |l| ==> Older(rows, l[i], l[j]))
  }

  /** How many rows of its modem are newer than `pk`. */
  function NewerCount(rows: Rows, pk: nat): nat
    requires pk in rows
  {
    |set q | q in rows && rows[q].modem == rows[pk].modem && Older(rows, pk, q)|
  }

  /** `pk` is one of the newest `limit` rows of its modem. */
  predicate AmongNewest(rows: Rows, limit: int, pk: nat)
    requires pk in rows
  {
    NewerCount(rows, pk) < limit
  }

  // ---- Listings ----

  lemma {:induction false} DistinctSize(l: seq<nat>)
    requires forall i, j :: 0 <= i < j < |l| ==> l[i] != l[j]
    ensures |Elements(l)| == |l|
  {
    if l != [] {
      var k := |l| - 1;
      DistinctSize(l[..k]);
      assert l == l[..k] + [l[k]];
      assert Elements(l) == Elements(l[..k]) + {l[k]};
    }
  }

  lemma ListingSize(rows: Rows, modem: int, l: seq<nat>)
    requires Listing(rows, modem, l)
    ensures |l| == |OfModem(rows, modem)|
  {
    DistinctSize(l);
  }

  /** The newer rows of an entry are exactly the entries after it. */
  lemma RankInListing(rows: Rows, modem: int, l: seq<nat>, i: nat)
    requires Listing(rows, modem, l) && i < |l|
    ensures rows[l[i]].modem == modem && NewerCount(rows, l[i]) == |l| - 1 - i
  {
    assert l[i] in Elements(l);
    var newer := set q | q in rows && rows[q].modem == rows[l[i]].modem && Older(rows, l[i], q);
    var rest := l[i + 1..];
    forall q ensures q in newer <==> q in Elements(rest) {
      if q in newer {
        assert q in Elements(l);
        var j :| 0 <= j < |l| && l[j] == q;
        assert j > i;
        assert rest[j - i - 1] == q;
      }
      if q in Elements(rest) {
        var j :| 0 <= j < |rest| && rest[j] == q;
        assert l[i + 1 + j] == q && q in Elements(l);
      }
    }
    assert newer == Elements(rest);
    DistinctSize(rest);
  }

  /** The first of a set of rows in query order. */
  lemma {:induction false} OldestOf(rows: Rows, keys: set<nat>) returns (pk: nat)
    requires keys != {} && forall k :: k in keys ==> k in rows
    ensures pk in keys && forall k :: k in keys && k != pk ==> Older(rows, pk, k)
    decreases |keys|
  {
    var some :| some in keys;
    pk := some;
    if keys != {some} {
      var rest := OldestOf(rows, keys - {some});
      pk := if Older(rows, rest, some) then rest else some;
      forall k | k in keys && k != pk ensures Older(rows, pk, k) {
        assert k == some || k in keys - {some};
      }
    }
  }

  lemma ElementsCons(pk: nat, l: seq<nat>)
    ensures Elements([pk] + l) == {pk} + Elements(l)
    ensures forall i :: 0 <= i < |l| ==> l[i] in Elements(l)
  {
  }

  lemma {:induction false} ListingOfKeys(rows: Rows, keys: set<nat>) returns (l: seq<nat>)
    requires forall k :: k in keys ==> k in rows
    ensures Elements(l) == keys && (forall i :: 0 <= i < |l| ==> l[i] in rows)
    ensures forall i, j :: 0 <= i < j < |l| ==> Older(rows, l[i], l[j])
    decreases |keys|
  {
    if keys == {} {
      l := [];
    } else {
      var first := OldestOf(rows, keys);
      var rest := ListingOfKeys(rows, keys - {first});
      l := [first] + rest;
      ElementsCons(first, rest);
    }
  }

  /** Every modem has a listing, and only one. */
  lemma {:induction false} ListingExists(rows: Rows, modem: int) returns (l: seq<nat>)
    ensures Listing(rows, modem, l)
  {
    l := ListingOfKeys(rows, OfModem(rows, modem));
  }

  lemma ListingIsThere(rows: Rows, modem: int)
    ensures exists l :: Listing(rows, modem, l)
  {
    var l := ListingExists(rows, modem);
  }

  ghost function TheListing(rows: Rows, modem: int): seq<nat> {
    ListingIsThere(rows, modem);
    var l :| Listing(rows, modem, l);
    l
  }

  lemma TheListingLists(rows: Rows, modem: int)
    ensures Listing(rows, modem, TheListing(rows, modem))
  {
  }

  lemma ListingIsUnique(rows: Rows, modem: int, l: seq<nat>, m: seq<nat>)
    requires Listing(rows, modem, l) && Listing(rows, modem, m)
    ensures l == m
  {
    ListingSize(rows, modem, l);
    ListingSize(rows, modem, m);
    forall i | 0 <= i < |l| ensures l[i] == m[i] {
      assert l[i] in Elements(l);
      var j :| 0 <= j < |m| && m[j] == l[i];
      RankInListing(rows, modem, l, i);
      RankInListing(rows, modem, m, j);
    }
  }

  /** Deleting a stretch of a listing leaves the listing without it. */
  lemma ListingAfterDelete(rows: Rows, modem: int, l: seq<nat>, from: nat, to: nat)
    requires Listing(rows, modem, l) && from <= to <= |l|
    ensures Listing(rows - Elements(l[from..to]), modem, l[..from] + l[to..])
  {
    var gone, left := l[from..to], l[..from] + l[to..];
    forall i | 0 <= i < |left| ensures left[i] !in gone && left[i] in l {}
    forall x ensures x in Elements(left) <==> x in OfModem(rows - Elements(gone), modem) {
      assert x in OfModem(rows, modem) <==> x in Elements(l);
      assert x in l <==> x in left || x in gone by { assert l == l[..from] + gone + l[to..]; }
    }
  }

  /** Deleting rows of one modem leaves the listings of the others. */
  lemma OtherListingsStay(rows: Rows, modem: int, gone: set<nat>, other: int, l: seq<nat>)
    requires gone <= OfModem(rows, modem) && other != modem && Listing(rows, other, l)
    ensures Listing(rows - gone, other, l)
  {
    assert OfModem(rows - gone, other) == OfModem(rows, other);
    assert forall i :: 0 <= i < |l| ==> l[i] in Elements(l);
  }
}
