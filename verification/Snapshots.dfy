/** Combining the outputs of `mmcli` for one message: merging key-value and JSON snapshots,
    flattening nested JSON, and the field extractors. */
module Snapshots {
  import opened Text

  type Snapshot = map<string, string>

  predicate Blank(v: string) {
    Strip(v) == "" || Strip(v) == "--"
  }

  // ---- Merging: the first longest non-blank value per key ----

  /** A value as the merge sees it: stripped, and empty if it is blank or absent. */
  function Cleaned(m: Snapshot, k: string): string {
    if k in m && !Blank(m[k]) then Strip(m[k]) else ""
  }

  function Longer(a: string, b: string): string {
    if b != "" && (a == "" || |b| > |a|) then b else a
  }

  function Best(parts: seq<Snapshot>, k: string): string {
    if parts == [] then "" else Longer(Best(parts[..|parts| - 1], k), Cleaned(parts[|parts| - 1], k))
  }

  function Keys(parts: seq<Snapshot>): set<string> {
    if parts == [] then {} else Keys(parts[..|parts| - 1]) + parts[|parts| - 1].Keys
  }

  function Merged(parts: seq<Snapshot>): Snapshot {
    map k | k in Keys(parts) && Best(parts, k) != "" :: Best(parts, k)
  }

  /** The inner loop: the best value of one key. */
  method BestOf(parts: seq<Snapshot>, k: string) returns (best: string)
    ensures best == Best(parts, k)
  {
    best := "";
    for i := 0 to |parts|
      invariant best == Best(parts[..i], k)
    {
      assert parts[..i + 1][..i] == parts[..i];
      var v := if k in parts[i] then Strip(parts[i][k]) else "";
      StrippedTwice(parts[i], k);
      if !Blank(v) && (best == "" || |v| > |best|) {
        best := v;
      }
    }
    assert parts[..|parts|] == parts;
  }

  lemma StrippedTwice(m: Snapshot, k: string)
    ensures k in m ==> Strip(Strip(m[k])) == Strip(m[k])
  {
    if k in m {
      StripTrims(m[k]);
      StripOfTrimmed(Strip(m[k]));
    }
  }

  /** `_merge_mmcli_sources`. */
  method MergeSources(parts: seq<Snapshot>) returns (merged: Snapshot)
    ensures merged == Merged(parts)
  {
    var keys: set<string> := {};
    for i := 0 to |parts|
      invariant keys == Keys(parts[..i])
    {
      assert parts[..i + 1][..i] == parts[..i];
      keys := keys + parts[i].Keys;
    }
    assert parts[..|parts|] == parts;
    merged := map[];
    var left := keys;
    while left != {}
      invariant left <= keys
      invariant forall k :: k in merged <==> k in keys && k !in left && Best(parts, k) != ""
      invariant forall k :: k in merged ==> merged[k] == Best(parts, k)
      decreases left
    {
      var k :| k in left;
      left := left - {k};
      var best := BestOf(parts, k);
      if best != "" {
        merged := merged[k := best];
      }
    }
  }

  function Column(parts: seq<Snapshot>, k: string): seq<string> {
    seq(|parts|, i requires 0 <= i < |parts| => Cleaned(parts[i], k))
  }

  /** The merged value of a key is the first longest of its cleaned values. */
  lemma {:induction false} BestIsFirstLongest(parts: seq<Snapshot>, k: string)
    requires parts != []
    ensures FirstLongest(Column(parts, k), Best(parts, k))
  {
    var before, last := parts[..|parts| - 1], parts[|parts| - 1];
    assert Column(parts, k) == Column(before, k) + [Cleaned(last, k)];
    if before == [] {
      assert Column(parts, k)[0] == Best(parts, k);
    } else {
      BestIsFirstLongest(before, k);
      FirstLongestSnoc(Column(before, k), Best(before, k), Cleaned(last, k));
    }
  }

  /** Part `i` has a value for `k` that counts: not absent, empty, or the two dashes `mmcli`
      prints for nothing. */
  ghost predicate HasValue(parts: seq<Snapshot>, i: int, k: string) {
    0 <= i < |parts| && k in parts[i] && Strip(parts[i][k]) != "" && Strip(parts[i][k]) != "--"
  }

  lemma CleanedInWords(m: Snapshot, k: string)
    ensures Cleaned(m, k) != "" <==> k in m && Strip(m[k]) != "" && Strip(m[k]) != "--"
    ensures Cleaned(m, k) != "" ==> Cleaned(m, k) == Strip(m[k])
  {
  }

  /** Part `i` is the first with a value for `k` as long as any. */
  ghost predicate FirstWithLongest(parts: seq<Snapshot>, i: int, k: string) {
    && HasValue(parts, i, k)
    && (forall j :: HasValue(parts, j, k) ==> |Strip(parts[j][k])| <= |Strip(parts[i][k])|)
    && (forall j :: j < i && HasValue(parts, j, k) ==> |Strip(parts[j][k])| < |Strip(parts[i][k])|)
  }

  lemma ColumnInWords(parts: seq<Snapshot>, k: string, i: nat)
    requires i < |parts|
    ensures HasValue(parts, i, k) <==> Column(parts, k)[i] != ""
    ensures HasValue(parts, i, k) ==> Column(parts, k)[i] == Strip(parts[i][k])
  {
    CleanedInWords(parts[i], k);
  }

  lemma BestInWords(parts: seq<Snapshot>, k: string, i: nat)
    requires i < |parts| && Column(parts, k)[i] == Best(parts, k)
    requires forall j :: 0 <= j < |parts| ==> |Column(parts, k)[j]| <= |Best(parts, k)|
    requires forall j :: 0 <= j < i ==> |Column(parts, k)[j]| < |Best(parts, k)|
    ensures Best(parts, k) == "" ==> forall j :: !HasValue(parts, j, k)
    ensures Best(parts, k) != "" ==> FirstWithLongest(parts, i, k) && Best(parts, k) == Strip(parts[i][k])
  {
    ColumnInWords(parts, k, i);
    forall j | HasValue(parts, j, k)
      ensures 0 < |Strip(parts[j][k])| == |Column(parts, k)[j]|
    {
      ColumnInWords(parts, k, j);
    }
  }

  /** A key is in the merge iff some part has a value for it, and the value merged is that of the
      first part whose value is as long as any. */
  lemma MergedEntry(parts: seq<Snapshot>, k: string)
    ensures k in Merged(parts) <==> exists i :: HasValue(parts, i, k)
    ensures k in Merged(parts) ==> exists i :: FirstWithLongest(parts, i, k) && Merged(parts)[k] == Strip(parts[i][k])
  {
    BestIsClean(parts, k);
    if parts != [] {
      BestIsFirstLongest(parts, k);
      var i :| && 0 <= i < |parts| && Column(parts, k)[i] == Best(parts, k)
               && (forall j :: 0 <= j < |parts| ==> |Column(parts, k)[j]| <= |Best(parts, k)|)
               && (forall j :: 0 <= j < i ==> |Column(parts, k)[j]| < |Best(parts, k)|);
      BestInWords(parts, k, i);
    }
  }

  lemma {:induction false} KeysOfAppend(a: seq<Snapshot>, b: seq<Snapshot>)
    ensures Keys(a + b) == Keys(a) + Keys(b)
  {
    if b == [] {
      assert a + b == a;
    } else {
      KeysOfAppend(a, b[..|b| - 1]);
      assert (a + b)[..|a + b| - 1] == a + b[..|b| - 1];
    }
  }

  lemma {:induction false} BestOfAppend(a: seq<Snapshot>, b: seq<Snapshot>, k: string)
    ensures Best(a + b, k) == Longer(Best(a, k), Best(b, k))
  {
    if b == [] {
      assert a + b == a;
    } else {
      BestOfAppend(a, b[..|b| - 1], k);
      assert (a + b)[..|a + b| - 1] == a + b[..|b| - 1];
    }
  }

  lemma {:induction false} BestIsClean(parts: seq<Snapshot>, k: string)
    ensures Trimmed(Best(parts, k)) && (Best(parts, k) != "" ==> !Blank(Best(parts, k)) && k in Keys(parts))
  {
    if parts != [] {
      BestIsClean(parts[..|parts| - 1], k);
      var m := parts[|parts| - 1];
      if k in m { StripTrims(m[k]); StripOfTrimmed(Strip(m[k])); }
    }
  }

  /** What a merge holds for a key is what a later merge sees there. */
  lemma MergedIsClean(parts: seq<Snapshot>, k: string)
    ensures Cleaned(Merged(parts), k) == Best(parts, k)
  {
    BestIsClean(parts, k);
    if k in Merged(parts) { StripOfTrimmed(Best(parts, k)); }
  }

  lemma SameMerge(a: seq<Snapshot>, b: seq<Snapshot>)
    requires forall k :: Best(a, k) == Best(b, k)
    ensures Merged(a) == Merged(b)
  {
    forall k ensures k in Merged(a) <==> k in Merged(b) {
      BestIsClean(a, k);
      BestIsClean(b, k);
    }
  }

  lemma BestOfMerged(parts: seq<Snapshot>, k: string)
    ensures Best([Merged(parts)], k) == Best(parts, k)
  {
    MergedIsClean(parts, k);
    assert [Merged(parts)][..0] == [];
  }

  /** Merging is associative: merging groups first and then the results changes nothing. */
  lemma MergeRegroups(a: seq<Snapshot>, b: seq<Snapshot>, c: seq<Snapshot>)
    ensures Merged(a + [Merged(b)] + c) == Merged(a + b + c)
  {
    forall k ensures Best(a + [Merged(b)] + c, k) == Best(a + b + c, k) {
      BestOfAppend(a + [Merged(b)], c, k);
      BestOfAppend(a, [Merged(b)], k);
      BestOfMerged(b, k);
      BestOfAppend(a + b, c, k);
      BestOfAppend(a, b, k);
    }
    SameMerge(a + [Merged(b)] + c, a + b + c);
  }

  /** Merging the same snapshots once more, or a merge with itself, adds nothing. */
  lemma MergeIsIdempotent(a: seq<Snapshot>)
    ensures Merged(a + a) == Merged(a) && Merged([Merged(a)]) == Merged(a)
  {
    forall k ensures Best(a + a, k) == Best(a, k) {
      BestOfAppend(a, a, k);
    }
    SameMerge(a + a, a);
    forall k ensures Best([Merged(a)], k) == Best(a, k) {
      BestOfMerged(a, k);
    }
    SameMerge([Merged(a)], a);
  }

  /** `show_sms` falls back to the plain output only if key-value and JSON merge to nothing; the
      three-way merge it then makes is the merge of the plain output alone. */
  lemma FallbackIsThePlainOutput(kv: Snapshot, js: Snapshot, plain: Snapshot)
    requires Merged([kv, js]) == map[]
    ensures Merged([kv, js, plain]) == Merged([plain])
  {
    forall k ensures Best([kv, js, plain], k) == Best([plain], k) {
      BestIsClean([kv, js], k);
      assert k !in Merged([kv, js]);
      assert [kv, js, plain] == [kv, js] + [plain];
      BestOfAppend([kv, js], [plain], k);
    }
    SameMerge([kv, js, plain], [plain]);
  }

  // ---- Extracting fields ----

  const TEXT_KEYS := ["smscontenttext", "text", "smstext", "smscontent", "smsmessage", "message", "body", "content",
                      "smsbody"]
  const NUMBER_KEYS := ["smscontentnumber", "number", "sender", "smssrc", "smsnumber", "mobilenumber"]
  const STATE_KEYS := ["smspropertiesstate", "state", "smsstate"]
  const SMSC_KEYS := ["smspropertiessmsc", "smsc", "smsservicecenter", "servicecenter"]
  const TIMESTAMP_KEYS := ["smspropertiestimestamp", "timestamp", "datetime", "stamp", "date"]

  /** The first non-blank value among `keys`, stripped. */
  function FieldOf(details: Snapshot, keys: seq<string>): string {
    if keys == [] then ""
    else if Cleaned(details, keys[0]) != "" then Cleaned(details, keys[0])
    else FieldOf(details, keys[1..])
  }

  method Extract(details: Snapshot, keys: seq<string>) returns (v: string)
    ensures v == FieldOf(details, keys)
  {
    for i := 0 to |keys|
      invariant FieldOf(details, keys) == FieldOf(details, keys[i..])
    {
      assert keys[i..][1..] == keys[i + 1..];
      if keys[i] in details && !Blank(details[keys[i]]) {
        return Strip(details[keys[i]]);
      }
    }
    return "";
  }

  lemma CleanedIsTrimmed(details: Snapshot, k: string)
    ensures Trimmed(Cleaned(details, k))
  {
    if k in details { StripTrims(details[k]); }
  }

  /** `v` is the value of a key before which every other key is blank, or '' if all are. */
  ghost predicate FirstNonBlank(details: Snapshot, keys: seq<string>, v: string) {
    if forall j :: 0 <= j < |keys| ==> Cleaned(details, keys[j]) == "" then v == ""
    else exists i :: 0 <= i < |keys| && v == Cleaned(details, keys[i]) != ""
                     && forall j :: 0 <= j < i ==> Cleaned(details, keys[j]) == ""
  }

  /** In words: the value of key number `i` that all keys before lack, or '' if all keys lack one. */
  lemma ExtractedInWords(details: Snapshot, keys: seq<string>)
    ensures var v := FieldOf(details, keys);
            if forall j :: 0 <= j < |keys| ==> !HasValue([details], 0, keys[j]) then v == ""
            else exists i :: && 0 <= i < |keys| && HasValue([details], 0, keys[i]) && v == Strip(details[keys[i]])
                             && forall j :: 0 <= j < i ==> !HasValue([details], 0, keys[j])
  {
    ExtractedValue(details, keys);
    forall k ensures HasValue([details], 0, k) <==> Cleaned(details, k) != "" { CleanedInWords(details, k); }
    forall k ensures HasValue([details], 0, k) ==> Cleaned(details, k) == Strip(details[k]) {
      CleanedInWords(details, k);
    }
  }

  lemma FirstNonBlankCons(details: Snapshot, k: string, keys: seq<string>, v: string)
    requires FirstNonBlank(details, keys, v)
    ensures FirstNonBlank(details, [k] + keys, if Cleaned(details, k) != "" then Cleaned(details, k) else v)
  {
    var longer := [k] + keys;
    assert forall j :: 0 < j < |longer| ==> longer[j] == keys[j - 1];
    assert longer[0] == k;
    if Cleaned(details, k) == "" && v != "" {
      var i :| 0 <= i < |keys| && v == Cleaned(details, keys[i]) != ""
        && forall j :: 0 <= j < i ==> Cleaned(details, keys[j]) == "";
      assert longer[i + 1] == keys[i];
    } else if Cleaned(details, k) == "" {
      assert forall j :: 0 <= j < |keys| ==> Cleaned(details, keys[j]) == Cleaned(details, longer[j + 1]);
    }
  }

  /** What the extractors return has no surrounding white space, and is the first non-blank value. */
  lemma {:induction false} ExtractedValue(details: Snapshot, keys: seq<string>)
    ensures Trimmed(FieldOf(details, keys)) && FirstNonBlank(details, keys, FieldOf(details, keys))
  {
    if keys != [] {
      ExtractedValue(details, keys[1..]);
      CleanedIsTrimmed(details, keys[0]);
      FirstNonBlankCons(details, keys[0], keys[1..], FieldOf(details, keys[1..]));
      assert keys == [keys[0]] + keys[1..];
    }
  }
}
