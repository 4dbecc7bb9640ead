/** Small helpers shared by the models: an optional value, counters kept in a map, and
    the character-level text operations the gateway applies to modem output. */
module Common {

  datatype Option<+T> = None | Some(value: T)

  /** The counter stored for `k`; a key that was never counted stands at zero. */
  function Count(m: map<nat, nat>, k: nat): nat {
    if k in m then m[k] else 0
  }

  function Add(m: map<nat, nat>, k: nat, n: nat): map<nat, nat> {
    m[k := Count(m, k) + n]
  }

  function Max(a: int, b: int): int {
    if a < b then b else a
  }

  function Min(a: int, b: int): int {
    if a < b then a else b
  }

  lemma MulMono(a: nat, b: nat, c: nat, d: nat)
    requires a <= c && b <= d
    ensures a * b <= c * d
  {
    assert c * d - a * b == (c - a) * d + a * (d - b);
  }
}

/** Writes that are tried again while the database is locked. */
module Retries {

  /** How the database answers one run of a retried closure. */
  datatype DbAnswer = Saved | Locked | Error
  type Db = nat -> DbAnswer

  /** Runs of the closure made from run `k` on: a locked table is tried again while runs are left. */
  ghost function Tries(db: Db, retries: int, k: nat): nat
    decreases retries - k
  {
    if k >= retries then 0
    else if db(k) == Locked then 1 + Tries(db, retries, k + 1)
    else 1
  }

  ghost predicate SavesBy(db: Db, retries: int) {
    exists k: nat :: k < retries && db(k) == Saved && forall i: nat :: i < k ==> db(i) == Locked
  }

  lemma {:induction false} TriesShape(db: Db, retries: int, k: nat, last: nat)
    requires k <= last < retries && (forall i: nat :: k <= i < last ==> db(i) == Locked)
    requires db(last) != Locked || last == retries - 1
    ensures Tries(db, retries, k) == last - k + 1
    decreases last - k
  {
    if k < last { TriesShape(db, retries, k + 1, last); }
    if db(k) == Locked && k == last { assert Tries(db, retries, k + 1) == 0; }
  }
}

/** `strip` and `lower` over ASCII text. */
module Text {

  /** The ASCII characters `str.strip` removes: tab to carriage return, and 28 to the blank. */
  predicate IsSpace(c: char) {
    9 <= c as int <= 13 || 28 <= c as int <= 32
  }

  function StripLeft(s: string): (r: string)
    ensures |r| <= |s|
    ensures r != "" ==> !IsSpace(r[0])
  {
    if s != "" && IsSpace(s[0]) then StripLeft(s[1..]) else s
  }

  function StripRight(s: string): (r: string)
    ensures r <= s
    ensures r != "" ==> !IsSpace(r[|r| - 1])
  {
    if s != "" && IsSpace(s[|s| - 1]) then StripRight(s[..|s| - 1]) else s
  }

  function Strip(s: string): string {
    StripRight(StripLeft(s))
  }

  /** A text with no surrounding white space. */
  predicate Trimmed(s: string) {
    s == "" || (!IsSpace(s[0]) && !IsSpace(s[|s| - 1]))
  }

  lemma StripTrims(s: string)
    ensures Trimmed(Strip(s))
  {
    var l := StripLeft(s);
    assert StripRight(l) <= l;
  }

  lemma StripOfTrimmed(s: string)
    requires Trimmed(s)
    ensures Strip(s) == s
  {
  }

  /** `s[a..b]` is `s` without the white space at its ends. */
  ghost predicate StripsTo(s: string, a: nat, b: nat) {
    && a <= b <= |s|
    && (forall i :: 0 <= i < |s| && (i < a || b <= i) ==> 9 <= s[i] as int <= 13 || 28 <= s[i] as int <= 32)
    && (a < b ==> forall i :: i == a || i == b - 1 ==> 32 < s[i] as int || s[i] as int < 9 || 13 < s[i] as int < 28)
  }

  lemma {:induction false} LeftEnd(s: string) returns (a: nat)
    ensures a <= |s| && StripLeft(s) == s[a..] && forall i :: 0 <= i < a ==> IsSpace(s[i])
  {
    a := 0;
    if s != "" && IsSpace(s[0]) {
      var rest := LeftEnd(s[1..]);
      assert s[1..][rest..] == s[rest + 1..];
      assert forall i :: 1 <= i < rest + 1 ==> s[i] == s[1..][i - 1];
      a := rest + 1;
    }
  }

  lemma {:induction false} RightEnd(s: string)
    ensures forall i :: |StripRight(s)| <= i < |s| ==> IsSpace(s[i])
  {
    if s != "" && IsSpace(s[|s| - 1]) { RightEnd(s[..|s| - 1]); }
  }

  /** `strip` takes away all white space at the two ends, and nothing else. */
  lemma StripIsExact(s: string) returns (a: nat, b: nat)
    ensures StripsTo(s, a, b) && Strip(s) == s[a..b]
  {
    a := LeftEnd(s);
    var l := StripLeft(s);
    RightEnd(l);
    b := a + |StripRight(l)|;
    assert StripRight(l) == l[..|StripRight(l)|] == s[a..b];
    forall i | b <= i < |s| ensures IsSpace(s[i]) { assert s[i] == l[i - a]; }
    if a < b { assert s[a] == l[0] && s[b - 1] == Strip(s)[b - 1 - a] && s[a] == Strip(s)[0]; }
  }

  function Lower(s: string): (r: string)
    ensures |r| == |s|
  {
    seq(|s|, i requires 0 <= i < |s| => if 'A' <= s[i] <= 'Z' then s[i] + (32 as char) else s[i])
  }

  const CAPITALS := "ABCDEFGHIJKLMNOPQRSTUVWXYZ"
  const SMALL := "abcdefghijklmnopqrstuvwxyz"

  lemma LettersInOrder(k: nat)
    requires k < 26
    ensures CAPITALS[k] as int == 65 + k && SMALL[k] as int == 97 + k
  {
  }

  /** `lower` maps the k-th capital to the k-th small letter and keeps every other character. */
  lemma LowerIsExact(s: string, i: nat, k: nat)
    requires i < |s| && k < 26
    ensures s[i] == CAPITALS[k] ==> Lower(s)[i] == SMALL[k]
    ensures s[i] !in CAPITALS ==> Lower(s)[i] == s[i]
  {
    LettersInOrder(k);
    if 'A' <= s[i] <= 'Z' { LettersInOrder(s[i] as int - 65); }
  }

  /** Error texts are stored up to 2000 characters. */
  function Truncated(error: string): string {
    if |error| <= 2000 then error else error[..2000]
  }

  /** The first value of maximal length. */
  ghost predicate FirstLongest(vs: seq<string>, v: string) {
    exists i :: 0 <= i < |vs| && vs[i] == v
      && (forall j :: 0 <= j < |vs| ==> |vs[j]| <= |v|)
      && (forall j :: 0 <= j < i ==> |vs[j]| < |v|)
  }

  lemma FirstLongestSnoc(vs: seq<string>, v: string, x: string)
    requires FirstLongest(vs, v)
    ensures FirstLongest(vs + [x], if |x| > |v| then x else v)
  {
    var i :| 0 <= i < |vs| && vs[i] == v
      && (forall j :: 0 <= j < |vs| ==> |vs[j]| <= |v|) && (forall j :: 0 <= j < i ==> |vs[j]| < |v|);
    var k := if |x| > |v| then |vs| else i;
    assert (vs + [x])[k] == if |x| > |v| then x else v;
  }
}
