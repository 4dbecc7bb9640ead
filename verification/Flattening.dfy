/** Flattening the nested JSON objects of `mmcli --output-json` into dotted keys. */
module Flattening {
  import opened Common

  /** A decoded JSON object lists its members in order; everything that is not an object is a leaf. */
  datatype Json = Object(members: Members) | Leaf(value: string)
  datatype Members = End | Member(name: string, json: Json, rest: Members)

  function NewKey(parent: string, k: string): string {
    if parent != "" then parent + "." + k else k
  }

  function FlattenValue(key: string, v: Json): map<string, string>
    decreases v
  {
    match v
    case Object(members) => Flatten(members, key)
    case Leaf(value) => map[key := value]
  }

  function Flatten(members: Members, parent: string): map<string, string>
    decreases members
  {
    match members
    case End => map[]
    case Member(k, v, rest) => FlattenValue(NewKey(parent, k), v) + Flatten(rest, parent)
  }

  lemma LaterReplaces(a: map<string, string>, b: map<string, string>, c: map<string, string>)
    ensures (a + b) + c == a + (b + c)
  {
  }

  lemma LeafReplaces(items: map<string, string>, key: string, value: string)
    ensures items[key := value] == items + FlattenValue(key, Leaf(value))
  {
  }

  /** `_flatten_dict`: a later entry replaces an earlier one with the same key. */
  method FlattenDict(members: Members, parent: string) returns (items: map<string, string>)
    ensures items == Flatten(members, parent)
    decreases members
  {
    items := map[];
    var left := members;
    while left != End
      invariant left == members || left < members
      invariant items + Flatten(left, parent) == Flatten(members, parent)
      decreases left
    {
      var newKey := NewKey(parent, left.name);
      LaterReplaces(items, FlattenValue(newKey, left.json), Flatten(left.rest, parent));
      match left.json {
        case Object(inner) =>
          var nested := FlattenDict(inner, newKey);
          items := items + nested;
        case Leaf(value) =>
          LeafReplaces(items, newKey, value);
          items := items[newKey := value];
      }
      left := left.rest;
    }
    assert items + map[] == items;
  }

  // ---- Paths ----

  predicate DotFree(k: string) {
    '.' !in k
  }

  predicate GoodName(k: string) {
    k != "" && DotFree(k)
  }

  predicate GoodPath(path: seq<string>) {
    path != [] && forall i :: 0 <= i < |path| ==> GoodName(path[i])
  }

  function Names(members: Members): set<string> {
    match members
    case End => {}
    case Member(k, _, rest) => {k} + Names(rest)
  }

  /** Names are non-empty, dot-free and distinct, at every depth. */
  predicate Good(members: Members) {
    match members
    case End => true
    case Member(k, v, rest) =>
      GoodName(k) && k !in Names(rest) && (v.Object? ==> Good(v.members)) && Good(rest)
  }

  /** The leaf at `path`, if there is one. */
  function Lookup(members: Members, path: seq<string>): Option<string> {
    match members
    case End => None
    case Member(k, v, rest) =>
      if path == [] then None
      else if k != path[0] then Lookup(rest, path)
      else match v
           case Leaf(value) => if |path| == 1 then Some(value) else None
           case Object(inner) => Lookup(inner, path[1..])
  }

  function Join(path: seq<string>): string {
    if path == [] then "" else if |path| == 1 then path[0] else path[0] + "." + Join(path[1..])
  }

  function Prefixed(parent: string, path: seq<string>): string {
    if parent != "" then parent + "." + Join(path) else Join(path)
  }

  /** A dot-free name ends at the first dot. */
  lemma {:induction false} NameEndsAtDot(k: string, t: string, l: string, u: string)
    requires DotFree(k) && DotFree(l) && k + "." + t == l + "." + u
    ensures k == l && t == u
  {
    var s := k + "." + t;
    assert s[|k|] == '.' && s[|l|] == '.';
    assert k == s[..|k|] && l == s[..|l|];
    assert t == s[|k| + 1..] && u == s[|l| + 1..];
  }

  lemma LongJoinHasADot(p: seq<string>)
    requires |p| > 1
    ensures '.' in Join(p)
  {
    assert Join(p)[|p[0]|] == '.';
  }

  /** Dotted keys of good paths are ambiguous for no two paths. */
  lemma {:induction false} JoinIsInjective(p: seq<string>, q: seq<string>)
    requires GoodPath(p) && GoodPath(q) && Join(p) == Join(q)
    ensures p == q
  {
    if |p| > 1 { LongJoinHasADot(p); }
    if |q| > 1 { LongJoinHasADot(q); }
    if |p| > 1 && |q| > 1 {
      NameEndsAtDot(p[0], Join(p[1..]), q[0], Join(q[1..]));
      JoinIsInjective(p[1..], q[1..]);
      assert p == [p[0]] + p[1..] && q == [q[0]] + q[1..];
    }
  }

  lemma PrefixedIsInjective(parent: string, p: seq<string>, q: seq<string>)
    requires GoodPath(p) && GoodPath(q) && Prefixed(parent, p) == Prefixed(parent, q)
    ensures p == q
  {
    assert Join(p) == Prefixed(parent, p)[if parent == "" then 0 else |parent| + 1..];
    assert Join(q) == Prefixed(parent, q)[if parent == "" then 0 else |parent| + 1..];
    JoinIsInjective(p, q);
  }

  lemma PrefixedNewKey(parent: string, k: string, rest: seq<string>)
    requires k != "" && rest != []
    ensures Prefixed(NewKey(parent, k), rest) == Prefixed(parent, [k] + rest)
  {
    assert ([k] + rest)[1..] == rest;
    assert parent + "." + k + "." + Join(rest) == parent + "." + (k + "." + Join(rest));
  }

  // ---- Nothing is lost, nothing is made up ----

  lemma {:induction false} LeafNamesAMember(members: Members, path: seq<string>)
    requires Lookup(members, path).Some?
    ensures path != [] && path[0] in Names(members)
  {
    if members.name != path[0] { LeafNamesAMember(members.rest, path); }
  }

  lemma {:induction false} LeafPathIsGood(members: Members, path: seq<string>)
    requires Good(members) && Lookup(members, path).Some?
    ensures GoodPath(path)
  {
    if members.name != path[0] {
      LeafPathIsGood(members.rest, path);
    } else if members.json.Object? {
      LeafPathIsGood(members.json.members, path[1..]);
      assert path == [path[0]] + path[1..];
    }
  }

  /** Every flat entry is the leaf at some path. */
  lemma {:induction false} EntryComesFromLeaf(members: Members, parent: string, key: string) returns (path: seq<string>)
    requires Good(members) && key in Flatten(members, parent)
    ensures GoodPath(path) && Prefixed(parent, path) == key
    ensures Lookup(members, path) == Some(Flatten(members, parent)[key])
    decreases members
  {
    var Member(k, v, rest) := members;
    if key in Flatten(rest, parent) {
      path := EntryComesFromLeaf(rest, parent, key);
      LeafNamesAMember(rest, path);
    } else if v.Leaf? {
      path := [k];
    } else {
      var inner := EntryComesFromLeaf(v.members, NewKey(parent, k), key);
      PrefixedNewKey(parent, k, inner);
      path := [k] + inner;
      assert path[1..] == inner;
    }
  }

  /** Every leaf has its flat entry, under the dotted name of its path. */
  lemma {:induction false} LeafHasEntry(members: Members, parent: string, path: seq<string>)
    requires Good(members) && Lookup(members, path).Some?
    ensures Prefixed(parent, path) in Flatten(members, parent)
    ensures Flatten(members, parent)[Prefixed(parent, path)] == Lookup(members, path).value
    decreases members
  {
    var Member(k, v, rest) := members;
    if k != path[0] {
      LeafHasEntry(rest, parent, path);
    } else {
      LaterMembersDoNotReplace(members, parent, path);
      if v.Leaf? {
        assert path == [k];
      } else {
        LeafHasEntry(v.members, NewKey(parent, k), path[1..]);
        LeafPathIsGood(v.members, path[1..]);
        PrefixedNewKey(parent, k, path[1..]);
        assert path == [k] + path[1..];
      }
    }
  }

  lemma LaterMembersDoNotReplace(members: Members, parent: string, path: seq<string>)
    requires Good(members) && Lookup(members, path).Some? && members.name == path[0]
    ensures Prefixed(parent, path) !in Flatten(members.rest, parent)
  {
    if Prefixed(parent, path) in Flatten(members.rest, parent) {
      var other := EntryComesFromLeaf(members.rest, parent, Prefixed(parent, path));
      LeafPathIsGood(members, path);
      PrefixedIsInjective(parent, path, other);
      LeafNamesAMember(members.rest, other);
    }
  }

  /** `value` is the leaf at a path whose dotted name is `key`. */
  ghost predicate NamesLeaf(members: Members, key: string, value: string) {
    exists path :: Lookup(members, path) == Some(value) && Join(path) == key
  }

  /** For objects with non-empty, dot-free keys the flat keys are in one-to-one correspondence
      with the leaf paths, and each looks up to its leaf. */
  lemma FlatteningLosesNothing(members: Members)
    requires Good(members)
    ensures forall path :: Lookup(members, path).Some? ==>
              Join(path) in Flatten(members, "") && Flatten(members, "")[Join(path)] == Lookup(members, path).value
    ensures forall key :: key in Flatten(members, "") ==> NamesLeaf(members, key, Flatten(members, "")[key])
    ensures forall p, q :: Lookup(members, p).Some? && Lookup(members, q).Some? && Join(p) == Join(q) ==> p == q
  {
    forall path | Lookup(members, path).Some?
      ensures Join(path) in Flatten(members, "") && Flatten(members, "")[Join(path)] == Lookup(members, path).value
    {
      LeafHasEntry(members, "", path);
      assert Prefixed("", path) == Join(path);
    }
    forall key | key in Flatten(members, "")
      ensures NamesLeaf(members, key, Flatten(members, "")[key])
    {
      var path := EntryComesFromLeaf(members, "", key);
      assert Prefixed("", path) == Join(path);
    }
    forall p, q | Lookup(members, p).Some? && Lookup(members, q).Some? && Join(p) == Join(q) ensures p == q {
      LeafPathIsGood(members, p);
      LeafPathIsGood(members, q);
      JoinIsInjective(p, q);
    }
  }

  /** `{a.b: x, a: {b: y}}`: a name with a dot beside its nested spelling. */
  function Dotted(a: string, b: string, x: string, y: string): Members {
    Member(a + "." + b, Leaf(x), Member(a, Object(Member(b, Leaf(y), End)), End))
  }

  /** `{"": {b: x}, b: y}`. */
  function Unnamed(b: string, x: string, y: string): Members {
    Member("", Object(Member(b, Leaf(x), End)), Member(b, Leaf(y), End))
  }

  lemma FlattenOne(parent: string, k: string, v: string)
    ensures Flatten(Member(k, Leaf(v), End), parent) == map[NewKey(parent, k) := v]
  {
    assert Flatten(End, parent) == map[];
  }

  /** Why names must be dot-free: whatever name is split at a dot, at whatever depth, its leaf is
      overwritten by the one at its nested spelling. */
  lemma DottedNamesCollide(parent: string, a: string, b: string, x: string, y: string)
    requires a != ""
    ensures Lookup(Dotted(a, b, x, y), [a + "." + b]) == Some(x) && Lookup(Dotted(a, b, x, y), [a, b]) == Some(y)
    ensures Flatten(Dotted(a, b, x, y), parent) == map[NewKey(parent, a + "." + b) := y]
  {
    assert [a, b][1..] == [b] && Lookup(Member(b, Leaf(y), End), [b]) == Some(y);
    assert a + "." + b != a;
    assert NewKey(NewKey(parent, a), b) == NewKey(parent, a + "." + b) by {
      assert parent + "." + a + "." + b == parent + "." + (a + "." + b);
    }
    FlattenOne(NewKey(parent, a), b, y);
    var nested := Member(a, Object(Member(b, Leaf(y), End)), End);
    assert Flatten(nested, parent) == FlattenValue(NewKey(parent, a), nested.json) + map[];
  }

  /** Why names must not be empty: at the top level an empty name leaves no trace in the key, so
      what is nested under it is overwritten by what stands beside it. */
  lemma EmptyNamesCollide(b: string, x: string, y: string)
    requires b != ""
    ensures Lookup(Unnamed(b, x, y), ["", b]) == Some(x) && Lookup(Unnamed(b, x, y), [b]) == Some(y)
    ensures Flatten(Unnamed(b, x, y), "") == map[b := y]
  {
    assert ["", b][1..] == [b];
    FlattenOne("", b, x);
    FlattenOne("", b, y);
  }
}
