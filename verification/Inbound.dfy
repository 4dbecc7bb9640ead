/** One inbound SMS row over its life: it is created from the first accepted modem snapshot,
    patched from later and possibly partial ones, and marked when the modem has lost the
    message. */
module Inbound {
  import opened Common
  import opened Retries
  import opened Text

  datatype Field = FromNumber | SmsText | MmState | Smsc | Timestamp

  const FIELDS := [FromNumber, SmsText, MmState, Smsc, Timestamp]

  /** The snapshot fields of a message; a stored row has the same ones. */
  datatype Row = Row(fromNumber: string, text: string, mmState: string, smsc: string, timestamp: string) {

    function Get(f: Field): string {
      match f
      case FromNumber => fromNumber
      case SmsText => text
      case MmState => mmState
      case Smsc => smsc
      case Timestamp => timestamp
    }

    function Set(f: Field, v: string): Row {
      match f
      case FromNumber => this.(fromNumber := v)
      case SmsText => this.(text := v)
      case MmState => this.(mmState := v)
      case Smsc => this.(smsc := v)
      case Timestamp => this.(timestamp := v)
    }

    /** The extractors strip what they return. */
    ghost predicate Extracted() {
      forall f :: Trimmed(Get(f))
    }
  }

  function Normalized(state: string): string {
    Lower(Strip(state))
  }

  predicate StaleState(state: string) {
    Normalized(state) in ["receiving", "unknown", ""]
  }

  predicate Unavailable(state: string) {
    Normalized(state) in ["unavailable", "missing"]
  }

  predicate ShouldUpdate(f: Field, current: string, desired: string) {
    var cur, des := Strip(current), Strip(desired);
    match f
    case SmsText => des != "" && (cur == "" || |des| > |cur|)
    case MmState =>
      des != "" && ((StaleState(cur) && !StaleState(des)) || (Normalized(cur) == "" && Normalized(des) != ""))
    case _ => cur == "" && des != ""
  }

  /** The fields of `row` a snapshot would change. */
  function Patched(row: Row, x: Row): set<Field> {
    set f | f in FIELDS && ShouldUpdate(f, row.Get(f), x.Get(f))
  }

  function Value(row: Row, x: Row, f: Field): string {
    if ShouldUpdate(f, row.Get(f), x.Get(f)) then x.Get(f) else row.Get(f)
  }

  function Merge(row: Row, x: Row): Row {
    Row(Value(row, x, FromNumber), Value(row, x, SmsText), Value(row, x, MmState),
        Value(row, x, Smsc), Value(row, x, Timestamp))
  }

  // ---- Histories ----

  /** What one `persist_inbound_sms` call finds: a snapshot, or no such message on the modem. */
  datatype Sighting = Seen(snapshot: Row) | Missing

  /** What a call writes; every write runs the `post_save` handler. */
  datatype Save = NoSave | Created | Updated(fields: set<Field>)

  predicate Allowed(whitelist: seq<string>, x: Row) {
    whitelist == [] || x.fromNumber in whitelist
  }

  function WrittenBy(whitelist: seq<string>, row: Option<Row>, s: Sighting): Save {
    match s
    case Missing => if row.Some? && !Unavailable(row.value.mmState) then Updated({MmState}) else NoSave
    case Seen(x) =>
      if !Allowed(whitelist, x) then NoSave
      else if row == None then Created
      else if Patched(row.value, x) == {} then NoSave
      else Updated(Patched(row.value, x))
  }

  function After(whitelist: seq<string>, row: Option<Row>, s: Sighting): Option<Row> {
    match s
    case Missing =>
      if row.Some? && !Unavailable(row.value.mmState) then Some(row.value.(mmState := "unavailable")) else row
    case Seen(x) =>
      if !Allowed(whitelist, x) then row
      else if row == None then Some(x)
      else Some(Merge(row.value, x))
  }

  /** What one sighting makes of the row of its path, if there is one. */
  lemma SightingInWords(whitelist: seq<string>, row: Option<Row>, s: Sighting)
    ensures s == Missing && row.Some? ==>
              After(whitelist, row, s).value
              == if Lower(Strip(row.value.mmState)) == "unavailable" || Lower(Strip(row.value.mmState)) == "missing"
                 then row.value else row.value.(mmState := "unavailable")
    ensures s == Missing && row == None ==> After(whitelist, row, s) == None
    ensures s.Seen? && row == None ==>
              (After(whitelist, row, s) == Some(s.snapshot) <==>
               whitelist == [] || s.snapshot.fromNumber in whitelist)
    ensures s.Seen? && whitelist != [] && s.snapshot.fromNumber !in whitelist ==> After(whitelist, row, s) == row
  {
  }

  /** The row after a whole history, newest sighting last. */
  function Persisted(whitelist: seq<string>, row: Option<Row>, h: seq<Sighting>): Option<Row> {
    if h == [] then row else After(whitelist, Persisted(whitelist, row, h[..|h| - 1]), h[|h| - 1])
  }

  /** Should this write (re)schedule the webhook of the row as written? */
  predicate Schedules(row: Row, echo: bool, save: Save) {
    && (Strip(row.text) != "" || Strip(row.fromNumber) != "")
    && !echo
    && match save
       case NoSave => false
       case Created => true
       case Updated(fields) => fields * {SmsText, FromNumber, MmState} != {}
  }

  // ---- What a persist saves ----

  /** A persist works out on its copy of the row which fields to save, with these values. */
  datatype Patch = Patch(sighting: Sighting, values: Row, fields: set<Field>)

  function PatchOf(row: Row, s: Sighting): Patch {
    match s
    case Missing => Patch(s, row.(mmState := "unavailable"), if Unavailable(row.mmState) then {} else {MmState})
    case Seen(x) => Patch(s, x, Patched(row, x))
  }

  function Pick(row: Row, p: Patch, f: Field): string {
    if f in p.fields then p.values.Get(f) else row.Get(f)
  }

  /** `save(update_fields=...)`: the other columns keep what the table holds. */
  function Applied(row: Row, p: Patch): Row {
    Row(Pick(row, p, FromNumber), Pick(row, p, SmsText), Pick(row, p, MmState), Pick(row, p, Smsc),
        Pick(row, p, Timestamp))
  }

  lemma AppliedField(row: Row, p: Patch, f: Field)
    ensures Applied(row, p).Get(f) == Pick(row, p, f)
  {
  }

  /** Saved into the row it was worked out on, a patch is the merge. */
  lemma AppliedIsMerge(row: Row, x: Row)
    ensures Applied(row, PatchOf(row, Seen(x))) == Merge(row, x)
  {
    var p := PatchOf(row, Seen(x));
    forall f ensures Applied(row, p).Get(f) == Value(row, x, f) {
      FieldsAreAll(f);
      AppliedField(row, p, f);
    }
    SameRow(Applied(row, p), row, x);
  }

  /** A stale copy decides which fields are saved; the others keep what the table holds by then. */
  lemma PatchByField(row: Row, copy: Row, x: Row, f: Field)
    ensures Applied(row, PatchOf(copy, Seen(x))).Get(f)
         == if ShouldUpdate(f, copy.Get(f), x.Get(f)) then x.Get(f) else row.Get(f)
  {
    FieldsAreAll(f);
    AppliedField(row, PatchOf(copy, Seen(x)), f);
  }

  // ---- The table ----

  /** `Failed` and `PathUnavailable` are exceptions. */
  datatype Outcome = Stored(save: Save) | Rejected | PathUnavailable | Failed

  /** The database refuses a write the call needs: `db` answers the creation, which is retried
      while the database is locked, and `saves` the one update. */
  ghost predicate WriteFails(whitelist: seq<string>, row: Option<Row>, s: Sighting, db: Db, retries: int, saves: bool) {
    match s
    case Missing => WrittenBy(whitelist, row, s) != NoSave && !saves
    case Seen(x) =>
      Allowed(whitelist, x) && (!SavesBy(db, retries) || (WrittenBy(whitelist, row, s).Updated? && !saves))
  }

  /** The two loops over an existing row: collect what differs, then assign it. */
  method CollectPatch(row: Row, x: Row, order: seq<Field>) returns (patched: map<Field, string>)
    ensures forall f :: f in patched <==> f in order && ShouldUpdate(f, row.Get(f), x.Get(f))
    ensures forall f :: f in patched ==> patched[f] == x.Get(f)
  {
    patched := map[];
    for i := 0 to |order|
      invariant forall f :: f in patched <==> f in order[..i] && ShouldUpdate(f, row.Get(f), x.Get(f))
      invariant forall f :: f in patched ==> patched[f] == x.Get(f)
    {
      var f := order[i];
      if ShouldUpdate(f, row.Get(f), x.Get(f)) {
        patched := patched[f := x.Get(f)];
      }
    }
  }

  lemma SetChangesOneField(row: Row, f: Field, v: string, g: Field)
    ensures row.Set(f, v).Get(g) == if g == f then v else row.Get(g)
  {
  }

  /** `r` is `row` with the patches of the fields in `done`. */
  ghost predicate Assigned(row: Row, patched: map<Field, string>, done: seq<Field>, r: Row) {
    forall f :: r.Get(f) == if f in patched && f in done then patched[f] else row.Get(f)
  }

  lemma AssignNext(row: Row, patched: map<Field, string>, done: seq<Field>, r: Row, f: Field)
    requires Assigned(row, patched, done, r)
    ensures Assigned(row, patched, done + [f], if f in patched then r.Set(f, patched[f]) else r)
  {
    var r' := if f in patched then r.Set(f, patched[f]) else r;
    forall g ensures r'.Get(g) == if g in patched && g in done + [f] then patched[g] else row.Get(g) {
      if f in patched { SetChangesOneField(r, f, patched[f], g); }
    }
  }

  method Assign(row: Row, patched: map<Field, string>, order: seq<Field>) returns (updated: Row)
    ensures Assigned(row, patched, order, updated)
  {
    updated := row;
    for i := 0 to |order|
      invariant Assigned(row, patched, order[..i], updated)
    {
      AssignNext(row, patched, order[..i], updated, order[i]);
      assert order[..i + 1] == order[..i] + [order[i]];
      if order[i] in patched {
        updated := updated.Set(order[i], patched[order[i]]);
      }
    }
    assert order[..|order|] == order;
  }

  /** The loops of a refresh: `copy` decides which fields are patched, and `row`, what the table
      holds by then, gets them. */
  method Refresh(row: Row, copy: Row, x: Row) returns (updated: Row, fields: set<Field>)
    ensures updated == Applied(row, PatchOf(copy, Seen(x))) && fields == Patched(copy, x)
  {
    var patched := CollectPatch(copy, x, FIELDS);
    updated := Assign(row, patched, FIELDS);
    fields := patched.Keys;
    forall f ensures updated.Get(f) == Applied(row, PatchOf(copy, Seen(x))).Get(f) {
      FieldsAreAll(f);
      AppliedField(row, PatchOf(copy, Seen(x)), f);
    }
    SameFields(updated, Applied(row, PatchOf(copy, Seen(x))));
  }

  /** What `get_or_create` returns: a copy of the row, in memory. */
  datatype Got = Got(created: bool, copy: Row)

  class InboundTable {
    var rows: map<string, Row>

    function Find(path: string): Option<Row>
      reads this
    {
      if path in rows then Some(rows[path]) else None
    }

    /** `get_or_create`: None if every try fails. */
    method GetOrCreate(path: string, x: Row, db: Db, retries: int) returns (got: Option<Got>)
      modifies this
      ensures got == None <==> !SavesBy(db, retries)
      ensures got.Some? ==> path in rows && got.value.copy == rows[path] && (got.value.created <==> path !in old(rows))
      ensures rows == if got.Some? && got.value.created then old(rows)[path := x] else old(rows)
    {
      var attempt: nat := 0;
      while attempt < retries
        invariant rows == old(rows)
        invariant forall k: nat :: k < attempt ==> db(k) == Locked
      {
        match db(attempt) {
          case Saved =>
            if path in rows {
              return Some(Got(false, rows[path]));
            }
            rows := rows[path := x];
            return Some(Got(true, x));
          case Error => return None;
          case Locked => attempt := attempt + 1;
        }
      }
      return None;
    }

    /** Patches the row from a copy read earlier; the table may hold another row by now, or none. */
    method PatchRow(path: string, copy: Row, x: Row, saves: bool) returns (r: Outcome)
      modifies this
      ensures r == if Patched(copy, x) == {} then Stored(NoSave)
                   else if path in old(rows) && saves then Stored(Updated(Patched(copy, x)))
                   else Failed
      ensures rows == if r.Stored? && path in old(rows)
                      then old(rows)[path := Applied(old(rows)[path], PatchOf(copy, Seen(x)))]
                      else old(rows)
    {
      if path !in rows {
        var patched := CollectPatch(copy, x, FIELDS);
        NothingCollected(copy, x, patched);
        return if patched == map[] then Stored(NoSave) else Failed;
      }
      var updated, fields := Refresh(rows[path], copy, x);
      if fields == {} {
        NothingToApply(rows[path], PatchOf(copy, Seen(x)));
        return Stored(NoSave);
      }
      if !saves {
        return Failed;
      }
      rows := rows[path := updated];
      return Stored(Updated(fields));
    }

    /** One call that no other persist of the path interrupts. */
    method PersistInbound(path: string, s: Sighting, whitelist: seq<string>, db: Db, retries: int, saves: bool)
      returns (r: Outcome)
      modifies this
      ensures forall p :: p != path ==> Find(p) == old(Find(p))
      ensures var before := old(Find(path));
              if WriteFails(whitelist, before, s, db, retries, saves) then r == Failed && Find(path) == before
              else
                && Find(path) == After(whitelist, before, s)
                && r == if s == Missing && before == None then PathUnavailable
                        else if s.Seen? && !Allowed(whitelist, s.snapshot) then Rejected
                        else Stored(WrittenBy(whitelist, before, s))
      ensures r == Rejected <==> s.Seen? && whitelist != [] && s.snapshot.fromNumber !in whitelist
      ensures r.Rejected? || r.Failed? || r.PathUnavailable? ==> rows == old(rows)
    {
      match s
      case Missing =>
        if path !in rows {
          return PathUnavailable;
        }
        if Unavailable(rows[path].mmState) {
          return Stored(NoSave);
        }
        if !saves {
          return Failed;
        }
        rows := rows[path := rows[path].(mmState := "unavailable")];
        return Stored(Updated({MmState}));
      case Seen(x) =>
        if whitelist != [] && x.fromNumber !in whitelist {
          return Rejected;
        }
        var got := GetOrCreate(path, x, db, retries);
        if got == None {
          return Failed;
        }
        if got.value.created {
          return Stored(Created);
        }
        AppliedIsMerge(rows[path], x);
        r := PatchRow(path, got.value.copy, x, saves);
    }
  }

  lemma NothingToApply(row: Row, p: Patch)
    requires p.fields == {}
    ensures Applied(row, p) == row
  {
  }

  lemma NothingCollected(copy: Row, x: Row, patched: map<Field, string>)
    requires forall f :: f in patched <==> f in FIELDS && ShouldUpdate(f, copy.Get(f), x.Get(f))
    ensures patched == map[] <==> Patched(copy, x) == {}
  {
    assert patched.Keys == Patched(copy, x);
  }

  lemma SameFields(r: Row, m: Row)
    requires forall f :: r.Get(f) == m.Get(f)
    ensures r == m
  {
    assert r.Get(FromNumber) == m.Get(FromNumber) && r.Get(SmsText) == m.Get(SmsText);
    assert r.Get(MmState) == m.Get(MmState) && r.Get(Smsc) == m.Get(Smsc) && r.Get(Timestamp) == m.Get(Timestamp);
  }

  lemma FieldsAreAll(f: Field)
    ensures f in FIELDS
  {
    match f
    case FromNumber => assert FIELDS[0] == f;
    case SmsText => assert FIELDS[1] == f;
    case MmState => assert FIELDS[2] == f;
    case Smsc => assert FIELDS[3] == f;
    case Timestamp => assert FIELDS[4] == f;
  }

  lemma NothingPatched(row: Row, x: Row)
    requires Patched(row, x) == {}
    ensures Merge(row, x) == row
  {
    forall f: Field ensures !ShouldUpdate(f, row.Get(f), x.Get(f)) {
      FieldsAreAll(f);
      assert f !in Patched(row, x);
    }
    assert Value(row, x, FromNumber) == row.fromNumber && Value(row, x, SmsText) == row.text;
    assert Value(row, x, MmState) == row.mmState && Value(row, x, Smsc) == row.smsc;
    assert Value(row, x, Timestamp) == row.timestamp;
  }

  lemma SameRow(r: Row, row: Row, x: Row)
    requires forall f :: r.Get(f) == Value(row, x, f)
    ensures r == Merge(row, x)
  {
    assert r.Get(FromNumber) == r.fromNumber && r.Get(SmsText) == r.text && r.Get(MmState) == r.mmState;
    assert r.Get(Smsc) == r.smsc && r.Get(Timestamp) == r.timestamp;
  }
}
