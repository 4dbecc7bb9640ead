/** What a whole history of sightings makes of an inbound row when each is persisted after the
    one before it is through. `InboundOverlap` says which other runs end as such a history. */
module InboundHistory {
  import opened Common
  import opened Text
  import opened Inbound

  /** What holds of the empty sequence and survives one more element holds of every sequence. */
  lemma {:induction false} SnocInduction<T(!new)>(p: seq<T> -> bool, xs: seq<T>)
    requires p([])
    requires forall before, x :: p(before) ==> p(before + [x])
    ensures p(xs)
  {
    if xs != [] {
      var before, x := xs[..|xs| - 1], xs[|xs| - 1];
      SnocInduction(p, before);
      assert xs == before + [x];
    }
  }

  function Column(xs: seq<Row>, f: Field): seq<string> {
    seq(|xs|, i requires 0 <= i < |xs| => xs[i].Get(f))
  }

  function Sightings(xs: seq<Row>): seq<Sighting> {
    seq(|xs|, i requires 0 <= i < |xs| => Seen(xs[i]))
  }

  // ---- The closed form, column by column ----

  /** The first value satisfying `p`. */
  ghost predicate FirstWith(vs: seq<string>, p: string -> bool, v: string) {
    exists i :: 0 <= i < |vs| && vs[i] == v && p(v) && forall j :: 0 <= j < i ==> !p(vs[j])
  }

  ghost predicate NoneWith(vs: seq<string>, p: string -> bool) {
    forall j :: 0 <= j < |vs| ==> !p(vs[j])
  }

  ghost const NonEmpty: string -> bool := (v: string) => v != ""
  ghost const Settled: string -> bool := (v: string) => !StaleState(v)

  /** The first non-empty value, or '' if there is none. */
  ghost predicate FirstNonEmpty(vs: seq<string>, v: string) {
    if NoneWith(vs, NonEmpty) then v == "" else FirstWith(vs, NonEmpty, v)
  }

  /** The first state beyond receiving/unknown; else the first non-empty one; else ''. */
  ghost predicate FirstSettled(vs: seq<string>, v: string) {
    if NoneWith(vs, Settled) then FirstNonEmpty(vs, v) else FirstWith(vs, Settled, v)
  }

  /** Each column has at most one such value, so the closed form is a function of the snapshots. */
  lemma ClosedFormIsUnique(vs: seq<string>, v: string, w: string)
    ensures FirstLongest(vs, v) && FirstLongest(vs, w) ==> v == w
    ensures FirstNonEmpty(vs, v) && FirstNonEmpty(vs, w) ==> v == w
    ensures FirstSettled(vs, v) && FirstSettled(vs, w) ==> v == w
  {
  }

  lemma FirstWithSnoc(vs: seq<string>, p: string -> bool, x: string)
    ensures NoneWith(vs + [x], p) <==> NoneWith(vs, p) && !p(x)
    ensures forall v :: FirstWith(vs, p, v) ==> FirstWith(vs + [x], p, v)
    ensures NoneWith(vs, p) && p(x) ==> FirstWith(vs + [x], p, x)
  {
    assert (vs + [x])[|vs|] == x;
    assert forall j :: 0 <= j < |vs| ==> (vs + [x])[j] == vs[j];
    forall v | FirstWith(vs, p, v) ensures FirstWith(vs + [x], p, v) {
      var i :| 0 <= i < |vs| && vs[i] == v && p(v) && forall j :: 0 <= j < i ==> !p(vs[j]);
      assert (vs + [x])[i] == v;
    }
  }

  lemma FirstNonEmptySnoc(vs: seq<string>, v: string, x: string)
    requires FirstNonEmpty(vs, v)
    ensures FirstNonEmpty(vs + [x], if v == "" then x else v)
  {
    FirstWithSnoc(vs, NonEmpty, x);
  }

  lemma NormalizedOfTrimmed(v: string)
    requires Trimmed(v)
    ensures Strip(v) == v && |Normalized(v)| == |v|
  {
    StripOfTrimmed(v);
  }

  lemma FirstSettledSnoc(vs: seq<string>, v: string, x: string)
    requires FirstSettled(vs, v) && Trimmed(v) && Trimmed(x)
    ensures FirstSettled(vs + [x], if ShouldUpdate(MmState, v, x) then x else v)
  {
    FirstWithSnoc(vs, Settled, x);
    NormalizedOfTrimmed(v);
    NormalizedOfTrimmed(x);
    if NoneWith(vs, Settled) {
      FirstNonEmptySnoc(vs, v, x);
      assert v == "" || StaleState(v);
    }
  }

  /** Every column but the state. */
  ghost predicate ClosedMetadata(xs: seq<Row>, r: Row) {
    && FirstLongest(Column(xs, SmsText), r.text)
    && FirstNonEmpty(Column(xs, FromNumber), r.fromNumber)
    && FirstNonEmpty(Column(xs, Smsc), r.smsc)
    && FirstNonEmpty(Column(xs, Timestamp), r.timestamp)
  }

  ghost predicate ClosedForm(xs: seq<Row>, r: Row) {
    ClosedMetadata(xs, r) && FirstSettled(Column(xs, MmState), r.mmState)
  }

  ghost predicate AllExtracted(xs: seq<Row>) {
    forall i :: 0 <= i < |xs| ==> xs[i].Extracted()
  }

  lemma ClosedFormOfOne(x: Row)
    ensures ClosedForm([x], x)
  {
    forall f: Field ensures Column([x], f) == [x.Get(f)] {}
    assert Column([x], SmsText)[0] == x.text;
    forall v: string ensures FirstNonEmpty([v], v) && FirstSettled([v], v) {
      assert [v][0] == v;
    }
  }

  lemma ColumnSnoc(xs: seq<Row>, x: Row, f: Field)
    ensures Column(xs + [x], f) == Column(xs, f) + [x.Get(f)]
  {
  }

  lemma TrimmedFields(x: Row)
    requires x.Extracted()
    ensures Trimmed(x.fromNumber) && Trimmed(x.text) && Trimmed(x.mmState) && Trimmed(x.smsc) && Trimmed(x.timestamp)
    ensures Strip(x.fromNumber) == x.fromNumber && Strip(x.text) == x.text && Strip(x.smsc) == x.smsc
    ensures Strip(x.timestamp) == x.timestamp
  {
    assert Trimmed(x.Get(FromNumber)) && Trimmed(x.Get(SmsText)) && Trimmed(x.Get(MmState));
    assert Trimmed(x.Get(Smsc)) && Trimmed(x.Get(Timestamp));
    StripOfTrimmed(x.fromNumber);
    StripOfTrimmed(x.text);
    StripOfTrimmed(x.smsc);
    StripOfTrimmed(x.timestamp);
  }

  lemma MergeExtracted(r: Row, x: Row)
    requires r.Extracted() && x.Extracted()
    ensures Merge(r, x).Extracted()
  {
    forall f ensures Trimmed(Merge(r, x).Get(f)) {
      assert Trimmed(r.Get(f)) && Trimmed(x.Get(f));
    }
  }

  lemma ClosedMetadataSnoc(xs: seq<Row>, r: Row, x: Row)
    requires ClosedMetadata(xs, r) && r.Extracted() && x.Extracted()
    ensures ClosedMetadata(xs + [x], Merge(r, x))
  {
    TrimmedFields(r);
    TrimmedFields(x);
    forall f ensures Column(xs + [x], f) == Column(xs, f) + [x.Get(f)] { ColumnSnoc(xs, x, f); }
    FirstLongestSnoc(Column(xs, SmsText), r.text, x.text);
    FirstNonEmptySnoc(Column(xs, FromNumber), r.fromNumber, x.fromNumber);
    FirstNonEmptySnoc(Column(xs, Smsc), r.smsc, x.smsc);
    FirstNonEmptySnoc(Column(xs, Timestamp), r.timestamp, x.timestamp);
  }

  lemma ClosedStateSnoc(xs: seq<Row>, r: Row, x: Row)
    requires FirstSettled(Column(xs, MmState), r.mmState) && r.Extracted() && x.Extracted()
    ensures FirstSettled(Column(xs + [x], MmState), Merge(r, x).mmState)
  {
    TrimmedFields(r);
    TrimmedFields(x);
    ColumnSnoc(xs, x, MmState);
    FirstSettledSnoc(Column(xs, MmState), r.mmState, x.mmState);
  }

  lemma ClosedFormSnoc(xs: seq<Row>, r: Row, x: Row)
    requires ClosedForm(xs, r) && r.Extracted() && x.Extracted()
    ensures ClosedForm(xs + [x], Merge(r, x))
  {
    ClosedMetadataSnoc(xs, r, x);
    ClosedStateSnoc(xs, r, x);
  }

  lemma PersistedSnoc(whitelist: seq<string>, xs: seq<Row>, x: Row)
    ensures Persisted(whitelist, None, Sightings(xs + [x]))
         == After(whitelist, Persisted(whitelist, None, Sightings(xs)), Seen(x))
  {
    var h := Sightings(xs + [x]);
    assert h[..|h| - 1] == Sightings(xs);
  }

  /** Persisting the snapshots of one path one after the other gives the closed form. */
  lemma {:induction false} PersistingIsTheClosedForm(xs: seq<Row>)
    requires xs != [] && AllExtracted(xs)
    ensures var r := Persisted([], None, Sightings(xs));
            r.Some? && r.value.Extracted() && ClosedForm(xs, r.value)
  {
    var before, x := xs[..|xs| - 1], xs[|xs| - 1];
    assert xs == before + [x];
    PersistedSnoc([], before, x);
    if before == [] {
      assert Persisted([], None, Sightings(before)) == None;
      ClosedFormOfOne(x);
    } else {
      PersistingIsTheClosedForm(before);
      var r := Persisted([], None, Sightings(before)).value;
      ClosedFormSnoc(before, r, x);
      MergeExtracted(r, x);
    }
  }

  /** States a later snapshot may still replace. */
  ghost predicate Unsettled(state: string) {
    var v := Lower(Strip(state));
    v == "receiving" || v == "unknown" || v == ""
  }

  lemma UnsettledIsStale(state: string)
    ensures Unsettled(state) <==> StaleState(state)
  {
  }

  /** Value `i` is the first beyond receiving and unknown, or there is none and it is the first
      that is not empty. */
  ghost predicate DecidesState(vs: seq<string>, i: nat) {
    && i < |vs|
    && if forall j :: 0 <= j < |vs| ==> Unsettled(vs[j])
       then vs[i] != "" && forall j :: 0 <= j < i ==> vs[j] == ""
       else !Unsettled(vs[i]) && forall j :: 0 <= j < i ==> Unsettled(vs[j])
  }

  /** Then the stored state is that of snapshot `i`. */
  lemma {:induction false} StateOfSnapshot(xs: seq<Row>, i: nat)
    requires AllExtracted(xs) && DecidesState(Column(xs, MmState), i)
    ensures var r := Persisted([], None, Sightings(xs)); r.Some? && r.value.mmState == xs[i].mmState
  {
    PersistingIsTheClosedForm(xs);
    StateInWords(Column(xs, MmState), i, Persisted([], None, Sightings(xs)).value.mmState);
  }

  lemma StateInWords(vs: seq<string>, i: nat, v: string)
    requires DecidesState(vs, i) && FirstSettled(vs, v)
    ensures v == vs[i]
  {
    forall j | 0 <= j < |vs| ensures Unsettled(vs[j]) <==> !Settled(vs[j]) { UnsettledIsStale(vs[j]); }
    StateIs(vs, i, v);
  }

  lemma StateIs(vs: seq<string>, i: nat, v: string)
    requires i < |vs| && FirstSettled(vs, v)
    requires || (Settled(vs[i]) && forall j :: 0 <= j < i ==> !Settled(vs[j]))
             || (vs[i] != "" && NoneWith(vs, Settled) && forall j :: 0 <= j < i ==> vs[j] == "")
    ensures v == vs[i]
  {
    if NoneWith(vs, Settled) {
      assert NonEmpty(vs[i]);
      var k :| 0 <= k < |vs| && vs[k] == v && NonEmpty(v) && forall j :: 0 <= j < k ==> !NonEmpty(vs[j]);
      assert k == i;
    } else {
      assert Settled(vs[i]);
      var k :| 0 <= k < |vs| && vs[k] == v && Settled(v) && forall j :: 0 <= j < k ==> !Settled(vs[j]);
      assert k == i;
    }
  }

  // ---- The whitelist ----

  function Accepted(whitelist: seq<string>, xs: seq<Row>): seq<Row> {
    if xs == [] then []
    else Accepted(whitelist, xs[..|xs| - 1]) + if Allowed(whitelist, xs[|xs| - 1]) then [xs[|xs| - 1]] else []
  }

  ghost predicate LeavesNoTrace(whitelist: seq<string>, xs: seq<Row>) {
    Persisted(whitelist, None, Sightings(xs)) == Persisted([], None, Sightings(Accepted(whitelist, xs)))
  }

  lemma OneMoreSnapshot(whitelist: seq<string>, before: seq<Row>, x: Row)
    requires LeavesNoTrace(whitelist, before)
    ensures LeavesNoTrace(whitelist, before + [x])
  {
    PersistedSnoc(whitelist, before, x);
    var kept := Accepted(whitelist, before);
    assert (before + [x])[..|before|] == before;
    if Allowed(whitelist, x) {
      PersistedSnoc([], kept, x);
    } else {
      assert Accepted(whitelist, before + [x]) == kept;
    }
  }

  /** Under a whitelist the rejected snapshots might as well not have come. */
  lemma {:induction false} RejectedLeaveNoTrace(whitelist: seq<string>, xs: seq<Row>)
    ensures Persisted(whitelist, None, Sightings(xs)) == Persisted([], None, Sightings(Accepted(whitelist, xs)))
  {
    var p: seq<Row> -> bool := xs => LeavesNoTrace(whitelist, xs);
    forall before, x | p(before) ensures p(before + [x]) { OneMoreSnapshot(whitelist, before, x); }
    SnocInduction(p, xs);
  }

  // ---- Persisting the same snapshot again ----

  /** `x` has nothing to add to the row. */
  ghost predicate Absorbed(row: Option<Row>, x: Row) {
    row.Some? && row.value.Extracted() && Patched(row.value, x) == {}
  }

  lemma PatchedIsEmptyIff(r: Row, x: Row)
    ensures Patched(r, x) == {} <==> forall f :: !ShouldUpdate(f, r.Get(f), x.Get(f))
  {
    forall f ensures f in Patched(r, x) <==> ShouldUpdate(f, r.Get(f), x.Get(f)) { FieldsAreAll(f); }
  }

  /** Once a field does not want a value, no later merge makes it want it. */
  lemma FieldStaysAbsorbed(f: Field, cur: string, x: string, y: string)
    requires Trimmed(cur) && Trimmed(x) && Trimmed(y)
    requires !ShouldUpdate(f, cur, x)
    ensures !ShouldUpdate(f, if ShouldUpdate(f, cur, y) then y else cur, x)
  {
    NormalizedOfTrimmed(cur);
    NormalizedOfTrimmed(x);
    NormalizedOfTrimmed(y);
  }

  lemma FieldAbsorbsItsValue(f: Field, cur: string, x: string)
    requires Trimmed(cur) && Trimmed(x)
    ensures !ShouldUpdate(f, if ShouldUpdate(f, cur, x) then x else cur, x)
  {
    NormalizedOfTrimmed(cur);
    NormalizedOfTrimmed(x);
  }

  lemma MergedField(r: Row, x: Row, f: Field)
    ensures Merge(r, x).Get(f) == Value(r, x, f)
  {
  }

  lemma SightingAbsorbs(whitelist: seq<string>, row: Option<Row>, x: Row)
    requires x.Extracted() && Allowed(whitelist, x) && (row.Some? ==> row.value.Extracted())
    ensures Absorbed(After(whitelist, row, Seen(x)), x)
  {
    var r := if row.Some? then row.value else x;
    var r' := After(whitelist, row, Seen(x)).value;
    if row.Some? { MergeExtracted(r, x); }
    PatchedIsEmptyIff(r', x);
    forall f ensures !ShouldUpdate(f, r'.Get(f), x.Get(f)) {
      assert Trimmed(r.Get(f)) && Trimmed(x.Get(f));
      FieldAbsorbsItsValue(f, r.Get(f), x.Get(f));
      MergedField(r, x, f);
    }
  }

  lemma UnavailableIsSettled()
    ensures Trimmed("unavailable") && !StaleState("unavailable") && Unavailable("unavailable")
  {
    StripOfTrimmed("unavailable");
    assert Lower("unavailable") == "unavailable";
  }

  ghost predicate GoodSighting(s: Sighting) {
    s.Seen? ==> s.snapshot.Extracted()
  }

  lemma AbsorbedWhenMissing(r: Row, x: Row)
    requires Absorbed(Some(r), x) && x.Extracted()
    ensures Absorbed(Some(r.(mmState := "unavailable")), x)
  {
    var r' := r.(mmState := "unavailable");
    UnavailableIsSettled();
    PatchedIsEmptyIff(r, x);
    PatchedIsEmptyIff(r', x);
    StripOfTrimmed("unavailable");
    forall f ensures !ShouldUpdate(f, r'.Get(f), x.Get(f)) && Trimmed(r'.Get(f)) {
      assert Trimmed(r.Get(f)) && !ShouldUpdate(f, r.Get(f), x.Get(f));
    }
  }

  lemma AbsorbedWhenMerged(r: Row, x: Row, y: Row)
    requires Absorbed(Some(r), x) && x.Extracted() && y.Extracted()
    ensures Absorbed(Some(Merge(r, y)), x)
  {
    PatchedIsEmptyIff(r, x);
    PatchedIsEmptyIff(Merge(r, y), x);
    MergeExtracted(r, y);
    forall f ensures !ShouldUpdate(f, Merge(r, y).Get(f), x.Get(f)) {
      assert Trimmed(r.Get(f)) && Trimmed(x.Get(f)) && Trimmed(y.Get(f));
      FieldStaysAbsorbed(f, r.Get(f), x.Get(f), y.Get(f));
      MergedField(r, y, f);
    }
  }

  lemma AbsorbedStays(whitelist: seq<string>, row: Option<Row>, x: Row, s: Sighting)
    requires Absorbed(row, x) && x.Extracted() && GoodSighting(s)
    ensures Absorbed(After(whitelist, row, s), x)
  {
    match s
    case Missing => AbsorbedWhenMissing(row.value, x);
    case Seen(y) => AbsorbedWhenMerged(row.value, x, y);
  }

  ghost predicate GoodHistory(h: seq<Sighting>) {
    forall i :: 0 <= i < |h| ==> GoodSighting(h[i])
  }

  lemma {:induction false} HistoryKeepsExtracted(whitelist: seq<string>, h: seq<Sighting>)
    requires GoodHistory(h)
    ensures var r := Persisted(whitelist, None, h); r.Some? ==> r.value.Extracted()
  {
    if h != [] {
      var before, s := h[..|h| - 1], h[|h| - 1];
      HistoryKeepsExtracted(whitelist, before);
      var r := Persisted(whitelist, None, before);
      UnavailableIsSettled();
      if r.Some? && s.Seen? { MergeExtracted(r.value, s.snapshot); }
      if r.Some? && s.Missing? {
        var r' := After(whitelist, r, s).value;
        forall f ensures Trimmed(r'.Get(f)) { assert Trimmed(r.value.Get(f)); }
      }
    }
  }

  /** However long ago, and whatever came in between: a snapshot the history already holds is
      absorbed. */
  lemma {:induction false} SeenIsAbsorbed(whitelist: seq<string>, h: seq<Sighting>, i: nat)
    requires GoodHistory(h) && i < |h| && h[i].Seen? && Allowed(whitelist, h[i].snapshot)
    ensures Absorbed(Persisted(whitelist, None, h), h[i].snapshot)
  {
    var before, s := h[..|h| - 1], h[|h| - 1];
    if i == |h| - 1 {
      HistoryKeepsExtracted(whitelist, before);
      SightingAbsorbs(whitelist, Persisted(whitelist, None, before), h[i].snapshot);
    } else {
      SeenIsAbsorbed(whitelist, before, i);
      AbsorbedStays(whitelist, Persisted(whitelist, None, before), h[i].snapshot, s);
    }
  }

  /** So persisting it again writes nothing, changes nothing, and schedules no webhook. */
  lemma {:induction false} RepeatedSnapshotIsSilent(whitelist: seq<string>, h: seq<Sighting>, i: nat, echo: bool)
    requires GoodHistory(h) && i < |h| && h[i].Seen? && Allowed(whitelist, h[i].snapshot)
    ensures var r := Persisted(whitelist, None, h);
            && WrittenBy(whitelist, r, h[i]) == NoSave
            && After(whitelist, r, h[i]) == r
            && !Schedules(r.value, echo, WrittenBy(whitelist, r, h[i]))
  {
    SeenIsAbsorbed(whitelist, h, i);
    NothingPatched(Persisted(whitelist, None, h).value, h[i].snapshot);
  }

  // ---- Whole histories ----

  /** The accepted snapshots of a history, oldest first. */
  function AcceptedIn(whitelist: seq<string>, h: seq<Sighting>): seq<Row> {
    if h == [] then []
    else
      var before, s := h[..|h| - 1], h[|h| - 1];
      AcceptedIn(whitelist, before) + if s.Seen? && Allowed(whitelist, s.snapshot) then [s.snapshot] else []
  }

  /** The modem has at some time lost the message after it was stored. */
  predicate Lost(whitelist: seq<string>, h: seq<Sighting>) {
    h != [] && (Lost(whitelist, h[..|h| - 1]) || (h[|h| - 1] == Missing && AcceptedIn(whitelist, h[..|h| - 1]) != []))
  }

  function BeforeLoss(whitelist: seq<string>, h: seq<Sighting>): seq<Sighting>
    requires Lost(whitelist, h)
  {
    if Lost(whitelist, h[..|h| - 1]) then BeforeLoss(whitelist, h[..|h| - 1]) else h[..|h| - 1]
  }

  function WhenLost(state: string): string {
    if Unavailable(state) then state else "unavailable"
  }

  /** The state in closed form: that of the accepted snapshots, and once the message is lost
      'unavailable' for good, unless the state already said so. */
  ghost predicate ClosedState(whitelist: seq<string>, h: seq<Sighting>, v: string) {
    if !Lost(whitelist, h) then FirstSettled(Column(AcceptedIn(whitelist, h), MmState), v)
    else
      var xs := AcceptedIn(whitelist, BeforeLoss(whitelist, h));
      exists w :: FirstSettled(Column(xs, MmState), w) && v == WhenLost(w)
  }

  lemma {:induction false} LostWasStored(whitelist: seq<string>, h: seq<Sighting>)
    requires Lost(whitelist, h)
    ensures AcceptedIn(whitelist, h) != []
  {
    var before := h[..|h| - 1];
    if Lost(whitelist, before) { LostWasStored(whitelist, before); }
  }

  lemma WhenLostIsFinal(v: string, x: string)
    requires Unavailable(v)
    ensures !ShouldUpdate(MmState, v, x) && WhenLost(v) == v
  {
    StripTrims(v);
    StripOfTrimmed(Strip(v));
  }

  ghost predicate ClosedHistory(whitelist: seq<string>, h: seq<Sighting>, row: Option<Row>) {
    if AcceptedIn(whitelist, h) == [] then row == None
    else
      && row.Some? && ClosedMetadata(AcceptedIn(whitelist, h), row.value)
      && ClosedState(whitelist, h, row.value.mmState)
  }

  /** Neither a loss nor a rejected snapshot adds to the accepted ones. */
  lemma NothingAccepted(whitelist: seq<string>, h: seq<Sighting>, s: Sighting)
    requires s.Seen? ==> !Allowed(whitelist, s.snapshot)
    ensures AcceptedIn(whitelist, h + [s]) == AcceptedIn(whitelist, h)
  {
    assert (h + [s])[..|h|] == h;
    assert AcceptedIn(whitelist, h) + [] == AcceptedIn(whitelist, h);
  }

  lemma OneAccepted(whitelist: seq<string>, h: seq<Sighting>, x: Row)
    requires Allowed(whitelist, x)
    ensures AcceptedIn(whitelist, h + [Seen(x)]) == AcceptedIn(whitelist, h) + [x]
  {
    assert (h + [Seen(x)])[..|h|] == h;
  }

  lemma LostOnceMore(whitelist: seq<string>, h: seq<Sighting>, s: Sighting)
    ensures Lost(whitelist, h + [s]) <==> Lost(whitelist, h) || (s == Missing && AcceptedIn(whitelist, h) != [])
    ensures Lost(whitelist, h + [s]) ==>
              BeforeLoss(whitelist, h + [s]) == if Lost(whitelist, h) then BeforeLoss(whitelist, h) else h
  {
    assert (h + [s])[..|h|] == h;
  }

  lemma ClosedStateWhenMissing(whitelist: seq<string>, h: seq<Sighting>, v: string)
    requires AcceptedIn(whitelist, h) != [] && ClosedState(whitelist, h, v)
    ensures ClosedState(whitelist, h + [Missing], WhenLost(v))
  {
    LostOnceMore(whitelist, h, Missing);
    UnavailableIsSettled();
  }

  lemma ClosedAfterMissing(whitelist: seq<string>, h: seq<Sighting>, row: Option<Row>)
    requires ClosedHistory(whitelist, h, row)
    ensures ClosedHistory(whitelist, h + [Missing], After(whitelist, row, Missing))
  {
    NothingAccepted(whitelist, h, Missing);
    if row.Some? { ClosedStateWhenMissing(whitelist, h, row.value.mmState); }
  }

  lemma ClosedAfterRejected(whitelist: seq<string>, h: seq<Sighting>, row: Option<Row>, x: Row)
    requires !Allowed(whitelist, x) && ClosedHistory(whitelist, h, row)
    ensures ClosedHistory(whitelist, h + [Seen(x)], row)
  {
    NothingAccepted(whitelist, h, Seen(x));
    LostOnceMore(whitelist, h, Seen(x));
  }

  lemma ClosedAfterFirst(whitelist: seq<string>, h: seq<Sighting>, x: Row)
    requires Allowed(whitelist, x) && AcceptedIn(whitelist, h) == []
    ensures ClosedHistory(whitelist, h + [Seen(x)], Some(x))
  {
    OneAccepted(whitelist, h, x);
    LostOnceMore(whitelist, h, Seen(x));
    if Lost(whitelist, h) { LostWasStored(whitelist, h); }
    assert AcceptedIn(whitelist, h + [Seen(x)]) == [x];
    ClosedFormOfOne(x);
  }

  lemma LostStaysLost(whitelist: seq<string>, h: seq<Sighting>, r: Row, x: Row)
    requires Lost(whitelist, h) && ClosedState(whitelist, h, r.mmState)
    ensures ClosedState(whitelist, h + [Seen(x)], Merge(r, x).mmState)
  {
    LostOnceMore(whitelist, h, Seen(x));
    UnavailableIsSettled();
    WhenLostIsFinal(r.mmState, x.mmState);
  }

  lemma ClosedAfterMerge(whitelist: seq<string>, h: seq<Sighting>, r: Row, x: Row)
    requires Allowed(whitelist, x) && r.Extracted() && x.Extracted()
    requires AcceptedIn(whitelist, h) != [] && ClosedHistory(whitelist, h, Some(r))
    ensures ClosedHistory(whitelist, h + [Seen(x)], Some(Merge(r, x)))
  {
    OneAccepted(whitelist, h, x);
    ClosedMetadataSnoc(AcceptedIn(whitelist, h), r, x);
    if Lost(whitelist, h) {
      LostStaysLost(whitelist, h, r, x);
    } else {
      LostOnceMore(whitelist, h, Seen(x));
      ClosedStateSnoc(AcceptedIn(whitelist, h), r, x);
    }
  }

  lemma ClosedStep(whitelist: seq<string>, h: seq<Sighting>, row: Option<Row>, s: Sighting)
    requires ClosedHistory(whitelist, h, row) && GoodSighting(s) && (row.Some? ==> row.value.Extracted())
    ensures ClosedHistory(whitelist, h + [s], After(whitelist, row, s))
  {
    match s
    case Missing => ClosedAfterMissing(whitelist, h, row);
    case Seen(x) =>
      if !Allowed(whitelist, x) {
        ClosedAfterRejected(whitelist, h, row, x);
      } else if row == None {
        ClosedAfterFirst(whitelist, h, x);
      } else {
        ClosedAfterMerge(whitelist, h, row.value, x);
      }
  }

  lemma PersistedOneMore(whitelist: seq<string>, h: seq<Sighting>, s: Sighting)
    ensures Persisted(whitelist, None, h + [s]) == After(whitelist, Persisted(whitelist, None, h), s)
  {
    assert (h + [s])[..|h|] == h;
  }

  /** The row exists iff some snapshot came from a sender on the whitelist, or there is none. */
  lemma {:induction false} StoredIffSomeoneAllowed(whitelist: seq<string>, h: seq<Sighting>)
    ensures Persisted(whitelist, None, h).Some? <==>
            exists i :: 0 <= i < |h| && h[i].Seen? && (whitelist == [] || h[i].snapshot.fromNumber in whitelist)
  {
    if h != [] {
      var before, s := h[..|h| - 1], h[|h| - 1];
      assert h == before + [s];
      StoredIffSomeoneAllowed(whitelist, before);
      PersistedOneMore(whitelist, before, s);
      if i :| 0 <= i < |before| && before[i].Seen? && (whitelist == [] || before[i].snapshot.fromNumber in whitelist) {
        assert h[i] == before[i];
      }
    }
  }

  ghost predicate EndsClosed(whitelist: seq<string>, h: seq<Sighting>) {
    GoodHistory(h) ==> ClosedHistory(whitelist, h, Persisted(whitelist, None, h))
  }

  lemma ClosedOneMore(whitelist: seq<string>, h: seq<Sighting>, s: Sighting)
    requires EndsClosed(whitelist, h)
    ensures EndsClosed(whitelist, h + [s])
  {
    if GoodHistory(h + [s]) {
      assert (h + [s])[|h|] == s && forall i :: 0 <= i < |h| ==> (h + [s])[i] == h[i];
      HistoryKeepsExtracted(whitelist, h);
      ClosedStep(whitelist, h, Persisted(whitelist, None, h), s);
      PersistedOneMore(whitelist, h, s);
    }
  }

  /** Any history of one path, with losses and rejected snapshots in between, leaves the closed form. */
  lemma {:induction false} HistoryIsTheClosedForm(whitelist: seq<string>, h: seq<Sighting>)
    requires GoodHistory(h)
    ensures ClosedHistory(whitelist, h, Persisted(whitelist, None, h))
  {
    var p: seq<Sighting> -> bool := x => EndsClosed(whitelist, x);
    forall before, s | p(before) ensures p(before + [s]) { ClosedOneMore(whitelist, before, s); }
    SnocInduction(p, h);
  }

  // ---- How often a row can change ----

  /** '' comes before receiving/unknown, those before every other state, unavailable is last. */
  function Rank(state: string): (n: nat)
    ensures n <= 3
  {
    if Normalized(state) == "" then 0
    else if StaleState(state) then 1
    else if Unavailable(state) then 3
    else 2
  }

  /** What a write can only add to, field by field. */
  function FieldProgress(f: Field, v: string): nat {
    match f
    case MmState => Rank(v)
    case SmsText => |v|
    case _ => if v == "" then 0 else 1
  }

  function Progress(r: Row): (n: nat)
    ensures |r.text| <= n <= 6 + |r.text|
  {
    FieldProgress(FromNumber, r.fromNumber) + FieldProgress(SmsText, r.text) + FieldProgress(MmState, r.mmState)
    + FieldProgress(Smsc, r.smsc) + FieldProgress(Timestamp, r.timestamp)
  }

  lemma UpdateMakesProgress(f: Field, cur: string, des: string)
    requires Trimmed(cur) && Trimmed(des) && ShouldUpdate(f, cur, des)
    ensures FieldProgress(f, cur) < FieldProgress(f, des)
  {
    NormalizedOfTrimmed(cur);
    NormalizedOfTrimmed(des);
  }

  lemma UnavailableRanksLast(cur: string)
    requires Trimmed(cur) && !Unavailable(cur)
    ensures Rank(cur) < Rank("unavailable")
  {
    NormalizedOfTrimmed(cur);
    UnavailableIsSettled();
  }

  lemma MergeMakesProgress(r: Row, x: Row)
    requires r.Extracted() && x.Extracted()
    ensures forall f :: var m := Merge(r, x);
              && FieldProgress(f, r.Get(f)) <= FieldProgress(f, m.Get(f))
              && (f in Patched(r, x) ==> FieldProgress(f, r.Get(f)) < FieldProgress(f, m.Get(f)))
              && (f !in Patched(r, x) ==> m.Get(f) == r.Get(f))
  {
    forall f ensures var m := Merge(r, x);
                     && FieldProgress(f, r.Get(f)) <= FieldProgress(f, m.Get(f))
                     && (f in Patched(r, x) ==> FieldProgress(f, r.Get(f)) < FieldProgress(f, m.Get(f)))
                     && (f !in Patched(r, x) ==> m.Get(f) == r.Get(f))
    {
      MergedField(r, x, f);
      FieldsAreAll(f);
      assert Trimmed(r.Get(f)) && Trimmed(x.Get(f));
      if ShouldUpdate(f, r.Get(f), x.Get(f)) { UpdateMakesProgress(f, r.Get(f), x.Get(f)); }
    }
  }

  lemma ProgressAddsUp(r: Row, m: Row)
    requires forall f :: FieldProgress(f, r.Get(f)) <= FieldProgress(f, m.Get(f))
    ensures Progress(r) <= Progress(m)
    ensures (exists f :: FieldProgress(f, r.Get(f)) < FieldProgress(f, m.Get(f))) ==> Progress(r) < Progress(m)
  {
    assert FieldProgress(FromNumber, r.Get(FromNumber)) <= FieldProgress(FromNumber, m.Get(FromNumber));
    assert FieldProgress(SmsText, r.Get(SmsText)) <= FieldProgress(SmsText, m.Get(SmsText));
    assert FieldProgress(MmState, r.Get(MmState)) <= FieldProgress(MmState, m.Get(MmState));
    assert FieldProgress(Smsc, r.Get(Smsc)) <= FieldProgress(Smsc, m.Get(Smsc));
    assert FieldProgress(Timestamp, r.Get(Timestamp)) <= FieldProgress(Timestamp, m.Get(Timestamp));
  }

  /** Every write adds to the progress of the row, and a change of state raises its rank. */
  lemma WriteMakesProgress(whitelist: seq<string>, row: Option<Row>, s: Sighting)
    requires row.Some? && row.value.Extracted() && GoodSighting(s)
    ensures var r, r' := row.value, After(whitelist, row, s).value;
            && Rank(r.mmState) <= Rank(r'.mmState)
            && (r.mmState != r'.mmState ==> Rank(r.mmState) < Rank(r'.mmState))
            && Progress(r) <= Progress(r')
            && (WrittenBy(whitelist, row, s) != NoSave ==> Progress(r) < Progress(r'))
  {
    var r, r' := row.value, After(whitelist, row, s).value;
    if s.Seen? && Allowed(whitelist, s.snapshot) {
      MergeMakesProgress(r, s.snapshot);
      ProgressAddsUp(r, r');
      assert FieldProgress(MmState, r.Get(MmState)) == Rank(r.mmState);
      assert FieldProgress(MmState, r'.Get(MmState)) == Rank(r'.mmState);
      if MmState in Patched(r, s.snapshot) {} else { assert r'.Get(MmState) == r.Get(MmState); }
    } else if s.Missing? && !Unavailable(r.mmState) {
      TrimmedFields(r);
      UnavailableRanksLast(r.mmState);
    }
  }

  /** What is reported as written are exactly the fields whose value changed. */
  lemma WrittenFieldsAreTheChangedOnes(whitelist: seq<string>, row: Row, s: Sighting, f: Field)
    requires row.Extracted() && GoodSighting(s)
    ensures var written, r := WrittenBy(whitelist, Some(row), s), After(whitelist, Some(row), s).value;
            && (written == NoSave || written.Updated?)
            && (written.Updated? && f in written.fields <==> r.Get(f) != row.Get(f))
            && (written == NoSave <==> r == row)
  {
    var r := After(whitelist, Some(row), s).value;
    assert Trimmed(row.Get(f)) && Trimmed(row.mmState) by { assert Trimmed(row.Get(MmState)); }
    UnavailableIsSettled();
    if s.Seen? && Allowed(whitelist, s.snapshot) {
      MergeMakesProgress(row, s.snapshot);
      if Patched(row, s.snapshot) == {} { NothingPatched(row, s.snapshot); }
      if g :| g in Patched(row, s.snapshot) { assert r.Get(g) != row.Get(g); }
    }
  }

  function StateChanges(whitelist: seq<string>, h: seq<Sighting>): nat {
    if h == [] then 0
    else
      var before, after := Persisted(whitelist, None, h[..|h| - 1]), Persisted(whitelist, None, h);
      StateChanges(whitelist, h[..|h| - 1])
      + if before.Some? && after.Some? && before.value.mmState != after.value.mmState then 1 else 0
  }

  function Saves(whitelist: seq<string>, h: seq<Sighting>): nat {
    if h == [] then 0
    else
      var before := Persisted(whitelist, None, h[..|h| - 1]);
      Saves(whitelist, h[..|h| - 1]) + if WrittenBy(whitelist, before, h[|h| - 1]) != NoSave then 1 else 0
  }

  lemma {:induction false} ChangesAreBounded(whitelist: seq<string>, h: seq<Sighting>)
    requires GoodHistory(h)
    ensures var r := Persisted(whitelist, None, h);
            if r == None then StateChanges(whitelist, h) == 0 && Saves(whitelist, h) == 0
            else StateChanges(whitelist, h) <= Rank(r.value.mmState) && Saves(whitelist, h) <= Progress(r.value) + 1
  {
    if h != [] {
      var before, s := h[..|h| - 1], h[|h| - 1];
      ChangesAreBounded(whitelist, before);
      HistoryKeepsExtracted(whitelist, before);
      var row := Persisted(whitelist, None, before);
      if row.Some? { WriteMakesProgress(whitelist, row, s); }
    }
  }

  /** Over such a history a row's state changes at most three times, and it is saved at most
      once for its creation, once per state change, once per metadata field and once per
      character of its final text. */
  lemma {:induction false} LifetimeBounds(whitelist: seq<string>, h: seq<Sighting>)
    requires GoodHistory(h) && Persisted(whitelist, None, h).Some?
    ensures StateChanges(whitelist, h) <= 3
    ensures Saves(whitelist, h) <= 7 + |Persisted(whitelist, None, h).value.text|
  {
    ChangesAreBounded(whitelist, h);
  }
}
