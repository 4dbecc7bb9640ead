/** One inbound row under persists that overlap. `persist_inbound_sms` reads the row, works out
    what to patch on its copy, and saves that later; another persist of the same path may save
    in between. The system is the life of one row: once it is deleted, saves raise. */
module InboundOverlap {
  import opened Common
  import opened Text
  import opened Inbound
  import opened InboundHistory

  /** `done`, `changes` and `saves` are logs no step reads: the sightings of the persists that
      are through, in the order they got through, how often the stored state changed, and how
      often the row was saved. */
  datatype State = State(row: Option<Row>, pending: map<nat, Patch>, done: seq<Sighting>, changes: nat, saves: nat)

  datatype Event =
    | Read(thread: nat, sighting: Sighting)  // get_or_create, or the look-up of a lost message
    | Save(thread: nat)
    | Drop(thread: nat)                      // the save raised, or the thread died before it

  ghost const Init := State(None, map[], [], 0, 0)

  ghost predicate Enabled(s: State, e: Event) {
    match e
    case Read(t, sighting) => t !in s.pending && GoodSighting(sighting)
    case Save(t) => t in s.pending && s.row.Some?
    case Drop(t) => t in s.pending
  }

  /** The patch a read leads to, if it leads to one. */
  function PatchAfter(whitelist: seq<string>, s: State, sighting: Sighting): Option<Patch> {
    if s.row == None || (sighting.Seen? && !Allowed(whitelist, sighting.snapshot)) then None
    else if PatchOf(s.row.value, sighting).fields == {} then None
    else Some(PatchOf(s.row.value, sighting))
  }

  function StateChanged(a: Row, b: Row): nat {
    if a.mmState != b.mmState then 1 else 0
  }

  ghost function Step(whitelist: seq<string>, s: State, e: Event): State
    requires Enabled(s, e)
  {
    match e
    case Read(t, sighting) =>
      if PatchAfter(whitelist, s, sighting).Some?
      then s.(pending := s.pending[t := PatchAfter(whitelist, s, sighting).value])
      else if s.row == None && sighting.Seen? && Allowed(whitelist, sighting.snapshot)
      then s.(row := Some(sighting.snapshot), done := s.done + [sighting], saves := s.saves + 1)
      else s.(done := s.done + [sighting])
    case Save(t) =>
      var row := Applied(s.row.value, s.pending[t]);
      s.(row := Some(row), pending := s.pending - {t}, done := s.done + [s.pending[t].sighting],
         changes := s.changes + StateChanged(s.row.value, row), saves := s.saves + 1)
    case Drop(t) => s.(pending := s.pending - {t})
  }

  ghost predicate Possible(whitelist: seq<string>, s: State, es: seq<Event>)
    decreases |es|
  {
    es != [] ==> Enabled(s, es[0]) && Possible(whitelist, Step(whitelist, s, es[0]), es[1..])
  }

  ghost function Run(whitelist: seq<string>, s: State, es: seq<Event>): State
    requires Possible(whitelist, s, es)
    decreases |es|
  {
    if es == [] then s else Run(whitelist, Step(whitelist, s, es[0]), es[1..])
  }

  lemma RunCons(whitelist: seq<string>, s: State, e: Event, es: seq<Event>)
    requires Enabled(s, e) && Possible(whitelist, Step(whitelist, s, e), es)
    ensures Possible(whitelist, s, [e] + es)
    ensures Run(whitelist, s, [e] + es) == Run(whitelist, Step(whitelist, s, e), es)
  {
    assert ([e] + es)[1..] == es;
  }

  // ---- Two regimes ----

  /** Two patches agree if they save the same value wherever they save the same field. */
  ghost predicate Agree(p: Patch, q: Patch) {
    forall f :: f in p.fields && f in q.fields ==> p.values.Get(f) == q.values.Get(f)
  }

  ghost predicate AgreeingEvent(whitelist: seq<string>, s: State, e: Event) {
    e.Read? && PatchAfter(whitelist, s, e.sighting).Some? ==>
      forall t :: t in s.pending ==> Agree(s.pending[t], PatchAfter(whitelist, s, e.sighting).value)
  }

  ghost predicate Agreeing(whitelist: seq<string>, s: State, es: seq<Event>)
    requires Possible(whitelist, s, es)
    decreases |es|
  {
    es != [] ==> AgreeingEvent(whitelist, s, es[0]) && Agreeing(whitelist, Step(whitelist, s, es[0]), es[1..])
  }

  /** No persist reads while another one is between its read and its save. */
  ghost predicate Serial(whitelist: seq<string>, s: State, es: seq<Event>)
    requires Possible(whitelist, s, es)
    decreases |es|
  {
    es != [] ==> (es[0].Read? ==> s.pending == map[]) && Serial(whitelist, Step(whitelist, s, es[0]), es[1..])
  }

  lemma {:induction false} SerialIsAgreeing(whitelist: seq<string>, s: State, es: seq<Event>)
    requires Possible(whitelist, s, es) && Serial(whitelist, s, es)
    ensures Agreeing(whitelist, s, es)
    decreases |es|
  {
    if es != [] { SerialIsAgreeing(whitelist, Step(whitelist, s, es[0]), es[1..]); }
  }

  // ---- What agreeing runs keep ----

  /** The row is what its completed persists make of it one after the other. */
  ghost predicate Folded(whitelist: seq<string>, s: State) {
    s.row == Persisted(whitelist, None, s.done)
  }

  ghost predicate WellFormed(whitelist: seq<string>, p: Patch) {
    match p.sighting
    case Missing => p.fields == {MmState} && p.values.mmState == "unavailable"
    case Seen(x) => Allowed(whitelist, x) && x.Extracted() && p.values == x && p.fields != {}
  }

  /** To save the patch now is to persist its sighting now, however stale its copy is. */
  ghost predicate StillDue(whitelist: seq<string>, row: Row, p: Patch) {
    WellFormed(whitelist, p) && Some(Applied(row, p)) == After(whitelist, Some(row), p.sighting)
  }

  ghost predicate RowsExtracted(s: State) {
    (s.row.Some? ==> s.row.value.Extracted()) && GoodHistory(s.done)
  }

  ghost predicate AllDue(whitelist: seq<string>, s: State) {
    forall t :: t in s.pending ==> s.row.Some? && StillDue(whitelist, s.row.value, s.pending[t])
  }

  ghost predicate AllAgree(s: State) {
    forall t, u :: t in s.pending && u in s.pending ==> Agree(s.pending[t], s.pending[u])
  }

  ghost predicate Good(whitelist: seq<string>, s: State) {
    RowsExtracted(s) && Folded(whitelist, s) && AllDue(whitelist, s) && AllAgree(s)
  }

  /** A patch saved at once is the persist of its sighting. */
  lemma FreshIsDue(whitelist: seq<string>, row: Row, s: Sighting)
    requires GoodSighting(s) && (s.Seen? ==> Allowed(whitelist, s.snapshot))
    requires PatchOf(row, s).fields != {}
    ensures StillDue(whitelist, row, PatchOf(row, s))
  {
    if s.Seen? { AppliedIsMerge(row, s.snapshot); }
  }

  /** A field its patch leaves alone does not want the snapshot's value. */
  lemma UntouchedIsAbsorbed(whitelist: seq<string>, row: Row, p: Patch, f: Field)
    requires StillDue(whitelist, row, p) && p.sighting.Seen? && row.Extracted() && f !in p.fields
    ensures !ShouldUpdate(f, row.Get(f), p.values.Get(f))
  {
    AppliedField(row, p, f);
    MergedField(row, p.values, f);
    assert Trimmed(row.Get(f)) && Trimmed(p.values.Get(f));
    FieldAbsorbsItsValue(f, row.Get(f), p.values.Get(f));
  }

  /** What a due patch makes of a field another snapshot has nothing to add to, has that too. */
  lemma SavedStaysAbsorbed(whitelist: seq<string>, row: Row, q: Patch, f: Field, v: string)
    requires StillDue(whitelist, row, q) && row.Extracted() && Trimmed(v)
    requires !ShouldUpdate(f, row.Get(f), v)
    ensures !ShouldUpdate(f, Applied(row, q).Get(f), v)
  {
    assert Trimmed(row.Get(f));
    AppliedField(row, q, f);
    match q.sighting
    case Missing =>
      UnavailableIsSettled();
      WhenLostIsFinal("unavailable", v);
    case Seen(y) =>
      assert Trimmed(y.Get(f));
      MergedField(row, y, f);
      FieldStaysAbsorbed(f, row.Get(f), v, y.Get(f));
  }

  lemma SeenStaysDue(whitelist: seq<string>, row: Row, p: Patch, q: Patch)
    requires row.Extracted() && StillDue(whitelist, row, p) && StillDue(whitelist, row, q) && Agree(q, p)
    requires p.sighting.Seen?
    ensures StillDue(whitelist, Applied(row, q), p)
  {
    var row', x := Applied(row, q), p.values;
    forall f ensures Applied(row', p).Get(f) == Merge(row', x).Get(f) {
      AppliedField(row, q, f);
      AppliedField(row', p, f);
      MergedField(row', x, f);
      if f !in p.fields {
        assert Trimmed(x.Get(f));
        UntouchedIsAbsorbed(whitelist, row, p, f);
        SavedStaysAbsorbed(whitelist, row, q, f, x.Get(f));
      } else if f !in q.fields {
        AppliedField(row, p, f);
        MergedField(row, x, f);
      }
    }
    SameFields(Applied(row', p), Merge(row', x));
  }

  lemma LossIsDueIff(whitelist: seq<string>, row: Row, p: Patch)
    requires WellFormed(whitelist, p) && p.sighting == Missing
    ensures StillDue(whitelist, row, p) <==> WhenLost(row.mmState) == "unavailable"
  {
    assert Applied(row, p) == row.(mmState := "unavailable");
  }

  lemma MissingStaysDue(whitelist: seq<string>, row: Row, p: Patch, q: Patch)
    requires StillDue(whitelist, row, p) && StillDue(whitelist, row, q) && Agree(q, p) && p.sighting == Missing
    ensures StillDue(whitelist, Applied(row, q), p)
  {
    LossIsDueIff(whitelist, row, p);
    LossIsDueIff(whitelist, Applied(row, q), p);
    assert Applied(row, q).mmState == Pick(row, q, MmState);
    if MmState in q.fields { assert q.values.Get(MmState) == p.values.Get(MmState) == "unavailable"; }
  }

  /** Saving one of two agreeing patches leaves the other due. */
  lemma StaysDue(whitelist: seq<string>, row: Row, p: Patch, q: Patch)
    requires row.Extracted() && StillDue(whitelist, row, p) && StillDue(whitelist, row, q) && Agree(q, p)
    ensures StillDue(whitelist, Applied(row, q), p)
  {
    if p.sighting == Missing { MissingStaysDue(whitelist, row, p, q); } else { SeenStaysDue(whitelist, row, p, q); }
  }

  lemma AfterExtracted(whitelist: seq<string>, row: Option<Row>, s: Sighting)
    requires GoodSighting(s) && (row.Some? ==> row.value.Extracted())
    ensures var r := After(whitelist, row, s); r.Some? ==> r.value.Extracted()
  {
    UnavailableIsSettled();
    if row.Some? {
      var r := After(whitelist, row, s).value;
      if s.Seen? { MergeExtracted(row.value, s.snapshot); }
      if s.Missing? {
        forall f ensures Trimmed(r.Get(f)) { assert Trimmed(row.value.Get(f)); }
      }
    }
  }

  lemma GoodHistorySnoc(h: seq<Sighting>, s: Sighting)
    requires GoodHistory(h) && GoodSighting(s)
    ensures GoodHistory(h + [s])
  {
    assert forall i :: 0 <= i < |h + [s]| ==> (h + [s])[i] == if i < |h| then h[i] else s;
  }

  /** A read that leaves nothing to save is a whole persist. */
  lemma ReadThrough(whitelist: seq<string>, s: State, e: Event)
    requires Enabled(s, e) && e.Read? && PatchAfter(whitelist, s, e.sighting) == None
    ensures var s' := Step(whitelist, s, e);
            && s'.pending == s.pending && s'.done == s.done + [e.sighting]
            && s'.row == After(whitelist, s.row, e.sighting)
            && (s.row.Some? ==> s'.row == s.row)
  {
    if s.row.Some? && e.sighting.Seen? && Allowed(whitelist, e.sighting.snapshot) {
      NothingPatched(s.row.value, e.sighting.snapshot);
    }
  }

  lemma GoodAfterRead(whitelist: seq<string>, s: State, e: Event)
    requires Good(whitelist, s) && Enabled(s, e) && e.Read? && AgreeingEvent(whitelist, s, e)
    ensures Good(whitelist, Step(whitelist, s, e))
  {
    if PatchAfter(whitelist, s, e.sighting).Some? {
      FreshIsDue(whitelist, s.row.value, e.sighting);
    } else {
      ReadThrough(whitelist, s, e);
      PersistedOneMore(whitelist, s.done, e.sighting);
      AfterExtracted(whitelist, s.row, e.sighting);
      GoodHistorySnoc(s.done, e.sighting);
    }
  }

  lemma GoodAfterSave(whitelist: seq<string>, s: State, t: nat)
    requires Good(whitelist, s) && Enabled(s, Save(t))
    ensures Good(whitelist, Step(whitelist, s, Save(t)))
  {
    var p := s.pending[t];
    PersistedOneMore(whitelist, s.done, p.sighting);
    AfterExtracted(whitelist, s.row, p.sighting);
    GoodHistorySnoc(s.done, p.sighting);
    forall u | u in s.pending && u != t ensures StillDue(whitelist, Applied(s.row.value, p), s.pending[u]) {
      StaysDue(whitelist, s.row.value, s.pending[u], p);
    }
  }

  lemma GoodStep(whitelist: seq<string>, s: State, e: Event)
    requires Good(whitelist, s) && Enabled(s, e) && AgreeingEvent(whitelist, s, e)
    ensures Good(whitelist, Step(whitelist, s, e))
  {
    match e
    case Read(_, _) => GoodAfterRead(whitelist, s, e);
    case Save(t) => GoodAfterSave(whitelist, s, t);
    case Drop(_) =>
  }

  lemma {:induction false} GoodRun(whitelist: seq<string>, s: State, es: seq<Event>)
    requires Good(whitelist, s) && Possible(whitelist, s, es) && Agreeing(whitelist, s, es)
    ensures Good(whitelist, Run(whitelist, s, es))
    decreases |es|
  {
    if es != [] {
      GoodStep(whitelist, s, es[0]);
      GoodRun(whitelist, Step(whitelist, s, es[0]), es[1..]);
    }
  }

  /** In agreeing runs, in particular in runs without overlap, the row is the fold of its
      completed persists, and so their closed form. */
  lemma {:induction false} AgreeingRunsFold(whitelist: seq<string>, es: seq<Event>)
    requires Possible(whitelist, Init, es) && Agreeing(whitelist, Init, es)
    ensures var s := Run(whitelist, Init, es);
            && s.row == Persisted(whitelist, None, s.done)
            && ClosedHistory(whitelist, s.done, s.row)
  {
    GoodRun(whitelist, Init, es);
    HistoryIsTheClosedForm(whitelist, Run(whitelist, Init, es).done);
  }

  /** And there a snapshot that is already in the row is absorbed: nothing is left to save. */
  lemma {:induction false} RepeatIsSilent(whitelist: seq<string>, es: seq<Event>, i: nat)
    requires Possible(whitelist, Init, es) && Agreeing(whitelist, Init, es)
    requires var s := Run(whitelist, Init, es);
             i < |s.done| && s.done[i].Seen? && Allowed(whitelist, s.done[i].snapshot)
    ensures var s := Run(whitelist, Init, es); s.row.Some? && PatchAfter(whitelist, s, s.done[i]) == None
  {
    GoodRun(whitelist, Init, es);
    SeenIsAbsorbed(whitelist, Run(whitelist, Init, es).done, i);
  }

  // ---- The regime is exact ----

  ghost predicate AlwaysFolds(whitelist: seq<string>, s: State) {
    forall es | Possible(whitelist, s, es) && Agreeing(whitelist, s, es) :: Folded(whitelist, Run(whitelist, s, es))
  }

  /** Two due patches that disagree cannot both be saved in either order and leave the fold. */
  lemma DisagreementShows(whitelist: seq<string>, row: Row, p: Patch, q: Patch, f: Field)
    requires row.Extracted() && StillDue(whitelist, row, p) && StillDue(whitelist, row, q)
    requires f in p.fields && f in q.fields && p.values.Get(f) != q.values.Get(f)
    ensures StillDue(whitelist, Applied(row, p), q) ==> !StillDue(whitelist, Applied(row, q), p)
  {
    var a, b := Applied(row, p), Applied(row, q);
    AppliedField(row, p, f);
    AppliedField(row, q, f);
    AppliedField(a, q, f);
    AppliedField(b, p, f);
    UnavailableIsSettled();
    if p.sighting.Seen? && q.sighting.Seen? {
      MergedField(a, q.values, f);
      MergedField(b, p.values, f);
      assert Trimmed(p.values.Get(f)) && Trimmed(q.values.Get(f));
      SeenDisagree(f, p.values.Get(f), q.values.Get(f));
    } else if p.sighting.Seen? {
      WhenLostIsFinal("unavailable", p.values.mmState);
      MergedField(b, p.values, f);
    } else if q.sighting.Seen? {
      WhenLostIsFinal("unavailable", q.values.mmState);
      MergedField(a, q.values, f);
    }
  }

  /** No two different values improve on each other. */
  lemma SeenDisagree(f: Field, v: string, w: string)
    requires Trimmed(v) && Trimmed(w)
    ensures !(ShouldUpdate(f, v, w) && ShouldUpdate(f, w, v))
  {
    if ShouldUpdate(f, v, w) && ShouldUpdate(f, w, v) {
      UpdateMakesProgress(f, v, w);
      UpdateMakesProgress(f, w, v);
    }
  }

  lemma SavedInTurn(whitelist: seq<string>, s: State, t: nat, u: nat)
    requires Folded(whitelist, s) && s.row.Some? && t in s.pending && u in s.pending && t != u
    requires StillDue(whitelist, s.row.value, s.pending[t]) && WellFormed(whitelist, s.pending[u])
    requires !StillDue(whitelist, Applied(s.row.value, s.pending[t]), s.pending[u])
    ensures !AlwaysFolds(whitelist, s)
  {
    var s1 := Step(whitelist, s, Save(t));
    var s2 := Step(whitelist, s1, Save(u));
    PersistedOneMore(whitelist, s.done, s.pending[t].sighting);
    PersistedOneMore(whitelist, s1.done, s.pending[u].sighting);
    assert !Folded(whitelist, s2);
    RunCons(whitelist, s1, Save(u), []);
    RunCons(whitelist, s, Save(t), [Save(u)]);
    var es := [Save(t)] + [Save(u)];
    assert es[1..] == [Save(u)] && [Save(u)][1..] == [];
    assert Agreeing(whitelist, s1, [Save(u)]);
    assert Agreeing(whitelist, s, es) && Run(whitelist, s, es) == s2;
  }

  lemma AgreeingStepFolds(whitelist: seq<string>, s: State, e: Event)
    requires Good(whitelist, s) && Enabled(s, e) && AgreeingEvent(whitelist, s, e)
    ensures AlwaysFolds(whitelist, Step(whitelist, s, e))
  {
    var s1 := Step(whitelist, s, e);
    GoodStep(whitelist, s, e);
    forall es | Possible(whitelist, s1, es) && Agreeing(whitelist, s1, es)
      ensures Folded(whitelist, Run(whitelist, s1, es))
    {
      GoodRun(whitelist, s1, es);
    }
  }

  lemma TwoPendingDiverge(whitelist: seq<string>, s: State, t: nat, u: nat)
    requires Folded(whitelist, s) && AllDue(whitelist, s) && t in s.pending && u in s.pending && t != u
    requires s.row.Some? && s.row.value.Extracted() && !Agree(s.pending[t], s.pending[u])
    ensures !AlwaysFolds(whitelist, s)
  {
    var p, q := s.pending[t], s.pending[u];
    var f :| f in p.fields && f in q.fields && p.values.Get(f) != q.values.Get(f);
    DisagreementShows(whitelist, s.row.value, p, q, f);
    if StillDue(whitelist, Applied(s.row.value, p), q) {
      SavedInTurn(whitelist, s, u, t);
    } else {
      SavedInTurn(whitelist, s, t, u);
    }
  }

  /** Once read, a patch is pending beside the others. */
  lemma ReadLeavesDue(whitelist: seq<string>, s: State, e: Event)
    requires Good(whitelist, s) && Enabled(s, e) && e.Read? && PatchAfter(whitelist, s, e.sighting).Some?
    ensures var s' := Step(whitelist, s, e);
            && Folded(whitelist, s') && AllDue(whitelist, s') && s'.row == s.row
            && s'.pending == s.pending[e.thread := PatchAfter(whitelist, s, e.sighting).value]
  {
    FreshIsDue(whitelist, s.row.value, e.sighting);
  }

  lemma DisagreeingReadDiverges(whitelist: seq<string>, s: State, e: Event)
    requires Good(whitelist, s) && Enabled(s, e) && !AgreeingEvent(whitelist, s, e)
    ensures !AlwaysFolds(whitelist, Step(whitelist, s, e))
  {
    var t :| t in s.pending && !Agree(s.pending[t], PatchAfter(whitelist, s, e.sighting).value);
    ReadLeavesDue(whitelist, s, e);
    TwoPendingDiverge(whitelist, Step(whitelist, s, e), t, e.thread);
  }

  /** A step leaves every agreeing continuation at the fold iff it is agreeing itself: a read
      whose patch disagrees with one still to be saved lets the older value win. */
  lemma FoldsIffAgreeing(whitelist: seq<string>, s: State, e: Event)
    requires Good(whitelist, s) && Enabled(s, e)
    ensures AlwaysFolds(whitelist, Step(whitelist, s, e)) <==> AgreeingEvent(whitelist, s, e)
  {
    if AgreeingEvent(whitelist, s, e) {
      AgreeingStepFolds(whitelist, s, e);
    } else {
      DisagreeingReadDiverges(whitelist, s, e);
    }
  }

  // ---- How often the row can change ----

  ghost predicate ChangesLogged(whitelist: seq<string>, s: State) {
    s.changes == StateChanges(whitelist, s.done)
  }

  lemma StateChangesOneMore(whitelist: seq<string>, h: seq<Sighting>, s: Sighting)
    ensures var before := Persisted(whitelist, None, h);
            var after := After(whitelist, before, s);
            && StateChanges(whitelist, h + [s]) == StateChanges(whitelist, h)
               + (if before.Some? && after.Some? then StateChanged(before.value, after.value) else 0)
            && Saves(whitelist, h + [s])
               == Saves(whitelist, h) + if WrittenBy(whitelist, before, s) != NoSave then 1 else 0
  {
    assert (h + [s])[..|h|] == h;
    PersistedOneMore(whitelist, h, s);
  }

  lemma ChangesLoggedStep(whitelist: seq<string>, s: State, e: Event)
    requires Good(whitelist, s) && ChangesLogged(whitelist, s) && Enabled(s, e)
    ensures ChangesLogged(whitelist, Step(whitelist, s, e))
  {
    if e.Read? && PatchAfter(whitelist, s, e.sighting) == None {
      ReadThrough(whitelist, s, e);
      StateChangesOneMore(whitelist, s.done, e.sighting);
    } else if e.Save? {
      StateChangesOneMore(whitelist, s.done, s.pending[e.thread].sighting);
    }
  }

  lemma {:induction false} ChangesLoggedRun(whitelist: seq<string>, s: State, es: seq<Event>)
    requires Good(whitelist, s) && ChangesLogged(whitelist, s)
    requires Possible(whitelist, s, es) && Agreeing(whitelist, s, es)
    ensures Good(whitelist, Run(whitelist, s, es)) && ChangesLogged(whitelist, Run(whitelist, s, es))
    decreases |es|
  {
    if es != [] {
      GoodStep(whitelist, s, es[0]);
      ChangesLoggedStep(whitelist, s, es[0]);
      ChangesLoggedRun(whitelist, Step(whitelist, s, es[0]), es[1..]);
    }
  }

  /** In agreeing runs the stored state changes at most three times. */
  lemma {:induction false} AtMostThreeChanges(whitelist: seq<string>, es: seq<Event>)
    requires Possible(whitelist, Init, es) && Agreeing(whitelist, Init, es)
    ensures Run(whitelist, Init, es).changes <= 3
  {
    var s := Run(whitelist, Init, es);
    ChangesLoggedRun(whitelist, Init, es);
    ChangesAreBounded(whitelist, s.done);
  }

  /** Without overlap the one pending patch is the one a read would give now. */
  ghost predicate OneFresh(whitelist: seq<string>, s: State) {
    && (forall t, u :: t in s.pending && u in s.pending ==> t == u)
    && (forall t :: t in s.pending ==>
          s.row.Some? && WrittenBy(whitelist, s.row, s.pending[t].sighting) != NoSave)
    && s.saves == Saves(whitelist, s.done)
  }

  lemma OneFreshStep(whitelist: seq<string>, s: State, e: Event)
    requires Good(whitelist, s) && OneFresh(whitelist, s) && Enabled(s, e) && (e.Read? ==> s.pending == map[])
    ensures OneFresh(whitelist, Step(whitelist, s, e))
  {
    if e.Read? && PatchAfter(whitelist, s, e.sighting) == None {
      ReadThrough(whitelist, s, e);
      StateChangesOneMore(whitelist, s.done, e.sighting);
    } else if e.Save? {
      StateChangesOneMore(whitelist, s.done, s.pending[e.thread].sighting);
    }
  }

  lemma {:induction false} OneFreshRun(whitelist: seq<string>, s: State, es: seq<Event>)
    requires Good(whitelist, s) && OneFresh(whitelist, s)
    requires Possible(whitelist, s, es) && Serial(whitelist, s, es)
    ensures Good(whitelist, Run(whitelist, s, es)) && OneFresh(whitelist, Run(whitelist, s, es))
    decreases |es|
  {
    if es != [] {
      GoodStep(whitelist, s, es[0]);
      OneFreshStep(whitelist, s, es[0]);
      OneFreshRun(whitelist, Step(whitelist, s, es[0]), es[1..]);
    }
  }

  /** In runs without overlap the row is saved at most 7 times plus once per character of its text. */
  lemma {:induction false} SavesAreBounded(whitelist: seq<string>, es: seq<Event>)
    requires Possible(whitelist, Init, es) && Serial(whitelist, Init, es)
    requires Run(whitelist, Init, es).row.Some?
    ensures var s := Run(whitelist, Init, es); s.saves <= 7 + |s.row.value.text|
  {
    var s := Run(whitelist, Init, es);
    OneFreshRun(whitelist, Init, es);
    LifetimeBounds(whitelist, s.done);
  }

  // ---- One persist by itself ----

  /** Uninterrupted, a persist does to the row what `After` says. */
  lemma PersistIsReadThenSave(whitelist: seq<string>, s: State, t: nat, sighting: Sighting)
    requires Good(whitelist, s) && s.pending == map[] && GoodSighting(sighting)
    ensures var s1 := Step(whitelist, s, Read(t, sighting));
            var s2 := if t in s1.pending then Step(whitelist, s1, Save(t)) else s1;
            s2.pending == map[] && s2.row == After(whitelist, s.row, sighting) && s2.done == s.done + [sighting]
  {
    if PatchAfter(whitelist, s, sighting).Some? {
      FreshIsDue(whitelist, s.row.value, sighting);
      assert Step(whitelist, s, Read(t, sighting)).pending - {t} == map[];
    } else {
      ReadThrough(whitelist, s, Read(t, sighting));
    }
  }

  // ---- What overlap can do ----

  lemma TwoSteps(whitelist: seq<string>, s: State, e: Event, f: Event) returns (es: seq<Event>)
    requires Enabled(s, e) && Enabled(Step(whitelist, s, e), f)
    ensures Possible(whitelist, s, es) && Run(whitelist, s, es) == Step(whitelist, Step(whitelist, s, e), f)
  {
    RunCons(whitelist, Step(whitelist, s, e), f, []);
    RunCons(whitelist, s, e, [f]);
    assert [f] + [] == [f];
    es := [e] + [f];
  }

  lemma BothRead(whitelist: seq<string>, s: State, a: Sighting, b: Sighting) returns (es: seq<Event>)
    requires s.pending == map[] && GoodSighting(a) && GoodSighting(b)
    requires PatchAfter(whitelist, s, a).Some? && PatchAfter(whitelist, s, b).Some?
    ensures Possible(whitelist, s, es)
    ensures Run(whitelist, s, es)
         == s.(pending := map[0 := PatchAfter(whitelist, s, a).value, 1 := PatchAfter(whitelist, s, b).value])
  {
    es := TwoSteps(whitelist, s, Read(0, a), Read(1, b));
  }

  lemma BothSave(whitelist: seq<string>, s: State, p: Patch, q: Patch) returns (es: seq<Event>)
    requires s.row.Some? && s.pending == map[0 := p, 1 := q]
    ensures Possible(whitelist, s, es)
    ensures var between := Applied(s.row.value, q);
            Run(whitelist, s, es) == State(Some(Applied(between, p)), map[], s.done + [q.sighting, p.sighting],
              s.changes + StateChanged(s.row.value, between) + StateChanged(between, Applied(between, p)), s.saves + 2)
  {
    es := TwoSteps(whitelist, s, Save(1), Save(0));
    assert s.pending - {1} - {0} == map[];
    assert s.done + [q.sighting] + [p.sighting] == s.done + [q.sighting, p.sighting];
  }

  /** Two persists read the same row; the one that read last saves first. */
  lemma Overtaken(whitelist: seq<string>, s: State, a: Sighting, b: Sighting) returns (es: seq<Event>)
    requires s.pending == map[] && GoodSighting(a) && GoodSighting(b)
    requires PatchAfter(whitelist, s, a).Some? && PatchAfter(whitelist, s, b).Some?
    ensures Possible(whitelist, s, es)
    ensures var p, q := PatchAfter(whitelist, s, a).value, PatchAfter(whitelist, s, b).value;
            var between := Applied(s.row.value, q);
            Run(whitelist, s, es) == State(Some(Applied(between, p)), map[], s.done + [b, a],
              s.changes + StateChanged(s.row.value, between) + StateChanged(between, Applied(between, p)), s.saves + 2)
  {
    es := BothRead(whitelist, s, a, b);
    var p, q := PatchAfter(whitelist, s, a).value, PatchAfter(whitelist, s, b).value;
    var saves := BothSave(whitelist, Run(whitelist, s, es), p, q);
    RunAppend(whitelist, s, es, saves);
    es := es + saves;
  }

  lemma TextIsPatched(r: Row, x: Row)
    requires r.Extracted() && x.Extracted() && |r.text| < |x.text|
    ensures SmsText in PatchOf(r, Seen(x)).fields
    ensures forall row :: Applied(row, PatchOf(r, Seen(x))).text == x.text
  {
    TrimmedFields(r);
    TrimmedFields(x);
    FieldsAreAll(SmsText);
    forall row ensures Applied(row, PatchOf(r, Seen(x))).text == x.text {
      AppliedField(row, PatchOf(r, Seen(x)), SmsText);
    }
  }

  /** Two persists read the same row, and the one with the shorter text saves last: the longer
      text, although it was stored, is gone. */
  lemma ShorterTextCanWin(whitelist: seq<string>, s: State, x: Row, y: Row) returns (es: seq<Event>)
    requires s.row.Some? && s.row.value.Extracted() && s.pending == map[] && x.Extracted() && y.Extracted()
    requires Allowed(whitelist, x) && Allowed(whitelist, y) && |s.row.value.text| < |x.text| < |y.text|
    ensures Possible(whitelist, s, es)
    ensures var s' := Run(whitelist, s, es);
            s'.row.Some? && s'.row.value.text == x.text && s'.done == s.done + [Seen(y), Seen(x)]
  {
    TextIsPatched(s.row.value, x);
    TextIsPatched(s.row.value, y);
    es := Overtaken(whitelist, s, Seen(x), Seen(y));
  }

  /** And a patch worked out before a loss can be saved after it: the row is back. */
  lemma LossCanBeUndone(whitelist: seq<string>, s: State, x: Row) returns (es: seq<Event>)
    requires s.row.Some? && s.pending == map[] && x.Extracted() && Allowed(whitelist, x)
    requires !Unavailable(s.row.value.mmState) && ShouldUpdate(MmState, s.row.value.mmState, x.mmState)
    ensures Possible(whitelist, s, es)
    ensures var s' := Run(whitelist, s, es);
            s'.row.Some? && s'.row.value.mmState == x.mmState && s'.done == s.done + [Missing, Seen(x)]
  {
    FieldsAreAll(MmState);
    assert MmState in PatchOf(s.row.value, Seen(x)).fields && MmState in PatchOf(s.row.value, Missing).fields;
    es := Overtaken(whitelist, s, Seen(x), Missing);
  }

  function OnlyState(state: string): Row {
    Row("", "", state, "", "")
  }

  lemma OnlyStateIsPatched(v: string, w: string)
    requires Trimmed(v) && Trimmed(w) && ShouldUpdate(MmState, v, w)
    ensures OnlyState(w).Extracted() && PatchOf(OnlyState(v), Seen(OnlyState(w))).fields == {MmState}
    ensures Applied(OnlyState(v), PatchOf(OnlyState(v), Seen(OnlyState(w)))) == OnlyState(w)
  {
    forall f ensures Trimmed(OnlyState(w).Get(f)) {}
    forall f ensures f in Patched(OnlyState(v), OnlyState(w)) <==> f == MmState {
      FieldsAreAll(f);
      StripOfTrimmed("");
    }
  }

  /** The state of a row without other content, no persist pending. */
  ghost predicate At(s: State, state: string, changes: nat) {
    s.row == Some(OnlyState(state)) && s.pending == map[] && s.changes == changes
  }

  lemma OneChange(s: State, v: string, w: string, n: nat) returns (es: seq<Event>)
    requires At(s, v, n) && v != w && Trimmed(v) && Trimmed(w) && ShouldUpdate(MmState, v, w)
    ensures Possible([], s, es) && At(Run([], s, es), w, n + 1)
  {
    OnlyStateIsPatched(v, w);
    var read := Read(0, Seen(OnlyState(w)));
    var s1 := Step([], s, read);
    RunCons([], s1, Save(0), []);
    RunCons([], s, read, [Save(0)]);
    es := [read] + [Save(0)];
  }

  lemma OnlyStateIsRead(s: State, v: string, w: string, n: nat)
    requires At(s, v, n) && Trimmed(v) && Trimmed(w) && ShouldUpdate(MmState, v, w)
    ensures GoodSighting(Seen(OnlyState(w)))
    ensures PatchAfter([], s, Seen(OnlyState(w))).Some?
    ensures forall u :: Applied(OnlyState(u), PatchAfter([], s, Seen(OnlyState(w))).value) == OnlyState(w)
  {
    OnlyStateIsPatched(v, w);
  }

  /** '' becomes settled and then stale again. */
  lemma TwoChanges(s: State, stale: string, settled: string) returns (es: seq<Event>)
    requires At(s, "", 0) && Trimmed(stale) && Trimmed(settled) && stale != "" && stale != settled
    requires ShouldUpdate(MmState, "", stale) && ShouldUpdate(MmState, "", settled) && settled != ""
    ensures Possible([], s, es) && At(Run([], s, es), stale, 2)
  {
    OnlyStateIsRead(s, "", stale, 0);
    OnlyStateIsRead(s, "", settled, 0);
    es := Overtaken([], s, Seen(OnlyState(stale)), Seen(OnlyState(settled)));
  }

  lemma LossChange(s: State, v: string, n: nat) returns (es: seq<Event>)
    requires At(s, v, n) && !Unavailable(v)
    ensures Possible([], s, es) && At(Run([], s, es), "unavailable", n + 1)
  {
    UnavailableIsSettled();
    var s1 := Step([], s, Read(0, Missing));
    RunCons([], s1, Save(0), []);
    RunCons([], s, Read(0, Missing), [Save(0)]);
    es := [Read(0, Missing)] + [Save(0)];
  }

  lemma {:induction false} RunAppend(whitelist: seq<string>, s: State, es: seq<Event>, fs: seq<Event>)
    requires Possible(whitelist, s, es) && Possible(whitelist, Run(whitelist, s, es), fs)
    ensures Possible(whitelist, s, es + fs)
    ensures Run(whitelist, s, es + fs) == Run(whitelist, Run(whitelist, s, es), fs)
    decreases |es|
  {
    if es == [] {
      assert es + fs == fs;
    } else {
      RunAppend(whitelist, Step(whitelist, s, es[0]), es[1..], fs);
      assert (es + fs)[1..] == es[1..] + fs;
    }
  }

  /** The bound of three is broken too: '', settled, stale, settled, unavailable. */
  lemma FourChangesCanHappen(stale: string, settled: string) returns (es: seq<Event>)
    requires Trimmed(stale) && Trimmed(settled) && stale != "" && StaleState(stale)
    requires !StaleState(settled) && !Unavailable(settled)
    ensures Possible([], Init, es) && Run([], Init, es).changes == 4
  {
    NormalizedOfTrimmed(stale);
    NormalizedOfTrimmed(settled);
    NormalizedOfTrimmed("");
    var create := Read(0, Seen(OnlyState("")));
    forall f ensures Trimmed(OnlyState("").Get(f)) {}
    RunCons([], Init, create, []);
    es := [create];
    var more := TwoChanges(Run([], Init, es), stale, settled);
    RunAppend([], Init, es, more);
    es := es + more;
    more := OneChange(Run([], Init, es), stale, settled, 2);
    RunAppend([], Init, es, more);
    es := es + more;
    more := LossChange(Run([], Init, es), settled, 3);
    RunAppend([], Init, es, more);
    es := es + more;
  }
}
