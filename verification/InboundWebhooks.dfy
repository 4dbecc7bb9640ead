/** Which saves of an inbound row schedule its webhook. */
module InboundWebhooks {
  import opened Common
  import opened Text
  import opened Inbound
  import opened InboundHistory

  /** A save the webhook has something to learn from. */
  predicate Material(save: Save) {
    save.Created? || (save.Updated? && save.fields * {SmsText, FromNumber, MmState} != {})
  }

  /** What sighting number `i` of the history saved, and the row afterwards. */
  function SaveAt(whitelist: seq<string>, h: seq<Sighting>, i: nat): Save
    requires i < |h|
  {
    WrittenBy(whitelist, Persisted(whitelist, None, h[..i]), h[i])
  }

  function RowAt(whitelist: seq<string>, h: seq<Sighting>, i: nat): Option<Row>
    requires i < |h|
  {
    Persisted(whitelist, None, h[..i + 1])
  }

  ghost predicate LastMaterial(whitelist: seq<string>, h: seq<Sighting>, i: nat) {
    && i < |h| && Material(SaveAt(whitelist, h, i))
    && forall j: nat :: i < j < |h| ==> !Material(SaveAt(whitelist, h, j))
  }

  predicate SameMessage(a: Row, b: Row) {
    a.text == b.text && a.fromNumber == b.fromNumber && a.mmState == b.mmState
  }

  lemma MaterialIff(fields: set<Field>)
    ensures Material(Updated(fields)) <==> SmsText in fields || FromNumber in fields || MmState in fields
  {
    forall f | f in fields && f in {SmsText, FromNumber, MmState}
      ensures f in fields * {SmsText, FromNumber, MmState} {}
  }

  lemma UnpatchedKeepsMessage(row: Row, x: Row)
    requires SmsText !in Patched(row, x) && FromNumber !in Patched(row, x) && MmState !in Patched(row, x)
    ensures SameMessage(row, Merge(row, x))
  {
    forall f | f !in Patched(row, x) ensures Value(row, x, f) == row.Get(f) { FieldsAreAll(f); }
    assert Value(row, x, SmsText) == row.Get(SmsText) && Value(row, x, FromNumber) == row.Get(FromNumber);
    assert Value(row, x, MmState) == row.Get(MmState);
  }

  /** A save that is not material leaves sender, text and state. */
  lemma ImmaterialKeepsMessage(whitelist: seq<string>, row: Row, s: Sighting)
    requires !Material(WrittenBy(whitelist, Some(row), s))
    ensures var after := After(whitelist, Some(row), s); after.Some? && SameMessage(row, after.value)
  {
    MaterialIff({MmState});
    if s.Seen? && Allowed(whitelist, s.snapshot) {
      MaterialIff(Patched(row, s.snapshot));
      UnpatchedKeepsMessage(row, s.snapshot);
    }
  }

  /** A persist schedules the webhook iff the row is no echo, has a text or a sender, and the
      persist created it or changed its text, sender or state. */
  lemma SchedulesIffTheMessageChanged(whitelist: seq<string>, row: Option<Row>, s: Sighting, echo: bool)
    requires GoodSighting(s) && (row.Some? ==> row.value.Extracted()) && After(whitelist, row, s).Some?
    ensures var r := After(whitelist, row, s).value;
            Schedules(r, echo, WrittenBy(whitelist, row, s)) <==>
              && !echo && (Strip(r.text) != "" || Strip(r.fromNumber) != "")
              && (row == None || row.value.text != r.text || row.value.fromNumber != r.fromNumber
                  || row.value.mmState != r.mmState)
  {
    if row.Some? {
      var written := WrittenBy(whitelist, row, s);
      forall f ensures written.Updated? && f in written.fields <==>
                       After(whitelist, row, s).value.Get(f) != row.value.Get(f)
      {
        WrittenFieldsAreTheChangedOnes(whitelist, row.value, s, f);
      }
      WrittenFieldsAreTheChangedOnes(whitelist, row.value, s, SmsText);
      MessageFields(row.value, After(whitelist, row, s).value);
      if written.Updated? { MaterialIff(written.fields); }
    }
  }

  lemma MessageFields(a: Row, b: Row)
    ensures a.Get(SmsText) == a.text && a.Get(FromNumber) == a.fromNumber && a.Get(MmState) == a.mmState
    ensures b.Get(SmsText) == b.text && b.Get(FromNumber) == b.fromNumber && b.Get(MmState) == b.mmState
  {
  }

  lemma PrefixesOfSnoc(whitelist: seq<string>, h: seq<Sighting>, s: Sighting, i: nat)
    requires i < |h|
    ensures SaveAt(whitelist, h + [s], i) == SaveAt(whitelist, h, i)
    ensures RowAt(whitelist, h + [s], i) == RowAt(whitelist, h, i)
  {
    assert (h + [s])[..i] == h[..i] && (h + [s])[..i + 1] == h[..i + 1];
  }

  lemma LastOfSnoc(whitelist: seq<string>, h: seq<Sighting>, s: Sighting)
    ensures SaveAt(whitelist, h + [s], |h|) == WrittenBy(whitelist, Persisted(whitelist, None, h), s)
    ensures RowAt(whitelist, h + [s], |h|) == Persisted(whitelist, None, h + [s])
  {
    assert (h + [s])[..|h|] == h && (h + [s])[..|h| + 1] == h + [s];
  }

  ghost predicate CarriesMessage(whitelist: seq<string>, h: seq<Sighting>, i: nat) {
    && LastMaterial(whitelist, h, i) && RowAt(whitelist, h, i).Some? && Persisted(whitelist, None, h).Some?
    && SameMessage(RowAt(whitelist, h, i).value, Persisted(whitelist, None, h).value)
  }

  lemma CarriesOneMore(whitelist: seq<string>, h: seq<Sighting>, s: Sighting, i: nat) returns (k: nat)
    requires Persisted(whitelist, None, h + [s]).Some?
    requires Persisted(whitelist, None, h).Some? ==> CarriesMessage(whitelist, h, i)
    ensures CarriesMessage(whitelist, h + [s], k)
  {
    var row := Persisted(whitelist, None, h);
    PersistedOneMore(whitelist, h, s);
    LastOfSnoc(whitelist, h, s);
    if Material(WrittenBy(whitelist, row, s)) {
      k := |h|;
    } else {
      k := i;
      ImmaterialKeepsMessage(whitelist, row.value, s);
      forall j: nat | j < |h| ensures SaveAt(whitelist, h + [s], j) == SaveAt(whitelist, h, j) {
        PrefixesOfSnoc(whitelist, h, s, j);
      }
      PrefixesOfSnoc(whitelist, h, s, i);
    }
  }

  lemma {:induction false} LastMaterialSave(whitelist: seq<string>, h: seq<Sighting>) returns (i: nat)
    requires Persisted(whitelist, None, h).Some?
    ensures CarriesMessage(whitelist, h, i)
    decreases |h|
  {
    var before, s := h[..|h| - 1], h[|h| - 1];
    assert h == before + [s];
    i := 0;
    if Persisted(whitelist, None, before).Some? { i := LastMaterialSave(whitelist, before); }
    i := CarriesOneMore(whitelist, before, s, i);
  }

  /** Whatever the history of a row: its last material save stored the sender, text and state it
      has now; no later save schedules the webhook; and if the row is ready, that save did,
      unless it was the echo of a sent message. */
  lemma LastScheduleCarriesTheMessage(whitelist: seq<string>, h: seq<Sighting>, echo: nat -> bool) returns (i: nat)
    requires var row := Persisted(whitelist, None, h);
             row.Some? && (Strip(row.value.text) != "" || Strip(row.value.fromNumber) != "")
    ensures i < |h| && RowAt(whitelist, h, i).Some?
    ensures SameMessage(RowAt(whitelist, h, i).value, Persisted(whitelist, None, h).value)
    ensures Schedules(RowAt(whitelist, h, i).value, echo(i), SaveAt(whitelist, h, i)) <==> !echo(i)
    ensures forall j: nat :: i < j < |h| && RowAt(whitelist, h, j).Some? ==>
              !Schedules(RowAt(whitelist, h, j).value, echo(j), SaveAt(whitelist, h, j))
  {
    i := LastMaterialSave(whitelist, h);
  }
}
