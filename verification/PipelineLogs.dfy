/** What the pipeline decides about a path, told from the messages that were seen: who is stored,
    turned away, reported or refused. */
module PipelineLogs {
  import opened Common
  import opened Pipeline
  import Inbound
  import DL = DeadLetter

  /** The step is a persist of the path that finds `sighting`, and the database does not fail it. */
  ghost predicate Persists(s: State, e: Event, path: string, sighting: Inbound.Sighting) {
    match e
    case Persist(w, found, raises) => w in s.tasks && s.tasks[w].path == path && found == sighting && !raises
    case Refresh(p, found) => p == path && found == sighting
    case BatchPersist(found, raises, _) =>
      s.dlq.todo != [] && s.dlq.todo[0].path == path && found == sighting && !raises
    case _ => false
  }

  /** The step persists a snapshot of the path whose sender is not on the whitelist. */
  ghost predicate RejectsSender(cfg: Config, s: State, e: Event, path: string) {
    exists x :: Persists(s, e, path, Inbound.Seen(x)) && cfg.whitelist != [] && x.fromNumber !in cfg.whitelist
  }

  /** It persists one whose sender is on it, or there is no whitelist. */
  ghost predicate AcceptsSender(cfg: Config, s: State, e: Event, path: string) {
    exists x :: Persists(s, e, path, Inbound.Seen(x)) && (cfg.whitelist == [] || x.fromNumber in cfg.whitelist)
  }

  ghost predicate IsPersist(e: Event) {
    e.Persist? || e.Refresh? || e.BatchPersist?
  }

  lemma PersistRejectsIff(cfg: Config, s: State, e: Event, path: string)
    requires Enabled(cfg, s, e) && IsPersist(e)
    ensures path in Step(cfg, s, e).rejected <==> path in s.rejected || RejectsSender(cfg, s, e, path)
  {
    assert forall x :: e.sighting == Inbound.Seen(x) ==> e.sighting.snapshot == x;
  }

  lemma PersistStoresIff(cfg: Config, s: State, e: Event, path: string)
    requires Enabled(cfg, s, e) && RowsVouched(s) && IsPersist(e)
    ensures path in Step(cfg, s, e).stored <==> path in s.stored || AcceptsSender(cfg, s, e, path)
  {
    assert forall x :: e.sighting == Inbound.Seen(x) ==> e.sighting.snapshot == x;
  }

  lemma PersistAddsARowIff(cfg: Config, s: State, e: Event, path: string)
    requires Enabled(cfg, s, e) && IsPersist(e)
    ensures path in Step(cfg, s, e).rows <==> path in s.rows || AcceptsSender(cfg, s, e, path)
  {
    assert forall x :: e.sighting == Inbound.Seen(x) ==> e.sighting.snapshot == x;
  }

  lemma PersistDecides(cfg: Config, s: State, e: Event, path: string)
    requires Enabled(cfg, s, e) && RowsVouched(s) && IsPersist(e)
    ensures path in Step(cfg, s, e).rejected <==> path in s.rejected || RejectsSender(cfg, s, e, path)
    ensures path in Step(cfg, s, e).stored <==> path in s.stored || AcceptsSender(cfg, s, e, path)
    ensures path in Step(cfg, s, e).rows <==> path in s.rows || AcceptsSender(cfg, s, e, path)
  {
    PersistRejectsIff(cfg, s, e, path);
    PersistStoresIff(cfg, s, e, path);
    PersistAddsARowIff(cfg, s, e, path);
  }

  lemma OthersDecideNothing(cfg: Config, s: State, e: Event, path: string)
    requires Enabled(cfg, s, e) && !IsPersist(e)
    ensures Step(cfg, s, e).rejected == s.rejected && Step(cfg, s, e).stored == s.stored
    ensures Step(cfg, s, e).rows == if e.DeleteRow? then s.rows - {e.path} else s.rows
    ensures !RejectsSender(cfg, s, e, path) && !AcceptsSender(cfg, s, e, path)
  {
  }

  /** A path has a row after a step iff the step accepted a snapshot of it, or it had one and the
      step did not delete it. */
  lemma HasARowIff(cfg: Config, s: State, e: Event, path: string)
    requires Enabled(cfg, s, e) && RowsVouched(s)
    ensures path in Step(cfg, s, e).rows <==>
            AcceptsSender(cfg, s, e, path) || (path in s.rows && e != DeleteRow(path))
  {
    if IsPersist(e) {
      PersistDecides(cfg, s, e, path);
    } else {
      OthersDecideNothing(cfg, s, e, path);
    }
  }

  lemma LogsDecided(cfg: Config, s: State, e: Event, path: string)
    requires Enabled(cfg, s, e) && RowsVouched(s)
    ensures path in Step(cfg, s, e).rejected <==> path in s.rejected || RejectsSender(cfg, s, e, path)
    ensures path in Step(cfg, s, e).stored <==> path in s.stored || AcceptsSender(cfg, s, e, path)
    ensures RowsVouched(Step(cfg, s, e))
  {
    if IsPersist(e) {
      PersistDecides(cfg, s, e, path);
    } else {
      OthersDecideNothing(cfg, s, e, path);
    }
    forall p | p in Step(cfg, s, e).rows ensures p in Step(cfg, s, e).stored { HasRowWasStored(cfg, s, e, p); }
  }

  lemma HasRowWasStored(cfg: Config, s: State, e: Event, path: string)
    requires Enabled(cfg, s, e) && RowsVouched(s) && path in Step(cfg, s, e).rows
    ensures path in Step(cfg, s, e).stored
  {
    if IsPersist(e) {
      PersistDecides(cfg, s, e, path);
    } else {
      OthersDecideNothing(cfg, s, e, path);
    }
  }

  ghost predicate SomeoneRejected(cfg: Config, s: State, es: seq<Event>, path: string)
    requires Possible(cfg, s, es)
    decreases |es|
  {
    es != [] && (RejectsSender(cfg, s, es[0], path) || SomeoneRejected(cfg, Step(cfg, s, es[0]), es[1..], path))
  }

  ghost predicate SomeoneAccepted(cfg: Config, s: State, es: seq<Event>, path: string)
    requires Possible(cfg, s, es)
    decreases |es|
  {
    es != [] && (AcceptsSender(cfg, s, es[0], path) || SomeoneAccepted(cfg, Step(cfg, s, es[0]), es[1..], path))
  }

  lemma {:induction false} DecidedInRun(cfg: Config, s: State, es: seq<Event>, path: string)
    requires RowsVouched(s) && Possible(cfg, s, es)
    ensures path in Run(cfg, s, es).rejected <==> path in s.rejected || SomeoneRejected(cfg, s, es, path)
    ensures path in Run(cfg, s, es).stored <==> path in s.stored || SomeoneAccepted(cfg, s, es, path)
    decreases |es|
  {
    if es != [] {
      LogsDecided(cfg, s, es[0], path);
      DecidedInRun(cfg, Step(cfg, s, es[0]), es[1..], path);
    }
  }

  /** In every run a path counts as rejected iff a snapshot of it came from a sender that is not
      on the whitelist, and as stored iff one came from a sender that is, or there is no whitelist. */
  lemma {:induction false} TheWhitelistDecides(cfg: Config, es: seq<Event>, path: string)
    requires Possible(cfg, Init, es)
    ensures path in Run(cfg, Init, es).rejected <==> SomeoneRejected(cfg, Init, es, path)
    ensures path in Run(cfg, Init, es).stored <==> SomeoneAccepted(cfg, Init, es, path)
    ensures cfg.whitelist == [] ==> path !in Run(cfg, Init, es).rejected
  {
    DecidedInRun(cfg, Init, es, path);
    if cfg.whitelist == [] { NobodyRejected(cfg, Init, es, path); }
  }

  lemma {:induction false} NobodyRejected(cfg: Config, s: State, es: seq<Event>, path: string)
    requires cfg.whitelist == [] && Possible(cfg, s, es)
    ensures !SomeoneRejected(cfg, s, es, path)
    decreases |es|
  {
    if es != [] { NobodyRejected(cfg, Step(cfg, s, es[0]), es[1..], path); }
  }

  // ---- The other decisions ----

  /** A hand-in is queued iff the queue is unbounded or has room; otherwise it is about to be reported. */
  lemma HandInIsQueuedIff(cfg: Config, s: State, t: nat, path: string, modem: nat)
    requires Enabled(cfg, s, HandIn(t, path, modem))
    ensures var s' := Step(cfg, s, HandIn(t, path, modem));
            if cfg.maxQueue <= 0 || |s.queue| < cfg.maxQueue
            then s'.queue == s.queue + [Job(s.handIns, path, modem)] && s'.tasks == s.tasks
            else s'.queue == s.queue && t in s'.tasks && s'.tasks[t].Reporting? && s'.tasks[t].path == path
  {
  }

  /** A worker's persist ends in a report iff the database fails it, or the modem has lost the
      message and the path has no row. */
  lemma PersistIsReportedIff(cfg: Config, s: State, w: nat, sighting: Inbound.Sighting, raises: bool)
    requires Enabled(cfg, s, Persist(w, sighting, raises))
    ensures var tasks := Step(cfg, s, Persist(w, sighting, raises)).tasks;
            (w in tasks && tasks[w].Reporting? && tasks[w].path == s.tasks[w].path) <==>
            raises || (sighting.Missing? && s.tasks[w].path !in s.rows)
  {
  }

  /** A report is refused iff there is no dead-letter queue or it is full; otherwise its path is in
      the table. */
  lemma ReportIsRefusedIff(cfg: Config, s: State, w: nat)
    requires Enabled(cfg, s, Report(w))
    ensures var t, s' := s.tasks[w], Step(cfg, s, Report(w));
            if cfg.dlq == None || |s.dlq.rows| >= cfg.dlq.value.maxSize
            then s'.refused == s.refused + {t.path} && s'.dlq == s.dlq
            else s'.refused == s.refused && DL.Present(s'.dlq.rows, t.path)
  {
    if cfg.dlq.Some? && |s.dlq.rows| < cfg.dlq.value.maxSize {
      ReportArrives(cfg.dlq.value, s.dlq, s.tasks[w].path, s.tasks[w].modem, s.tasks[w].error);
    }
  }

  /** The batch processor's persist of its first row: if it fails, the row is charged a retry and
      the batch goes on; otherwise nothing but the removal of the row can come next in the batch. */
  lemma BatchRowIsChargedIff(cfg: Config, s: State, sighting: Inbound.Sighting, raises: bool, error: string)
    requires Enabled(cfg, s, BatchPersist(sighting, raises, error))
    ensures var s', item := Step(cfg, s, BatchPersist(sighting, raises, error)), s.dlq.todo[0];
            if raises || (sighting.Missing? && item.path !in s.rows) then
              && s'.dlq.todo == s.dlq.todo[1..] && s'.rows == s.rows && s'.stored == s.stored
              && (item.id in s.dlq.rows ==>
                    item.id in s'.dlq.rows && s'.dlq.rows[item.id].retries == s.dlq.rows[item.id].retries + 1)
            else
              && s'.dlq == s.dlq && Enabled(cfg, s', BatchRecovered)
              && forall x, r, e :: !Enabled(cfg, s', BatchPersist(x, r, e))
  {
  }
}
