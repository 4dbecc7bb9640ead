/** What becomes of each single hand-in, also where its path was handed in before. */
module PipelineHandIns {
  import opened Common
  import opened Pipeline
  import Inbound
  import DL = DeadLetter

  // ---- Hand-ins change places ----

  /** Where the hand-ins are. */
  datatype Ledger = Ledger(queue: seq<Job>, tasks: map<nat, Task>, fates: map<nat, Fate>, handIns: nat)

  function LedgerOf(s: State): Ledger {
    Ledger(s.queue, s.tasks, s.fates, s.handIns)
  }

  /** A new hand-in goes into the queue, or to a thread because the queue is full; a worker takes
      one out of the queue; a thread goes on with one; or one gets its fate. */
  datatype Move = ToQueue(job: Job) | ToThread(thread: nat, task: Task) | Take(thread: nat)
                | GoOn(thread: nat, task: Task) | Settle(thread: nat, fate: Fate) | Stay

  ghost predicate CanMove(l: Ledger, m: Move) {
    match m
    case ToQueue(job) => job.id == l.handIns
    case ToThread(t, task) => t !in l.tasks && task.id == l.handIns
    case Take(t) => t !in l.tasks && l.queue != []
    case GoOn(t, task) => t in l.tasks && task.id == l.tasks[t].id
    case Settle(t, _) => t in l.tasks
    case Stay => true
  }

  ghost function Moved(l: Ledger, m: Move): Ledger
    requires CanMove(l, m)
  {
    match m
    case ToQueue(job) => l.(queue := l.queue + [job], handIns := l.handIns + 1)
    case ToThread(t, task) => l.(tasks := l.tasks[t := task], handIns := l.handIns + 1)
    case Take(t) =>
      var j := l.queue[0];
      l.(queue := l.queue[1..], tasks := l.tasks[t := Persisting(j.id, j.path, j.modem)])
    case GoOn(t, task) => l.(tasks := l.tasks[t := task])
    case Settle(t, fate) => l.(tasks := l.tasks - {t}, fates := l.fates[l.tasks[t].id := fate])
    case Stay => l
  }

  ghost function MoveOf(cfg: Config, s: State, e: Event): Move
    requires Enabled(cfg, s, e)
  {
    match e
    case HandIn(t, path, modem) =>
      if Full(cfg, s) then ToThread(t, Reporting(s.handIns, path, modem, "persist queue full"))
      else ToQueue(Job(s.handIns, path, modem))
    case Get(w) => Take(w)
    case Persist(w, sighting, raises) =>
      var t := s.tasks[w];
      if Raises(s, t.path, sighting, raises) then GoOn(w, Reporting(t.id, t.path, t.modem, "persist failed"))
      else if TurnedAway(cfg, sighting) then Settle(w, WasRejected(t.path))
      else if sighting.Missing? then Settle(w, WasMarked(t.path))
      else if cfg.dlq.Some? then GoOn(w, Clearing(t.id, t.path, t.modem))
      else Settle(w, WasStored(t.path))
    case Clear(w) => Settle(w, WasStored(s.tasks[w].path))
    case Report(w) =>
      if cfg.dlq == None || |s.dlq.rows| >= cfg.dlq.value.maxSize then Settle(w, WasRefused(s.tasks[w].path))
      else Settle(w, WasReported(s.tasks[w].path))
    case _ => Stay
  }

  lemma PersistMoves(cfg: Config, s: State, e: Event)
    requires Enabled(cfg, s, e) && e.Persist?
    ensures CanMove(LedgerOf(s), MoveOf(cfg, s, e))
    ensures LedgerOf(Step(cfg, s, e)) == Moved(LedgerOf(s), MoveOf(cfg, s, e))
  {
  }

  lemma OthersMove(cfg: Config, s: State, e: Event)
    requires Enabled(cfg, s, e) && !e.Persist?
    ensures CanMove(LedgerOf(s), MoveOf(cfg, s, e))
    ensures LedgerOf(Step(cfg, s, e)) == Moved(LedgerOf(s), MoveOf(cfg, s, e))
  {
  }

  /** Every step of the pipeline makes one such move. */
  lemma StepMoves(cfg: Config, s: State, e: Event)
    requires Enabled(cfg, s, e)
    ensures CanMove(LedgerOf(s), MoveOf(cfg, s, e))
    ensures LedgerOf(Step(cfg, s, e)) == Moved(LedgerOf(s), MoveOf(cfg, s, e))
  {
    if e.Persist? { PersistMoves(cfg, s, e); } else { OthersMove(cfg, s, e); }
  }

  // ---- Every hand-in is in exactly one place ----

  ghost predicate QueueIds(l: Ledger) {
    && (forall i :: 0 <= i < |l.queue| ==> l.queue[i].id < l.handIns && l.queue[i].id !in l.fates)
    && (forall i, j :: 0 <= i < j < |l.queue| ==> l.queue[i].id != l.queue[j].id)
  }

  ghost predicate TaskIds(l: Ledger) {
    && (forall t :: t in l.tasks ==> l.tasks[t].id < l.handIns && l.tasks[t].id !in l.fates)
    && (forall t, u :: t in l.tasks && u in l.tasks && l.tasks[t].id == l.tasks[u].id ==> t == u)
  }

  ghost predicate Apart(l: Ledger) {
    forall i, t :: 0 <= i < |l.queue| && t in l.tasks ==> l.queue[i].id != l.tasks[t].id
  }

  ghost predicate FateIds(l: Ledger) {
    forall id :: id in l.fates ==> id < l.handIns
  }

  ghost predicate OnePlace(l: Ledger) {
    QueueIds(l) && TaskIds(l) && Apart(l) && FateIds(l)
  }

  ghost predicate InQueue(l: Ledger, id: nat) {
    exists i :: 0 <= i < |l.queue| && l.queue[i].id == id
  }

  ghost predicate InHands(l: Ledger, id: nat) {
    exists t :: t in l.tasks && l.tasks[t].id == id
  }

  ghost predicate Placed(l: Ledger, id: nat) {
    InQueue(l, id) || InHands(l, id) || id in l.fates
  }

  ghost predicate AllPlaced(l: Ledger) {
    forall id: nat :: id < l.handIns ==> Placed(l, id)
  }

  lemma QueueIdsMoved(l: Ledger, m: Move)
    requires OnePlace(l) && CanMove(l, m)
    ensures QueueIds(Moved(l, m))
  {
  }

  lemma TaskIdsMoved(l: Ledger, m: Move)
    requires OnePlace(l) && CanMove(l, m)
    ensures TaskIds(Moved(l, m))
  {
  }

  lemma ApartMoved(l: Ledger, m: Move)
    requires OnePlace(l) && CanMove(l, m)
    ensures Apart(Moved(l, m)) && FateIds(Moved(l, m))
  {
  }

  lemma OnePlaceMoved(l: Ledger, m: Move)
    requires OnePlace(l) && CanMove(l, m)
    ensures OnePlace(Moved(l, m))
  {
    QueueIdsMoved(l, m);
    TaskIdsMoved(l, m);
    ApartMoved(l, m);
  }

  lemma PlacedMoved(l: Ledger, m: Move, id: nat)
    requires CanMove(l, m) && Placed(l, id)
    ensures Placed(Moved(l, m), id)
  {
    var l' := Moved(l, m);
    if i :| 0 <= i < |l.queue| && l.queue[i].id == id {
      if !m.Take? {
        assert l'.queue[i].id == id;
      } else if i == 0 {
        assert l'.tasks[m.thread].id == id;
      } else {
        assert l'.queue[i - 1].id == id;
      }
    } else if t :| t in l.tasks && l.tasks[t].id == id {
      if !(m.Settle? && m.thread == t) { assert l'.tasks[t].id == id; }
    }
  }

  lemma AllPlacedMoved(l: Ledger, m: Move)
    requires AllPlaced(l) && CanMove(l, m)
    ensures AllPlaced(Moved(l, m))
  {
    var l' := Moved(l, m);
    forall id: nat | id < l'.handIns ensures Placed(l', id) {
      if id < l.handIns {
        PlacedMoved(l, m, id);
      } else if m.ToQueue? {
        assert l'.queue[|l.queue|].id == id;
      } else {
        assert l'.tasks[m.thread].id == id;
      }
    }
  }

  // ---- Reported failures stand until they are answered ----

  /** A reported hand-in is in the dead-letter table until its path is persisted again. */
  ghost predicate ReportStands(s: State, id: nat)
    requires id in s.fates && s.fates[id].WasReported?
  {
    id in s.answered || DL.Present(s.dlq.rows, s.fates[id].path)
  }

  ghost predicate ReportsStand(s: State) {
    forall id :: id in s.fates && s.fates[id].WasReported? ==> ReportStands(s, id)
  }

  /** The step takes the path out of the dead-letter table. */
  ghost predicate Removes(cfg: Config, s: State, e: Event, path: string)
    requires Enabled(cfg, s, e)
  {
    cfg.dlq.Some? &&
    match e
    case Clear(w) => s.tasks[w].path == path
    case ClearStored(p) => p == path
    case BatchRecovered => s.dlq.todo[0].path == path && s.dlq.todo[0].id in s.dlq.rows
    case _ => false
  }

  /** It does so on behalf of a persist that is older than a report of the path. */
  ghost predicate Erases(cfg: Config, s: State, e: Event)
    requires Enabled(cfg, s, e)
  {
    exists id :: && id in s.fates && s.fates[id].WasReported? && id !in s.answered
                 && Removes(cfg, s, e, s.fates[id].path)
  }

  ghost predicate Kept(cfg: Config, s: State) {
    && DlqKept(cfg, s) && OnePlace(LedgerOf(s))
    && (cfg.dlq == None ==> s.dlq.rows == map[] && s.dlq.todo == [])
  }

  lemma KeptStep(cfg: Config, s: State, e: Event)
    requires Kept(cfg, s) && Enabled(cfg, s, e)
    ensures Kept(cfg, Step(cfg, s, e))
  {
    DlqKeptStep(cfg, s, e);
    StepMoves(cfg, s, e);
    OnePlaceMoved(LedgerOf(s), MoveOf(cfg, s, e));
  }

  /** A new report is one the dead-letter queue takes, and old fates stay. */
  lemma FatesAfter(cfg: Config, s: State, e: Event, id: nat)
    requires OnePlace(LedgerOf(s)) && Enabled(cfg, s, e)
    ensures var s' := Step(cfg, s, e);
            && (id in s.fates ==> id in s'.fates && s'.fates[id] == s.fates[id])
            && (id !in s.fates && id in s'.fates && s'.fates[id].WasReported? ==>
                  && e.Report? && s'.fates[id].path == s.tasks[e.worker].path
                  && cfg.dlq.Some? && |s.dlq.rows| < cfg.dlq.value.maxSize)
  {
    StepMoves(cfg, s, e);
  }

  lemma AnswersGrow(cfg: Config, s: State, e: Event)
    requires Enabled(cfg, s, e)
    ensures s.answered <= Step(cfg, s, e).answered
  {
  }

  lemma RemovalAnswersNothing(cfg: Config, s: State, e: Event)
    requires Enabled(cfg, s, e) && (e.Clear? || e.ClearStored? || e.BatchRecovered?)
    ensures Step(cfg, s, e).answered == s.answered
  {
  }

  lemma RecoveredWithoutRow(dlq: DL.Config, d: DL.State, path: string)
    requires DL.Enabled(dlq, d, DL.Recovered) && DL.Present(d.rows, path) && d.todo[0].id !in d.rows
    ensures DL.Present(DL.Step(dlq, d, DL.Recovered).rows, path)
  {
    var id :| DL.Stored(d.rows, path, id);
    assert DL.Stored(DL.Step(dlq, d, DL.Recovered).rows, path, id);
  }

  lemma UnremovedIsPresent(cfg: Config, s: State, e: Event, path: string)
    requires Kept(cfg, s) && Enabled(cfg, s, e) && DL.Present(s.dlq.rows, path) && !Removes(cfg, s, e, path)
    ensures DL.Present(Step(cfg, s, e).dlq.rows, path)
  {
    DlqStepsAreItsOwn(cfg, s, e);
    var d := DlqEvent(cfg, s, e);
    if Step(cfg, s, e).dlq != s.dlq {
      if d == DL.Recovered && s.dlq.todo[0].path == path {
        RecoveredWithoutRow(cfg.dlq.value, s.dlq, path);
      } else {
        PresentStays(cfg.dlq.value, s.dlq, d, path);
      }
    }
  }

  lemma RemovedIsAbsent(cfg: Config, s: State, e: Event, path: string)
    requires Kept(cfg, s) && Enabled(cfg, s, e) && Removes(cfg, s, e, path)
    ensures !DL.Present(Step(cfg, s, e).dlq.rows, path)
  {
  }

  lemma NewReportStands(cfg: Config, s: State, e: Event, id: nat)
    requires Kept(cfg, s) && Enabled(cfg, s, e) && id !in s.fates
    requires id in Step(cfg, s, e).fates && Step(cfg, s, e).fates[id].WasReported?
    ensures ReportStands(Step(cfg, s, e), id)
  {
    FatesAfter(cfg, s, e, id);
    var t := s.tasks[e.worker];
    ReportArrives(cfg.dlq.value, s.dlq, t.path, t.modem, t.error);
  }

  lemma OldReportStands(cfg: Config, s: State, e: Event, id: nat)
    requires Kept(cfg, s) && Enabled(cfg, s, e) && !Erases(cfg, s, e)
    requires id in s.fates && s.fates[id].WasReported? && ReportStands(s, id)
    ensures id in Step(cfg, s, e).fates && Step(cfg, s, e).fates[id] == s.fates[id]
    ensures ReportStands(Step(cfg, s, e), id)
  {
    FatesAfter(cfg, s, e, id);
    AnswersGrow(cfg, s, e);
    if id !in s.answered { UnremovedIsPresent(cfg, s, e, s.fates[id].path); }
  }

  lemma ErasedReport(cfg: Config, s: State, e: Event)
    requires Kept(cfg, s) && Enabled(cfg, s, e) && Erases(cfg, s, e)
    ensures !ReportsStand(Step(cfg, s, e))
  {
    var id :| id in s.fates && s.fates[id].WasReported? && id !in s.answered && Removes(cfg, s, e, s.fates[id].path);
    FatesAfter(cfg, s, e, id);
    RemovalAnswersNothing(cfg, s, e);
    RemovedIsAbsent(cfg, s, e, s.fates[id].path);
    assert !ReportStands(Step(cfg, s, e), id);
  }

  /** A step leaves every report standing iff it erases none: iff it does not clear a path on
      behalf of a persist that is older than an unanswered report of it. */
  lemma ReportsStandIff(cfg: Config, s: State, e: Event)
    requires Kept(cfg, s) && ReportsStand(s) && Enabled(cfg, s, e)
    ensures ReportsStand(Step(cfg, s, e)) <==> !Erases(cfg, s, e)
  {
    var s' := Step(cfg, s, e);
    if Erases(cfg, s, e) {
      ErasedReport(cfg, s, e);
    } else {
      forall id | id in s'.fates && s'.fates[id].WasReported? ensures ReportStands(s', id) {
        if id in s.fates {
          FatesAfter(cfg, s, e, id);
          OldReportStands(cfg, s, e, id);
        } else {
          NewReportStands(cfg, s, e, id);
        }
      }
    }
  }

  ghost predicate NothingErased(cfg: Config, s: State, es: seq<Event>)
    requires Possible(cfg, s, es)
    decreases |es|
  {
    es != [] ==> !Erases(cfg, s, es[0]) && NothingErased(cfg, Step(cfg, s, es[0]), es[1..])
  }

  lemma {:induction false} PlacesRun(cfg: Config, s: State, es: seq<Event>)
    requires Kept(cfg, s) && AllPlaced(LedgerOf(s)) && Possible(cfg, s, es)
    ensures Kept(cfg, Run(cfg, s, es)) && AllPlaced(LedgerOf(Run(cfg, s, es)))
    decreases |es|
  {
    if es != [] {
      KeptStep(cfg, s, es[0]);
      StepMoves(cfg, s, es[0]);
      AllPlacedMoved(LedgerOf(s), MoveOf(cfg, s, es[0]));
      PlacesRun(cfg, Step(cfg, s, es[0]), es[1..]);
    }
  }

  lemma {:induction false} ReportsRun(cfg: Config, s: State, es: seq<Event>)
    requires Kept(cfg, s) && ReportsStand(s) && Possible(cfg, s, es) && NothingErased(cfg, s, es)
    ensures ReportsStand(Run(cfg, s, es))
    decreases |es|
  {
    if es != [] {
      KeptStep(cfg, s, es[0]);
      ReportsStandIff(cfg, s, es[0]);
      ReportsRun(cfg, Step(cfg, s, es[0]), es[1..]);
    }
  }

  /** In every run each hand-in, also a repeated one, is in the queue, in one thread's hands, or
      has its fate, and never in two of these places. */
  lemma {:induction false} EveryHandInHasAPlace(cfg: Config, es: seq<Event>, id: nat)
    requires Possible(cfg, Init, es) && id < Run(cfg, Init, es).handIns
    ensures var l := LedgerOf(Run(cfg, Init, es));
            && (InQueue(l, id) || InHands(l, id) || id in l.fates)
            && !(InQueue(l, id) && InHands(l, id)) && !(InQueue(l, id) && id in l.fates)
            && !(InHands(l, id) && id in l.fates)
  {
    PlacesRun(cfg, Init, es);
    assert Placed(LedgerOf(Run(cfg, Init, es)), id);
  }

  /** And where nothing is erased, a hand-in whose failure was reported is in the dead-letter
      table until its path is persisted after the report. */
  lemma {:induction false} EveryReportStands(cfg: Config, es: seq<Event>, id: nat)
    requires Possible(cfg, Init, es) && NothingErased(cfg, Init, es)
    requires var s := Run(cfg, Init, es); id in s.fates && s.fates[id].WasReported?
    ensures var s := Run(cfg, Init, es); id in s.answered || DL.Present(s.dlq.rows, s.fates[id].path)
  {
    PlacesRun(cfg, Init, es);
    ReportsRun(cfg, Init, es);
    assert ReportStands(Run(cfg, Init, es), id);
  }

  // ---- A report can be erased ----

  lemma RunCons(cfg: Config, s: State, e: Event, es: seq<Event>)
    requires Enabled(cfg, s, e) && Possible(cfg, Step(cfg, s, e), es)
    ensures Possible(cfg, s, [e] + es) && Run(cfg, s, [e] + es) == Run(cfg, Step(cfg, s, e), es)
  {
    assert ([e] + es)[1..] == es;
  }

  lemma AfterTheReport(cfg: Config, s: State)
    requires cfg.dlq.Some? && |s.dlq.rows| < cfg.dlq.value.maxSize && 1 in s.tasks && s.tasks[1].Reporting?
    ensures Enabled(cfg, s, Report(1))
    ensures var s1, t := Step(cfg, s, Report(1)), s.tasks[1];
            && s1.tasks == s.tasks - {1} && s1.fates == s.fates[t.id := WasReported(t.path)]
            && s1.answered == s.answered
  {
  }

  lemma AfterTheClear(cfg: Config, s: State)
    requires cfg.dlq.Some? && 0 in s.tasks && s.tasks[0].Clearing? && Kept(cfg, s)
    ensures Enabled(cfg, s, Clear(0))
    ensures var s1, t := Step(cfg, s, Clear(0)), s.tasks[0];
            && s1.fates == s.fates[t.id := WasStored(t.path)] && s1.answered == s.answered
            && !DL.Present(s1.dlq.rows, t.path)
  {
    RemovedIsAbsent(cfg, s, Clear(0), s.tasks[0].path);
  }

  /** Thread 0 has stored the path and is about to clear it; the persist of a second hand-in has
      failed. The report of the second is erased by the first. */
  lemma OlderPersistErases(cfg: Config, s: State) returns (es: seq<Event>)
    requires cfg.dlq.Some? && |s.dlq.rows| < cfg.dlq.value.maxSize && Kept(cfg, s)
    requires 0 in s.tasks && s.tasks[0].Clearing? && 1 in s.tasks && s.tasks[1].Reporting?
    requires s.tasks[0].path == s.tasks[1].path && s.tasks[1].id !in s.answered
    ensures Possible(cfg, s, es)
    ensures var s', id := Run(cfg, s, es), s.tasks[1].id;
            id in s'.fates && s'.fates[id].WasReported? && !ReportStands(s', id)
  {
    AfterTheReport(cfg, s);
    var s1 := Step(cfg, s, Report(1));
    KeptStep(cfg, s, Report(1));
    AfterTheClear(cfg, s1);
    RunCons(cfg, s1, Clear(0), []);
    RunCons(cfg, s, Report(1), [Clear(0)]);
    es := [Report(1)] + [Clear(0)];
  }

  /** And such a state is reached when one path is handed in twice. */
  lemma HandedInTwice(cfg: Config, path: string, x: Inbound.Row) returns (es: seq<Event>)
    requires cfg.maxQueue <= 0 && cfg.dlq.Some? && Inbound.Allowed(cfg.whitelist, x)
    ensures Possible(cfg, Init, es)
    ensures var s := Run(cfg, Init, es);
            && s.tasks.Keys == {0, 1} && s.tasks[0] == Clearing(0, path, 0) && s.tasks[1].Reporting?
            && s.tasks[1].path == path && s.tasks[1].id == 1 && s.answered == {} && s.dlq == DL.Init
  {
    var s1 := Step(cfg, Init, HandIn(0, path, 0));
    var s2 := Step(cfg, s1, HandIn(0, path, 0));
    var s3 := Step(cfg, s2, Get(0));
    var s4 := Step(cfg, s3, Get(1));
    var seen := Inbound.Seen(x);
    var s5 := Step(cfg, s4, Persist(0, seen, false));
    es := [Persist(1, seen, true)];
    RunCons(cfg, s5, Persist(1, seen, true), []);
    RunCons(cfg, s4, Persist(0, seen, false), es);
    es := [Persist(0, seen, false)] + es;
    RunCons(cfg, s3, Get(1), es);
    es := [Get(1)] + es;
    RunCons(cfg, s2, Get(0), es);
    es := [Get(0)] + es;
    RunCons(cfg, s1, HandIn(0, path, 0), es);
    es := [HandIn(0, path, 0)] + es;
    RunCons(cfg, Init, HandIn(0, path, 0), es);
    es := [HandIn(0, path, 0)] + es;
  }

  lemma {:induction false} RunAppend(cfg: Config, s: State, es: seq<Event>, fs: seq<Event>)
    requires Possible(cfg, s, es) && Possible(cfg, Run(cfg, s, es), fs)
    ensures Possible(cfg, s, es + fs) && Run(cfg, s, es + fs) == Run(cfg, Run(cfg, s, es), fs)
    decreases |es|
  {
    if es == [] {
      assert es + fs == fs;
    } else {
      RunAppend(cfg, Step(cfg, s, es[0]), es[1..], fs);
      assert (es + fs)[1..] == es[1..] + fs;
    }
  }

  /** So with an unbounded queue and room in the dead-letter table a report can be erased. */
  lemma ReportsCanBeErased(cfg: Config, path: string, x: Inbound.Row) returns (es: seq<Event>)
    requires cfg.maxQueue <= 0 && cfg.dlq.Some? && 0 < cfg.dlq.value.maxSize && Inbound.Allowed(cfg.whitelist, x)
    ensures Possible(cfg, Init, es)
    ensures var s := Run(cfg, Init, es); 1 in s.fates && s.fates[1].WasReported? && !ReportStands(s, 1)
  {
    es := HandedInTwice(cfg, path, x);
    PlacesRun(cfg, Init, es);
    var more := OlderPersistErases(cfg, Run(cfg, Init, es));
    RunAppend(cfg, Init, es, more);
    es := es + more;
  }
}
