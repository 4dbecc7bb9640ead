/** The inbound pipeline put together: the bounded queue and its workers, the table of inbound
    rows, and the dead-letter queue with its batch processor. No path handed to the pipeline
    is lost, whatever the modem and the database answer. */
module Pipeline {
  import opened Common
  import Inbound
  import DL = DeadLetter

  /** A thread between two of its calls: a worker persisting; a thread that stored the path and
      is about to clear it from the dead-letter queue; one about to report a failure to it. */
  datatype Task = Persisting(id: nat, path: string, modem: nat) | Clearing(id: nat, path: string, modem: nat)
                | Reporting(id: nat, path: string, modem: nat, error: string)

  /** A hand-in in the queue; `id` tells hand-ins of one path apart. */
  datatype Job = Job(id: nat, path: string, modem: nat)

  /** How the pipeline was done with a hand-in: its persist stored a snapshot, met the whitelist,
      or found the message lost but its row stored; or its failure was reported to the
      dead-letter queue, which took it or refused it. */
  datatype Fate = WasStored(path: string) | WasRejected(path: string) | WasMarked(path: string)
                | WasReported(path: string) | WasRefused(path: string)

  /** `dlq` is None when the dead-letter queue is disabled. */
  datatype Config = Config(maxQueue: int, whitelist: seq<string>, dlq: Option<DL.Config>)

  /** `rows` holds the paths that have a row; what is in the rows, and how overlapping persists
      change it, is not part of this system. `handed`, `stored`, `rejected` and `refused` log
      the paths that were handed in, were saved as a row at some time, were turned away by the
      whitelist, and were refused by a full or disabled dead-letter queue; `handIns` and
      `settled` count hand-ins and the ones the pipeline is done with, `fates` says how; and
      `answered` logs the reported hand-ins whose path was later persisted. No step reads a log. */
  datatype State = State(
    queue: seq<Job>, running: bool, tasks: map<nat, Task>,
    rows: set<string>, dlq: DL.State, recovered: bool,
    handed: set<string>, stored: set<string>, rejected: set<string>, refused: set<string>,
    handIns: nat, settled: nat, fates: map<nat, Fate>, answered: set<nat>)

  datatype Event =
    | Tick
    | HandIn(thread: nat, path: string, modem: nat)   // `_on_added`, or one turn of the snapshot loop
    | Get(worker: nat)
    | Persist(worker: nat, sighting: Inbound.Sighting, raises: bool)
    | Clear(worker: nat)
    | Report(worker: nat)
    | Stop
    | Refresh(path: string, sighting: Inbound.Sighting)  // a persist outside the queue
    | ClearStored(path: string)                          // its call to the dead-letter queue
    | DeleteRow(path: string)                            // storage rotation
    | BatchDequeue(limit: int, batch: seq<DL.Item>)
    | BatchPersist(sighting: Inbound.Sighting, raises: bool, error: string)
    | BatchRecovered
    | BatchAbort

  ghost const Init :=
    State([], true, map[], {}, DL.Init, false, {}, {}, {}, {}, 0, 0, map[], {})

  predicate Full(cfg: Config, s: State) {
    cfg.maxQueue > 0 && |s.queue| >= cfg.maxQueue
  }

  /** A persist ends in an exception: the database fails, or the modem has lost a message that
      was never stored. */
  predicate Raises(s: State, path: string, sighting: Inbound.Sighting, raises: bool) {
    raises || (sighting == Inbound.Missing && path !in s.rows)
  }

  predicate TurnedAway(cfg: Config, sighting: Inbound.Sighting) {
    sighting.Seen? && !Inbound.Allowed(cfg.whitelist, sighting.snapshot)
  }

  /** The reported hand-ins of a path. */
  function ReportsOf(fates: map<nat, Fate>, path: string): set<nat> {
    set id | id in fates && fates[id] == WasReported(path)
  }

  /** What a persist that returns does to the table and the logs. */
  function Persisted(cfg: Config, s: State, path: string, sighting: Inbound.Sighting): State {
    var s1 := s.(answered := s.answered + ReportsOf(s.fates, path));
    if TurnedAway(cfg, sighting) then s1.(rejected := s.rejected + {path})
    else s1.(rows := s.rows + {path}, stored := s.stored + {path})
  }

  /** The pipeline is done with a hand-in. */
  function Done(s: State, w: nat, id: nat, fate: Fate): State {
    s.(tasks := s.tasks - {w}, settled := s.settled + 1, fates := s.fates[id := fate])
  }

  ghost predicate Enabled(cfg: Config, s: State, e: Event) {
    match e
    case HandIn(t, _, _) => t !in s.tasks
    case Get(w) => w !in s.tasks && s.running && s.queue != []
    case Persist(w, _, _) => w in s.tasks && s.tasks[w].Persisting?
    case Clear(w) => w in s.tasks && s.tasks[w].Clearing?
    case Report(w) => w in s.tasks && s.tasks[w].Reporting?
    case Refresh(path, sighting) => !Raises(s, path, sighting, false)
    case ClearStored(path) => cfg.dlq.Some? && path in s.stored
    case DeleteRow(path) => path in s.rows
    case BatchDequeue(limit, batch) => cfg.dlq.Some? && DL.Enabled(cfg.dlq.value, s.dlq, DL.Dequeue(limit, batch))
    case BatchPersist(_, _, _) => cfg.dlq.Some? && s.dlq.todo != [] && !s.recovered
    case BatchRecovered => cfg.dlq.Some? && s.dlq.todo != [] && s.recovered
    case _ => true
  }

  ghost function Step(cfg: Config, s: State, e: Event): State
    requires Enabled(cfg, s, e)
  {
    match e
    case Tick => s.(dlq := s.dlq.(now := s.dlq.now + 1))
    case HandIn(t, path, modem) =>
      var s1 := s.(handed := s.handed + {path}, handIns := s.handIns + 1);
      if Full(cfg, s) then s1.(tasks := s.tasks[t := Reporting(s.handIns, path, modem, "persist queue full")])
      else s1.(queue := s.queue + [Job(s.handIns, path, modem)])
    case Get(w) =>
      var j := s.queue[0];
      s.(queue := s.queue[1..], tasks := s.tasks[w := Persisting(j.id, j.path, j.modem)])
    case Persist(w, sighting, raises) =>
      var t := s.tasks[w];
      if Raises(s, t.path, sighting, raises)
      then s.(tasks := s.tasks[w := Reporting(t.id, t.path, t.modem, "persist failed")])
      else
        var s1 := Persisted(cfg, s, t.path, sighting);
        if TurnedAway(cfg, sighting) then Done(s1, w, t.id, WasRejected(t.path))
        else if sighting.Missing? then Done(s1, w, t.id, WasMarked(t.path))
        else if cfg.dlq.Some? then s1.(tasks := s.tasks[w := Clearing(t.id, t.path, t.modem)])
        else Done(s1, w, t.id, WasStored(t.path))
    case Clear(w) =>
      var t := s.tasks[w];
      Done(s.(dlq := if cfg.dlq.Some? then DL.Step(cfg.dlq.value, s.dlq, DL.RemoveByPath(t.path)) else s.dlq),
           w, t.id, WasStored(t.path))
    case Report(w) =>
      var t := s.tasks[w];
      if cfg.dlq == None || |s.dlq.rows| >= cfg.dlq.value.maxSize
      then Done(s.(refused := s.refused + {t.path}), w, t.id, WasRefused(t.path))
      else Done(s.(dlq := DL.Step(cfg.dlq.value, s.dlq, DL.Enqueue(t.path, t.modem, t.error))),
                w, t.id, WasReported(t.path))
    case Stop => s.(running := false)
    case Refresh(path, sighting) => Persisted(cfg, s, path, sighting)
    case ClearStored(path) => s.(dlq := DL.Step(cfg.dlq.value, s.dlq, DL.RemoveByPath(path)))
    case DeleteRow(path) => s.(rows := s.rows - {path})
    case BatchDequeue(limit, batch) =>
      s.(dlq := DL.Step(cfg.dlq.value, s.dlq, DL.Dequeue(limit, batch)), recovered := false)
    case BatchPersist(sighting, raises, error) =>
      var path := s.dlq.todo[0].path;
      if Raises(s, path, sighting, raises) then s.(dlq := DL.Step(cfg.dlq.value, s.dlq, DL.RetryFailed(error)))
      else Persisted(cfg, s, path, sighting).(recovered := true)
    case BatchRecovered => s.(dlq := DL.Step(cfg.dlq.value, s.dlq, DL.Recovered), recovered := false)
    case BatchAbort => s.(dlq := s.dlq.(todo := []), recovered := false)
  }

  ghost predicate Possible(cfg: Config, s: State, es: seq<Event>)
    decreases |es|
  {
    es != [] ==> Enabled(cfg, s, es[0]) && Possible(cfg, Step(cfg, s, es[0]), es[1..])
  }

  ghost function Run(cfg: Config, s: State, es: seq<Event>): State
    requires Possible(cfg, s, es)
    decreases |es|
  {
    if es == [] then s else Run(cfg, Step(cfg, s, es[0]), es[1..])
  }

  // ---- Conservation ----

  ghost predicate Waiting(s: State, path: string) {
    exists i :: 0 <= i < |s.queue| && s.queue[i].path == path
  }

  ghost predicate InHand(s: State, path: string) {
    exists t :: t in s.tasks && s.tasks[t].path == path
  }

  ghost predicate Accounted(s: State, path: string) {
    || Waiting(s, path) || InHand(s, path) || path in s.stored || path in s.rejected || path in s.refused
    || DL.Present(s.dlq.rows, path)
  }

  /** Every hand-in is in the queue, in one thread's hands, or settled. */
  ghost predicate Counted(cfg: Config, s: State) {
    && s.handIns == |s.queue| + |s.tasks| + s.settled
    && (cfg.maxQueue > 0 ==> |s.queue| <= cfg.maxQueue)
  }

  ghost predicate ClearsVouched(s: State) {
    forall t :: t in s.tasks && s.tasks[t].Clearing? ==> s.tasks[t].path in s.stored
  }

  ghost predicate BatchVouched(s: State) {
    s.recovered ==> s.dlq.todo != [] && (s.dlq.todo[0].path in s.stored || s.dlq.todo[0].path in s.rejected)
  }

  ghost predicate RowsVouched(s: State) {
    forall path :: path in s.rows ==> path in s.stored
  }

  /** Only paths that were stored or rejected are cleared or marked recovered. */
  ghost predicate Vouched(s: State) {
    ClearsVouched(s) && BatchVouched(s) && RowsVouched(s)
  }

  ghost predicate DlqKept(cfg: Config, s: State) {
    DL.WellKept(s.dlq) && (cfg.dlq.Some? ==> DL.TodoFresh(cfg.dlq.value, s.dlq) && DL.Bounded(cfg.dlq.value, s.dlq))
  }

  ghost function DlqEvent(cfg: Config, s: State, e: Event): DL.Event
    requires Enabled(cfg, s, e) && cfg.dlq.Some?
  {
    match e
    case Clear(w) => DL.RemoveByPath(s.tasks[w].path)
    case Report(w) => DL.Enqueue(s.tasks[w].path, s.tasks[w].modem, s.tasks[w].error)
    case ClearStored(path) => DL.RemoveByPath(path)
    case BatchDequeue(limit, batch) => DL.Dequeue(limit, batch)
    case BatchPersist(_, _, error) => DL.RetryFailed(error)
    case BatchRecovered => DL.Recovered
    case BatchAbort => DL.Abort
    case _ => DL.Tick
  }

  predicate ByTheBatch(e: Event) {
    e.BatchDequeue? || e.BatchPersist? || e.BatchRecovered? || e.BatchAbort?
  }

  predicate ByAThread(e: Event) {
    e.Tick? || e.Clear? || e.Report? || e.ClearStored?
  }

  lemma PersistsLeaveTheDlq(cfg: Config, s: State, e: Event)
    requires Enabled(cfg, s, e) && (e.Persist? || e.Refresh?)
    ensures Step(cfg, s, e).dlq == s.dlq && Step(cfg, s, e).recovered == s.recovered
  {
  }

  lemma OthersLeaveTheDlq(cfg: Config, s: State, e: Event)
    requires Enabled(cfg, s, e) && !ByTheBatch(e) && !ByAThread(e)
    ensures Step(cfg, s, e).dlq == s.dlq && Step(cfg, s, e).recovered == s.recovered
  {
    if e.Persist? || e.Refresh? { PersistsLeaveTheDlq(cfg, s, e); }
  }

  lemma DlqStepByAThread(cfg: Config, s: State, e: Event)
    requires Enabled(cfg, s, e) && cfg.dlq.Some? && ByAThread(e)
    ensures Step(cfg, s, e).dlq == s.dlq
         || (DL.Enabled(cfg.dlq.value, s.dlq, DlqEvent(cfg, s, e))
             && Step(cfg, s, e).dlq == DL.Step(cfg.dlq.value, s.dlq, DlqEvent(cfg, s, e)))
  {
  }

  lemma DlqStepByTheBatch(cfg: Config, s: State, e: Event)
    requires Enabled(cfg, s, e) && cfg.dlq.Some? && ByTheBatch(e)
    ensures Step(cfg, s, e).dlq == s.dlq
         || (DL.Enabled(cfg.dlq.value, s.dlq, DlqEvent(cfg, s, e))
             && Step(cfg, s, e).dlq == DL.Step(cfg.dlq.value, s.dlq, DlqEvent(cfg, s, e)))
  {
  }

  /** Seen from the dead-letter queue, every step of the pipeline is one of its own or none. */
  lemma DlqStepsAreItsOwn(cfg: Config, s: State, e: Event)
    requires Enabled(cfg, s, e) && cfg.dlq.Some?
    ensures Step(cfg, s, e).dlq == s.dlq
         || (DL.Enabled(cfg.dlq.value, s.dlq, DlqEvent(cfg, s, e))
             && Step(cfg, s, e).dlq == DL.Step(cfg.dlq.value, s.dlq, DlqEvent(cfg, s, e)))
  {
    if ByTheBatch(e) {
      DlqStepByTheBatch(cfg, s, e);
    } else if ByAThread(e) {
      DlqStepByAThread(cfg, s, e);
    } else {
      OthersLeaveTheDlq(cfg, s, e);
    }
  }

  /** One step of its own keeps the dead-letter queue well kept, bounded and ready. */
  lemma DlqKeptAlone(dlq: DL.Config, d: DL.State, e: DL.Event)
    requires DL.WellKept(d) && DL.TodoFresh(dlq, d) && DL.Bounded(dlq, d) && DL.Enabled(dlq, d, e)
    ensures var d' := DL.Step(dlq, d, e); DL.WellKept(d') && DL.TodoFresh(dlq, d') && DL.Bounded(dlq, d')
  {
    DL.WellKeptStep(dlq, d, e);
    DL.TodoFreshStep(dlq, d, e);
    DL.BoundedStep(dlq, d, e);
  }

  lemma DisabledDlqOnlyAges(cfg: Config, s: State, e: Event)
    requires Enabled(cfg, s, e) && cfg.dlq == None && s.dlq.rows == map[] && s.dlq.todo == []
    ensures Step(cfg, s, e).dlq == s.dlq.(now := Step(cfg, s, e).dlq.now) && Step(cfg, s, e).dlq.now >= s.dlq.now
  {
  }

  lemma DlqKeptStep(cfg: Config, s: State, e: Event)
    requires DlqKept(cfg, s) && Enabled(cfg, s, e) && (cfg.dlq == None ==> s.dlq.rows == map[] && s.dlq.todo == [])
    ensures DlqKept(cfg, Step(cfg, s, e))
    ensures cfg.dlq == None ==> Step(cfg, s, e).dlq.rows == map[] && Step(cfg, s, e).dlq.todo == []
  {
    if cfg.dlq == None {
      DisabledDlqOnlyAges(cfg, s, e);
    } else {
      DlqStepsAreItsOwn(cfg, s, e);
      if Step(cfg, s, e).dlq != s.dlq { DlqKeptAlone(cfg.dlq.value, s.dlq, DlqEvent(cfg, s, e)); }
    }
  }

  lemma TaskCount(tasks: map<nat, Task>, t: nat, task: Task)
    ensures |tasks[t := task]| == |tasks| + if t in tasks then 0 else 1
    ensures |tasks - {t}| == |tasks| - if t in tasks then 1 else 0
  {
    assert tasks[t := task].Keys == tasks.Keys + {t};
    assert (tasks - {t}).Keys == tasks.Keys - {t};
  }

  predicate MovesATask(e: Event) {
    e.HandIn? || e.Get? || e.Persist? || e.Clear? || e.Report?
  }

  lemma OthersMoveNothing(cfg: Config, s: State, e: Event)
    requires Enabled(cfg, s, e) && !MovesATask(e)
    ensures var s' := Step(cfg, s, e);
            s'.queue == s.queue && s'.tasks == s.tasks && s'.handIns == s.handIns && s'.settled == s.settled
  {
  }

  lemma HandInIsCounted(cfg: Config, s: State, e: Event)
    requires Counted(cfg, s) && Enabled(cfg, s, e) && e.HandIn?
    ensures Counted(cfg, Step(cfg, s, e))
  {
    TaskCount(s.tasks, e.thread, Reporting(s.handIns, e.path, e.modem, "persist queue full"));
    assert |s.queue + [Job(s.handIns, e.path, e.modem)]| == |s.queue| + 1;
  }

  lemma GetIsCounted(cfg: Config, s: State, e: Event)
    requires Counted(cfg, s) && Enabled(cfg, s, e) && e.Get?
    ensures Counted(cfg, Step(cfg, s, e))
  {
    TaskCount(s.tasks, e.worker, Persisting(s.queue[0].id, s.queue[0].path, s.queue[0].modem));
  }

  lemma PersistIsCounted(cfg: Config, s: State, e: Event)
    requires Enabled(cfg, s, e) && e.Persist?
    ensures var s' := Step(cfg, s, e);
            && s'.queue == s.queue && s'.handIns == s.handIns
            && |s'.tasks| + s'.settled == |s.tasks| + s.settled
  {
    var w := e.worker;
    var t := s.tasks[w];
    TaskCount(s.tasks, w, Reporting(t.id, t.path, t.modem, "persist failed"));
    TaskCount(s.tasks, w, Clearing(t.id, t.path, t.modem));
  }

  lemma SettlingIsCounted(cfg: Config, s: State, e: Event)
    requires Enabled(cfg, s, e) && (e.Clear? || e.Report?)
    ensures var s' := Step(cfg, s, e);
            && s'.queue == s.queue && s'.handIns == s.handIns
            && |s'.tasks| + s'.settled == |s.tasks| + s.settled
  {
    TaskCount(s.tasks, e.worker, s.tasks[e.worker]);
  }

  lemma CountedStep(cfg: Config, s: State, e: Event)
    requires Counted(cfg, s) && Enabled(cfg, s, e)
    ensures Counted(cfg, Step(cfg, s, e))
  {
    if e.HandIn? {
      HandInIsCounted(cfg, s, e);
    } else if e.Get? {
      GetIsCounted(cfg, s, e);
    } else if e.Persist? {
      PersistIsCounted(cfg, s, e);
    } else if MovesATask(e) {
      SettlingIsCounted(cfg, s, e);
    } else {
      OthersMoveNothing(cfg, s, e);
    }
  }

  /** A persist that returns leaves its path stored or rejected, and touches no other row. */
  ghost predicate PersistedWell(cfg: Config, s: State, path: string, sighting: Inbound.Sighting) {
    var s' := Persisted(cfg, s, path, sighting);
    && (path in s'.stored || path in s'.rejected)
    && (!TurnedAway(cfg, sighting) ==> path in s'.stored)
    && s'.stored <= s.stored + {path} && s'.rejected <= s.rejected + {path}
    && s.stored <= s'.stored && s.rejected <= s'.rejected
    && (forall p :: p in s'.rows ==> p in s.rows || p in s'.stored)
    && s' == s.(rows := s'.rows, stored := s'.stored, rejected := s'.rejected, answered := s'.answered)
  }

  lemma PersistedVouches(cfg: Config, s: State, path: string, sighting: Inbound.Sighting)
    requires RowsVouched(s) && !Raises(s, path, sighting, false)
    ensures PersistedWell(cfg, s, path, sighting)
  {
  }

  /** Reduces a step that persists to what its persist does. */
  lemma PersistsOfStep(cfg: Config, s: State, e: Event)
    requires RowsVouched(s) && Enabled(cfg, s, e)
    ensures e.Persist? && !Raises(s, s.tasks[e.worker].path, e.sighting, e.raises) ==>
              PersistedWell(cfg, s, s.tasks[e.worker].path, e.sighting)
    ensures e.BatchPersist? && !Raises(s, s.dlq.todo[0].path, e.sighting, e.raises) ==>
              PersistedWell(cfg, s, s.dlq.todo[0].path, e.sighting)
    ensures e.Refresh? ==> PersistedWell(cfg, s, e.path, e.sighting)
  {
    if e.Persist? && !Raises(s, s.tasks[e.worker].path, e.sighting, e.raises) {
      PersistedVouches(cfg, s, s.tasks[e.worker].path, e.sighting);
    } else if e.BatchPersist? && !Raises(s, s.dlq.todo[0].path, e.sighting, e.raises) {
      PersistedVouches(cfg, s, s.dlq.todo[0].path, e.sighting);
    } else if e.Refresh? {
      PersistedVouches(cfg, s, e.path, e.sighting);
    }
  }

  lemma ClearsVouchedByPersist(cfg: Config, s: State, e: Event)
    requires Vouched(s) && Enabled(cfg, s, e) && e.Persist?
    ensures ClearsVouched(Step(cfg, s, e))
  {
    PersistsOfStep(cfg, s, e);
  }

  lemma ClearsVouchedByOthers(cfg: Config, s: State, e: Event)
    requires Vouched(s) && Enabled(cfg, s, e) && !e.Persist?
    ensures ClearsVouched(Step(cfg, s, e))
  {
    PersistsOfStep(cfg, s, e);
  }

  lemma ClearsVouchedStep(cfg: Config, s: State, e: Event)
    requires Vouched(s) && Enabled(cfg, s, e)
    ensures ClearsVouched(Step(cfg, s, e))
  {
    if e.Persist? { ClearsVouchedByPersist(cfg, s, e); } else { ClearsVouchedByOthers(cfg, s, e); }
  }

  lemma LogsGrow(cfg: Config, s: State, e: Event)
    requires RowsVouched(s) && Enabled(cfg, s, e)
    ensures var s' := Step(cfg, s, e);
            s.stored <= s'.stored && s.rejected <= s'.rejected && s.refused <= s'.refused
  {
    PersistsOfStep(cfg, s, e);
  }

  lemma BatchVouchedByTheBatch(cfg: Config, s: State, e: Event)
    requires Vouched(s) && Enabled(cfg, s, e) && ByTheBatch(e)
    ensures BatchVouched(Step(cfg, s, e))
  {
    PersistsOfStep(cfg, s, e);
  }

  lemma ReportKeepsTheBatch(cfg: Config, s: State, e: Event)
    requires Enabled(cfg, s, e) && e.Report?
    ensures Step(cfg, s, e).dlq.todo == s.dlq.todo && Step(cfg, s, e).recovered == s.recovered
  {
  }

  lemma ClearKeepsTheBatch(cfg: Config, s: State, e: Event)
    requires Enabled(cfg, s, e) && (e.Tick? || e.Clear? || e.ClearStored?)
    ensures Step(cfg, s, e).dlq.todo == s.dlq.todo && Step(cfg, s, e).recovered == s.recovered
  {
  }

  lemma OthersKeepTheBatch(cfg: Config, s: State, e: Event)
    requires Enabled(cfg, s, e) && !ByTheBatch(e)
    ensures Step(cfg, s, e).dlq.todo == s.dlq.todo && Step(cfg, s, e).recovered == s.recovered
  {
    if e.Report? {
      ReportKeepsTheBatch(cfg, s, e);
    } else if ByAThread(e) {
      ClearKeepsTheBatch(cfg, s, e);
    } else {
      OthersLeaveTheDlq(cfg, s, e);
    }
  }

  lemma BatchVouchedStep(cfg: Config, s: State, e: Event)
    requires Vouched(s) && Enabled(cfg, s, e)
    ensures BatchVouched(Step(cfg, s, e))
  {
    if ByTheBatch(e) {
      BatchVouchedByTheBatch(cfg, s, e);
    } else {
      OthersKeepTheBatch(cfg, s, e);
      LogsGrow(cfg, s, e);
    }
  }

  lemma RowsVouchedStep(cfg: Config, s: State, e: Event)
    requires Vouched(s) && Enabled(cfg, s, e)
    ensures RowsVouched(Step(cfg, s, e))
  {
    PersistsOfStep(cfg, s, e);
  }

  lemma VouchedStep(cfg: Config, s: State, e: Event)
    requires Vouched(s) && Enabled(cfg, s, e)
    ensures Vouched(Step(cfg, s, e))
  {
    ClearsVouchedStep(cfg, s, e);
    BatchVouchedStep(cfg, s, e);
    RowsVouchedStep(cfg, s, e);
  }

  // ---- No path is lost ----

  /** A path leaves the dead-letter table only when it is removed by path, or when the row the
      batch is at holds it and is marked recovered. */
  lemma PresentStays(dlq: DL.Config, d: DL.State, e: DL.Event, path: string)
    requires DL.WellKept(d) && DL.TodoFresh(dlq, d) && DL.Enabled(dlq, d, e) && DL.Present(d.rows, path)
    requires e != DL.RemoveByPath(path) && !(e == DL.Recovered && d.todo[0].path == path)
    ensures DL.Present(DL.Step(dlq, d, e).rows, path)
  {
    var id :| DL.Stored(d.rows, path, id);
    assert DL.Stored(DL.Step(dlq, d, e).rows, path, id);
  }

  lemma ReportArrives(dlq: DL.Config, d: DL.State, path: string, modem: nat, error: string)
    requires |d.rows| < dlq.maxSize
    ensures DL.Present(DL.Step(dlq, d, DL.Enqueue(path, modem, error)).rows, path)
  {
    var rows := DL.Step(dlq, d, DL.Enqueue(path, modem, error)).rows;
    if DL.Present(d.rows, path) {
      var id :| DL.Stored(d.rows, path, id);
      assert DL.Stored(rows, path, id);
    } else {
      assert DL.Stored(rows, path, d.nextId);
    }
  }

  /** What the pipeline takes out of the dead-letter table was stored or rejected. */
  lemma RemovedIsVouched(cfg: Config, s: State, e: Event, path: string)
    requires Vouched(s) && Enabled(cfg, s, e) && cfg.dlq.Some?
    requires var d := DlqEvent(cfg, s, e);
             d == DL.RemoveByPath(path) || (d == DL.Recovered && s.dlq.todo[0].path == path)
    ensures path in s.stored || path in s.rejected
  {
  }

  lemma PresentStep(cfg: Config, s: State, e: Event, path: string)
    requires DlqKept(cfg, s) && Vouched(s) && Enabled(cfg, s, e) && DL.Present(s.dlq.rows, path)
    requires cfg.dlq == None ==> s.dlq.rows == map[] && s.dlq.todo == []
    ensures DL.Present(Step(cfg, s, e).dlq.rows, path) || path in s.stored || path in s.rejected
  {
    if cfg.dlq.Some? {
      DlqStepsAreItsOwn(cfg, s, e);
      var d := DlqEvent(cfg, s, e);
      if d == DL.RemoveByPath(path) || (d == DL.Recovered && s.dlq.todo[0].path == path) {
        RemovedIsVouched(cfg, s, e, path);
      } else if Step(cfg, s, e).dlq != s.dlq {
        PresentStays(cfg.dlq.value, s.dlq, d, path);
      }
    }
  }

  lemma WaitingAfterGet(cfg: Config, s: State, e: Event, i: nat)
    requires Enabled(cfg, s, e) && e.Get? && i < |s.queue|
    ensures var s', j := Step(cfg, s, e), s.queue[i];
            if i == 0 then e.worker in s'.tasks && s'.tasks[e.worker] == Persisting(j.id, j.path, j.modem)
            else i - 1 < |s'.queue| && s'.queue[i - 1] == j
  {
  }

  lemma StaysInQueue(cfg: Config, s: State, e: Event, i: nat)
    requires Enabled(cfg, s, e) && !e.Get? && i < |s.queue|
    ensures i < |Step(cfg, s, e).queue| && Step(cfg, s, e).queue[i] == s.queue[i]
  {
  }

  lemma WaitingStep(cfg: Config, s: State, e: Event, path: string)
    requires Enabled(cfg, s, e) && Waiting(s, path)
    ensures Waiting(Step(cfg, s, e), path) || InHand(Step(cfg, s, e), path)
  {
    var i :| 0 <= i < |s.queue| && s.queue[i].path == path;
    if e.Get? { WaitingAfterGet(cfg, s, e, i); } else { StaysInQueue(cfg, s, e, i); }
  }

  /** The steps a thread takes with its task. */
  predicate WorksOn(e: Event, t: nat) {
    (e.Persist? || e.Clear? || e.Report?) && e.worker == t
  }

  lemma ArrivalsLeaveTasks(cfg: Config, s: State, e: Event, t: nat)
    requires Enabled(cfg, s, e) && t in s.tasks && (e.HandIn? || e.Get?)
    ensures t in Step(cfg, s, e).tasks && Step(cfg, s, e).tasks[t] == s.tasks[t]
  {
  }

  lemma OthersWorkLeavesTask(cfg: Config, s: State, e: Event, t: nat)
    requires Enabled(cfg, s, e) && t in s.tasks && (e.Persist? || e.Clear? || e.Report?) && e.worker != t
    ensures t in Step(cfg, s, e).tasks && Step(cfg, s, e).tasks[t] == s.tasks[t]
  {
  }

  lemma StaysInHand(cfg: Config, s: State, e: Event, t: nat)
    requires Enabled(cfg, s, e) && t in s.tasks && !WorksOn(e, t)
    ensures t in Step(cfg, s, e).tasks && Step(cfg, s, e).tasks[t] == s.tasks[t]
  {
    if e.HandIn? || e.Get? {
      ArrivalsLeaveTasks(cfg, s, e, t);
    } else if MovesATask(e) {
      OthersWorkLeavesTask(cfg, s, e, t);
    } else {
      OthersMoveNothing(cfg, s, e);
    }
  }

  lemma HandStep(cfg: Config, s: State, e: Event, t: nat)
    requires Vouched(s) && Enabled(cfg, s, e) && t in s.tasks && WorksOn(e, t) && !e.Report?
    ensures var path, s' := s.tasks[t].path, Step(cfg, s, e);
            (t in s'.tasks && s'.tasks[t].path == path) || path in s'.stored || path in s'.rejected
  {
    PersistsOfStep(cfg, s, e);
  }

  /** The thread that holds a path keeps it until the path is stored, rejected, reported or refused. */
  lemma HolderStep(cfg: Config, s: State, e: Event, t: nat)
    requires Vouched(s) && Enabled(cfg, s, e) && t in s.tasks
    ensures var path, s' := s.tasks[t].path, Step(cfg, s, e);
            || (t in s'.tasks && s'.tasks[t].path == path)
            || path in s'.stored || path in s'.rejected
            || (e.Report? && e.worker == t)
  {
    if !WorksOn(e, t) { StaysInHand(cfg, s, e, t); } else if !e.Report? { HandStep(cfg, s, e, t); }
  }

  lemma ReportStep(cfg: Config, s: State, w: nat)
    requires Enabled(cfg, s, Report(w))
    ensures var path, s' := s.tasks[w].path, Step(cfg, s, Report(w));
            path in s'.refused || DL.Present(s'.dlq.rows, path)
  {
    if cfg.dlq.Some? && |s.dlq.rows| < cfg.dlq.value.maxSize {
      ReportArrives(cfg.dlq.value, s.dlq, s.tasks[w].path, s.tasks[w].modem, s.tasks[w].error);
    }
  }

  lemma AccountedStep(cfg: Config, s: State, e: Event, path: string)
    requires DlqKept(cfg, s) && Vouched(s) && Enabled(cfg, s, e) && Accounted(s, path)
    requires cfg.dlq == None ==> s.dlq.rows == map[] && s.dlq.todo == []
    ensures Accounted(Step(cfg, s, e), path)
  {
    LogsGrow(cfg, s, e);
    if Waiting(s, path) {
      WaitingStep(cfg, s, e, path);
    } else if InHand(s, path) {
      var t :| t in s.tasks && s.tasks[t].path == path;
      HolderStep(cfg, s, e, t);
      if e == Report(t) { ReportStep(cfg, s, t); }
    } else if DL.Present(s.dlq.rows, path) {
      PresentStep(cfg, s, e, path);
    }
  }

  lemma HandedInIsAccounted(cfg: Config, s: State, e: Event)
    requires Enabled(cfg, s, e) && e.HandIn?
    ensures Accounted(Step(cfg, s, e), e.path)
  {
    var s' := Step(cfg, s, e);
    if Full(cfg, s) { assert s'.tasks[e.thread].path == e.path; } else { assert s'.queue[|s.queue|].path == e.path; }
  }

  ghost predicate Invariant(cfg: Config, s: State) {
    && DlqKept(cfg, s) && Counted(cfg, s) && Vouched(s)
    && (cfg.dlq == None ==> s.dlq.rows == map[] && s.dlq.todo == [])
    && (forall path :: path in s.handed ==> Accounted(s, path))
  }

  lemma HandedGrowsByHandIn(cfg: Config, s: State, e: Event)
    requires Enabled(cfg, s, e)
    ensures Step(cfg, s, e).handed == s.handed + if e.HandIn? then {e.path} else {}
  {
  }

  lemma InvariantStep(cfg: Config, s: State, e: Event)
    requires Invariant(cfg, s) && Enabled(cfg, s, e)
    ensures Invariant(cfg, Step(cfg, s, e))
  {
    DlqKeptStep(cfg, s, e);
    CountedStep(cfg, s, e);
    VouchedStep(cfg, s, e);
    HandedGrowsByHandIn(cfg, s, e);
    forall path | path in Step(cfg, s, e).handed ensures Accounted(Step(cfg, s, e), path) {
      if path in s.handed { AccountedStep(cfg, s, e, path); } else { HandedInIsAccounted(cfg, s, e); }
    }
  }

  lemma {:induction false} InvariantRun(cfg: Config, s: State, es: seq<Event>)
    requires Invariant(cfg, s) && Possible(cfg, s, es)
    ensures Invariant(cfg, Run(cfg, s, es))
    decreases |es|
  {
    if es != [] {
      InvariantStep(cfg, s, es[0]);
      InvariantRun(cfg, Step(cfg, s, es[0]), es[1..]);
    }
  }

  /** Conservation. In every run: each path ever handed in is queued, held by a thread, was
      stored as a row, was rejected by the whitelist, is in the dead-letter queue, or was
      refused by it; each hand-in is in the queue, in one thread's hands, or settled; and the
      queue never outgrows its bound. */
  lemma {:induction false} NothingIsLost(cfg: Config, es: seq<Event>)
    requires Possible(cfg, Init, es)
    ensures var s := Run(cfg, Init, es);
            && (forall path :: path in s.handed ==>
                  || Waiting(s, path) || InHand(s, path) || path in s.stored || path in s.rejected
                  || path in s.refused || DL.Present(s.dlq.rows, path))
            && s.handIns == |s.queue| + |s.tasks| + s.settled
            && (cfg.maxQueue > 0 ==> |s.queue| <= cfg.maxQueue)
  {
    assert DL.WellKept(DL.Init) && Invariant(cfg, Init);
    InvariantRun(cfg, Init, es);
  }
}
