/** The outbound queue object and the dispatch of one row, as the threads run them. Each
    method is one or more critical sections of `Outbound`. */
module OutboundQueue {
  import opened Common
  import opened Text
  import opened Outbound

  // ---- The queue as three lanes ----

  /** `a` is of no lower urgency than `b`, told from the texts of their priorities. */
  ghost predicate NoLessUrgent(a: QueueJob, b: QueueJob) {
    var p, q := Lower(Strip(a.priority)), Lower(Strip(b.priority));
    (q == "urgent" ==> p == "urgent") && (q == "high" ==> p == "urgent" || p == "high")
  }

  /** Number `i` of the waiting jobs is the first of the most urgent ones. */
  ghost predicate NextInLine(waiting: seq<QueueJob>, i: nat) {
    && i < |waiting|
    && (forall k :: 0 <= k < |waiting| ==> NoLessUrgent(waiting[i], waiting[k]))
    && (forall k :: 0 <= k < i ==> !NoLessUrgent(waiting[k], waiting[i]))
  }

  lemma RankIsUrgency(a: QueueJob, b: QueueJob)
    requires a.rank == PriorityRank(a.priority) && b.rank == PriorityRank(b.priority)
    ensures a.rank <= b.rank <==> NoLessUrgent(a, b)
  {
  }

  /** The jobs waiting, in the order in which they were accepted, are those in the heap. */
  ghost predicate InLine(waiting: seq<QueueJob>, queue: set<QueueJob>, nextSeq: nat) {
    && (forall j :: j in queue <==> j in waiting)
    && (forall i :: 0 <= i < |waiting| ==>
          waiting[i].rank == PriorityRank(waiting[i].priority) && waiting[i].seq_ <= nextSeq)
    && (forall i, k :: 0 <= i < k < |waiting| ==> waiting[i].seq_ < waiting[k].seq_)
  }

  lemma JoinsTheLine(waiting: seq<QueueJob>, queue: set<QueueJob>, nextSeq: nat, job: QueueJob)
    requires InLine(waiting, queue, nextSeq) && job.seq_ == nextSeq + 1 && job.rank == PriorityRank(job.priority)
    ensures InLine(waiting + [job], queue + {job}, nextSeq + 1)
  {
  }

  lemma LeastIsNextInLine(waiting: seq<QueueJob>, queue: set<QueueJob>, nextSeq: nat, i: nat)
    requires InLine(waiting, queue, nextSeq) && i < |waiting| && Least(queue, waiting[i])
    ensures NextInLine(waiting, i)
  {
    forall k | 0 <= k < |waiting|
      ensures NoLessUrgent(waiting[i], waiting[k]) && (k < i ==> !NoLessUrgent(waiting[k], waiting[i]))
    {
      RankIsUrgency(waiting[i], waiting[k]);
      RankIsUrgency(waiting[k], waiting[i]);
      if k < i { assert waiting[k].seq_ < waiting[i].seq_ && waiting[k] in queue; }
      if i < k { assert waiting[k] in queue; }
    }
  }

  lemma WithoutOne<T>(xs: seq<T>, i: nat)
    requires i < |xs| && forall a, b :: 0 <= a < b < |xs| ==> xs[a] != xs[b]
    ensures forall x :: x in xs[..i] + xs[i + 1..] <==> x in xs && x != xs[i]
  {
    var left := xs[..i] + xs[i + 1..];
    forall k | 0 <= k < |left| ensures left[k] in xs && left[k] != xs[i] {
      assert left[k] == xs[if k < i then k else k + 1];
    }
    forall k | 0 <= k < |xs| && k != i ensures xs[k] in left {
      assert xs[k] == left[if k < i then k else k - 1];
    }
  }

  lemma LeavesTheLine(waiting: seq<QueueJob>, queue: set<QueueJob>, nextSeq: nat, i: nat)
    requires InLine(waiting, queue, nextSeq) && i < |waiting|
    ensures InLine(waiting[..i] + waiting[i + 1..], queue - {waiting[i]}, nextSeq)
  {
    WithoutOne(waiting, i);
  }

  lemma InLineNumbers(waiting: seq<QueueJob>, queue: set<QueueJob>, nextSeq: nat, a: QueueJob, b: QueueJob)
    requires InLine(waiting, queue, nextSeq) && a in queue && b in queue && a != b
    ensures a.seq_ != b.seq_
  {
    var i :| 0 <= i < |waiting| && waiting[i] == a;
    var k :| 0 <= k < |waiting| && waiting[k] == b;
    assert i < k || k < i;
  }

  class OutboundProcessorQueue {
    const maxSize: int
    var queue: set<QueueJob>
    var nextSeq: nat
    var inFlight: set<string>
    var enqueued: nat
    /** The accepted jobs still in the queue, in the order in which they were accepted. */
    ghost var waiting: seq<QueueJob>

    ghost predicate Valid()
      reads this
    {
      InLine(waiting, queue, nextSeq)
    }

    constructor (maxSize: int)
      ensures Valid() && waiting == []
      ensures this.maxSize == maxSize && queue == {} && nextSeq == 0 && inFlight == {} && enqueued == 0
    {
      this.maxSize := maxSize;
      queue, nextSeq, inFlight, enqueued := {}, 0, {}, 0;
      waiting := [];
    }

    method Reserve(key: string) returns (fresh_: bool)
      modifies this`inFlight
      ensures fresh_ <==> key !in old(inFlight)
      ensures inFlight == old(inFlight) + {key}
    {
      if key in inFlight {
        return false;
      }
      inFlight := inFlight + {key};
      return true;
    }

    method NextSeq() returns (n: nat)
      modifies this`nextSeq
      ensures n == nextSeq == old(nextSeq) + 1
    {
      nextSeq := nextSeq + 1;
      n := nextSeq;
    }

    method PutNoWait(job: QueueJob) returns (ok: bool)
      requires job.rank == PriorityRank(job.priority) && 1 <= job.seq_ == nextSeq && InLine(waiting, queue, nextSeq - 1)
      modifies this`queue, this`waiting
      ensures Valid()
      ensures ok <==> !(maxSize > 0 && |old(queue)| >= maxSize)
      ensures queue == if ok then old(queue) + {job} else old(queue)
      ensures waiting == if ok then old(waiting) + [job] else old(waiting)
    {
      ok := !(maxSize > 0 && |queue| >= maxSize);
      if ok {
        JoinsTheLine(waiting, queue, nextSeq - 1, job);
        queue, waiting := queue + {job}, waiting + [job];
      }
    }

    method ReleaseInFlight(jobType: string, reference: string)
      modifies this`inFlight
      ensures inFlight == old(inFlight) - {jobType + ":" + reference}
    {
      inFlight := inFlight - {Key(jobType, reference)};
    }

    /** Accepts a key at most once until it is released; a full queue changes nothing but the
        sequence counter; a job that is accepted waits behind those accepted before it. */
    method Enqueue(jobType: string, reference: string, priority: string) returns (ok: bool)
      requires Valid()
      modifies this
      ensures Valid()
      ensures jobType + ":" + reference in old(inFlight) ==>
                && ok && waiting == old(waiting) && queue == old(queue) && inFlight == old(inFlight)
                && nextSeq == old(nextSeq) && enqueued == old(enqueued)
      ensures jobType + ":" + reference !in old(inFlight) ==>
                && (ok <==> !(maxSize > 0 && |old(queue)| >= maxSize))
                && nextSeq == old(nextSeq) + 1
      ensures jobType + ":" + reference !in old(inFlight) && !ok ==>
                inFlight == old(inFlight) && queue == old(queue) && waiting == old(waiting) && enqueued == old(enqueued)
      ensures jobType + ":" + reference !in old(inFlight) && ok ==>
                && inFlight == old(inFlight) + {jobType + ":" + reference} && enqueued == old(enqueued) + 1
                && queue == old(queue) + {QueueJob(PriorityRank(priority), nextSeq, jobType, reference, priority)}
                && waiting == old(waiting) + [QueueJob(PriorityRank(priority), nextSeq, jobType, reference, priority)]
    {
      var reserved := Reserve(Key(jobType, reference));
      if !reserved {
        return true;
      }
      var seq_ := NextSeq();
      var job := QueueJob(PriorityRank(priority), seq_, jobType, reference, priority);
      ok := PutNoWait(job);
      if ok {
        enqueued := enqueued + 1;
      } else {
        ReleaseInFlight(jobType, reference);
      }
    }

    method FindLeast() returns (best: QueueJob)
      requires Valid() && queue != {}
      ensures Least(queue, best)
    {
      best :| best in queue;
      var unseen := queue - {best};
      while unseen != {}
        invariant unseen <= queue && best in queue && best !in unseen
        invariant forall q :: q in queue && q !in unseen && q != best ==> Precedes(best, q)
        decreases unseen
      {
        var q :| q in unseen;
        unseen := unseen - {q};
        InLineNumbers(waiting, queue, nextSeq, q, best);
        if Precedes(q, best) {
          best := q;
        }
      }
    }

    /** Takes the least job by rank and number: of the waiting jobs, in the order in which they
        were accepted, the first urgent one, or else the first high one, or else the first. */
    method Take() returns (job: Option<QueueJob>, ghost i: nat)
      requires Valid()
      modifies this`queue, this`waiting
      ensures Valid()
      ensures job == None <==> old(queue) == {}
      ensures job == None ==> queue == old(queue) && waiting == old(waiting)
      ensures job.Some? ==> Least(old(queue), job.value) && queue == old(queue) - {job.value}
      ensures job.Some? ==>
                && i < |old(waiting)| && job.value == old(waiting)[i]
                && waiting == old(waiting)[..i] + old(waiting)[i + 1..] && NextInLine(old(waiting), i)
    {
      i := 0;
      if queue == {} {
        return None, 0;
      }
      var best := FindLeast();
      i :| i < |waiting| && waiting[i] == best;
      LeastIsNextInLine(waiting, queue, nextSeq, i);
      LeavesTheLine(waiting, queue, nextSeq, i);
      queue, waiting := queue - {best}, waiting[..i] + waiting[i + 1..];
      job := Some(best);
    }
  }

  // ---- Dispatching one row ----

  /** The answers met on the way: the modem's to create and send, with the path of the message
      and the public text of an error, and the database's to the saves. */
  datatype Answers = Answers(create: ModemAnswer, path: string, dbSending: bool, send: ModemAnswer, dbSent: bool,
                             error: string, dbFailed: bool)

  /** The steps of `Outbound` that one dispatch takes with these answers. */
  function SendSteps(w: nat, a: Answers): seq<Event> {
    [Send(w, a.send)] + (match a.send
                         case Exception => []
                         case MmcliError => [StoreFailed(w, a.dbFailed)]
                         case Ok => [StoreSent(w, a.dbSent)])
  }

  function StoreSteps(w: nat, a: Answers): seq<Event> {
    [StoreSending(w, a.dbSending)] + (if a.dbSending then SendSteps(w, a) else [])
  }

  function InsideSteps(w: nat, a: Answers): seq<Event> {
    [Prepare(w, a.create)] + (match a.create
                              case Exception => []
                              case MmcliError => [StoreFailed(w, a.dbFailed)]
                              case Ok => StoreSteps(w, a))
  }

  function DispatchSteps(w: nat, a: Answers): seq<Event> {
    [Acquire(w)] + InsideSteps(w, a)
  }

  /** The row in the database as the dispatch leaves it. */
  function StateAfter(a: Answers): RowState {
    match a.create
    case Exception => Created
    case MmcliError => if a.dbFailed then Failed else Created
    case Ok =>
      if !a.dbSending then Created
      else match a.send
           case Exception => Sending
           case MmcliError => if a.dbFailed then Failed else Sending
           case Ok => if a.dbSent then Sent else Sending
  }

  function SendsBy(a: Answers): nat {
    if a.create == Ok && a.dbSending then 1 else 0
  }

  lemma Run1(cfg: Config, s: State, e: Event)
    requires Enabled(cfg, s, e)
    ensures Possible(cfg, s, [e]) && Run(cfg, s, [e]) == Step(cfg, s, e)
  {
    RunCons(cfg, s, e, []);
    assert [e] + [] == [e];
  }

  /** From the call of `send_sms` on. */
  lemma SendIsItsSteps(cfg: Config, s: State, w: nat, a: Answers)
    requires w in s.workers && s.workers[w].at.Stored?
    requires s.workers[w].at.pk in s.rows && s.rows[s.workers[w].at.pk] == Sending
    requires a.create == Ok && a.dbSending
    ensures Possible(cfg, s, SendSteps(w, a))
    ensures var pk, s' := s.workers[w].at.pk, Run(cfg, s, SendSteps(w, a));
            && s'.rows == s.rows[pk := StateAfter(a)]
            && s'.sends == Add(s.sends, pk, 1)
            && s'.workers == s.workers[w := Worker(s.workers[w].job, Finished)]
  {
    var s1 := Step(cfg, s, Send(w, a.send));
    match a.send
    case Exception =>
      Run1(cfg, s, Send(w, a.send));
      assert SendSteps(w, a) == [Send(w, a.send)];
    case MmcliError =>
      Run1(cfg, s1, StoreFailed(w, a.dbFailed));
      RunCons(cfg, s, Send(w, a.send), [StoreFailed(w, a.dbFailed)]);
    case Ok =>
      Run1(cfg, s1, StoreSent(w, a.dbSent));
      RunCons(cfg, s, Send(w, a.send), [StoreSent(w, a.dbSent)]);
  }

  /** From the save of SENDING on. */
  lemma StoreIsItsSteps(cfg: Config, s: State, w: nat, a: Answers)
    requires w in s.workers && s.workers[w].at.Prepared?
    requires s.workers[w].at.pk in s.rows && s.rows[s.workers[w].at.pk] == Created
    requires a.create == Ok
    ensures Possible(cfg, s, StoreSteps(w, a))
    ensures var pk, s' := s.workers[w].at.pk, Run(cfg, s, StoreSteps(w, a));
            && s'.rows == s.rows[pk := StateAfter(a)]
            && s'.sends == (if a.dbSending then Add(s.sends, pk, 1) else s.sends)
            && s'.workers == s.workers[w := Worker(s.workers[w].job, Finished)]
  {
    var s1 := Step(cfg, s, StoreSending(w, a.dbSending));
    if a.dbSending {
      SendIsItsSteps(cfg, s1, w, a);
      RunCons(cfg, s, StoreSending(w, a.dbSending), SendSteps(w, a));
    } else {
      Run1(cfg, s, StoreSending(w, a.dbSending));
      assert StoreSteps(w, a) == [StoreSending(w, a.dbSending)];
    }
  }

  /** From inside the modem lock on. */
  lemma InsideIsItsSteps(cfg: Config, s: State, w: nat, a: Answers)
    requires w in s.workers && s.workers[w].at.Inside?
    requires s.workers[w].at.pk in s.rows && s.rows[s.workers[w].at.pk] == Created
    ensures Possible(cfg, s, InsideSteps(w, a))
    ensures var pk, s' := s.workers[w].at.pk, Run(cfg, s, InsideSteps(w, a));
            && s'.rows == s.rows[pk := StateAfter(a)]
            && Count(s'.sends, pk) == Count(s.sends, pk) + SendsBy(a)
            && s'.workers == s.workers[w := Worker(s.workers[w].job, Finished)]
  {
    var s1 := Step(cfg, s, Prepare(w, a.create));
    match a.create
    case Exception =>
      Run1(cfg, s, Prepare(w, a.create));
      assert InsideSteps(w, a) == [Prepare(w, a.create)];
    case MmcliError =>
      Run1(cfg, s1, StoreFailed(w, a.dbFailed));
      RunCons(cfg, s, Prepare(w, a.create), [StoreFailed(w, a.dbFailed)]);
    case Ok =>
      StoreIsItsSteps(cfg, s1, w, a);
      RunCons(cfg, s, Prepare(w, a.create), StoreSteps(w, a));
  }

  /** An uninterrupted dispatch of a CREATED row: the row ends as `StateAfter` says, and it was
      sent exactly when the message was created and SENDING was stored. */
  lemma DispatchIsItsSteps(cfg: Config, s: State, w: nat, a: Answers)
    requires w in s.workers && s.workers[w].at.Holding? && LockFree(s)
    requires s.workers[w].at.pk in s.rows && s.rows[s.workers[w].at.pk] == Created
    ensures Possible(cfg, s, DispatchSteps(w, a))
    ensures var pk, s' := s.workers[w].at.pk, Run(cfg, s, DispatchSteps(w, a));
            && s'.rows == s.rows[pk := StateAfter(a)]
            && Count(s'.sends, pk) == Count(s.sends, pk) + SendsBy(a)
            && s'.workers == s.workers[w := Worker(s.workers[w].job, Finished)]
  {
    InsideIsItsSteps(cfg, Step(cfg, s, Acquire(w)), w, a);
    RunCons(cfg, s, Acquire(w), InsideSteps(w, a));
  }

  /** The columns a dispatch writes. */
  datatype Record = Record(state: RowState, mmPath: string, errorMessage: string)

  /** The path is stored together with SENDING, the error text together with FAILED. */
  function RecordAfter(before: Record, a: Answers): Record {
    Record(StateAfter(a),
           if a.create == Ok && a.dbSending then a.path else before.mmPath,
           if StateAfter(a) == Failed then a.error else before.errorMessage)
  }

  /** An `OutboundSms` instance in memory, beside what its database row holds. */
  class OutboundSms {
    var state: RowState
    var mmPath: string
    var errorMessage: string
    var stored: Record

    constructor ()
      ensures stored == Record(Created, "", "")
      ensures state == stored.state && mmPath == stored.mmPath && errorMessage == stored.errorMessage
    {
      state, mmPath, errorMessage := Created, "", "";
      stored := Record(Created, "", "");
    }

    /** `dispatch_outbound_mmcli` on a CREATED row: what the database holds afterwards, how
        often `send_sms` was called, whether the webhook was scheduled, and whether an exception
        left the method. */
    method Dispatch(a: Answers) returns (raised: bool, sends: nat, scheduled: bool)
      requires stored.state == Created
      modifies this
      ensures stored == RecordAfter(old(stored), a)
      ensures sends == SendsBy(a) == if a.create == Ok && a.dbSending then 1 else 0
      ensures stored.state == Sent <==> a.create == Ok && a.dbSending && a.send == Ok && a.dbSent
      ensures stored.state == Failed <==>
                a.dbFailed && (a.create == MmcliError || (a.create == Ok && a.dbSending && a.send == MmcliError))
      ensures stored.state == Created <==>
                a.create == Exception || (a.create == MmcliError && !a.dbFailed) || (a.create == Ok && !a.dbSending)
      ensures stored.state in {Sending, Sent} ==> stored.mmPath == a.path
      ensures stored.mmPath != old(stored.mmPath) ==> stored.mmPath == a.path && sends == 1
      ensures stored.errorMessage == if stored.state == Failed then a.error else old(stored.errorMessage)
      ensures scheduled <==> stored.state == Sent
      ensures raised <==> || a.create == Exception
                          || (a.create == MmcliError && !a.dbFailed)
                          || (a.create == Ok && (!a.dbSending || a.send == Exception
                                                 || !(if a.send == Ok then a.dbSent else a.dbFailed)))
      ensures !raised ==> stored.state == state && stored.state in {Sent, Failed}
    {
      raised, sends, scheduled := false, 0, false;
      if a.create == Exception {
        return true, 0, false;
      }
      if a.create == Ok {
        mmPath, state := a.path, Sending;
        if !a.dbSending {
          return true, 0, false;
        }
        stored := stored.(mmPath := mmPath, state := state);
        sends := 1;
        if a.send == Exception {
          return true, 1, false;
        }
        if a.send == Ok {
          state := Sent;
          if !a.dbSent {
            return true, 1, false;
          }
          stored := stored.(state := state);
          return false, 1, true;
        }
      }
      state, errorMessage := Failed, a.error;
      if !a.dbFailed {
        return true, sends, false;
      }
      stored := stored.(state := state, errorMessage := errorMessage);
    }
  }
}
