/** The loops that ask the modem again: retried commands, and polling a message until its text
    has arrived. The modem's answers and the clock are oracles. */
module Polling {
  import opened Common
  import opened Text
  import opened Snapshots
  import Inbound

  // ---- Retrying one mmcli command ----

  /** How one run of a command ends; `output` is the parsed standard output. */
  datatype Ran = Done(output: Snapshot) | Failed(transient: bool) | TimedOut

  /** The run that settles the command, counting from run `k`. */
  function Settled(runs: nat -> Ran, maxRetries: nat, k: nat): Ran
    decreases maxRetries - k
  {
    if runs(k) == Failed(true) && k + 1 < maxRetries then Settled(runs, maxRetries, k + 1) else runs(k)
  }

  /** `_retrying_run`: it stops at the first run that succeeds, fails for good or times out, and
      otherwise when its runs are used up. */
  method RetryingRun(runs: nat -> Ran, maxRetries: nat) returns (r: Ran, calls: nat)
    requires 1 <= maxRetries
    ensures r == Settled(runs, maxRetries, 0)
    ensures 1 <= calls <= maxRetries && r == runs(calls - 1)
    ensures forall k: nat :: k < calls - 1 ==> runs(k) == Failed(true)
    ensures r == Failed(true) ==> calls == maxRetries
  {
    var attempt: nat := 0;
    while attempt < maxRetries
      invariant attempt < maxRetries
      invariant forall k: nat :: k < attempt ==> runs(k) == Failed(true)
      invariant Settled(runs, maxRetries, 0) == Settled(runs, maxRetries, attempt)
      decreases maxRetries - attempt
    {
      attempt := attempt + 1;
      var cp := runs(attempt - 1);
      match cp {
        case Done(_) => return cp, attempt;
        case TimedOut => return cp, attempt;  // raised by the run itself, not caught here
        case Failed(transient) =>
          if attempt >= maxRetries || !transient {
            return cp, attempt;
          }
      }
    }
  }

  /** `show_sms`: None if a command it needs fails. Otherwise the merge of the key-value and
      JSON outputs, or, if that is empty, of the plain output alone. */
  method ShowSms(kvRuns: nat -> Ran, jsonRuns: nat -> Ran, plainRuns: nat -> Ran, maxRetries: nat)
    returns (r: Option<Snapshot>)
    requires 1 <= maxRetries
    ensures var kv, js := Settled(kvRuns, maxRetries, 0), Settled(jsonRuns, maxRetries, 0);
            var plain := Settled(plainRuns, maxRetries, 0);
            if !kv.Done? || !js.Done? then r == None
            else if Merged([kv.output, js.output]) != map[] then r == Some(Merged([kv.output, js.output]))
            else if !plain.Done? then r == None
            else r == Some(Merged([plain.output]))
  {
    var kv, _ := RetryingRun(kvRuns, maxRetries);
    if !kv.Done? {
      return None;
    }
    var js, _ := RetryingRun(jsonRuns, maxRetries);
    if !js.Done? {
      return None;
    }
    var main := MergeSources([kv.output, js.output]);
    if main != map[] {
      return Some(main);
    }
    var plain, _ := RetryingRun(plainRuns, maxRetries);
    if !plain.Done? {
      return None;
    }
    var all := MergeSources([kv.output, js.output, plain.output]);
    FallbackIsThePlainOutput(kv.output, js.output, plain.output);
    r := Some(all);
  }

  // ---- Polling for the text ----

  datatype Answer = Raw(snapshot: Snapshot) | PathMissing | OtherError
  datatype Polled = Snapshot(raw: Snapshot) | PathUnavailable

  /** A failed command counts as an empty snapshot. */
  function RawOf(a: Answer): Snapshot {
    if a.Raw? then a.snapshot else map[]
  }

  function Body(raw: Snapshot): string {
    FieldOf(raw, TEXT_KEYS)
  }

  function State(raw: Snapshot): string {
    Lower(Strip(FieldOf(raw, STATE_KEYS)))
  }

  predicate ShouldRetryEmpty(raw: Snapshot) {
    || ((FieldOf(raw, NUMBER_KEYS) != "" || FieldOf(raw, TIMESTAMP_KEYS) != "") && State(raw) !in ["failed", "unknown"])
    || State(raw) in ["receiving", "unknown"]
  }

  predicate Terminal(state: string) {
    state in ["received", "stored", "sent", "delivered"]
  }

  datatype Settings = Settings(tries: int, backoff: real, maxWait: real)

  /** Values that make no sense are replaced by the defaults. */
  function Effective(s: Settings): (e: Settings)
    ensures 1 <= e.tries && e.backoff > 0.0 && e.maxWait > 0.0
    ensures 1 <= s.tries && s.backoff > 0.0 && s.maxWait > 0.0 ==> e == s
    ensures s.tries < 1 ==> e.tries == 1
    ensures s.backoff <= 0.0 ==> e.backoff == 1.5
    ensures s.maxWait <= 0.0 ==> e.maxWait == 60.0
  {
    Settings(Max(1, s.tries), if s.backoff <= 0.0 then 1.5 else s.backoff, if s.maxWait <= 0.0 then 60.0 else s.maxWait)
  }

  /** An empty answer to attempt number `k`, `elapsed` seconds after the first, is asked again. */
  predicate AsksAgain(s: Settings, raw: Snapshot, k: nat, elapsed: real) {
    || (State(raw) == "receiving" && elapsed < s.maxWait)
    || (ShouldRetryEmpty(raw) && k < s.tries - 1)
  }

  /** In words: while it is received an empty message is asked again until its time is up, and for
      every try that is left; in an unknown state for every try that is left; in any other state
      for every try that is left if it has a sender or a time and has not failed. */
  lemma AsksAgainIff(s: Settings, raw: Snapshot, k: nat, elapsed: real)
    ensures var fields := FieldsOf(raw);
            var state := Lower(Strip(fields.mmState));
            AsksAgain(s, raw, k, elapsed) <==>
              || (state == "receiving" && elapsed < s.maxWait)
              || (k < s.tries - 1
                  && (state == "receiving" || state == "unknown"
                      || (state != "failed" && (fields.fromNumber != "" || fields.timestamp != ""))))
  {
  }

  function Ceil(x: real): int {
    if x.Floor as real == x then x.Floor else x.Floor + 1
  }

  function MaxCalls(s: Settings): int
    requires s.backoff > 0.0
  {
    Max(s.tries, Ceil(s.maxWait / s.backoff) + 1)
  }

  lemma BelowQuotient(k: nat, b: real, w: real)
    requires b > 0.0 && k as real * b < w
    ensures k + 1 <= Ceil(w / b)
  {
    var q := w / b;
    assert q * b == w;
    if k as real >= q {
      assert false;
    }
  }

  /** Asking again leaves at least one call of the bound unused. */
  lemma AskingAgainIsBounded(s: Settings, raw: Snapshot, k: nat, elapsed: real)
    requires s.backoff > 0.0 && k as real * s.backoff <= elapsed && AsksAgain(s, raw, k, elapsed)
    ensures k + 1 < MaxCalls(s)
  {
    if State(raw) == "receiving" && elapsed < s.maxWait { BelowQuotient(k, s.backoff, s.maxWait); }
  }

  /** The body of the loop: how an answer with this text and state is judged. */
  method Judge(body: string, state: string, keepTrying: bool, s: Settings, attempt: nat, elapsed: real)
    returns (again: bool)
    ensures again <==> && body == ""
                       && ((state == "receiving" && elapsed < s.maxWait) || (keepTrying && attempt < s.tries - 1))
  {
    if body != "" {
      return false;
    }
    var stillAssembling := state == "receiving" && elapsed < s.maxWait;
    if stillAssembling || (keepTrying && attempt < s.tries - 1) {
      return true;
    }
    if Terminal(state) {
      return false;
    }
    if !keepTrying {
      return false;
    }
    if attempt >= s.tries - 1 && elapsed >= s.maxWait {
      return false;
    }
    if attempt >= s.tries - 1 {
      return false;
    }
    // the sleep that follows here is never reached
    assert false;
  }

  /** `_fetch_mmcli_snapshot_with_retries`. `clock(k)` is the time since the first call when
      answer number `k` is judged; before each later call the loop has slept `backoff`. */
  method FetchSnapshotWithRetries(show: nat -> Answer, clock: nat -> real, settings: Settings)
    returns (r: Polled, calls: nat)
    requires forall k: nat :: clock(k) >= k as real * Effective(settings).backoff
    ensures 1 <= calls <= MaxCalls(Effective(settings))
    ensures r == match show(calls - 1)
                 case PathMissing => PathUnavailable
                 case OtherError => Snapshot(map[])
                 case Raw(snapshot) => Snapshot(snapshot)
    ensures forall k: nat :: k < calls - 1 ==>
              && show(k) != PathMissing && FieldsOf(RawOf(show(k))).text == ""
              && AsksAgain(Effective(settings), RawOf(show(k)), k, clock(k))
    ensures r.Snapshot? && FieldsOf(r.raw).text == "" ==>
              !AsksAgain(Effective(settings), r.raw, calls - 1, clock(calls - 1))
  {
    var s := Effective(settings);
    var attempt: nat := 0;
    while true
      invariant attempt < MaxCalls(s)
      invariant forall k: nat :: k < attempt ==>
                  && show(k) != PathMissing && Body(RawOf(show(k))) == "" && AsksAgain(s, RawOf(show(k)), k, clock(k))
      decreases MaxCalls(s) - attempt
    {
      var answer := show(attempt);
      if answer == PathMissing {
        return PathUnavailable, attempt + 1;
      }
      var raw := RawOf(answer);
      var again := Judge(Body(raw), State(raw), ShouldRetryEmpty(raw), s, attempt, clock(attempt));
      if !again {
        return Snapshot(raw), attempt + 1;
      }
      AskingAgainIsBounded(s, raw, attempt, clock(attempt));
      attempt := attempt + 1;
    }
  }

  // ---- What a polled snapshot hands to the row ----

  function FieldsOf(raw: Snapshot): Inbound.Row {
    Inbound.Row(FieldOf(raw, NUMBER_KEYS), FieldOf(raw, TEXT_KEYS), FieldOf(raw, STATE_KEYS),
                FieldOf(raw, SMSC_KEYS), FieldOf(raw, TIMESTAMP_KEYS))
  }

  /** The key under which `mmcli` itself names a field decides alone if it has a value. */
  lemma OwnKeysDecide(raw: Snapshot)
    ensures HasValue([raw], 0, "smscontentnumber") ==> FieldsOf(raw).fromNumber == Strip(raw["smscontentnumber"])
    ensures HasValue([raw], 0, "smscontenttext") ==> FieldsOf(raw).text == Strip(raw["smscontenttext"])
    ensures HasValue([raw], 0, "smspropertiesstate") ==> FieldsOf(raw).mmState == Strip(raw["smspropertiesstate"])
    ensures HasValue([raw], 0, "smspropertiessmsc") ==> FieldsOf(raw).smsc == Strip(raw["smspropertiessmsc"])
    ensures HasValue([raw], 0, "smspropertiestimestamp") ==>
              FieldsOf(raw).timestamp == Strip(raw["smspropertiestimestamp"])
  {
  }

  /** And no other key feeds two fields. */
  lemma NoKeyFeedsTwoFields(k: string)
    requires k in NUMBER_KEYS || k in TEXT_KEYS || k in STATE_KEYS || k in SMSC_KEYS || k in TIMESTAMP_KEYS
    ensures (if k in NUMBER_KEYS then 1 else 0) + (if k in TEXT_KEYS then 1 else 0) + (if k in STATE_KEYS then 1 else 0)
            + (if k in SMSC_KEYS then 1 else 0) + (if k in TIMESTAMP_KEYS then 1 else 0) == 1
  {
  }

  lemma FieldIsTrimmed(raw: Snapshot, keys: seq<string>)
    ensures Trimmed(FieldOf(raw, keys))
  {
    ExtractedValue(raw, keys);
  }

  /** Whatever the modem answers, the fields persisted from it are stripped. */
  lemma PolledFieldsAreExtracted(raw: Snapshot)
    ensures FieldsOf(raw).Extracted()
  {
    FieldIsTrimmed(raw, NUMBER_KEYS);
    FieldIsTrimmed(raw, TEXT_KEYS);
    FieldIsTrimmed(raw, STATE_KEYS);
    FieldIsTrimmed(raw, SMSC_KEYS);
    FieldIsTrimmed(raw, TIMESTAMP_KEYS);
  }
}
