/**
 The life of a mutating command on the connector: look the key up, record intent, run the
 handler against Tally, then settle or delete. Commands of a session are handled one after
 another, but a sweep of the cache can fall between any two awaits, and the session can be
 torn down at any of them.

 The machine counts what happens to one watched key, which is arbitrary; so every theorem is
 about every key.
 */
module CommandProtocol {
  import opened Prelude
  import opened CommandCache

  // ------------------------------------------------------------------
  // How an answer of Tally becomes an envelope
  // ------------------------------------------------------------------

  datatype TallyError =
    | TallyUnreachable | TallyResponseError | TallyParseError | TallyImportRejected
    | TallyAmbiguousResponse | WrongCompanyOpen | TallyPeriodNotCovered

  /** What a handler does: return a result, return an error of its own, or raise. */
  datatype Outcome = Result(body: string) | ErrorResult(body: string) | Raised(error: TallyError, body: string)

  predicate RetryableError(error: TallyError) {
    error.TallyUnreachable? || error.TallyResponseError? || error.TallyAmbiguousResponse? || error.WrongCompanyOpen?
  }

  function EnvelopeOf(outcome: Outcome): Envelope {
    match outcome
    case Result(body) => Envelope(true, false, body)
    case ErrorResult(body) => Envelope(false, false, body)
    case Raised(error, body) => Envelope(false, RetryableError(error), body)
  }

  /** The counters of an import response; `lineError` says that the element was there with text. */
  datatype ImportResponse = ImportResponse(expected: int, exceptions: int, lineError: bool)

  /** Strict success, strict rejection, or neither. */
  function ValidateImport(r: ImportResponse, body: string): Outcome {
    if r.expected >= 1 && r.exceptions == 0 && !r.lineError then Result(body)
    else if r.expected == 0 && r.exceptions >= 1 then Raised(TallyImportRejected, body)
    else Raised(TallyAmbiguousResponse, body)
  }

  /**
   A retryable answer does not always mean that Tally changed nothing: of the answers whose
   counter reports a change, the retryable ones are exactly those with exceptions or an error line.
   */
  lemma {:induction false} RetryableDespiteChange(r: ImportResponse, body: string)
    ensures EnvelopeOf(ValidateImport(r, body)).retryable && r.expected >= 1 <==>
            r.expected >= 1 && (r.exceptions != 0 || r.lineError)
    ensures r.expected >= 1 ==> !EnvelopeOf(ValidateImport(r, body)).retryable ==>
            EnvelopeOf(ValidateImport(r, body)).success
  {
  }

  // ------------------------------------------------------------------
  // The machine
  // ------------------------------------------------------------------

  /** Where the one command that is being handled stands. */
  datatype Phase =
    | Idle
    | Looked(key: Key, hash: string)                     // no row: intent is recorded next
    | Ready(key: Key)                                    // the in-flight row is there: the handler runs next
    | Running(key: Key)                                  // the handler is talking to Tally
    | Answered(key: Key, answer: Envelope, took: bool)   // the handler is back; `took`: Tally applied it

  /** What happened so far to the watched key. */
  datatype Counts = Counts(
    executions: nat,     // handler runs begun
    settles: nat,        // rows settled as completed or failed
    retryDeletes: nat,   // rows deleted for a retry
    interrupted: nat,    // handler runs whose settling was cut off
    removals: nat,       // rows removed by the sweep
    applied: nat,        // how often Tally applied the command since the last removal
    risks: nat,          // how many of these were retried or cut off
    conflicts: nat,      // in-flight inserts that were refused
    replies: seq<Envelope>,
    birth: Option<(string, int)>)  // hash and time of the insert that made the present row

  datatype State = State(rows: Rows, phase: Phase, count: Counts)

  datatype Event =
    | Receive(key: Key, hash: string)
    | Record(now: int)
    | Begin
    | Return(outcome: Outcome, taken: bool)
    | Finish(now: int)
    | Interrupt(lost: bool)      // `lost`: Tally applied, or will apply, the run that is cut off
    | Cleanup(cutoff: int)

  function One(b: bool): nat {
    if b then 1 else 0
  }

  function Lookup(w: Key, s: State, key: Key, hash: string): State {
    if Terminal(s.rows, key) then
      var reply := PayloadOf(s.rows[key]);
      s.(count := if key == w then s.count.(replies := s.count.replies + [reply]) else s.count)
    else if key in s.rows then s.(phase := Ready(key))
    else s.(phase := Looked(key, hash))
  }

  function Insert(w: Key, s: State, now: int): State
    requires s.phase.Looked?
  {
    var key := s.phase.key;
    if key in s.rows then
      s.(phase := Idle, count := s.count.(conflicts := s.count.conflicts + One(key == w)))
    else
      State(Inserted(s.rows, key, s.phase.hash, now), Ready(key),
            if key == w then s.count.(birth := Some((s.phase.hash, now))) else s.count)
  }

  function Answer(w: Key, s: State, outcome: Outcome, taken: bool): State
    requires s.phase.Running?
  {
    s.(phase := Answered(s.phase.key, EnvelopeOf(outcome), taken),
       count := s.count.(applied := s.count.applied + One(s.phase.key == w && taken)))
  }

  /** The terminal decision: cache a success or a final error, forget a retryable error. */
  function SettledRows(rows: Rows, key: Key, answer: Envelope, now: int): Rows {
    if answer.success then Upserted(rows, key, Completed, answer, now)
    else if answer.retryable then rows - {key}
    else Upserted(rows, key, Failed, answer, now)
  }

  function Conclude(w: Key, s: State, now: int): State
    requires s.phase.Answered?
  {
    var key, answer := s.phase.key, s.phase.answer;
    var retry := !answer.success && answer.retryable;
    var c := s.count;
    State(SettledRows(s.rows, key, answer, now), Idle,
          if key != w then c
          else c.(settles := c.settles + One(!retry),
                  retryDeletes := c.retryDeletes + One(retry),
                  risks := c.risks + One(retry && s.phase.took),
                  replies := c.replies + [answer]))
  }

  function Cut(w: Key, s: State, lost: bool): State {
    var c := s.count;
    match s.phase
    case Running(key) =>
      s.(phase := Idle,
         count := if key == w
                  then c.(interrupted := c.interrupted + 1,
                          applied := c.applied + One(lost), risks := c.risks + One(lost))
                  else c)
    case Answered(key, _, took) =>
      s.(phase := Idle,
         count := if key == w then c.(interrupted := c.interrupted + 1, risks := c.risks + One(took)) else c)
    case _ => s.(phase := Idle)
  }

  function Sweep(w: Key, s: State, cutoff: int): State {
    s.(rows := Swept(s.rows, cutoff),
       count := if Stale(s.rows, w, cutoff)
                then s.count.(removals := s.count.removals + 1, applied := 0, risks := 0)
                else s.count)
  }

  /** One step; an event that the phase does not allow changes nothing. */
  function Step(w: Key, s: State, e: Event): State {
    match e
    case Receive(key, hash) => if s.phase.Idle? then Lookup(w, s, key, hash) else s
    case Record(now) => if s.phase.Looked? then Insert(w, s, now) else s
    case Begin =>
      if s.phase.Ready?
      then s.(phase := Running(s.phase.key),
              count := s.count.(executions := s.count.executions + One(s.phase.key == w)))
      else s
    case Return(outcome, taken) => if s.phase.Running? then Answer(w, s, outcome, taken) else s
    case Finish(now) => if s.phase.Answered? then Conclude(w, s, now) else s
    case Interrupt(lost) => Cut(w, s, lost)
    case Cleanup(cutoff) => Sweep(w, s, cutoff)
  }

  function Run(w: Key, s: State, events: seq<Event>): State
    decreases |events|
  {
    if events == [] then s else Run(w, Step(w, s, events[0]), events[1..])
  }

  const NOTHING := Counts(0, 0, 0, 0, 0, 0, 0, 0, [], None)
  const FRESH := State(map[], Idle, NOTHING)

  // ------------------------------------------------------------------
  // What every run keeps
  // ------------------------------------------------------------------

  /** A handler run for the watched key has begun and is not over. */
  predicate Executing(w: Key, s: State) {
    (s.phase.Running? || s.phase.Answered?) && s.phase.key == w
  }

  ghost predicate PhaseFits(s: State) {
    match s.phase
    case Idle => true
    case Looked(key, _) => key !in s.rows
    case Ready(key) => key in s.rows && s.rows[key].status == InFlight
    case Running(key) => key in s.rows && s.rows[key].status == InFlight
    case Answered(key, _, _) => key in s.rows && s.rows[key].status == InFlight
  }

  /** A terminal row holds an envelope that may be replayed: a success, or an error that is final. */
  ghost predicate RowsFit(rows: Rows) {
    forall key | key in rows ::
      match rows[key].status
      case InFlight => rows[key].payload == None
      case Completed => rows[key].payload.Some? && rows[key].payload.value.success
      case Failed => rows[key].payload.Some? && !rows[key].payload.value.success && !rows[key].payload.value.retryable
  }

  ghost predicate Invariant(w: Key, s: State) {
    var c := s.count;
    && PhaseFits(s) && RowsFit(s.rows)
    && c.executions == c.settles + c.retryDeletes + c.interrupted + One(Executing(w, s))
    && c.settles == c.removals + One(Terminal(s.rows, w))
    && c.applied <= c.risks + One(Terminal(s.rows, w) || (Executing(w, s) && s.phase.Answered? && s.phase.took))
    && c.conflicts == 0
    && (w in s.rows ==> c.birth == Some((s.rows[w].hash, s.rows[w].createdAt)))
  }

  lemma {:induction false} ReceiveKeeps(w: Key, s: State, key: Key, hash: string)
    requires Invariant(w, s) && s.phase.Idle?
    ensures Invariant(w, Lookup(w, s, key, hash))
  {
  }

  lemma {:induction false} RecordKeeps(w: Key, s: State, now: int)
    requires Invariant(w, s) && s.phase.Looked?
    ensures Invariant(w, Insert(w, s, now))
  {
  }

  lemma {:induction false} ReturnKeeps(w: Key, s: State, outcome: Outcome, taken: bool)
    requires Invariant(w, s) && s.phase.Running?
    ensures Invariant(w, Answer(w, s, outcome, taken))
  {
  }

  lemma {:induction false} FinishKeeps(w: Key, s: State, now: int)
    requires Invariant(w, s) && s.phase.Answered?
    ensures Invariant(w, Conclude(w, s, now))
  {
  }

  lemma {:induction false} InterruptKeeps(w: Key, s: State, lost: bool)
    requires Invariant(w, s)
    ensures Invariant(w, Cut(w, s, lost))
  {
  }

  lemma {:induction false} CleanupKeeps(w: Key, s: State, cutoff: int)
    requires Invariant(w, s)
    ensures Invariant(w, Sweep(w, s, cutoff))
  {
  }

  lemma {:induction false} StepKeeps(w: Key, s: State, e: Event)
    requires Invariant(w, s)
    ensures Invariant(w, Step(w, s, e))
  {
    match e
    case Receive(key, hash) => if s.phase.Idle? { ReceiveKeeps(w, s, key, hash); }
    case Record(now) => if s.phase.Looked? { RecordKeeps(w, s, now); }
    case Begin =>
    case Return(outcome, taken) => if s.phase.Running? { ReturnKeeps(w, s, outcome, taken); }
    case Finish(now) => if s.phase.Answered? { FinishKeeps(w, s, now); }
    case Interrupt(lost) => InterruptKeeps(w, s, lost);
    case Cleanup(cutoff) => CleanupKeeps(w, s, cutoff);
  }

  lemma {:induction false} RunKeeps(w: Key, s: State, events: seq<Event>)
    requires Invariant(w, s)
    ensures Invariant(w, Run(w, s, events))
    decreases |events|
  {
    if events != [] {
      StepKeeps(w, s, events[0]);
      RunKeeps(w, Step(w, s, events[0]), events[1..]);
    }
  }

  /** Where every handler run went, and every settled row, whatever was replayed, retried, swept or cut off. */
  lemma {:induction false} RunsAreAccountedFor(w: Key, events: seq<Event>)
    ensures
      var s := Run(w, FRESH, events);
      var c := s.count;
      && c.executions == c.settles + c.retryDeletes + c.interrupted + One(Executing(w, s))
      && c.settles == c.removals + One(Terminal(s.rows, w))
  {
    RunKeeps(w, FRESH, events);
  }

  /** No in-flight insert is ever refused, and a row keeps the hash and time of the insert that made it. */
  lemma {:induction false} RowsKeepTheirFirstAttempt(w: Key, events: seq<Event>)
    ensures
      var s := Run(w, FRESH, events);
      && s.count.conflicts == 0
      && (w in s.rows ==> s.count.birth == Some((s.rows[w].hash, s.rows[w].createdAt)))
      && (Terminal(s.rows, w) ==>
          (s.rows[w].payload.Some? && (s.rows[w].payload.value.success || !s.rows[w].payload.value.retryable)))
  {
    RunKeeps(w, FRESH, events);
  }

  // ------------------------------------------------------------------
  // A terminal row answers for good
  // ------------------------------------------------------------------

  function Copies(e: Envelope, n: nat): seq<Envelope> {
    if n == 0 then [] else Copies(e, n - 1) + [e]
  }

  /** How many of these events deliver the watched key to an idle connector. */
  function Deliveries(w: Key, s: State, events: seq<Event>): nat
    decreases |events|
  {
    if events == [] then 0
    else
      One(s.phase.Idle? && events[0].Receive? && events[0].key == w) +
      Deliveries(w, Step(w, s, events[0]), events[1..])
  }

  lemma {:induction false} RemovalsGrow(w: Key, s: State, events: seq<Event>)
    ensures Run(w, s, events).count.removals >= s.count.removals
    decreases |events|
  {
    if events != [] {
      RemovalsGrow(w, Step(w, s, events[0]), events[1..]);
    }
  }

  lemma {:induction false} TerminalStep(w: Key, s: State, e: Event)
    requires Invariant(w, s) && Terminal(s.rows, w)
    requires Step(w, s, e).count.removals == s.count.removals
    ensures
      var t := Step(w, s, e);
      && w in t.rows && t.rows[w] == s.rows[w]
      && t.count.executions == s.count.executions
      && t.count.applied == s.count.applied
      && t.count.replies ==
         if s.phase.Idle? && e.Receive? && e.key == w then s.count.replies + [s.rows[w].payload.value]
         else s.count.replies
  {
  }

  lemma {:induction false} CopiesFront(e: Envelope, n: nat)
    ensures [e] + Copies(e, n) == Copies(e, n + 1)
  {
    if n > 0 {
      CopiesFront(e, n - 1);
      assert [e] + (Copies(e, n - 1) + [e]) == ([e] + Copies(e, n - 1)) + [e];
    }
  }

  /**
   Until the sweep removes it, a terminal row stays as it is, and every delivery of its key is
   answered with its envelope, without a handler run and without a change in Tally.
   */
  lemma {:induction false} TerminalRowsAnswerForGood(w: Key, s: State, events: seq<Event>)
    requires Invariant(w, s) && Terminal(s.rows, w)
    requires Run(w, s, events).count.removals == s.count.removals
    ensures
      var t := Run(w, s, events);
      && w in t.rows && t.rows[w] == s.rows[w]
      && t.count.executions == s.count.executions
      && t.count.applied == s.count.applied
      && t.count.replies == s.count.replies + Copies(s.rows[w].payload.value, Deliveries(w, s, events))
    decreases |events|
  {
    if events != [] {
      var t := Step(w, s, events[0]);
      RemovalsGrow(w, t, events[1..]);
      RemovalsGrow(w, s, [events[0]]);
      StepKeeps(w, s, events[0]);
      TerminalStep(w, s, events[0]);
      TerminalRowsAnswerForGood(w, t, events[1..]);
      var e, n := s.rows[w].payload.value, Deliveries(w, t, events[1..]);
      CopiesFront(e, n);
      assert (s.count.replies + [e]) + Copies(e, n) == s.count.replies + ([e] + Copies(e, n));
    }
  }

  /** NOTHING but the end of its own handler run takes an in-flight row away: no sweep, no other command. */
  lemma {:induction false} InFlightEndsOnlyByFinishing(w: Key, s: State, e: Event)
    requires Invariant(w, s) && w in s.rows && s.rows[w].status == InFlight
    requires w !in Step(w, s, e).rows || Step(w, s, e).rows[w] != s.rows[w]
    ensures e.Finish? && s.phase.Answered? && s.phase.key == w
  {
  }

  // ------------------------------------------------------------------
  // At most once
  // ------------------------------------------------------------------

  /** The present life of the row has no risk in it. */
  ghost predicate Careful(w: Key, s: State) {
    && s.count.risks == 0
    && (Executing(w, s) && s.phase.Answered? && !s.phase.answer.success && s.phase.answer.retryable ==> !s.phase.took)
  }

  /** A retryable answer means that Tally changed nothing, and no handler run of the key is cut off. */
  ghost predicate CarefulEvent(w: Key, s: State, e: Event) {
    && (e.Return? && EnvelopeOf(e.outcome).retryable ==> !e.taken)
    && (e.Interrupt? ==> !Executing(w, s))
  }

  ghost predicate CarefulRun(w: Key, s: State, events: seq<Event>)
    decreases |events|
  {
    events == [] || (CarefulEvent(w, s, events[0]) && CarefulRun(w, Step(w, s, events[0]), events[1..]))
  }

  lemma {:induction false} CarefulRunsHaveNoRisk(w: Key, s: State, events: seq<Event>)
    requires Careful(w, s) && CarefulRun(w, s, events)
    ensures Careful(w, Run(w, s, events))
    decreases |events|
  {
    if events != [] {
      CarefulRunsHaveNoRisk(w, Step(w, s, events[0]), events[1..]);
    }
  }

  /**
   Tally applies a command at most once, plus once for every run that was retried or cut off
   although Tally had applied it, until the row is swept.
   */
  lemma {:induction false} AppliedAtMostOncePlusRisks(w: Key, events: seq<Event>)
    ensures var c := Run(w, FRESH, events).count; c.applied <= 1 + c.risks
  {
    RunKeeps(w, FRESH, events);
  }

  /** With careful answers and no interruption: at most once, and not at all while no row says so. */
  lemma {:induction false} AtMostOnce(w: Key, events: seq<Event>)
    requires CarefulRun(w, FRESH, events)
    ensures
      var s := Run(w, FRESH, events);
      s.count.applied <= 1 && (s.count.applied == 1 ==> Terminal(s.rows, w) || Executing(w, s))
  {
    RunKeeps(w, FRESH, events);
    CarefulRunsHaveNoRisk(w, FRESH, events);
  }

  // When exactly at most once holds

  /** Every run that was retried or cut off is one that Tally applied, and so is one that waits to be settled. */
  ghost predicate RisksApplied(w: Key, s: State) {
    s.count.risks + One(Executing(w, s) && s.phase.Answered? && s.phase.took) <= s.count.applied
  }

  /** This event makes Tally apply the watched command. */
  predicate Applies(w: Key, s: State, e: Event) {
    s.phase.Running? && s.phase.key == w && ((e.Return? && e.taken) || (e.Interrupt? && e.lost))
  }

  /**
   No event makes Tally apply the command after a run that it had already applied was retried or
   cut off, in the present life of the row.
   */
  ghost predicate NoneRepeated(w: Key, s: State, events: seq<Event>)
    decreases |events|
  {
    || events == []
    || ((Applies(w, s, events[0]) ==> s.count.risks == 0) && NoneRepeated(w, Step(w, s, events[0]), events[1..]))
  }

  /** Tally has applied the command at most once, now and after each of these events. */
  ghost predicate StaysOnce(w: Key, s: State, events: seq<Event>)
    decreases |events|
  {
    s.count.applied <= 1 && (events == [] || StaysOnce(w, Step(w, s, events[0]), events[1..]))
  }

  lemma {:induction false} StepKeepsRisks(w: Key, s: State, e: Event)
    requires Invariant(w, s) && RisksApplied(w, s)
    ensures RisksApplied(w, Step(w, s, e))
  {
  }

  /** One event: at most once goes on exactly when the event does not repeat what was applied. */
  lemma {:induction false} StepStaysOnceIff(w: Key, s: State, e: Event)
    requires Invariant(w, s) && RisksApplied(w, s) && s.count.applied <= 1
    ensures Step(w, s, e).count.applied <= 1 <==> (Applies(w, s, e) ==> s.count.risks == 0)
  {
  }

  lemma {:induction false} StaysOnceIff(w: Key, s: State, events: seq<Event>)
    requires Invariant(w, s) && RisksApplied(w, s) && s.count.applied <= 1
    ensures StaysOnce(w, s, events) <==> NoneRepeated(w, s, events)
    decreases |events|
  {
    if events != [] {
      var t := Step(w, s, events[0]);
      StepKeeps(w, s, events[0]);
      StepKeepsRisks(w, s, events[0]);
      StepStaysOnceIff(w, s, events[0]);
      if t.count.applied <= 1 {
        StaysOnceIff(w, t, events[1..]);
      }
    }
  }

  lemma {:induction false} StaysOnceIsEveryPrefix(w: Key, s: State, events: seq<Event>)
    ensures StaysOnce(w, s, events) <==>
            forall n | 0 <= n <= |events| :: Run(w, s, events[..n]).count.applied <= 1
    decreases |events|
  {
    assert Run(w, s, events[..0]) == s;
    if events != [] {
      var t, later := Step(w, s, events[0]), events[1..];
      StaysOnceIsEveryPrefix(w, t, later);
      forall n | 1 <= n <= |events| ensures Run(w, s, events[..n]) == Run(w, t, later[..n - 1]) {
        assert events[..n][1..] == later[..n - 1];
      }
      forall n | 0 <= n <= |later| ensures Run(w, t, later[..n]) == Run(w, s, events[..n + 1]) {
        assert events[..n + 1][1..] == later[..n];
      }
    }
  }

  /**
   Exactly when a command is applied at most once, over all runs, at every moment and until its row
   is swept: when Tally is never made to apply it after a run that it had applied was answered with a
   retryable error or cut off.
   */
  lemma {:induction false} AtMostOnceIff(w: Key, events: seq<Event>)
    ensures (forall n | 0 <= n <= |events| :: Run(w, FRESH, events[..n]).count.applied <= 1) <==>
            NoneRepeated(w, FRESH, events)
  {
    StaysOnceIff(w, FRESH, events);
    StaysOnceIsEveryPrefix(w, FRESH, events);
  }

  /**
   The first way to a second application: a handler run that Tally applied is cut off before it
   settles and is repeated when the key comes again.
   */
  lemma {:induction false} CutOffRunIsRepeated(w: Key, hash: string, body: string, t: int)
    ensures
      var events := [Receive(w, hash), Record(t), Begin, Interrupt(true),
                     Receive(w, hash), Begin, Return(Result(body), true), Finish(t)];
      var s := Run(w, FRESH, events);
      s.count.applied == 2 && s.count.removals == 0 && s.count.executions == 2 && Terminal(s.rows, w)
  {
    var s1 := Step(w, FRESH, Receive(w, hash));
    var s2 := Step(w, s1, Record(t));
    var s3 := Step(w, s2, Begin);
    var s4 := Step(w, s3, Interrupt(true));
    var s5 := Step(w, s4, Receive(w, hash));
    var s6 := Step(w, s5, Begin);
    var s7 := Step(w, s6, Return(Result(body), true));
    var s8 := Step(w, s7, Finish(t));
    assert Terminal(s8.rows, w) && s8.count.applied == 2 && s8.count.executions == 2 && s8.count.removals == 0;
    var later6 := [Return(Result(body), true), Finish(t)];
    var later4 := [Receive(w, hash), Begin] + later6;
    var later2 := [Begin, Interrupt(true)] + later4;
    assert later6 + [] == later6;
    RunTwo(w, s6, Return(Result(body), true), Finish(t), []);
    RunTwo(w, s4, Receive(w, hash), Begin, later6);
    RunTwo(w, s2, Begin, Interrupt(true), later4);
    RunTwo(w, FRESH, Receive(w, hash), Record(t), later2);
    assert [Receive(w, hash), Record(t), Begin, Interrupt(true),
            Receive(w, hash), Begin, Return(Result(body), true), Finish(t)] == [Receive(w, hash), Record(t)] + later2;
  }

  /**
   The second way, with no interruption at all: Tally answers an import with a change and with
   exceptions or an error line, the answer counts as retryable, the row is deleted, and the retry
   is applied again.
   */
  lemma {:induction false} RetriedRunIsRepeated(w: Key, hash: string, r: ImportResponse, body: string, t: int)
    requires r.expected >= 1 && (r.exceptions != 0 || r.lineError)
    ensures
      var answer := ValidateImport(r, body);
      var events := [Receive(w, hash), Record(t), Begin, Return(answer, true), Finish(t),
                     Receive(w, hash), Record(t), Begin, Return(Result(body), true), Finish(t)];
      var s := Run(w, FRESH, events);
      s.count.applied == 2 && s.count.removals == 0 && s.count.interrupted == 0 && Terminal(s.rows, w)
  {
    var answer := ValidateImport(r, body);
    RetryableDespiteChange(r, body);
    var s2 := Step(w, Step(w, FRESH, Receive(w, hash)), Record(t));
    var s4 := Step(w, Step(w, s2, Begin), Return(answer, true));
    var s6 := Step(w, Step(w, s4, Finish(t)), Receive(w, hash));
    var s8 := Step(w, Step(w, s6, Record(t)), Begin);
    var s10 := Step(w, Step(w, s8, Return(Result(body), true)), Finish(t));
    assert s2.phase == Ready(w) && s4.phase == Answered(w, EnvelopeOf(answer), true) && s4.count.applied == 1;
    assert w !in Step(w, s4, Finish(t)).rows;
    assert s6.phase == Looked(w, hash) && s6.count.applied == 1;
    assert s8.phase == Running(w) && s8.count.applied == 1;
    assert s10.count.applied == 2 && s10.count.removals == 0 && s10.count.interrupted == 0 && Terminal(s10.rows, w);
    var later8 := [Return(Result(body), true), Finish(t)];
    var later6 := [Record(t), Begin] + later8;
    var later4 := [Finish(t), Receive(w, hash)] + later6;
    var later2 := [Begin, Return(answer, true)] + later4;
    assert later8 + [] == later8;
    RunTwo(w, s8, Return(Result(body), true), Finish(t), []);
    RunTwo(w, s6, Record(t), Begin, later8);
    RunTwo(w, s4, Finish(t), Receive(w, hash), later6);
    RunTwo(w, s2, Begin, Return(answer, true), later4);
    RunTwo(w, FRESH, Receive(w, hash), Record(t), later2);
    assert [Receive(w, hash), Record(t), Begin, Return(answer, true), Finish(t),
            Receive(w, hash), Record(t), Begin, Return(Result(body), true), Finish(t)] ==
           [Receive(w, hash), Record(t)] + later2;
  }

  lemma {:induction false} RunTwo(w: Key, s: State, a: Event, b: Event, later: seq<Event>)
    ensures Run(w, s, [a, b] + later) == Run(w, Step(w, Step(w, s, a), b), later)
  {
    assert ([a, b] + later)[1..] == [b] + later;
    assert ([b] + later)[1..] == later;
  }

  // ------------------------------------------------------------------
  // The coroutine
  // ------------------------------------------------------------------

  /**
   One dispatch as steps of the machine. `cut` counts the awaits that are passed before the
   session is torn down: 0 at the lookup, 1 at the insert, 2 in the handler, 3 at the settling;
   a larger number means that the dispatch comes to its end.
   */
  function Attempt(
      w: Key, s: State, key: Key, hash: string, outcome: Outcome, taken: bool, cut: nat, insertAt: int, settleAt: int)
    : State
  {
    if cut == 0 then s
    else
      var looked := Step(w, s, Receive(key, hash));
      if looked.phase.Idle? then looked
      else if cut == 1 && looked.phase.Looked? then Step(w, looked, Interrupt(false))
      else
        var ready := Step(w, looked, Record(insertAt));
        AttemptToRun(w, Step(w, ready, Begin), outcome, taken, cut, settleAt)
  }

  /** The rest of a dispatch whose handler has begun. */
  function AttemptToRun(w: Key, running: State, outcome: Outcome, taken: bool, cut: nat, settleAt: int): State {
    if cut <= 2 then Step(w, running, Interrupt(taken))
    else
      var answered := Step(w, running, Return(outcome, taken));
      if cut == 3 then Step(w, answered, Interrupt(taken)) else Step(w, answered, Finish(settleAt))
  }

  lemma {:induction false} OneMore(w: Key, s: State, events: seq<Event>, e: Event)
    ensures Run(w, s, events + [e]) == Step(w, Run(w, s, events), e)
    decreases |events|
  {
    if events == [] {
      assert (events + [e])[1..] == [];
      assert Run(w, Step(w, s, e), []) == Step(w, s, e);
    } else {
      assert (events + [e])[1..] == events[1..] + [e];
      OneMore(w, Step(w, s, events[0]), events[1..], e);
    }
  }

  /** Every dispatch, wherever it is cut off, is a run of the machine. */
  lemma {:induction false} AttemptIsRun(
      w: Key, s: State, key: Key, hash: string, outcome: Outcome, taken: bool, cut: nat, insertAt: int, settleAt: int)
    returns (events: seq<Event>)
    ensures Run(w, s, events) == Attempt(w, s, key, hash, outcome, taken, cut, insertAt, settleAt)
  {
    events := [];
    if cut > 0 {
      OneMore(w, s, events, Receive(key, hash));
      events := events + [Receive(key, hash)];
      var looked := Step(w, s, Receive(key, hash));
      if cut == 1 && looked.phase.Looked? {
        OneMore(w, s, events, Interrupt(false));
        events := events + [Interrupt(false)];
      } else if !looked.phase.Idle? {
        OneMore(w, s, events, Record(insertAt));
        events := events + [Record(insertAt)];
        OneMore(w, s, events, Begin);
        events := events + [Begin];
        events := Finished(w, s, events, outcome, taken, cut, settleAt);
      }
    }
  }

  lemma {:induction false} Finished(
      w: Key, s: State, before: seq<Event>, outcome: Outcome, taken: bool, cut: nat, settleAt: int)
    returns (events: seq<Event>)
    ensures Run(w, s, events) == AttemptToRun(w, Run(w, s, before), outcome, taken, cut, settleAt)
  {
    if cut <= 2 {
      OneMore(w, s, before, Interrupt(taken));
      events := before + [Interrupt(taken)];
    } else {
      OneMore(w, s, before, Return(outcome, taken));
      events := before + [Return(outcome, taken)];
      var last := if cut == 3 then Interrupt(taken) else Finish(settleAt);
      OneMore(w, s, events, last);
      events := events + [last];
    }
  }

  /** What a dispatch leaves in the cache, what it replies, and whether the handler ran. */
  datatype Dispatch = Dispatch(rows: Rows, reply: Option<Envelope>, ran: bool)

  /** The payload of a row, or an empty object. */
  function PayloadOf(entry: Entry): Envelope {
    if entry.payload.Some? then entry.payload.value else Envelope(false, false, "")
  }

  /** `lands`: a write that the session no longer waits for is carried out all the same. */
  function Dispatched(
      rows: Rows, key: Key, hash: string, outcome: Outcome, cut: nat, lands: bool, insertAt: int, settleAt: int)
    : Dispatch
  {
    var recorded := if key in rows then rows else Inserted(rows, key, hash, insertAt);
    var settled := SettledRows(recorded, key, EnvelopeOf(outcome), settleAt);
    if cut == 0 then Dispatch(rows, None, false)
    else if Terminal(rows, key) then Dispatch(rows, Some(PayloadOf(rows[key])), false)
    else if cut == 1 && key !in rows then Dispatch(if lands then recorded else rows, None, false)
    else if cut <= 2 then Dispatch(recorded, None, true)
    else if cut == 3 then Dispatch(if lands then settled else recorded, None, true)
    else Dispatch(settled, Some(EnvelopeOf(outcome)), true)
  }

  lemma {:induction false} ReadyToRun(rows: Rows, key: Key, hash: string, insertAt: int)
    requires !Terminal(rows, key)
    ensures
      var looked := Step(key, State(rows, Idle, NOTHING), Receive(key, hash));
      var running := Step(key, Step(key, looked, Record(insertAt)), Begin);
      && (looked.phase.Looked? <==> key !in rows) && !looked.phase.Idle?
      && looked.rows == rows && looked.count == NOTHING
      && running.phase == Running(key) && running.count.executions == 1 && running.count.replies == []
      && running.rows == if key in rows then rows else Inserted(rows, key, hash, insertAt)
  {
  }

  lemma {:induction false} RunToEnd(
      key: Key, running: State, outcome: Outcome, taken: bool, cut: nat, settleAt: int)
    requires running.phase == Running(key) && running.count.executions == 1 && running.count.replies == []
    ensures
      var s := AttemptToRun(key, running, outcome, taken, cut, settleAt);
      && s.phase == Idle && s.count.executions == 1
      && s.rows == (if cut <= 3 then running.rows else SettledRows(running.rows, key, EnvelopeOf(outcome), settleAt))
      && s.count.replies == (if cut <= 3 then [] else [EnvelopeOf(outcome)])
  {
  }

  /** The dispatch is an attempt, hence a run, of the machine: same rows, same reply, same execution. */
  lemma {:induction false} DispatchIsAttempt(
      rows: Rows, key: Key, hash: string, outcome: Outcome, taken: bool, cut: nat, insertAt: int, settleAt: int)
    ensures
      var d := Dispatched(rows, key, hash, outcome, cut, false, insertAt, settleAt);
      var s := Attempt(key, State(rows, Idle, NOTHING), key, hash, outcome, taken, cut, insertAt, settleAt);
      && s.phase == Idle && d.rows == s.rows
      && (d.ran <==> s.count.executions == 1)
      && d.reply == (if s.count.replies == [] then None else Some(s.count.replies[0]))
  {
    if cut > 0 && !Terminal(rows, key) {
      var looked := Step(key, State(rows, Idle, NOTHING), Receive(key, hash));
      ReadyToRun(rows, key, hash, insertAt);
      RunToEnd(key, Step(key, Step(key, looked, Record(insertAt)), Begin), outcome, taken, cut, settleAt);
    }
  }

  /** The dispatch itself: the cache is written in this order, and the row decides whether Tally is asked. */
  method DispatchMutatingWithCache(
      cache: IdempotencyCache, key: Key, hash: string, outcome: Outcome, cut: nat, lands: bool,
      insertAt: int, settleAt: int)
    returns (reply: Option<Envelope>, ran: bool)
    modifies cache
    ensures Dispatch(cache.rows, reply, ran) ==
            Dispatched(old(cache.rows), key, hash, outcome, cut, lands, insertAt, settleAt)
  {
    reply, ran := None, false;
    if cut == 0 {
      return;
    }
    var existing := cache.Get(key);
    if existing.Some? && existing.value.status == Completed {
      reply := Some(PayloadOf(existing.value));
      return;
    }
    if existing.Some? && existing.value.status == Failed {
      reply := Some(PayloadOf(existing.value));
      return;
    }
    if existing.Some? && existing.value.status == InFlight {
      // A prior attempt never settled: go on as if the key came for the first time.
    } else {
      if cut > 1 || lands {
        var inserted := cache.RecordInFlight(key, hash, insertAt);
      }
      if cut == 1 {
        return;
      }
    }
    ran := true;
    reply := RunAndSettle(cache, key, outcome, cut, lands, settleAt);
  }

  /** The handler, and the terminal decision that its envelope asks for. */
  method RunAndSettle(cache: IdempotencyCache, key: Key, outcome: Outcome, cut: nat, lands: bool, now: int)
    returns (reply: Option<Envelope>)
    modifies cache
    ensures cache.rows ==
            if cut > 3 || (cut == 3 && lands) then SettledRows(old(cache.rows), key, EnvelopeOf(outcome), now)
            else old(cache.rows)
    ensures reply == if cut <= 3 then None else Some(EnvelopeOf(outcome))
  {
    if cut <= 2 {
      return None;
    }
    var envelope := EnvelopeOf(outcome);
    if cut > 3 || lands {
      SettleOrDelete(cache, key, envelope, now);
    }
    reply := if cut == 3 then None else Some(envelope);
  }

  method SettleOrDelete(cache: IdempotencyCache, key: Key, envelope: Envelope, now: int)
    modifies cache
    ensures cache.rows == SettledRows(old(cache.rows), key, envelope, now)
  {
    if envelope.success {
      cache.RecordCompleted(key, envelope, now);
    } else if envelope.retryable {
      cache.DeleteForRetry(key);
    } else {
      cache.RecordFailed(key, envelope, now);
    }
  }
}
