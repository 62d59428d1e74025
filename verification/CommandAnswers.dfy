/**
 What a mutating command leads to, outcome by outcome: what is cached, what is forgotten, and what the
 next delivery of the same key gets.
 */
module CommandAnswers {
  import opened Prelude
  import opened CommandCache
  import opened CommandProtocol

  /** A dispatch that comes to its end; no session is torn down. */
  function Dispatching(rows: Rows, key: Key, hash: string, outcome: Outcome, insertAt: int, settleAt: int): Dispatch {
    Dispatched(rows, key, hash, outcome, 4, false, insertAt, settleAt)
  }

  /** However late it is cut off after that, and whatever lands. */
  lemma {:induction false} ToTheEnd(
      rows: Rows, key: Key, hash: string, outcome: Outcome, cut: nat, lands: bool, insertAt: int, settleAt: int)
    requires cut > 3
    ensures Dispatched(rows, key, hash, outcome, cut, lands, insertAt, settleAt) ==
            Dispatching(rows, key, hash, outcome, insertAt, settleAt)
  {
  }

  /** No settled row is in the way: there is no row, or a run that was never settled left one. */
  predicate Open(rows: Rows, key: Key) {
    key !in rows || rows[key].status == InFlight
  }

  /** The dispatch ran the handler, answered this, and left this status with the answer in the cache. */
  ghost predicate Leaves(d: Dispatch, key: Key, status: Status, answer: Envelope) {
    && d.ran && d.reply == Some(answer)
    && key in d.rows && d.rows[key].status == status && d.rows[key].payload == Some(answer)
  }

  /** The dispatch ran the handler, answered this, and left no row. */
  ghost predicate Forgets(d: Dispatch, key: Key, answer: Envelope) {
    d.ran && d.reply == Some(answer) && key !in d.rows
  }

  /** A result is cached as completed. */
  lemma {:induction false} SuccessIsCached(
      rows: Rows, key: Key, hash: string, body: string, insertAt: int, settleAt: int)
    requires Open(rows, key)
    ensures Leaves(Dispatching(rows, key, hash, Result(body), insertAt, settleAt), key, Completed,
                   Envelope(true, false, body))
  {
  }

  /** An error that the handler returns is final. */
  lemma {:induction false} HandlerErrorIsFinal(
      rows: Rows, key: Key, hash: string, body: string, insertAt: int, settleAt: int)
    requires Open(rows, key)
    ensures Leaves(Dispatching(rows, key, hash, ErrorResult(body), insertAt, settleAt), key, Failed,
                   Envelope(false, false, body))
  {
  }

  /** Of the errors of Tally, four may pass and are forgotten, and three are final and cached. */
  lemma {:induction false} TallyErrors(
      rows: Rows, key: Key, hash: string, body: string, insertAt: int, settleAt: int)
    requires Open(rows, key)
    ensures forall e | e in {TallyUnreachable, TallyResponseError, TallyAmbiguousResponse, WrongCompanyOpen} ::
              Forgets(Dispatching(rows, key, hash, Raised(e, body), insertAt, settleAt), key,
                      Envelope(false, true, body))
    ensures forall e | e in {TallyParseError, TallyImportRejected, TallyPeriodNotCovered} ::
              Leaves(Dispatching(rows, key, hash, Raised(e, body), insertAt, settleAt), key, Failed,
                     Envelope(false, false, body))
  {
  }

  /**
   The answers of an import: success needs the expected change, no exception and no error line; a
   rejection needs no change and an exception; anything else is forgotten and may be retried.
   */
  lemma {:induction false} ImportAnswers(
      rows: Rows, key: Key, hash: string, r: ImportResponse, body: string, insertAt: int, settleAt: int)
    requires Open(rows, key)
    ensures
      var d := Dispatching(rows, key, hash, ValidateImport(r, body), insertAt, settleAt);
      if r.expected >= 1 && r.exceptions == 0 && !r.lineError then
        Leaves(d, key, Completed, Envelope(true, false, body))
      else if r.expected == 0 && r.exceptions >= 1 then
        Leaves(d, key, Failed, Envelope(false, false, body))
      else
        Forgets(d, key, Envelope(false, true, body))
  {
  }

  /** What was cached is replayed: the same envelope, no handler, no change, whatever the next delivery brings. */
  lemma {:induction false} CachedIsReplayed(
      d: Dispatch, key: Key, status: Status, answer: Envelope,
      hash: string, outcome: Outcome, cut: nat, lands: bool, insertAt: int, settleAt: int)
    requires Leaves(d, key, status, answer) && status != InFlight && cut > 0
    ensures Dispatched(d.rows, key, hash, outcome, cut, lands, insertAt, settleAt) == Dispatch(d.rows, d.reply, false)
  {
  }

  /** A settled row without an envelope is answered with an empty object: neither success nor retryable. */
  lemma {:induction false} BareRowIsReplayed(
      rows: Rows, key: Key, hash: string, outcome: Outcome, cut: nat, lands: bool, insertAt: int, settleAt: int)
    requires key in rows && rows[key].status != InFlight && rows[key].payload == None && cut > 0
    ensures Dispatched(rows, key, hash, outcome, cut, lands, insertAt, settleAt) ==
            Dispatch(rows, Some(Envelope(false, false, "")), false)
  {
  }

  /** What was forgotten runs again: a new row with the new hash and time, and the handler. */
  lemma {:induction false} ForgottenRunsAgain(
      d: Dispatch, key: Key, answer: Envelope, hash: string, outcome: Outcome, insertAt: int, settleAt: int)
    requires Forgets(d, key, answer)
    ensures
      var begun := Dispatched(d.rows, key, hash, outcome, 2, false, insertAt, settleAt);
      && begun.ran && begun.rows == d.rows[key := Entry(hash, InFlight, None, insertAt, insertAt)]
    ensures Dispatching(d.rows, key, hash, outcome, insertAt, settleAt).ran
  {
  }

  /** A run that was cut off leaves its in-flight row, and the next delivery runs again on that row. */
  lemma {:induction false} CutOffRunsAgain(
      rows: Rows, key: Key, hash: string, outcome: Outcome, cut: nat, insertAt: int, settleAt: int,
      hash': string, outcome': Outcome, insertAt': int, settleAt': int)
    requires Open(rows, key) && 2 <= cut <= 3
    ensures
      var d := Dispatched(rows, key, hash, outcome, cut, false, insertAt, settleAt);
      && d.ran && d.reply == None && key in d.rows && d.rows[key].status == InFlight
      && Dispatching(d.rows, key, hash', outcome', insertAt', settleAt').ran
  {
  }

  /** Other keys are none of a dispatch's business. */
  lemma {:induction false} OtherKeysStay(
      rows: Rows, key: Key, hash: string, outcome: Outcome, cut: nat, lands: bool, insertAt: int, settleAt: int,
      other: Key)
    requires other != key
    ensures
      var after := Dispatched(rows, key, hash, outcome, cut, lands, insertAt, settleAt).rows;
      (other in after <==> other in rows) && (other in rows ==> after[other] == rows[other])
  {
  }

  // ------------------------------------------------------------------
  // The table
  // ------------------------------------------------------------------

  /** A settled row has the new status, payload and time of change; hash and creation are those of the attempt. */
  lemma {:induction false} SettledRow(rows: Rows, key: Key, status: Status, payload: Envelope, now: int)
    ensures
      var after := Upserted(rows, key, status, payload, now);
      && key in after && after[key].status == status && after[key].payload == Some(payload)
      && after[key].updatedAt == now
      && after[key].hash == (if key in rows then rows[key].hash else "")
      && after[key].createdAt == (if key in rows then rows[key].createdAt else now)
      && forall other | other != key ::
           (other in after <==> other in rows) && (other in rows ==> after[other] == rows[other])
  {
  }

  /** A sweep at `now` keeps every in-flight row and every row of the last thirty days, and nothing else. */
  lemma {:induction false} SweepKeeps(rows: Rows, now: int, key: Key)
    ensures
      var after := Swept(rows, now - DEFAULT_TTL);
      && (key in after <==> key in rows && (rows[key].status == InFlight || now - rows[key].createdAt <= 30 * 86400))
      && (key in after ==> after[key] == rows[key])
  {
  }

  // ------------------------------------------------------------------
  // Over runs: a replay is the answer that was given
  // ------------------------------------------------------------------

  /** The last reply about a settled key is the envelope in its row. */
  ghost predicate Told(w: Key, s: State) {
    Terminal(s.rows, w) ==>
      && s.count.replies != [] && s.rows[w].payload == Some(s.count.replies[|s.count.replies| - 1])
  }

  lemma {:induction false} StepKeepsTold(w: Key, s: State, e: Event)
    requires Invariant(w, s) && Told(w, s)
    ensures Told(w, Step(w, s, e))
  {
  }

  lemma {:induction false} RunKeepsTold(w: Key, s: State, events: seq<Event>)
    requires Invariant(w, s) && Told(w, s)
    ensures Told(w, Run(w, s, events))
    decreases |events|
  {
    if events != [] {
      StepKeeps(w, s, events[0]);
      StepKeepsTold(w, s, events[0]);
      RunKeepsTold(w, Step(w, s, events[0]), events[1..]);
    }
  }

  /**
   In every run, whenever a key is settled: the next delivery of it, and every one after until the
   sweep, is answered with the very envelope that was sent last.
   */
  lemma {:induction false} ReplaysAreTheAnswer(w: Key, events: seq<Event>, later: seq<Event>)
    requires
      var s := Run(w, FRESH, events);
      Terminal(s.rows, w) && Run(w, s, later).count.removals == s.count.removals
    ensures
      var s := Run(w, FRESH, events);
      && s.count.replies != []
      && Run(w, s, later).count.replies ==
         s.count.replies + Copies(s.count.replies[|s.count.replies| - 1], Deliveries(w, s, later))
  {
    RunKeeps(w, FRESH, events);
    RunKeepsTold(w, FRESH, events);
    TerminalRowsAnswerForGood(w, Run(w, FRESH, events), later);
  }
}
