/**
 The cache is written on a worker thread. When a session is torn down while it waits for such a
 write, the thread goes on, and the write lands later: at once, or in the middle of what a new
 session does. Here cut-off writes are kept and may land at any moment.
 */
module CommandLateWrites {
  import opened Prelude
  import opened CommandCache
  import opened CommandProtocol

  /** A write whose session is gone. */
  datatype Late = LateInsert(key: Key, hash: string) | LateSettle(key: Key, answer: Envelope)

  /** A late write is known by its place; it is gone once it has landed. */
  datatype LateState = LateState(s: State, late: seq<Option<Late>>)

  datatype LateEvent =
    | Plain(event: Event)
    | CutLate(lost: bool)        // like an interruption, but a write that was under way goes on
    | Land(k: nat, now: int)

  const START := LateState(FRESH, [])

  predicate IsRetry(answer: Envelope) {
    !answer.success && answer.retryable
  }

  function Less(n: nat): nat {
    if n == 0 then 0 else n - 1
  }

  /** An insert that finds its row is refused, and nobody hears of it. */
  function InsertLands(w: Key, s: State, key: Key, hash: string, now: int): State {
    if key in s.rows then s
    else
      s.(rows := Inserted(s.rows, key, hash, now),
         count := if key == w then s.count.(birth := Some((hash, now))) else s.count)
  }

  /** The attempt counts as settled, or as deleted for a retry, and no longer as interrupted. */
  function SettleLands(w: Key, s: State, key: Key, answer: Envelope, now: int): State {
    var c := s.count;
    s.(rows := SettledRows(s.rows, key, answer, now),
       count := if key != w then c
                else if IsRetry(answer) then
                  c.(retryDeletes := c.retryDeletes + 1, interrupted := Less(c.interrupted))
                else
                  c.(settles := c.settles + 1, interrupted := Less(c.interrupted),
                     birth := if key in s.rows then c.birth else Some(("", now))))
  }

  function Landed(w: Key, s: State, l: Late, now: int): State {
    match l
    case LateInsert(key, hash) => InsertLands(w, s, key, hash, now)
    case LateSettle(key, answer) => SettleLands(w, s, key, answer, now)
  }

  predicate Waits(ls: LateState, k: nat) {
    k < |ls.late| && ls.late[k].Some?
  }

  function Left(s: State): seq<Option<Late>> {
    match s.phase
    case Looked(key, hash) => [Some(LateInsert(key, hash))]
    case Answered(key, answer, _) => [Some(LateSettle(key, answer))]
    case _ => []
  }

  function LateStep(w: Key, ls: LateState, e: LateEvent): LateState {
    match e
    case Plain(event) => ls.(s := Step(w, ls.s, event))
    case CutLate(lost) => LateState(Step(w, ls.s, Interrupt(lost)), ls.late + Left(ls.s))
    case Land(k, now) =>
      if Waits(ls, k) then LateState(Landed(w, ls.s, ls.late[k].value, now), ls.late[k := None]) else ls
  }

  function LateRun(w: Key, ls: LateState, events: seq<LateEvent>): LateState
    decreases |events|
  {
    if events == [] then ls else LateRun(w, LateStep(w, ls, events[0]), events[1..])
  }

  // ------------------------------------------------------------------
  // When a late write does no harm
  // ------------------------------------------------------------------

  /** The command of this key is being handled. */
  predicate Busy(s: State, key: Key) {
    !s.phase.Idle? && s.phase.key == key
  }

  /** The write finds nothing to do. */
  predicate Idles(s: State, l: Late) {
    match l
    case LateInsert(key, _) => key in s.rows
    case LateSettle(key, answer) => IsRetry(answer) && key !in s.rows
  }

  predicate Harmless(s: State, l: Late) {
    Idles(s, l) || (!Busy(s, l.key) && !Terminal(s.rows, l.key))
  }

  /** How many settlings of the watched key are still to land. */
  function Waiting(w: Key, late: seq<Option<Late>>, n: nat): nat
    requires n <= |late|
  {
    if n == 0 then 0
    else
      Waiting(w, late, n - 1)
      + One(late[n - 1].Some? && late[n - 1].value.LateSettle? && late[n - 1].value.key == w)
  }

  ghost predicate LateInvariant(w: Key, ls: LateState) {
    Invariant(w, ls.s) && Waiting(w, ls.late, |ls.late|) <= ls.s.count.interrupted
  }

  lemma {:induction false} WaitingSame(w: Key, a: seq<Option<Late>>, b: seq<Option<Late>>, n: nat)
    requires n <= |a| && n <= |b| && forall i | 0 <= i < n :: a[i] == b[i]
    ensures Waiting(w, a, n) == Waiting(w, b, n)
  {
    if n > 0 {
      WaitingSame(w, a, b, n - 1);
    }
  }

  lemma {:induction false} WaitingGone(w: Key, late: seq<Option<Late>>, k: nat, n: nat)
    requires k < n <= |late| && late[k].Some?
    ensures Waiting(w, late, n) ==
            Waiting(w, late[k := None], n) + One(late[k].value.LateSettle? && late[k].value.key == w)
  {
    if k == n - 1 {
      WaitingSame(w, late, late[k := None], k);
    } else {
      WaitingGone(w, late, k, n - 1);
    }
  }

  lemma {:induction false} InsertLandsIff(w: Key, s: State, hash: string, now: int)
    requires Invariant(w, s)
    ensures Invariant(w, InsertLands(w, s, w, hash, now)) <==> Harmless(s, LateInsert(w, hash))
  {
  }

  lemma {:induction false} SettleLandsIff(w: Key, s: State, answer: Envelope, now: int)
    requires Invariant(w, s) && s.count.interrupted > 0
    ensures Invariant(w, SettleLands(w, s, w, answer, now)) <==> Harmless(s, LateSettle(w, answer))
  {
    var t := SettleLands(w, s, w, answer, now);
    if IsRetry(answer) {
      assert w !in t.rows;
    } else {
      assert Terminal(t.rows, w);
    }
  }

  /** What lands on another key leaves the watched one alone, if it is harmless there. */
  lemma {:induction false} OthersLand(w: Key, s: State, l: Late, now: int)
    requires Invariant(w, s) && l.key != w && Harmless(s, l)
    ensures Invariant(w, Landed(w, s, l, now)) && Landed(w, s, l, now).count == s.count
  {
  }

  /**
   A late write of the watched key keeps everything that is promised of it if and only if it finds
   nothing to do, or the key is not being handled and has no settled row.
   */
  lemma {:induction false} LandKeepsIff(w: Key, ls: LateState, k: nat, now: int)
    requires LateInvariant(w, ls) && Waits(ls, k) && ls.late[k].value.key == w
    ensures LateInvariant(w, LateStep(w, ls, Land(k, now))) <==> Harmless(ls.s, ls.late[k].value)
  {
    WaitingGone(w, ls.late, k, |ls.late|);
    match ls.late[k].value
    case LateInsert(key, hash) => InsertLandsIff(w, ls.s, hash, now);
    case LateSettle(key, answer) => SettleLandsIff(w, ls.s, answer, now);
  }

  // ------------------------------------------------------------------
  // Runs with late writes
  // ------------------------------------------------------------------

  predicate HarmlessEvent(ls: LateState, e: LateEvent) {
    e.Land? && Waits(ls, e.k) ==> Harmless(ls.s, ls.late[e.k].value)
  }

  predicate HarmlessRun(w: Key, ls: LateState, events: seq<LateEvent>)
    decreases |events|
  {
    events == [] || (HarmlessEvent(ls, events[0]) && HarmlessRun(w, LateStep(w, ls, events[0]), events[1..]))
  }

  lemma {:induction false} InterruptedGrows(w: Key, s: State, e: Event)
    ensures Step(w, s, e).count.interrupted >= s.count.interrupted
  {
  }

  lemma {:induction false} CutLateKeeps(w: Key, ls: LateState, lost: bool)
    requires LateInvariant(w, ls)
    ensures LateInvariant(w, LateStep(w, ls, CutLate(lost)))
  {
    var after := ls.late + Left(ls.s);
    StepKeeps(w, ls.s, Interrupt(lost));
    WaitingSame(w, ls.late, after, |ls.late|);
    if |Left(ls.s)| == 0 {
      assert after == ls.late;
    }
  }

  lemma {:induction false} LateStepKeeps(w: Key, ls: LateState, e: LateEvent)
    requires LateInvariant(w, ls) && HarmlessEvent(ls, e)
    ensures LateInvariant(w, LateStep(w, ls, e))
  {
    match e
    case Plain(event) =>
      StepKeeps(w, ls.s, event);
      InterruptedGrows(w, ls.s, event);
    case CutLate(lost) => CutLateKeeps(w, ls, lost);
    case Land(k, now) =>
      if Waits(ls, k) {
        if ls.late[k].value.key == w {
          LandKeepsIff(w, ls, k, now);
        } else {
          WaitingGone(w, ls.late, k, |ls.late|);
          OthersLand(w, ls.s, ls.late[k].value, now);
        }
      }
  }

  /**
   With writes that outlive their session, as long as each lands harmlessly: every handler run is
   accounted for, no in-flight insert is refused, every row keeps the hash and time of the write that
   made it, and Tally applies a command at most once plus once for every run retried or cut off.
   */
  lemma {:induction false} LateRunsKeepEverything(w: Key, ls: LateState, events: seq<LateEvent>)
    requires LateInvariant(w, ls) && HarmlessRun(w, ls, events)
    ensures LateInvariant(w, LateRun(w, ls, events))
    decreases |events|
  {
    if events != [] {
      LateStepKeeps(w, ls, events[0]);
      LateRunsKeepEverything(w, LateStep(w, ls, events[0]), events[1..]);
    }
  }

  lemma {:induction false} LateRunsAreAccountedFor(w: Key, events: seq<LateEvent>)
    requires HarmlessRun(w, START, events)
    ensures
      var s := LateRun(w, START, events).s;
      var c := s.count;
      && c.executions == c.settles + c.retryDeletes + c.interrupted + One(Executing(w, s))
      && c.settles == c.removals + One(Terminal(s.rows, w))
      && c.applied <= 1 + c.risks && c.conflicts == 0
      && (w in s.rows ==> c.birth == Some((s.rows[w].hash, s.rows[w].createdAt)))
  {
    LateRunsKeepEverything(w, START, events);
  }

  /** A terminal row outlives every harmless late write. */
  lemma {:induction false} TerminalRowsStay(w: Key, s: State, l: Late, now: int)
    requires Terminal(s.rows, w) && Harmless(s, l)
    ensures w in Landed(w, s, l, now).rows && Landed(w, s, l, now).rows[w] == s.rows[w]
  {
  }

  lemma {:induction false} FirstLate(w: Key, ls: LateState, events: seq<LateEvent>, rest: seq<LateEvent>)
    requires |events| == |rest| + 1 && events[1..] == rest
    ensures LateRun(w, ls, events) == LateRun(w, LateStep(w, ls, events[0]), rest)
  {
  }

  /** A late insert that comes between the lookup and the insert of the next delivery makes that insert fail. */
  lemma {:induction false} LateInsertConflicts(w: Key, hash: string, t: int)
    ensures
      var events := [Plain(Receive(w, hash)), CutLate(false), Plain(Receive(w, hash)), Land(0, t), Plain(Record(t))];
      LateRun(w, START, events).s.count.conflicts == 1
  {
    var e1, e2, e4, e5 := Plain(Receive(w, hash)), CutLate(false), Land(0, t), Plain(Record(t));
    var a := LateStep(w, START, e1);
    assert a.s.phase == Looked(w, hash) && a.late == [];
    var b := LateStep(w, a, e2);
    assert b.s == FRESH && b.late == [Some(LateInsert(w, hash))];
    var c := LateStep(w, b, e1);
    assert c.s.phase == Looked(w, hash) && c.late == b.late;
    var d := LateStep(w, c, e4);
    assert w in d.s.rows && d.s.phase == Looked(w, hash) && d.s.count.conflicts == 0;
    var e := LateStep(w, d, e5);
    FirstLate(w, START, [e1, e2, e1, e4, e5], [e2, e1, e4, e5]);
    FirstLate(w, a, [e2, e1, e4, e5], [e1, e4, e5]);
    FirstLate(w, b, [e1, e4, e5], [e4, e5]);
    FirstLate(w, c, [e4, e5], [e5]);
    FirstLate(w, d, [e5], []);
  }

  /**
   A late deletion that comes after the retry was settled takes the settled row away, and the next
   delivery is applied once more.
   */
  lemma {:induction false} LateDeleteRepeats(
      w: Key, s: State, answer: Envelope, hash: string, body: string, now: int)
    requires Invariant(w, s) && s.phase.Idle? && Terminal(s.rows, w) && IsRetry(answer)
    ensures !Harmless(s, LateSettle(w, answer))
    ensures
      var forgotten := SettleLands(w, s, w, answer, now);
      var begun := Step(w, Step(w, Step(w, forgotten, Receive(w, hash)), Record(now)), Begin);
      Step(w, begun, Return(Result(body), true)).count.applied == s.count.applied + 1
  {
    var forgotten := SettleLands(w, s, w, answer, now);
    assert w !in forgotten.rows && forgotten.count.applied == s.count.applied;
    var looked := Step(w, forgotten, Receive(w, hash));
    assert looked.phase == Looked(w, hash);
  }

  // ------------------------------------------------------------------
  // The coroutine
  // ------------------------------------------------------------------

  /** A dispatch that is cut off while its insert is under way, when the insert lands at once. */
  lemma {:induction false} DispatchInsertLands(
      rows: Rows, key: Key, hash: string, outcome: Outcome, insertAt: int, settleAt: int)
    requires key !in rows
    ensures
      var looked := LateState(Step(key, State(rows, Idle, NOTHING), Receive(key, hash)), []);
      var end := LateStep(key, LateStep(key, looked, CutLate(false)), Land(0, insertAt));
      var d := Dispatched(rows, key, hash, outcome, 1, true, insertAt, settleAt);
      end.s.rows == d.rows && end.s.phase == Idle && end.s.count.executions == 0 && !d.ran && d.reply == None
  {
  }

  /** A dispatch that is cut off while its answer is being settled, when the settling lands at once. */
  lemma {:induction false} DispatchSettleLands(
      rows: Rows, key: Key, hash: string, outcome: Outcome, taken: bool, insertAt: int, settleAt: int)
    requires !Terminal(rows, key)
    ensures
      var looked := Step(key, State(rows, Idle, NOTHING), Receive(key, hash));
      var running := Step(key, Step(key, looked, Record(insertAt)), Begin);
      var answered := LateState(Step(key, running, Return(outcome, taken)), []);
      var end := LateStep(key, LateStep(key, answered, CutLate(taken)), Land(0, settleAt));
      var d := Dispatched(rows, key, hash, outcome, 3, true, insertAt, settleAt);
      end.s.rows == d.rows && end.s.phase == Idle && end.s.count.executions == 1 && d.ran && d.reply == None
  {
    var looked := Step(key, State(rows, Idle, NOTHING), Receive(key, hash));
    ReadyToRun(rows, key, hash, insertAt);
    var answered := Step(key, Step(key, Step(key, looked, Record(insertAt)), Begin), Return(outcome, taken));
    assert answered.phase == Answered(key, EnvelopeOf(outcome), taken);
  }
}
