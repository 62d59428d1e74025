/**
 The `Idempotency-Key` header: lock, takeover of a stale lock, completion and replay.

 A check and a store are atomic committed steps, and each reads the clock once. A request carries
 the hash of its canonical body; the hash itself is left abstract. Times are in seconds.
 */
module HttpLease {
  import opened Prelude

  const LOCK_TIMEOUT := 60
  const DEDUP_WINDOW := 24 * 60 * 60

  predicate IsValidKey(key: string) {
    && 8 <= |key| <= 255
    && forall i | 0 <= i < |key| :: '!' <= key[i] <= '~'
  }

  /** One row per company and key. */
  datatype Id = Id(company: nat, key: string)

  datatype Request = Request(
    company: nat, user: Option<nat>, key: Option<string>, verb: string, path: string, hash: string)

  /** `body` is the JSON text of the stored body, if there is one. */
  datatype Response = Response(status: int, body: Option<string>, headers: map<string, string>)

  datatype Done = Done(at: int, response: Response)

  datatype Row = Row(
    user: Option<nat>, verb: string, path: string, hash: string, lockedAt: Option<int>, done: Option<Done>,
    expiresAt: int)

  type Rows = map<Id, Row>

  datatype Error = KeyRequired | KeyInvalid | InProgress | KeyMisuse(verb: string, path: string) | OtherBody(at: int)

  datatype Reply = Reply(status: int, content: string, headers: map<string, string>)

  datatype Verdict = Refuse(error: Error) | Replay(reply: Reply) | Proceed

  /** The verdict, the table after the check, and whether the request now holds the lock of its row. */
  datatype Checked = Checked(verdict: Verdict, rows: Rows, holds: bool)

  /** A missing header and an empty one are the same. */
  predicate HasKey(req: Request) {
    req.key.Some? && req.key.value != ""
  }

  function IdOf(req: Request): Id
    requires HasKey(req)
  {
    Id(req.company, req.key.value)
  }

  function ReplayOf(r: Response): Reply {
    Reply(
      if r.status == 0 then 200 else r.status,
      if r.body.Some? then r.body.value else "",
      r.headers["Idempotent-Replay" := "true"]["Content-Type" := "application/json"])
  }

  predicate SameEndpoint(row: Row, req: Request) {
    row.verb == req.verb && row.path == req.path
  }

  /** The lock of an unfinished row is fresh. */
  predicate Fresh(row: Row, now: int) {
    row.lockedAt.Some? && now - row.lockedAt.value < LOCK_TIMEOUT
  }

  function NewRow(req: Request, now: int): Row {
    Row(req.user, req.verb, req.path, req.hash, Some(now), None, now + DEDUP_WINDOW)
  }

  function TakenOver(row: Row, req: Request, now: int): Row {
    row.(lockedAt := Some(now), hash := req.hash)
  }

  /** What a check decides; the expiry of the row plays no part. */
  function CheckRows(rows: Rows, req: Request, required: bool, now: int): Checked {
    if !HasKey(req) then Checked(if required then Refuse(KeyRequired) else Proceed, rows, false)
    else if !IsValidKey(req.key.value) then Checked(Refuse(KeyInvalid), rows, false)
    else if IdOf(req) !in rows then Checked(Proceed, rows[IdOf(req) := NewRow(req, now)], true)
    else
      var row := rows[IdOf(req)];
      if !SameEndpoint(row, req) then Checked(Refuse(KeyMisuse(row.verb, row.path)), rows, false)
      else if row.done.None? then
        if Fresh(row, now) then Checked(Refuse(InProgress), rows, false)
        else Checked(Proceed, rows[IdOf(req) := TakenOver(row, req, now)], true)
      else if row.hash != req.hash then Checked(Refuse(OtherBody(row.done.value.at)), rows, false)
      else Checked(Replay(ReplayOf(row.done.value.response)), rows, false)
  }

  function StoreRows(rows: Rows, id: Id, now: int, response: Response): Rows {
    if id in rows then rows[id := rows[id].(done := Some(Done(now, response)))] else rows
  }

  class IdempotencyStore {
    var rows: Rows

    constructor ()
      ensures rows == map[]
    {
      rows := map[];
    }
  }

  /** One handler per request; `row` names the row whose lock it took. */
  class IdempotencyHandler {
    const db: IdempotencyStore
    const request: Request
    var row: Option<Id>

    constructor (db: IdempotencyStore, request: Request)
      ensures this.db == db && this.request == request && row == None
    {
      this.db, this.request, row := db, request, None;
    }

    method Check(required: bool, now: int) returns (verdict: Verdict)
      modifies this, db
      ensures
        var c := CheckRows(old(db.rows), request, required, now);
        && verdict == c.verdict && db.rows == c.rows
        && row == if c.holds then Some(IdOf(request)) else old(row)
    {
      if !HasKey(request) {
        if required {
          return Refuse(KeyRequired);
        }
        return Proceed;
      }
      if !IsValidKey(request.key.value) {
        return Refuse(KeyInvalid);
      }
      var id := IdOf(request);
      if id !in db.rows {
        db.rows := db.rows[id := NewRow(request, now)];
        row := Some(id);
        return Proceed;
      }
      var existing := db.rows[id];
      if existing.verb != request.verb || existing.path != request.path {
        return Refuse(KeyMisuse(existing.verb, existing.path));
      }
      if existing.done.None? {
        if existing.lockedAt.Some? && now - existing.lockedAt.value < LOCK_TIMEOUT {
          return Refuse(InProgress);
        }
        db.rows := db.rows[id := existing.(lockedAt := Some(now), hash := request.hash)];
        row := Some(id);
        return Proceed;
      }
      if existing.hash != request.hash {
        return Refuse(OtherBody(existing.done.value.at));
      }
      return Replay(ReplayOf(existing.done.value.response));
    }

    /** Stamp the response onto the row; nothing happens when no lock was taken. */
    method StoreResponse(now: int, response: Response)
      modifies db
      ensures db.rows == if row.None? then old(db.rows) else StoreRows(old(db.rows), row.value, now, response)
    {
      if row.None? {
        return;
      }
      if row.value in db.rows {
        db.rows := db.rows[row.value := db.rows[row.value].(done := Some(Done(now, response)))];
      }
    }
  }

  // ------------------------------------------------------------------
  // Runs
  // ------------------------------------------------------------------

  /** A lock taken by a request; `spent` once it has been used to store a response. */
  datatype Hold = Hold(id: Id, req: Request, since: int, spent: bool)

  /** A response stored for `req`. */
  datatype Stored = Stored(id: Id, req: Request, done: Done)

  /** A replay sent to `req`. */
  datatype Sent = Sent(req: Request, reply: Reply)

  datatype State = State(now: int, rows: Rows, holds: seq<Option<Hold>>, log: seq<Stored>, sent: seq<Sent>)

  /** Handlers are numbered in the order in which they check. */
  datatype Event =
    | CheckEvent(req: Request, required: bool, at: int)
    | StoreEvent(handler: nat, response: Response, at: int)

  const START := State(0, map[], [], [], [])

  predicate HasLock(s: State, h: nat) {
    h < |s.holds| && s.holds[h].Some?
  }

  function AfterCheck(s: State, req: Request, required: bool, at: int): State {
    var c := CheckRows(s.rows, req, required, at);
    State(at, c.rows,
          s.holds + [if c.holds then Some(Hold(IdOf(req), req, at, false)) else None],
          s.log,
          if c.verdict.Replay? then s.sent + [Sent(req, c.verdict.reply)] else s.sent)
  }

  function AfterStore(s: State, h: nat, response: Response, at: int): State {
    if !HasLock(s, h) then s.(now := at)
    else
      var hold := s.holds[h].value;
      State(at, StoreRows(s.rows, hold.id, at, response), s.holds[h := Some(hold.(spent := true))],
            s.log + [Stored(hold.id, hold.req, Done(at, response))], s.sent)
  }

  function Step(s: State, e: Event): State {
    match e
    case CheckEvent(req, required, at) => AfterCheck(s, req, required, at)
    case StoreEvent(h, response, at) => AfterStore(s, h, response, at)
  }

  /** At time `now` this hold may still store: it has not yet, and its time is not over. */
  predicate May(hold: Hold, now: int) {
    !hold.spent && now - hold.since < LOCK_TIMEOUT
  }

  predicate Live(s: State, h: nat) {
    HasLock(s, h) && May(s.holds[h].value, s.now)
  }

  /** The clock does not run backwards, and a holder stores in time and once, or never. */
  predicate Timely(s: State, e: Event) {
    && s.now <= e.at
    && (e.StoreEvent? && HasLock(s, e.handler) ==> May(s.holds[e.handler].value, e.at))
  }

  function Run(s: State, events: seq<Event>): State
    decreases |events|
  {
    if events == [] then s else Run(Step(s, events[0]), events[1..])
  }

  predicate TimelyRun(s: State, events: seq<Event>)
    decreases |events|
  {
    events == [] || (Timely(s, events[0]) && TimelyRun(Step(s, events[0]), events[1..]))
  }

  // ------------------------------------------------------------------
  // What timely runs keep
  // ------------------------------------------------------------------

  /** A hold is not from the future, and its row exists, with the endpoint of the holder. */
  predicate OnRow(rows: Rows, now: int, hold: Hold) {
    && hold.since <= now && hold.id in rows && SameEndpoint(rows[hold.id], hold.req)
    && HasKey(hold.req) && IsValidKey(hold.req.key.value) && hold.id == IdOf(hold.req)
  }

  ghost predicate HoldsOnRows(s: State) {
    forall h | 0 <= h < |s.holds| && HasLock(s, h) :: OnRow(s.rows, s.now, s.holds[h].value)
  }

  /** The row is unfinished, and the lock and the hash are the holder's. */
  predicate Owns(rows: Rows, hold: Hold) {
    && hold.id in rows && rows[hold.id].done.None?
    && rows[hold.id].lockedAt == Some(hold.since) && rows[hold.id].hash == hold.req.hash
  }

  /** Every live holder owns its row. */
  ghost predicate LiveOwn(s: State) {
    forall h | 0 <= h < |s.holds| && Live(s, h) :: Owns(s.rows, s.holds[h].value)
  }

  /** At most one live holder per row. */
  ghost predicate OneLive(s: State) {
    forall g, h | 0 <= g < h < |s.holds| && Live(s, g) && Live(s, h) :: s.holds[g].value.id != s.holds[h].value.id
  }

  /** The row still says what was stored, for the body that was answered. */
  predicate Matches(rows: Rows, t: Stored) {
    && t.id in rows && rows[t.id].done == Some(t.done)
    && rows[t.id].hash == t.req.hash && SameEndpoint(rows[t.id], t.req)
    && HasKey(t.req) && IsValidKey(t.req.key.value) && t.id == IdOf(t.req)
  }

  ghost predicate LogMatches(s: State) {
    forall i | 0 <= i < |s.log| :: Matches(s.rows, s.log[i])
  }

  /** Every row is finished at most once. */
  ghost predicate LogUnique(s: State) {
    forall i, j | 0 <= i < j < |s.log| :: s.log[i].id != s.log[j].id
  }

  ghost predicate InLog(log: seq<Stored>, id: Id) {
    exists i | 0 <= i < |log| :: log[i].id == id
  }

  ghost predicate FinishedLogged(s: State) {
    forall id | id in s.rows && s.rows[id].done.Some? :: InLog(s.log, id)
  }

  /** The replay is the response stored for a request with the same key, endpoint and body hash. */
  predicate Answers(t: Stored, r: Sent) {
    && HasKey(r.req) && t.id == IdOf(r.req) && t.req.hash == r.req.hash
    && t.req.verb == r.req.verb && t.req.path == r.req.path
    && r.reply == ReplayOf(t.done.response)
  }

  ghost predicate Faithful(log: seq<Stored>, r: Sent) {
    exists i | 0 <= i < |log| :: Answers(log[i], r)
  }

  ghost predicate SentFaithful(s: State) {
    forall k | 0 <= k < |s.sent| :: Faithful(s.log, s.sent[k])
  }

  /** The rows and the log agree. */
  ghost predicate Truthful(s: State) {
    LogMatches(s) && LogUnique(s) && FinishedLogged(s)
  }

  ghost predicate Invariant(s: State) {
    HoldsOnRows(s) && LiveOwn(s) && OneLive(s) && Truthful(s) && SentFaithful(s)
  }

  // A check

  lemma {:induction false} CheckKeepsHolds(s: State, req: Request, required: bool, at: int)
    requires HoldsOnRows(s) && s.now <= at
    ensures HoldsOnRows(AfterCheck(s, req, required, at))
  {
    var t := AfterCheck(s, req, required, at);
    forall h | 0 <= h < |t.holds| && HasLock(t, h) ensures OnRow(t.rows, t.now, t.holds[h].value) {
      if h < |s.holds| {
        assert HasLock(s, h);
      }
    }
  }

  /** A check that takes a lock takes it when nobody lives on that row. */
  lemma {:induction false} LockIsFree(s: State, req: Request, required: bool, at: int, h: nat)
    requires HoldsOnRows(s) && LiveOwn(s) && s.now <= at
    requires CheckRows(s.rows, req, required, at).holds
    requires HasLock(s, h) && s.holds[h].value.id == IdOf(req)
    ensures !May(s.holds[h].value, at)
  {
    assert OnRow(s.rows, s.now, s.holds[h].value);
    if Live(s, h) {
      assert Owns(s.rows, s.holds[h].value);
    }
  }

  lemma {:induction false} CheckKeepsLive(s: State, req: Request, required: bool, at: int)
    requires HoldsOnRows(s) && LiveOwn(s) && OneLive(s) && s.now <= at
    ensures LiveOwn(AfterCheck(s, req, required, at)) && OneLive(AfterCheck(s, req, required, at))
  {
    var t := AfterCheck(s, req, required, at);
    forall h | 0 <= h < |s.holds| && Live(t, h)
      ensures Live(s, h) && Owns(t.rows, t.holds[h].value)
      ensures CheckRows(s.rows, req, required, at).holds ==> s.holds[h].value.id != IdOf(req)
    {
      assert Live(s, h);
      assert Owns(s.rows, s.holds[h].value);
      if CheckRows(s.rows, req, required, at).holds && s.holds[h].value.id == IdOf(req) {
        LockIsFree(s, req, required, at, h);
      }
    }
  }

  lemma {:induction false} CheckKeepsTruth(s: State, req: Request, required: bool, at: int)
    requires Truthful(s)
    ensures Truthful(AfterCheck(s, req, required, at))
  {
    var t := AfterCheck(s, req, required, at);
    forall i | 0 <= i < |s.log| ensures Matches(t.rows, s.log[i]) {
      assert Matches(s.rows, s.log[i]);
    }
  }

  lemma {:induction false} CheckSendsFaithfully(s: State, req: Request, required: bool, at: int)
    requires Truthful(s) && SentFaithful(s)
    ensures SentFaithful(AfterCheck(s, req, required, at))
  {
    var c := CheckRows(s.rows, req, required, at);
    if c.verdict.Replay? {
      assert InLog(s.log, IdOf(req));
      var i :| 0 <= i < |s.log| && s.log[i].id == IdOf(req);
      assert Matches(s.rows, s.log[i]);
      assert Answers(s.log[i], Sent(req, c.verdict.reply));
    }
  }

  // A store

  lemma {:induction false} StoreKeepsHolds(s: State, h: nat, response: Response, at: int)
    requires HoldsOnRows(s) && s.now <= at
    ensures HoldsOnRows(AfterStore(s, h, response, at))
  {
    var t := AfterStore(s, h, response, at);
    forall g | 0 <= g < |t.holds| && HasLock(t, g) ensures OnRow(t.rows, t.now, t.holds[g].value) {
      assert HasLock(s, g);
    }
  }

  lemma {:induction false} StoreKeepsLive(s: State, h: nat, response: Response, at: int)
    requires HoldsOnRows(s) && LiveOwn(s) && OneLive(s) && Timely(s, StoreEvent(h, response, at))
    ensures LiveOwn(AfterStore(s, h, response, at)) && OneLive(AfterStore(s, h, response, at))
  {
    var t := AfterStore(s, h, response, at);
    forall g | 0 <= g < |t.holds| && Live(t, g) ensures Live(s, g) && Owns(t.rows, t.holds[g].value) {
      assert Live(s, g) && Owns(s.rows, s.holds[g].value);
      if HasLock(s, h) {
        assert Live(s, h) && g != h;
      }
    }
  }

  /**
   Storing keeps the table truthful exactly when the row is still unfinished and still has the
   hash of the request that is being answered; nothing is said here about time.
   */
  lemma {:induction false} StoreIsTruthfulIff(s: State, h: nat, response: Response, at: int)
    requires HoldsOnRows(s) && Truthful(s) && HasLock(s, h)
    ensures
      var hold := s.holds[h].value;
      && hold.id in s.rows
      && (Truthful(AfterStore(s, h, response, at)) <==>
          s.rows[hold.id].done.None? && s.rows[hold.id].hash == hold.req.hash)
  {
    var t := AfterStore(s, h, response, at);
    var hold := s.holds[h].value;
    assert OnRow(s.rows, s.now, hold);
    assert t.log[|s.log|] == Stored(hold.id, hold.req, Done(at, response));
    if s.rows[hold.id].done.Some? {
      assert InLog(s.log, hold.id);
      var i :| 0 <= i < |s.log| && s.log[i].id == hold.id;
      assert t.log[i] == s.log[i];
      assert !LogUnique(t);
    } else if s.rows[hold.id].hash != hold.req.hash {
      assert !Matches(t.rows, t.log[|s.log|]);
    } else {
      forall i | 0 <= i < |s.log| ensures t.log[i] == s.log[i] && s.log[i].id != hold.id && Matches(t.rows, s.log[i]) {
        assert Matches(s.rows, s.log[i]);
      }
      assert Matches(t.rows, t.log[|s.log|]);
      forall id | id in t.rows && t.rows[id].done.Some? ensures InLog(t.log, id) {
        if id != hold.id {
          assert InLog(s.log, id);
          var i :| 0 <= i < |s.log| && s.log[i].id == id;
          assert t.log[i].id == id;
        }
      }
    }
  }

  lemma {:induction false} StoreKeepsSent(s: State, h: nat, response: Response, at: int)
    requires SentFaithful(s)
    ensures SentFaithful(AfterStore(s, h, response, at))
  {
    var t := AfterStore(s, h, response, at);
    forall k | 0 <= k < |t.sent| ensures Faithful(t.log, t.sent[k]) {
      assert Faithful(s.log, s.sent[k]);
      var i :| 0 <= i < |s.log| && Answers(s.log[i], s.sent[k]);
      assert t.log[i] == s.log[i];
    }
  }

  lemma {:induction false} StepKeepsInvariant(s: State, e: Event)
    requires Invariant(s) && Timely(s, e)
    ensures Invariant(Step(s, e))
  {
    match e
    case CheckEvent(req, required, at) =>
      CheckKeepsHolds(s, req, required, at);
      CheckKeepsLive(s, req, required, at);
      CheckKeepsTruth(s, req, required, at);
      CheckSendsFaithfully(s, req, required, at);
    case StoreEvent(h, response, at) =>
      StoreKeepsHolds(s, h, response, at);
      StoreKeepsLive(s, h, response, at);
      StoreKeepsSent(s, h, response, at);
      if HasLock(s, h) {
        assert Live(s, h);
        assert Owns(s.rows, s.holds[h].value);
        StoreIsTruthfulIff(s, h, response, at);
      }
  }

  /**
   If every holder stores within the lock timeout, and once, or never: there is at most one live
   holder per row; every row is finished at most once, and then has the hash and the endpoint of
   the request that was answered; and every replay ever sent is the response stored for a request
   with the same key, endpoint and body hash.
   */
  lemma {:induction false} TimelyRunsAreSafe(s: State, events: seq<Event>)
    requires Invariant(s) && TimelyRun(s, events)
    ensures Invariant(Run(s, events))
    decreases |events|
  {
    if events != [] {
      StepKeepsInvariant(s, events[0]);
      TimelyRunsAreSafe(Step(s, events[0]), events[1..]);
    }
  }

  lemma {:induction false} StartIsSafe()
    ensures Invariant(START) && Basic(START)
  {
  }

  /** A finished row is never written again. */
  lemma {:induction false} FinishedForGood(s: State, events: seq<Event>, id: Id)
    requires Invariant(s) && TimelyRun(s, events)
    requires id in s.rows && s.rows[id].done.Some?
    ensures id in Run(s, events).rows && Run(s, events).rows[id] == s.rows[id]
    decreases |events|
  {
    if events != [] {
      var e, next := events[0], Step(s, events[0]);
      StepKeepsInvariant(s, e);
      if e.StoreEvent? && HasLock(s, e.handler) {
        assert Live(s, e.handler);
        assert Owns(s.rows, s.holds[e.handler].value);
      }
      FinishedForGood(next, events[1..], id);
    }
  }

  /**
   What every later request with the key of a stored response gets, in any timely future: the
   response itself if endpoint and body hash are the same, a refusal otherwise; it never proceeds.
   */
  lemma {:induction false} LaterRequests(
      s: State, events: seq<Event>, i: nat, req: Request, required: bool, at: int)
    requires Invariant(s) && TimelyRun(s, events)
    requires i < |s.log| && HasKey(req) && IdOf(req) == s.log[i].id
    ensures
      var t := s.log[i];
      var c := CheckRows(Run(s, events).rows, req, required, at);
      && c.rows == Run(s, events).rows && !c.holds
      && c.verdict ==
         if req.verb != t.req.verb || req.path != t.req.path then Refuse(KeyMisuse(t.req.verb, t.req.path))
         else if req.hash != t.req.hash then Refuse(OtherBody(t.done.at))
         else Replay(ReplayOf(t.done.response))
  {
    assert Matches(s.rows, s.log[i]);
    FinishedForGood(s, events, s.log[i].id);
  }

  // ------------------------------------------------------------------
  // Runs in which stores may be late
  // ------------------------------------------------------------------

  /** The clock does not run backwards. */
  predicate Clocked(s: State, events: seq<Event>)
    decreases |events|
  {
    events == [] || (s.now <= events[0].at && Clocked(Step(s, events[0]), events[1..]))
  }

  /** A store finds its row unfinished and with the hash of the request it answers. */
  predicate GoodStore(s: State, e: Event) {
    e.StoreEvent? && HasLock(s, e.handler) ==>
      var hold := s.holds[e.handler].value;
      hold.id in s.rows && s.rows[hold.id].done.None? && s.rows[hold.id].hash == hold.req.hash
  }

  predicate AllGoodStores(s: State, events: seq<Event>)
    decreases |events|
  {
    events == [] || (GoodStore(s, events[0]) && AllGoodStores(Step(s, events[0]), events[1..]))
  }

  /** What holds however late the stores are: what was stored is on a finished row, and finished rows are logged. */
  ghost predicate Basic(s: State) {
    && HoldsOnRows(s) && FinishedLogged(s)
    && forall i | 0 <= i < |s.log| :: s.log[i].id in s.rows && s.rows[s.log[i].id].done.Some?
  }

  lemma {:induction false} StoreKeepsBasic(s: State, h: nat, response: Response, at: int)
    requires Basic(s) && s.now <= at
    ensures Basic(AfterStore(s, h, response, at))
  {
    var t := AfterStore(s, h, response, at);
    StoreKeepsHolds(s, h, response, at);
    if HasLock(s, h) {
      var hold := s.holds[h].value;
      assert OnRow(s.rows, s.now, hold);
      assert t.log[|s.log|].id == hold.id;
      forall id | id in t.rows && t.rows[id].done.Some? ensures InLog(t.log, id) {
        if id != hold.id {
          assert InLog(s.log, id);
          var i :| 0 <= i < |s.log| && s.log[i].id == id;
          assert t.log[i].id == id;
        }
      }
      forall i | 0 <= i < |t.log| ensures t.log[i].id in t.rows && t.rows[t.log[i].id].done.Some? {
        if i < |s.log| {
          assert t.log[i] == s.log[i];
        }
      }
    }
  }

  lemma {:induction false} StepKeepsBasic(s: State, e: Event)
    requires Basic(s) && s.now <= e.at
    ensures Basic(Step(s, e))
  {
    match e
    case CheckEvent(req, required, at) => CheckKeepsHolds(s, req, required, at);
    case StoreEvent(h, response, at) => StoreKeepsBasic(s, h, response, at);
  }

  /** What a step can do to truth: a check nothing, a store what `StoreIsTruthfulIff` says. */
  lemma {:induction false} StepIsTruthfulIff(s: State, e: Event)
    requires Basic(s) && Truthful(s)
    ensures Truthful(Step(s, e)) <==> GoodStore(s, e)
  {
    match e
    case CheckEvent(req, required, at) => CheckKeepsTruth(s, req, required, at);
    case StoreEvent(h, response, at) =>
      if HasLock(s, h) {
        StoreIsTruthfulIff(s, h, response, at);
      }
  }

  /** A store that leaves the history without repetition was about a row that no stored response was on. */
  lemma {:induction false} OldEntryStands(s: State, e: Event, i: nat)
    requires Basic(s) && LogUnique(Step(s, e)) && i < |s.log|
    ensures Step(s, e).log[i] == s.log[i]
    ensures Matches(Step(s, e).rows, s.log[i]) ==> Matches(s.rows, s.log[i])
  {
    var t := Step(s, e);
    if e.StoreEvent? && HasLock(s, e.handler) {
      assert t.log[|s.log|].id == s.holds[e.handler].value.id;
      assert t.log[i].id != t.log[|s.log|].id;
    }
  }

  /** Rows and history that once disagree never agree again. */
  lemma {:induction false} FalsehoodStays(s: State, e: Event)
    requires Basic(s) && Truthful(Step(s, e))
    ensures Truthful(s)
  {
    var t := Step(s, e);
    forall i | 0 <= i < |s.log| ensures t.log[i] == s.log[i] && Matches(s.rows, s.log[i]) {
      OldEntryStands(s, e, i);
      assert Matches(t.rows, t.log[i]);
    }
    forall i, j | 0 <= i < j < |s.log| ensures s.log[i].id != s.log[j].id {
      assert t.log[i].id != t.log[j].id;
    }
  }

  lemma {:induction false} FalseForGood(s: State, events: seq<Event>)
    requires Basic(s) && Clocked(s, events) && !Truthful(s)
    ensures !Truthful(Run(s, events))
    decreases |events|
  {
    if events != [] {
      StepKeepsBasic(s, events[0]);
      if Truthful(Step(s, events[0])) {
        FalsehoodStays(s, events[0]);
      }
      FalseForGood(Step(s, events[0]), events[1..]);
    }
  }

  /**
   Over every run, however late the stores: rows and history agree at the end if and only if every
   store found its row unfinished and with the hash of the request it answered.
   */
  lemma {:induction false} RunsAreTruthfulIff(s: State, events: seq<Event>)
    requires Basic(s) && Truthful(s) && Clocked(s, events)
    ensures Truthful(Run(s, events)) <==> AllGoodStores(s, events)
    decreases |events|
  {
    if events != [] {
      var next := Step(s, events[0]);
      StepKeepsBasic(s, events[0]);
      StepIsTruthfulIff(s, events[0]);
      if Truthful(next) {
        RunsAreTruthfulIff(next, events[1..]);
      } else {
        FalseForGood(next, events[1..]);
      }
    }
  }

  /**
   The time limit is needed. A locks at 0 and is slow; B takes over at 60 and stores at 61; A
   stores at 62. B repeats its request and gets the response that was made for A.
   */
  lemma {:induction false} LateStoreMixesUp(a: Request, b: Request, ra: Response, rb: Response)
    requires HasKey(a) && IsValidKey(a.key.value) && HasKey(b) && IdOf(a) == IdOf(b)
    requires a.verb == b.verb && a.path == b.path && a.hash != b.hash
    ensures
      var events := [CheckEvent(a, true, 0), CheckEvent(b, true, 60), StoreEvent(1, rb, 61), StoreEvent(0, ra, 62),
                     CheckEvent(b, true, 63)];
      var s := Run(START, events);
      && s.sent == [Sent(b, ReplayOf(ra))]
      && s.log == [Stored(IdOf(b), b, Done(61, rb)), Stored(IdOf(a), a, Done(62, ra))]
  {
    var id := IdOf(a);
    var row := NewRow(a, 0);
    var row' := TakenOver(row, b, 60);
    var h0, h1 := Hold(id, a, 0, false), Hold(id, b, 60, false);
    var s1 := State(0, map[id := row], [Some(h0)], [], []);
    var s2 := State(60, map[id := row'], [Some(h0), Some(h1)], [], []);
    assert Step(START, CheckEvent(a, true, 0)) == s1;
    assert Step(s1, CheckEvent(b, true, 60)) == s2;
    var s3 := AfterStore(s2, 1, rb, 61);
    var s4 := AfterStore(s3, 0, ra, 62);
    assert s4.rows == map[id := row'.(done := Some(Done(62, ra)))];
    FiveSteps(START, CheckEvent(a, true, 0), CheckEvent(b, true, 60), StoreEvent(1, rb, 61), StoreEvent(0, ra, 62),
              CheckEvent(b, true, 63));
  }

  lemma {:induction false} FirstStep(s: State, events: seq<Event>, rest: seq<Event>)
    requires |events| == |rest| + 1 && events[1..] == rest
    ensures Run(s, events) == Run(Step(s, events[0]), rest)
  {
  }

  lemma {:induction false} FiveSteps(s: State, a: Event, b: Event, c: Event, d: Event, e: Event)
    ensures Run(s, [a, b, c, d, e]) == Step(Step(Step(Step(Step(s, a), b), c), d), e)
  {
    FirstStep(s, [a, b, c, d, e], [b, c, d, e]);
    FirstStep(Step(s, a), [b, c, d, e], [c, d, e]);
    FirstStep(Step(Step(s, a), b), [c, d, e], [d, e]);
    FirstStep(Step(Step(Step(s, a), b), c), [d, e], [e]);
    FirstStep(Step(Step(Step(Step(s, a), b), c), d), [e], []);
  }
}
