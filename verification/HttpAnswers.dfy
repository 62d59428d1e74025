/**
 What a check of an idempotency key answers, case by case and over runs: who proceeds, who waits, and
 who is refused. Times are in seconds.
 */
module HttpAnswers {
  import opened Prelude
  import opened HttpLease

  // ------------------------------------------------------------------
  // The key
  // ------------------------------------------------------------------

  /** A printable ASCII character that is not white space. */
  predicate Graphic(c: char) {
    33 <= c as int <= 126
  }

  /** A check without a key never touches the table; it is refused exactly where a key is required. */
  lemma {:induction false} WithoutKey(rows: Rows, req: Request, required: bool, now: int)
    requires req.key == None || req.key == Some("")
    ensures
      var c := CheckRows(rows, req, required, now);
      && c.rows == rows && !c.holds
      && (c.verdict == Refuse(KeyRequired) <==> required) && (c.verdict.Proceed? <==> !required)
  {
  }

  /** A key is invalid exactly when it is too short, too long, or has a character that is not graphic ASCII. */
  lemma {:induction false} InvalidKeyIff(rows: Rows, req: Request, required: bool, now: int)
    requires req.key.Some? && req.key.value != ""
    ensures
      var k, c := req.key.value, CheckRows(rows, req, required, now);
      && (c.verdict == Refuse(KeyInvalid) <==> |k| < 8 || |k| > 255 || exists i | 0 <= i < |k| :: !Graphic(k[i]))
      && (c.verdict == Refuse(KeyInvalid) ==> c.rows == rows && !c.holds)
      && c.verdict != Refuse(KeyRequired)
  {
    var k := req.key.value;
    assert forall i | 0 <= i < |k| :: Graphic(k[i]) <==> '!' <= k[i] <= '~';
  }

  /** The key of this request can be looked up, and it is this one. */
  predicate Keyed(req: Request, id: Id) {
    && req.company == id.company && req.key == Some(id.key)
    && 8 <= |id.key| <= 255 && forall i | 0 <= i < |id.key| :: Graphic(id.key[i])
  }

  // ------------------------------------------------------------------
  // One check
  // ------------------------------------------------------------------

  /** The first request with a key makes the row: it says everything about the request, and only this row changes. */
  lemma {:induction false} FirstRequest(rows: Rows, req: Request, id: Id, required: bool, now: int)
    requires Keyed(req, id) && id !in rows
    ensures
      var c := CheckRows(rows, req, required, now);
      && c.verdict.Proceed? && c.holds && id in c.rows
      && c.rows[id] == Row(req.user, req.verb, req.path, req.hash, Some(now), None, now + 86400)
      && forall other | other != id ::
           (other in c.rows <==> other in rows) && (other in rows ==> c.rows[other] == rows[other])
  {
  }

  /** A key that was used on another endpoint is refused, whatever became of the row, and the old endpoint is named. */
  lemma {:induction false} OtherEndpoint(rows: Rows, req: Request, id: Id, required: bool, now: int)
    requires Keyed(req, id) && id in rows
    ensures
      var c := CheckRows(rows, req, required, now);
      && (c.verdict.Refuse? && c.verdict.error.KeyMisuse? <==> req.verb != rows[id].verb || req.path != rows[id].path)
      && (c.verdict.Refuse? && c.verdict.error.KeyMisuse? ==>
            c.verdict.error == KeyMisuse(rows[id].verb, rows[id].path) && c.rows == rows && !c.holds)
  {
  }

  /** An unfinished row: for 60 seconds after it was locked everybody waits, and then one takes over. */
  lemma {:induction false} Unfinished(rows: Rows, req: Request, id: Id, since: int, required: bool, now: int)
    requires Keyed(req, id) && id in rows && req.verb == rows[id].verb && req.path == rows[id].path
    requires rows[id].done.None? && rows[id].lockedAt == Some(since)
    ensures
      var c := CheckRows(rows, req, required, now);
      && (now - since < 60 ==> c.verdict == Refuse(InProgress) && c.rows == rows && !c.holds)
      && (now - since >= 60 ==>
            && c.verdict.Proceed? && c.holds
            && c.rows == rows[id := rows[id].(lockedAt := Some(now), hash := req.hash)])
  {
  }

  /** A finished row: another body is refused, the same body gets the stored response. */
  lemma {:induction false} Finished(rows: Rows, req: Request, id: Id, required: bool, now: int)
    requires Keyed(req, id) && id in rows && req.verb == rows[id].verb && req.path == rows[id].path
    requires rows[id].done.Some?
    ensures
      var c, done := CheckRows(rows, req, required, now), rows[id].done.value;
      && c.rows == rows && !c.holds
      && (req.hash != rows[id].hash ==> c.verdict == Refuse(OtherBody(done.at)))
      && (req.hash == rows[id].hash ==> c.verdict.Replay? && Verbatim(done.response, c.verdict.reply))
  {
    assert "Idempotent-Replay"[0] != "Content-Type"[0];
  }

  /** The reply repeats the stored response and says that it is a replay. */
  ghost predicate Verbatim(stored: Response, reply: Reply) {
    && (stored.status != 0 ==> reply.status == stored.status)
    && (stored.status == 0 ==> reply.status == 200)
    && reply.content == (if stored.body.Some? then stored.body.value else "")
    && reply.headers.Keys == stored.headers.Keys + {"Idempotent-Replay", "Content-Type"}
    && reply.headers["Content-Type"] == "application/json"
    && reply.headers["Idempotent-Replay"] == "true"
    && forall name | name in stored.headers && name != "Idempotent-Replay" && name != "Content-Type" ::
         reply.headers[name] == stored.headers[name]
  }

  // ------------------------------------------------------------------
  // Who proceeds, over runs
  // ------------------------------------------------------------------

  /** A request with a key that may proceed has taken the lock of its row, now and for its own body. */
  lemma {:induction false} ProceedTakesLock(rows: Rows, req: Request, id: Id, required: bool, now: int)
    requires Keyed(req, id) && CheckRows(rows, req, required, now).verdict.Proceed?
    ensures
      var c := CheckRows(rows, req, required, now);
      && c.holds && id in c.rows && c.rows[id].lockedAt == Some(now) && c.rows[id].done.None?
      && c.rows[id].hash == req.hash && c.rows[id].verb == req.verb && c.rows[id].path == req.path
  {
  }

  /**
   While the holder of a lock may still store, every other request with the key and the endpoint
   waits, in every timely run.
   */
  lemma {:induction false} LiveHolderKeepsOthersOut(
      events: seq<Event>, h: nat, req: Request, id: Id, required: bool, at: int)
    requires TimelyRun(START, events)
    requires
      var s := Run(START, events);
      && s.now <= at && h < |s.holds| && s.holds[h].Some?
      && !s.holds[h].value.spent && at - s.holds[h].value.since < 60
      && s.holds[h].value.id == id && Keyed(req, id)
      && req.verb == s.holds[h].value.req.verb && req.path == s.holds[h].value.req.path
    ensures
      var s := Run(START, events);
      var c := CheckRows(s.rows, req, required, at);
      c.verdict == Refuse(InProgress) && c.rows == s.rows && !c.holds
  {
    var s := Run(START, events);
    StartIsSafe();
    TimelyRunsAreSafe(START, events);
    var hold := s.holds[h].value;
    assert HasLock(s, h) && Live(s, h);
    assert OnRow(s.rows, s.now, hold) && Owns(s.rows, hold);
    Unfinished(s.rows, req, id, hold.since, required, at);
  }

  /** A request with a key proceeded at this time. */
  datatype Start = Start(id: Id, at: int)

  /** The requests with a key that proceed in a run, in order. */
  ghost function Starts(s: State, events: seq<Event>): seq<Start>
    decreases |events|
  {
    if events == [] then []
    else
      var e, later := events[0], Starts(Step(s, events[0]), events[1..]);
      if e.CheckEvent? && e.req.key.Some? && e.req.key.value != ""
         && CheckRows(s.rows, e.req, e.required, e.at).verdict.Proceed?
      then [Start(Id(e.req.company, e.req.key.value), e.at)] + later
      else later
  }

  /** The row of this key was locked at `t` or later. */
  predicate LockedSince(rows: Rows, id: Id, t: int) {
    id in rows && rows[id].lockedAt.Some? && rows[id].lockedAt.value >= t
  }

  lemma {:induction false} LockLasts(s: State, e: Event, id: Id, t: int)
    requires LockedSince(s.rows, id, t)
    ensures LockedSince(Step(s, e).rows, id, t)
  {
  }

  lemma {:induction false} LaterStarts(s: State, events: seq<Event>, id: Id, t: int, k: nat)
    requires LockedSince(s.rows, id, t)
    requires k < |Starts(s, events)| && Starts(s, events)[k].id == id
    ensures Starts(s, events)[k].at >= t + 60
    decreases |events|
  {
    var e, later := events[0], Starts(Step(s, events[0]), events[1..]);
    LockLasts(s, e, id, t);
    if |Starts(s, events)| == |later| {
      LaterStarts(Step(s, e), events[1..], id, t, k);
    } else if k > 0 {
      assert Starts(s, events)[k] == later[k - 1];
      LaterStarts(Step(s, e), events[1..], id, t, k - 1);
    }
  }

  /**
   In every run, timely or not: two requests with the same key that both proceed do so at least 60
   seconds apart.
   */
  lemma {:induction false} StartsAreApart(s: State, events: seq<Event>, i: nat, j: nat)
    requires i < j < |Starts(s, events)| && Starts(s, events)[i].id == Starts(s, events)[j].id
    ensures Starts(s, events)[j].at - Starts(s, events)[i].at >= 60
    decreases |events|
  {
    var e, next := events[0], Step(s, events[0]);
    var later := Starts(next, events[1..]);
    if |Starts(s, events)| == |later| {
      StartsAreApart(next, events[1..], i, j);
    } else if i > 0 {
      assert Starts(s, events)[i] == later[i - 1] && Starts(s, events)[j] == later[j - 1];
      StartsAreApart(next, events[1..], i - 1, j - 1);
    } else {
      assert Starts(s, events)[j] == later[j - 1];
      LaterStarts(next, events[1..], IdOf(e.req), e.at, j - 1);
    }
  }

  /** A store writes the response and its time, and nothing else of any row. */
  lemma {:induction false} StoreWritesOnly(rows: Rows, id: Id, now: int, response: Response)
    requires id in rows
    ensures
      var after := StoreRows(rows, id, now, response);
      && after.Keys == rows.Keys && after[id].done == Some(Done(now, response))
      && after[id].(done := rows[id].done) == rows[id]
      && forall other | other in rows && other != id :: after[other] == rows[other]
  {
  }
}
