/**
 The daily worker that carries out the deletion requests whose grace period is over.
 */
module DeletionWorker {
  import opened Ownership

  predicate IsDue(w: World, id: nat, now: int) {
    id < |w.requests| && w.requests[id].status == GracePeriod && w.requests[id].graceEnds <= now
  }

  ghost predicate AllKnown(w: World, ids: seq<nat>) {
    forall i | 0 <= i < |ids| :: ids[i] < |w.requests|
  }

  /** Put a request behind those that end no later. */
  function InOrder(w: World, ids: seq<nat>, id: nat): (r: seq<nat>)
    requires AllKnown(w, ids) && id < |w.requests|
    ensures AllKnown(w, r) && |r| == |ids| + 1
    decreases |ids|
  {
    if ids == [] || w.requests[ids[|ids| - 1]].graceEnds <= w.requests[id].graceEnds then ids + [id]
    else InOrder(w, ids[..|ids| - 1], id) + [ids[|ids| - 1]]
  }

  /** The due ones of the first `n` requests, the earliest end first. */
  function Due(w: World, now: int, n: nat): (ids: seq<nat>)
    requires n <= |w.requests|
    ensures AllKnown(w, ids)
  {
    if n == 0 then []
    else if IsDue(w, n - 1, now) then InOrder(w, Due(w, now, n - 1), n - 1)
    else Due(w, now, n - 1)
  }

  /** How the processing of one request ends: it commits, or it is rolled back. */
  datatype Ending = Commits | Conflicts | Breaks

  function Handled(w: World, id: nat, ending: Ending): World {
    match ending
    case Commits => Step(w, Process(id))
    case Conflicts => w
    case Breaks => Step(w, Fail(id))
  }

  /** After the first `n` requests of the list. */
  function Worked(w: World, due: seq<nat>, ending: nat -> Ending, n: nat): World
    requires n <= |due|
  {
    if n == 0 then w else Handled(Worked(w, due, ending, n - 1), due[n - 1], ending(due[n - 1]))
  }

  function Committed(due: seq<nat>, ending: nat -> Ending, n: nat): nat
    requires n <= |due|
  {
    if n == 0 then 0 else Committed(due, ending, n - 1) + if ending(due[n - 1]) == Commits then 1 else 0
  }

  method MarkFailed(db: Database, id: nat)
    modifies db
    ensures db.world == Step(old(db.world), Fail(id))
  {
    if id < |db.world.requests| {
      db.world := db.world.(requests := db.world.requests[id := db.world.requests[id].(status := Failed)]);
    }
  }

  /** The worker over the requests that are due at `now`; `ending` says how each of them goes. */
  method ProcessDueDeletions(db: Database, now: int, ending: nat -> Ending) returns (processed: nat)
    modifies db
    ensures
      var w := old(db.world);
      var due := Due(w, now, |w.requests|);
      db.world == Worked(w, due, ending, |due|) && processed == Committed(due, ending, |due|)
  {
    processed := 0;
    ghost var before := db.world;
    var due := Due(db.world, now, |db.world.requests|);
    for i := 0 to |due|
      invariant db.world == Worked(before, due, ending, i)
      invariant processed == Committed(due, ending, i)
    {
      match ending(due[i])
      case Commits =>
        var error := ProcessDueDeletion(db, due[i]);
        processed := processed + 1;
      case Conflicts =>
      case Breaks =>
        MarkFailed(db, due[i]);
    }
  }

  /** What the worker does is a run of processings and failures, so the theorems on owners are about it. */
  lemma {:induction false} WorkIsRun(w: World, due: seq<nat>, ending: nat -> Ending, n: nat)
    returns (events: seq<Event>)
    requires n <= |due|
    ensures Run(w, events) == Worked(w, due, ending, n)
    ensures forall i | 0 <= i < |events| :: events[i].Process? || events[i].Fail?
  {
    events := [];
    if n > 0 {
      events := WorkIsRun(w, due, ending, n - 1);
      var e := if ending(due[n - 1]) == Commits then Process(due[n - 1]) else Fail(due[n - 1]);
      RunOneMore(w, events, e);
      if ending(due[n - 1]) != Conflicts {
        events := events + [e];
      }
    }
  }

  // ------------------------------------------------------------------
  // The list
  // ------------------------------------------------------------------

  /** How often `x` occurs. */
  function Times(s: seq<nat>, x: nat): nat
    decreases |s|
  {
    if s == [] then 0 else Times(s[..|s| - 1], x) + if s[|s| - 1] == x then 1 else 0
  }

  lemma {:induction false} TimesMore(s: seq<nat>, last: nat, x: nat)
    ensures Times(s + [last], x) == Times(s, x) + if last == x then 1 else 0
  {
    assert (s + [last])[..|s|] == s;
  }

  lemma {:induction false} TimesInOrder(w: World, ids: seq<nat>, id: nat, x: nat)
    requires AllKnown(w, ids) && id < |w.requests|
    ensures Times(InOrder(w, ids, id), x) == Times(ids, x) + if id == x then 1 else 0
    decreases |ids|
  {
    TimesMore(ids, id, x);
    if ids != [] && w.requests[ids[|ids| - 1]].graceEnds > w.requests[id].graceEnds {
      TimesInOrder(w, ids[..|ids| - 1], id, x);
      TimesMore(InOrder(w, ids[..|ids| - 1], id), ids[|ids| - 1], x);
    }
  }

  lemma {:induction false} TimesOfDue(w: World, now: int, n: nat, x: nat)
    requires n <= |w.requests|
    ensures Times(Due(w, now, n), x) == if x < n && IsDue(w, x, now) then 1 else 0
  {
    if n > 0 {
      TimesOfDue(w, now, n - 1, x);
      if IsDue(w, n - 1, now) {
        TimesInOrder(w, Due(w, now, n - 1), n - 1, x);
      }
    }
  }

  lemma {:induction false} TimesIsThere(s: seq<nat>, x: nat)
    ensures Times(s, x) > 0 <==> exists i | 0 <= i < |s| :: s[i] == x
    decreases |s|
  {
    if s != [] {
      var front := s[..|s| - 1];
      TimesIsThere(front, x);
      assert forall i | 0 <= i < |front| :: front[i] == s[i];
    }
  }

  lemma {:induction false} TimesTwice(s: seq<nat>, i: nat, j: nat)
    requires i < j < |s| && s[i] == s[j]
    ensures Times(s, s[i]) >= 2
    decreases |s|
  {
    var front := s[..|s| - 1];
    if j < |s| - 1 {
      TimesTwice(front, i, j);
    } else {
      assert front[i] == s[i];
      TimesIsThere(front, s[i]);
    }
  }

  /** No request ends before the one in front of it. */
  ghost predicate Ascending(w: World, ids: seq<nat>)
    requires AllKnown(w, ids)
  {
    forall i | 0 < i < |ids| :: w.requests[ids[i - 1]].graceEnds <= w.requests[ids[i]].graceEnds
  }

  lemma {:induction false} AscendingMore(w: World, ids: seq<nat>, id: nat)
    requires AllKnown(w, ids) && id < |w.requests| && Ascending(w, ids)
    requires ids != [] ==> w.requests[ids[|ids| - 1]].graceEnds <= w.requests[id].graceEnds
    ensures Ascending(w, ids + [id])
  {
  }

  lemma {:induction false} InOrderKeeps(w: World, ids: seq<nat>, id: nat)
    requires AllKnown(w, ids) && id < |w.requests| && Ascending(w, ids)
    ensures
      var r := InOrder(w, ids, id);
      Ascending(w, r) && (r[|r| - 1] == id || (ids != [] && r[|r| - 1] == ids[|ids| - 1]))
    decreases |ids|
  {
    if ids == [] || w.requests[ids[|ids| - 1]].graceEnds <= w.requests[id].graceEnds {
      AscendingMore(w, ids, id);
    } else {
      var front, last := ids[..|ids| - 1], ids[|ids| - 1];
      assert front != [] ==> w.requests[front[|front| - 1]].graceEnds <= w.requests[last].graceEnds;
      InOrderKeeps(w, front, id);
      AscendingMore(w, InOrder(w, front, id), last);
    }
  }

  lemma {:induction false} DueAscends(w: World, now: int, n: nat)
    requires n <= |w.requests|
    ensures Ascending(w, Due(w, now, n))
  {
    if n > 0 {
      DueAscends(w, now, n - 1);
      if IsDue(w, n - 1, now) {
        InOrderKeeps(w, Due(w, now, n - 1), n - 1);
      }
    }
  }

  /** The list holds exactly the due requests, each once, the earliest end first. */
  lemma {:induction false} DueIsRight(w: World, now: int, x: nat)
    ensures
      var due := Due(w, now, |w.requests|);
      && Ascending(w, due)
      && ((exists i | 0 <= i < |due| :: due[i] == x) <==> IsDue(w, x, now))
      && forall i, j | 0 <= i < j < |due| :: due[i] != due[j]
  {
    var due := Due(w, now, |w.requests|);
    DueAscends(w, now, |w.requests|);
    TimesOfDue(w, now, |w.requests|, x);
    TimesIsThere(due, x);
    forall i, j | 0 <= i < j < |due| ensures due[i] != due[j] {
      if due[i] == due[j] {
        TimesTwice(due, i, j);
        TimesOfDue(w, now, |w.requests|, due[i]);
      }
    }
  }

  // ------------------------------------------------------------------
  // What becomes of the requests
  // ------------------------------------------------------------------

  /** What becomes of a request whose turn comes. */
  function Outcome(w: World, id: nat, ending: Ending): Status
    requires id < |w.requests|
  {
    match ending
    case Commits =>
      if w.requests[id].status != GracePeriod then w.requests[id].status
      else if w.requests[id].user in w.users then Completed else Failed
    case Conflicts => w.requests[id].status
    case Breaks => Failed
  }

  lemma {:induction false} HandledOutcome(w: World, d: nat, ending: Ending, id: nat)
    requires id < |w.requests|
    ensures
      var after := Handled(w, d, ending);
      && |after.requests| == |w.requests| && after.users.Keys == w.users.Keys
      && after.requests[id].user == w.requests[id].user
      && after.requests[id].status == if d == id then Outcome(w, id, ending) else w.requests[id].status
  {
  }

  /** The list after its first `n` requests, seen from one request. */
  lemma {:induction false} WorkedOutcome(w: World, due: seq<nat>, ending: nat -> Ending, n: nat, id: nat)
    requires n <= |due| && id < |w.requests|
    requires forall i, j | 0 <= i < j < |due| :: due[i] != due[j]
    ensures
      var after := Worked(w, due, ending, n);
      && |after.requests| == |w.requests| && after.users.Keys == w.users.Keys
      && after.requests[id].user == w.requests[id].user
      && after.requests[id].status ==
         if exists i | 0 <= i < n :: due[i] == id then Outcome(w, id, ending(id)) else w.requests[id].status
  {
    if n > 0 {
      WorkedOutcome(w, due, ending, n - 1, id);
      HandledOutcome(Worked(w, due, ending, n - 1), due[n - 1], ending(due[n - 1]), id);
    }
  }

  /**
   A run of the worker: every due request whose processing commits is completed, or failed if its
   user is gone; one that breaks is failed; every other request is as it was.
   */
  lemma {:induction false} WorkerOutcome(w: World, now: int, ending: nat -> Ending, id: nat)
    requires id < |w.requests|
    ensures
      var due := Due(w, now, |w.requests|);
      var after := Worked(w, due, ending, |due|);
      && |after.requests| == |w.requests|
      && after.requests[id].status == if IsDue(w, id, now) then Outcome(w, id, ending(id)) else w.requests[id].status
  {
    var due := Due(w, now, |w.requests|);
    DueIsRight(w, now, id);
    WorkedOutcome(w, due, ending, |due|, id);
  }

  /** The due requests whose processing commits. */
  function CommittedSet(w: World, now: int, ending: nat -> Ending): set<nat> {
    set id: nat | id < |w.requests|
                  && w.requests[id].status == GracePeriod && w.requests[id].graceEnds <= now && ending(id) == Commits
  }

  function ListedSet(due: seq<nat>, ending: nat -> Ending, n: nat): set<nat>
    requires n <= |due|
  {
    set i | 0 <= i < n && ending(due[i]) == Commits :: due[i]
  }

  lemma {:induction false} CommittedIsSize(due: seq<nat>, ending: nat -> Ending, n: nat)
    requires n <= |due| && forall i, j | 0 <= i < j < |due| :: due[i] != due[j]
    ensures Committed(due, ending, n) == |ListedSet(due, ending, n)|
  {
    if n > 0 {
      CommittedIsSize(due, ending, n - 1);
      assert ListedSet(due, ending, n) ==
             ListedSet(due, ending, n - 1) + if ending(due[n - 1]) == Commits then {due[n - 1]} else {};
    }
  }

  /** The number that the worker reports is the number of due requests whose processing commits. */
  lemma {:induction false} ReportedCount(w: World, now: int, ending: nat -> Ending)
    ensures
      var due := Due(w, now, |w.requests|);
      Committed(due, ending, |due|) == |CommittedSet(w, now, ending)|
  {
    var due := Due(w, now, |w.requests|);
    DueIsRight(w, now, 0);
    CommittedIsSize(due, ending, |due|);
    forall id: nat ensures id in ListedSet(due, ending, |due|) <==> id in CommittedSet(w, now, ending) {
      DueIsRight(w, now, id);
    }
    assert ListedSet(due, ending, |due|) == CommittedSet(w, now, ending);
  }
}
