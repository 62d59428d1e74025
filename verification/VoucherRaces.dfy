/**
 Approve and reject wait for the connector between their check and their write. Here a call is a
 window that its check opens and its write, or a failure of the connector, closes; windows overlap
 in every way, and whole calls and other events fall between their ends.
 */
module VoucherRaces {
  import opened VoucherBooks

  datatype Kind = Approving | Rejecting

  /** A call that has passed its check; `crossed` once a call of the other kind has written meanwhile. */
  datatype Window = Window(id: nat, kind: Kind, who: Stamp, open: bool, crossed: bool)

  datatype Race = Race(books: Books, windows: seq<Window>)

  /** A window is known by its place. */
  datatype Move =
    | Whole(event: Event)
    | Asks(company: nat, id: nat, kind: Kind, who: Stamp)
    | Writes(window: nat)
    | Fails(window: nat)

  function CheckOf(kind: Kind, v: Voucher): Check {
    if kind.Approving? then ApproveCheck(v) else RejectCheck(v)
  }

  function WriteOf(kind: Kind, v: Voucher, who: Stamp): Voucher {
    if kind.Approving? then ApproveWrite(v, who) else RejectWrite(v, who)
  }

  /** The call of this kind writes to this voucher now. */
  predicate WritesNow(books: Books, windows: seq<Window>, m: Move, id: nat, kind: Kind) {
    match m
    case Whole(Approve(company, i, answer, _)) =>
      kind.Approving? && i == id && Known(books, company, id) && ApproveCheck(books[id]).Ask? && answer.Success?
    case Whole(Reject(company, i, answer, _)) =>
      kind.Rejecting? && i == id && Known(books, company, id) && RejectCheck(books[id]).Ask? && answer.Success?
    case Writes(k) => k < |windows| && windows[k].open && windows[k].kind == kind && windows[k].id == id
    case _ => false
  }

  function Other(kind: Kind): Kind {
    if kind.Approving? then Rejecting else Approving
  }

  /** A window after a move: crossed by a write of the other kind to its voucher. */
  function After(books: Books, windows: seq<Window>, m: Move, k: nat): Window
    requires k < |windows|
  {
    var w := windows[k];
    w.(open := w.open && m != Writes(k) && m != Fails(k),
       crossed := w.crossed || WritesNow(books, windows, m, w.id, Other(w.kind)))
  }

  function AllAfter(books: Books, windows: seq<Window>, m: Move): (after: seq<Window>)
    ensures |after| == |windows| && forall k | 0 <= k < |windows| :: after[k] == After(books, windows, m, k)
  {
    seq(|windows|, k requires 0 <= k < |windows| => After(books, windows, m, k))
  }

  ghost function BooksAfter(lower: string -> string, books: Books, windows: seq<Window>, m: Move): Books {
    match m
    case Whole(e) => Step(lower, books, e)
    case Writes(k) =>
      if k < |windows| && windows[k].open && windows[k].id < |books|
      then books[windows[k].id := WriteOf(windows[k].kind, books[windows[k].id], windows[k].who)]
      else books
    case _ => books
  }

  ghost function Moved(lower: string -> string, r: Race, m: Move): Race {
    Race(
      BooksAfter(lower, r.books, r.windows, m),
      AllAfter(r.books, r.windows, m) +
      if m.Asks? && Known(r.books, m.company, m.id) && CheckOf(m.kind, r.books[m.id]).Ask?
      then [Window(m.id, m.kind, m.who, true, false)] else [])
  }

  ghost function RunMoves(lower: string -> string, r: Race, moves: seq<Move>): Race
    decreases |moves|
  {
    if moves == [] then r else RunMoves(lower, Moved(lower, r, moves[0]), moves[1..])
  }

  /** A whole call that passes its check is a window that opens and writes with nothing in between. */
  lemma {:induction false} CallIsWindow(lower: string -> string, r: Race, company: nat, id: nat, kind: Kind, who: Stamp)
    requires Known(r.books, company, id) && CheckOf(kind, r.books[id]).Ask?
    ensures
      var asked := Moved(lower, r, Asks(company, id, kind, who));
      var call := if kind.Approving? then Approve(company, id, Success, who) else Reject(company, id, Success, who);
      Moved(lower, asked, Writes(|r.windows|)).books == Step(lower, r.books, call)
  {
  }

  /** A check opens a window for exactly the Optional vouchers of the company that are live, and writes nothing. */
  lemma {:induction false} AskOpensIff(lower: string -> string, r: Race, company: nat, id: nat, kind: Kind, who: Stamp)
    ensures
      var after := Moved(lower, r, Asks(company, id, kind, who));
      && after.books == r.books
      && |after.windows| ==
         |r.windows| +
         if && id < |r.books| && r.books[id].company == company && r.books[id].optional
            && r.books[id].status != Cancelled && r.books[id].status != RejectedOptional then 1 else 0
  {
  }

  lemma {:induction false} ClosedStays(lower: string -> string, r: Race, moves: seq<Move>, k: nat)
    requires k < |r.windows| && !r.windows[k].open
    ensures k < |RunMoves(lower, r, moves).windows| && !RunMoves(lower, r, moves).windows[k].open
    decreases |moves|
  {
    if moves != [] {
      ClosedStays(lower, Moved(lower, r, moves[0]), moves[1..], k);
    }
  }

  /** A call writes once or fails once: after that its window does nothing, whatever happened in between. */
  lemma {:induction false} OneEndPerCall(lower: string -> string, r: Race, k: nat, last: Move, later: seq<Move>)
    requires k < |r.windows| && (last == Writes(k) || last == Fails(k))
    ensures
      var end := RunMoves(lower, Moved(lower, r, last), later);
      Moved(lower, end, Writes(k)).books == end.books
  {
    ClosedStays(lower, Moved(lower, r, last), later, k);
  }

  /** A failure of the connector leaves the books alone, and so does a window that does not exist. */
  lemma {:induction false} FailureWritesNothing(lower: string -> string, r: Race, k: nat)
    ensures Moved(lower, r, Fails(k)).books == r.books
    ensures k >= |r.windows| ==> Moved(lower, r, Writes(k)).books == r.books
  {
  }

  // ------------------------------------------------------------------
  // Never both
  // ------------------------------------------------------------------

  predicate Both(v: Voucher) {
    v.approved.Some? && v.rejected.Some?
  }

  ghost predicate NoneBoth(books: Books) {
    forall i | 0 <= i < |books| :: !Both(books[i])
  }

  /** While a voucher has only one of the stamps, the check of the other call refuses it. */
  predicate Guarded(v: Voucher) {
    && (v.rejected.Some? && v.approved.None? ==> v.status == RejectedOptional || v.status == Cancelled)
    && (v.approved.Some? && v.rejected.None? ==> !v.optional)
  }

  ghost predicate AllGuarded(books: Books) {
    forall i | 0 <= i < |books| :: Guarded(books[i])
  }

  predicate Stamped(kind: Kind, v: Voucher) {
    if kind.Approving? then v.approved.Some? else v.rejected.Some?
  }

  /** The voucher of an open window has the other stamp exactly when the window was crossed. */
  predicate Fits(books: Books, w: Window) {
    w.open ==> w.id < |books| && (Stamped(Other(w.kind), books[w.id]) <==> w.crossed)
  }

  ghost predicate AllFit(r: Race) {
    forall k | 0 <= k < |r.windows| :: Fits(r.books, r.windows[k])
  }

  /** Books that came about without overlapping calls are a good start. */
  lemma {:induction false} SoundBooksAreGuarded(books: Books)
    requires Sound(books)
    ensures AllGuarded(books) && NoneBoth(books) && AllFit(Race(books, []))
  {
    forall i | 0 <= i < |books| ensures Guarded(books[i]) && !Both(books[i]) {
      assert Consistent(books[i]);
    }
  }

  /** No write comes through a window that was crossed. */
  predicate Clear(r: Race, m: Move) {
    m.Writes? && m.window < |r.windows| && r.windows[m.window].open ==> !r.windows[m.window].crossed
  }

  ghost predicate AllClear(lower: string -> string, r: Race, moves: seq<Move>)
    decreases |moves|
  {
    moves == [] || (Clear(r, moves[0]) && AllClear(lower, Moved(lower, r, moves[0]), moves[1..]))
  }

  lemma {:induction false} EventKeepsGuard(v: Voucher, e: Event)
    requires Guarded(v)
    ensures Guarded(Changed(v, e)) && (Both(v) ==> Both(Changed(v, e)))
    ensures !Both(v) ==> !Both(Changed(v, e))
  {
  }

  /** What a move does to the books: stamps stay, and both come together only through a crossed window. */
  lemma {:induction false} MoveKeepsGuard(lower: string -> string, r: Race, m: Move)
    requires AllGuarded(r.books) && AllFit(r)
    ensures AllGuarded(Moved(lower, r, m).books) && |r.books| <= |Moved(lower, r, m).books|
    ensures forall i | 0 <= i < |r.books| && Both(r.books[i]) :: Both(Moved(lower, r, m).books[i])
    ensures NoneBoth(r.books) ==> (NoneBoth(Moved(lower, r, m).books) <==> Clear(r, m))
  {
    var books, next := r.books, Moved(lower, r, m).books;
    match m
    case Whole(e) =>
      if e.Create? && next != books {
        assert Guarded(next[|books|]) && !Both(next[|books|]);
      } else if About(books, e) {
        EventKeepsGuard(books[e.id], e);
      }
    case Writes(k) =>
      if k < |r.windows| && r.windows[k].open {
        var w := r.windows[k];
        assert Fits(books, w);
        assert next[w.id] == WriteOf(w.kind, books[w.id], w.who);
      }
    case _ =>
  }

  /** A move stamps a voucher exactly when it was stamped or a call of that kind writes to it now. */
  lemma {:induction false} StampsAfter(lower: string -> string, r: Race, m: Move, id: nat, kind: Kind)
    requires id < |r.books|
    ensures
      var next := Moved(lower, r, m).books;
      id < |next| && (Stamped(kind, next[id]) <==>
                      Stamped(kind, r.books[id]) || WritesNow(r.books, r.windows, m, id, kind))
  {
  }

  /** A voucher that a check lets through has neither stamp. */
  lemma {:induction false} AskedHasNone(v: Voucher, kind: Kind)
    requires Guarded(v) && !Both(v) && CheckOf(kind, v).Ask?
    ensures !Stamped(Other(kind), v)
  {
  }

  lemma {:induction false} MoveKeepsFit(lower: string -> string, r: Race, m: Move)
    requires AllGuarded(r.books) && NoneBoth(r.books) && AllFit(r)
    ensures AllFit(Moved(lower, r, m))
  {
    var next := Moved(lower, r, m);
    forall k | 0 <= k < |next.windows| ensures Fits(next.books, next.windows[k]) {
      if k < |r.windows| {
        var w := r.windows[k];
        assert Fits(r.books, w) && next.windows[k] == After(r.books, r.windows, m, k);
        if w.open {
          StampsAfter(lower, r, m, w.id, Other(w.kind));
        }
      } else {
        AskedHasNone(r.books[m.id], m.kind);
      }
    }
  }

  lemma {:induction false} BothStays(lower: string -> string, r: Race, moves: seq<Move>, i: nat)
    requires i < |r.books| && Both(r.books[i])
    ensures i < |RunMoves(lower, r, moves).books| && Both(RunMoves(lower, r, moves).books[i])
    decreases |moves|
  {
    if moves != [] {
      StampsAfter(lower, r, moves[0], i, Approving);
      StampsAfter(lower, r, moves[0], i, Rejecting);
      BothStays(lower, Moved(lower, r, moves[0]), moves[1..], i);
    }
  }

  /**
   Over every overlap of calls and everything else: no voucher ends up both approved and rejected if
   and only if no call writes after one of the other kind has written to the voucher since its check.
   */
  lemma {:induction false} NeverBothIff(lower: string -> string, r: Race, moves: seq<Move>)
    requires AllGuarded(r.books) && NoneBoth(r.books) && AllFit(r)
    ensures NoneBoth(RunMoves(lower, r, moves).books) <==> AllClear(lower, r, moves)
    decreases |moves|
  {
    if moves != [] {
      var next := Moved(lower, r, moves[0]);
      MoveKeepsGuard(lower, r, moves[0]);
      if NoneBoth(next.books) {
        MoveKeepsFit(lower, r, moves[0]);
        NeverBothIff(lower, next, moves[1..]);
      } else {
        var i :| 0 <= i < |next.books| && Both(next.books[i]);
        BothStays(lower, next, moves[1..], i);
      }
    }
  }

  // ------------------------------------------------------------------
  // Cancelled and Optional
  // ------------------------------------------------------------------

  ghost predicate CancelledKept(a: Books, b: Books) {
    |a| <= |b| && forall i | 0 <= i < |a| && a[i].status == Cancelled :: b[i].status == Cancelled
  }

  /** No move of the run takes a voucher out of cancelled. */
  ghost predicate CancelledStays(lower: string -> string, r: Race, moves: seq<Move>)
    decreases |moves|
  {
    || moves == []
    || (CancelledKept(r.books, Moved(lower, r, moves[0]).books)
        && CancelledStays(lower, Moved(lower, r, moves[0]), moves[1..]))
  }

  /** No write comes to a voucher that was cancelled since the check of the call. */
  predicate FindsLive(r: Race, m: Move) {
    m.Writes? && m.window < |r.windows| && r.windows[m.window].open && r.windows[m.window].id < |r.books| ==>
      r.books[r.windows[m.window].id].status != Cancelled
  }

  ghost predicate AllFindLive(lower: string -> string, r: Race, moves: seq<Move>)
    decreases |moves|
  {
    moves == [] || (FindsLive(r, moves[0]) && AllFindLive(lower, Moved(lower, r, moves[0]), moves[1..]))
  }

  lemma {:induction false} MoveKeepsCancelledIff(lower: string -> string, r: Race, m: Move)
    ensures CancelledKept(r.books, Moved(lower, r, m).books) <==> FindsLive(r, m)
  {
    var books, next := r.books, Moved(lower, r, m).books;
    if m.Writes? && m.window < |r.windows| && r.windows[m.window].open && r.windows[m.window].id < |books| {
      var w := r.windows[m.window];
      assert next[w.id] == WriteOf(w.kind, books[w.id], w.who) && next[w.id].status != Cancelled;
    }
  }

  /** Over every overlap: no voucher ever leaves cancelled if and only if no late write finds its voucher cancelled. */
  lemma {:induction false} CancelledStaysIff(lower: string -> string, r: Race, moves: seq<Move>)
    ensures CancelledStays(lower, r, moves) <==> AllFindLive(lower, r, moves)
    decreases |moves|
  {
    if moves != [] {
      MoveKeepsCancelledIff(lower, r, moves[0]);
      CancelledStaysIff(lower, Moved(lower, r, moves[0]), moves[1..]);
    }
  }

  /** However calls overlap, a voucher that is Regular stays Regular. */
  lemma {:induction false} NeverOptionalAgain(lower: string -> string, r: Race, moves: seq<Move>, i: nat)
    requires i < |r.books| && !r.books[i].optional
    ensures i < |RunMoves(lower, r, moves).books| && !RunMoves(lower, r, moves).books[i].optional
    decreases |moves|
  {
    if moves != [] {
      RegularStays(lower, r, moves[0], i);
      NeverOptionalAgain(lower, Moved(lower, r, moves[0]), moves[1..], i);
    }
  }

  lemma {:induction false} RegularStays(lower: string -> string, r: Race, m: Move, i: nat)
    requires i < |r.books| && !r.books[i].optional
    ensures i < |Moved(lower, r, m).books| && !Moved(lower, r, m).books[i].optional
  {
  }

  ghost predicate AllBalanced(books: Books) {
    forall i | 0 <= i < |books| :: Balanced(books[i])
  }

  /** However calls overlap, debits, credits and totals agree. */
  lemma {:induction false} BalanceStays(lower: string -> string, r: Race, moves: seq<Move>)
    requires AllBalanced(r.books)
    ensures AllBalanced(RunMoves(lower, r, moves).books)
    decreases |moves|
  {
    if moves != [] {
      MoveKeepsBalance(lower, r, moves[0]);
      BalanceStays(lower, Moved(lower, r, moves[0]), moves[1..]);
    }
  }

  lemma {:induction false} MoveKeepsBalance(lower: string -> string, r: Race, m: Move)
    requires AllBalanced(r.books)
    ensures AllBalanced(Moved(lower, r, m).books)
  {
    var books := Moved(lower, r, m).books;
    forall i | 0 <= i < |books| ensures Balanced(books[i]) {
      if i < |r.books| {
        assert Balanced(r.books[i]) && books[i].lines == r.books[i].lines && books[i].total == r.books[i].total;
      }
    }
  }

  /** Both checks pass, the connector says yes to both, both writes follow: approved and rejected. */
  lemma {:induction false} BothCommit(lower: string -> string, v: Voucher, a: Stamp, r: Stamp)
    requires Consistent(v) && v.optional && v.status == Posted
    ensures
      var moves := [Asks(v.company, 0, Approving, a), Asks(v.company, 0, Rejecting, r), Writes(0), Writes(1)];
      var end := RunMoves(lower, Race([v], []), moves);
      |end.books| == 1 && Both(end.books[0]) && end.books[0].status == RejectedOptional
  {
    var w0, w1 := Window(0, Approving, a, true, false), Window(0, Rejecting, r, true, false);
    var m0, m1 := Asks(v.company, 0, Approving, a), Asks(v.company, 0, Rejecting, r);
    var moves := [m0, m1, Writes(0), Writes(1)];
    var r1, r2 := Race([v], [w0]), Race([v], [w0, w1]);
    assert Moved(lower, Race([v], []), m0) == r1;
    assert Moved(lower, r1, m1) == r2 by {
      assert AllAfter([v], [w0], m1) == [w0];
    }
    var r3 := Moved(lower, r2, Writes(0));
    assert r3.books == [ApproveWrite(v, a)];
    assert r3.windows[1] == w1.(crossed := true);
    var r4 := Moved(lower, r3, Writes(1));
    assert r4.books == [RejectWrite(ApproveWrite(v, a), r)];
    FourMoves(lower, Race([v], []), m0, m1, Writes(0), Writes(1));
  }

  lemma {:induction false} FirstMove(lower: string -> string, r: Race, moves: seq<Move>, rest: seq<Move>)
    requires |moves| == |rest| + 1 && moves[1..] == rest
    ensures RunMoves(lower, r, moves) == RunMoves(lower, Moved(lower, r, moves[0]), rest)
  {
  }

  lemma {:induction false} FourMoves(lower: string -> string, r: Race, a: Move, b: Move, c: Move, d: Move)
    ensures
      RunMoves(lower, r, [a, b, c, d]) == Moved(lower, Moved(lower, Moved(lower, Moved(lower, r, a), b), c), d)
  {
    FirstMove(lower, r, [a, b, c, d], [b, c, d]);
    var r1 := Moved(lower, r, a);
    FirstMove(lower, r1, [b, c, d], [c, d]);
    var r2 := Moved(lower, r1, b);
    FirstMove(lower, r2, [c, d], [d]);
    FirstMove(lower, Moved(lower, r2, c), [d], []);
  }
}
