/**
 What `create` accepts, told by sums over the lines: how much is on cash, how much on debtors and
 creditors; and which reason a refusal gives.
 */
module VoucherRules {
  import opened Prelude
  import opened VoucherBooks
  import opened VoucherGroups
  import opened CashMetrics

  /** The line is on a ledger of a group with this name. */
  predicate InGroup(lower: Lower, ledgers: Ledgers, line: Line, name: string) {
    && line.ledger in ledgers && ledgers[line.ledger].group.Some?
    && lower(Strip(ledgers[line.ledger].group.value)) == name
  }

  /** The amounts of those of the first `n` lines that are chosen. */
  function SumWhere(lines: seq<Line>, chosen: Line -> bool, n: nat): int
    requires n <= |lines|
  {
    if n == 0 then 0
    else SumWhere(lines, chosen, n - 1) + if chosen(lines[n - 1]) then lines[n - 1].amount else 0
  }

  /** What stands on ledgers of a group with this name, whatever the side. */
  function OnGroup(lower: Lower, ledgers: Ledgers, lines: seq<Line>, name: string): int {
    SumWhere(lines, (line: Line) => InGroup(lower, ledgers, line, name), |lines|)
  }

  /** The draft has passed the checks before the one on its type. */
  ghost predicate Typed(ledgers: Ledgers, company: nat, d: Draft) {
    && Total(d.lines, Dr, |d.lines|) == d.total == Total(d.lines, Cr, |d.lines|)
    && (d.tax.gst ==> d.tax.place.Some?)
    && AllPositive(d.lines)
    && forall i | 0 <= i < |d.lines| :: Owned(ledgers, company, d.lines[i])
  }

  /** No group begins or ends with white space other than blanks. */
  ghost predicate Neat(ledgers: Ledgers, lines: seq<Line>) {
    forall i | 0 <= i < |lines| && lines[i].ledger in ledgers && ledgers[lines[i].ledger].group.Some? ::
      Trimmed(Trim(ledgers[lines[i].ledger].group.value))
  }

  ghost predicate RefusedForType(lower: Lower, ledgers: Ledgers, company: nat, d: Draft, skip: bool) {
    Refusal(lower, ledgers, company, d, skip) == Some(TypeRuleViolation)
  }

  lemma {:induction false} TypeDecides(lower: Lower, ledgers: Ledgers, company: nat, d: Draft, skip: bool)
    requires Typed(ledgers, company, d)
    ensures RefusedForType(lower, ledgers, company, d, skip) <==> !FollowsRule(lower, ledgers, d.kind, d.lines)
  {
  }

  // ------------------------------------------------------------------
  // Sums that say that there is such a line
  // ------------------------------------------------------------------

  lemma {:induction false} SumWherePositive(lines: seq<Line>, chosen: Line -> bool, n: nat)
    requires n <= |lines| && AllPositive(lines)
    ensures SumWhere(lines, chosen, n) >= 0
    ensures SumWhere(lines, chosen, n) > 0 <==> exists i | 0 <= i < n :: chosen(lines[i])
  {
    if n > 0 {
      SumWherePositive(lines, chosen, n - 1);
    }
  }

  lemma {:induction false} OnGroupPositive(lower: Lower, ledgers: Ledgers, lines: seq<Line>, name: string)
    requires AllPositive(lines)
    ensures OnGroup(lower, ledgers, lines, name) == 0 <==>
            forall i | 0 <= i < |lines| :: !InGroup(lower, ledgers, lines[i], name)
  {
    SumWherePositive(lines, (line: Line) => InGroup(lower, ledgers, line, name), |lines|);
  }

  lemma {:induction false} CashPositive(
      lower: Lower, ledgers: Ledgers, company: nat, lines: seq<Line>, side: Side, n: nat)
    requires n <= |lines| && AllPositive(lines)
    ensures Cash(lower, ledgers, company, lines, side, n) >= 0
    ensures Cash(lower, ledgers, company, lines, side, n) > 0 <==>
            exists i | 0 <= i < n :: lines[i].side == side && OnCash(lower, ledgers, company, lines[i])
  {
    if n > 0 {
      CashPositive(lower, ledgers, company, lines, side, n - 1);
    }
  }

  lemma {:induction false} NeatLine(lower: Lower, ledgers: Ledgers, company: nat, lines: seq<Line>, i: nat)
    requires KeepsEnds(lower) && Neat(ledgers, lines) && i < |lines| && Owned(ledgers, company, lines[i])
    ensures OnCash(lower, ledgers, company, lines[i]) <==> IsBankOrCash(lower, GroupOf(ledgers, lines[i]))
  {
    CashOnDashboardIff(lower, ledgers[lines[i].ledger].group);
  }

  // ------------------------------------------------------------------
  // The rules of the eight types
  // ------------------------------------------------------------------

  /** A Receipt needs cash to come in, a Payment needs cash to go out. */
  lemma {:induction false} CashRules(lower: Lower, ledgers: Ledgers, company: nat, d: Draft, skip: bool)
    requires Typed(ledgers, company, d) && KeepsEnds(lower) && Neat(ledgers, d.lines)
    ensures d.kind == Receipt ==>
              (RefusedForType(lower, ledgers, company, d, skip) <==>
               Cash(lower, ledgers, company, d.lines, Dr, |d.lines|) == 0)
    ensures d.kind == Payment ==>
              (RefusedForType(lower, ledgers, company, d, skip) <==>
               Cash(lower, ledgers, company, d.lines, Cr, |d.lines|) == 0)
  {
    TypeDecides(lower, ledgers, company, d, skip);
    CashPositive(lower, ledgers, company, d.lines, Dr, |d.lines|);
    CashPositive(lower, ledgers, company, d.lines, Cr, |d.lines|);
    forall i | 0 <= i < |d.lines|
      ensures OnCash(lower, ledgers, company, d.lines[i]) <==> IsBankOrCash(lower, GroupOf(ledgers, d.lines[i]))
    {
      NeatLine(lower, ledgers, company, d.lines, i);
    }
  }

  ghost predicate AllOnCash(lower: Lower, ledgers: Ledgers, company: nat, lines: seq<Line>) {
    forall i | 0 <= i < |lines| :: OnCash(lower, ledgers, company, lines[i])
  }

  ghost predicate NoneOnCash(lower: Lower, ledgers: Ledgers, company: nat, lines: seq<Line>) {
    forall i | 0 <= i < |lines| :: !OnCash(lower, ledgers, company, lines[i])
  }

  lemma {:induction false} AllOnCashIff(lower: Lower, ledgers: Ledgers, company: nat, lines: seq<Line>)
    requires AllPositive(lines)
    ensures AllOnCash(lower, ledgers, company, lines) <==>
            && Cash(lower, ledgers, company, lines, Dr, |lines|) == Total(lines, Dr, |lines|)
            && Cash(lower, ledgers, company, lines, Cr, |lines|) == Total(lines, Cr, |lines|)
  {
    AllCashIff(lower, ledgers, company, lines, Dr, |lines|);
    AllCashIff(lower, ledgers, company, lines, Cr, |lines|);
    assert forall i | 0 <= i < |lines| :: lines[i].side == Dr || lines[i].side == Cr;
  }

  lemma {:induction false} NoneOnCashIff(lower: Lower, ledgers: Ledgers, company: nat, lines: seq<Line>)
    requires AllPositive(lines)
    ensures NoneOnCash(lower, ledgers, company, lines) <==>
            && Cash(lower, ledgers, company, lines, Dr, |lines|) == 0
            && Cash(lower, ledgers, company, lines, Cr, |lines|) == 0
  {
    CashPositive(lower, ledgers, company, lines, Dr, |lines|);
    CashPositive(lower, ledgers, company, lines, Cr, |lines|);
    assert forall i | 0 <= i < |lines| :: lines[i].side == Dr || lines[i].side == Cr;
  }

  lemma {:induction false} NeatLines(lower: Lower, ledgers: Ledgers, company: nat, d: Draft)
    requires Typed(ledgers, company, d) && KeepsEnds(lower) && Neat(ledgers, d.lines)
    ensures d.kind == Contra ==>
              (FollowsRule(lower, ledgers, d.kind, d.lines) <==> AllOnCash(lower, ledgers, company, d.lines))
    ensures d.kind == Journal ==>
              (FollowsRule(lower, ledgers, d.kind, d.lines) <==> NoneOnCash(lower, ledgers, company, d.lines))
  {
    forall i | 0 <= i < |d.lines|
      ensures OnCash(lower, ledgers, company, d.lines[i]) <==> IsBankOrCash(lower, GroupOf(ledgers, d.lines[i]))
    {
      NeatLine(lower, ledgers, company, d.lines, i);
    }
  }

  /** A Contra is all cash, in and out; a Journal is no cash. */
  lemma {:induction false} TransferRules(lower: Lower, ledgers: Ledgers, company: nat, d: Draft, skip: bool)
    requires Typed(ledgers, company, d) && KeepsEnds(lower) && Neat(ledgers, d.lines)
    ensures d.kind == Contra ==>
              (RefusedForType(lower, ledgers, company, d, skip) <==>
               || Cash(lower, ledgers, company, d.lines, Dr, |d.lines|) != d.total
               || Cash(lower, ledgers, company, d.lines, Cr, |d.lines|) != d.total)
    ensures d.kind == Journal ==>
              (RefusedForType(lower, ledgers, company, d, skip) <==>
               || Cash(lower, ledgers, company, d.lines, Dr, |d.lines|) != 0
               || Cash(lower, ledgers, company, d.lines, Cr, |d.lines|) != 0)
  {
    TypeDecides(lower, ledgers, company, d, skip);
    NeatLines(lower, ledgers, company, d);
    AllOnCashIff(lower, ledgers, company, d.lines);
    NoneOnCashIff(lower, ledgers, company, d.lines);
  }

  /** Sales and Credit Note need something on debtors, Purchase and Debit Note something on creditors. */
  lemma {:induction false} PartyRules(lower: Lower, ledgers: Ledgers, company: nat, d: Draft, skip: bool)
    requires Typed(ledgers, company, d)
    ensures d.kind == Sales || d.kind == CreditNote ==>
              (RefusedForType(lower, ledgers, company, d, skip) <==>
               OnGroup(lower, ledgers, d.lines, "sundry debtors") == 0)
    ensures d.kind == Purchase || d.kind == DebitNote ==>
              (RefusedForType(lower, ledgers, company, d, skip) <==>
               OnGroup(lower, ledgers, d.lines, "sundry creditors") == 0)
  {
    TypeDecides(lower, ledgers, company, d, skip);
    OnGroupPositive(lower, ledgers, d.lines, "sundry debtors");
    OnGroupPositive(lower, ledgers, d.lines, "sundry creditors");
  }

  // ------------------------------------------------------------------
  // The reason of a refusal
  // ------------------------------------------------------------------

  ghost predicate SomeNotOwned(ledgers: Ledgers, company: nat, lines: seq<Line>) {
    exists i | 0 <= i < |lines| ::
      lines[i].ledger !in ledgers || ledgers[lines[i].ledger].company != company
  }

  /** A ledger that Tally does not know and that was not made on the phone. */
  ghost predicate SomeNotSynced(ledgers: Ledgers, lines: seq<Line>) {
    exists i | 0 <= i < |lines| ::
      lines[i].ledger in ledgers && !ledgers[lines[i].ledger].synced && !ledgers[lines[i].ledger].viaMobile
  }

  /** What the tables do not take. */
  ghost predicate NotStorable(d: Draft) {
    || d.total < 0 || d.tax.cgst < 0 || d.tax.sgst < 0 || d.tax.igst < 0 || d.tax.cess < 0
    || d.tax.tdsAmount < 0 || (d.tax.tds && d.tax.tdsSection == None)
    || (d.tax.place.Some? && !(|d.tax.place.value| == 2 && forall c | c in d.tax.place.value :: '0' <= c <= '9'))
    || (d.capture.confidence.Some? && !(0 <= d.capture.confidence.value <= 1000))
    || exists i | 0 <= i < |d.lines| ::
         d.lines[i].amount <= 0
         || (d.lines[i].detail.gstRate.Some? && !(0 <= d.lines[i].detail.gstRate.value <= 10000))
  }

  lemma {:induction false} StorableIff(d: Draft)
    ensures NotStorable(d) <==> !RowAllowed(d) || !LinesAllowed(d.lines)
  {
    if d.tax.place.Some? && |d.tax.place.value| == 2 {
      var s := d.tax.place.value;
      assert s[0] in s && s[1] in s;
      assert (forall c | c in s :: '0' <= c <= '9') <==> '0' <= s[0] <= '9' && '0' <= s[1] <= '9';
    }
    assert forall i | 0 <= i < |d.lines| ::
        !LineAllowed(d.lines[i]) <==>
        || d.lines[i].amount <= 0
        || (d.lines[i].detail.gstRate.Some? && !(0 <= d.lines[i].detail.gstRate.value <= 10000));
  }

  /** The first thing that is wrong gives the reason, and nothing wrong means that the draft is taken. */
  lemma {:induction false} ReasonsInOrder(lower: Lower, ledgers: Ledgers, company: nat, d: Draft, skip: bool)
    ensures
      var dr, cr := Total(d.lines, Dr, |d.lines|), Total(d.lines, Cr, |d.lines|);
      var unbalanced, wrong := dr != cr, dr == cr && dr != d.total;
      var fine1 := dr == cr == d.total;
      var fine2 := fine1 && !(d.tax.gst && d.tax.place == None);
      var fine3 := fine2 && !SomeNotOwned(ledgers, company, d.lines);
      var fine4 := fine3 && FollowsRule(lower, ledgers, d.kind, d.lines);
      var fine5 := fine4 && !(!skip && SomeNotSynced(ledgers, d.lines));
      var refusal := Refusal(lower, ledgers, company, d, skip);
      && (unbalanced ==> refusal == Some(Unbalanced(dr, cr)))
      && (wrong ==> refusal == Some(WrongTotal(d.total, dr)))
      && (fine1 && !fine2 ==> refusal == Some(PlaceOfSupplyMissing))
      && (fine2 && !fine3 ==> refusal == Some(LedgerNotFound))
      && (fine3 && !fine4 ==> refusal == Some(TypeRuleViolation))
      && (fine4 && !fine5 ==> refusal == Some(LedgerNotSynced))
      && (fine5 && NotStorable(d) ==> refusal == Some(DatabaseRefused))
      && (fine5 && !NotStorable(d) ==> refusal == None)
  {
    StorableIff(d);
    assert SomeNotOwned(ledgers, company, d.lines) <==>
           exists i | 0 <= i < |d.lines| :: !Owned(ledgers, company, d.lines[i]);
    assert SomeNotSynced(ledgers, d.lines) <==> exists i | 0 <= i < |d.lines| :: !Postable(ledgers, d.lines[i]);
  }

  // ------------------------------------------------------------------
  // The new voucher
  // ------------------------------------------------------------------

  /** Made on the phone and not yet confirmed in Tally. */
  ghost predicate SomeUnconfirmed(ledgers: Ledgers, lines: seq<Line>) {
    exists i | 0 <= i < |lines| ::
      lines[i].ledger in ledgers && ledgers[lines[i].ledger].viaMobile && !ledgers[lines[i].ledger].confirmed
  }

  /**
   A draft that is taken becomes the last voucher: it says all that the draft says, waits for Tally, has
   no stamps, and is Optional exactly when that is forced or a ledger is not confirmed.
   */
  lemma {:induction false} TakenDraft(
      lower: Lower, ledgers: Ledgers, company: nat, books: Books, d: Draft, skip: bool, force: bool)
    requires Refusal(lower, ledgers, company, d, skip) == None
    ensures
      var after := Step(lower, books, Create(ledgers, company, d, skip, force));
      && |after| == |books| + 1 && after[..|books|] == books
      && var v := after[|books|];
         && v.company == company && v.kind == d.kind && v.number == d.number && v.date == d.date
         && v.narration == d.narration && v.reference == d.reference && v.total == d.total
         && v.lines == d.lines && v.tax == d.tax && v.capture == d.capture
         && v.status == PendingTallyPost && v.approved == None && v.rejected == None
         && (v.optional <==> force || SomeUnconfirmed(ledgers, d.lines))
  {
  }

  /** A refused draft changes nothing. */
  lemma {:induction false} RefusedDraft(
      lower: Lower, ledgers: Ledgers, company: nat, books: Books, d: Draft, skip: bool, force: bool)
    requires Refusal(lower, ledgers, company, d, skip) != None
    ensures Step(lower, books, Create(ledgers, company, d, skip, force)) == books
  {
  }

  /** What `create` promises of every voucher that has not been approved, as long as ledgers do not change. */
  ghost predicate Vetted(ledgers: Ledgers, v: Voucher) {
    && !SomeNotSynced(ledgers, v.lines)
    && (!v.optional && v.approved == None ==> !SomeUnconfirmed(ledgers, v.lines))
  }

  ghost predicate AllVetted(ledgers: Ledgers, books: Books) {
    forall i | 0 <= i < |books| :: Vetted(ledgers, books[i])
  }

  lemma {:induction false} StepVets(lower: Lower, ledgers: Ledgers, books: Books, e: Event)
    requires AllVetted(ledgers, books) && (e.Create? ==> e.ledgers == ledgers && !e.skipSyncCheck)
    ensures AllVetted(ledgers, Step(lower, books, e))
  {
    var next := Step(lower, books, e);
    if e.Create? {
      if next != books {
        ReasonsInOrder(lower, ledgers, e.company, e.draft, false);
        TakenDraft(lower, ledgers, e.company, books, e.draft, false, e.forceOptional);
        assert Vetted(ledgers, next[|books|]);
      }
    } else if About(books, e) {
      assert Vetted(ledgers, books[e.id]);
      assert next[e.id].lines == books[e.id].lines;
    }
  }

  /**
   In every run with fixed ledgers and the sync check on: no voucher uses a ledger that Tally does not
   know and the phone did not make, and a Regular voucher that nobody approved uses no unconfirmed one.
   */
  lemma {:induction false} RunsVet(lower: Lower, ledgers: Ledgers, books: Books, events: seq<Event>)
    requires AllVetted(ledgers, books)
    requires forall i | 0 <= i < |events| ::
               events[i].Create? ==> events[i].ledgers == ledgers && !events[i].skipSyncCheck
    ensures AllVetted(ledgers, Run(lower, books, events))
    decreases |events|
  {
    if events != [] {
      StepVets(lower, ledgers, books, events[0]);
      RunsVet(lower, ledgers, Step(lower, books, events[0]), events[1..]);
    }
  }

  // ------------------------------------------------------------------
  // What the other calls do
  // ------------------------------------------------------------------

  /** Only this voucher changes, to this. */
  ghost predicate Becomes(before: Books, after: Books, id: nat, v: Voucher)
    requires id < |before|
  {
    after == before[id := v]
  }

  /** Vouchers of other companies, and vouchers that do not exist, are out of reach. */
  lemma {:induction false} OutOfReach(lower: Lower, books: Books, e: Event)
    requires !e.Create? && !e.TallyTook? && !e.TallyGaveUp?
    requires e.id >= |books| || books[e.id].company != e.company
    ensures Step(lower, books, e) == books
  {
  }

  /** An update writes what was sent for narration and reference, and nothing else; a cancelled voucher keeps all. */
  lemma {:induction false} UpdateWrites(lower: Lower, books: Books, company: nat, id: nat, patch: Patch)
    requires id < |books| && books[id].company == company
    ensures
      var after := Step(lower, books, Update(company, id, patch));
      && |after| == |books| && (forall i | 0 <= i < |books| && i != id :: after[i] == books[i])
      && (patch.other || books[id].status == Cancelled ==> after[id] == books[id])
      && (!patch.other && books[id].status != Cancelled ==>
            && after[id].narration == (if patch.narration.Some? then patch.narration.value else books[id].narration)
            && after[id].reference == (if patch.reference.Some? then patch.reference.value else books[id].reference)
            && after[id].(narration := books[id].narration, reference := books[id].reference) == books[id])
  {
  }

  /** A voucher that was cancelled counts nowhere any more, whatever happens later. */
  lemma {:induction false} CancelIsForGood(
      lower: Lower, books: Books, company: nat, id: nat, later: seq<Event>)
    requires Sound(books) && id < |books| && books[id].company == company
    ensures
      var after := Run(lower, Step(lower, books, Cancel(company, id)), later);
      id < |after| && after[id].status == Cancelled && !CountsAsCash(after[id]) && !IsPending(after[id])
  {
    var next := Step(lower, books, Cancel(company, id));
    StepKeepsBooks(lower, books, Cancel(company, id));
    RunsKeepBooks(lower, next, later);
    assert Allowed(next[id], Run(lower, next, later)[id]);
  }

  /**
   An approval that goes through makes the voucher Regular and live, with the stamp of who approved; it
   is asked for exactly the Optional vouchers that are neither cancelled nor rejected.
   */
  lemma {:induction false} ApprovalTakesEffect(
      lower: Lower, books: Books, company: nat, id: nat, answer: Answer, who: Stamp)
    requires id < |books| && books[id].company == company
    ensures
      var v, after := books[id], Step(lower, books, Approve(company, id, answer, who));
      if v.optional && v.status != Cancelled && v.status != RejectedOptional && answer == Success then
        Becomes(books, after, id, v.(optional := false, approved := Some(who), status := Posted))
        && CountsAsCash(after[id])
      else after == books
    ensures
      var v := books[id];
      ApproveCheck(v) ==
      if v.status == Cancelled then Refused(AlreadyCancelled)
      else if v.status == RejectedOptional then Refused(AlreadyRejected)
      else if v.optional then Ask else Nothing
  {
  }

  /** Both calls report an unwilling connector and an absent one as what they are. */
  lemma {:induction false} AnswersAreReported()
    ensures AnswerError(Success) == None
    ensures AnswerError(Failure) == Some(ConnectorRefused) && AnswerError(Offline) == Some(ConnectorOffline)
  {
  }

  /** A rejection that goes through takes the voucher out of the books and off the list of approvals, for good. */
  lemma {:induction false} RejectionTakesEffect(
      lower: Lower, books: Books, company: nat, id: nat, answer: Answer, who: Stamp)
    requires id < |books| && books[id].company == company
    ensures
      var v, after := books[id], Step(lower, books, Reject(company, id, answer, who));
      if v.optional && v.status != Cancelled && v.status != RejectedOptional && answer == Success then
        Becomes(books, after, id, v.(status := RejectedOptional, rejected := Some(who)))
        && !CountsAsCash(after[id]) && !IsPending(after[id])
      else after == books
    ensures
      var v := books[id];
      RejectCheck(v) ==
      if v.status == Cancelled then Refused(AlreadyCancelled)
      else if v.status == RejectedOptional then Refused(AlreadyRejected)
      else if v.optional then Ask else Refused(NotOptional)
  {
  }

  lemma {:induction false} RejectionIsForGood(
      lower: Lower, books: Books, id: nat, later: seq<Event>)
    requires Sound(books) && id < |books| && books[id].status == RejectedOptional
    ensures
      var after := Run(lower, books, later);
      id < |after| && !CountsAsCash(after[id]) && !IsPending(after[id]) && after[id].rejected == books[id].rejected
  {
    RunsKeepBooks(lower, books, later);
    assert Consistent(books[id]) && Allowed(books[id], Run(lower, books, later)[id]);
  }

  /** Tally takes or gives up queued vouchers alone: these change to Posted or to expired, and nothing else does. */
  lemma {:induction false} QueueMoves(lower: Lower, books: Books, id: nat)
    requires id < |books|
    ensures
      var v, took, gaveUp := books[id], Step(lower, books, TallyTook(id)), Step(lower, books, TallyGaveUp(id));
      if v.status == PendingTallyPost then
        Becomes(books, took, id, v.(status := Posted)) && Becomes(books, gaveUp, id, v.(status := TallyPostExpired))
      else took == books == gaveUp
  {
  }

  predicate Over(v: Voucher) {
    (v.status == TallyPostExpired || v.status == Cancelled) && !v.optional
  }

  lemma {:induction false} StepKeepsOver(lower: Lower, books: Books, e: Event, id: nat)
    requires id < |books| && Over(books[id])
    ensures id < |Step(lower, books, e)| && Over(Step(lower, books, e)[id])
  {
  }

  /** A Regular voucher that Tally gave up never moves cash again, whatever happens later. */
  lemma {:induction false} ExpiryIsForGood(lower: Lower, books: Books, id: nat, later: seq<Event>)
    requires id < |books| && Over(books[id])
    ensures id < |Run(lower, books, later)| && !CountsAsCash(Run(lower, books, later)[id])
    decreases |later|
  {
    if later != [] {
      StepKeepsOver(lower, books, later[0], id);
      ExpiryIsForGood(lower, Step(lower, books, later[0]), id, later[1..]);
    }
  }
}
