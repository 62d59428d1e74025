/**
 The dashboard's counts and cash movement over a closed range of dates, and what the rules for
 voucher types say about them.
 */
module CashMetrics {
  import opened Prelude
  import opened VoucherBooks
  import opened VoucherGroups

  datatype Metrics = Metrics(created: int, pending: int, cashIn: int, cashOut: int)

  predicate InRange(v: Voucher, company: nat, from: int, to: int) {
    v.company == company && from <= v.date <= to
  }

  predicate IsPending(v: Voucher) {
    v.optional && v.approved.None? && v.status != Cancelled && v.status != RejectedOptional
  }

  /** Live in the books, and Regular. */
  predicate CountsAsCash(v: Voucher) {
    (v.status == Posted || v.status == PendingTallyPost) && !v.optional
  }

  predicate OnCash(lower: Lower, ledgers: Ledgers, company: nat, line: Line) {
    Owned(ledgers, company, line) && IsCashOnDashboard(lower, ledgers[line.ledger].group)
  }

  /** The movement on cash ledgers, on one side, of the first `n` lines. */
  function Cash(lower: Lower, ledgers: Ledgers, company: nat, lines: seq<Line>, side: Side, n: nat): int
    requires n <= |lines|
  {
    if n == 0 then 0
    else
      Cash(lower, ledgers, company, lines, side, n - 1)
      + if lines[n - 1].side == side && OnCash(lower, ledgers, company, lines[n - 1]) then lines[n - 1].amount else 0
  }

  function CashIn(lower: Lower, ledgers: Ledgers, v: Voucher): int {
    Cash(lower, ledgers, v.company, v.lines, Dr, |v.lines|)
  }

  function CashOut(lower: Lower, ledgers: Ledgers, v: Voucher): int {
    Cash(lower, ledgers, v.company, v.lines, Cr, |v.lines|)
  }

  type Measure = Voucher -> int

  const CREATED: Measure := (v: Voucher) => if v.status != Cancelled then 1 else 0
  const PENDING: Measure := (v: Voucher) => if IsPending(v) then 1 else 0

  function In(lower: Lower, ledgers: Ledgers): Measure {
    v => if CountsAsCash(v) then CashIn(lower, ledgers, v) else 0
  }

  function Out(lower: Lower, ledgers: Ledgers): Measure {
    v => if CountsAsCash(v) then CashOut(lower, ledgers, v) else 0
  }

  /** A measure over those of the first `n` vouchers that are in the range. */
  function Sum(books: Books, f: Measure, company: nat, from: int, to: int, n: nat): int
    requires n <= |books|
    decreases n
  {
    if n == 0 then 0
    else
      Sum(books, f, company, from, to, n - 1)
      + if InRange(books[n - 1], company, from, to) then f(books[n - 1]) else 0
  }

  function MetricsForRange(lower: Lower, ledgers: Ledgers, books: Books, company: nat, from: int, to: int): Metrics {
    Metrics(
      Sum(books, CREATED, company, from, to, |books|), Sum(books, PENDING, company, from, to, |books|),
      Sum(books, In(lower, ledgers), company, from, to, |books|),
      Sum(books, Out(lower, ledgers), company, from, to, |books|))
  }

  // ------------------------------------------------------------------
  // A range is the sum of its parts
  // ------------------------------------------------------------------

  lemma {:induction false} SumSplits(books: Books, f: Measure, company: nat, from: int, mid: int, to: int, n: nat)
    requires n <= |books| && from <= mid + 1 && mid <= to
    ensures Sum(books, f, company, from, to, n) ==
            Sum(books, f, company, from, mid, n) + Sum(books, f, company, mid + 1, to, n)
    decreases n
  {
    if n > 0 {
      SumSplits(books, f, company, from, mid, to, n - 1);
    }
  }

  lemma {:induction false} EmptyRange(books: Books, f: Measure, company: nat, from: int, to: int, n: nat)
    requires n <= |books| && to < from
    ensures Sum(books, f, company, from, to, n) == 0
    decreases n
  {
    if n > 0 {
      EmptyRange(books, f, company, from, to, n - 1);
    }
  }

  ghost predicate Ascending(cuts: seq<int>) {
    forall i, j | 0 <= i < j < |cuts| :: cuts[i] <= cuts[j]
  }

  /** A measure over the first `k` parts; part `i` runs from the day after cut `i` to cut `i + 1`. */
  function PartsTo(books: Books, f: Measure, company: nat, cuts: seq<int>, k: nat): int
    requires k < |cuts|
    decreases k
  {
    if k == 0 then 0
    else PartsTo(books, f, company, cuts, k - 1) + Sum(books, f, company, cuts[k - 1] + 1, cuts[k], |books|)
  }

  lemma {:induction false} PartsAddUp(books: Books, f: Measure, company: nat, cuts: seq<int>, k: nat)
    requires k < |cuts| && Ascending(cuts)
    ensures PartsTo(books, f, company, cuts, k) == Sum(books, f, company, cuts[0] + 1, cuts[k], |books|)
    decreases k
  {
    if k == 0 {
      EmptyRange(books, f, company, cuts[0] + 1, cuts[0], |books|);
    } else {
      PartsAddUp(books, f, company, cuts, k - 1);
      assert k - 1 == 0 || cuts[0] <= cuts[k - 1];
      assert cuts[k - 1] <= cuts[k];
      SumSplits(books, f, company, cuts[0] + 1, cuts[k - 1], cuts[k], |books|);
    }
  }

  /** However a range is cut into consecutive parts, each of its metrics is the sum over the parts. */
  lemma {:induction false} RangeIsSumOfParts(
      lower: Lower, ledgers: Ledgers, books: Books, company: nat, cuts: seq<int>, k: nat)
    requires k < |cuts| && Ascending(cuts)
    ensures
      MetricsForRange(lower, ledgers, books, company, cuts[0] + 1, cuts[k]) ==
      Metrics(
        PartsTo(books, CREATED, company, cuts, k), PartsTo(books, PENDING, company, cuts, k),
        PartsTo(books, In(lower, ledgers), company, cuts, k), PartsTo(books, Out(lower, ledgers), company, cuts, k))
  {
    PartsAddUp(books, CREATED, company, cuts, k);
    PartsAddUp(books, PENDING, company, cuts, k);
    PartsAddUp(books, In(lower, ledgers), company, cuts, k);
    PartsAddUp(books, Out(lower, ledgers), company, cuts, k);
  }

  // ------------------------------------------------------------------
  // What the rules for the types say
  // ------------------------------------------------------------------

  /** What `create` checked of this voucher, still true of the ledgers as they are. */
  ghost predicate Accepted(lower: Lower, ledgers: Ledgers, v: Voucher) {
    && Balanced(v)
    && (forall i | 0 <= i < |v.lines| :: Owned(ledgers, v.company, v.lines[i]))
    && FollowsRule(lower, ledgers, v.kind, v.lines)
  }

  ghost predicate AllAccepted(lower: Lower, ledgers: Ledgers, books: Books) {
    forall i | 0 <= i < |books| :: Accepted(lower, ledgers, books[i])
  }

  /** The vouchers of every run in which the ledgers do not change are accepted by the rules. */
  lemma {:induction false} RunsFollowRules(lower: Lower, ledgers: Ledgers, books: Books, events: seq<Event>)
    requires AllAccepted(lower, ledgers, books) && Sound(books)
    requires forall i | 0 <= i < |events| :: events[i].Create? ==> events[i].ledgers == ledgers
    ensures AllAccepted(lower, ledgers, Run(lower, books, events))
    decreases |events|
  {
    if events != [] {
      var next := Step(lower, books, events[0]);
      StepKeepsBooks(lower, books, events[0]);
      forall i | 0 <= i < |next| ensures Accepted(lower, ledgers, next[i]) {
        assert Balanced(next[i]);
        if i < |books| {
          assert Accepted(lower, ledgers, books[i]) && Allowed(books[i], next[i]);
        } else {
          assert events[0].Create? && events[0].ledgers == ledgers;
        }
      }
      RunsFollowRules(lower, ledgers, next, events[1..]);
    }
  }

  /** The group of this line, blanks aside, begins and ends with no other white space. */
  predicate NeatGroup(ledgers: Ledgers, line: Line) {
    line.ledger in ledgers && ledgers[line.ledger].group.Some? && Trimmed(Trim(ledgers[line.ledger].group.value))
  }

  ghost predicate NeatGroups(ledgers: Ledgers, lines: seq<Line>) {
    forall i | 0 <= i < |lines| :: NeatGroup(ledgers, lines[i])
  }

  ghost predicate SideOnCash(
      lower: Lower, ledgers: Ledgers, company: nat, lines: seq<Line>, side: Side, n: nat)
    requires n <= |lines|
  {
    forall i | 0 <= i < n && lines[i].side == side :: OnCash(lower, ledgers, company, lines[i])
  }

  lemma {:induction false} CashAtMostTotal(
      lower: Lower, ledgers: Ledgers, company: nat, lines: seq<Line>, side: Side, n: nat)
    requires n <= |lines| && AllPositive(lines)
    ensures 0 <= Cash(lower, ledgers, company, lines, side, n) <= Total(lines, side, n)
  {
    if n > 0 {
      CashAtMostTotal(lower, ledgers, company, lines, side, n - 1);
    }
  }

  lemma {:induction false} OneMoreOnCash(
      lower: Lower, ledgers: Ledgers, company: nat, lines: seq<Line>, side: Side, n: nat)
    requires n < |lines|
    ensures SideOnCash(lower, ledgers, company, lines, side, n + 1) <==>
            && SideOnCash(lower, ledgers, company, lines, side, n)
            && (lines[n].side == side ==> OnCash(lower, ledgers, company, lines[n]))
  {
  }

  lemma {:induction false} AllCashIff(
      lower: Lower, ledgers: Ledgers, company: nat, lines: seq<Line>, side: Side, n: nat)
    requires n <= |lines| && AllPositive(lines)
    ensures Cash(lower, ledgers, company, lines, side, n) == Total(lines, side, n) <==>
            SideOnCash(lower, ledgers, company, lines, side, n)
  {
    if n > 0 {
      AllCashIff(lower, ledgers, company, lines, side, n - 1);
      CashAtMostTotal(lower, ledgers, company, lines, side, n - 1);
      OneMoreOnCash(lower, ledgers, company, lines, side, n - 1);
    }
  }

  lemma {:induction false} NeatIsCash(lower: Lower, ledgers: Ledgers, company: nat, line: Line)
    requires KeepsEnds(lower) && Owned(ledgers, company, line) && IsBankOrCash(lower, GroupOf(ledgers, line))
    ensures OnCash(lower, ledgers, company, line) <==> NeatGroup(ledgers, line)
  {
    CashOnDashboardIff(lower, ledgers[line.ledger].group);
  }

  lemma {:induction false} NoCash(
      lower: Lower, ledgers: Ledgers, company: nat, lines: seq<Line>, side: Side, n: nat)
    requires n <= |lines| && forall i | 0 <= i < n :: !OnCash(lower, ledgers, company, lines[i])
    ensures Cash(lower, ledgers, company, lines, side, n) == 0
  {
    if n > 0 {
      NoCash(lower, ledgers, company, lines, side, n - 1);
    }
  }

  lemma {:induction false} NeatSides(lower: Lower, ledgers: Ledgers, v: Voucher)
    requires KeepsEnds(lower) && Accepted(lower, ledgers, v) && v.kind == Contra
    ensures NeatGroups(ledgers, v.lines) <==>
            && SideOnCash(lower, ledgers, v.company, v.lines, Dr, |v.lines|)
            && SideOnCash(lower, ledgers, v.company, v.lines, Cr, |v.lines|)
  {
    forall i | 0 <= i < |v.lines|
      ensures OnCash(lower, ledgers, v.company, v.lines[i]) <==> NeatGroup(ledgers, v.lines[i])
    {
      NeatIsCash(lower, ledgers, v.company, v.lines[i]);
    }
  }

  /**
   A Contra moves exactly its total in and exactly its total out if and only if the dashboard reads
   the groups of its ledgers as the rules did, that is, if no group has other white space than
   blanks at its ends.
   */
  lemma {:induction false} ContraMovesItsTotalIff(lower: Lower, ledgers: Ledgers, v: Voucher)
    requires KeepsEnds(lower) && Accepted(lower, ledgers, v) && v.kind == Contra
    ensures CashIn(lower, ledgers, v) == v.total && CashOut(lower, ledgers, v) == v.total <==>
            NeatGroups(ledgers, v.lines)
  {
    NeatSides(lower, ledgers, v);
    AllCashIff(lower, ledgers, v.company, v.lines, Dr, |v.lines|);
    AllCashIff(lower, ledgers, v.company, v.lines, Cr, |v.lines|);
  }

  /** A Journal moves no cash. */
  lemma {:induction false} JournalMovesNothing(lower: Lower, ledgers: Ledgers, v: Voucher)
    requires KeepsEnds(lower) && Accepted(lower, ledgers, v) && v.kind == Journal
    ensures CashIn(lower, ledgers, v) == 0 && CashOut(lower, ledgers, v) == 0
  {
    forall i | 0 <= i < |v.lines| ensures !OnCash(lower, ledgers, v.company, v.lines[i]) {
      assert !IsBankOrCash(lower, GroupOf(ledgers, v.lines[i]));
      if v.lines[i].ledger in ledgers {
        CashOnDashboardIff(lower, ledgers[v.lines[i].ledger].group);
      }
    }
    NoCash(lower, ledgers, v.company, v.lines, Dr, |v.lines|);
    NoCash(lower, ledgers, v.company, v.lines, Cr, |v.lines|);
  }

  /** Neither a Contra nor a Journal. */
  predicate MovesCash(v: Voucher) {
    v.kind != Contra && v.kind != Journal
  }

  /** The net cash of a voucher that is neither. */
  function Net(lower: Lower, ledgers: Ledgers): Measure {
    v => if CountsAsCash(v) && MovesCash(v) then CashIn(lower, ledgers, v) - CashOut(lower, ledgers, v) else 0
  }

  lemma {:induction false} NetOfVoucher(lower: Lower, ledgers: Ledgers, v: Voucher)
    requires KeepsEnds(lower) && Accepted(lower, ledgers, v) && (v.kind == Contra ==> NeatGroups(ledgers, v.lines))
    ensures In(lower, ledgers)(v) - Out(lower, ledgers)(v) == Net(lower, ledgers)(v)
  {
    if v.kind == Contra {
      ContraMovesItsTotalIff(lower, ledgers, v);
    } else if v.kind == Journal {
      JournalMovesNothing(lower, ledgers, v);
    }
  }

  lemma {:induction false} NetOfSums(
      books: Books, f: Measure, g: Measure, h: Measure, company: nat, from: int, to: int, n: nat)
    requires n <= |books| && forall i | 0 <= i < |books| :: f(books[i]) - g(books[i]) == h(books[i])
    ensures Sum(books, f, company, from, to, n) - Sum(books, g, company, from, to, n) ==
            Sum(books, h, company, from, to, n)
    decreases n
  {
    if n > 0 {
      NetOfSums(books, f, g, h, company, from, to, n - 1);
    }
  }

  /** Net cash comes only from vouchers that are neither Contra nor Journal. */
  lemma {:induction false} NetCashComesFromOthers(
      lower: Lower, ledgers: Ledgers, books: Books, company: nat, from: int, to: int)
    requires KeepsEnds(lower) && AllAccepted(lower, ledgers, books)
    requires forall i | 0 <= i < |books| && books[i].kind == Contra :: NeatGroups(ledgers, books[i].lines)
    ensures
      var m := MetricsForRange(lower, ledgers, books, company, from, to);
      m.cashIn - m.cashOut == Sum(books, Net(lower, ledgers), company, from, to, |books|)
  {
    forall i | 0 <= i < |books|
      ensures In(lower, ledgers)(books[i]) - Out(lower, ledgers)(books[i]) == Net(lower, ledgers)(books[i])
    {
      assert Accepted(lower, ledgers, books[i]);
      NetOfVoucher(lower, ledgers, books[i]);
    }
    NetOfSums(books, In(lower, ledgers), Out(lower, ledgers), Net(lower, ledgers), company, from, to, |books|);
  }
}
