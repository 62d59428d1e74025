/**
 The dashboard's figures against figures that are found another way: counts as sizes of sets, cash as
 totals of vouchers, and net cash as the balance of the cash ledgers.
 */
module CashReference {
  import opened Prelude
  import opened VoucherBooks
  import opened VoucherGroups
  import opened CashMetrics
  import opened TrialBalance

  // ------------------------------------------------------------------
  // Counts
  // ------------------------------------------------------------------

  /** A voucher of the company, dated within the range, both ends included. */
  predicate Dated(v: Voucher, company: nat, from: int, to: int) {
    v.company == company && from <= v.date && v.date <= to
  }

  function CreatedSet(books: Books, company: nat, from: int, to: int, n: nat): set<nat>
    requires n <= |books|
  {
    set i: nat | i < n && Dated(books[i], company, from, to) && books[i].status != Cancelled
  }

  function PendingSet(books: Books, company: nat, from: int, to: int, n: nat): set<nat>
    requires n <= |books|
  {
    set i: nat | i < n && Dated(books[i], company, from, to)
                 && books[i].optional && books[i].approved == None
                 && books[i].status != Cancelled && books[i].status != RejectedOptional
  }

  lemma {:induction false} CreatedSum(books: Books, company: nat, from: int, to: int, n: nat)
    requires n <= |books|
    ensures Sum(books, CREATED, company, from, to, n) == |CreatedSet(books, company, from, to, n)|
    decreases n
  {
    if n > 0 {
      CreatedSum(books, company, from, to, n - 1);
      var more := Dated(books[n - 1], company, from, to) && books[n - 1].status != Cancelled;
      assert CreatedSet(books, company, from, to, n) ==
             CreatedSet(books, company, from, to, n - 1) + if more then {n - 1} else {};
    }
  }

  lemma {:induction false} PendingSum(books: Books, company: nat, from: int, to: int, n: nat)
    requires n <= |books|
    ensures Sum(books, PENDING, company, from, to, n) == |PendingSet(books, company, from, to, n)|
    decreases n
  {
    if n > 0 {
      PendingSum(books, company, from, to, n - 1);
      var v := books[n - 1];
      var more := Dated(v, company, from, to) && v.optional && v.approved == None
                  && v.status != Cancelled && v.status != RejectedOptional;
      assert PendingSet(books, company, from, to, n) ==
             PendingSet(books, company, from, to, n - 1) + if more then {n - 1} else {};
    }
  }

  /** The two counts are the numbers of vouchers that are not cancelled, and that wait for an approval. */
  lemma {:induction false} CountsAreSizes(
      lower: Lower, ledgers: Ledgers, books: Books, company: nat, from: int, to: int)
    ensures
      var m := MetricsForRange(lower, ledgers, books, company, from, to);
      && m.created == |CreatedSet(books, company, from, to, |books|)|
      && m.pending == |PendingSet(books, company, from, to, |books|)|
  {
    CreatedSum(books, company, from, to, |books|);
    PendingSum(books, company, from, to, |books|);
  }

  // ------------------------------------------------------------------
  // Cash as totals of vouchers
  // ------------------------------------------------------------------

  /** Posted or queued for Tally, and Regular: what the cash figures are about. */
  predicate Moves(v: Voucher, company: nat, from: int, to: int) {
    Dated(v, company, from, to) && !v.optional && (v.status == Posted || v.status == PendingTallyPost)
  }

  function Totals(books: Books, company: nat, from: int, to: int, n: nat): int
    requires n <= |books|
    decreases n
  {
    if n == 0 then 0
    else
      Totals(books, company, from, to, n - 1)
      + if Moves(books[n - 1], company, from, to) then books[n - 1].total else 0
  }

  /** All lines of one side are on cash ledgers, and none of the other. */
  ghost predicate OneSided(lower: Lower, ledgers: Ledgers, v: Voucher, side: Side) {
    forall i | 0 <= i < |v.lines| :: OnCash(lower, ledgers, v.company, v.lines[i]) <==> v.lines[i].side == side
  }

  lemma {:induction false} OneSidedCash(lower: Lower, ledgers: Ledgers, v: Voucher, side: Side, other: Side, n: nat)
    requires n <= |v.lines| && OneSided(lower, ledgers, v, side) && other != side
    ensures Cash(lower, ledgers, v.company, v.lines, side, n) == Total(v.lines, side, n)
    ensures Cash(lower, ledgers, v.company, v.lines, other, n) == 0
  {
    if n > 0 {
      OneSidedCash(lower, ledgers, v, side, other, n - 1);
    }
  }

  ghost predicate AllOneSided(
      lower: Lower, ledgers: Ledgers, books: Books, company: nat, from: int, to: int, side: Side)
  {
    forall i | 0 <= i < |books| && Moves(books[i], company, from, to) ::
      Balanced(books[i]) && OneSided(lower, ledgers, books[i], side)
  }

  lemma {:induction false} DebitSums(
      lower: Lower, ledgers: Ledgers, books: Books, company: nat, from: int, to: int, n: nat)
    requires n <= |books| && AllOneSided(lower, ledgers, books, company, from, to, Dr)
    ensures Sum(books, In(lower, ledgers), company, from, to, n) == Totals(books, company, from, to, n)
    ensures Sum(books, Out(lower, ledgers), company, from, to, n) == 0
    decreases n
  {
    if n > 0 {
      var v := books[n - 1];
      DebitSums(lower, ledgers, books, company, from, to, n - 1);
      if Moves(v, company, from, to) {
        OneSidedCash(lower, ledgers, v, Dr, Cr, |v.lines|);
      }
    }
  }

  lemma {:induction false} CreditSums(
      lower: Lower, ledgers: Ledgers, books: Books, company: nat, from: int, to: int, n: nat)
    requires n <= |books| && AllOneSided(lower, ledgers, books, company, from, to, Cr)
    ensures Sum(books, Out(lower, ledgers), company, from, to, n) == Totals(books, company, from, to, n)
    ensures Sum(books, In(lower, ledgers), company, from, to, n) == 0
    decreases n
  {
    if n > 0 {
      var v := books[n - 1];
      CreditSums(lower, ledgers, books, company, from, to, n - 1);
      if Moves(v, company, from, to) {
        OneSidedCash(lower, ledgers, v, Cr, Dr, |v.lines|);
      }
    }
  }

  /** If the live Regular vouchers debit cash and credit something else, their totals are all cash in. */
  lemma {:induction false} DebitsAreCashIn(
      lower: Lower, ledgers: Ledgers, books: Books, company: nat, from: int, to: int)
    requires AllOneSided(lower, ledgers, books, company, from, to, Dr)
    ensures
      var m := MetricsForRange(lower, ledgers, books, company, from, to);
      m.cashIn == Totals(books, company, from, to, |books|) && m.cashOut == 0
  {
    DebitSums(lower, ledgers, books, company, from, to, |books|);
  }

  /** If they credit cash and debit something else, their totals are all cash out. */
  lemma {:induction false} CreditsAreCashOut(
      lower: Lower, ledgers: Ledgers, books: Books, company: nat, from: int, to: int)
    requires AllOneSided(lower, ledgers, books, company, from, to, Cr)
    ensures
      var m := MetricsForRange(lower, ledgers, books, company, from, to);
      m.cashOut == Totals(books, company, from, to, |books|) && m.cashIn == 0
  {
    CreditSums(lower, ledgers, books, company, from, to, |books|);
  }

  // ------------------------------------------------------------------
  // Net cash as the balance of the cash ledgers
  // ------------------------------------------------------------------

  function Filtered(company: nat, from: int, to: int): Filter {
    v => Moves(v, company, from, to)
  }

  /** Exactly the ledgers of the company that the dashboard counts as cash, each once. */
  ghost predicate CashLedgers(lower: Lower, all: Ledgers, company: nat, ledgers: seq<nat>) {
    && Distinct(ledgers)
    && forall l: nat :: Listed(ledgers, l, |ledgers|) <==>
         l in all && all[l].company == company && IsCashOnDashboard(lower, all[l].group)
  }

  lemma {:induction false} LinesOnCash(
      lower: Lower, all: Ledgers, company: nat, ledgers: seq<nat>, lines: seq<Line>, n: nat)
    requires n <= |lines| && CashLedgers(lower, all, company, ledgers)
    ensures LinesAcross(lines, n, ledgers, |ledgers|) ==
            Cash(lower, all, company, lines, Dr, n) - Cash(lower, all, company, lines, Cr, n)
  {
    if n == 0 {
      NoLines(lines, ledgers, |ledgers|);
    } else {
      LinesOnCash(lower, all, company, ledgers, lines, n - 1);
      OneMoreLine(lines, n - 1, ledgers, |ledgers|);
      assert Listed(ledgers, lines[n - 1].ledger, |ledgers|) <==> OnCash(lower, all, company, lines[n - 1]);
    }
  }

  lemma {:induction false} BooksOnCash(
      lower: Lower, all: Ledgers, books: Books, company: nat, from: int, to: int, ledgers: seq<nat>, n: nat)
    requires n <= |books| && CashLedgers(lower, all, company, ledgers)
    ensures BooksAcross(books, Filtered(company, from, to), n, ledgers, |ledgers|) ==
            Sum(books, In(lower, all), company, from, to, n) - Sum(books, Out(lower, all), company, from, to, n)
    decreases n
  {
    var p := Filtered(company, from, to);
    if n == 0 {
      NoVouchers(books, p, ledgers, |ledgers|);
    } else {
      var v := books[n - 1];
      BooksOnCash(lower, all, books, company, from, to, ledgers, n - 1);
      OneMoreVoucher(books, p, n - 1, ledgers, |ledgers|);
      LinesOnCash(lower, all, company, ledgers, v.lines, |v.lines|);
    }
  }

  /**
   For all books: cash in less cash out of a range is the sum of the balances, debits positive, of the
   cash ledgers over the live Regular vouchers of the range.
   */
  lemma {:induction false} NetCashIsCashBalance(
      lower: Lower, all: Ledgers, books: Books, company: nat, from: int, to: int, ledgers: seq<nat>)
    requires CashLedgers(lower, all, company, ledgers)
    ensures
      var m := MetricsForRange(lower, all, books, company, from, to);
      m.cashIn - m.cashOut == BooksAcross(books, Filtered(company, from, to), |books|, ledgers, |ledgers|)
  {
    BooksOnCash(lower, all, books, company, from, to, ledgers, |books|);
  }
}
