/**
 Conservation: whatever vouchers a report selects, the signed movements of all ledgers, taken
 ledger by ledger, add up to nothing.
 */
module TrialBalance {
  import opened VoucherBooks

  type Filter = Voucher -> bool

  function Signed(line: Line): int {
    if line.side == Dr then line.amount else -line.amount
  }

  /** What the first `n` lines move on a ledger. */
  function Movement(lines: seq<Line>, ledger: nat, n: nat): int
    requires n <= |lines|
  {
    if n == 0 then 0
    else Movement(lines, ledger, n - 1) + if lines[n - 1].ledger == ledger then Signed(lines[n - 1]) else 0
  }

  /** What the selected ones of the first `n` vouchers move on a ledger. */
  function Balance(books: Books, p: Filter, ledger: nat, n: nat): int
    requires n <= |books|
  {
    if n == 0 then 0
    else
      var v := books[n - 1];
      Balance(books, p, ledger, n - 1) + if p(v) then Movement(v.lines, ledger, |v.lines|) else 0
  }

  /** The movements of the first `n` lines, added up over the first `k` ledgers. */
  function LinesAcross(lines: seq<Line>, n: nat, ledgers: seq<nat>, k: nat): int
    requires n <= |lines| && k <= |ledgers|
    decreases k
  {
    if k == 0 then 0 else LinesAcross(lines, n, ledgers, k - 1) + Movement(lines, ledgers[k - 1], n)
  }

  /** The balances of the first `k` ledgers, added up. */
  function BooksAcross(books: Books, p: Filter, n: nat, ledgers: seq<nat>, k: nat): int
    requires n <= |books| && k <= |ledgers|
    decreases k
  {
    if k == 0 then 0 else BooksAcross(books, p, n, ledgers, k - 1) + Balance(books, p, ledgers[k - 1], n)
  }

  ghost predicate Distinct(ledgers: seq<nat>) {
    forall i, j | 0 <= i < j < |ledgers| :: ledgers[i] != ledgers[j]
  }

  ghost predicate Listed(ledgers: seq<nat>, ledger: nat, k: nat)
    requires k <= |ledgers|
  {
    exists j | 0 <= j < k :: ledgers[j] == ledger
  }

  ghost predicate LinesListed(lines: seq<Line>, ledgers: seq<nat>) {
    forall i | 0 <= i < |lines| :: Listed(ledgers, lines[i].ledger, |ledgers|)
  }

  /** Every ledger that occurs in the books is in the list. */
  ghost predicate AllListed(books: Books, ledgers: seq<nat>) {
    forall i | 0 <= i < |books| :: LinesListed(books[i].lines, ledgers)
  }

  /** One more line counts on exactly one of the ledgers. */
  lemma {:induction false} OneMoreLine(lines: seq<Line>, n: nat, ledgers: seq<nat>, k: nat)
    requires n < |lines| && k <= |ledgers| && Distinct(ledgers)
    ensures LinesAcross(lines, n + 1, ledgers, k) ==
            LinesAcross(lines, n, ledgers, k) + if Listed(ledgers, lines[n].ledger, k) then Signed(lines[n]) else 0
    decreases k
  {
    if k > 0 {
      OneMoreLine(lines, n, ledgers, k - 1);
    }
  }

  lemma {:induction false} NoLines(lines: seq<Line>, ledgers: seq<nat>, k: nat)
    requires k <= |ledgers|
    ensures LinesAcross(lines, 0, ledgers, k) == 0
    decreases k
  {
    if k > 0 {
      NoLines(lines, ledgers, k - 1);
    }
  }

  /** Ledger by ledger, the lines of a voucher add up to its debits less its credits. */
  lemma {:induction false} LinesAddUp(lines: seq<Line>, n: nat, ledgers: seq<nat>)
    requires n <= |lines| && Distinct(ledgers) && LinesListed(lines, ledgers)
    ensures LinesAcross(lines, n, ledgers, |ledgers|) == Total(lines, Dr, n) - Total(lines, Cr, n)
  {
    if n == 0 {
      NoLines(lines, ledgers, |ledgers|);
    } else {
      LinesAddUp(lines, n - 1, ledgers);
      OneMoreLine(lines, n - 1, ledgers, |ledgers|);
      assert Listed(ledgers, lines[n - 1].ledger, |ledgers|);
    }
  }

  lemma {:induction false} OneMoreVoucher(books: Books, p: Filter, n: nat, ledgers: seq<nat>, k: nat)
    requires n < |books| && k <= |ledgers|
    ensures BooksAcross(books, p, n + 1, ledgers, k) ==
            BooksAcross(books, p, n, ledgers, k)
            + if p(books[n]) then LinesAcross(books[n].lines, |books[n].lines|, ledgers, k) else 0
    decreases k
  {
    if k > 0 {
      OneMoreVoucher(books, p, n, ledgers, k - 1);
    }
  }

  lemma {:induction false} NoVouchers(books: Books, p: Filter, ledgers: seq<nat>, k: nat)
    requires k <= |ledgers|
    ensures BooksAcross(books, p, 0, ledgers, k) == 0
    decreases k
  {
    if k > 0 {
      NoVouchers(books, p, ledgers, k - 1);
    }
  }

  lemma {:induction false} FilteredBooksBalance(books: Books, p: Filter, n: nat, ledgers: seq<nat>)
    requires n <= |books| && Sound(books) && Distinct(ledgers) && AllListed(books, ledgers)
    ensures BooksAcross(books, p, n, ledgers, |ledgers|) == 0
  {
    if n == 0 {
      NoVouchers(books, p, ledgers, |ledgers|);
    } else {
      FilteredBooksBalance(books, p, n - 1, ledgers);
      OneMoreVoucher(books, p, n - 1, ledgers, |ledgers|);
      var v := books[n - 1];
      assert LinesListed(v.lines, ledgers) && Balanced(v);
      LinesAddUp(v.lines, |v.lines|, ledgers);
    }
  }

  /**
   After any run of create, update, cancel, approve, reject and posting, and for every choice of
   vouchers, the balances of all ledgers add up to zero.
   */
  lemma {:induction false} EveryReportBalances(
      lower: string -> string, events: seq<Event>, p: Filter, ledgers: seq<nat>)
    requires Distinct(ledgers) && AllListed(Run(lower, [], events), ledgers)
    ensures var books := Run(lower, [], events); BooksAcross(books, p, |books|, ledgers, |ledgers|) == 0
  {
    RunsKeepBooks(lower, [], events);
    FilteredBooksBalance(Run(lower, [], events), p, |Run(lower, [], events)|, ledgers);
  }
}
