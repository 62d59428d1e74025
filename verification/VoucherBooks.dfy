/**
 Vouchers: what `create` accepts, how a voucher may change, and what the books add up to.

 Vouchers are known by their place in the table, entries by their place in the voucher; neither is
 ever deleted. Amounts are whole paise. Ledgers are whatever they are when a voucher is created.
 */
module VoucherBooks {
  import opened Prelude
  import opened VoucherGroups

  datatype Side = Dr | Cr

  /** What else an entry says; a rate is in hundredths of a percent. */
  datatype Detail = Detail(
    narration: Option<string>, gstRate: Option<int>, cgst: Option<int>, sgst: Option<int>, igst: Option<int>,
    tdsAmount: Option<int>, tdsSection: Option<string>)

  datatype Line = Line(ledger: nat, amount: int, side: Side, detail: Detail)

  datatype Tax = Tax(
    gst: bool, place: Option<string>, cgst: int, sgst: int, igst: int, cess: int,
    tds: bool, tdsAmount: int, tdsSection: Option<string>)

  datatype Source = Manual | WhatsApp | Sms | Email | Photo | Pdf | Csv | Voice | TallySync | Recon

  datatype Channel = Mobile | Web | Api

  /** How the voucher was captured; the confidence is in thousandths. */
  datatype Capture = Capture(
    channel: Option<Channel>, source: Source, ingestion: Option<nat>, autoPosted: bool, confidence: Option<int>)

  datatype Kind = Receipt | Payment | Sales | Purchase | Journal | Contra | DebitNote | CreditNote

  /** `synced`: Tally's id of the ledger is known. */
  datatype Ledger = Ledger(company: nat, group: Option<string>, synced: bool, viaMobile: bool, confirmed: bool)

  type Ledgers = map<nat, Ledger>

  /** A create request: its body and how it was captured. */
  datatype Draft = Draft(
    kind: Kind, number: Option<string>, date: int, narration: Option<string>, reference: Option<string>, total: int,
    lines: seq<Line>, tax: Tax, capture: Capture)

  datatype Status = PendingTallyPost | TallyPostExpired | Posted | Cancelled | RejectedOptional

  datatype Stamp = Stamp(actor: nat, at: int, note: string)

  datatype Voucher = Voucher(
    company: nat, kind: Kind, number: Option<string>, date: int, narration: Option<string>, reference: Option<string>,
    total: int, lines: seq<Line>, tax: Tax, capture: Capture,
    status: Status, optional: bool, approved: Option<Stamp>, rejected: Option<Stamp>)

  datatype Error =
    | Unbalanced(dr: int, cr: int) | WrongTotal(total: int, dr: int) | PlaceOfSupplyMissing
    | LedgerNotFound | TypeRuleViolation | LedgerNotSynced | DatabaseRefused
    | NotFound | AlreadyCancelled | AlreadyRejected | NotOptional | ImmutableField | ConnectorOffline | ConnectorRefused

  // ------------------------------------------------------------------
  // Create
  // ------------------------------------------------------------------

  /** The amounts on one side, over the first `n` lines. */
  function Total(lines: seq<Line>, side: Side, n: nat): int
    requires n <= |lines|
  {
    if n == 0 then 0 else Total(lines, side, n - 1) + if lines[n - 1].side == side then lines[n - 1].amount else 0
  }

  predicate Owned(ledgers: Ledgers, company: nat, line: Line) {
    line.ledger in ledgers && ledgers[line.ledger].company == company
  }

  function GroupOf(ledgers: Ledgers, line: Line): Option<string> {
    if line.ledger in ledgers then ledgers[line.ledger].group else None
  }

  /** The rule of the voucher's type; there is one for each of the eight types. */
  predicate FollowsRule(lower: Lower, ledgers: Ledgers, kind: Kind, lines: seq<Line>) {
    match kind
    case Sales => exists i | 0 <= i < |lines| :: IsSundryDebtors(lower, GroupOf(ledgers, lines[i]))
    case Purchase => exists i | 0 <= i < |lines| :: IsSundryCreditors(lower, GroupOf(ledgers, lines[i]))
    case Contra => forall i | 0 <= i < |lines| :: IsBankOrCash(lower, GroupOf(ledgers, lines[i]))
    case Receipt =>
      exists i | 0 <= i < |lines| :: lines[i].side == Dr && IsBankOrCash(lower, GroupOf(ledgers, lines[i]))
    case Payment =>
      exists i | 0 <= i < |lines| :: lines[i].side == Cr && IsBankOrCash(lower, GroupOf(ledgers, lines[i]))
    case Journal => forall i | 0 <= i < |lines| :: !IsBankOrCash(lower, GroupOf(ledgers, lines[i]))
    case DebitNote => exists i | 0 <= i < |lines| :: IsSundryCreditors(lower, GroupOf(ledgers, lines[i]))
    case CreditNote => exists i | 0 <= i < |lines| :: IsSundryDebtors(lower, GroupOf(ledgers, lines[i]))
  }

  predicate Postable(ledgers: Ledgers, line: Line) {
    line.ledger in ledgers ==> ledgers[line.ledger].synced || ledgers[line.ledger].viaMobile
  }

  function EntriesRefusal(d: Draft): Option<Error> {
    var dr, cr := Total(d.lines, Dr, |d.lines|), Total(d.lines, Cr, |d.lines|);
    if dr != cr then Some(Unbalanced(dr, cr))
    else if dr != d.total then Some(WrongTotal(d.total, dr))
    else None
  }

  predicate TwoDigits(s: string) {
    |s| == 2 && '0' <= s[0] <= '9' && '0' <= s[1] <= '9'
  }

  /** The constraints of the table of vouchers. */
  predicate RowAllowed(d: Draft) {
    && d.total >= 0
    && d.tax.cgst >= 0 && d.tax.sgst >= 0 && d.tax.igst >= 0 && d.tax.cess >= 0
    && d.tax.tdsAmount >= 0 && (d.tax.tds ==> d.tax.tdsSection.Some?)
    && (d.tax.place.Some? ==> TwoDigits(d.tax.place.value))
    && (d.capture.confidence.Some? ==> 0 <= d.capture.confidence.value <= 1000)
  }

  /** The constraints of the table of entries. */
  predicate LineAllowed(line: Line) {
    line.amount > 0 && (line.detail.gstRate.Some? ==> 0 <= line.detail.gstRate.value <= 100_00)
  }

  ghost predicate AllPositive(lines: seq<Line>) {
    forall i | 0 <= i < |lines| :: lines[i].amount > 0
  }

  ghost predicate LinesAllowed(lines: seq<Line>) {
    forall i | 0 <= i < |lines| :: LineAllowed(lines[i])
  }

  /** Why a draft is refused, in the order of the checks; the last refusals are the database's. */
  ghost function Refusal(lower: Lower, ledgers: Ledgers, company: nat, d: Draft, skipSyncCheck: bool): Option<Error> {
    if EntriesRefusal(d).Some? then EntriesRefusal(d)
    else if d.tax.gst && d.tax.place.None? then Some(PlaceOfSupplyMissing)
    else if exists i | 0 <= i < |d.lines| :: !Owned(ledgers, company, d.lines[i]) then Some(LedgerNotFound)
    else if !FollowsRule(lower, ledgers, d.kind, d.lines) then Some(TypeRuleViolation)
    else if !skipSyncCheck && exists i | 0 <= i < |d.lines| :: !Postable(ledgers, d.lines[i]) then Some(LedgerNotSynced)
    else if !RowAllowed(d) || !LinesAllowed(d.lines) then Some(DatabaseRefused)
    else None
  }

  /** A ledger made on the phone that Tally has not confirmed makes the voucher Optional. */
  predicate Tainted(ledgers: Ledgers, d: Draft) {
    exists i | 0 <= i < |d.lines| ::
      d.lines[i].ledger in ledgers && ledgers[d.lines[i].ledger].viaMobile && !ledgers[d.lines[i].ledger].confirmed
  }

  function NewVoucher(ledgers: Ledgers, company: nat, d: Draft, forceOptional: bool): Voucher {
    Voucher(company, d.kind, d.number, d.date, d.narration, d.reference, d.total, d.lines, d.tax, d.capture,
            PendingTallyPost, Tainted(ledgers, d) || forceOptional, None, None)
  }

  // ------------------------------------------------------------------
  // Changes to one voucher
  // ------------------------------------------------------------------

  /** A PATCH body: what was sent for the two mutable fields, and whether anything else was sent. */
  datatype Patch = Patch(narration: Option<Option<string>>, reference: Option<Option<string>>, other: bool)

  function Patched(v: Voucher, p: Patch): Voucher {
    v.(narration := if p.narration.Some? then p.narration.value else v.narration,
       reference := if p.reference.Some? then p.reference.value else v.reference)
  }

  function UpdateRefusal(v: Voucher): Option<Error> {
    if v.status == Cancelled then Some(AlreadyCancelled) else None
  }

  /** What approve and reject decide before they ask the connector. */
  datatype Check = Refused(error: Error) | Nothing | Ask

  function ApproveCheck(v: Voucher): Check {
    if v.status == Cancelled then Refused(AlreadyCancelled)
    else if v.status == RejectedOptional then Refused(AlreadyRejected)
    else if !v.optional then Nothing
    else Ask
  }

  function ApproveWrite(v: Voucher, who: Stamp): Voucher {
    v.(optional := false, approved := Some(who), status := Posted)
  }

  function RejectCheck(v: Voucher): Check {
    if v.status == Cancelled then Refused(AlreadyCancelled)
    else if v.status == RejectedOptional then Refused(AlreadyRejected)
    else if !v.optional then Refused(NotOptional)
    else Ask
  }

  function RejectWrite(v: Voucher, who: Stamp): Voucher {
    v.(status := RejectedOptional, rejected := Some(who))
  }

  /** The connector's answer to the command. */
  datatype Answer = Success | Failure | Offline

  function AnswerError(a: Answer): Option<Error> {
    match a case Success => None case Failure => Some(ConnectorRefused) case Offline => Some(ConnectorOffline)
  }

  // ------------------------------------------------------------------
  // The service
  // ------------------------------------------------------------------

  type Books = seq<Voucher>

  predicate Known(books: Books, company: nat, id: nat) {
    id < |books| && books[id].company == company
  }

  datatype Event =
    | Create(ledgers: Ledgers, company: nat, draft: Draft, skipSyncCheck: bool, forceOptional: bool)
    | Update(company: nat, id: nat, patch: Patch)
    | Cancel(company: nat, id: nat)
    | Approve(company: nat, id: nat, answer: Answer, who: Stamp)
    | Reject(company: nat, id: nat, answer: Answer, who: Stamp)
    | TallyTook(id: nat)       // the dispatcher: a queued voucher is posted
    | TallyGaveUp(id: nat)     // the expiry sweep: a queued voucher is expired

  /** What an event makes of the voucher it is about. */
  function Changed(v: Voucher, e: Event): Voucher {
    match e
    case Update(_, _, patch) => if !patch.other && UpdateRefusal(v).None? then Patched(v, patch) else v
    case Cancel(_, _) => v.(status := Cancelled)
    case Approve(_, _, answer, who) => if ApproveCheck(v).Ask? && answer.Success? then ApproveWrite(v, who) else v
    case Reject(_, _, answer, who) => if RejectCheck(v).Ask? && answer.Success? then RejectWrite(v, who) else v
    case TallyTook(_) => if v.status == PendingTallyPost then v.(status := Posted) else v
    case TallyGaveUp(_) => if v.status == PendingTallyPost then v.(status := TallyPostExpired) else v
    case Create(_, _, _, _, _) => v
  }

  predicate About(books: Books, e: Event) {
    match e
    case Create(_, _, _, _, _) => false
    case TallyTook(id) => id < |books|
    case TallyGaveUp(id) => id < |books|
    case _ => Known(books, e.company, e.id)
  }

  ghost function Step(lower: Lower, books: Books, e: Event): Books {
    if e.Create? then
      if Refusal(lower, e.ledgers, e.company, e.draft, e.skipSyncCheck).None?
      then books + [NewVoucher(e.ledgers, e.company, e.draft, e.forceOptional)]
      else books
    else if About(books, e) then books[e.id := Changed(books[e.id], e)]
    else books
  }

  class VoucherService {
    const lower: Lower
    const company: nat
    var ledgers: Ledgers
    var books: Books

    constructor (lower: Lower, company: nat, ledgers: Ledgers, books: Books)
      ensures this.lower == lower && this.company == company && this.ledgers == ledgers && this.books == books
    {
      this.lower, this.company, this.ledgers, this.books := lower, company, ledgers, books;
    }

    method ValidateEntries(d: Draft) returns (error: Option<Error>)
      ensures error == EntriesRefusal(d)
    {
      var dr, cr := 0, 0;
      for i := 0 to |d.lines|
        invariant dr == Total(d.lines, Dr, i) && cr == Total(d.lines, Cr, i)
      {
        dr := dr + if d.lines[i].side == Dr then d.lines[i].amount else 0;
        cr := cr + if d.lines[i].side == Cr then d.lines[i].amount else 0;
      }
      error :=
        if dr != cr then Some(Unbalanced(dr, cr))
        else if dr != d.total then Some(WrongTotal(d.total, dr))
        else None;
    }

    /** The rows of the entries, in order; the database refuses what its constraints do not allow. */
    method WriteEntries(d: Draft) returns (written: bool, entries: seq<Line>)
      ensures written <==> LinesAllowed(d.lines)
      ensures written ==> entries == d.lines
    {
      written, entries := true, [];
      for i := 0 to |d.lines|
        invariant written && entries == d.lines[..i] && LinesAllowed(d.lines[..i])
      {
        if !LineAllowed(d.lines[i]) {
          return false, entries;
        }
        entries := entries + [d.lines[i]];
      }
    }

    method Create(d: Draft, skipSyncCheck: bool, forceOptional: bool) returns (error: Option<Error>)
      modifies this`books
      ensures error == Refusal(lower, ledgers, company, d, skipSyncCheck)
      ensures books == Step(lower, old(books), Event.Create(ledgers, company, d, skipSyncCheck, forceOptional))
    {
      error := ValidateEntries(d);
      if error.Some? {
        return;
      }
      if d.tax.gst && d.tax.place.None? {
        return Some(PlaceOfSupplyMissing);
      }
      if exists i | 0 <= i < |d.lines| :: !Owned(ledgers, company, d.lines[i]) {
        return Some(LedgerNotFound);
      }
      if !FollowsRule(lower, ledgers, d.kind, d.lines) {
        return Some(TypeRuleViolation);
      }
      if !skipSyncCheck && exists i | 0 <= i < |d.lines| :: !Postable(ledgers, d.lines[i]) {
        return Some(LedgerNotSynced);
      }
      if !RowAllowed(d) {
        return Some(DatabaseRefused);
      }
      var written, entries := WriteEntries(d);
      if !written {
        return Some(DatabaseRefused);
      }
      books := books + [NewVoucher(ledgers, company, d.(lines := entries), forceOptional)];
    }

    method Update(id: nat, patch: Patch) returns (error: Option<Error>)
      modifies this`books
      ensures books == Step(lower, old(books), Event.Update(company, id, patch))
      ensures error ==
              if patch.other then Some(ImmutableField)
              else if !Known(old(books), company, id) then Some(NotFound)
              else UpdateRefusal(old(books)[id])
    {
      if patch.other {
        return Some(ImmutableField);
      }
      if !Known(books, company, id) {
        return Some(NotFound);
      }
      var voucher := books[id];
      if voucher.status == Cancelled {
        return Some(AlreadyCancelled);
      }
      if patch.narration.Some? {
        voucher := voucher.(narration := patch.narration.value);
      }
      if patch.reference.Some? {
        voucher := voucher.(reference := patch.reference.value);
      }
      books := books[id := voucher];
      return None;
    }

    method Cancel(id: nat) returns (error: Option<Error>)
      modifies this`books
      ensures books == Step(lower, old(books), Event.Cancel(company, id))
      ensures error ==
              if !Known(old(books), company, id) then Some(NotFound)
              else if old(books)[id].status == Cancelled then Some(AlreadyCancelled)
              else None
    {
      if !Known(books, company, id) {
        return Some(NotFound);
      }
      if books[id].status == Cancelled {
        return Some(AlreadyCancelled);
      }
      books := books[id := books[id].(status := Cancelled)];
      return None;
    }

    /** The whole call as one step; `answer` is what the connector says if it is asked. */
    method ApproveToRegular(id: nat, answer: Answer, who: Stamp) returns (error: Option<Error>)
      modifies this`books
      ensures books == Step(lower, old(books), Event.Approve(company, id, answer, who))
      ensures error ==
              if !Known(old(books), company, id) then Some(NotFound)
              else match ApproveCheck(old(books)[id])
                case Refused(e) => Some(e)
                case Nothing => None
                case Ask => AnswerError(answer)
    {
      if !Known(books, company, id) {
        return Some(NotFound);
      }
      var voucher := books[id];
      if voucher.status == Cancelled {
        return Some(AlreadyCancelled);
      }
      if voucher.status == RejectedOptional {
        return Some(AlreadyRejected);
      }
      if !voucher.optional {
        return None;
      }
      if answer != Success {
        return AnswerError(answer);
      }
      books := books[id := voucher.(optional := false, approved := Some(who), status := Posted)];
      return None;
    }

    method RejectOptional(id: nat, answer: Answer, who: Stamp) returns (error: Option<Error>)
      modifies this`books
      ensures books == Step(lower, old(books), Event.Reject(company, id, answer, who))
      ensures error ==
              if !Known(old(books), company, id) then Some(NotFound)
              else match RejectCheck(old(books)[id])
                case Refused(e) => Some(e)
                case Nothing => None
                case Ask => AnswerError(answer)
    {
      if !Known(books, company, id) {
        return Some(NotFound);
      }
      var voucher := books[id];
      if voucher.status == Cancelled {
        return Some(AlreadyCancelled);
      }
      if voucher.status == RejectedOptional {
        return Some(AlreadyRejected);
      }
      if !voucher.optional {
        return Some(NotOptional);
      }
      if answer != Success {
        return AnswerError(answer);
      }
      books := books[id := voucher.(status := RejectedOptional, rejected := Some(who))];
      return None;
    }
  }

  // ------------------------------------------------------------------
  // What runs keep
  // ------------------------------------------------------------------

  ghost function Run(lower: Lower, books: Books, events: seq<Event>): Books
    decreases |events|
  {
    if events == [] then books else Run(lower, Step(lower, books, events[0]), events[1..])
  }

  /** Debits, credits and the total agree, and every amount is positive. */
  ghost predicate Balanced(v: Voucher) {
    Total(v.lines, Dr, |v.lines|) == v.total == Total(v.lines, Cr, |v.lines|) && AllPositive(v.lines)
  }

  /** Never both approved and rejected; what was approved is Regular; what was rejected is rejected or cancelled. */
  predicate Consistent(v: Voucher) {
    && (v.approved.Some? ==> !v.optional && v.rejected.None?)
    && (v.rejected.Some? ==> v.optional && (v.status == RejectedOptional || v.status == Cancelled))
    && (v.status == RejectedOptional ==> v.rejected.Some?)
  }

  /**
   How a voucher may change: never what it is about, never back to Optional, never out of cancelled,
   out of rejected only to cancelled, and never who approved or rejected it.
   */
  predicate Allowed(a: Voucher, b: Voucher) {
    && a.company == b.company && a.kind == b.kind && a.number == b.number && a.date == b.date
    && a.total == b.total && a.lines == b.lines && a.tax == b.tax && a.capture == b.capture
    && (b.optional ==> a.optional)
    && (a.status == Cancelled ==> b.status == Cancelled)
    && (a.status == RejectedOptional ==> b.status == RejectedOptional || b.status == Cancelled)
    && (a.approved.Some? ==> b.approved == a.approved)
    && (a.rejected.Some? ==> b.rejected == a.rejected)
  }

  ghost predicate Sound(books: Books) {
    forall i | 0 <= i < |books| :: Balanced(books[i]) && Consistent(books[i])
  }

  ghost predicate Developed(a: Books, b: Books) {
    |a| <= |b| && forall i | 0 <= i < |a| :: Allowed(a[i], b[i])
  }

  lemma {:induction false} ChangeIsAllowed(v: Voucher, e: Event)
    requires Consistent(v)
    ensures Consistent(Changed(v, e)) && Allowed(v, Changed(v, e))
  {
  }

  lemma {:induction false} StepKeepsBooks(lower: Lower, books: Books, e: Event)
    requires Sound(books)
    ensures Sound(Step(lower, books, e)) && Developed(books, Step(lower, books, e))
  {
    var next := Step(lower, books, e);
    if e.Create? && next != books {
      assert Balanced(next[|books|]);
    } else if next != books {
      ChangeIsAllowed(books[e.id], e);
      assert Balanced(books[e.id]);
      assert Balanced(next[e.id]);
    }
  }

  lemma {:induction false} DevelopedTwice(a: Books, b: Books, c: Books)
    requires Developed(a, b) && Developed(b, c)
    ensures Developed(a, c)
  {
    forall i | 0 <= i < |a| ensures Allowed(a[i], c[i]) {
      assert Allowed(a[i], b[i]) && Allowed(b[i], c[i]);
    }
  }

  /**
   In every run, with each service call atomic: every voucher balances and is consistent, and every
   voucher there was has developed only as allowed.
   */
  lemma {:induction false} RunsKeepBooks(lower: Lower, books: Books, events: seq<Event>)
    requires Sound(books)
    ensures Sound(Run(lower, books, events)) && Developed(books, Run(lower, books, events))
    decreases |events|
  {
    if events != [] {
      var next := Step(lower, books, events[0]);
      StepKeepsBooks(lower, books, events[0]);
      RunsKeepBooks(lower, next, events[1..]);
      DevelopedTwice(books, next, Run(lower, next, events[1..]));
    }
  }

  // Approve and reject await the connector between check and write

  /** A write is harmless exactly when, at that moment, nobody else has cancelled, rejected or approved. */
  lemma {:induction false} ApproveWriteIsAllowedIff(v: Voucher, who: Stamp)
    requires Consistent(v)
    ensures Consistent(ApproveWrite(v, who)) && Allowed(v, ApproveWrite(v, who)) <==>
            v.status != Cancelled && v.status != RejectedOptional && (v.approved.None? || v.approved == Some(who))
  {
  }

  lemma {:induction false} RejectWriteIsAllowedIff(v: Voucher, who: Stamp)
    requires Consistent(v)
    ensures Consistent(RejectWrite(v, who)) && Allowed(v, RejectWrite(v, who)) <==>
            v.status != Cancelled && v.optional && (v.rejected.None? || v.rejected == Some(who))
  {
  }
}
