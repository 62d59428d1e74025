/**
 What the counters of a ledger sync mean, read off the tables before and after each payload row.
 */
module LedgerCounters {
  import opened Prelude
  import opened LedgerSync

  /** No row of the company has this GUID. */
  ghost predicate Unseen(company: nat, rows: seq<Ledger>, guid: string) {
    forall j | 0 <= j < |rows| :: !(rows[j].company == company && rows[j].guid == Some(guid))
  }

  ghost predicate Held(company: nat, rows: seq<Ledger>, name: string) {
    exists j | 0 <= j < |rows| :: rows[j].company == company && rows[j].norm == name
  }

  ghost predicate Foreign(company: nat, rows: seq<Ledger>, guid: string) {
    exists j | 0 <= j < |rows| :: rows[j].company != company && rows[j].guid == Some(guid)
  }

  /** Without a name, with a blank one, or without a GUID. */
  ghost predicate Useless(norm: Normalizer, m: Master) {
    m.name == None || norm(m.name.value) == "" || m.guid == None
  }

  /** A payload row that is passed over: useless, or a new GUID whose name is taken. */
  ghost predicate PassedOver(norm: Normalizer, company: nat, rows: seq<Ledger>, m: Master) {
    Useless(norm, m) || (Unseen(company, rows, m.guid.value) && Held(company, rows, norm(m.name.value)))
  }

  /** A payload row that stops the pass: a new GUID with a free name that another company has. */
  ghost predicate Halts(norm: Normalizer, company: nat, rows: seq<Ledger>, m: Master) {
    && !Useless(norm, m)
    && Unseen(company, rows, m.guid.value) && !Held(company, rows, norm(m.name.value))
    && Foreign(company, rows, m.guid.value)
  }

  // ------------------------------------------------------------------
  // One payload row
  // ------------------------------------------------------------------

  lemma {:induction false} Queries(norm: Normalizer, company: nat, rows: seq<Ledger>, m: Master)
    requires !Useless(norm, m)
    ensures FindGuid(rows, company, m.guid.value, 0) == |rows| <==> Unseen(company, rows, m.guid.value)
    ensures FindName(rows, company, norm(m.name.value), |rows|, 0) < |rows| <==>
            Held(company, rows, norm(m.name.value))
    ensures FindForeign(rows, company, m.guid.value, 0) < |rows| <==> Foreign(company, rows, m.guid.value)
  {
    var g, n := FindGuid(rows, company, m.guid.value, 0), FindName(rows, company, norm(m.name.value), |rows|, 0);
    assert g == |rows| ==> forall j | 0 <= j < |rows| :: !HasGuid(rows[j], company, m.guid.value);
    assert n == |rows| ==> forall j | 0 <= j < |rows| :: !HasName(rows[j], company, norm(m.name.value));
  }

  /** What a payload row does, said of the table it finds. */
  lemma {:induction false} RowDecides(norm: Normalizer, company: nat, rows: seq<Ledger>, m: Master)
    ensures Decide(norm, company, rows, m) == Skipped <==> PassedOver(norm, company, rows, m)
    ensures Decide(norm, company, rows, m) == Stop <==> Halts(norm, company, rows, m)
    ensures Decide(norm, company, rows, m) == Changed <==>
            SyncOne(norm, company, rows, m) != rows && |SyncOne(norm, company, rows, m)| == |rows|
    ensures Decide(norm, company, rows, m) == Created <==> |SyncOne(norm, company, rows, m)| > |rows|
  {
    if !Useless(norm, m) {
      Queries(norm, company, rows, m);
    }
  }

  /** A new row is the payload's, with the opening balance at zero on the debit side, behind all the others. */
  lemma {:induction false} NewRowIs(norm: Normalizer, company: nat, rows: seq<Ledger>, m: Master)
    requires |SyncOne(norm, company, rows, m)| > |rows|
    ensures
      var after := SyncOne(norm, company, rows, m);
      && m.name.Some? && m.guid.Some? && |after| == |rows| + 1 && after[..|rows|] == rows
      && after[|rows|] ==
         Ledger(company, m.guid, m.name.value, norm(m.name.value), m.group, m.gstin, true, 0, Dr)
  {
  }

  // ------------------------------------------------------------------
  // The counters of a pass
  // ------------------------------------------------------------------

  /** The pass before the first payload row and after each of them. */
  ghost predicate Course(
      norm: Normalizer, company: nat, rows: seq<Ledger>, payload: seq<Master>, c: seq<Pass>)
  {
    && |c| == |payload| + 1
    && forall i | 0 <= i <= |payload| :: c[i] == SyncTo(norm, company, rows, payload, i)
  }

  /** How many of the first `n` payload rows change the table without making it longer. */
  function CountChanges(c: seq<Pass>, n: nat): nat
    requires n < |c|
  {
    if n == 0 then 0
    else CountChanges(c, n - 1) + if c[n].rows != c[n - 1].rows && |c[n].rows| == |c[n - 1].rows| then 1 else 0
  }

  /** One of the first `n` payload rows stops the pass. */
  ghost predicate Halted(norm: Normalizer, company: nat, c: seq<Pass>, payload: seq<Master>, n: nat)
    requires n <= |payload| < |c|
  {
    exists i | 0 <= i < n :: Halts(norm, company, c[i].rows, payload[i])
  }

  /** How many of the first `n` payload rows are passed over before the pass stops. */
  ghost function CountPassedOver(
      norm: Normalizer, company: nat, c: seq<Pass>, payload: seq<Master>, n: nat): nat
    requires n <= |payload| < |c|
  {
    if n == 0 then 0
    else
      CountPassedOver(norm, company, c, payload, n - 1)
      + if !Halted(norm, company, c, payload, n - 1) && PassedOver(norm, company, c[n - 1].rows, payload[n - 1])
        then 1 else 0
  }

  /** What the counters say after the first `n` payload rows. */
  ghost predicate CountersMean(norm: Normalizer, company: nat, c: seq<Pass>, payload: seq<Master>, n: nat)
    requires n <= |payload| < |c|
  {
    && c[n].created == |c[n].rows| - |c[0].rows|
    && c[n].updated == CountChanges(c, n)
    && c[n].skipped == CountPassedOver(norm, company, c, payload, n)
    && (c[n].stopped <==> Halted(norm, company, c, payload, n))
  }

  /** One more payload row, in terms of the table it finds. */
  lemma {:induction false} NextCounters(norm: Normalizer, company: nat, p: Pass, m: Master)
    requires !p.stopped
    ensures
      var q := NextPass(norm, company, p, m);
      && q.created - p.created == |q.rows| - |p.rows|
      && q.updated == p.updated + (if q.rows != p.rows && |q.rows| == |p.rows| then 1 else 0)
      && q.skipped == p.skipped + (if PassedOver(norm, company, p.rows, m) then 1 else 0)
      && (q.stopped <==> Halts(norm, company, p.rows, m))
  {
    RowDecides(norm, company, p.rows, m);
  }

  lemma {:induction false} HaltedMore(norm: Normalizer, company: nat, c: seq<Pass>, payload: seq<Master>, n: nat)
    requires n < |payload| < |c|
    ensures Halted(norm, company, c, payload, n + 1) <==>
            Halted(norm, company, c, payload, n) || Halts(norm, company, c[n].rows, payload[n])
  {
  }

  lemma {:induction false} NextMeans(norm: Normalizer, company: nat, c: seq<Pass>, payload: seq<Master>, n: nat)
    requires n < |payload| < |c| && c[n + 1] == NextPass(norm, company, c[n], payload[n])
    requires CountersMean(norm, company, c, payload, n)
    ensures CountersMean(norm, company, c, payload, n + 1)
  {
    HaltedMore(norm, company, c, payload, n);
    if !c[n].stopped {
      NextCounters(norm, company, c[n], payload[n]);
    }
  }

  lemma {:induction false} CourseMeans(norm: Normalizer, company: nat, c: seq<Pass>, payload: seq<Master>, n: nat)
    requires n <= |payload| < |c| && c[0] == Pass(c[0].rows, 0, 0, 0, false)
    requires forall i | 0 <= i < |payload| :: c[i + 1] == NextPass(norm, company, c[i], payload[i])
    ensures CountersMean(norm, company, c, payload, n)
  {
    if n > 0 {
      CourseMeans(norm, company, c, payload, n - 1);
      NextMeans(norm, company, c, payload, n - 1);
    }
  }

  lemma {:induction false} CourseSteps(
      norm: Normalizer, company: nat, rows: seq<Ledger>, payload: seq<Master>, c: seq<Pass>, i: nat)
    requires i < |payload| && Course(norm, company, rows, payload, c)
    ensures c[i + 1] == NextPass(norm, company, c[i], payload[i])
  {
    assert c[i + 1] == SyncTo(norm, company, rows, payload, i + 1);
  }

  /**
   The counters of a pass, read off its tables: created is what the table grew by, updated is how many
   payload rows changed the table without making it longer, skipped is how many were useless or wanted
   a new ledger under a name that is taken; and the pass stops at the first new GUID with a free name
   that another company has.
   */
  lemma {:induction false} CountersAreExact(
      norm: Normalizer, company: nat, rows: seq<Ledger>, payload: seq<Master>, c: seq<Pass>, n: nat)
    requires n <= |payload| && Course(norm, company, rows, payload, c)
    ensures c[0].rows == rows && CountersMean(norm, company, c, payload, n)
  {
    forall i | 0 <= i < |payload| ensures c[i + 1] == NextPass(norm, company, c[i], payload[i]) {
      CourseSteps(norm, company, rows, payload, c, i);
    }
    CourseMeans(norm, company, c, payload, n);
  }

  /** Every pass has its course. */
  lemma {:induction false} CourseOf(norm: Normalizer, company: nat, rows: seq<Ledger>, payload: seq<Master>)
    returns (c: seq<Pass>)
    ensures Course(norm, company, rows, payload, c)
  {
    c := seq(|payload| + 1, i requires 0 <= i <= |payload| => SyncTo(norm, company, rows, payload, i));
  }

  /** Equal tables all the way count no change. */
  lemma {:induction false} StillCountsNothing(c: seq<Pass>, n: nat)
    requires n < |c| && forall i | 0 <= i <= n :: c[i].rows == c[0].rows
    ensures CountChanges(c, n) == 0
  {
    if n > 0 {
      StillCountsNothing(c, n - 1);
    }
  }

  /** Over distinct GUIDs, none of them foreign: the table is as it was exactly when nothing was created or updated. */
  lemma {:induction false} UnchangedIff(norm: Normalizer, company: nat, rows: seq<Ledger>, payload: seq<Master>)
    requires DistinctGuids(norm, payload) && NoneForeign(norm, company, rows, payload)
    ensures
      var p := Sync(norm, company, rows, payload);
      p.rows == rows <==> p.created == 0 && p.updated == 0
  {
    var p := Sync(norm, company, rows, payload);
    CountersAddUp(norm, company, rows, payload, |payload|);
    if p.rows == rows {
      var c := CourseOf(norm, company, rows, payload);
      var t := TablesOfPass(norm, company, rows, payload);
      CountersAreExact(norm, company, rows, payload, c, |payload|);
      forall i | 0 <= i <= |payload| ensures c[i].rows == rows {
        StillTables(norm, company, t, payload, |payload|, i);
        StepsArePass(norm, company, t, payload, |payload|, i);
      }
      StillCountsNothing(c, |payload|);
    }
  }
}
