/**
 GUID-first ledger sync: one pass of a `sync_masters` reply over the ledger table.

 `norm` is the source's `name.strip().lower()`; a name is blank when its normalization is empty.
 A row is known by its place in the table; rows are appended and never removed here.
 The time stamp of the last sync is not part of a row, as it is not part of the audit snapshot.
 */
module LedgerSync {
  import opened Prelude

  type Normalizer = string -> string

  datatype BalanceType = Dr | Cr

  datatype Ledger = Ledger(
    company: nat, guid: Option<string>, name: string, norm: string,
    group: Option<string>, gstin: Option<string>, active: bool,
    opening: int, balance: BalanceType)

  /** One row of the reply; an empty text counts as absent, as in the source. */
  datatype Master = Master(name: Option<string>, guid: Option<string>, group: Option<string>, gstin: Option<string>)

  predicate Usable(norm: Normalizer, m: Master) {
    m.name.Some? && norm(m.name.value) != "" && m.guid.Some?
  }

  // ------------------------------------------------------------------
  // The queries
  // ------------------------------------------------------------------

  predicate HasGuid(row: Ledger, company: nat, guid: string) {
    row.company == company && row.guid == Some(guid)
  }

  predicate HasName(row: Ledger, company: nat, name: string) {
    row.company == company && row.norm == name
  }

  /** The first row from `i` on with this GUID, or the end of the table. */
  function FindGuid(rows: seq<Ledger>, company: nat, guid: string, i: nat): (k: nat)
    requires i <= |rows|
    ensures i <= k <= |rows|
    ensures k < |rows| ==> HasGuid(rows[k], company, guid)
    ensures forall j | i <= j < k :: !HasGuid(rows[j], company, guid)
    decreases |rows| - i
  {
    if i == |rows| || HasGuid(rows[i], company, guid) then i else FindGuid(rows, company, guid, i + 1)
  }

  /** Some row of the company other than the one at `except` has this normalized name. */
  ghost predicate NameHeld(rows: seq<Ledger>, company: nat, name: string, except: nat) {
    exists j | 0 <= j < |rows| && j != except :: HasName(rows[j], company, name)
  }

  function FindName(rows: seq<Ledger>, company: nat, name: string, except: nat, i: nat): (k: nat)
    requires i <= |rows|
    ensures i <= k <= |rows|
    ensures k < |rows| ==> HasName(rows[k], company, name) && k != except
    ensures forall j | i <= j < k && j != except :: !HasName(rows[j], company, name)
    decreases |rows| - i
  {
    if i == |rows| || (HasName(rows[i], company, name) && i != except) then i
    else FindName(rows, company, name, except, i + 1)
  }

  /** The first row from `i` on with this GUID in another company, or the end of the table. */
  function FindForeign(rows: seq<Ledger>, company: nat, guid: string, i: nat): (k: nat)
    requires i <= |rows|
    ensures i <= k <= |rows|
    ensures k < |rows| ==> rows[k].company != company && rows[k].guid == Some(guid)
    ensures forall j | i <= j < k && rows[j].company != company :: rows[j].guid != Some(guid)
    decreases |rows| - i
  {
    if i == |rows| || (rows[i].company != company && rows[i].guid == Some(guid)) then i
    else FindForeign(rows, company, guid, i + 1)
  }

  // ------------------------------------------------------------------
  // One payload row
  // ------------------------------------------------------------------

  /** The update of a row whose GUID matches; the name changes unless another row holds it. */
  function Updated(norm: Normalizer, company: nat, rows: seq<Ledger>, k: nat, m: Master): Ledger
    requires k < |rows| && Usable(norm, m)
  {
    var name := norm(m.name.value);
    var row := rows[k].(group := m.group, gstin := m.gstin, active := true);
    if name != row.norm && FindName(rows, company, name, k, 0) == |rows|
    then row.(name := m.name.value, norm := name)
    else row
  }

  function NewRow(norm: Normalizer, company: nat, m: Master): Ledger
    requires Usable(norm, m)
  {
    Ledger(company, m.guid, m.name.value, norm(m.name.value), m.group, m.gstin, true, 0, Dr)
  }

  datatype Change = Created | Changed | Same | Skipped | Stop

  /** Which of the cases applies to a payload row. */
  function Decide(norm: Normalizer, company: nat, rows: seq<Ledger>, m: Master): Change {
    if !Usable(norm, m) then Skipped
    else
      var k := FindGuid(rows, company, m.guid.value, 0);
      if k < |rows| then
        if Updated(norm, company, rows, k, m) == rows[k] then Same else Changed
      else if FindName(rows, company, norm(m.name.value), |rows|, 0) < |rows| then Skipped
      else if FindForeign(rows, company, m.guid.value, 0) < |rows| then Stop
      else Created
  }

  function SyncOne(norm: Normalizer, company: nat, rows: seq<Ledger>, m: Master): seq<Ledger> {
    match Decide(norm, company, rows, m)
    case Changed =>
      var k := FindGuid(rows, company, m.guid.value, 0);
      rows[k := Updated(norm, company, rows, k, m)]
    case Created => rows + [NewRow(norm, company, m)]
    case _ => rows
  }

  // ------------------------------------------------------------------
  // One pass
  // ------------------------------------------------------------------

  datatype Pass = Pass(rows: seq<Ledger>, created: nat, updated: nat, skipped: nat, stopped: bool)

  /** The pass after one more payload row; a stop ends it. */
  function NextPass(norm: Normalizer, company: nat, p: Pass, m: Master): Pass {
    if p.stopped then p
    else
      var q := p.(rows := SyncOne(norm, company, p.rows, m));
      match Decide(norm, company, p.rows, m)
      case Created => q.(created := p.created + 1)
      case Changed => q.(updated := p.updated + 1)
      case Same => q
      case Skipped => q.(skipped := p.skipped + 1)
      case Stop => q.(stopped := true)
  }

  /** The pass after its first `n` payload rows. */
  function SyncTo(norm: Normalizer, company: nat, rows: seq<Ledger>, payload: seq<Master>, n: nat): Pass
    requires n <= |payload|
  {
    if n == 0 then Pass(rows, 0, 0, 0, false)
    else NextPass(norm, company, SyncTo(norm, company, rows, payload, n - 1), payload[n - 1])
  }

  function Sync(norm: Normalizer, company: nat, rows: seq<Ledger>, payload: seq<Master>): Pass {
    SyncTo(norm, company, rows, payload, |payload|)
  }

  class LedgerService {
    const norm: Normalizer
    const company: nat
    var rows: seq<Ledger>

    constructor (norm: Normalizer, company: nat, rows: seq<Ledger>)
      ensures this.norm == norm && this.company == company && this.rows == rows
    {
      this.norm, this.company, this.rows := norm, company, rows;
    }

    /**
     The bulk upsert. `stopped` is the data-integrity stop: a GUID of the payload is held by
     another company; what was written before it stays in the open transaction.
     */
    method UpsertFromSync(ledgers: seq<Master>) returns (created: nat, updated: nat, skipped: nat, stopped: bool)
      modifies this
      ensures Pass(rows, created, updated, skipped, stopped) == Sync(norm, company, old(rows), ledgers)
    {
      created, updated, skipped, stopped := 0, 0, 0, false;
      ghost var before := rows;
      for i := 0 to |ledgers|
        invariant !stopped
        invariant Pass(rows, created, updated, skipped, false) == SyncTo(norm, company, before, ledgers, i)
      {
        var raw := ledgers[i];
        ghost var next := SyncTo(norm, company, before, ledgers, i + 1);
        if raw.name.None? || norm(raw.name.value) == "" {
          skipped := skipped + 1;
          continue;
        }
        if raw.guid.None? {
          skipped := skipped + 1;
          continue;
        }
        var existing := FindGuid(rows, company, raw.guid.value, 0);
        if existing < |rows| {
          var same := ApplySyncUpdate(existing, raw);
          if same {
            continue;
          }
          updated := updated + 1;
          continue;
        }
        if FindName(rows, company, norm(raw.name.value), |rows|, 0) < |rows| {
          skipped := skipped + 1;
          continue;
        }
        if FindForeign(rows, company, raw.guid.value, 0) < |rows| {
          stopped := true;
          StopsThere(norm, company, before, ledgers, i + 1, |ledgers|, next);
          return;
        }
        rows := rows + [NewRow(norm, company, raw)];
        created := created + 1;
      }
    }

    /** Rewrite the sync-managed fields of one row; says whether anything changed. */
    method ApplySyncUpdate(k: nat, raw: Master) returns (same: bool)
      requires k < |rows| && Usable(norm, raw)
      modifies this
      ensures rows == old(rows)[k := Updated(norm, company, old(rows), k, raw)]
      ensures same <==> rows[k] == old(rows)[k]
    {
      var before := rows[k];
      var row := before.(group := raw.group, gstin := raw.gstin, active := true);
      var name := norm(raw.name.value);
      if name != row.norm {
        var clash := FindName(rows, company, name, k, 0);
        if clash == |rows| {
          row := row.(name := raw.name.value, norm := name);
        }
      }
      rows := rows[k := row];
      same := row == before;
    }
  }

  /** A stopped pass takes no further row. */
  lemma {:induction false} StopsThere(
      norm: Normalizer, company: nat, rows: seq<Ledger>, payload: seq<Master>, i: nat, n: nat, p: Pass)
    requires i <= n <= |payload| && SyncTo(norm, company, rows, payload, i) == p && p.stopped
    ensures SyncTo(norm, company, rows, payload, n) == p
    decreases n - i
  {
    if i < n {
      assert NextPass(norm, company, p, payload[i]) == p;
      StopsThere(norm, company, rows, payload, i + 1, n, p);
    }
  }

  // ------------------------------------------------------------------
  // What a pass keeps
  // ------------------------------------------------------------------

  /** No two rows anywhere have the same GUID. */
  ghost predicate GuidsUnique(rows: seq<Ledger>) {
    forall i, j | 0 <= i < j < |rows| && rows[i].guid.Some? :: rows[i].guid != rows[j].guid
  }

  /** The schema's constraint: no two rows of one company have the same GUID. */
  ghost predicate GuidsUniquePerCompany(rows: seq<Ledger>) {
    forall i, j | 0 <= i < j < |rows| && rows[i].guid.Some? && rows[i].company == rows[j].company ::
      rows[i].guid != rows[j].guid
  }

  ghost predicate NormsUnique(rows: seq<Ledger>) {
    forall i, j | 0 <= i < j < |rows| && rows[i].company == rows[j].company :: rows[i].norm != rows[j].norm
  }

  ghost predicate Normalized(norm: Normalizer, rows: seq<Ledger>) {
    forall i | 0 <= i < |rows| :: rows[i].norm == norm(rows[i].name)
  }

  /** The schema's constraint: no two rows of one company have the same name. */
  ghost predicate NamesUnique(rows: seq<Ledger>) {
    forall i, j | 0 <= i < j < |rows| && rows[i].company == rows[j].company :: rows[i].name != rows[j].name
  }

  /** Other companies' rows stay as they are; no row changes its GUID or its opening balance; new rows start at zero. */
  ghost predicate Framed(company: nat, before: seq<Ledger>, after: seq<Ledger>) {
    && |before| <= |after|
    && (forall i | 0 <= i < |before| ::
          && after[i].company == before[i].company && after[i].guid == before[i].guid
          && after[i].opening == before[i].opening && after[i].balance == before[i].balance
          && (before[i].company != company ==> after[i] == before[i]))
    && (forall i | |before| <= i < |after| ::
          after[i].company == company && after[i].guid.Some? && after[i].opening == 0 && after[i].balance == Dr)
  }

  lemma {:induction false} StepFrames(norm: Normalizer, company: nat, rows: seq<Ledger>, m: Master)
    ensures Framed(company, rows, SyncOne(norm, company, rows, m))
  {
  }

  lemma {:induction false} FramedTwice(company: nat, a: seq<Ledger>, b: seq<Ledger>, c: seq<Ledger>)
    requires Framed(company, a, b) && Framed(company, b, c)
    ensures Framed(company, a, c)
  {
  }

  lemma {:induction false} StepKeepsGuidsUnique(norm: Normalizer, company: nat, rows: seq<Ledger>, m: Master)
    requires GuidsUnique(rows)
    ensures GuidsUnique(SyncOne(norm, company, rows, m))
  {
    var after := SyncOne(norm, company, rows, m);
    if Decide(norm, company, rows, m) == Created {
      forall i | 0 <= i < |rows| ensures rows[i].guid != m.guid {
        assert !HasGuid(rows[i], company, m.guid.value);
      }
    } else {
      StepFrames(norm, company, rows, m);
      assert |after| == |rows|;
    }
  }

  lemma {:induction false} StepKeepsGuidsUniquePerCompany(
      norm: Normalizer, company: nat, rows: seq<Ledger>, m: Master)
    requires GuidsUniquePerCompany(rows)
    ensures GuidsUniquePerCompany(SyncOne(norm, company, rows, m))
  {
    var after := SyncOne(norm, company, rows, m);
    if Decide(norm, company, rows, m) == Created {
      forall i | 0 <= i < |rows| && rows[i].company == company ensures rows[i].guid != m.guid {
        assert !HasGuid(rows[i], company, m.guid.value);
      }
    } else {
      StepFrames(norm, company, rows, m);
      assert |after| == |rows|;
    }
  }

  lemma {:induction false} StepKeepsNormsUnique(norm: Normalizer, company: nat, rows: seq<Ledger>, m: Master)
    requires NormsUnique(rows)
    ensures NormsUnique(SyncOne(norm, company, rows, m))
  {
    var after := SyncOne(norm, company, rows, m);
    match Decide(norm, company, rows, m)
    case Created =>
      forall i | 0 <= i < |rows| && rows[i].company == company ensures rows[i].norm != norm(m.name.value) {
        assert !HasName(rows[i], company, norm(m.name.value));
      }
    case Changed =>
      var k := FindGuid(rows, company, m.guid.value, 0);
      if after[k].norm != rows[k].norm {
        forall i | 0 <= i < |rows| && i != k && rows[i].company == company ensures rows[i].norm != after[k].norm {
          assert !HasName(rows[i], company, norm(m.name.value));
        }
      }
    case _ =>
  }

  lemma {:induction false} StepKeepsNormalized(norm: Normalizer, company: nat, rows: seq<Ledger>, m: Master)
    requires Normalized(norm, rows)
    ensures Normalized(norm, SyncOne(norm, company, rows, m))
  {
  }

  /** The constraint on names follows: equal names have equal normalized names. */
  lemma {:induction false} NamesFollowNorms(norm: Normalizer, rows: seq<Ledger>)
    requires NormsUnique(rows) && Normalized(norm, rows)
    ensures NamesUnique(rows)
  {
  }

  /** What the table guarantees between two payload rows. */
  ghost predicate Sound(norm: Normalizer, rows: seq<Ledger>) {
    GuidsUnique(rows) && NormsUnique(rows) && Normalized(norm, rows)
  }

  lemma {:induction false} StepKeepsSound(norm: Normalizer, company: nat, rows: seq<Ledger>, m: Master)
    requires Sound(norm, rows)
    ensures Sound(norm, SyncOne(norm, company, rows, m))
  {
    StepKeepsGuidsUnique(norm, company, rows, m);
    StepKeepsNormsUnique(norm, company, rows, m);
    StepKeepsNormalized(norm, company, rows, m);
  }

  /**
   After every payload row of every pass: GUIDs are unique everywhere, normalized names and names
   are unique in each company, and nothing that is not the sync's to change has changed.
   */
  lemma {:induction false} PassKeepsTheTable(
      norm: Normalizer, company: nat, rows: seq<Ledger>, payload: seq<Master>, n: nat)
    requires n <= |payload| && Sound(norm, rows)
    ensures
      var after := SyncTo(norm, company, rows, payload, n).rows;
      Sound(norm, after) && NamesUnique(after) && Framed(company, rows, after)
  {
    if n > 0 {
      var p := SyncTo(norm, company, rows, payload, n - 1);
      PassKeepsTheTable(norm, company, rows, payload, n - 1);
      if !p.stopped {
        StepKeepsSound(norm, company, p.rows, payload[n - 1]);
        StepFrames(norm, company, p.rows, payload[n - 1]);
        FramedTwice(company, rows, p.rows, SyncOne(norm, company, p.rows, payload[n - 1]));
      }
    }
    NamesFollowNorms(norm, SyncTo(norm, company, rows, payload, n).rows);
  }

  /** What the counters of a pass say about its table, after `n` payload rows over `rows`. */
  ghost predicate Counted(rows: seq<Ledger>, p: Pass, n: nat) {
    && |p.rows| == |rows| + p.created
    && p.created + p.updated + p.skipped + (if p.stopped then 1 else 0) <= n
    && (p.created == 0 && p.updated == 0 ==> p.rows == rows)
  }

  lemma {:induction false} CountedNext(
      norm: Normalizer, company: nat, rows: seq<Ledger>, p: Pass, m: Master, n: nat)
    requires Counted(rows, p, n)
    ensures Counted(rows, NextPass(norm, company, p, m), n + 1)
  {
  }

  /** The counters: rows created are the rows the table grew by, and every payload row counts at most once. */
  lemma {:induction false} CountersAddUp(
      norm: Normalizer, company: nat, rows: seq<Ledger>, payload: seq<Master>, n: nat)
    requires n <= |payload|
    ensures Counted(rows, SyncTo(norm, company, rows, payload, n), n)
  {
    if n > 0 {
      CountersAddUp(norm, company, rows, payload, n - 1);
      CountedNext(norm, company, rows, SyncTo(norm, company, rows, payload, n - 1), payload[n - 1], n - 1);
    }
  }

  // ------------------------------------------------------------------
  // Convergence
  // ------------------------------------------------------------------

  function Place(company: nat, rows: seq<Ledger>, m: Master): (k: nat)
    requires m.guid.Some?
    ensures k <= |rows|
  {
    FindGuid(rows, company, m.guid.value, 0)
  }

  /** The row with this GUID has the normalized name the payload wants. */
  predicate AtTarget(norm: Normalizer, company: nat, rows: seq<Ledger>, m: Master) {
    Usable(norm, m) && var k := Place(company, rows, m); k < |rows| && rows[k].norm == norm(m.name.value)
  }

  /** The other fields are as the payload wants them, where the row exists. */
  predicate FieldsMatch(norm: Normalizer, company: nat, rows: seq<Ledger>, m: Master) {
    Usable(norm, m) ==>
      var k := Place(company, rows, m);
      k < |rows| ==> rows[k].group == m.group && rows[k].gstin == m.gstin && rows[k].active
  }

  /** The two payload rows are about different ledgers. */
  predicate Apart(norm: Normalizer, a: Master, b: Master) {
    Usable(norm, a) && Usable(norm, b) ==> a.guid != b.guid
  }

  ghost predicate DistinctGuids(norm: Normalizer, payload: seq<Master>) {
    forall i, j | 0 <= i < j < |payload| :: Apart(norm, payload[i], payload[j])
  }

  /** No GUID of the payload is held by another company. */
  ghost predicate NoneForeign(norm: Normalizer, company: nat, rows: seq<Ledger>, payload: seq<Master>) {
    forall i, j | 0 <= i < |rows| && 0 <= j < |payload| && rows[i].company != company && Usable(norm, payload[j]) ::
      rows[i].guid != payload[j].guid
  }

  lemma {:induction false} FindGuidFramed(
      company: nat, a: seq<Ledger>, b: seq<Ledger>, guid: string, i: nat)
    requires i <= |a| && Framed(company, a, b)
    ensures FindGuid(a, company, guid, i) < |a| ==> FindGuid(b, company, guid, i) == FindGuid(a, company, guid, i)
    ensures FindGuid(a, company, guid, i) == |a| ==> FindGuid(b, company, guid, i) == FindGuid(b, company, guid, |a|)
    decreases |a| - i
  {
    if i < |a| && !HasGuid(a[i], company, guid) {
      FindGuidFramed(company, a, b, guid, i + 1);
    }
  }

  /** A payload row about another ledger takes nothing away. */
  lemma {:induction false} StepSparesOthers(
      norm: Normalizer, company: nat, rows: seq<Ledger>, m: Master, other: Master)
    requires Apart(norm, m, other)
    ensures
      var after := SyncOne(norm, company, rows, m);
      && (AtTarget(norm, company, rows, other) ==> AtTarget(norm, company, after, other))
      && (FieldsMatch(norm, company, rows, other) ==> FieldsMatch(norm, company, after, other))
  {
    if Usable(norm, other) && Usable(norm, m) {
      var after := SyncOne(norm, company, rows, m);
      StepFrames(norm, company, rows, m);
      FindGuidFramed(company, rows, after, other.guid.value, 0);
    }
  }

  /** A payload row brings its own fields in line; if they were, a change can only be a name reached. */
  lemma {:induction false} StepServesItself(norm: Normalizer, company: nat, rows: seq<Ledger>, m: Master)
    ensures
      var after := SyncOne(norm, company, rows, m);
      && (Decide(norm, company, rows, m) != Stop ==> FieldsMatch(norm, company, after, m))
      && (AtTarget(norm, company, rows, m) ==> AtTarget(norm, company, after, m))
      && (after != rows && FieldsMatch(norm, company, rows, m) ==>
            !AtTarget(norm, company, rows, m) && AtTarget(norm, company, after, m))
      && (after != rows ==> FieldsMatch(norm, company, after, m))
  {
    if Usable(norm, m) {
      var after := SyncOne(norm, company, rows, m);
      StepFrames(norm, company, rows, m);
      FindGuidFramed(company, rows, after, m.guid.value, 0);
    }
  }

  /** How many of the first `n` payload rows are at their target. */
  function Targets(norm: Normalizer, company: nat, rows: seq<Ledger>, payload: seq<Master>, n: nat): (r: nat)
    requires n <= |payload|
    ensures r <= n
  {
    if n == 0 then 0
    else
      Targets(norm, company, rows, payload, n - 1) + if AtTarget(norm, company, rows, payload[n - 1]) then 1 else 0
  }

  /** What is reached for a payload row in `a` is reached in `b`. */
  predicate Holds(norm: Normalizer, company: nat, a: seq<Ledger>, b: seq<Ledger>, m: Master) {
    && (AtTarget(norm, company, a, m) ==> AtTarget(norm, company, b, m))
    && (FieldsMatch(norm, company, a, m) ==> FieldsMatch(norm, company, b, m))
  }

  /** Nothing reached for the payload in `a` is lost in `b`. */
  ghost predicate NoneLost(norm: Normalizer, company: nat, a: seq<Ledger>, b: seq<Ledger>, payload: seq<Master>) {
    forall i | 0 <= i < |payload| :: Holds(norm, company, a, b, payload[i])
  }

  lemma {:induction false} NoneLostTwice(
      norm: Normalizer, company: nat, a: seq<Ledger>, b: seq<Ledger>, c: seq<Ledger>, payload: seq<Master>)
    requires NoneLost(norm, company, a, b, payload) && NoneLost(norm, company, b, c, payload)
    ensures NoneLost(norm, company, a, c, payload)
  {
    forall i | 0 <= i < |payload| ensures Holds(norm, company, a, c, payload[i]) {
      assert Holds(norm, company, a, b, payload[i]) && Holds(norm, company, b, c, payload[i]);
    }
  }

  lemma {:induction false} TargetsGrow(
      norm: Normalizer, company: nat, a: seq<Ledger>, b: seq<Ledger>, payload: seq<Master>, n: nat)
    requires n <= |payload| && NoneLost(norm, company, a, b, payload)
    ensures Targets(norm, company, a, payload, n) <= Targets(norm, company, b, payload, n)
    ensures
      (exists i | 0 <= i < n :: !AtTarget(norm, company, a, payload[i]) && AtTarget(norm, company, b, payload[i])) ==>
      Targets(norm, company, a, payload, n) < Targets(norm, company, b, payload, n)
  {
    if n > 0 {
      assert Holds(norm, company, a, b, payload[n - 1]);
      TargetsGrow(norm, company, a, b, payload, n - 1);
    }
  }

  lemma {:induction false} NeverStops(norm: Normalizer, company: nat, rows: seq<Ledger>, m: Master)
    requires forall i | 0 <= i < |rows| && rows[i].company != company && Usable(norm, m) :: rows[i].guid != m.guid
    ensures Decide(norm, company, rows, m) != Stop
  {
  }

  lemma {:induction false} NoneForeignFramed(
      norm: Normalizer, company: nat, a: seq<Ledger>, b: seq<Ledger>, payload: seq<Master>)
    requires NoneForeign(norm, company, a, payload) && Framed(company, a, b)
    ensures NoneForeign(norm, company, b, payload)
  {
  }

  /** The fields of the rows of the first `n` payload rows are in line. */
  ghost predicate InLine(norm: Normalizer, company: nat, rows: seq<Ledger>, payload: seq<Master>, n: nat)
    requires n <= |payload|
  {
    forall i | 0 <= i < n :: FieldsMatch(norm, company, rows, payload[i])
  }

  lemma {:induction false} InLineStays(
      norm: Normalizer, company: nat, a: seq<Ledger>, b: seq<Ledger>, payload: seq<Master>)
    requires InLine(norm, company, a, payload, |payload|) && NoneLost(norm, company, a, b, payload)
    ensures InLine(norm, company, b, payload, |payload|)
  {
    forall i | 0 <= i < |payload| ensures FieldsMatch(norm, company, b, payload[i]) {
      assert Holds(norm, company, a, b, payload[i]);
    }
  }

  /** A change to the table, seen from the payload row that made it. */
  predicate Advance(norm: Normalizer, company: nat, a: seq<Ledger>, b: seq<Ledger>, m: Master) {
    || !FieldsMatch(norm, company, a, m)
    || (!AtTarget(norm, company, a, m) && AtTarget(norm, company, b, m))
  }

  /** What payload row `n` makes of table `a`, seen from all of the payload. */
  ghost predicate Move(
      norm: Normalizer, company: nat, a: seq<Ledger>, b: seq<Ledger>, payload: seq<Master>, n: nat)
    requires n < |payload|
  {
    && NoneLost(norm, company, a, b, payload) && FieldsMatch(norm, company, b, payload[n])
    && (b != a ==> Advance(norm, company, a, b, payload[n]))
  }

  lemma {:induction false} StepIsMove(
      norm: Normalizer, company: nat, rows: seq<Ledger>, payload: seq<Master>, n: nat)
    requires n < |payload| && DistinctGuids(norm, payload) && NoneForeign(norm, company, rows, payload)
    ensures Decide(norm, company, rows, payload[n]) != Stop
    ensures NoneForeign(norm, company, SyncOne(norm, company, rows, payload[n]), payload)
    ensures Move(norm, company, rows, SyncOne(norm, company, rows, payload[n]), payload, n)
  {
    var m := payload[n];
    var after := SyncOne(norm, company, rows, m);
    NeverStops(norm, company, rows, m);
    StepFrames(norm, company, rows, m);
    NoneForeignFramed(norm, company, rows, after, payload);
    StepServesItself(norm, company, rows, m);
    forall i | 0 <= i < |payload| ensures Holds(norm, company, rows, after, payload[i]) {
      if i != n {
        assert Apart(norm, m, payload[i]);
        StepSparesOthers(norm, company, rows, m, payload[i]);
      }
    }
  }

  // The tables of a pass, one after each payload row

  type Tables = seq<seq<Ledger>>

  predicate Leads(norm: Normalizer, company: nat, a: seq<Ledger>, b: seq<Ledger>, m: Master) {
    Decide(norm, company, a, m) != Stop && b == SyncOne(norm, company, a, m)
  }

  ghost predicate Steps(norm: Normalizer, company: nat, t: Tables, payload: seq<Master>, n: nat)
    requires n <= |payload|
  {
    |t| == n + 1 && forall i | 0 <= i < n :: Leads(norm, company, t[i], t[i + 1], payload[i])
  }

  ghost predicate Moves(norm: Normalizer, company: nat, t: Tables, payload: seq<Master>, n: nat)
    requires n <= |payload|
  {
    |t| == n + 1 && forall i | 0 <= i < n :: Move(norm, company, t[i], t[i + 1], payload, i)
  }

  /** The pass has come to this table and goes on. */
  predicate Reached(p: Pass, rows: seq<Ledger>) {
    p.rows == rows && !p.stopped
  }

  lemma {:induction false} ReachedNext(
      norm: Normalizer, company: nat, p: Pass, a: seq<Ledger>, b: seq<Ledger>, m: Master)
    requires Reached(p, a) && Leads(norm, company, a, b, m)
    ensures Reached(NextPass(norm, company, p, m), b)
  {
  }

  lemma {:induction false} StepsArePass(
      norm: Normalizer, company: nat, t: Tables, payload: seq<Master>, n: nat, k: nat)
    requires k <= n <= |payload| && Steps(norm, company, t, payload, n)
    ensures Reached(SyncTo(norm, company, t[0], payload, k), t[k])
    decreases k
  {
    if k > 0 {
      var p, m := SyncTo(norm, company, t[0], payload, k - 1), payload[k - 1];
      StepsArePass(norm, company, t, payload, n, k - 1);
      assert Leads(norm, company, t[k - 1], t[k], m);
      ReachedNext(norm, company, p, t[k - 1], t[k], m);
    }
  }

  lemma {:induction false} OneMoreStep(
      norm: Normalizer, company: nat, t: Tables, next: seq<Ledger>, payload: seq<Master>, n: nat)
    requires n < |payload| && Steps(norm, company, t, payload, n) && Leads(norm, company, t[n], next, payload[n])
    ensures Steps(norm, company, t + [next], payload, n + 1)
  {
    forall i | 0 <= i < n + 1 ensures Leads(norm, company, (t + [next])[i], (t + [next])[i + 1], payload[i]) {
      assert i < n ==> Leads(norm, company, t[i], t[i + 1], payload[i]);
    }
  }

  lemma {:induction false} OneMoreMove(
      norm: Normalizer, company: nat, t: Tables, next: seq<Ledger>, payload: seq<Master>, n: nat)
    requires n < |payload| && Moves(norm, company, t, payload, n) && Move(norm, company, t[n], next, payload, n)
    ensures Moves(norm, company, t + [next], payload, n + 1)
  {
    forall i | 0 <= i < n + 1 ensures Move(norm, company, (t + [next])[i], (t + [next])[i + 1], payload, i) {
      assert i < n ==> Move(norm, company, t[i], t[i + 1], payload, i);
    }
  }

  lemma {:induction false} TablesTo(
      norm: Normalizer, company: nat, rows: seq<Ledger>, payload: seq<Master>, n: nat) returns (t: Tables)
    requires n <= |payload| && DistinctGuids(norm, payload) && NoneForeign(norm, company, rows, payload)
    ensures Steps(norm, company, t, payload, n) && Moves(norm, company, t, payload, n)
    ensures t[0] == rows && NoneForeign(norm, company, t[n], payload)
  {
    if n == 0 {
      t := [rows];
    } else {
      var t' := TablesTo(norm, company, rows, payload, n - 1);
      StepIsMove(norm, company, t'[n - 1], payload, n - 1);
      var next := SyncOne(norm, company, t'[n - 1], payload[n - 1]);
      OneMoreStep(norm, company, t', next, payload, n - 1);
      OneMoreMove(norm, company, t', next, payload, n - 1);
      t := t' + [next];
    }
  }

  /** A pass over distinct GUIDs, none of them foreign, does not stop and goes from table to table. */
  lemma {:induction false} TablesOfPass(
      norm: Normalizer, company: nat, rows: seq<Ledger>, payload: seq<Master>) returns (t: Tables)
    requires DistinctGuids(norm, payload) && NoneForeign(norm, company, rows, payload)
    ensures Steps(norm, company, t, payload, |payload|) && Moves(norm, company, t, payload, |payload|)
    ensures t[0] == rows && t[|payload|] == Sync(norm, company, rows, payload).rows
    ensures !Sync(norm, company, rows, payload).stopped && NoneForeign(norm, company, t[|payload|], payload)
  {
    t := TablesTo(norm, company, rows, payload, |payload|);
    StepsArePass(norm, company, t, payload, |payload|, |payload|);
  }

  lemma {:induction false} MovesLoseNothing(
      norm: Normalizer, company: nat, t: Tables, payload: seq<Master>, n: nat, i: nat, j: nat)
    requires i <= j <= n <= |payload| && Moves(norm, company, t, payload, n)
    ensures NoneLost(norm, company, t[i], t[j], payload)
    decreases j
  {
    if i < j {
      MovesLoseNothing(norm, company, t, payload, n, i, j - 1);
      assert Move(norm, company, t[j - 1], t[j], payload, j - 1);
      NoneLostTwice(norm, company, t[i], t[j - 1], t[j], payload);
    }
  }

  /** After a pass the fields of all its rows are in line. */
  lemma {:induction false} MovesServe(norm: Normalizer, company: nat, t: Tables, payload: seq<Master>)
    requires Moves(norm, company, t, payload, |payload|)
    ensures InLine(norm, company, t[|payload|], payload, |payload|)
  {
    forall i | 0 <= i < |payload| ensures FieldsMatch(norm, company, t[|payload|], payload[i]) {
      assert Move(norm, company, t[i], t[i + 1], payload, i);
      MovesLoseNothing(norm, company, t, payload, |payload|, i + 1, |payload|);
      assert Holds(norm, company, t[i + 1], t[|payload|], payload[i]);
    }
  }

  lemma {:induction false} FirstChange(t: Tables, n: nat) returns (k: nat)
    requires n < |t| && t[n] != t[0]
    ensures k < n && t[k + 1] != t[k]
  {
    k := n - 1;
    if t[n] == t[n - 1] {
      k := FirstChange(t, n - 1);
    }
  }

  /** With all fields in line, a pass that changes the table brings more GUIDs to their targets. */
  lemma {:induction false} MovesAdvance(norm: Normalizer, company: nat, t: Tables, payload: seq<Master>, n: nat)
    requires n <= |payload| && Moves(norm, company, t, payload, n) && t[n] != t[0]
    requires InLine(norm, company, t[0], payload, |payload|)
    ensures Targets(norm, company, t[0], payload, |payload|) < Targets(norm, company, t[n], payload, |payload|)
  {
    var k := FirstChange(t, n);
    MovesLoseNothing(norm, company, t, payload, n, 0, k);
    MovesLoseNothing(norm, company, t, payload, n, k + 1, n);
    InLineStays(norm, company, t[0], t[k], payload);
    assert Move(norm, company, t[k], t[k + 1], payload, k);
    TargetsGrow(norm, company, t[0], t[k], payload, |payload|);
    TargetsGrow(norm, company, t[k], t[k + 1], payload, |payload|);
    TargetsGrow(norm, company, t[k + 1], t[n], payload, |payload|);
  }

  /** A pass that ends with the table it began with changed nothing on the way. */
  lemma {:induction false} StillMoves(
      norm: Normalizer, company: nat, t: Tables, payload: seq<Master>, n: nat, k: nat)
    requires k < n <= |payload| && Moves(norm, company, t, payload, n) && t[n] == t[0]
    ensures t[k + 1] == t[k]
  {
    MovesLoseNothing(norm, company, t, payload, n, 0, k);
    MovesLoseNothing(norm, company, t, payload, n, k + 1, n);
    assert Move(norm, company, t[k], t[k + 1], payload, k);
    assert Holds(norm, company, t[k + 1], t[n], payload[k]) && Holds(norm, company, t[0], t[k], payload[k]);
  }

  lemma {:induction false} StillTables(
      norm: Normalizer, company: nat, t: Tables, payload: seq<Master>, n: nat, k: nat)
    requires k <= n <= |payload| && Moves(norm, company, t, payload, n) && t[n] == t[0]
    ensures t[k] == t[0]
    decreases k
  {
    if k > 0 {
      StillTables(norm, company, t, payload, n, k - 1);
      StillMoves(norm, company, t, payload, n, k - 1);
    }
  }

  /** What a whole pass does: no stop, nothing reached is lost, the fields in line, and progress. */
  lemma {:induction false} WholePass(norm: Normalizer, company: nat, rows: seq<Ledger>, payload: seq<Master>)
    requires DistinctGuids(norm, payload) && NoneForeign(norm, company, rows, payload)
    ensures
      var p := Sync(norm, company, rows, payload);
      && !p.stopped && NoneForeign(norm, company, p.rows, payload)
      && NoneLost(norm, company, rows, p.rows, payload)
      && InLine(norm, company, p.rows, payload, |payload|)
      && (InLine(norm, company, rows, payload, |payload|) && p.rows != rows ==>
            Targets(norm, company, rows, payload, |payload|) < Targets(norm, company, p.rows, payload, |payload|))
  {
    var t := TablesOfPass(norm, company, rows, payload);
    MovesLoseNothing(norm, company, t, payload, |payload|, 0, |payload|);
    MovesServe(norm, company, t, payload);
    if InLine(norm, company, rows, payload, |payload|) && t[|payload|] != rows {
      MovesAdvance(norm, company, t, payload, |payload|);
    }
  }

  /** The table after `k` passes over the same payload. */
  function Iterate(norm: Normalizer, company: nat, rows: seq<Ledger>, payload: seq<Master>, k: nat): seq<Ledger>
    decreases k
  {
    if k == 0 then rows else Iterate(norm, company, Sync(norm, company, rows, payload).rows, payload, k - 1)
  }

  lemma {:induction false} FixpointStays(
      norm: Normalizer, company: nat, rows: seq<Ledger>, payload: seq<Master>, k: nat)
    requires Sync(norm, company, rows, payload).rows == rows
    ensures Iterate(norm, company, rows, payload, k) == rows
  {
    if k > 0 {
      FixpointStays(norm, company, rows, payload, k - 1);
    }
  }

  /** Once the fields are in line, every pass changes nothing or brings one more GUID to its target. */
  lemma {:induction false} PassesConverge(
      norm: Normalizer, company: nat, rows: seq<Ledger>, payload: seq<Master>, k: nat)
    requires DistinctGuids(norm, payload) && NoneForeign(norm, company, rows, payload)
    requires InLine(norm, company, rows, payload, |payload|)
    requires |payload| <= k + Targets(norm, company, rows, payload, |payload|)
    ensures
      var last := Iterate(norm, company, rows, payload, k);
      Sync(norm, company, last, payload).rows == last
    decreases k
  {
    var next := Sync(norm, company, rows, payload).rows;
    WholePass(norm, company, rows, payload);
    if next == rows {
      FixpointStays(norm, company, rows, payload, k);
    } else {
      PassesConverge(norm, company, next, payload, k - 1);
    }
  }

  /**
   Re-running one payload with distinct GUIDs, none of them held by another company, converges:
   at most |payload| + 1 passes change anything.
   */
  lemma {:induction false} SyncConverges(norm: Normalizer, company: nat, rows: seq<Ledger>, payload: seq<Master>)
    requires DistinctGuids(norm, payload) && NoneForeign(norm, company, rows, payload)
    ensures
      var last := Iterate(norm, company, rows, payload, |payload| + 1);
      Sync(norm, company, last, payload).rows == last
  {
    WholePass(norm, company, rows, payload);
    PassesConverge(norm, company, Sync(norm, company, rows, payload).rows, payload, |payload|);
  }

  /** Nothing is left to do for a payload row: its row is as wanted, or the name it wants is taken. */
  ghost predicate Resolved(norm: Normalizer, company: nat, rows: seq<Ledger>, m: Master) {
    Usable(norm, m) ==>
      var k := Place(company, rows, m);
      && FieldsMatch(norm, company, rows, m)
      && (AtTarget(norm, company, rows, m) || NameHeld(rows, company, norm(m.name.value), k))
  }

  lemma {:induction false} ResolvedIsStill(norm: Normalizer, company: nat, rows: seq<Ledger>, m: Master)
    requires Decide(norm, company, rows, m) != Stop
    ensures SyncOne(norm, company, rows, m) == rows <==> Resolved(norm, company, rows, m)
  {
    if Usable(norm, m) {
      var name, k := norm(m.name.value), Place(company, rows, m);
      assert NameHeld(rows, company, name, k) <==> FindName(rows, company, name, k, 0) < |rows|;
    }
  }

  lemma {:induction false} ResolvedPass(
      norm: Normalizer, company: nat, rows: seq<Ledger>, payload: seq<Master>, n: nat)
    requires n <= |payload| && NoneForeign(norm, company, rows, payload)
    requires forall i | 0 <= i < |payload| :: Resolved(norm, company, rows, payload[i])
    ensures var p := SyncTo(norm, company, rows, payload, n); p.rows == rows && !p.stopped
  {
    if n > 0 {
      ResolvedPass(norm, company, rows, payload, n - 1);
      NeverStops(norm, company, rows, payload[n - 1]);
      ResolvedIsStill(norm, company, rows, payload[n - 1]);
    }
  }

  /**
   The fixed points, exactly: every payload row has its row in line and at its target, or the name
   it wants is held by another row.
   */
  lemma {:induction false} FixpointsAreResolved(
      norm: Normalizer, company: nat, rows: seq<Ledger>, payload: seq<Master>)
    requires DistinctGuids(norm, payload) && NoneForeign(norm, company, rows, payload)
    ensures
      Sync(norm, company, rows, payload).rows == rows <==>
      forall i | 0 <= i < |payload| :: Resolved(norm, company, rows, payload[i])
  {
    if Sync(norm, company, rows, payload).rows == rows {
      var t := TablesOfPass(norm, company, rows, payload);
      forall i | 0 <= i < |payload| ensures Resolved(norm, company, rows, payload[i]) {
        StillTables(norm, company, t, payload, |payload|, i);
        StillTables(norm, company, t, payload, |payload|, i + 1);
        assert Leads(norm, company, t[i], t[i + 1], payload[i]);
        NeverStops(norm, company, rows, payload[i]);
        ResolvedIsStill(norm, company, rows, payload[i]);
      }
    }
    if forall i | 0 <= i < |payload| :: Resolved(norm, company, rows, payload[i]) {
      ResolvedPass(norm, company, rows, payload, |payload|);
    }
  }

  /**
   One pass is not idempotent: with g1 named a and g2 named b, the payload g1 -> b, g2 -> c skips
   the first rename, because b is still taken, and the second pass applies it.
   */
  lemma {:induction false} OnePassIsNotEnough(norm: Normalizer, company: nat, a: string, b: string, c: string)
    requires norm(a) != "" && norm(b) != "" && norm(c) != ""
    requires norm(a) != norm(b) && norm(b) != norm(c) && norm(a) != norm(c)
    ensures
      var g1, g2 := Some("1"), Some("2");
      var row1 := Ledger(company, g1, a, norm(a), None, None, true, 0, Dr);
      var row2 := Ledger(company, g2, b, norm(b), None, None, true, 0, Dr);
      var payload := [Master(Some(b), g1, None, None), Master(Some(c), g2, None, None)];
      var once := Sync(norm, company, [row1, row2], payload).rows;
      var twice := Sync(norm, company, once, payload).rows;
      && once == [row1, row2.(name := c, norm := norm(c))]
      && twice == [row1.(name := b, norm := norm(b)), row2.(name := c, norm := norm(c))]
  {
    var g1, g2 := Some("1"), Some("2");
    var row1 := Ledger(company, g1, a, norm(a), None, None, true, 0, Dr);
    var row2 := Ledger(company, g2, b, norm(b), None, None, true, 0, Dr);
    var m1, m2 := Master(Some(b), g1, None, None), Master(Some(c), g2, None, None);
    var row1' := row1.(name := b, norm := norm(b));
    var row2' := row2.(name := c, norm := norm(c));
    assert "1"[0] != "2"[0];
    Rename(norm, company, [row1, row2], 0, m1);
    Rename(norm, company, [row1, row2], 1, m2);
    Rename(norm, company, [row1, row2'], 0, m1);
    Rename(norm, company, [row1', row2'], 1, m2);
    assert [row1, row2][1 := row2'] == [row1, row2'] && [row1, row2'][0 := row1'] == [row1', row2'];
    TwoSteps(norm, company, [row1, row2], m1, m2);
    TwoSteps(norm, company, [row1, row2'], m1, m2);
  }

  /** What a payload row does to a table in which its row, at `k`, has everything but the name. */
  lemma {:induction false} Rename(norm: Normalizer, company: nat, rows: seq<Ledger>, k: nat, m: Master)
    requires k < |rows| && Usable(norm, m) && HasGuid(rows[k], company, m.guid.value)
    requires forall i | 0 <= i < k :: rows[i].guid != m.guid
    requires rows[k].group == m.group && rows[k].gstin == m.gstin && rows[k].active
    ensures Decide(norm, company, rows, m) == Same || Decide(norm, company, rows, m) == Changed
    ensures
      SyncOne(norm, company, rows, m) ==
      if norm(m.name.value) == rows[k].norm || NameHeld(rows, company, norm(m.name.value), k) then rows
      else rows[k := rows[k].(name := m.name.value, norm := norm(m.name.value))]
  {
    var name := norm(m.name.value);
    assert Place(company, rows, m) == k;
    assert NameHeld(rows, company, name, k) <==> FindName(rows, company, name, k, 0) < |rows|;
  }

  lemma {:induction false} TwoSteps(norm: Normalizer, company: nat, rows: seq<Ledger>, a: Master, b: Master)
    requires Decide(norm, company, rows, a) != Stop
    requires Decide(norm, company, SyncOne(norm, company, rows, a), b) != Stop
    ensures Sync(norm, company, rows, [a, b]).rows == SyncOne(norm, company, SyncOne(norm, company, rows, a), b)
  {
    var t1 := SyncOne(norm, company, rows, a);
    var t := [rows, t1, SyncOne(norm, company, t1, b)];
    assert Leads(norm, company, t[0], t[1], a) && Leads(norm, company, t[1], t[2], b);
    StepsArePass(norm, company, t, [a, b], 2, 2);
  }
}
