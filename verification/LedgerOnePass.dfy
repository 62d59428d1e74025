/**
 When one pass of the ledger sync is enough, said of the table and the payload before the pass.
 */
module LedgerOnePass {
  import opened LedgerSync

  /** Row `j` has the name that this payload row wants, and is not its own row. */
  predicate Blocks(norm: Normalizer, company: nat, rows: seq<Ledger>, m: Master, j: nat) {
    && j < |rows| && Usable(norm, m)
    && HasName(rows[j], company, norm(m.name.value)) && j != Place(company, rows, m)
  }

  /** Row `j` is the own row of one of the payload rows from `from` up to `to`. */
  ghost predicate Served(
      norm: Normalizer, company: nat, rows: seq<Ledger>, payload: seq<Master>, j: nat, from: nat, to: nat)
    requires to <= |payload|
  {
    exists e | from <= e < to :: Usable(norm, payload[e]) && Place(company, rows, payload[e]) == j
  }

  /** From payload row `k` on, a name that is taken is taken by the own row of an earlier payload row. */
  ghost predicate FreeInTime(norm: Normalizer, company: nat, rows: seq<Ledger>, payload: seq<Master>, k: nat) {
    forall i, j | k <= i < |payload| && 0 <= j < |rows| && Blocks(norm, company, rows, payload[i], j) ::
      Served(norm, company, rows, payload, j, k, i)
  }

  predicate WantsDiffer(norm: Normalizer, a: Master, b: Master) {
    Usable(norm, a) && Usable(norm, b) ==> norm(a.name.value) != norm(b.name.value)
  }

  ghost predicate DistinctWants(norm: Normalizer, payload: seq<Master>) {
    forall i, j | 0 <= i < j < |payload| :: WantsDiffer(norm, payload[i], payload[j])
  }

  ghost predicate AllReached(norm: Normalizer, company: nat, rows: seq<Ledger>, payload: seq<Master>) {
    forall i | 0 <= i < |payload| :: Usable(norm, payload[i]) ==> AtTarget(norm, company, rows, payload[i])
  }

  // ------------------------------------------------------------------
  // One payload row
  // ------------------------------------------------------------------

  /** A payload row that nobody blocks reaches its target. */
  lemma {:induction false} UnblockedReaches(norm: Normalizer, company: nat, rows: seq<Ledger>, m: Master)
    requires Usable(norm, m) && Decide(norm, company, rows, m) != Stop
    requires forall j | 0 <= j < |rows| :: !Blocks(norm, company, rows, m, j)
    ensures AtTarget(norm, company, SyncOne(norm, company, rows, m), m)
  {
    var name, k, after := norm(m.name.value), Place(company, rows, m), SyncOne(norm, company, rows, m);
    StepFrames(norm, company, rows, m);
    FindGuidFramed(company, rows, after, m.guid.value, 0);
    var f := FindName(rows, company, name, k, 0);
    assert f < |rows| ==> Blocks(norm, company, rows, m, f);
  }

  /** A payload row that somebody blocks does not reach its target. */
  lemma {:induction false} BlockedFails(norm: Normalizer, company: nat, rows: seq<Ledger>, m: Master, j: nat)
    requires NormsUnique(rows) && Blocks(norm, company, rows, m, j)
    ensures !AtTarget(norm, company, SyncOne(norm, company, rows, m), m)
  {
    var name, k, after := norm(m.name.value), Place(company, rows, m), SyncOne(norm, company, rows, m);
    assert k < |rows| ==> rows[k].norm != name;
    StepFrames(norm, company, rows, m);
    FindGuidFramed(company, rows, after, m.guid.value, 0);
  }

  /** A payload row gives no other GUID its target name. */
  lemma {:induction false} StepGrantsNothing(
      norm: Normalizer, company: nat, rows: seq<Ledger>, m: Master, other: Master)
    requires Apart(norm, m, other) && AtTarget(norm, company, SyncOne(norm, company, rows, m), other)
    ensures AtTarget(norm, company, rows, other)
  {
    if Usable(norm, m) {
      var after := SyncOne(norm, company, rows, m);
      StepFrames(norm, company, rows, m);
      FindGuidFramed(company, rows, after, other.guid.value, 0);
    }
  }

  /** Where another GUID has its row, after a payload row: in the same place, or still nowhere. */
  lemma {:induction false} OtherPlace(norm: Normalizer, company: nat, rows: seq<Ledger>, m: Master, other: Master)
    requires Apart(norm, m, other) && Usable(norm, other)
    ensures
      var after := SyncOne(norm, company, rows, m);
      Place(company, after, other) ==
      if Place(company, rows, other) < |rows| then Place(company, rows, other) else |after|
  {
    if Usable(norm, m) {
      StepFrames(norm, company, rows, m);
      FindGuidFramed(company, rows, SyncOne(norm, company, rows, m), other.guid.value, 0);
    }
  }

  /** Who blocks another payload row after a step blocked it before. */
  lemma {:induction false} NoNewBlocks(
      norm: Normalizer, company: nat, rows: seq<Ledger>, m: Master, other: Master, j: nat)
    requires Apart(norm, m, other) && WantsDiffer(norm, m, other)
    requires Blocks(norm, company, SyncOne(norm, company, rows, m), other, j)
    ensures Blocks(norm, company, rows, other, j)
  {
    OtherPlace(norm, company, rows, m, other);
  }

  // ------------------------------------------------------------------
  // The condition suffices
  // ------------------------------------------------------------------

  lemma {:induction false} StepKeepsFree(
      norm: Normalizer, company: nat, rows: seq<Ledger>, payload: seq<Master>, k: nat)
    requires k < |payload| && DistinctGuids(norm, payload) && DistinctWants(norm, payload)
    requires FreeInTime(norm, company, rows, payload, k) && Decide(norm, company, rows, payload[k]) != Stop
    ensures FreeInTime(norm, company, SyncOne(norm, company, rows, payload[k]), payload, k + 1)
    ensures Usable(norm, payload[k]) ==>
            AtTarget(norm, company, SyncOne(norm, company, rows, payload[k]), payload[k])
  {
    var m, after := payload[k], SyncOne(norm, company, rows, payload[k]);
    forall j | 0 <= j < |rows| ensures !Blocks(norm, company, rows, m, j) {
      assert !Served(norm, company, rows, payload, j, k, k);
    }
    if Usable(norm, m) {
      UnblockedReaches(norm, company, rows, m);
    }
    forall i, j | k + 1 <= i < |payload| && 0 <= j < |after| && Blocks(norm, company, after, payload[i], j)
      ensures Served(norm, company, after, payload, j, k + 1, i)
    {
      assert Apart(norm, m, payload[i]) && WantsDiffer(norm, m, payload[i]);
      NoNewBlocks(norm, company, rows, m, payload[i], j);
      var e :| k <= e < i && Usable(norm, payload[e]) && Place(company, rows, payload[e]) == j;
      if e == k {
        StillOwn(norm, company, rows, m);
      } else {
        assert Apart(norm, m, payload[e]);
        OtherPlace(norm, company, rows, m, payload[e]);
      }
    }
  }

  lemma {:induction false} StillOwn(norm: Normalizer, company: nat, rows: seq<Ledger>, m: Master)
    requires Usable(norm, m) && Place(company, rows, m) < |rows|
    ensures Place(company, SyncOne(norm, company, rows, m), m) == Place(company, rows, m)
  {
    StepFrames(norm, company, rows, m);
    FindGuidFramed(company, rows, SyncOne(norm, company, rows, m), m.guid.value, 0);
  }

  lemma {:induction false} FreeRun(
      norm: Normalizer, company: nat, t: Tables, payload: seq<Master>, k: nat)
    requires k <= |payload| && DistinctGuids(norm, payload) && DistinctWants(norm, payload)
    requires Steps(norm, company, t, payload, |payload|) && FreeInTime(norm, company, t[0], payload, 0)
    ensures FreeInTime(norm, company, t[k], payload, k)
    decreases k
  {
    if k > 0 {
      FreeRun(norm, company, t, payload, k - 1);
      assert Leads(norm, company, t[k - 1], t[k], payload[k - 1]);
      StepKeepsFree(norm, company, t[k - 1], payload, k - 1);
    }
  }

  lemma {:induction false} FreeReaches(norm: Normalizer, company: nat, t: Tables, payload: seq<Master>)
    requires DistinctGuids(norm, payload) && DistinctWants(norm, payload)
    requires Steps(norm, company, t, payload, |payload|) && Moves(norm, company, t, payload, |payload|)
    requires FreeInTime(norm, company, t[0], payload, 0)
    ensures AllReached(norm, company, t[|payload|], payload)
  {
    forall i | 0 <= i < |payload| && Usable(norm, payload[i])
      ensures AtTarget(norm, company, t[|payload|], payload[i])
    {
      FreeRun(norm, company, t, payload, i);
      assert Leads(norm, company, t[i], t[i + 1], payload[i]);
      StepKeepsFree(norm, company, t[i], payload, i);
      MovesLoseNothing(norm, company, t, payload, |payload|, i + 1, |payload|);
      assert Holds(norm, company, t[i + 1], t[|payload|], payload[i]);
    }
  }

  // ------------------------------------------------------------------
  // The condition is needed
  // ------------------------------------------------------------------

  lemma {:induction false} TablesGrow(norm: Normalizer, company: nat, t: Tables, payload: seq<Master>, n: nat, k: nat)
    requires k <= n <= |payload| && Steps(norm, company, t, payload, n)
    ensures Framed(company, t[0], t[k])
    decreases k
  {
    if k > 0 {
      TablesGrow(norm, company, t, payload, n, k - 1);
      assert Leads(norm, company, t[k - 1], t[k], payload[k - 1]);
      StepFrames(norm, company, t[k - 1], payload[k - 1]);
      FramedTwice(company, t[0], t[k - 1], t[k]);
    }
  }

  /** A GUID's row is where it was, or behind all that was there. */
  lemma {:induction false} PlaceInTables(company: nat, a: seq<Ledger>, b: seq<Ledger>, m: Master)
    requires m.guid.Some? && Framed(company, a, b)
    ensures Place(company, a, m) < |a| ==> Place(company, b, m) == Place(company, a, m)
    ensures Place(company, a, m) == |a| ==> Place(company, b, m) >= |a|
  {
    FindGuidFramed(company, a, b, m.guid.value, 0);
  }

  lemma {:induction false} StepLeavesOthers(norm: Normalizer, company: nat, rows: seq<Ledger>, m: Master, j: nat)
    requires j < |rows| && (Usable(norm, m) ==> Place(company, rows, m) != j)
    ensures j < |SyncOne(norm, company, rows, m)| && SyncOne(norm, company, rows, m)[j] == rows[j]
  {
  }

  /** A row that is nobody's own stays as it is. */
  lemma {:induction false} Untouched(
      norm: Normalizer, company: nat, t: Tables, payload: seq<Master>, n: nat, j: nat, k: nat)
    requires k <= n <= |payload| && Steps(norm, company, t, payload, n) && j < |t[0]|
    requires !Served(norm, company, t[0], payload, j, 0, k)
    ensures j < |t[k]| && t[k][j] == t[0][j]
    decreases k
  {
    if k > 0 {
      var m := payload[k - 1];
      assert !(Usable(norm, m) && Place(company, t[0], m) == j);
      assert !Served(norm, company, t[0], payload, j, 0, k - 1);
      Untouched(norm, company, t, payload, n, j, k - 1);
      TablesGrow(norm, company, t, payload, n, k - 1);
      if Usable(norm, m) {
        PlaceInTables(company, t[0], t[k - 1], m);
      }
      assert Leads(norm, company, t[k - 1], t[k], m);
      StepLeavesOthers(norm, company, t[k - 1], m, j);
    }
  }

  /** Who has not reached its target by its own step never does. */
  lemma {:induction false} NotLater(
      norm: Normalizer, company: nat, t: Tables, payload: seq<Master>, n: nat, i: nat, k: nat)
    requires i < k <= n <= |payload| && Steps(norm, company, t, payload, n) && DistinctGuids(norm, payload)
    requires !AtTarget(norm, company, t[i + 1], payload[i])
    ensures !AtTarget(norm, company, t[k], payload[i])
    decreases k
  {
    if i + 1 < k {
      NotLater(norm, company, t, payload, n, i, k - 1);
      assert Leads(norm, company, t[k - 1], t[k], payload[k - 1]);
      assert Apart(norm, payload[i], payload[k - 1]);
      if AtTarget(norm, company, t[k], payload[i]) {
        StepGrantsNothing(norm, company, t[k - 1], payload[k - 1], payload[i]);
      }
    }
  }

  lemma {:induction false} BlockedForGood(
      norm: Normalizer, company: nat, t: Tables, payload: seq<Master>, i: nat, j: nat)
    requires i < |payload| && Steps(norm, company, t, payload, |payload|) && DistinctGuids(norm, payload)
    requires Blocks(norm, company, t[0], payload[i], j) && !Served(norm, company, t[0], payload, j, 0, i)
    requires NormsUnique(t[i])
    ensures !AtTarget(norm, company, t[|payload|], payload[i])
  {
    Untouched(norm, company, t, payload, |payload|, j, i);
    TablesGrow(norm, company, t, payload, |payload|, i);
    PlaceInTables(company, t[0], t[i], payload[i]);
    assert Leads(norm, company, t[i], t[i + 1], payload[i]);
    BlockedFails(norm, company, t[i], payload[i], j);
    NotLater(norm, company, t, payload, |payload|, i, |payload|);
  }

  lemma {:induction false} ReachedWantsDiffer(
      norm: Normalizer, company: nat, rows: seq<Ledger>, payload: seq<Master>)
    requires NormsUnique(rows) && DistinctGuids(norm, payload) && AllReached(norm, company, rows, payload)
    ensures DistinctWants(norm, payload)
  {
    forall i, j | 0 <= i < j < |payload| ensures WantsDiffer(norm, payload[i], payload[j]) {
      if Usable(norm, payload[i]) && Usable(norm, payload[j]) {
        assert Apart(norm, payload[i], payload[j]);
        var p, q := Place(company, rows, payload[i]), Place(company, rows, payload[j]);
        assert p != q;
      }
    }
  }

  // ------------------------------------------------------------------
  // The theorem
  // ------------------------------------------------------------------

  /**
   One pass brings every usable payload row to its target name if and only if the wanted names
   differ, and every name that is taken by another row is taken by the row of an earlier payload row.
   */
  lemma {:induction false} OnePassReachesAllIff(
      norm: Normalizer, company: nat, rows: seq<Ledger>, payload: seq<Master>)
    requires Sound(norm, rows) && DistinctGuids(norm, payload) && NoneForeign(norm, company, rows, payload)
    ensures AllReached(norm, company, Sync(norm, company, rows, payload).rows, payload) <==>
            DistinctWants(norm, payload) && FreeInTime(norm, company, rows, payload, 0)
  {
    var t := TablesOfPass(norm, company, rows, payload);
    if DistinctWants(norm, payload) && FreeInTime(norm, company, rows, payload, 0) {
      FreeReaches(norm, company, t, payload);
    }
    if AllReached(norm, company, t[|payload|], payload) {
      TablesAreSound(norm, company, t, payload, |payload|);
      ReachedWantsDiffer(norm, company, t[|payload|], payload);
      forall i, j | 0 <= i < |payload| && 0 <= j < |rows| && Blocks(norm, company, rows, payload[i], j)
        ensures Served(norm, company, rows, payload, j, 0, i)
      {
        TablesAreSound(norm, company, t, payload, i);
        if !Served(norm, company, rows, payload, j, 0, i) {
          BlockedForGood(norm, company, t, payload, i, j);
        }
      }
    }
  }

  lemma {:induction false} TablesAreSound(
      norm: Normalizer, company: nat, t: Tables, payload: seq<Master>, k: nat)
    requires k <= |payload| && Steps(norm, company, t, payload, |payload|) && Sound(norm, t[0])
    ensures Sound(norm, t[k])
  {
    StepsArePass(norm, company, t, payload, |payload|, k);
    PassKeepsTheTable(norm, company, t[0], payload, k);
  }

  /** And then the pass has reached a fixed point. */
  lemma {:induction false} OnePassSuffices(
      norm: Normalizer, company: nat, rows: seq<Ledger>, payload: seq<Master>)
    requires Sound(norm, rows) && DistinctGuids(norm, payload) && NoneForeign(norm, company, rows, payload)
    requires DistinctWants(norm, payload) && FreeInTime(norm, company, rows, payload, 0)
    ensures
      var once := Sync(norm, company, rows, payload).rows;
      Sync(norm, company, once, payload).rows == once
  {
    var once := Sync(norm, company, rows, payload).rows;
    OnePassReachesAllIff(norm, company, rows, payload);
    WholePass(norm, company, rows, payload);
    forall i | 0 <= i < |payload| ensures Resolved(norm, company, once, payload[i]) {
      assert FieldsMatch(norm, company, once, payload[i]);
    }
    FixpointsAreResolved(norm, company, once, payload);
  }
}
