/**
 Attaching ledger GUIDs to exported voucher lines: a join on the normalized ledger name that
 refuses to guess.

 `norm` is the source's `name.strip().lower()`; nothing here depends on what it does to a name,
 so the theorems hold for every normalization.
 */
module LedgerGuids {
  import opened Prelude

  type Normalizer = string -> string

  datatype LedgerMaster = LedgerMaster(name: string, masterId: Option<string>)

  /** One line of an exported voucher. */
  datatype Line = Line(ledgerName: string, amount: int, isDebit: bool, ledgerGuid: Option<string>)

  /** An exported voucher; `header` stands for all its other fields. */
  datatype Row<H> = Row(header: H, lines: seq<Line>)

  /** The ledger can give `key` its GUID. */
  predicate Holds(norm: Normalizer, ledger: LedgerMaster, key: string) {
    ledger.masterId.Some? && norm(ledger.name) == key
  }

  /** The GUIDs of the first `n` ledgers with this normalized name, in order. */
  function Guids(norm: Normalizer, ledgers: seq<LedgerMaster>, n: nat, key: string): (r: seq<string>)
    requires n <= |ledgers|
  {
    if n == 0 then []
    else
      var before := Guids(norm, ledgers, n - 1, key);
      if Holds(norm, ledgers[n - 1], key) then before + [ledgers[n - 1].masterId.value] else before
  }

  /** The GUID of the only ledger with this name; none when there is no such ledger, or several. */
  function Lookup(norm: Normalizer, ledgers: seq<LedgerMaster>, name: string): Option<string> {
    var guids := Guids(norm, ledgers, |ledgers|, norm(name));
    if norm(name) != "" && |guids| == 1 then Some(guids[0]) else None
  }

  /** The first loop of the join: the first GUID of every name, and the names seen twice. */
  method CollectGuids(norm: Normalizer, ledgers: seq<LedgerMaster>)
    returns (guidByName: map<string, string>, ambiguous: set<string>)
    ensures forall key :: key in guidByName <==> key != "" && Guids(norm, ledgers, |ledgers|, key) != []
    ensures forall key :: key in guidByName ==> guidByName[key] == Guids(norm, ledgers, |ledgers|, key)[0]
    ensures forall key :: key in ambiguous <==> key != "" && |Guids(norm, ledgers, |ledgers|, key)| >= 2
  {
    guidByName, ambiguous := map[], {};
    for i := 0 to |ledgers|
      invariant forall key :: key in guidByName <==> key != "" && Guids(norm, ledgers, i, key) != []
      invariant forall key :: key in guidByName ==> guidByName[key] == Guids(norm, ledgers, i, key)[0]
      invariant forall key :: key in ambiguous <==> key != "" && |Guids(norm, ledgers, i, key)| >= 2
    {
      var ledger := ledgers[i];
      var key := norm(ledger.name);
      if key == "" {
        continue;
      }
      if ledger.masterId.None? {
        continue;
      }
      if key in guidByName {
        ambiguous := ambiguous + {key};
        continue;
      }
      guidByName := guidByName[key := ledger.masterId.value];
    }
  }

  /** The whole join: only the GUIDs of the lines change, each to what `Lookup` says. */
  method EnrichLedgerGuids<H>(norm: Normalizer, rows: seq<Row<H>>, ledgers: seq<LedgerMaster>)
    returns (enriched: seq<Row<H>>)
    ensures |enriched| == |rows|
    ensures forall i | 0 <= i < |rows| ::
      && enriched[i].header == rows[i].header
      && |enriched[i].lines| == |rows[i].lines|
      && forall j | 0 <= j < |rows[i].lines| ::
           enriched[i].lines[j] ==
           rows[i].lines[j].(ledgerGuid := Lookup(norm, ledgers, rows[i].lines[j].ledgerName))
  {
    var guidByName, ambiguous := CollectGuids(norm, ledgers);
    var pending := ambiguous;
    while pending != {}
      invariant pending <= ambiguous
      invariant forall key :: key in guidByName <==>
        key != "" && Guids(norm, ledgers, |ledgers|, key) != [] && (key in ambiguous ==> key in pending)
      invariant forall key :: key in guidByName ==> guidByName[key] == Guids(norm, ledgers, |ledgers|, key)[0]
    {
      var key :| key in pending;
      guidByName := guidByName - {key};
      pending := pending - {key};
    }

    enriched := [];
    for i := 0 to |rows|
      invariant |enriched| == i
      invariant forall k | 0 <= k < i ::
        && enriched[k].header == rows[k].header
        && |enriched[k].lines| == |rows[k].lines|
        && forall j | 0 <= j < |rows[k].lines| ::
             enriched[k].lines[j] ==
             rows[k].lines[j].(ledgerGuid := Lookup(norm, ledgers, rows[k].lines[j].ledgerName))
    {
      var lines := EnrichLines(norm, rows[i].lines, ledgers, guidByName);
      enriched := enriched + [rows[i].(lines := lines)];
    }
  }

  method EnrichLines(
      norm: Normalizer, lines: seq<Line>, ghost ledgers: seq<LedgerMaster>, guidByName: map<string, string>)
    returns (r: seq<Line>)
    requires forall key :: key in guidByName <==> key != "" && |Guids(norm, ledgers, |ledgers|, key)| == 1
    requires forall key :: key in guidByName ==> guidByName[key] == Guids(norm, ledgers, |ledgers|, key)[0]
    ensures |r| == |lines|
    ensures forall j | 0 <= j < |lines| ::
      r[j] == lines[j].(ledgerGuid := Lookup(norm, ledgers, lines[j].ledgerName))
  {
    r := [];
    for j := 0 to |lines|
      invariant |r| == j
      invariant forall k | 0 <= k < j ::
        r[k] == lines[k].(ledgerGuid := Lookup(norm, ledgers, lines[k].ledgerName))
    {
      var key := norm(lines[j].ledgerName);
      var guid := if key in guidByName then Some(guidByName[key]) else None;
      r := r + [lines[j].(ledgerGuid := guid)];
    }
  }

  // ------------------------------------------------------------------
  // What `Lookup` says
  // ------------------------------------------------------------------

  /** Ledger `i` is the only one with a GUID and this normalized name. */
  ghost predicate OnlyHolder(norm: Normalizer, ledgers: seq<LedgerMaster>, key: string, i: nat) {
    && i < |ledgers| && ledgers[i].masterId != None && norm(ledgers[i].name) == key
    && forall j | 0 <= j < |ledgers| && ledgers[j].masterId != None && norm(ledgers[j].name) == key :: j == i
  }

  lemma {:induction false} NoGuids(norm: Normalizer, ledgers: seq<LedgerMaster>, n: nat, key: string)
    requires n <= |ledgers|
    ensures Guids(norm, ledgers, n, key) == [] <==> forall j | 0 <= j < n :: !Holds(norm, ledgers[j], key)
  {
    if n > 0 {
      NoGuids(norm, ledgers, n - 1, key);
    }
  }

  lemma {:induction false} OneGuid(norm: Normalizer, ledgers: seq<LedgerMaster>, n: nat, key: string, guid: string)
    requires n <= |ledgers|
    ensures
      Guids(norm, ledgers, n, key) == [guid] <==>
      exists i | 0 <= i < n ::
        && Holds(norm, ledgers[i], key) && ledgers[i].masterId.value == guid
        && forall j | 0 <= j < n && Holds(norm, ledgers[j], key) :: j == i
  {
    if n > 0 {
      var before := Guids(norm, ledgers, n - 1, key);
      OneGuid(norm, ledgers, n - 1, key, guid);
      NoGuids(norm, ledgers, n - 1, key);
      if Holds(norm, ledgers[n - 1], key) {
        var last := ledgers[n - 1].masterId.value;
        assert before + [last] == [guid] <==> before == [] && last == guid by {
          if before + [last] == [guid] {
            assert |before + [last]| == 1 && (before + [last])[|before|] == last;
          }
        }
      }
    }
  }

  /** A line gets a GUID exactly when one ledger, and only one, has its non-empty normalized name. */
  lemma {:induction false} LookupIsUnique(norm: Normalizer, ledgers: seq<LedgerMaster>, name: string, guid: string)
    ensures
      Lookup(norm, ledgers, name) == Some(guid) <==>
      && norm(name) != ""
      && exists i: nat :: OnlyHolder(norm, ledgers, norm(name), i) && ledgers[i].masterId.value == guid
  {
    var key := norm(name);
    var guids := Guids(norm, ledgers, |ledgers|, key);
    OneGuid(norm, ledgers, |ledgers|, key, guid);
    assert |guids| == 1 ==> guids == [guids[0]];
    if guids == [guid] {
      var i :| 0 <= i < |ledgers|
        && Holds(norm, ledgers[i], key) && ledgers[i].masterId.value == guid
        && forall j | 0 <= j < |ledgers| && Holds(norm, ledgers[j], key) :: j == i;
      assert OnlyHolder(norm, ledgers, key, i);
    }
  }

  // ------------------------------------------------------------------
  // The order of the ledgers does not matter
  // ------------------------------------------------------------------

  function One(norm: Normalizer, ledger: LedgerMaster, key: string, guid: string): nat {
    if Holds(norm, ledger, key) && ledger.masterId.value == guid then 1 else 0
  }

  /** How many of the first `n` ledgers can give `key` this very GUID. */
  function Count(norm: Normalizer, s: seq<LedgerMaster>, n: nat, key: string, guid: string): nat
    requires n <= |s|
  {
    if n == 0 then 0 else Count(norm, s, n - 1, key, guid) + One(norm, s[n - 1], key, guid)
  }

  lemma {:induction false} CountOfGuids(norm: Normalizer, s: seq<LedgerMaster>, n: nat, key: string, guid: string)
    requires n <= |s|
    ensures multiset(Guids(norm, s, n, key))[guid] == Count(norm, s, n, key, guid)
  {
    if n > 0 {
      CountOfGuids(norm, s, n - 1, key, guid);
    }
  }

  lemma {:induction false} CountOfPrefix(
      norm: Normalizer, a: seq<LedgerMaster>, b: seq<LedgerMaster>, n: nat, key: string, guid: string)
    requires n <= |a| && n <= |b| && forall i | 0 <= i < n :: a[i] == b[i]
    ensures Count(norm, a, n, key, guid) == Count(norm, b, n, key, guid)
  {
    if n > 0 {
      CountOfPrefix(norm, a, b, n - 1, key, guid);
    }
  }

  /** `r` is `s` without its element at `i`. */
  ghost predicate Removed<T>(s: seq<T>, i: nat, r: seq<T>) {
    && i < |s| && |r| == |s| - 1
    && (forall k | 0 <= k < i :: r[k] == s[k])
    && (forall k | i <= k < |r| :: r[k] == s[k + 1])
  }

  function Without<T>(s: seq<T>, i: nat): (r: seq<T>)
    requires i < |s|
    ensures Removed(s, i, r)
    ensures multiset(s) == multiset(r) + multiset{s[i]}
  {
    assert s == s[..i] + [s[i]] + s[i + 1..];
    s[..i] + s[i + 1..]
  }

  lemma {:induction false} CountWithout(
      norm: Normalizer, s: seq<LedgerMaster>, i: nat, r: seq<LedgerMaster>, n: nat, key: string, guid: string)
    requires i < n <= |s| && Removed(s, i, r)
    ensures Count(norm, s, n, key, guid) == Count(norm, r, n - 1, key, guid) + One(norm, s[i], key, guid)
    decreases n
  {
    if i == n - 1 {
      CountOfPrefix(norm, s, r, n - 1, key, guid);
    } else {
      CountWithout(norm, s, i, r, n - 1, key, guid);
      assert r[n - 2] == s[n - 1];
    }
  }

  lemma {:induction false} SameWithoutLast<T>(a: seq<T>, n: nat, b: seq<T>, i: nat) returns (r: seq<T>)
    requires 0 < n <= |a| && i < |b| && b[i] == a[n - 1] && multiset(a[..n]) == multiset(b)
    ensures Removed(b, i, r) && multiset(a[..n - 1]) == multiset(r)
  {
    r := Without(b, i);
    var last := multiset{b[i]};
    assert a[..n] == a[..n - 1] + [b[i]];
    assert multiset(a[..n - 1]) == multiset(a[..n]) - last;
    assert multiset(r) == multiset(b) - last;
  }

  lemma {:induction false} CountPermuted(
      norm: Normalizer, a: seq<LedgerMaster>, n: nat, b: seq<LedgerMaster>, key: string, guid: string)
    requires n <= |a| && multiset(a[..n]) == multiset(b)
    ensures |b| == n
    ensures Count(norm, a, n, key, guid) == Count(norm, b, n, key, guid)
    decreases n
  {
    assert |multiset(a[..n])| == n && |multiset(b)| == |b|;
    if n > 0 {
      assert a[..n][n - 1] in multiset(b);
      var i :| 0 <= i < |b| && b[i] == a[n - 1];
      var r := SameWithoutLast(a, n, b, i);
      CountPermuted(norm, a, n - 1, r, key, guid);
      CountWithout(norm, b, i, r, n, key, guid);
    }
  }

  lemma {:induction false} LookupIgnoresOrder(
      norm: Normalizer, ledgers: seq<LedgerMaster>, permuted: seq<LedgerMaster>, name: string)
    requires multiset(ledgers) == multiset(permuted)
    ensures Lookup(norm, ledgers, name) == Lookup(norm, permuted, name)
  {
    var key := norm(name);
    var a := Guids(norm, ledgers, |ledgers|, key);
    var b := Guids(norm, permuted, |permuted|, key);
    assert ledgers[..|ledgers|] == ledgers;
    forall guid ensures multiset(a)[guid] == multiset(b)[guid] {
      CountPermuted(norm, ledgers, |ledgers|, permuted, key, guid);
      CountOfGuids(norm, ledgers, |ledgers|, key, guid);
      CountOfGuids(norm, permuted, |permuted|, key, guid);
    }
    assert multiset(a) == multiset(b);
    assert |a| == |multiset(a)| && |b| == |multiset(b)|;
    if |a| == 1 {
      assert a[0] in multiset(a);
      assert b[0] in multiset(a);
    }
  }
}
