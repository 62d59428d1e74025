/** The groups that take part in the rules for voucher types, as two parts of the backend recognise them. */
module VoucherGroups {
  import opened Prelude

  type Lower = string -> string

  predicate IsCashName(s: string) {
    s == "bank accounts" || s == "bank od a/c" || s == "cash-in-hand"
  }

  /** The voucher rules: white space of every kind is stripped. */
  predicate IsBankOrCash(lower: Lower, group: Option<string>) {
    group.Some? && IsCashName(lower(Strip(group.value)))
  }

  predicate IsSundryDebtors(lower: Lower, group: Option<string>) {
    group.Some? && lower(Strip(group.value)) == "sundry debtors"
  }

  predicate IsSundryCreditors(lower: Lower, group: Option<string>) {
    group.Some? && lower(Strip(group.value)) == "sundry creditors"
  }

  /** The groups that count, in small letters and without the white space around them. */
  lemma {:induction false} GroupsAre(lower: Lower, group: Option<string>)
    ensures IsBankOrCash(lower, group) <==>
            group.Some? && lower(Strip(group.value)) in {"bank accounts", "bank od a/c", "cash-in-hand"}
    ensures IsSundryDebtors(lower, group) <==> group.Some? && lower(Strip(group.value)) in {"sundry debtors"}
    ensures IsSundryCreditors(lower, group) <==> group.Some? && lower(Strip(group.value)) in {"sundry creditors"}
  {
  }

  // ------------------------------------------------------------------
  // The dashboard's way: SQL `trim` drops blanks only
  // ------------------------------------------------------------------

  function FirstMark(s: string, i: nat): (k: nat)
    requires i <= |s|
    ensures i <= k <= |s|
    ensures k < |s| ==> s[k] != ' '
    ensures forall j | i <= j < k :: s[j] == ' '
    decreases |s| - i
  {
    if i < |s| && s[i] == ' ' then FirstMark(s, i + 1) else i
  }

  function LastMark(s: string, i: nat): (k: nat)
    requires i <= |s|
    ensures k <= i
    ensures k > 0 ==> s[k - 1] != ' '
    ensures forall j | k <= j < i :: s[j] == ' '
  {
    if i > 0 && s[i - 1] == ' ' then LastMark(s, i - 1) else i
  }

  function Trim(s: string): string {
    var i, j := FirstMark(s, 0), LastMark(s, |s|);
    if i < j then s[i..j] else []
  }

  predicate IsCashOnDashboard(lower: Lower, group: Option<string>) {
    group.Some? && IsCashName(lower(Trim(group.value)))
  }

  /** Lower-casing leaves white space at the ends white and everything else at the ends not white. */
  ghost predicate KeepsEnds(lower: Lower) {
    && lower([]) == []
    && forall s: string | s != [] ::
         && lower(s) != []
         && IsSpace(lower(s)[0]) == IsSpace(s[0])
         && IsSpace(lower(s)[|lower(s)| - 1]) == IsSpace(s[|s| - 1])
  }

  lemma {:induction false} CashNamesAreTrimmed(s: string)
    requires IsCashName(s)
    ensures s != [] && Trimmed(s)
  {
  }

  lemma {:induction false} TrimIsStrip(s: string)
    requires Trimmed(Trim(s))
    ensures Strip(s) == Trim(s)
  {
    var i, j := FirstMark(s, 0), LastMark(s, |s|);
    if i < j {
      assert Trim(s)[0] == s[i] && Trim(s)[j - i - 1] == s[j - 1];
      StripIs(s, i, j);
    } else {
      FirstInkSkips(s, 0);
      LastInkSkips(s, |s|);
      assert forall k | 0 <= k < |s| :: IsSpace(s[k]);
    }
  }

  /**
   The dashboard counts a ledger as cash exactly when the voucher rules do and its group, blanks
   aside, begins and ends with no other white space.
   */
  lemma {:induction false} CashOnDashboardIff(lower: Lower, group: Option<string>)
    requires KeepsEnds(lower)
    ensures IsCashOnDashboard(lower, group) <==>
            IsBankOrCash(lower, group) && Trimmed(Trim(group.value))
  {
    if group.Some? {
      var t := Trim(group.value);
      if IsCashName(lower(t)) {
        CashNamesAreTrimmed(lower(t));
        assert t != [] && Trimmed(t);
        TrimIsStrip(group.value);
      } else if Trimmed(t) {
        TrimIsStrip(group.value);
      }
    }
  }

  /** A tab is enough: the rules take the ledger for cash, the dashboard does not. */
  lemma {:induction false} TabsDiffer(lower: Lower)
    requires KeepsEnds(lower) && lower("Bank Accounts") == "bank accounts"
    ensures IsBankOrCash(lower, Some("\tBank Accounts")) && !IsCashOnDashboard(lower, Some("\tBank Accounts"))
  {
    var s := "\tBank Accounts";
    assert |s| == 14 && s[1..14] == "Bank Accounts";
    StripIs(s, 1, 14);
    assert FirstMark(s, 0) == 0 && LastMark(s, 14) == 14;
    assert Trim(s) == s;
    CashOnDashboardIff(lower, Some(s));
  }
}
