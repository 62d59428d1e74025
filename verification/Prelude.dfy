/** Small shared vocabulary: optional values and the text predicates of the source language. */
module Prelude {

  datatype Option<+T> = None | Some(value: T)

  /** Unicode white space, as `str.isspace`, `str.strip` and the regular expression class `\s` see it. */
  predicate IsSpace(c: char) {
    var n := c as int;
    || 0x09 <= n <= 0x0D
    || 0x1C <= n <= 0x20
    || n == 0x85 || n == 0xA0 || n == 0x1680
    || 0x2000 <= n <= 0x200A
    || n == 0x2028 || n == 0x2029 || n == 0x202F || n == 0x205F || n == 0x3000
  }

  /** The code points of white space, one by one. */
  lemma {:induction false} SpacesAre(c: char)
    ensures IsSpace(c) <==>
            c as int in {0x9, 0xA, 0xB, 0xC, 0xD, 0x1C, 0x1D, 0x1E, 0x1F, 0x20, 0x85, 0xA0, 0x1680,
                         0x2000, 0x2001, 0x2002, 0x2003, 0x2004, 0x2005, 0x2006, 0x2007, 0x2008, 0x2009, 0x200A,
                         0x2028, 0x2029, 0x202F, 0x205F, 0x3000}
  {
  }

  /** The first character from `i` on that is not white space, or the end. */
  function FirstInk(s: string, i: nat): (k: nat)
    requires i <= |s|
    ensures i <= k <= |s|
    ensures k < |s| ==> !IsSpace(s[k])
    decreases |s| - i
  {
    if i < |s| && IsSpace(s[i]) then FirstInk(s, i + 1) else i
  }

  lemma {:induction false} FirstInkSkips(s: string, i: nat)
    requires i <= |s|
    ensures forall j | i <= j < FirstInk(s, i) :: IsSpace(s[j])
    decreases |s| - i
  {
    if i < |s| && IsSpace(s[i]) {
      FirstInkSkips(s, i + 1);
    }
  }

  /** Just behind the last character before `i` that is not white space, or the start. */
  function LastInk(s: string, i: nat): (k: nat)
    requires i <= |s|
    ensures k <= i
    ensures k > 0 ==> !IsSpace(s[k - 1])
  {
    if i > 0 && IsSpace(s[i - 1]) then LastInk(s, i - 1) else i
  }

  lemma {:induction false} LastInkSkips(s: string, i: nat)
    requires i <= |s|
    ensures forall j | LastInk(s, i) <= j < i :: IsSpace(s[j])
  {
    if i > 0 && IsSpace(s[i - 1]) {
      LastInkSkips(s, i - 1);
    }
  }

  /** `str.strip()` */
  function Strip(s: string): (r: string)
    ensures Trimmed(r)
  {
    var i, j := FirstInk(s, 0), LastInk(s, |s|);
    if i < j then s[i..j] else []
  }

  /** Neither end is white space. */
  predicate Trimmed(s: string) {
    s != [] ==> !IsSpace(s[0]) && !IsSpace(s[|s| - 1])
  }

  /** What is left when white space is cut off both ends is what `strip` gives, if its ends are not white. */
  lemma {:induction false} StripIs(s: string, i: nat, j: nat)
    requires i < j <= |s| && !IsSpace(s[i]) && !IsSpace(s[j - 1])
    requires forall k | 0 <= k < |s| && !(i <= k < j) :: IsSpace(s[k])
    ensures Strip(s) == s[i..j]
  {
    FirstInkSkips(s, 0);
    LastInkSkips(s, |s|);
    assert FirstInk(s, 0) == i && LastInk(s, |s|) == j;
  }

  lemma {:induction false} StripTrimmed(s: string)
    requires Trimmed(s)
    ensures Strip(s) == s
  {
    assert FirstInk(s, 0) == 0 && LastInk(s, |s|) == |s|;
  }

  /** The first `n` pieces, one after the other. */
  function ConcatTo<T>(pieces: seq<seq<T>>, n: nat): seq<T>
    requires n <= |pieces|
  {
    if n == 0 then [] else ConcatTo(pieces, n - 1) + pieces[n - 1]
  }

  function Concat<T>(pieces: seq<seq<T>>): seq<T> {
    ConcatTo(pieces, |pieces|)
  }
}
