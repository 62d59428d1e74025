/**
 The incremental extractor of `<VOUCHER …>…</VOUCHER>` blocks: a buffer that is fed
 arbitrary chunks of text and hands out the blocks that have completed.

 `Scan` says what one call does to the text in the buffer; the class holds the buffer and
 its loop is proved against `Scan`. The theorems are about every way of cutting a text
 into chunks, and about every well-formed document.
 */
module VoucherScanner {
  import opened Prelude

  const TAG_LENGTH := 8     // of `<VOUCHER`
  const CLOSE_LENGTH := 10  // of `</VOUCHER>`

  // ------------------------------------------------------------------
  // The patterns
  // ------------------------------------------------------------------

  /** Character `k` of `<VOUCHER`. */
  function TagChar(k: nat): char
    requires k < 8
  {
    if k < 4 then
      if k == 0 then '<' else if k == 1 then 'V' else if k == 2 then 'O' else 'U'
    else
      if k == 4 then 'C' else if k == 5 then 'H' else if k == 6 then 'E' else 'R'
  }

  /** Character `k` of `</VOUCHER>`. */
  function CloseChar(k: nat): char
    requires k < 10
  {
    if k == 0 then '<' else if k == 1 then '/' else if k == 9 then '>' else TagChar(k - 1)
  }

  /** `c` matches the pattern character `p` when case is ignored. */
  predicate Matches(c: char, p: char) {
    c == p || ('A' <= p <= 'Z' && c as int == p as int + 32)
  }

  /**
   From its character `k` on, the opening pattern matches at `i`: the tag in any case, then
   white space or `>`, which is looked at but not taken.
   */
  predicate OpensFrom(s: string, i: nat, k: nat)
    requires k <= 8
    decreases |s| + 8 - k
  {
    && i + k < |s|
    && if k == 8 then IsSpace(s[i + 8]) || s[i + 8] == '>'
       else Matches(s[i + k], TagChar(k)) && OpensFrom(s, i, k + 1)
  }

  predicate OpensAt(s: string, i: nat) {
    OpensFrom(s, i, 0)
  }

  /** From its character `k` on, the closing tag, in capitals only, stands at `i`. */
  predicate ClosesFrom(s: string, i: nat, k: nat)
    requires k <= 10
    decreases |s| + 10 - k
  {
    k == 10 || (i + k < |s| && s[i + k] == CloseChar(k) && ClosesFrom(s, i, k + 1))
  }

  predicate ClosesAt(s: string, i: nat) {
    ClosesFrom(s, i, 0)
  }

  /** The first place at or after `i` where a tag opens, or the end of the text. */
  function NextOpen(s: string, i: nat): (p: nat)
    requires i <= |s|
    ensures i <= p <= |s|
    ensures p < |s| ==> p + 9 <= |s|
    decreases |s| - i
  {
    if |s| - i < 9 then |s| else if OpensAt(s, i) then i else NextOpen(s, i + 1)
  }

  /** The first place at or after `i` where the closing tag stands, or the end of the text. */
  function NextClose(s: string, i: nat): (p: nat)
    requires i <= |s|
    ensures i <= p <= |s|
    ensures p < |s| ==> p + 10 <= |s|
    decreases |s| - i
  {
    if |s| - i < 10 then |s| else if ClosesAt(s, i) then i else NextClose(s, i + 1)
  }

  function SmallLetter(c: char): char {
    if 'A' <= c <= 'Z' then (c as int + 32) as char else c
  }

  /** Letter by letter, in any case, and then white space or `>`. */
  lemma {:induction false} OpensAtIff(s: string, i: nat)
    ensures OpensAt(s, i) <==>
            && i + 8 < |s| && (IsSpace(s[i + 8]) || s[i + 8] == '>')
            && SmallLetter(s[i]) == '<' && SmallLetter(s[i + 1]) == 'v' && SmallLetter(s[i + 2]) == 'o'
            && SmallLetter(s[i + 3]) == 'u' && SmallLetter(s[i + 4]) == 'c' && SmallLetter(s[i + 5]) == 'h'
            && SmallLetter(s[i + 6]) == 'e' && SmallLetter(s[i + 7]) == 'r'
  {
    OpensFits(s, i, 0);
    OpensStep(s, i, 0);
    OpensStep(s, i, 1);
    OpensStep(s, i, 2);
    OpensStep(s, i, 3);
    OpensStep(s, i, 4);
    OpensStep(s, i, 5);
    OpensStep(s, i, 6);
    OpensStep(s, i, 7);
    OpensStep(s, i, 8);
  }

  lemma {:induction false} OpensStep(s: string, i: nat, k: nat)
    requires k <= 8
    ensures OpensFrom(s, i, k) <==>
            i + k < |s| && if k == 8 then IsSpace(s[i + 8]) || s[i + 8] == '>'
                           else Matches(s[i + k], TagChar(k)) && OpensFrom(s, i, k + 1)
  {
  }

  /** The closing tag, letter by letter, in capitals. */
  lemma {:induction false} ClosesAtIff(s: string, i: nat)
    ensures ClosesAt(s, i) <==>
            && i + 10 <= |s| && s[i] == '<' && s[i + 1] == '/' && s[i + 2] == 'V' && s[i + 3] == 'O' && s[i + 4] == 'U'
            && s[i + 5] == 'C' && s[i + 6] == 'H' && s[i + 7] == 'E' && s[i + 8] == 'R' && s[i + 9] == '>'
  {
    ClosesStep(s, i, 0);
    ClosesStep(s, i, 1);
    ClosesStep(s, i, 2);
    ClosesStep(s, i, 3);
    ClosesStep(s, i, 4);
    ClosesStep(s, i, 5);
    ClosesStep(s, i, 6);
    ClosesStep(s, i, 7);
    ClosesStep(s, i, 8);
    ClosesStep(s, i, 9);
  }

  lemma {:induction false} ClosesStep(s: string, i: nat, k: nat)
    requires k < 10
    ensures ClosesFrom(s, i, k) <==> i + k < |s| && s[i + k] == CloseChar(k) && ClosesFrom(s, i, k + 1)
    ensures ClosesFrom(s, i, 10)
  {
  }

  /** What `re.search` promises: a match, and none before it; a full end means that there is none. */
  lemma {:induction false} NextOpenIsFirst(s: string, i: nat)
    requires i <= |s|
    ensures NextOpen(s, i) < |s| ==> OpensAt(s, NextOpen(s, i))
    ensures forall j | i <= j < NextOpen(s, i) :: !OpensAt(s, j)
    decreases |s| - i
  {
    if |s| - i < 9 {
      forall j | i <= j < |s| ensures !OpensAt(s, j) {
        OpensFits(s, j, 0);
      }
    } else if !OpensAt(s, i) {
      NextOpenIsFirst(s, i + 1);
    }
  }

  lemma {:induction false} OpensFits(s: string, i: nat, k: nat)
    requires k <= 8
    ensures OpensFrom(s, i, k) ==> i + 8 < |s|
    decreases 8 - k
  {
    if k < 8 {
      OpensFits(s, i, k + 1);
    }
  }

  /** What `str.find` promises of the closing tag. */
  lemma {:induction false} NextCloseIsFirst(s: string, i: nat)
    requires i <= |s|
    ensures NextClose(s, i) < |s| ==> ClosesAt(s, NextClose(s, i))
    ensures forall j | i <= j < NextClose(s, i) :: !ClosesAt(s, j)
    decreases |s| - i
  {
    if |s| - i < 10 {
      forall j | i <= j < |s| ensures !ClosesAt(s, j) {
        ClosesFits(s, j, 0);
      }
    } else if !ClosesAt(s, i) {
      NextCloseIsFirst(s, i + 1);
    }
  }

  lemma {:induction false} ClosesFits(s: string, i: nat, k: nat)
    requires k < 10
    ensures ClosesFrom(s, i, k) ==> i + 9 < |s|
    decreases 10 - k
  {
    if k < 9 {
      ClosesFits(s, i, k + 1);
    }
  }

  /** `[A-Za-z]` when case is ignored: the Latin letters and the four that fold to one. */
  predicate IsNameStart(c: char) {
    || 'A' <= c <= 'Z' || 'a' <= c <= 'z'
    || c == '\U{0130}' || c == '\U{0131}' || c == '\U{017F}' || c == '\U{212A}'
  }

  /** The first place at or after `i` that is not white space. */
  function SkipSpaces(s: string, i: nat): (p: nat)
    requires i <= |s|
    ensures i <= p <= |s|
    decreases |s| - i
  {
    if i < |s| && IsSpace(s[i]) then SkipSpaces(s, i + 1) else i
  }

  /** A block with attributes: the tag name, white space, then a letter. */
  predicate HasAttributes(block: string) {
    && |block| >= 8
    && var p := SkipSpaces(block, 8);
       8 < p < |block| && IsNameStart(block[p])
  }

  lemma {:induction false} SpacesEnd(s: string, i: nat, p: nat)
    requires i <= p < |s| && !IsSpace(s[p]) && forall j | i <= j < p :: IsSpace(s[j])
    ensures SkipSpaces(s, i) == p
    decreases p - i
  {
    if i < p {
      SpacesEnd(s, i + 1, p);
    }
  }

  lemma {:induction false} SpacesSkipped(s: string, i: nat)
    requires i <= |s|
    ensures forall j | i <= j < SkipSpaces(s, i) :: IsSpace(s[j])
    ensures SkipSpaces(s, i) < |s| ==> !IsSpace(s[SkipSpaces(s, i)])
    decreases |s| - i
  {
    if i < |s| && IsSpace(s[i]) {
      SpacesSkipped(s, i + 1);
    }
  }

  /** Character `p` is the first behind some white space after the tag name, and begins an attribute. */
  ghost predicate AttributeAt(block: string, p: nat) {
    && 8 < p < |block| && (forall j | 8 <= j < p :: IsSpace(block[j]))
    && var n := block[p] as int;
       65 <= n <= 90 || 97 <= n <= 122 || n == 304 || n == 305 || n == 383 || n == 8490
  }

  /** A block has attributes exactly if a letter follows the tag name with white space in between. */
  lemma {:induction false} HasAttributesIff(block: string)
    requires |block| >= 8
    ensures HasAttributes(block) <==> exists p :: AttributeAt(block, p)
  {
    SpacesSkipped(block, 8);
    if HasAttributes(block) {
      assert AttributeAt(block, SkipSpaces(block, 8));
    }
    if exists p :: AttributeAt(block, p) {
      var p :| AttributeAt(block, p);
      SpacesEnd(block, 8, p);
    }
  }

  // ------------------------------------------------------------------
  // What one call does to the buffer
  // ------------------------------------------------------------------

  datatype Hit = NoOpening | Unclosed(start: nat) | Block(start: nat, end: nat)

  /** The first element of the text, as far as the text shows it. */
  function FindBlock(buf: string): (h: Hit)
    ensures h.Unclosed? ==> h.start < |buf|
    ensures h.Block? ==> h.start + 18 <= h.end <= |buf|
  {
    var start := NextOpen(buf, 0);
    if start == |buf| then NoOpening
    else
      var close := NextClose(buf, start + 8);
      if close == |buf| then Unclosed(start) else Block(start, close + 10)
  }

  /** Keep only what could be the first part of an opening tag. */
  function KeepTail(buf: string): string {
    if |buf| > 8 then buf[|buf| - 8..] else buf
  }

  datatype Scanned = Scanned(blocks: seq<string>, rest: string)

  /** A complete element in front of `later`: its block counts only when it has attributes. */
  function Emit(block: string, later: Scanned): Scanned {
    Scanned(if HasAttributes(block) then [block] + later.blocks else later.blocks, later.rest)
  }

  function Scan(buf: string): Scanned
    decreases |buf|
  {
    match FindBlock(buf)
    case NoOpening => Scanned([], KeepTail(buf))
    case Unclosed(start) => Scanned([], buf[start..])
    case Block(start, end) => Emit(buf[start..end], Scan(buf[end..]))
  }

  /** All the blocks of a text. */
  function Extract(text: string): seq<string> {
    Scan(text).blocks
  }

  class Scanner {
    var buf: string
    ghost var fed: string  // everything that was ever fed

    ghost predicate Valid()
      reads this
    {
      buf == Scan(fed).rest
    }

    constructor ()
      ensures Valid() && fed == ""
    {
      buf, fed := "", "";
    }

    /** Append `text` to the buffer and return the blocks that are now complete. */
    method Feed(text: string) returns (out: seq<string>)
      requires Valid()
      modifies this
      ensures Valid() && fed == old(fed) + text
      ensures Extract(fed) == Extract(old(fed)) + out
    {
      ScanSplit(fed, text);
      fed := fed + text;
      out := Advance(text);
    }

    /** The loop of `Feed`. */
    method Advance(text: string) returns (out: seq<string>)
      modifies this`buf
      ensures Scanned(out, buf) == Scan(old(buf) + text)
    {
      buf := buf + text;
      ghost var whole := Scan(buf);
      out := [];
      while true
        invariant whole == Scanned(out + Scan(buf).blocks, Scan(buf).rest)
        decreases |buf|
      {
        var start := NextOpen(buf, 0);
        if start == |buf| {
          if |buf| > TAG_LENGTH {
            buf := buf[|buf| - TAG_LENGTH..];
          }
          break;
        }
        var close := NextClose(buf, start + TAG_LENGTH);
        if close == |buf| {
          buf := buf[start..];
          break;
        }
        var end := close + CLOSE_LENGTH;
        var block := buf[start..end];
        buf := buf[end..];
        EmitAfter(out, block, Scan(buf));
        if HasAttributes(block) {
          out := out + [block];
        }
      }
    }

    /** One export: every chunk of the response is fed in turn and its blocks are collected. */
    method ReadAll(chunks: seq<string>) returns (rows: seq<string>)
      requires Valid() && fed == ""
      modifies this
      ensures Valid() && fed == Concat(chunks)
      ensures rows == Extract(Concat(chunks))
    {
      rows := [];
      for i := 0 to |chunks|
        invariant Valid() && fed == ConcatTo(chunks, i)
        invariant rows == Extract(fed)
      {
        var blocks := Feed(chunks[i]);
        rows := rows + blocks;
      }
    }
  }

  lemma {:induction false} EmitAfter(out: seq<string>, block: string, later: Scanned)
    ensures out + Emit(block, later).blocks ==
            (if HasAttributes(block) then out + [block] else out) + later.blocks
    ensures Emit(block, later).rest == later.rest
  {
  }

  // ------------------------------------------------------------------
  // Searching in parts of a text
  // ------------------------------------------------------------------

  lemma {:induction false} OpensWithin(s: string, t: string, d: nat, i: nat, k: nat)
    requires d + i + 9 <= |s| && i + 9 <= |t| && k <= 8
    requires forall j | i <= j < i + 9 :: s[d + j] == t[j]
    ensures OpensFrom(s, d + i, k) <==> OpensFrom(t, i, k)
    decreases 8 - k
  {
    assert s[d + (i + k)] == t[i + k];
    if k < 8 {
      OpensWithin(s, t, d, i, k + 1);
    }
  }

  lemma {:induction false} ClosesWithin(s: string, t: string, d: nat, i: nat, k: nat)
    requires d + i + 10 <= |s| && i + 10 <= |t| && k <= 10
    requires forall j | i <= j < i + 10 :: s[d + j] == t[j]
    ensures ClosesFrom(s, d + i, k) <==> ClosesFrom(t, i, k)
    decreases 10 - k
  {
    if k < 10 {
      assert s[d + (i + k)] == t[i + k];
      ClosesWithin(s, t, d, i, k + 1);
    }
  }

  lemma {:induction false} NextOpenInSuffix(d: string, t: string, i: nat)
    requires i <= |t|
    ensures NextOpen(d + t, |d| + i) == |d| + NextOpen(t, i)
    decreases |t| - i
  {
    if i + 9 <= |t| {
      OpensWithin(d + t, t, |d|, i, 0);
      if !OpensAt(t, i) {
        NextOpenInSuffix(d, t, i + 1);
      }
    }
  }

  lemma {:induction false} NextCloseInSuffix(d: string, t: string, i: nat)
    requires i <= |t|
    ensures NextClose(d + t, |d| + i) == |d| + NextClose(t, i)
    decreases |t| - i
  {
    if i + 10 <= |t| {
      ClosesWithin(d + t, t, |d|, i, 0);
      if !ClosesAt(t, i) {
        NextCloseInSuffix(d, t, i + 1);
      }
    }
  }

  lemma {:induction false} NextOpenAgain(s: string, i: nat)
    requires i <= |s|
    ensures NextOpen(s, NextOpen(s, i)) == NextOpen(s, i)
    decreases |s| - i
  {
    if i + 9 <= |s| && !OpensAt(s, i) {
      NextOpenAgain(s, i + 1);
    }
  }

  // ------------------------------------------------------------------
  // What more text adds
  // ------------------------------------------------------------------

  /** A tag that opens in `a` is found whatever follows; else only the last eight characters matter. */
  lemma {:induction false} NextOpenMore(a: string, b: string, i: nat)
    requires i <= |a|
    ensures
      NextOpen(a + b, i) ==
      if NextOpen(a, i) < |a| then NextOpen(a, i)
      else NextOpen(a + b, if |a| - i > 8 then |a| - 8 else i)
    decreases |a| - i
  {
    if |a| - i > 8 {
      OpensWithin(a + b, a, 0, i, 0);
      if !OpensAt(a, i) {
        NextOpenMore(a, b, i + 1);
      }
    }
  }

  lemma {:induction false} NextCloseMore(a: string, b: string, i: nat)
    requires i <= |a| && NextClose(a, i) < |a|
    ensures NextClose(a + b, i) == NextClose(a, i)
    decreases |a| - i
  {
    ClosesWithin(a + b, a, 0, i, 0);
    if !ClosesAt(a, i) {
      NextCloseMore(a, b, i + 1);
    }
  }

  // ------------------------------------------------------------------
  // How a text is cut into chunks does not matter
  // ------------------------------------------------------------------

  /** `n` places further on. */
  function Shift(h: Hit, n: nat): Hit {
    match h
    case NoOpening => NoOpening
    case Unclosed(start) => Unclosed(n + start)
    case Block(start, end) => Block(n + start, n + end)
  }

  /** Text in front in which no tag opens does not change what is found. */
  lemma {:induction false} FindBlockAfter(d: string, t: string)
    requires NextOpen(d + t, 0) == NextOpen(d + t, |d|)
    ensures FindBlock(d + t) == Shift(FindBlock(t), |d|)
  {
    NextOpenInSuffix(d, t, 0);
    var start := NextOpen(t, 0);
    if start < |t| {
      NextCloseInSuffix(d, t, start + 8);
    }
  }

  /** An element that is complete in `a` is found whatever follows `a`. */
  lemma {:induction false} FindBlockBefore(a: string, b: string)
    requires FindBlock(a).Block?
    ensures FindBlock(a + b) == FindBlock(a)
  {
    NextOpenMore(a, b, 0);
    NextCloseMore(a, b, NextOpen(a, 0) + 8);
  }

  /** Text in front in which no tag opens is skipped without a trace. */
  lemma {:induction false} ScanAfter(d: string, t: string)
    requires FindBlock(d + t) == Shift(FindBlock(t), |d|)
    requires |t| >= 8
    ensures Scan(d + t) == Scan(t)
  {
    var h := FindBlock(t);
    if h.NoOpening? {
      assert KeepTail(d + t) == KeepTail(t);
    } else if h.Unclosed? {
      assert (d + t)[|d| + h.start..] == t[h.start..];
    } else {
      SameBlock(d, t, h.start, h.end);
      SameScan(d + t, t, |d|);
    }
  }

  lemma {:induction false} SameBlock(d: string, t: string, i: nat, j: nat)
    requires i <= j <= |t|
    ensures (d + t)[|d| + i..|d| + j] == t[i..j]
    ensures (d + t)[|d| + j..] == t[j..]
  {
  }

  lemma {:induction false} SameScan(u: string, t: string, n: nat)
    requires FindBlock(t).Block? && FindBlock(u) == Shift(FindBlock(t), n)
    requires u[n + FindBlock(t).start..n + FindBlock(t).end] == t[FindBlock(t).start..FindBlock(t).end]
    requires u[n + FindBlock(t).end..] == t[FindBlock(t).end..]
    ensures Scan(u) == Scan(t)
  {
  }

  /** Scanning in two steps, through the buffer the first one leaves, is scanning at once. */
  lemma {:induction false} ScanSplit(a: string, b: string)
    ensures
      var first := Scan(a);
      var second := Scan(first.rest + b);
      Scan(a + b) == Scanned(first.blocks + second.blocks, second.rest)
    decreases |a|
  {
    match FindBlock(a)
    case NoOpening =>
      if |a| > 8 {
        NextOpenMore(a, b, 0);
        SplitAt(a, b, |a| - 8);
      }
    case Unclosed(start) =>
      NextOpenMore(a, b, 0);
      NextOpenAgain(a + b, 0);
      SplitAt(a, b, start);
    case Block(start, end) =>
      FindBlockBefore(a, b);
      assert (a + b)[start..end] == a[start..end];
      assert (a + b)[end..] == a[end..] + b;
      ScanSplit(a[end..], b);
      var later := Scan(a[end..]);
      EmitFirst(a[start..end], later, Scan(later.rest + b));
  }

  lemma {:induction false} SplitAt(a: string, b: string, n: nat)
    requires n + 8 <= |a| && NextOpen(a + b, 0) == NextOpen(a + b, n)
    ensures Scan(a + b) == Scan(a[n..] + b)
  {
    assert a + b == a[..n] + (a[n..] + b);
    FindBlockAfter(a[..n], a[n..] + b);
    ScanAfter(a[..n], a[n..] + b);
  }

  lemma {:induction false} EmitFirst(block: string, first: Scanned, second: Scanned)
    ensures Emit(block, Scanned(first.blocks + second.blocks, second.rest)) ==
            Scanned(Emit(block, first).blocks + second.blocks, second.rest)
  {
    assert [block] + (first.blocks + second.blocks) == ([block] + first.blocks) + second.blocks;
  }

  // ------------------------------------------------------------------
  // What the buffer holds between two calls
  // ------------------------------------------------------------------

  /** At most eight characters, or an element that has been opened and not yet closed. */
  ghost predicate Settled(buf: string) {
    || |buf| <= 8
    || (OpensAt(buf, 0) && NextClose(buf, 8) == |buf|)
  }

  /** Whatever was fed: the buffer is the end of it, and it is settled. */
  lemma {:induction false} BufferIsSettled(text: string)
    ensures var rest := Scan(text).rest; |rest| <= |text| && text[|text| - |rest|..] == rest
    ensures Settled(Scan(text).rest)
    decreases |text|
  {
    match FindBlock(text)
    case NoOpening =>
    case Unclosed(start) =>
      var front, back := text[..start], text[start..];
      assert front + back == text;
      NextOpenAgain(text, 0);
      NextOpenInSuffix(front, back, 0);
      NextCloseInSuffix(front, back, 8);
    case Block(start, end) =>
      BufferIsSettled(text[end..]);
  }

  // ------------------------------------------------------------------
  // Well-formed documents
  // ------------------------------------------------------------------

  /**
   One element of an export and the text in front of it. `inner` is everything between the tag
   name and the closing tag: attributes and content for a voucher, `>` and a number for the
   company counter.
   */
  datatype Piece = Piece(filler: string, tag: string, inner: string)

  ghost predicate WellFormed(p: Piece) {
    && NextOpen(p.filler, 0) == |p.filler|
    && |p.tag| == 8 && (forall k | 0 <= k < 8 :: Matches(p.tag[k], TagChar(k)))
    && p.inner != [] && (IsSpace(p.inner[0]) || p.inner[0] == '>')
    && NextClose(p.inner, 0) == |p.inner|
  }

  function CloseText(): (r: string)
    ensures |r| == 10 && forall k | 0 <= k < 10 :: r[k] == CloseChar(k)
  {
    seq(10, k requires 0 <= k < 10 => CloseChar(k))
  }

  function Render(p: Piece): string {
    p.tag + p.inner + CloseText()
  }

  /** White space and then a letter: the piece is a voucher. */
  predicate IsVoucher(p: Piece) {
    var k := SkipSpaces(p.inner, 0);
    0 < k < |p.inner| && IsNameStart(p.inner[k])
  }

  function Document(pieces: seq<Piece>, tail: string): string {
    if pieces == [] then tail else pieces[0].filler + (Render(pieces[0]) + Document(pieces[1..], tail))
  }

  function Vouchers(pieces: seq<Piece>): seq<string> {
    if pieces == [] then []
    else if IsVoucher(pieces[0]) then [Render(pieces[0])] + Vouchers(pieces[1..])
    else Vouchers(pieces[1..])
  }

  lemma {:induction false} OpensLater(s: string, i: nat, j: nat, k: nat)
    requires j <= k <= 8 && OpensFrom(s, i, j)
    ensures OpensFrom(s, i, k)
    decreases k - j
  {
    if j < k {
      OpensLater(s, i, j + 1, k);
    }
  }

  lemma {:induction false} ClosesLater(s: string, i: nat, j: nat, k: nat)
    requires j <= k <= 10 && ClosesFrom(s, i, j)
    ensures ClosesFrom(s, i, k)
    decreases k - j
  {
    if j < k {
      ClosesLater(s, i, j + 1, k);
    }
  }

  /** No tag opens in the filler and runs on into the `<` behind it. */
  lemma {:induction false} NoOpenAcross(a: string, u: string, i: nat)
    requires |a| - 8 <= i <= |a| && u != [] && u[0] == '<'
    ensures NextOpen(a + u, i) == NextOpen(a + u, |a|)
    decreases |a| - i
  {
    if i < |a| {
      if OpensAt(a + u, i) {
        OpensLater(a + u, i, 0, |a| - i);
      }
      NoOpenAcross(a, u, i + 1);
    }
  }

  /** No closing tag starts in the content and runs on into the `<` behind it. */
  lemma {:induction false} NoCloseAcross(a: string, u: string, i: nat)
    requires i <= |a| && u != [] && u[0] == '<' && NextClose(a, i) == |a|
    ensures NextClose(a + u, i) == NextClose(a + u, |a|)
    decreases |a| - i
  {
    if i < |a| {
      if i + 10 <= |a| {
        ClosesWithin(a + u, a, 0, i, 0);
      } else if ClosesAt(a + u, i) {
        ClosesLater(a + u, i, 0, |a| - i);
      }
      NoCloseAcross(a, u, i + 1);
    }
  }

  lemma {:induction false} FillerSkipped(filler: string, u: string)
    requires NextOpen(filler, 0) == |filler| && u != [] && u[0] == '<'
    ensures NextOpen(filler + u, 0) == NextOpen(filler + u, |filler|)
  {
    NextOpenMore(filler, u, 0);
    NoOpenAcross(filler, u, if |filler| > 8 then |filler| - 8 else 0);
  }

  lemma {:induction false} TagOpens(p: Piece, k: nat)
    requires WellFormed(p) && k <= 8
    ensures OpensFrom(Render(p), 0, k)
    decreases 8 - k
  {
    if k == 8 {
      assert Render(p)[8] == p.inner[0];
    } else {
      assert Render(p)[k] == p.tag[k];
      TagOpens(p, k + 1);
    }
  }

  lemma {:induction false} CloseCloses(d: string, k: nat)
    requires k <= 10
    ensures ClosesFrom(d + CloseText(), |d|, k)
    decreases 10 - k
  {
    if k < 10 {
      CloseCloses(d, k + 1);
    }
  }

  /** A rendered piece is one element, all of it. */
  lemma {:induction false} RenderIsElement(p: Piece)
    requires WellFormed(p)
    ensures FindBlock(Render(p)) == Block(0, |Render(p)|)
  {
    TagOpens(p, 0);
    var body := p.inner + CloseText();
    assert Render(p) == p.tag + body;
    NoCloseAcross(p.inner, CloseText(), 0);
    CloseCloses(p.inner, 0);
    NextCloseInSuffix(p.tag, body, 0);
  }

  lemma {:induction false} SpacesWithin(s: string, t: string, d: nat, i: nat)
    requires d + i <= |s| && i <= |t| && d + |t| < |s| && !IsSpace(s[d + |t|])
    requires forall j | i <= j < |t| :: s[d + j] == t[j]
    ensures SkipSpaces(s, d + i) == d + SkipSpaces(t, i)
    decreases |t| - i
  {
    if i < |t| {
      assert s[d + i] == t[i];
      if IsSpace(t[i]) {
        SpacesWithin(s, t, d, i + 1);
      }
    }
  }

  lemma {:induction false} AttributesOfRender(p: Piece)
    requires WellFormed(p)
    ensures HasAttributes(Render(p)) <==> IsVoucher(p)
  {
    var block := Render(p);
    assert block[8 + |p.inner|] == CloseText()[0] == '<';
    assert forall j | 0 <= j < |p.inner| :: block[8 + j] == p.inner[j];
    SpacesWithin(block, p.inner, 8, 0);
  }

  lemma {:induction false} ScanPiece(p: Piece, u: string)
    requires WellFormed(p)
    ensures Scan(p.filler + (Render(p) + u)) == Emit(Render(p), Scan(u))
  {
    var block := Render(p);
    var t := block + u;
    TagOpens(p, 0);
    RenderIsElement(p);
    FindBlockBefore(block, u);
    assert t[0] == block[0] == '<';
    FillerSkipped(p.filler, t);
    FindBlockAfter(p.filler, t);
    ScanAfter(p.filler, t);
    assert t[0..|block|] == block && t[|block|..] == u;
  }

  /**
   A well-formed document gives exactly its vouchers, in order, whatever stands between them;
   the counters give nothing, and the tail is scanned as if it stood alone.
   */
  lemma {:induction false} DocumentGivesItsVouchers(pieces: seq<Piece>, tail: string)
    requires forall i | 0 <= i < |pieces| :: WellFormed(pieces[i])
    ensures Scan(Document(pieces, tail)) == Scanned(Vouchers(pieces) + Scan(tail).blocks, Scan(tail).rest)
    decreases |pieces|
  {
    if pieces != [] {
      var later := Document(pieces[1..], tail);
      DocumentGivesItsVouchers(pieces[1..], tail);
      ScanPiece(pieces[0], later);
      AttributesOfRender(pieces[0]);
      EmitFirst(Render(pieces[0]), Scanned(Vouchers(pieces[1..]), ""), Scan(tail));
    }
  }
}
