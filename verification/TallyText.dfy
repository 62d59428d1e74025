/**
 Repair of Tally's XML text: numeric character references to code points that XML 1.0 forbids
 are dropped before the text reaches a parser.

 The references are recognised by a small automaton, one step a character. `dec` says which
 characters count as decimal digits and for how much: the regular expression class `\d` takes
 every Unicode decimal digit, and which those are depends on the Unicode version, so the
 theorems hold for every such classification that is right about ASCII.
 */
module TallyText {
  import opened Prelude

  type Digits = char -> Option<nat>

  /** Right about ASCII: the ten digits, and nothing else below 128. */
  ghost predicate Standard(dec: Digits) {
    forall c: char | c as int < 128 :: dec(c) == if '0' <= c <= '9' then Some(c as int - 48) else None
  }

  function HexValue(c: char): (v: Option<nat>)
    ensures v.Some? ==> c as int < 128
  {
    if '0' <= c <= '9' then Some(c as int - 48)
    else if 'a' <= c <= 'f' then Some(c as int - 87)
    else if 'A' <= c <= 'F' then Some(c as int - 55)
    else None
  }

  /** Tab, line feed, carriage return, and everything from the space on. */
  predicate Allowed(n: nat) {
    n == 0x09 || n == 0x0A || n == 0x0D || n >= 0x20
  }

  // ------------------------------------------------------------------
  // The pattern  &#(?:(\d+)|[xX]([0-9a-fA-F]+));
  // ------------------------------------------------------------------

  /** How far the pattern has been matched; `n` is the number read so far. */
  datatype State = Begin | Amp | Hash | Dec(n: nat) | HexMark | Hex(n: nat) | Done(n: nat) | Dead

  function Step(dec: Digits, q: State, c: char): State {
    match q
    case Begin => if c == '&' then Amp else Dead
    case Amp => if c == '#' then Hash else Dead
    case Hash =>
      if dec(c).Some? then Dec(dec(c).value) else if c == 'x' || c == 'X' then HexMark else Dead
    case Dec(n) =>
      if dec(c).Some? then Dec(10 * n + dec(c).value) else if c == ';' then Done(n) else Dead
    case HexMark => if HexValue(c).Some? then Hex(HexValue(c).value) else Dead
    case Hex(n) =>
      if HexValue(c).Some? then Hex(16 * n + HexValue(c).value) else if c == ';' then Done(n) else Dead
    case Done(n) => Dead
    case Dead => Dead
  }

  /** A match at the head of a text: its length and the code point it names. */
  datatype Reference = Reference(length: nat, code: nat)

  function Match(dec: Digits, q: State, s: string): (r: Option<Reference>)
    ensures r.Some? ==> 0 < r.value.length <= |s|
    decreases |s|
  {
    if s == "" then None
    else
      match Step(dec, q, s[0])
      case Dead => None
      case Done(n) => Some(Reference(1, n))
      case next =>
        match Match(dec, next, s[1..])
        case None => None
        case Some(r) => Some(Reference(r.length + 1, r.code))
  }

  function ReferenceAt(dec: Digits, s: string): (r: Option<Reference>)
    ensures r.Some? ==> 0 < r.value.length <= |s|
  {
    Match(dec, Begin, s)
  }

  /** A reference that must go stands at the head of the text. */
  predicate Forbidden(dec: Digits, s: string) {
    var r := ReferenceAt(dec, s);
    r.Some? && !Allowed(r.value.code)
  }

  /** No forbidden reference anywhere in the text. */
  ghost predicate Clean(dec: Digits, s: string) {
    s != "" ==> !Forbidden(dec, s) && Clean(dec, s[1..])
  }

  /** Replace every match: an allowed reference by itself, a forbidden one by nothing. */
  function Sanitize(dec: Digits, s: string): string
    decreases |s|
  {
    if s == "" then ""
    else
      match ReferenceAt(dec, s)
      case None => [s[0]] + Sanitize(dec, s[1..])
      case Some(r) =>
        if Allowed(r.code) then s[..r.length] + Sanitize(dec, s[r.length..])
        else Sanitize(dec, s[r.length..])
  }

  // ------------------------------------------------------------------
  // Text that XML 1.0 accepts, section 4.1: every `&` opens a terminated reference
  // ------------------------------------------------------------------

  datatype Item =
    | Raw(c: char)
    | DecRef(digits: string)
    | HexRef(mark: char, digits: string)
    | Entity(name: string)

  ghost predicate Valid(dec: Digits, item: Item) {
    match item
    case Raw(c) => c != '&'
    case DecRef(digits) => digits != "" && forall i | 0 <= i < |digits| :: dec(digits[i]).Some?
    case HexRef(mark, digits) =>
      (mark == 'x' || mark == 'X') && digits != "" && forall i | 0 <= i < |digits| :: HexValue(digits[i]).Some?
    case Entity(name) =>
      name != "" && name[0] != '#' && forall i | 0 <= i < |name| :: name[i] != '&' && name[i] != ';'
  }

  function Render(item: Item): (s: string)
    ensures s != ""
  {
    match item
    case Raw(c) => [c]
    case DecRef(digits) => ['&', '#'] + (digits + [';'])
    case HexRef(mark, digits) => ['&', '#', mark] + (digits + [';'])
    case Entity(name) => ['&'] + (name + [';'])
  }

  function RenderAll(items: seq<Item>): string {
    if items == [] then "" else Render(items[0]) + RenderAll(items[1..])
  }

  /** The number that `digits` continue from `n`, in base ten. */
  function DecNumber(dec: Digits, n: nat, digits: string): nat
    decreases |digits|
  {
    if digits == "" then n
    else DecNumber(dec, 10 * n + if dec(digits[0]).Some? then dec(digits[0]).value else 0, digits[1..])
  }

  function HexNumber(n: nat, digits: string): nat
    decreases |digits|
  {
    if digits == "" then n
    else HexNumber(16 * n + if HexValue(digits[0]).Some? then HexValue(digits[0]).value else 0, digits[1..])
  }

  /** What an item means: one code point, or an entity that is defined elsewhere. */
  datatype Symbol = Code(n: nat) | Named(name: string)

  function Meaning(dec: Digits, item: Item): Symbol {
    match item
    case Raw(c) => Code(c as int)
    case DecRef(digits) => Code(DecNumber(dec, 0, digits))
    case HexRef(_, digits) => Code(HexNumber(0, digits))
    case Entity(name) => Named(name)
  }

  function Expand(dec: Digits, items: seq<Item>): seq<Symbol> {
    if items == [] then [] else [Meaning(dec, items[0])] + Expand(dec, items[1..])
  }

  /** A numeric reference whose code point is forbidden. */
  predicate Dropped(dec: Digits, item: Item) {
    (item.DecRef? || item.HexRef?) && !Allowed(Meaning(dec, item).n)
  }

  function Kept(dec: Digits, items: seq<Item>): seq<Item> {
    if items == [] then []
    else if Dropped(dec, items[0]) then Kept(dec, items[1..])
    else [items[0]] + Kept(dec, items[1..])
  }

  /** The symbols without the forbidden code points. */
  function Permitted(symbols: seq<Symbol>): seq<Symbol> {
    if symbols == [] then []
    else if symbols[0].Code? && !Allowed(symbols[0].n) then Permitted(symbols[1..])
    else [symbols[0]] + Permitted(symbols[1..])
  }

  ghost predicate AllValid(dec: Digits, items: seq<Item>) {
    forall i | 0 <= i < |items| :: Valid(dec, items[i])
  }

  // ------------------------------------------------------------------
  // Sanitizing a well-formed text
  // ------------------------------------------------------------------

  lemma {:induction false} MatchDec(dec: Digits, n: nat, digits: string, rest: string)
    requires Standard(dec)
    requires forall i | 0 <= i < |digits| :: dec(digits[i]).Some?
    ensures Match(dec, Dec(n), digits + [';'] + rest) == Some(Reference(|digits| + 1, DecNumber(dec, n, digits)))
    decreases |digits|
  {
    var s := digits + [';'] + rest;
    assert dec(';') == None;
    if digits == "" {
      assert s[0] == ';';
    } else {
      var m := 10 * n + dec(digits[0]).value;
      assert s[1..] == digits[1..] + [';'] + rest;
      MatchDec(dec, m, digits[1..], rest);
      assert Step(dec, Dec(n), s[0]) == Dec(m);
    }
  }

  lemma {:induction false} MatchHex(dec: Digits, n: nat, digits: string, rest: string)
    requires forall i | 0 <= i < |digits| :: HexValue(digits[i]).Some?
    ensures Match(dec, Hex(n), digits + [';'] + rest) == Some(Reference(|digits| + 1, HexNumber(n, digits)))
    decreases |digits|
  {
    var s := digits + [';'] + rest;
    if digits == "" {
      assert s[0] == ';';
    } else {
      var m := 16 * n + HexValue(digits[0]).value;
      assert s[1..] == digits[1..] + [';'] + rest;
      MatchHex(dec, m, digits[1..], rest);
      assert Step(dec, Hex(n), s[0]) == Hex(m);
    }
  }

  /** `r`, one character further on. */
  function Longer(r: Option<Reference>): Option<Reference> {
    if r.Some? then Some(Reference(r.value.length + 1, r.value.code)) else None
  }

  /** One character that the pattern takes before it goes on. */
  lemma {:induction false} MatchOne(dec: Digits, q: State, c: char, u: string)
    requires !Step(dec, q, c).Dead? && !Step(dec, q, c).Done?
    ensures Match(dec, q, [c] + u) == Longer(Match(dec, Step(dec, q, c), u))
  {
    assert ([c] + u)[1..] == u;
  }

  lemma {:induction false} MatchOpening(dec: Digits, u: string)
    ensures ReferenceAt(dec, ['&', '#'] + u) == Longer(Longer(Match(dec, Hash, u)))
  {
    MatchOne(dec, Amp, '#', u);
    MatchOne(dec, Begin, '&', ['#'] + u);
    assert ['&'] + (['#'] + u) == ['&', '#'] + u;
  }

  lemma {:induction false} ReferenceOfDec(dec: Digits, digits: string, rest: string)
    requires Standard(dec) && Valid(dec, DecRef(digits))
    ensures ReferenceAt(dec, Render(DecRef(digits)) + rest) ==
            Some(Reference(|Render(DecRef(digits))|, DecNumber(dec, 0, digits)))
  {
    var u := digits[1..] + [';'] + rest;
    MatchDec(dec, dec(digits[0]).value, digits[1..], rest);
    MatchOne(dec, Hash, digits[0], u);
    MatchOpening(dec, [digits[0]] + u);
    assert Render(DecRef(digits)) + rest == ['&', '#'] + ([digits[0]] + u);
  }

  lemma {:induction false} ReferenceOfHex(dec: Digits, mark: char, digits: string, rest: string)
    requires Standard(dec) && Valid(dec, HexRef(mark, digits))
    ensures ReferenceAt(dec, Render(HexRef(mark, digits)) + rest) ==
            Some(Reference(|Render(HexRef(mark, digits))|, HexNumber(0, digits)))
  {
    var u := digits + [';'] + rest;
    MatchHexMark(dec, digits, rest);
    assert dec(mark) == None;
    MatchOne(dec, Hash, mark, u);
    MatchOpening(dec, [mark] + u);
    assert Render(HexRef(mark, digits)) + rest == ['&', '#'] + ([mark] + u);
  }

  lemma {:induction false} MatchHexMark(dec: Digits, digits: string, rest: string)
    requires digits != "" && forall i | 0 <= i < |digits| :: HexValue(digits[i]).Some?
    ensures Match(dec, HexMark, digits + [';'] + rest) == Some(Reference(|digits| + 1, HexNumber(0, digits)))
  {
    var u := digits[1..] + [';'] + rest;
    MatchHex(dec, HexValue(digits[0]).value, digits[1..], rest);
    MatchOne(dec, HexMark, digits[0], u);
    assert digits + [';'] + rest == [digits[0]] + u;
  }

  lemma {:induction false} PlainText(dec: Digits, t: string, rest: string)
    requires forall i | 0 <= i < |t| :: t[i] != '&'
    ensures Sanitize(dec, t + rest) == t + Sanitize(dec, rest)
  {
    if t == "" {
      assert t + rest == rest;
    } else {
      var s := t + rest;
      assert s[0] == t[0] && s[1..] == t[1..] + rest;
      assert ReferenceAt(dec, s) == None;
      PlainText(dec, t[1..], rest);
      assert [t[0]] + (t[1..] + Sanitize(dec, rest)) == t + Sanitize(dec, rest);
    }
  }

  /** A `&` without `#` behind it opens no reference, and stays. */
  lemma {:induction false} BareAmpersand(dec: Digits, s: string)
    requires s != "" && s[0] != '#'
    ensures ReferenceAt(dec, "&" + s) == None
    ensures Sanitize(dec, "&" + s) == "&" + Sanitize(dec, s)
  {
    assert ("&" + s)[1..] == s;
    assert Match(dec, Amp, s) == None;
  }

  lemma {:induction false} EntityText(dec: Digits, name: string, rest: string)
    requires Valid(dec, Entity(name))
    ensures Sanitize(dec, Render(Entity(name)) + rest) == Render(Entity(name)) + Sanitize(dec, rest)
  {
    var t := name + [';'];
    assert Render(Entity(name)) + rest == "&" + (t + rest);
    BareAmpersand(dec, t + rest);
    PlainText(dec, t, rest);
    assert "&" + (t + Sanitize(dec, rest)) == Render(Entity(name)) + Sanitize(dec, rest);
  }

  lemma {:induction false} SanitizeReference(dec: Digits, text: string, code: nat, rest: string)
    requires text != "" && ReferenceAt(dec, text + rest) == Some(Reference(|text|, code))
    ensures Sanitize(dec, text + rest) == (if Allowed(code) then text else "") + Sanitize(dec, rest)
  {
    assert (text + rest)[..|text|] == text && (text + rest)[|text|..] == rest;
    assert "" + Sanitize(dec, rest) == Sanitize(dec, rest);
  }

  lemma {:induction false} SanitizeItem(dec: Digits, item: Item, rest: string)
    requires Standard(dec) && Valid(dec, item)
    ensures Sanitize(dec, Render(item) + rest) ==
            (if Dropped(dec, item) then "" else Render(item)) + Sanitize(dec, rest)
  {
    match item
    case Raw(c) =>
      PlainText(dec, [c], rest);
    case DecRef(digits) =>
      ReferenceOfDec(dec, digits, rest);
      SanitizeReference(dec, Render(item), DecNumber(dec, 0, digits), rest);
    case HexRef(mark, digits) =>
      ReferenceOfHex(dec, mark, digits, rest);
      SanitizeReference(dec, Render(item), HexNumber(0, digits), rest);
    case Entity(name) =>
      EntityText(dec, name, rest);
  }

  /** Sanitizing drops exactly the forbidden references, each as a whole, and nothing else. */
  lemma {:induction false} SanitizeDropsForbidden(dec: Digits, items: seq<Item>)
    requires Standard(dec) && AllValid(dec, items)
    ensures AllValid(dec, Kept(dec, items))
    ensures Sanitize(dec, RenderAll(items)) == RenderAll(Kept(dec, items))
    decreases |items|
  {
    if items != [] {
      SanitizeDropsForbidden(dec, items[1..]);
      SanitizeItem(dec, items[0], RenderAll(items[1..]));
      var kept := Kept(dec, items[1..]);
      assert "" + RenderAll(kept) == RenderAll(kept);
      assert ([items[0]] + kept)[1..] == kept;
    }
  }

  // ------------------------------------------------------------------
  // Clean texts are the fixed points
  // ------------------------------------------------------------------

  /** Past its first character a match holds no `&`, and only its own characters matter. */
  lemma {:induction false} InsideMatch(dec: Digits, q: State, s: string, u: string)
    requires Standard(dec) && q != Begin && Match(dec, q, s).Some?
    ensures
      var n := Match(dec, q, s).value.length;
      && (forall i | 0 <= i < n :: s[i] != '&')
      && Match(dec, q, s[..n] + u) == Match(dec, q, s)
    decreases |s|
  {
    assert dec('&') == None;
    var n := Match(dec, q, s).value.length;
    var t := s[..n] + u;
    var next := Step(dec, q, s[0]);
    assert t[0] == s[0];
    if !next.Done? {
      InsideMatch(dec, next, s[1..], u);
      assert t[1..] == s[1..][..n - 1] + u;
      assert forall i | 1 <= i < n :: s[i] == s[1..][i - 1];
    }
  }

  lemma {:induction false} InsideReference(dec: Digits, s: string, u: string)
    requires Standard(dec) && ReferenceAt(dec, s).Some?
    ensures
      var n := ReferenceAt(dec, s).value.length;
      && (forall i | 1 <= i < n :: s[i] != '&')
      && ReferenceAt(dec, s[..n] + u) == ReferenceAt(dec, s)
  {
    var n := ReferenceAt(dec, s).value.length;
    var t := s[..n] + u;
    assert s[0] == '&' && t[0] == s[0];
    InsideMatch(dec, Amp, s[1..], u);
    assert t[1..] == s[1..][..n - 1] + u;
    assert forall i | 1 <= i < n :: s[i] == s[1..][i - 1];
  }

  lemma {:induction false} NotAtPlain(dec: Digits, s: string)
    requires s == "" || s[0] != '&'
    ensures ReferenceAt(dec, s) == None
  {
  }

  /** Text without `&` in front of `u` does not change whether it is clean. */
  lemma {:induction false} CleanAfterPlain(dec: Digits, t: string, u: string)
    requires forall i | 0 <= i < |t| :: t[i] != '&'
    ensures Clean(dec, t + u) <==> Clean(dec, u)
  {
    if t == "" {
      assert t + u == u;
    } else {
      assert (t + u)[0] == t[0] && (t + u)[1..] == t[1..] + u;
      NotAtPlain(dec, t + u);
      CleanAfterPlain(dec, t[1..], u);
    }
  }

  /** An allowed reference in front of `u` does not change whether it is clean. */
  lemma {:induction false} CleanAfterAllowed(dec: Digits, s: string, u: string)
    requires Standard(dec) && ReferenceAt(dec, s).Some? && Allowed(ReferenceAt(dec, s).value.code)
    ensures Clean(dec, s[..ReferenceAt(dec, s).value.length] + u) <==> Clean(dec, u)
  {
    var n := ReferenceAt(dec, s).value.length;
    InsideReference(dec, s, u);
    var t := s[..n];
    assert (t + u)[1..] == t[1..] + u;
    CleanAfterPlain(dec, t[1..], u);
  }

  lemma {:induction false} SanitizeShortens(dec: Digits, s: string)
    requires Standard(dec)
    ensures |Sanitize(dec, s)| <= |s|
    ensures |Sanitize(dec, s)| == |s| ==> Clean(dec, s)
    decreases |s|
  {
    if s != "" {
      match ReferenceAt(dec, s)
      case None =>
        SanitizeShortens(dec, s[1..]);
      case Some(r) =>
        SanitizeShortens(dec, s[r.length..]);
        if Allowed(r.code) {
          assert s == s[..r.length] + s[r.length..];
          CleanAfterAllowed(dec, s, s[r.length..]);
        }
    }
  }

  lemma {:induction false} CleanIsKept(dec: Digits, s: string)
    requires Standard(dec) && Clean(dec, s)
    ensures Sanitize(dec, s) == s
    decreases |s|
  {
    if s != "" {
      match ReferenceAt(dec, s)
      case None =>
        CleanIsKept(dec, s[1..]);
      case Some(r) =>
        assert s == s[..r.length] + s[r.length..];
        CleanAfterAllowed(dec, s, s[r.length..]);
        CleanIsKept(dec, s[r.length..]);
    }
  }

  /** Sanitizing leaves a text alone exactly when it holds no forbidden reference. */
  lemma {:induction false} FixedPointsAreClean(dec: Digits, s: string)
    requires Standard(dec)
    ensures Sanitize(dec, s) == s <==> Clean(dec, s)
  {
    SanitizeShortens(dec, s);
    if Clean(dec, s) {
      CleanIsKept(dec, s);
    }
  }

  lemma {:induction false} KeptTwice(dec: Digits, items: seq<Item>)
    ensures Kept(dec, Kept(dec, items)) == Kept(dec, items)
  {
    if items != [] {
      KeptTwice(dec, items[1..]);
      assert ([items[0]] + Kept(dec, items[1..]))[1..] == Kept(dec, items[1..]);
    }
  }

  /** On a well-formed text one pass is enough: the result is clean, and a second pass changes nothing. */
  lemma {:induction false} WellFormedBecomesClean(dec: Digits, items: seq<Item>)
    requires Standard(dec) && AllValid(dec, items)
    ensures var once := Sanitize(dec, RenderAll(items)); Clean(dec, once) && Sanitize(dec, once) == once
  {
    SanitizeDropsForbidden(dec, items);
    SanitizeDropsForbidden(dec, Kept(dec, items));
    KeptTwice(dec, items);
    FixedPointsAreClean(dec, RenderAll(Kept(dec, items)));
  }

  // ------------------------------------------------------------------
  // Reading a text: every well-formed text has exactly one reading
  // ------------------------------------------------------------------

  /** The first place at or after `i` with `&` or `;`, or the end of the text. */
  function NameEnd(s: string, i: nat): (j: nat)
    requires i <= |s|
    ensures i <= j <= |s|
    ensures forall k | i <= k < j :: s[k] != '&' && s[k] != ';'
    ensures j < |s| ==> s[j] == '&' || s[j] == ';'
    decreases |s| - i
  {
    if i == |s| || s[i] == '&' || s[i] == ';' then i else NameEnd(s, i + 1)
  }

  /** The item at the head of a text; none when a `&` opens no terminated reference. */
  function ParseItem(dec: Digits, s: string): Option<Item>
    requires s != ""
  {
    if s[0] != '&' then Some(Raw(s[0]))
    else
      match ReferenceAt(dec, s)
      case Some(r) =>
        if r.length < 4 then None
        else if dec(s[2]).Some? then Some(DecRef(s[2..r.length - 1]))
        else Some(HexRef(s[2], s[3..r.length - 1]))
      case None =>
        var j := NameEnd(s, 1);
        if 1 < j < |s| && s[j] == ';' && s[1] != '#' then Some(Entity(s[1..j])) else None
  }

  lemma {:induction false} DecShape(dec: Digits, n: nat, s: string)
    requires Match(dec, Dec(n), s).Some?
    ensures
      var m := Match(dec, Dec(n), s).value.length - 1;
      && s[m] == ';'
      && (forall i | 0 <= i < m :: dec(s[i]).Some?)
    decreases |s|
  {
    if dec(s[0]).Some? {
      DecShape(dec, 10 * n + dec(s[0]).value, s[1..]);
      var m := Match(dec, Dec(n), s).value.length - 1;
      assert forall i | 1 <= i < m :: s[i] == s[1..][i - 1];
    }
  }

  lemma {:induction false} HexShape(dec: Digits, n: nat, s: string)
    requires Match(dec, Hex(n), s).Some?
    ensures
      var m := Match(dec, Hex(n), s).value.length - 1;
      && s[m] == ';'
      && (forall i | 0 <= i < m :: HexValue(s[i]).Some?)
    decreases |s|
  {
    if HexValue(s[0]).Some? {
      HexShape(dec, 16 * n + HexValue(s[0]).value, s[1..]);
      var m := Match(dec, Hex(n), s).value.length - 1;
      assert forall i | 1 <= i < m :: s[i] == s[1..][i - 1];
    }
  }

  lemma {:induction false} HashShape(dec: Digits, s: string)
    requires Match(dec, Hash, s).Some?
    ensures
      var n := Match(dec, Hash, s).value.length;
      && n >= 2 && s[n - 1] == ';'
      && if dec(s[0]).Some? then forall i | 0 <= i < n - 1 :: dec(s[i]).Some?
         else n >= 3 && (s[0] == 'x' || s[0] == 'X') && forall i | 1 <= i < n - 1 :: HexValue(s[i]).Some?
  {
    var n := Match(dec, Hash, s).value.length;
    var t := s[1..];
    if dec(s[0]).Some? {
      DecShape(dec, dec(s[0]).value, t);
      assert forall i | 1 <= i < n :: s[i] == t[i - 1];
    } else {
      var u := t[1..];
      HexShape(dec, HexValue(t[0]).value, u);
      assert forall i | 1 <= i < n :: s[i] == t[i - 1];
      assert forall i | 1 <= i < n - 1 :: t[i] == u[i - 1];
    }
  }

  lemma {:induction false} AmpShape(dec: Digits, s: string)
    requires Match(dec, Amp, s).Some?
    ensures s[0] == '#' && Match(dec, Amp, s) == Longer(Match(dec, Hash, s[1..]))
  {
  }

  lemma {:induction false} OpeningShape(dec: Digits, s: string)
    requires ReferenceAt(dec, s).Some?
    ensures |s| >= 2 && s[0] == '&' && s[1] == '#'
    ensures ReferenceAt(dec, s) == Longer(Longer(Match(dec, Hash, s[2..])))
  {
    var t := s[1..];
    assert s[0] == '&' && Match(dec, Amp, t).Some?;
    AmpShape(dec, t);
    assert t[1..] == s[2..];
  }

  /** A front part, a middle part and one character. */
  lemma {:induction false} Framed(s: string, a: nat, n: nat)
    requires a < n <= |s|
    ensures s[..n] == s[..a] + (s[a..n - 1] + [s[n - 1]])
  {
  }

  lemma {:induction false} DecStands(dec: Digits, s: string, n: nat)
    requires 4 <= n <= |s| && s[0] == '&' && s[1] == '#' && s[n - 1] == ';'
    requires forall i | 2 <= i < n - 1 :: dec(s[i]).Some?
    ensures Valid(dec, DecRef(s[2..n - 1])) && Render(DecRef(s[2..n - 1])) == s[..n]
  {
    Framed(s, 2, n);
    assert s[..2] == ['&', '#'];
  }

  lemma {:induction false} HexStands(dec: Digits, s: string, n: nat)
    requires 5 <= n <= |s| && s[0] == '&' && s[1] == '#' && s[n - 1] == ';'
    requires (s[2] == 'x' || s[2] == 'X') && forall i | 3 <= i < n - 1 :: HexValue(s[i]).Some?
    ensures Valid(dec, HexRef(s[2], s[3..n - 1])) && Render(HexRef(s[2], s[3..n - 1])) == s[..n]
  {
    Framed(s, 3, n);
    assert s[..3] == ['&', '#', s[2]];
  }

  lemma {:induction false} ReferenceStands(dec: Digits, s: string)
    requires ReferenceAt(dec, s).Some?
    ensures ParseItem(dec, s).Some?
    ensures
      var item := ParseItem(dec, s).value;
      Valid(dec, item) && |Render(item)| <= |s| && Render(item) == s[..|Render(item)|]
  {
    var n := ReferenceAt(dec, s).value.length;
    OpeningShape(dec, s);
    var u := s[2..];
    HashShape(dec, u);
    assert forall i | 2 <= i < n :: s[i] == u[i - 2];
    if dec(s[2]).Some? {
      DecStands(dec, s, n);
    } else {
      HexStands(dec, s, n);
    }
  }

  lemma {:induction false} EntityStands(dec: Digits, s: string, j: nat)
    requires 1 < j < |s| && s[0] == '&' && s[j] == ';' && s[1] != '#'
    requires forall k | 1 <= k < j :: s[k] != '&' && s[k] != ';'
    ensures Valid(dec, Entity(s[1..j])) && Render(Entity(s[1..j])) == s[..j + 1]
  {
    Framed(s, 1, j + 1);
    assert s[..1] == ['&'] && s[1..j][0] == s[1];
  }

  /** What `ParseItem` reads is what stands there. */
  lemma {:induction false} ParsedItemStands(dec: Digits, s: string)
    requires s != "" && ParseItem(dec, s).Some?
    ensures
      var item := ParseItem(dec, s).value;
      Valid(dec, item) && |Render(item)| <= |s| && Render(item) == s[..|Render(item)|]
  {
    if s[0] == '&' {
      if ReferenceAt(dec, s).Some? {
        ReferenceStands(dec, s);
      } else {
        EntityStands(dec, s, NameEnd(s, 1));
      }
    }
  }

  /** The items of a well-formed text. */
  function Parse(dec: Digits, s: string): Option<seq<Item>>
    decreases |s|
  {
    if s == "" then Some([])
    else
      match ParseItem(dec, s)
      case None => None
      case Some(item) =>
        ParsedItemStands(dec, s);
        match Parse(dec, s[|Render(item)|..])
        case None => None
        case Some(later) => Some([item] + later)
  }

  lemma {:induction false} ParseThenRender(dec: Digits, s: string)
    requires Parse(dec, s).Some?
    ensures AllValid(dec, Parse(dec, s).value) && RenderAll(Parse(dec, s).value) == s
    decreases |s|
  {
    if s != "" {
      var item := ParseItem(dec, s).value;
      ParsedItemStands(dec, s);
      var later := s[|Render(item)|..];
      ParseThenRender(dec, later);
      assert ([item] + Parse(dec, later).value)[1..] == Parse(dec, later).value;
      assert s == Render(item) + later;
    }
  }

  lemma {:induction false} NameEndIs(s: string, i: nat, j: nat)
    requires i <= j < |s| && s[j] == ';' && forall k | i <= k < j :: s[k] != '&' && s[k] != ';'
    ensures NameEnd(s, i) == j
    decreases j - i
  {
    if i < j {
      NameEndIs(s, i + 1, j);
    }
  }

  lemma {:induction false} ParseDecItem(dec: Digits, digits: string, rest: string)
    requires Standard(dec) && Valid(dec, DecRef(digits))
    ensures ParseItem(dec, Render(DecRef(digits)) + rest) == Some(DecRef(digits))
  {
    var s := Render(DecRef(digits)) + rest;
    ReferenceOfDec(dec, digits, rest);
    assert s[2] == digits[0];
    assert s[2..2 + |digits|] == digits;
  }

  lemma {:induction false} ParseHexItem(dec: Digits, mark: char, digits: string, rest: string)
    requires Standard(dec) && Valid(dec, HexRef(mark, digits))
    ensures ParseItem(dec, Render(HexRef(mark, digits)) + rest) == Some(HexRef(mark, digits))
  {
    var s := Render(HexRef(mark, digits)) + rest;
    ReferenceOfHex(dec, mark, digits, rest);
    assert s[2] == mark && dec(mark) == None;
    assert s[3..3 + |digits|] == digits;
  }

  lemma {:induction false} ParseEntity(dec: Digits, name: string, rest: string)
    requires Valid(dec, Entity(name))
    ensures ParseItem(dec, Render(Entity(name)) + rest) == Some(Entity(name))
  {
    var s := Render(Entity(name)) + rest;
    var t := name + [';'] + rest;
    assert s == "&" + t && t[0] == name[0];
    BareAmpersand(dec, t);
    assert forall k | 0 <= k < |name| :: s[k + 1] == name[k];
    assert s[|name| + 1] == ';';
    NameEndIs(s, 1, |name| + 1);
    assert s[1..|name| + 1] == name;
  }

  lemma {:induction false} RenderThenParseItem(dec: Digits, item: Item, rest: string)
    requires Standard(dec) && Valid(dec, item)
    ensures ParseItem(dec, Render(item) + rest) == Some(item)
  {
    match item
    case Raw(c) =>
    case DecRef(digits) => ParseDecItem(dec, digits, rest);
    case HexRef(mark, digits) => ParseHexItem(dec, mark, digits, rest);
    case Entity(name) => ParseEntity(dec, name, rest);
  }

  lemma {:induction false} RenderThenParse(dec: Digits, items: seq<Item>)
    requires Standard(dec) && AllValid(dec, items)
    ensures Parse(dec, RenderAll(items)) == Some(items)
  {
    if items != [] {
      var later := RenderAll(items[1..]);
      var s := Render(items[0]) + later;
      RenderThenParseItem(dec, items[0], later);
      RenderThenParse(dec, items[1..]);
      ParsedItemStands(dec, s);
      assert s[|Render(items[0])|..] == later;
      assert RenderAll(items) == s && [items[0]] + items[1..] == items;
    }
  }

  /** A forbidden character that stands in the text itself. */
  predicate BareForbidden(item: Item) {
    item.Raw? && !Allowed(item.c as int)
  }

  ghost predicate NoneBare(items: seq<Item>) {
    forall i | 0 <= i < |items| :: !BareForbidden(items[i])
  }

  function CountBare(items: seq<Item>): (n: nat) {
    if items == [] then 0 else CountBare(items[1..]) + if BareForbidden(items[0]) then 1 else 0
  }

  lemma {:induction false} NoneBareIff(items: seq<Item>)
    ensures CountBare(items) == 0 <==> NoneBare(items)
  {
    if items != [] {
      var later := items[1..];
      NoneBareIff(later);
      assert forall i | 1 <= i < |items| :: items[i] == later[i - 1];
    }
  }

  lemma {:induction false} ExpandKept(dec: Digits, items: seq<Item>)
    ensures |Expand(dec, Kept(dec, items))| == |Permitted(Expand(dec, items))| + CountBare(items)
    ensures CountBare(items) == 0 ==> Expand(dec, Kept(dec, items)) == Permitted(Expand(dec, items))
  {
    if items != [] {
      var later := items[1..];
      ExpandKept(dec, later);
      assert ([Meaning(dec, items[0])] + Expand(dec, later))[1..] == Expand(dec, later);
      assert ([items[0]] + Kept(dec, later))[1..] == Kept(dec, later);
    }
  }

  /**
   Sanitizing keeps the meaning of every well-formed text: it stays well-formed, its items are
   the old ones without the forbidden references; and it expands to the old code points and names
   without the forbidden ones if and only if no forbidden character stands in it unescaped.
   */
  lemma {:induction false} SanitizeKeepsMeaning(dec: Digits, s: string)
    requires Standard(dec) && Parse(dec, s).Some?
    ensures
      var items := Parse(dec, s).value;
      var kept := Parse(dec, Sanitize(dec, s));
      && kept == Some(Kept(dec, items))
      && Clean(dec, Sanitize(dec, s))
      && (Expand(dec, kept.value) == Permitted(Expand(dec, items)) <==> NoneBare(items))
  {
    var items := Parse(dec, s).value;
    ParseThenRender(dec, s);
    SanitizeDropsForbidden(dec, items);
    RenderThenParse(dec, Kept(dec, items));
    WellFormedBecomesClean(dec, items);
    ExpandKept(dec, items);
    NoneBareIff(items);
  }

  // ------------------------------------------------------------------
  // Any text: when can a forbidden reference come into being?
  // ------------------------------------------------------------------

  /** The code point of a match that goes on through the references that are dropped on the way. */
  function SplicedMatch(dec: Digits, q: State, s: string): Option<nat>
    decreases |s|
  {
    if s == "" then None
    else if Forbidden(dec, s) then SplicedMatch(dec, q, s[ReferenceAt(dec, s).value.length..])
    else
      match Step(dec, q, s[0])
      case Dead => None
      case Done(n) => Some(n)
      case next => SplicedMatch(dec, next, s[1..])
  }

  /**
   Some `&` that opens no reference is continued, past references that are dropped, into a
   forbidden one.
   */
  predicate Spliced(dec: Digits, s: string)
    decreases |s|
  {
    s != "" &&
    match ReferenceAt(dec, s)
    case Some(r) => Spliced(dec, s[r.length..])
    case None =>
      || (s[0] == '&' && var m := SplicedMatch(dec, Amp, s[1..]); m.Some? && !Allowed(m.value))
      || Spliced(dec, s[1..])
  }

  lemma {:induction false} SplicedMatchIsMatch(dec: Digits, q: State, s: string)
    requires Standard(dec) && q != Begin
    ensures
      var m := Match(dec, q, Sanitize(dec, s));
      SplicedMatch(dec, q, s) == if m.Some? then Some(m.value.code) else None
    decreases |s|
  {
    if s != "" {
      assert dec('&') == None;
      var r := ReferenceAt(dec, s);
      if Forbidden(dec, s) {
        SplicedMatchIsMatch(dec, q, s[r.value.length..]);
      } else if r.Some? {
        assert Sanitize(dec, s)[0] == s[0] == '&';
      } else {
        var later := Sanitize(dec, s[1..]);
        assert ([s[0]] + later)[1..] == later;
        var next := Step(dec, q, s[0]);
        if !next.Dead? && !next.Done? {
          SplicedMatchIsMatch(dec, next, s[1..]);
        }
      }
    }
  }

  /** The result of one pass is clean exactly when nothing is spliced, whatever the text. */
  lemma {:induction false} CleanUnlessSpliced(dec: Digits, s: string)
    requires Standard(dec)
    ensures Clean(dec, Sanitize(dec, s)) <==> !Spliced(dec, s)
    decreases |s|
  {
    if s != "" {
      match ReferenceAt(dec, s)
      case Some(r) =>
        CleanUnlessSpliced(dec, s[r.length..]);
        if Allowed(r.code) {
          CleanAfterAllowed(dec, s, Sanitize(dec, s[r.length..]));
        }
      case None =>
        var later := Sanitize(dec, s[1..]);
        CleanUnlessSpliced(dec, s[1..]);
        SplicedMatchIsMatch(dec, Amp, s[1..]);
        assert ([s[0]] + later)[1..] == later;
    }
  }

  /** A second pass changes nothing exactly when nothing is spliced. */
  lemma {:induction false} IdempotentUnlessSpliced(dec: Digits, s: string)
    requires Standard(dec)
    ensures Sanitize(dec, Sanitize(dec, s)) == Sanitize(dec, s) <==> !Spliced(dec, s)
  {
    CleanUnlessSpliced(dec, s);
    FixedPointsAreClean(dec, Sanitize(dec, s));
  }

  /**
   Behind a bare `&`, one pass can create what it removes: `&`, a forbidden reference and the
   same reference without its `&` become that reference.
   */
  lemma {:induction false} BareAmpersandSplices(dec: Digits, digits: string)
    requires Standard(dec) && Valid(dec, DecRef(digits)) && Dropped(dec, DecRef(digits))
    ensures
      var reference := Render(DecRef(digits));
      var s := "&" + (reference + reference[1..]);
      Sanitize(dec, s) == reference && Forbidden(dec, reference) && Spliced(dec, s)
  {
    SpliceGives(dec, digits);
    var reference := Render(DecRef(digits));
    ReferenceOfDec(dec, digits, "");
    assert reference + "" == reference;
    CleanUnlessSpliced(dec, "&" + (reference + reference[1..]));
  }

  lemma {:induction false} SpliceGives(dec: Digits, digits: string)
    requires Standard(dec) && Valid(dec, DecRef(digits)) && Dropped(dec, DecRef(digits))
    ensures
      var reference := Render(DecRef(digits));
      Sanitize(dec, "&" + (reference + reference[1..])) == reference
  {
    var reference := Render(DecRef(digits));
    var tail := reference[1..];
    var s := reference + tail;
    SanitizeItem(dec, DecRef(digits), tail);
    BareAmpersand(dec, s);
    assert forall i | 0 <= i < |tail| :: tail[i] == (['#'] + digits + [';'])[i];
    assert forall i | 0 <= i < |digits| :: dec(digits[i]).Some? && dec('&') == None;
    PlainText(dec, tail, "");
    assert tail + "" == tail && "" + tail == tail && "&" + tail == reference;
  }

  /** The shortest case: `&&#4;#4;` becomes `&#4;`, which a second pass would remove. */
  lemma {:induction false} SpliceExample(dec: Digits)
    requires Standard(dec)
    ensures
      var four := Render(DecRef("4"));
      var s := "&" + (four + four[1..]);
      Sanitize(dec, s) == four && Sanitize(dec, four) != four
  {
    assert dec("4"[0]) == Some(4) && "4"[1..] == "";
    assert DecNumber(dec, 0, "4") == 4;
    BareAmpersandSplices(dec, "4");
    FixedPointsAreClean(dec, Render(DecRef("4")));
  }

  // ------------------------------------------------------------------
  // The code points
  // ------------------------------------------------------------------

  /** A control code that XML 1.0 forbids: below 32, and neither tab nor line feed nor carriage return. */
  predicate Control(n: nat) {
    n < 32 && n != 9 && n != 10 && n != 13
  }

  /** Hexadecimal digits in both cases, and no other character. */
  lemma {:induction false} HexDigitsAre(c: char)
    ensures forall v: nat | v < 10 :: HexValue(c) == Some(v) <==> c as int == 48 + v
    ensures forall v: nat | 10 <= v < 16 :: HexValue(c) == Some(v) <==> c as int == 87 + v || c as int == 55 + v
    ensures HexValue(c).Some? ==> HexValue(c).value < 16
  {
  }

  /** The last digit counts once, and everything in front of it ten times as much. */
  lemma {:induction false} LastDigit(dec: Digits, n: nat, digits: string, c: char)
    requires dec(c).Some?
    ensures DecNumber(dec, n, digits + [c]) == 10 * DecNumber(dec, n, digits) + dec(c).value
    decreases |digits|
  {
    if digits == "" {
      assert [c][1..] == "";
      assert DecNumber(dec, 10 * n + dec(c).value, "") == 10 * n + dec(c).value;
    } else {
      assert (digits + [c])[1..] == digits[1..] + [c];
      LastDigit(dec, 10 * n + if dec(digits[0]).Some? then dec(digits[0]).value else 0, digits[1..], c);
    }
  }

  /** In hexadecimal, sixteen times. */
  lemma {:induction false} LastHexDigit(n: nat, digits: string, c: char)
    requires HexValue(c).Some?
    ensures HexNumber(n, digits + [c]) == 16 * HexNumber(n, digits) + HexValue(c).value
    decreases |digits|
  {
    if digits == "" {
      assert [c][1..] == "";
      assert HexNumber(16 * n + HexValue(c).value, "") == 16 * n + HexValue(c).value;
    } else {
      assert (digits + [c])[1..] == digits[1..] + [c];
      LastHexDigit(16 * n + if HexValue(digits[0]).Some? then HexValue(digits[0]).value else 0, digits[1..], c);
    }
  }

  /** A reference that stands alone goes exactly if it names a control code, in either notation. */
  lemma {:induction false} ControlReferencesGo(dec: Digits, digits: string, mark: char)
    requires Standard(dec)
    ensures Valid(dec, DecRef(digits)) ==>
              var r := Render(DecRef(digits));
              Sanitize(dec, r) == if Control(DecNumber(dec, 0, digits)) then "" else r
    ensures Valid(dec, HexRef(mark, digits)) ==>
              var r := Render(HexRef(mark, digits));
              Sanitize(dec, r) == if Control(HexNumber(0, digits)) then "" else r
  {
    if Valid(dec, DecRef(digits)) {
      OneItem(dec, DecRef(digits));
    }
    if Valid(dec, HexRef(mark, digits)) {
      OneItem(dec, HexRef(mark, digits));
    }
  }

  lemma {:induction false} OneItem(dec: Digits, item: Item)
    requires Standard(dec) && Valid(dec, item)
    ensures Sanitize(dec, Render(item)) == if Dropped(dec, item) then "" else Render(item)
  {
    SanitizeItem(dec, item, "");
    assert Render(item) + "" == Render(item);
    assert Sanitize(dec, "") == "";
  }
}
