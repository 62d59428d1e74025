/**
 The connector's `.env` file: reading bindings, and writing them back with updates merged in.

 A dictionary is the sequence of its bindings, in the order in which the keys were first put.
 */
module EnvFile {
  import opened Prelude

  datatype Binding = Binding(key: string, value: string)

  type Env = seq<Binding>

  // ------------------------------------------------------------------
  // Dictionaries
  // ------------------------------------------------------------------

  function Find(env: Env, key: string, i: nat): (k: nat)
    requires i <= |env|
    ensures i <= k <= |env|
    ensures k < |env| ==> env[k].key == key
    ensures forall j | i <= j < k :: env[j].key != key
    decreases |env| - i
  {
    if i == |env| || env[i].key == key then i else Find(env, key, i + 1)
  }

  /** A key that is there keeps its place. */
  function Put(env: Env, b: Binding): Env {
    var k := Find(env, b.key, 0);
    if k < |env| then env[k := b] else env + [b]
  }

  /** `values.update(updates)`, after the first `n` updates. */
  function MergeTo(env: Env, updates: Env, n: nat): Env
    requires n <= |updates|
  {
    if n == 0 then env else Put(MergeTo(env, updates, n - 1), updates[n - 1])
  }

  function Merge(env: Env, updates: Env): Env {
    MergeTo(env, updates, |updates|)
  }

  ghost predicate Distinct(env: Env) {
    forall i, j | 0 <= i < j < |env| :: env[i].key != env[j].key
  }

  // ------------------------------------------------------------------
  // Reading
  // ------------------------------------------------------------------

  /** The line boundaries of `str.splitlines`; each of them is white space. */
  predicate IsBreak(c: char) {
    var n := c as int;
    0x0A <= n <= 0x0D || 0x1C <= n <= 0x1E || n == 0x85 || n == 0x2028 || n == 0x2029
  }

  ghost predicate OneLine(s: string) {
    forall i | 0 <= i < |s| :: !IsBreak(s[i])
  }

  /** Where the line that starts at `i` ends. */
  function LineEnd(text: string, i: nat): (k: nat)
    requires i <= |text|
    ensures i <= k <= |text|
    ensures k < |text| ==> IsBreak(text[k])
    decreases |text| - i
  {
    if i == |text| || IsBreak(text[i]) then i else LineEnd(text, i + 1)
  }

  lemma {:induction false} LineEndSkips(text: string, i: nat)
    requires i <= |text|
    ensures forall j | i <= j < LineEnd(text, i) :: !IsBreak(text[j])
    decreases |text| - i
  {
    if i < |text| && !IsBreak(text[i]) {
      LineEndSkips(text, i + 1);
    }
  }

  /** The lines from `i` on; a carriage return and a line feed are one boundary. */
  function LinesFrom(text: string, i: nat): seq<string>
    requires i <= |text|
    decreases |text| - i
  {
    var k := LineEnd(text, i);
    if i == |text| then []
    else if k == |text| then [text[i..]]
    else [text[i..k]] + LinesFrom(text, NextLine(text, k))
  }

  function NextLine(text: string, k: nat): (next: nat)
    requires k < |text|
    ensures k < next <= |text|
  {
    if text[k] == '\r' && k + 1 < |text| && text[k + 1] == '\n' then k + 2 else k + 1
  }

  lemma {:induction false} LinesAreLines(text: string, i: nat)
    requires i <= |text|
    ensures forall j | 0 <= j < |LinesFrom(text, i)| :: OneLine(LinesFrom(text, i)[j])
    decreases |text| - i
  {
    var k := LineEnd(text, i);
    LineEndSkips(text, i);
    if k < |text| {
      LinesAreLines(text, NextLine(text, k));
    }
  }

  /** The first equals sign from `i` on, or the end. */
  function Equals(s: string, i: nat): (k: nat)
    requires i <= |s|
    ensures i <= k <= |s|
    ensures k < |s| ==> s[k] == '='
    decreases |s| - i
  {
    if i == |s| || s[i] == '=' then i else Equals(s, i + 1)
  }

  lemma {:induction false} EqualsSkips(s: string, i: nat)
    requires i <= |s|
    ensures forall j | i <= j < Equals(s, i) :: s[j] != '='
    decreases |s| - i
  {
    if i < |s| && s[i] != '=' {
      EqualsSkips(s, i + 1);
    }
  }

  /** The binding of a line, unless it is blank, a comment or without an equals sign. */
  function Parse(line: string): Option<Binding> {
    var s := Strip(line);
    var k := Equals(s, 0);
    if s == [] || s[0] == '#' || k == |s| then None
    else Some(Binding(Strip(s[..k]), Strip(s[k + 1..])))
  }

  /** The results of a function on the first `n` lines. */
  function MapTo<T>(f: string -> T, lines: seq<string>, n: nat): (results: seq<T>)
    requires n <= |lines|
    ensures |results| == n
  {
    if n == 0 then [] else MapTo(f, lines, n - 1) + [f(lines[n - 1])]
  }

  lemma {:induction false} MappedAt<T>(f: string -> T, lines: seq<string>, n: nat, i: nat)
    requires i < n <= |lines|
    ensures MapTo(f, lines, n)[i] == f(lines[i])
    decreases n
  {
    if i < n - 1 {
      MappedAt(f, lines, n - 1, i);
    }
  }

  function ParseAll(lines: seq<string>): (parsed: seq<Option<Binding>>)
    ensures |parsed| == |lines|
  {
    MapTo(Parse, lines, |lines|)
  }

  /** The dictionary after the first `n` lines. */
  function PutTo(parsed: seq<Option<Binding>>, n: nat): Env
    requires n <= |parsed|
  {
    if n == 0 then []
    else if parsed[n - 1].None? then PutTo(parsed, n - 1)
    else Put(PutTo(parsed, n - 1), parsed[n - 1].value)
  }

  /** A file that does not exist binds nothing. */
  function Read(file: Option<string>): Env {
    if file.None? then [] else var parsed := ParseAll(LinesFrom(file.value, 0)); PutTo(parsed, |parsed|)
  }

  // ------------------------------------------------------------------
  // Writing
  // ------------------------------------------------------------------

  function LineOf(b: Binding): string {
    b.key + ['='] + b.value
  }

  /** The text of the first `n` bindings. */
  function PrintTo(env: Env, n: nat): string
    requires n <= |env|
  {
    if n == 0 then [] else PrintTo(env, n - 1) + (LineOf(env[n - 1]) + ['\n'])
  }

  function Print(env: Env): string {
    PrintTo(env, |env|)
  }

  class File {
    var text: Option<string>

    constructor (text: Option<string>)
      ensures this.text == text
    {
      this.text := text;
    }

    method ParseLine(line: string) returns (binding: Option<Binding>)
      ensures binding == Parse(line)
    {
      var stripped := Strip(line);
      if stripped == [] || stripped[0] == '#' {
        return None;
      }
      var k := Equals(stripped, 0);
      if k == |stripped| {
        return None;
      }
      return Some(Binding(Strip(stripped[..k]), Strip(stripped[k + 1..])));
    }

    method ReadEnvFile() returns (values: Env)
      ensures values == Read(text)
    {
      if text.None? {
        return [];
      }
      values := PutLines(LinesFrom(text.value, 0));
    }

    method ParseAt(lines: seq<string>, i: nat) returns (binding: Option<Binding>)
      requires i < |lines|
      ensures binding == ParseAll(lines)[i]
    {
      MappedAt(Parse, lines, |lines|, i);
      binding := ParseLine(lines[i]);
    }

    method PutLines(lines: seq<string>) returns (values: Env)
      ensures values == PutTo(ParseAll(lines), |lines|)
    {
      values := [];
      ghost var parsed := ParseAll(lines);
      for i := 0 to |lines|
        invariant values == PutTo(parsed, i)
      {
        var binding := ParseAt(lines, i);
        if binding.None? {
          continue;
        }
        values := Put(values, binding.value);
      }
    }

    method WriteEnvFile(updates: Env)
      modifies this
      ensures text == Some(Print(Merge(Read(old(text)), updates)))
    {
      var values := ReadEnvFile();
      ghost var before := values;
      for i := 0 to |updates|
        invariant values == MergeTo(before, updates, i)
      {
        values := Put(values, updates[i]);
      }
      var out := [];
      for i := 0 to |values|
        invariant out == PrintTo(values, i)
      {
        out := out + (values[i].key + ['='] + values[i].value + ['\n']);
      }
      text := Some(out);
    }
  }

  // ------------------------------------------------------------------
  // What can be read back
  // ------------------------------------------------------------------

  /** Trimmed and on one line. */
  ghost predicate Neat(s: string) {
    Trimmed(s) && OneLine(s)
  }

  /** Key and value are neat; the key has no equals sign and does not begin like a comment. */
  ghost predicate Valid(b: Binding) {
    && Neat(b.key) && Equals(b.key, 0) == |b.key| && (b.key != [] ==> b.key[0] != '#')
    && Neat(b.value)
  }

  ghost predicate AllValid(env: Env) {
    forall i | 0 <= i < |env| :: Valid(env[i])
  }

  lemma {:induction false} PutKeeps(env: Env, b: Binding)
    ensures Distinct(env) ==> Distinct(Put(env, b))
    ensures AllValid(env) && Valid(b) ==> AllValid(Put(env, b))
  {
  }

  lemma {:induction false} StripIsNeat(s: string)
    requires OneLine(s)
    ensures Neat(Strip(s))
  {
  }

  lemma {:induction false} NoEquals(s: string)
    ensures Equals(s, 0) == |s| <==> forall i | 0 <= i < |s| :: s[i] != '='
  {
    EqualsSkips(s, 0);
  }

  /** Stripping a part at the front of a stripped text only shortens it. */
  lemma {:induction false} StripPart(s: string, k: nat)
    requires k <= |s| && (s != [] ==> !IsSpace(s[0]))
    ensures Strip(s[..k]) <= s[..k]
  {
    assert k > 0 ==> s[..k][0] == s[0];
    FirstInkSkips(s[..k], 0);
    assert FirstInk(s[..k], 0) == 0;
  }

  lemma {:induction false} KeyIsValid(s: string, k: nat)
    requires Neat(s) && s != [] && s[0] != '#' && k <= |s| && forall j | 0 <= j < k :: s[j] != '='
    ensures
      var key := Strip(s[..k]);
      Neat(key) && Equals(key, 0) == |key| && (key != [] ==> key[0] != '#')
  {
    StripIsNeat(s[..k]);
    StripPart(s, k);
    NoEquals(Strip(s[..k]));
  }

  lemma {:induction false} PartsAreValid(s: string, k: nat)
    requires Neat(s) && k < |s| && s[0] != '#' && forall j | 0 <= j < k :: s[j] != '='
    ensures Valid(Binding(Strip(s[..k]), Strip(s[k + 1..])))
  {
    KeyIsValid(s, k);
    StripIsNeat(s[k + 1..]);
  }

  /** Every binding that is read is valid. */
  lemma {:induction false} ParseIsValid(line: string)
    requires OneLine(line)
    ensures Parse(line).Some? ==> Valid(Parse(line).value)
  {
    if Parse(line).Some? {
      StripIsNeat(line);
      EqualsSkips(Strip(line), 0);
      PartsAreValid(Strip(line), Equals(Strip(line), 0));
    }
  }

  lemma {:induction false} PutToIsValid(parsed: seq<Option<Binding>>, n: nat)
    requires n <= |parsed| && forall i | 0 <= i < |parsed| && parsed[i].Some? :: Valid(parsed[i].value)
    ensures AllValid(PutTo(parsed, n)) && Distinct(PutTo(parsed, n))
  {
    if n > 0 {
      PutToIsValid(parsed, n - 1);
      if parsed[n - 1].Some? {
        PutKeeps(PutTo(parsed, n - 1), parsed[n - 1].value);
      }
    }
  }

  /** Whatever is in the file, what is read from it is a dictionary of valid bindings. */
  lemma {:induction false} ReadIsValid(file: Option<string>)
    ensures AllValid(Read(file)) && Distinct(Read(file))
  {
    if file.Some? {
      var lines := LinesFrom(file.value, 0);
      var parsed := ParseAll(lines);
      LinesAreLines(file.value, 0);
      forall i | 0 <= i < |parsed| && parsed[i].Some? ensures Valid(parsed[i].value) {
        MappedAt(Parse, lines, |lines|, i);
        ParseIsValid(lines[i]);
      }
      PutToIsValid(parsed, |parsed|);
    }
  }

  /** A valid binding is what its line is read as. */
  lemma {:induction false} ParseLineOf(b: Binding)
    requires Valid(b)
    ensures Parse(LineOf(b)) == Some(b)
  {
    var line := LineOf(b);
    NoEquals(b.key);
    assert line[|b.key|] == '=';
    assert line[0] == (if b.key == [] then '=' else b.key[0]);
    assert line[|line| - 1] == (if b.value == [] then '=' else b.value[|b.value| - 1]);
    StripTrimmed(line);
    assert Equals(line, 0) == |b.key| by {
      EqualsSkips(line, 0);
      assert forall j | 0 <= j < |b.key| :: line[j] == b.key[j];
    }
    assert line[..|b.key|] == b.key && line[|b.key| + 1..] == b.value;
    StripTrimmed(b.key);
    StripTrimmed(b.value);
  }

  /** From `i` to `rest` the text is this line and its end. */
  ghost predicate LineSits(text: string, i: nat, line: string, rest: nat) {
    && i + |line| + 1 == rest <= |text| && text[i + |line|] == '\n'
    && forall j | i <= j < i + |line| :: text[j] == line[j - i]
  }

  lemma {:induction false} LineEndIs(text: string, i: nat, k: nat)
    requires i <= k < |text| && IsBreak(text[k]) && forall j | i <= j < k :: !IsBreak(text[j])
    ensures LineEnd(text, i) == k
    decreases k - i
  {
    if i < k {
      LineEndIs(text, i + 1, k);
    }
  }

  /** The first line of a text whose first line is known. */
  lemma {:induction false} FirstLine(text: string, i: nat, line: string, rest: nat)
    requires OneLine(line) && LineSits(text, i, line, rest)
    ensures LinesFrom(text, i) == [line] + LinesFrom(text, rest)
  {
    LineEndIs(text, i, i + |line|);
    assert text[i..i + |line|] == line;
  }

  /** The text of the first bindings is at the front of the text of all. */
  lemma {:induction false} PrintPrefix(env: Env, n: nat, m: nat)
    requires n <= m <= |env|
    ensures |PrintTo(env, n)| <= |PrintTo(env, m)| && PrintTo(env, m)[..|PrintTo(env, n)|] == PrintTo(env, n)
    decreases m
  {
    if n < m {
      PrintPrefix(env, n, m - 1);
    }
  }

  /** Where the line of binding `n` begins. */
  function Offset(env: Env, n: nat): nat
    requires n <= |env|
  {
    if n == 0 then 0 else Offset(env, n - 1) + |LineOf(env[n - 1])| + 1
  }

  lemma {:induction false} OffsetOfPrint(env: Env, n: nat)
    requires n <= |env|
    ensures |PrintTo(env, n)| == Offset(env, n)
  {
    if n > 0 {
      OffsetOfPrint(env, n - 1);
    }
  }

  lemma {:induction false} SitsInPrefix(text: string, p: string, q: string, line: string)
    requires |p| <= |text| && text[..|p|] == p && p == q + (line + ['\n'])
    ensures LineSits(text, |q|, line, |p|)
  {
    forall j | 0 <= j < |p| ensures text[j] == p[j] {
      assert text[..|p|][j] == p[j];
    }
  }

  /** The line of binding `n` is in its place. */
  ghost predicate InPlace(text: string, env: Env, n: nat)
    requires n < |env|
  {
    LineSits(text, Offset(env, n), LineOf(env[n]), Offset(env, n + 1))
  }

  lemma {:induction false} LineAt(env: Env, n: nat)
    requires n < |env|
    ensures InPlace(Print(env), env, n)
  {
    PrintPrefix(env, n + 1, |env|);
    OffsetOfPrint(env, n);
    OffsetOfPrint(env, n + 1);
    SitsInPrefix(Print(env), PrintTo(env, n + 1), PrintTo(env, n), LineOf(env[n]));
  }

  lemma {:induction false} LineOfIsOneLine(b: Binding)
    requires Valid(b)
    ensures OneLine(LineOf(b))
  {
  }

  /** These are the lines of the bindings from the `n`-th on. */
  ghost predicate AreLines(lines: seq<string>, env: Env, n: nat)
    requires n <= |env|
  {
    |lines| == |env| - n && forall i | 0 <= i < |lines| :: lines[i] == LineOf(env[n + i])
  }

  lemma {:induction false} OneMoreLine(text: string, i: nat, rest: nat, env: Env, n: nat)
    requires n < |env| && OneLine(LineOf(env[n])) && LineSits(text, i, LineOf(env[n]), rest)
    requires AreLines(LinesFrom(text, rest), env, n + 1)
    ensures AreLines(LinesFrom(text, i), env, n)
  {
    FirstLine(text, i, LineOf(env[n]), rest);
  }

  /** The lines of a text in which the bindings sit one after the other. */
  lemma {:induction false} LinesOfText(text: string, env: Env, n: nat)
    requires AllValid(env) && n <= |env| && |text| == Offset(env, |env|)
    requires forall i | 0 <= i < |env| :: InPlace(text, env, i)
    ensures Offset(env, n) <= |text| && AreLines(LinesFrom(text, Offset(env, n)), env, n)
    decreases |env| - n
  {
    if n < |env| {
      assert InPlace(text, env, n);
      LineOfIsOneLine(env[n]);
      LinesOfText(text, env, n + 1);
      OneMoreLine(text, Offset(env, n), Offset(env, n + 1), env, n);
    }
  }

  /** The lines of a printed dictionary are the lines of its bindings. */
  lemma {:induction false} LinesOfPrint(env: Env)
    requires AllValid(env)
    ensures AreLines(LinesFrom(Print(env), 0), env, 0)
  {
    forall i | 0 <= i < |env| ensures InPlace(Print(env), env, i) {
      LineAt(env, i);
    }
    OffsetOfPrint(env, |env|);
    LinesOfText(Print(env), env, 0);
  }

  lemma {:induction false} PutNext(env: Env, n: nat)
    requires Distinct(env) && n < |env|
    ensures Put(env[..n], env[n]) == env[..n + 1]
  {
    assert Find(env[..n], env[n].key, 0) == n;
  }

  lemma {:induction false} PutInOrder(env: Env, parsed: seq<Option<Binding>>, n: nat)
    requires Distinct(env) && n <= |env| == |parsed| && forall i | 0 <= i < |env| :: parsed[i] == Some(env[i])
    ensures PutTo(parsed, n) == env[..n]
  {
    if n > 0 {
      PutInOrder(env, parsed, n - 1);
      PutNext(env, n - 1);
    }
  }

  lemma {:induction false} ReadLines(env: Env, lines: seq<string>)
    requires AllValid(env) && Distinct(env) && AreLines(lines, env, 0)
    ensures PutTo(ParseAll(lines), |lines|) == env
  {
    var parsed := ParseAll(lines);
    forall i | 0 <= i < |env| ensures parsed[i] == Some(env[i]) {
      MappedAt(Parse, lines, |lines|, i);
      ParseLineOf(env[i]);
    }
    PutInOrder(env, parsed, |env|);
  }

  /** Printing and reading back loses nothing. */
  lemma {:induction false} ReadPrint(env: Env)
    requires AllValid(env) && Distinct(env)
    ensures Read(Some(Print(env))) == env
  {
    LinesOfPrint(env);
    ReadLines(env, LinesFrom(Print(env), 0));
  }

  // Merging

  lemma {:induction false} MergeKeeps(env: Env, updates: Env, n: nat)
    requires n <= |updates|
    ensures Distinct(env) ==> Distinct(MergeTo(env, updates, n))
    ensures AllValid(env) && AllValid(updates) ==> AllValid(MergeTo(env, updates, n))
  {
    if n > 0 {
      MergeKeeps(env, updates, n - 1);
      PutKeeps(MergeTo(env, updates, n - 1), updates[n - 1]);
    }
  }

  /** The dictionary has this binding. */
  ghost predicate Has(env: Env, b: Binding) {
    exists i | 0 <= i < |env| :: env[i] == b
  }

  lemma {:induction false} PutHas(env: Env, b: Binding, other: Binding)
    ensures Has(Put(env, b), b)
    ensures Has(env, other) && other.key != b.key ==> Has(Put(env, b), other)
  {
    var k, after := Find(env, b.key, 0), Put(env, b);
    assert after[k] == b;
    if Has(env, other) && other.key != b.key {
      var i :| 0 <= i < |env| && env[i] == other;
      assert after[i] == other;
    }
  }

  /** Every update is in the result, and so is every old binding with another key. */
  lemma {:induction false} MergeHas(env: Env, updates: Env, n: nat, b: Binding)
    requires n <= |updates| && Distinct(updates)
    ensures (exists i | 0 <= i < n :: updates[i] == b) ==> Has(MergeTo(env, updates, n), b)
    ensures Has(env, b) && (forall i | 0 <= i < n :: updates[i].key != b.key) ==> Has(MergeTo(env, updates, n), b)
  {
    if n > 0 {
      MergeHas(env, updates, n - 1, b);
      PutHas(MergeTo(env, updates, n - 1), updates[n - 1], b);
    }
  }

  /** Putting a binding that is there changes nothing. */
  lemma {:induction false} PutAgain(env: Env, b: Binding)
    requires Distinct(env) && Has(env, b)
    ensures Put(env, b) == env
  {
    var i :| 0 <= i < |env| && env[i] == b;
    assert Find(env, b.key, 0) == i;
  }

  lemma {:induction false} MergeAgain(env: Env, updates: Env, n: nat)
    requires Distinct(env) && n <= |updates| && forall i | 0 <= i < |updates| :: Has(env, updates[i])
    ensures MergeTo(env, updates, n) == env
  {
    if n > 0 {
      MergeAgain(env, updates, n - 1);
      PutAgain(env, updates[n - 1]);
    }
  }

  /** The text that `WriteEnvFile` leaves. */
  function Written(file: Option<string>, updates: Env): string {
    Print(Merge(Read(file), updates))
  }

  /**
   Reading back what was written gives the old bindings overridden by the updates, for every file,
   if and only if all the updates are valid.
   */
  lemma {:induction false} ReadBackIff(file: Option<string>, updates: Env)
    requires Distinct(updates)
    ensures Read(Some(Written(file, updates))) == Merge(Read(file), updates) <==> AllValid(updates)
  {
    var merged := Merge(Read(file), updates);
    ReadIsValid(file);
    MergeKeeps(Read(file), updates, |updates|);
    if AllValid(updates) {
      ReadPrint(merged);
    } else {
      var i :| 0 <= i < |updates| && !Valid(updates[i]);
      MergeHas(Read(file), updates, |updates|, updates[i]);
      ReadIsValid(Some(Print(merged)));
      var j :| 0 <= j < |merged| && merged[j] == updates[i];
      assert !AllValid(merged);
    }
  }

  /** With valid updates the written file has one line for each binding, `key=value`, and no other line. */
  lemma {:induction false} WrittenLines(file: Option<string>, updates: Env)
    requires Distinct(updates) && AllValid(updates)
    ensures
      var merged, lines := Merge(Read(file), updates), LinesFrom(Written(file, updates), 0);
      && |lines| == |merged|
      && forall i | 0 <= i < |lines| :: lines[i] == merged[i].key + "=" + merged[i].value
  {
    ReadIsValid(file);
    MergeKeeps(Read(file), updates, |updates|);
    LinesOfPrint(Merge(Read(file), updates));
  }

  /** Nothing is dropped: a binding whose key is not updated is read back as it was. */
  lemma {:induction false} NothingIsDropped(file: Option<string>, updates: Env, b: Binding)
    requires Distinct(updates) && AllValid(updates)
    requires forall i | 0 <= i < |updates| :: updates[i].key != b.key
    ensures Has(Read(file), b) ==> Has(Read(Some(Written(file, updates))), b)
  {
    ReadBackIff(file, updates);
    MergeHas(Read(file), updates, |updates|, b);
  }

  /** Writing the same updates again leaves the file as it is. */
  lemma {:induction false} WritingAgainChangesNothing(file: Option<string>, updates: Env)
    requires Distinct(updates) && AllValid(updates)
    ensures Written(Some(Written(file, updates)), updates) == Written(file, updates)
  {
    var merged := Merge(Read(file), updates);
    ReadBackIff(file, updates);
    ReadIsValid(file);
    MergeKeeps(Read(file), updates, |updates|);
    forall i | 0 <= i < |updates| ensures Has(merged, updates[i]) {
      MergeHas(Read(file), updates, |updates|, updates[i]);
    }
    MergeAgain(merged, updates, |updates|);
  }

  // ------------------------------------------------------------------
  // Lines
  // ------------------------------------------------------------------

  lemma {:induction false} BreaksAre(c: char)
    ensures IsBreak(c) <==> c as int in {0xA, 0xB, 0xC, 0xD, 0x1C, 0x1D, 0x1E, 0x85, 0x2028, 0x2029}
  {
  }

  /** A line ends at its first boundary, and the next begins behind it; CR LF is one boundary. */
  lemma {:induction false} AnyBreakEndsALine(text: string, i: nat, k: nat)
    requires i <= k < |text| && IsBreak(text[k]) && forall j | i <= j < k :: !IsBreak(text[j])
    ensures
      var rest := if k + 1 < |text| && text[k] == '\r' && text[k + 1] == '\n' then k + 2 else k + 1;
      LinesFrom(text, i) == [text[i..k]] + LinesFrom(text, rest)
  {
    LineEndIs(text, i, k);
  }

  /** What stands behind the last boundary is a line unless it is empty. */
  lemma {:induction false} LastLine(text: string, i: nat)
    requires i <= |text| && forall j | i <= j < |text| :: !IsBreak(text[j])
    ensures LinesFrom(text, i) == if i < |text| then [text[i..]] else []
    decreases |text| - i
  {
    LineEndSkips(text, i);
    NoBreakNoEnd(text, i);
  }

  lemma {:induction false} NoBreakNoEnd(text: string, i: nat)
    requires i <= |text| && forall j | i <= j < |text| :: !IsBreak(text[j])
    ensures LineEnd(text, i) == |text|
    decreases |text| - i
  {
    if i < |text| {
      NoBreakNoEnd(text, i + 1);
    }
  }

  ghost predicate White(s: string) {
    forall i | 0 <= i < |s| :: IsSpace(s[i])
  }

  /** The first character that is not white space is this one. */
  ghost predicate BeginsWith(s: string, c: char) {
    exists i: nat :: i < |s| && s[i] == c && !IsSpace(c) && forall j | 0 <= j < i :: IsSpace(s[j])
  }

  ghost predicate Contains(s: string, c: char) {
    exists i: nat :: i < |s| && s[i] == c
  }

  lemma {:induction false} StripEmptyIff(s: string)
    ensures Strip(s) == [] <==> White(s)
  {
    FirstInkSkips(s, 0);
    LastInkSkips(s, |s|);
    var i, j := FirstInk(s, 0), LastInk(s, |s|);
    assert i < |s| ==> i < j;
  }

  lemma {:induction false} StripBegins(s: string, c: char)
    requires !IsSpace(c)
    ensures Strip(s) != [] && Strip(s)[0] == c <==> BeginsWith(s, c)
  {
    FirstInkSkips(s, 0);
    LastInkSkips(s, |s|);
    var i, j := FirstInk(s, 0), LastInk(s, |s|);
    assert i < |s| ==> i < j && Strip(s)[0] == s[i];
    if BeginsWith(s, c) {
      var k: nat :| k < |s| && s[k] == c && !IsSpace(c) && forall j | 0 <= j < k :: IsSpace(s[j]);
      assert i == k;
    }
  }

  lemma {:induction false} StripContains(s: string, c: char)
    requires !IsSpace(c)
    ensures Contains(Strip(s), c) <==> Contains(s, c)
  {
    FirstInkSkips(s, 0);
    LastInkSkips(s, |s|);
    var i, j := FirstInk(s, 0), LastInk(s, |s|);
    if Contains(Strip(s), c) {
      var k: nat :| k < |Strip(s)| && Strip(s)[k] == c;
      assert s[i + k] == c;
    }
    if Contains(s, c) {
      var k: nat :| k < |s| && s[k] == c;
      assert i <= k < j && Strip(s)[k - i] == c;
    }
  }

  /** A line is ignored exactly if it is blank, begins with a hash after white space, or has no equals sign. */
  lemma {:induction false} IgnoredIff(line: string)
    ensures Parse(line) == None <==> White(line) || BeginsWith(line, '#') || !Contains(line, '=')
  {
    StripEmptyIff(line);
    StripBegins(line, '#');
    StripContains(line, '=');
    NoEquals(Strip(line));
  }

  /** A line that is not ignored is cut at its first equals sign, and the white space around both parts goes. */
  lemma {:induction false} ParseIs(line: string, k: nat)
    requires k < |line| && line[k] == '=' && !BeginsWith(line, '#') && forall m | 0 <= m < k :: line[m] != '='
    ensures Parse(line) == Some(Binding(Strip(line[..k]), Strip(line[k + 1..])))
  {
    var i, j := FirstInk(line, 0), LastInk(line, |line|);
    InkAround(line, k);
    EqualsInSlice(line, i, k, j);
    StripFront(line, i, k, j);
    StripBack(line, i, k, j);
    ParseParts(line, line[i..j], k - i, Strip(line[..k]), Strip(line[k + 1..]));
  }

  lemma {:induction false} ParseParts(line: string, s: string, k: nat, key: string, value: string)
    requires Strip(line) == s && k < |s| && Equals(s, 0) == k && s[0] != '#'
    requires Strip(s[..k]) == key && Strip(s[k + 1..]) == value
    ensures Parse(line) == Some(Binding(key, value))
  {
  }

  /** Everything but `s[i..j]` is white space. */
  ghost predicate Within(s: string, i: nat, j: nat) {
    i <= j <= |s| && forall m | 0 <= m < |s| && !(i <= m < j) :: IsSpace(s[m])
  }

  lemma {:induction false} InkAround(line: string, k: nat)
    requires k < |line| && line[k] == '=' && !BeginsWith(line, '#')
    ensures FirstInk(line, 0) <= k < LastInk(line, |line|) && line[FirstInk(line, 0)] != '#'
    ensures Strip(line) == line[FirstInk(line, 0)..LastInk(line, |line|)]
    ensures Within(line, FirstInk(line, 0), LastInk(line, |line|))
  {
    FirstInkSkips(line, 0);
    LastInkSkips(line, |line|);
  }

  lemma {:induction false} EqualsInSlice(line: string, i: nat, k: nat, j: nat)
    requires i <= k < j <= |line| && line[k] == '=' && forall m | i <= m < k :: line[m] != '='
    ensures Equals(line[i..j], 0) == k - i
  {
    EqualsSkips(line[i..j], 0);
  }

  /** White space at the ends is stripped whether or not it is cut off before. */
  lemma {:induction false} StripInside(s: string, t: string, i: nat, j: nat)
    requires Within(s, i, j) && t == s[i..j]
    ensures Strip(t) == Strip(s)
  {
    StripEmptyIff(s);
    if White(s) {
      StripEmptyIff(t);
    } else {
      var a, b := FirstInk(s, 0), LastInk(s, |s|);
      FirstInkSkips(s, 0);
      LastInkSkips(s, |s|);
      StripShifted(s, t, i, j, a, b);
    }
  }

  lemma {:induction false} StripShifted(s: string, t: string, i: nat, j: nat, a: nat, b: nat)
    requires Within(s, a, b) && i <= a < b <= j <= |s| && !IsSpace(s[a]) && !IsSpace(s[b - 1]) && t == s[i..j]
    ensures Strip(t) == s[a..b]
  {
    StripIs(t, a - i, b - i);
    SliceOfSlice(s, i, j, a, b);
  }

  lemma {:induction false} SliceOfSlice(s: string, i: nat, j: nat, a: nat, b: nat)
    requires i <= a <= b <= j <= |s|
    ensures s[i..j][a - i..b - i] == s[a..b]
  {
    var t := s[i..j];
    assert forall m | a <= m < b :: t[m - i] == s[m];
    assert |t[a - i..b - i]| == |s[a..b]|;
  }

  lemma {:induction false} FrontOfSlice<T>(s: seq<T>, i: nat, k: nat, j: nat)
    requires i <= k < j <= |s|
    ensures s[i..j][..k - i] == s[..k][i..k]
  {
    var a, b := s[i..j][..k - i], s[..k][i..k];
    assert |a| == |b|;
    forall m | 0 <= m < |a| ensures a[m] == b[m] {
      assert a[m] == s[i..j][m] == s[i + m];
    }
  }

  lemma {:induction false} BackOfSlice<T>(s: seq<T>, i: nat, k: nat, j: nat)
    requires i <= k < j <= |s|
    ensures s[i..j][k - i + 1..] == s[k + 1..][0..j - k - 1]
  {
    var a, b := s[i..j][k - i + 1..], s[k + 1..][0..j - k - 1];
    assert |a| == |b|;
    forall m | 0 <= m < |a| ensures a[m] == b[m] {
      assert a[m] == s[i..j][k - i + 1 + m] == s[k + 1 + m];
    }
  }

  lemma {:induction false} StripFront(line: string, i: nat, k: nat, j: nat)
    requires Within(line, i, j) && i <= k < j
    ensures Strip(line[i..j][..k - i]) == Strip(line[..k])
  {
    FrontOfSlice(line, i, k, j);
    StripInside(line[..k], line[..k][i..k], i, k);
  }

  lemma {:induction false} StripBack(line: string, i: nat, k: nat, j: nat)
    requires Within(line, i, j) && i <= k < j
    ensures Strip(line[i..j][k - i + 1..]) == Strip(line[k + 1..])
  {
    var back := line[k + 1..];
    BackOfSlice(line, i, k, j);
    StripInside(back, back[0..j - k - 1], 0, j - k - 1);
  }

  /** Stripping takes off the white space at the ends and nothing else. */
  lemma {:induction false} StripPadded(a: string, b: string, c: string)
    requires White(a) && White(c) && (b != [] ==> !IsSpace(b[0]) && !IsSpace(b[|b| - 1]))
    ensures Strip(a + b + c) == b
  {
    var s := a + b + c;
    assert forall k | 0 <= k < |b| :: s[|a| + k] == b[k];
    if b == [] {
      StripEmptyIff(s);
    } else {
      StripIs(s, |a|, |a| + |b|);
      assert s[|a|..|a| + |b|] == b;
    }
  }
}
