/** The limit on concurrent commands, as read from the environment. */
module ConcurrentLimit {
  import opened Common
  import opened Text

  const USIZE_MAX := 0xFFFF_FFFF_FFFF_FFFF
  const DEFAULT_CONCURRENT_COMMANDS := 32

  predicate IsDigit(c: char) {
    '0' <= c <= '9'
  }

  function Value(digits: string): nat
    requires forall i :: 0 <= i < |digits| ==> IsDigit(digits[i])
    decreases |digits|
  {
    if digits == "" then 0
    else
      assert IsDigit(digits[|digits| - 1]);
      Value(digits[..|digits| - 1]) * 10 + (digits[|digits| - 1] as int - '0' as int)
  }

  function DigitsOf(s: string): string {
    if |s| > 1 && s[0] == '+' then s[1..] else s
  }

  // `str::parse::<usize>`: an optional `+`, then digits, at most USIZE_MAX.
  function ParseUsize(s: string): Option<nat> {
    var digits := DigitsOf(s);
    if digits == "" || exists i :: 0 <= i < |digits| && !IsDigit(digits[i]) then None
    else if Value(digits) > USIZE_MAX then None
    else Some(Value(digits))
  }

  // Zero stands for no limit.
  function ParseConcurrentLimit(s: string): Option<nat> {
    match ParseUsize(s)
    case None => None
    case Some(n) => Some(if n == 0 then USIZE_MAX else n)
  }

  function MaxConcurrentCommands(setting: Option<string>): (limit: nat)
    ensures 1 <= limit <= USIZE_MAX
  {
    var parsed := if setting.Some? then ParseConcurrentLimit(setting.value) else None;
    if parsed.Some? then parsed.value else DEFAULT_CONCURRENT_COMMANDS
  }

  // The limit from the setting itself: as written, with nothing set or nothing that is a number the default, and
  // with zero none.
  lemma LimitIs(n: nat, other: string)
    ensures MaxConcurrentCommands(None) == 32
    ensures MaxConcurrentCommands(Some("0")) == 0xFFFF_FFFF_FFFF_FFFF
    ensures 1 <= n <= 0xFFFF_FFFF_FFFF_FFFF ==> MaxConcurrentCommands(Some(Decimal(n))) == n
    ensures n > 0xFFFF_FFFF_FFFF_FFFF ==> MaxConcurrentCommands(Some(Decimal(n))) == 32
    ensures other == "" || other == "+" ==> MaxConcurrentCommands(Some(other)) == 32
    ensures (exists i :: 0 <= i < |other| && !('0' <= other[i] <= '9') && (i > 0 || other[i] != '+')) ==>
      MaxConcurrentCommands(Some(other)) == 32
  {
    LimitRoundTrip(n);
    LimitRoundTrip(0);
    assert Decimal(0) == "0";
    assert DigitsOf("+") == "+" && !IsDigit(DigitsOf("+")[0]);
    if i :| 0 <= i < |other| && !('0' <= other[i] <= '9') && (i > 0 || other[i] != '+') {
      NoNumber(other, i);
    }
  }

  lemma NoNumber(s: string, i: nat)
    requires i < |s| && !('0' <= s[i] <= '9') && (i > 0 || s[i] != '+')
    ensures ParseUsize(s) == None
  {
    var k := if |s| > 1 && s[0] == '+' then i - 1 else i;
    assert DigitsOf(s)[k] == s[i] && !IsDigit(DigitsOf(s)[k]);
  }

  lemma {:induction false} DecimalValue(n: nat)
    ensures Value(Decimal(n)) == n
    decreases n
  {
    if n >= 10 {
      DecimalValue(n / 10);
      assert Decimal(n)[..|Decimal(n)| - 1] == Decimal(n / 10);
    } else {
      assert Decimal(n)[..0] == "";
    }
  }

  // Every numeral is read back, with or without a `+`, but for zero, which means the largest limit, and
  // for a number too large, which is no setting at all.
  lemma LimitRoundTrip(n: nat)
    ensures var expected := if n > USIZE_MAX then None else Some(if n == 0 then USIZE_MAX else n);
      ParseConcurrentLimit(Decimal(n)) == expected && ParseConcurrentLimit("+" + Decimal(n)) == expected
  {
    DecimalDigits(n);
    DecimalValue(n);
    Parsed(Decimal(n), n);
    Parsed("+" + Decimal(n), n);
  }

  lemma DecimalDigits(n: nat)
    ensures Decimal(n) != "" && forall i :: 0 <= i < |Decimal(n)| ==> IsDigit(Decimal(n)[i])
    ensures DigitsOf(Decimal(n)) == Decimal(n) == DigitsOf("+" + Decimal(n))
  {
    assert IsDigit(Decimal(n)[0]);
    assert ("+" + Decimal(n))[1..] == Decimal(n);
  }

  lemma Parsed(s: string, n: nat)
    requires DigitsOf(s) != "" && (forall i :: 0 <= i < |DigitsOf(s)| ==> IsDigit(DigitsOf(s)[i]))
    requires Value(DigitsOf(s)) == n
    ensures ParseUsize(s) == if n > USIZE_MAX then None else Some(n)
  {
  }
}

/** The environment of a child: mutations kept in call order, applied over the inherited variables. */
module EnvOps {
  import opened Common

  type Env = map<string, string>

  // `Some` sets, `None` removes.
  datatype Op = Op(key: string, value: Option<string>)

  function After(env: Env, op: Op): Env {
    if op.value.Some? then env[op.key := op.value.value] else env - {op.key}
  }

  // The last mutation that names `key`.
  function LastOp(ops: seq<Op>, key: string): Option<Op> {
    if ops == [] then None
    else if ops[|ops| - 1].key == key then Some(ops[|ops| - 1])
    else LastOp(ops[..|ops| - 1], key)
  }

  function Lookup(env: Env, key: string): Option<string> {
    if key in env then Some(env[key]) else None
  }

  // What a variable is after `ops`: what its last mutation said, or what it was.
  function Resolved(env: Env, ops: seq<Op>, key: string): Option<string> {
    var last := LastOp(ops, key);
    if last.Some? then last.value.value else Lookup(env, key)
  }

  method ApplyInOrder(env: Env, ops: seq<Op>) returns (result: Env)
    ensures forall key :: Lookup(result, key) == Resolved(env, ops, key)
  {
    result := env;
    var i := 0;
    assert ops[..0] == [];
    while i < |ops|
      invariant i <= |ops|
      invariant forall key :: Lookup(result, key) == Resolved(env, ops[..i], key)
    {
      ghost var before := result;
      result := After(result, ops[i]);
      forall key ensures Lookup(result, key) == Resolved(env, ops[..i + 1], key) {
        assert ops[..i + 1][..i] == ops[..i] && ops[..i + 1][i] == ops[i];
        assert Lookup(before, key) == Resolved(env, ops[..i], key);
      }
      i := i + 1;
    }
    assert ops[..|ops|] == ops;
  }

  lemma {:induction false} LastOpIs(ops: seq<Op>, key: string)
    ensures forall i :: 0 <= i < |ops| && ops[i].key == key && (forall j :: i < j < |ops| ==> ops[j].key != key) ==>
      LastOp(ops, key) == Some(ops[i])
    ensures (forall i :: 0 <= i < |ops| ==> ops[i].key != key) ==> LastOp(ops, key) == None
    decreases |ops|
  {
    if ops != [] && ops[|ops| - 1].key != key {
      LastOpIs(ops[..|ops| - 1], key);
    }
  }

  predicate Names(ops: seq<Op>, key: string) {
    exists i :: 0 <= i < |ops| && ops[i].key == key
  }

  predicate IsLast(ops: seq<Op>, i: nat)
    requires i < |ops|
  {
    forall j :: i < j < |ops| ==> ops[j].key != ops[i].key
  }

  // `env` holds of a variable what the op says.
  predicate Holds(env: Env, op: Op) {
    if op.value.Some? then op.key in env && env[op.key] == op.value.value else op.key !in env
  }

  // The layers of apply_common_settings, lowest first; the directive variables go last of all.
  function Layered(inherited: Env, gitOverrides: seq<Op>, floor: seq<Op>, ops: seq<Op>, directives: set<string>,
      key: string): Option<string>
  {
    if key in directives then None
    else if LastOp(ops, key).Some? then LastOp(ops, key).value.value
    else if LastOp(floor, key).Some? then LastOp(floor, key).value.value
    else Resolved(inherited, gitOverrides, key)
  }

  method ApplyCommonSettings(inherited: Env, gitOverrides: seq<Op>, floor: seq<Op>, ops: seq<Op>,
      directives: set<string>)
    returns (env: Env)
    ensures forall key :: Lookup(env, key) == Layered(inherited, gitOverrides, floor, ops, directives, key)
    // No directive is left. Of any other variable the command's own last mutation decides; then the test floor;
    // then the inherited git overrides; then what was inherited.
    ensures forall key :: key in directives ==> key !in env
    ensures forall i :: 0 <= i < |ops| && ops[i].key !in directives && IsLast(ops, i) ==> Holds(env, ops[i])
    ensures forall i :: 0 <= i < |floor| ==>
      (floor[i].key !in directives && IsLast(floor, i) && !Names(ops, floor[i].key)) ==> Holds(env, floor[i])
    ensures forall i :: 0 <= i < |gitOverrides| ==>
      (gitOverrides[i].key !in directives && IsLast(gitOverrides, i) && !Names(floor, gitOverrides[i].key)
       && !Names(ops, gitOverrides[i].key)) ==> Holds(env, gitOverrides[i])
    ensures forall key :: key !in directives && !Names(ops, key) && !Names(floor, key) && !Names(gitOverrides, key) ==>
      (key in env <==> key in inherited) && (key in env ==> env[key] == inherited[key])
  {
    var absolute := ApplyInOrder(inherited, gitOverrides);
    var floored := ApplyInOrder(absolute, floor);
    var own := ApplyInOrder(floored, ops);
    env := own - directives;
    forall key ensures Lookup(env, key) == Layered(inherited, gitOverrides, floor, ops, directives, key) {
      assert Lookup(own, key) == Resolved(floored, ops, key);
      assert Lookup(floored, key) == Resolved(absolute, floor, key);
      assert Lookup(absolute, key) == Resolved(inherited, gitOverrides, key);
    }
    LayersAre(inherited, gitOverrides, floor, ops, directives, env);
  }

  lemma LayersAre(inherited: Env, gitOverrides: seq<Op>, floor: seq<Op>, ops: seq<Op>, directives: set<string>,
                  env: Env)
    requires forall key :: Lookup(env, key) == Layered(inherited, gitOverrides, floor, ops, directives, key)
    ensures forall key :: key in directives ==> key !in env
    ensures forall i :: 0 <= i < |ops| && ops[i].key !in directives && IsLast(ops, i) ==> Holds(env, ops[i])
    ensures forall i :: 0 <= i < |floor| ==>
      (floor[i].key !in directives && IsLast(floor, i) && !Names(ops, floor[i].key)) ==> Holds(env, floor[i])
    ensures forall i :: 0 <= i < |gitOverrides| ==>
      (gitOverrides[i].key !in directives && IsLast(gitOverrides, i) && !Names(floor, gitOverrides[i].key)
       && !Names(ops, gitOverrides[i].key)) ==> Holds(env, gitOverrides[i])
    ensures forall key :: key !in directives && !Names(ops, key) && !Names(floor, key) && !Names(gitOverrides, key) ==>
      (key in env <==> key in inherited) && (key in env ==> env[key] == inherited[key])
  {
    forall key
      ensures Lookup(env, key) == if key in env then Some(env[key]) else None
      ensures key in directives ==> Lookup(env, key) == None
    {
    }
    forall i | 0 <= i < |ops| && ops[i].key !in directives && IsLast(ops, i)
      ensures Holds(env, ops[i])
    {
      LastOpIs(ops, ops[i].key);
      assert Lookup(env, ops[i].key) == ops[i].value;
    }
    forall i | 0 <= i < |floor| && floor[i].key !in directives && IsLast(floor, i) && !Names(ops, floor[i].key)
      ensures Holds(env, floor[i])
    {
      LastOpIs(ops, floor[i].key);
      LastOpIs(floor, floor[i].key);
      assert Lookup(env, floor[i].key) == floor[i].value;
    }
    forall i | 0 <= i < |gitOverrides| && gitOverrides[i].key !in directives && IsLast(gitOverrides, i)
      && !Names(floor, gitOverrides[i].key) && !Names(ops, gitOverrides[i].key)
      ensures Holds(env, gitOverrides[i])
    {
      LastOpIs(ops, gitOverrides[i].key);
      LastOpIs(floor, gitOverrides[i].key);
      LastOpIs(gitOverrides, gitOverrides[i].key);
      assert Lookup(env, gitOverrides[i].key) == gitOverrides[i].value;
    }
    forall key | key !in directives && !Names(ops, key) && !Names(floor, key) && !Names(gitOverrides, key)
      ensures Lookup(env, key) == Lookup(inherited, key)
    {
      LastOpIs(ops, key);
      LastOpIs(floor, key);
      LastOpIs(gitOverrides, key);
    }
  }

  function Removals(keys: seq<string>): seq<Op> {
    if keys == [] then [] else [Op(keys[0], None)] + Removals(keys[1..])
  }

  lemma {:induction false} LastOpConcat(a: seq<Op>, b: seq<Op>, key: string)
    ensures LastOp(a + b, key) == if LastOp(b, key).Some? then LastOp(b, key) else LastOp(a, key)
    decreases |b|
  {
    if b == [] {
      assert a + b == a;
    } else {
      LastOpConcat(a, b[..|b| - 1], key);
      assert (a + b)[..|a + b| - 1] == a + b[..|b| - 1];
    }
  }

  lemma {:induction false} LastRemoval(keys: seq<string>, key: string)
    ensures LastOp(Removals(keys), key) == if key in keys then Some(Op(key, None)) else None
  {
    if keys != [] {
      LastRemoval(keys[1..], key);
      LastOpConcat([Op(keys[0], None)], Removals(keys[1..]), key);
      assert [Op(keys[0], None)][..0] == [];
    }
  }

  // Dropping the inherited git context and then supplying a value for one of its variables gives exactly
  // that value, and leaves the others dropped, whatever was set before.
  lemma ScrubThenSet(inherited: Env, before: seq<Op>, vars: seq<string>, key: string, value: string, other: string)
    requires other in vars && other != key
    ensures var ops := before + Removals(vars) + [Op(key, Some(value))];
      Resolved(inherited, ops, key) == Some(value) && Resolved(inherited, ops, other) == None
  {
    var ops := before + Removals(vars) + [Op(key, Some(value))];
    assert ops[..|ops| - 1] == before + Removals(vars);
    LastOpConcat(before, Removals(vars), other);
    LastRemoval(vars, other);
  }
}

/** The bounded preview of captured output that goes to the debug log. */
module OutputPreview {
  import opened Text

  const LOG_OUTPUT_MAX_LINES := 200
  const LOG_OUTPUT_MAX_BYTES := 64 * 1024

  // One emitted record: a line of output, or the note that stands for the rest.
  datatype Entry =
    | Line(prefix: string, text: string)
    | Elision(prefix: string, moreLines: nat, moreBytes: nat, hint: string)

  function Prefixed(prefix: string, lines: seq<string>): (r: seq<Entry>)
    ensures |r| == |lines| && forall i :: 0 <= i < |lines| ==> r[i] == Line(prefix, lines[i])
  {
    if lines == [] then [] else [Line(prefix, lines[0])] + Prefixed(prefix, lines[1..])
  }

  // format_stream_full.
  function Full(text: string, prefix: string): seq<Entry> {
    Prefixed(prefix, Lines(text))
  }

  // The bytes counted for emitted lines: each with one for its terminator.
  function Counted(lines: seq<string>): nat {
    if lines == [] then 0 else |lines[0]| + 1 + Counted(lines[1..])
  }

  lemma {:induction false} CountedGrows(lines: seq<string>, i: nat)
    requires i < |lines|
    ensures Counted(lines[..i + 1]) == Counted(lines[..i]) + |lines[i]| + 1
  {
    if i > 0 {
      CountedGrows(lines[1..], i - 1);
      assert lines[..i + 1][1..] == lines[1..][..i] && lines[..i][1..] == lines[1..][..i - 1];
    } else {
      assert lines[..1][1..] == [];
    }
  }

  predicate AtCap(lines: seq<string>, n: nat)
    requires n <= |lines|
  {
    n >= LOG_OUTPUT_MAX_LINES || Counted(lines[..n]) >= LOG_OUTPUT_MAX_BYTES
  }

  // `n` lines are shown: the first number at which a cap is met, or all.
  ghost predicate Shows(lines: seq<string>, n: nat) {
    && n <= |lines|
    && (forall i :: 0 <= i < n ==> !AtCap(lines, i))
    && (n < |lines| ==> AtCap(lines, n))
  }

  function Elided(totalBytes: nat, emitted: nat): nat {
    if totalBytes > emitted then totalBytes - emitted else 0
  }

  // How many lines are shown, looking from the `i`th on.
  function ShownFrom(lines: seq<string>, i: nat): (n: nat)
    requires i <= |lines|
    ensures i <= n <= |lines| && (forall j :: i <= j < n ==> !AtCap(lines, j)) && (n < |lines| ==> AtCap(lines, n))
    decreases |lines| - i
  {
    if i == |lines| || AtCap(lines, i) then i else ShownFrom(lines, i + 1)
  }

  function Shown(lines: seq<string>): (n: nat)
    ensures Shows(lines, n)
  {
    ShownFrom(lines, 0)
  }

  lemma PrefixedGrows(prefix: string, lines: seq<string>, i: nat)
    requires i < |lines|
    ensures Prefixed(prefix, lines[..i + 1]) == Prefixed(prefix, lines[..i]) + [Line(prefix, lines[i])]
  {
    assert lines[..i + 1] == lines[..i] + [lines[i]];
  }

  lemma NothingPrefixed(prefix: string, lines: seq<string>)
    ensures Prefixed(prefix, lines[..0]) == [] && Counted(lines[..0]) == 0
    ensures Prefixed(prefix, lines) + [] == Prefixed(prefix, lines) && lines[..|lines|] == lines
  {
  }

  // `text` is the captured bytes decoded, `totalBytes` how many there were.
  method FormatStreamBounded(text: string, totalBytes: nat, prefix: string, hint: string) returns (out: seq<Entry>)
    ensures var n := Shown(Lines(text));
      out == Prefixed(prefix, Lines(text)[..n]) +
        (if n < |Lines(text)| then
           [Elision(prefix, |Lines(text)| - n, Elided(totalBytes, Counted(Lines(text)[..n])), hint)]
         else [])
  {
    var lines := Lines(text);
    out := [];
    var bytesEmitted, i := 0, 0;
    NothingPrefixed(prefix, lines);
    while i < |lines|
      invariant 0 <= i <= |lines| && Shown(lines) == ShownFrom(lines, i)
      invariant out == Prefixed(prefix, lines[..i]) && bytesEmitted == Counted(lines[..i])
    {
      if i >= LOG_OUTPUT_MAX_LINES || bytesEmitted >= LOG_OUTPUT_MAX_BYTES {
        out := out + [Elision(prefix, |lines| - i, Elided(totalBytes, bytesEmitted), hint)];
        return;
      }
      CountedGrows(lines, i);
      PrefixedGrows(prefix, lines, i);
      out := out + [Line(prefix, lines[i])];
      bytesEmitted := bytesEmitted + |lines[i]| + 1;
      i := i + 1;
    }
  }

  // The preview is a prefix of the full output, and the note's line count is exactly what is missing.
  lemma PreviewIsAPrefixOfFull(text: string, prefix: string)
    ensures var n := Shown(Lines(text));
      && n <= |Full(text, prefix)| == |Lines(text)| && n <= 200
      && Prefixed(prefix, Lines(text)[..n]) == Full(text, prefix)[..n]
      && (forall i :: 0 <= i < |Lines(text)| ==> Full(text, prefix)[i] == Line(prefix, Lines(text)[i]))
      && (forall i :: 0 <= i < n ==> Counted(Lines(text)[..i]) < 65_536)
      && (n < |Lines(text)| ==> n == 200 || Counted(Lines(text)[..n]) >= 65_536)
  {
    var n := Shown(Lines(text));
    if n > LOG_OUTPUT_MAX_LINES {
      assert AtCap(Lines(text), LOG_OUTPUT_MAX_LINES);
    }
    forall i | 0 <= i < n
      ensures Counted(Lines(text)[..i]) < 65_536
    {
      assert !AtCap(Lines(text), i);
    }
  }

  // A line cut off by `\r\n` is one byte longer than it is counted.
  predicate EndsInCrLf(piece: string) {
    |piece| >= 2 && piece[|piece| - 2] == '\r' && piece[|piece| - 1] == '\n'
  }

  predicate IsTerminated(piece: string) {
    piece != "" && piece[|piece| - 1] == '\n'
  }

  predicate NoCrLf(pieces: seq<string>) {
    forall i :: 0 <= i < |pieces| ==> !EndsInCrLf(pieces[i])
  }

  lemma {:induction false} CountedBytes(pieces: seq<string>, lines: seq<string>)
    requires |pieces| == |lines|
    requires forall i :: 0 <= i < |pieces| ==> IsTerminated(pieces[i]) && lines[i] == StripEnding(pieces[i])
    ensures Counted(lines) <= |Concat(pieces)|
    ensures Counted(lines) == |Concat(pieces)| <==> NoCrLf(pieces)
  {
    if pieces != [] {
      CountedBytes(pieces[1..], lines[1..]);
      assert NoCrLf(pieces) <==> !EndsInCrLf(pieces[0]) && NoCrLf(pieces[1..]) by {
        assert forall i :: 1 <= i < |pieces| ==> pieces[i] == pieces[1..][i - 1];
      }
    }
  }

  lemma {:induction false} EarlierPiecesAreTerminated(text: string, i: nat)
    requires i + 1 < |SplitInclusive(text)|
    ensures IsTerminated(SplitInclusive(text)[i])
    decreases |text|
  {
    if i > 0 {
      EarlierPiecesAreTerminated(text[LineEnd(text)..], i - 1);
    }
  }

  // For well-formed text the note's byte count is never too small, and is what is really missing exactly
  // when none of the lines shown ended in `\r\n`.
  lemma ElidedBytesAreExactUnlessCrLf(text: string, n: nat)
    requires n < |Lines(text)|
    ensures |Lines(text)| == |SplitInclusive(text)|
    ensures var missing := |Concat(SplitInclusive(text)[n..])|;
      && Elided(|text|, Counted(Lines(text)[..n])) >= missing
      && (Elided(|text|, Counted(Lines(text)[..n])) == missing <==> NoCrLf(SplitInclusive(text)[..n]))
  {
    LinesAreStrippedPieces(text);
    var pieces, lines := SplitInclusive(text), Lines(text);
    forall i | 0 <= i < n ensures IsTerminated(pieces[i]) {
      EarlierPiecesAreTerminated(text, i);
    }
    CountedBytes(pieces[..n], lines[..n]);
    TotalBytes(text, n);
    SomethingIsMissing(pieces, n);
  }

  lemma TotalBytes(text: string, n: nat)
    requires n <= |SplitInclusive(text)|
    ensures |text| == |Concat(SplitInclusive(text)[..n])| + |Concat(SplitInclusive(text)[n..])|
  {
    var pieces := SplitInclusive(text);
    SplitInclusiveLosesNothing(text);
    assert pieces == pieces[..n] + pieces[n..];
    ConcatAppend(pieces[..n], pieces[n..]);
  }

  lemma SomethingIsMissing(pieces: seq<string>, n: nat)
    requires n < |pieces| && pieces[n] != ""
    ensures |Concat(pieces[n..])| > 0
  {
  }
}
