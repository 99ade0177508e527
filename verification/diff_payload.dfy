/** Finding dbwarden's JSON payload behind arbitrary log output
    (tools/migration_player.py `parse_diff_output`, tools/case_runner.py `_parse_diff`). */
module DiffPayload {
  import opened Ordering
  import opened JsonText

  // ----- a finite view of the text: brackets outside strings, quotes inside -----

  /** Reading a document that began with `[`. The stack holds the brackets opened since and
      not closed. `Out`: outside strings; `In`: in a string; `Escaped`: after a backslash in
      a string; `Closed`: the first bracket is closed and only blanks may follow. */
  datatype Mode = Out(open: string) | In(open: string) | Escaped(open: string) | Closed | Dead

  function Pop(open: string, bracket: char): Mode {
    if open == [] then (if bracket == '[' then Closed else Dead)
    else if open[0] == bracket then Out(open[1..])
    else Dead
  }

  function Read(m: Mode, c: char): Mode {
    match m
    case Out(open) =>
      if c == '"' then In(open)
      else if c == '[' || c == '{' then Out([c] + open)
      else if c == ']' then Pop(open, '[')
      else if c == '}' then Pop(open, '{')
      else if c == '\\' then Dead
      else Out(open)
    case In(open) => if c == '"' then Out(open) else if c == '\\' then Escaped(open) else In(open)
    case Escaped(open) => if c == 'u' || SimpleEscape(c).Some? then In(open) else Dead
    case Closed => if IsSpace(c) then Closed else Dead
    case Dead => Dead
  }

  function ReadAll(m: Mode, s: string): Mode
    decreases |s|
  {
    if s == [] then m else ReadAll(Read(m, s[0]), s[1..])
  }

  lemma {:induction false} ReadConcat(m: Mode, a: string, b: string)
    ensures ReadAll(m, a + b) == ReadAll(ReadAll(m, a), b)
    decreases |a|
  {
    if a == [] {
      assert a + b == b;
    } else {
      assert (a + b)[1..] == a[1..] + b;
      ReadConcat(Read(m, a[0]), a[1..], b);
    }
  }

  lemma {:induction false} DeadStays(s: string)
    ensures ReadAll(Dead, s) == Dead
  {
    if s != [] { DeadStays(s[1..]); }
  }

  lemma {:induction false} SpaceIsNeutral(m: Mode, s: string)
    requires m.Out? || m.Closed?
    ensures ReadAll(m, s) == ReadAll(m, SkipSpace(s))
  {
    if s != [] && IsSpace(s[0]) { SpaceIsNeutral(m, s[1..]); }
  }

  /** A character that neither quotes, escapes nor brackets. */
  predicate Plain(c: char) {
    c != '"' && c != '\\' && c != '[' && c != ']' && c != '{' && c != '}'
  }

  lemma {:induction false} PlainIsNeutral(n: string, s: string, k: nat)
    requires k <= |s| && forall i :: 0 <= i < k ==> Plain(s[i])
    ensures ReadAll(Out(n), s) == ReadAll(Out(n), s[k..])
  {
    if k > 0 {
      PlainIsNeutral(n, s[1..], k - 1);
      assert s[1..][k - 1..] == s[k..];
    }
  }

  lemma {:induction false} UnitsReadBack(n: string, s: string)
    requires Units(s).Some?
    ensures ReadAll(In(n), s) == ReadAll(Out(n), Units(s).value.1)
  {
    if s[0] == '"' {
    } else if s[0] != '\\' {
      UnitsReadBack(n, s[1..]);
    } else if s[1] == 'u' {
      UnitsReadBack(n, s[6..]);
      HexIsNeutral(n, s);
    } else {
      UnitsReadBack(n, s[2..]);
      assert s[1..][1..] == s[2..];
    }
  }

  lemma HexIsNeutral(n: string, s: string)
    requires |s| >= 6 && s[0] == '\\' && s[1] == 'u' && Hex4(s[2..]).Some?
    ensures ReadAll(In(n), s) == ReadAll(In(n), s[6..])
  {
    var a, b, c, d := s[2], s[3], s[4], s[5];
    assert s == [s[0], 'u', a, b, c, d] + s[6..];
    ReadConcat(In(n), [s[0], 'u', a, b, c, d], s[6..]);
    assert HexValue(a).Some? && HexValue(b).Some? && HexValue(c).Some? && HexValue(d).Some?;
    ReadSix(n, [s[0], 'u', a, b, c, d]);
  }

  lemma ReadSix(n: string, t: string)
    requires |t| == 6 && t[0] == '\\' && t[1] == 'u'
    requires forall i :: 2 <= i < 6 ==> HexValue(t[i]).Some?
    ensures ReadAll(In(n), t) == In(n)
  {
    assert t == ['\\', 'u'] + t[2..];
    ReadConcat(In(n), ['\\', 'u'], t[2..]);
    assert ['\\', 'u'][1..] == ['u'] && ['u'][1..] == [];
    HexInString(n, t[2..]);
  }

  lemma {:induction false} HexInString(n: string, t: string)
    requires forall i :: 0 <= i < |t| ==> HexValue(t[i]).Some?
    ensures ReadAll(In(n), t) == In(n)
  {
    if t != [] { HexInString(n, t[1..]); }
  }

  predicate PlainTo(s: string, k: nat)
    requires k <= |s|
  {
    forall i :: 0 <= i < k ==> Plain(s[i])
  }

  lemma PlainJoin(s: string, j: nat, k: nat)
    requires j <= |s| && k <= |s[j..]| && PlainTo(s, j) && PlainTo(s[j..], k)
    ensures PlainTo(s, j + k)
  {
    forall i | j <= i < j + k ensures Plain(s[i]) {
      assert s[i] == s[j..][i - j];
    }
  }

  lemma ExponentIsPlain(s: string)
    ensures PlainTo(s, ExponentLength(s))
  {
    if ExponentLength(s) > 0 {
      var sign := if s[1] == '+' || s[1] == '-' then 1 else 0;
      PlainJoin(s, 1 + sign, Digits(s[1 + sign..]));
    }
  }

  lemma NumberIsPlain(s: string)
    ensures PlainTo(s, NumberLength(s))
  {
    if s != [] && s[0] == '-' {
      UnsignedIsPlain(s[1..]);
      if NumberLength(s) > 0 { PlainJoin(s, 1, UnsignedLength(s[1..])); }
    } else {
      UnsignedIsPlain(s);
    }
  }

  lemma UnsignedIsPlain(s: string)
    ensures PlainTo(s, UnsignedLength(s))
  {
    var whole := IntegerLength(s);
    if whole > 0 {
      var tail := s[whole..];
      if FractionLength(tail) > 0 { PlainJoin(tail, 1, Digits(tail[1..])); }
      ExponentIsPlain(tail[FractionLength(tail)..]);
      PlainJoin(tail, FractionLength(tail), ExponentLength(tail[FractionLength(tail)..]));
      PlainJoin(s, whole, TailLength(tail));
    }
  }

  lemma WordIsPlain(s: string)
    ensures forall i :: 0 <= i < |Word(s)| ==> Plain(Word(s)[i])
  {
  }

  /** Reading a value leaves the open brackets as they were. */
  lemma {:induction false} ValueReadsBack(n: string, s: string)
    requires Value(s).Some?
    ensures ReadAll(Out(n), s) == ReadAll(Out(n), Value(s).value.1)
    decreases |s|, 0
  {
    if s[0] == '"' {
      UnitsReadBack(n, s[1..]);
    } else if s[0] == '[' || s[0] == '{' {
      var m := [s[0]] + n;
      assert m[1..] == n;
      SpaceIsNeutral(Out(m), s[1..]);
      var inner := SkipSpace(s[1..]);
      if s[0] == '[' && inner[0] != ']' {
        ItemsReadBack(m, inner);
      } else if s[0] == '{' && inner[0] != '}' {
        FieldsReadBack(m, inner);
      }
    } else if NumberLength(s) > 0 {
      NumberIsPlain(s);
      PlainIsNeutral(n, s, NumberLength(s));
    } else {
      WordIsPlain(s);
      PlainIsNeutral(n, s, |Word(s)|);
    }
  }

  lemma {:induction false} ItemsReadBack(n: string, s: string)
    requires Items(s).Some?
    ensures ReadAll(Out(n), s) == ReadAll(Pop(n, '['), Items(s).value.1)
    decreases |s|, 1
  {
    ValueReadsBack(n, s);
    var rest := Value(s).value.1;
    SpaceIsNeutral(Out(n), rest);
    var after := SkipSpace(rest);
    if after[0] == ',' {
      SpaceIsNeutral(Out(n), after[1..]);
      ItemsReadBack(n, SkipSpace(after[1..]));
    }
  }

  /** A name and its colon. */
  lemma NameReadsBack(n: string, s: string)
    requires s != [] && s[0] == '"' && Units(s[1..]).Some?
    requires var colon := SkipSpace(Units(s[1..]).value.1); colon != [] && colon[0] == ':'
    ensures ReadAll(Out(n), s) == ReadAll(Out(n), SkipSpace(SkipSpace(Units(s[1..]).value.1)[1..]))
  {
    UnitsReadBack(n, s[1..]);
    var rest := Units(s[1..]).value.1;
    SpaceIsNeutral(Out(n), rest);
    SpaceIsNeutral(Out(n), SkipSpace(rest)[1..]);
  }

  lemma {:induction false} FieldsReadBack(n: string, s: string)
    requires Fields(s).Some?
    ensures ReadAll(Out(n), s) == ReadAll(Pop(n, '{'), Fields(s).value.1)
    decreases |s|, 1
  {
    NameReadsBack(n, s);
    var value := SkipSpace(SkipSpace(Units(s[1..]).value.1)[1..]);
    ValueReadsBack(n, value);
    var rest := Value(value).value.1;
    SpaceIsNeutral(Out(n), rest);
    var after := SkipSpace(rest);
    if after[0] == ',' {
      SpaceIsNeutral(Out(n), after[1..]);
      FieldsReadBack(n, SkipSpace(after[1..]));
    }
  }

  // ----- no bracket inside a document starts another document -----

  predicate IsDocument(s: string) {
    s != [] && s[0] == '[' && Loads(s).Some?
  }

  /** A document read on its own ends closed; read inside another it changes nothing. */
  lemma DocumentModes(s: string, n: string)
    requires IsDocument(s)
    ensures ReadAll(Out([]), s[1..]) == Closed
    ensures ReadAll(Out(n), s) == Out(n)
  {
    ValueReadsBack(n, s);
    var rest := Value(s).value.1;
    SpaceIsNeutral(Out(n), rest);
    var inner := SkipSpace(s[1..]);
    SpaceIsNeutral(Out([]), s[1..]);
    if inner[0] != ']' { ItemsReadBack([], inner); }
    SpaceIsNeutral(Closed, rest);
  }

  /** One reader is outside strings exactly where the other is inside them. */
  predicate Opposite(a: Mode, b: Mode) {
    || b.Dead? || a.Dead? || a.Closed?
    || (a.Out? && b.In?)
    || (a.In? && (b.Out? || b.Closed?))
  }

  /** Two readers in opposite modes stay so to the end: were the first outside strings
      there, the second is in an open string or has met a character it cannot read. */
  lemma {:induction false} OppositeReaders(a: Mode, b: Mode, s: string)
    requires Opposite(a, b)
    ensures ReadAll(a, s).Out? ==> ReadAll(b, s).In? || ReadAll(b, s).Dead?
    decreases |s|
  {
    if s != [] {
      OppositeReaders(Read(a, s[0]), Read(b, s[0]), s[1..]);
    }
  }

  /** However a reader stands when it meets a whole document, it does not end closed. */
  lemma DocumentInside(m: Mode, s: string)
    requires IsDocument(s)
    ensures ReadAll(m, s) != Closed
  {
    if m.Out? {
      DocumentModes(s, m.open);
    } else if m.In? {
      DocumentModes(s, []);
      OppositeReaders(Out([]), m, s);
    } else {
      assert Read(m, s[0]) == Dead;
      DeadStays(s[1..]);
    }
  }

  lemma NotNested(outer: string, k: nat)
    requires 0 < k < |outer| && IsDocument(outer)
    ensures !IsDocument(outer[k..])
  {
    DocumentModes(outer, []);
    assert outer[1..] == outer[1..k] + outer[k..];
    ReadConcat(Out([]), outer[1..k], outer[k..]);
    if IsDocument(outer[k..]) {
      DocumentInside(ReadAll(Out([]), outer[1..k]), outer[k..]);
    }
  }

  lemma NoneAfter(output: string, i: nat, j: nat)
    requires i < j < |output| && IsDocument(output[i..])
    ensures !IsDocument(output[j..])
  {
    assert output[i..][j - i..] == output[j..];
    NotNested(output[i..], j - i);
  }

  /** At most one bracket of a text starts a JSON document that runs to its end. */
  lemma OneDocument(output: string, i: nat, j: nat)
    requires i < |output| && j < |output|
    requires IsDocument(output[i..]) && IsDocument(output[j..])
    ensures i == j
  {
    if i < j { NoneAfter(output, i, j); }
    else if j < i { NoneAfter(output, j, i); }
  }

  // ----- the scan -----

  /** The payload is a list of objects. */
  predicate IsPayload(v: Json) {
    v.List? && forall i :: 0 <= i < |v.items| ==> v.items[i].Dict?
  }

  predicate PayloadAt(output: string, start: nat) {
    && start < |output|
    && IsDocument(output[start..])
    && IsPayload(Loads(output[start..]).value)
  }

  // ----- the limits of the interpreter -----

  /** How deep `json.loads` may nest and how many digits an integer may have. */
  datatype Limits = Limits(depth: nat, digits: nat)

  /** Digits of the number the text starts with, if it is an integer. */
  function IntegerDigits(s: string): nat {
    var unsigned := if s != [] && s[0] == '-' then s[1..] else s;
    if TailLength(unsigned[IntegerLength(unsigned)..]) == 0 then IntegerLength(unsigned) else 0
  }

  /** Reading a value meets a limit, `depth` levels being left: a RecursionError or a
      ValueError that is no JSONDecodeError. */
  predicate ValueEscapes(s: string, depth: nat, digits: nat)
    decreases |s|, 0
  {
    if s == [] || s[0] == '"' then false
    else if s[0] == '[' || s[0] == '{' then
      var inner := SkipSpace(s[1..]);
      depth == 0 || (if s[0] == '[' then ItemsEscape(inner, depth - 1, digits)
        else FieldsEscape(inner, depth - 1, digits))
    else NumberLength(s) > 0 && IntegerDigits(s) > digits
  }

  predicate ItemsEscape(s: string, depth: nat, digits: nat)
    decreases |s|, 1
  {
    ValueEscapes(s, depth, digits)
    || match Value(s)
       case None => false
       case Some((_, rest)) =>
         var after := SkipSpace(rest);
         after != [] && after[0] == ',' && ItemsEscape(SkipSpace(after[1..]), depth, digits)
  }

  predicate FieldsEscape(s: string, depth: nat, digits: nat)
    decreases |s|, 1
  {
    s != [] && s[0] == '"' && match Units(s[1..])
      case None => false
      case Some((_, rest)) =>
        var colon := SkipSpace(rest);
        colon != [] && colon[0] == ':' && (
          ValueEscapes(SkipSpace(colon[1..]), depth, digits)
          || match Value(SkipSpace(colon[1..]))
             case None => false
             case Some((_, rest')) =>
               var after := SkipSpace(rest');
               after != [] && after[0] == ',' && FieldsEscape(SkipSpace(after[1..]), depth, digits))
  }

  /** The bracket at this position starts a reading that the handler does not catch. */
  predicate EscapesAt(output: string, limits: Limits, start: nat) {
    && start < |output| && output[start] == '['
    && ValueEscapes(output[start..], limits.depth, limits.digits)
  }

  /** The scan is stopped by an exception: at some bracket, with no payload before it. */
  ghost predicate Stopped(output: string, limits: Limits) {
    exists i: nat :: EscapesAt(output, limits, i) && forall j: nat | j < i :: !PayloadAt(output, j)
  }

  /** The scan over every `[`; None is an exception. Unless it is stopped, whichever position
      carries a payload, that payload is what is returned, and when none does, the result is
      empty. */
  method ParseDiffOutput(output: string, limits: Limits) returns (items: Option<seq<Json>>)
    ensures items.None? <==> Stopped(output, limits)
    ensures forall start: nat | items.Some? && PayloadAt(output, start)
        :: items.value == Loads(output[start..]).value.items
    ensures items.Some? && (forall start: nat :: !PayloadAt(output, start)) ==> items.value == []
  {
    hide ValueEscapes, Loads;
    var start := 0;
    while start < |output|
      invariant 0 <= start <= |output|
      invariant forall i: nat | i < start :: !PayloadAt(output, i) && !EscapesAt(output, limits, i)
    {
      if output[start] == '[' {
        if ValueEscapes(output[start..], limits.depth, limits.digits) {
          assert EscapesAt(output, limits, start);
          return None;
        }
        var payload := Loads(output[start..]);
        if payload.Some? && IsPayload(payload.value) {
          assert PayloadAt(output, start);
          forall other: nat | PayloadAt(output, other) ensures other == start {
            OneDocument(output, start, other);
          }
          return Some(payload.value.items);
        }
      }
      start := start + 1;
    }
    items := Some([]);
  }

  /** The interpreter's limits apart, no log prefix, however full of brackets and quotes, hides or
      replaces the payload. */
  lemma NoPrefixHidesThePayload(prefix: string, document: string, start: nat)
    requires PayloadAt(document, 0)
    ensures PayloadAt(prefix + document, start) <==> start == |prefix|
    ensures Loads((prefix + document)[|prefix|..]) == Loads(document)
  {
    assert (prefix + document)[|prefix|..] == document == document[0..];
    if PayloadAt(prefix + document, start) {
      OneDocument(prefix + document, start, |prefix|);
    }
  }

  /** A prefix keeps a payload from being found exactly when one of its brackets starts a
      reading too deep or with too long an integer. */
  lemma PrefixStopsExactlyWhen(prefix: string, document: string, limits: Limits)
    requires PayloadAt(document, 0) && !EscapesAt(document, limits, 0)
    ensures Stopped(prefix + document, limits)
       <==> exists i: nat :: i < |prefix| && EscapesAt(prefix + document, limits, i)
  {
    hide ValueEscapes, Loads;
    var output := prefix + document;
    NoPrefixHidesThePayload(prefix, document, |prefix|);
    assert output[|prefix|..] == document == document[0..];
    forall j: nat | j < |prefix| ensures !PayloadAt(output, j) {
      NoPrefixHidesThePayload(prefix, document, j);
    }
  }

  function Times(n: nat, c: char): (r: string)
    ensures |r| == n && forall i | 0 <= i < n :: r[i] == c
  {
    if n == 0 then [] else [c] + Times(n - 1, c)
  }

  /** A bracket before a reading that goes past the limit, one level deeper. */
  lemma OneLevel(inner: string, depth: nat, digits: nat)
    requires inner != [] && !IsSpace(inner[0])
    requires depth > 0 ==> ValueEscapes(inner, depth - 1, digits)
    ensures ValueEscapes(['['] + inner, depth, digits) && Stopped(['['] + inner, Limits(depth, digits))
  {
    var output := ['['] + inner;
    assert output[1..] == inner == SkipSpace(inner) && output[0..] == output;
    if depth > 0 {
      hide ValueEscapes, Value;
      assert ItemsEscape(inner, depth - 1, digits);
    }
    assert ValueEscapes(output, depth, digits);
    assert EscapesAt(output, Limits(depth, digits), 0);
  }

  /** Whatever the limits and whatever follows, more brackets than the depth stop the scan. */
  lemma {:induction false} DeepPrefixStops(depth: nat, digits: nat, rest: string)
    ensures ValueEscapes(Times(depth + 1, '[') + rest, depth, digits)
    ensures Stopped(Times(depth + 1, '[') + rest, Limits(depth, digits))
    decreases depth
  {
    hide ValueEscapes, Stopped;
    var inner := Times(depth, '[') + rest;
    assert Times(depth + 1, '[') + rest == ['['] + inner;
    if depth > 0 {
      DeepPrefixStops(depth - 1, digits, rest);
      OneLevel(inner, depth, digits);
    } else {
      NoLevel(inner, digits);
    }
  }

  lemma NoLevel(inner: string, digits: nat)
    ensures ValueEscapes(['['] + inner, 0, digits) && Stopped(['['] + inner, Limits(0, digits))
  {
    var output := ['['] + inner;
    assert output[0..] == output;
    assert EscapesAt(output, Limits(0, digits), 0);
  }

  /** So does one integer with more digits than the limit. */
  lemma LongIntegerStops(depth: nat, digits: nat, document: string)
    requires document != [] && document[0] == '['
    ensures Stopped(['['] + (Times(digits + 1, '1') + document), Limits(depth, digits))
  {
    hide ValueEscapes, Stopped;
    if depth > 0 { LongIntegerEscapes(depth - 1, digits, document); }
    assert (Times(digits + 1, '1') + document)[0] == '1';
    OneLevel(Times(digits + 1, '1') + document, depth, digits);
  }

  lemma LongIntegerEscapes(depth: nat, digits: nat, document: string)
    requires document != [] && document[0] == '['
    ensures ValueEscapes(Times(digits + 1, '1') + document, depth, digits)
  {
    hide Value, Units, SkipSpace;
    var number := Times(digits + 1, '1') + document;
    DigitsOfTimes(digits + 1, document);
    assert number[0] == '1' && number[digits + 1..] == document;
    assert IntegerLength(number) == digits + 1 && TailLength(document) == 0;
  }

  lemma {:induction false} DigitsOfTimes(n: nat, rest: string)
    requires rest != [] && !IsDigit(rest[0])
    ensures Digits(Times(n, '1') + rest) == n
  {
    var s := Times(n, '1') + rest;
    if n > 0 {
      assert s[1..] == Times(n - 1, '1') + rest;
      DigitsOfTimes(n - 1, rest);
    }
  }

  /** The text without its trailing blanks. */
  function Trimmed(s: string): (r: string)
    ensures r <= s
    ensures r != [] ==> !IsSpace(r[|r| - 1])
  {
    if s != [] && IsSpace(s[|s| - 1]) then Trimmed(s[..|s| - 1]) else s
  }

  lemma LastStep(m: Mode, front: string, last: char)
    ensures ReadAll(m, front + [last]) == Read(ReadAll(m, front), last)
  {
    hide Read;
    ReadConcat(m, front, [last]);
    assert [last][1..] == [];
  }

  /** Only a bracket closes, and then only blanks follow. */
  lemma ClosedBy(m: Mode, last: char)
    requires Read(m, last) == Closed
    ensures last == ']' || (m == Closed && IsSpace(last))
  {
  }

  lemma TrimmedOnce(front: string, last: char)
    ensures Trimmed(front + [last]) == if IsSpace(last) then Trimmed(front) else front + [last]
  {
    assert (front + [last])[..|front|] == front;
  }

  lemma {:induction false} LastRead(m: Mode, s: string)
    requires ReadAll(m, s) == Closed && m != Closed
    ensures Trimmed(s) != [] && Trimmed(s)[|Trimmed(s)| - 1] == ']'
    decreases |s|
  {
    hide Read, IsSpace, Trimmed;
    var front, last := s[..|s| - 1], s[|s| - 1];
    assert s == front + [last];
    LastStep(m, front, last);
    ClosedBy(ReadAll(m, front), last);
    TrimmedOnce(front, last);
    if last == ']' {
      assert !IsSpace(']') by { NoBlank(); }
    } else {
      LastRead(m, front);
    }
  }

  lemma NoBlank()
    ensures !IsSpace(']')
  {
  }

  lemma {:induction false} TrimmedSuffix(a: string, b: string)
    requires Trimmed(b) != []
    ensures Trimmed(a + b) == a + Trimmed(b)
    decreases |b|
  {
    var whole := a + b;
    assert whole[|whole| - 1] == b[|b| - 1];
    if IsSpace(b[|b| - 1]) {
      assert whole[..|whole| - 1] == a + b[..|b| - 1];
      TrimmedSuffix(a, b[..|b| - 1]);
    }
  }

  /** Output whose last character, blanks apart, is not `]` carries no payload. */
  lemma PayloadEndsInBracket(output: string, start: nat)
    requires PayloadAt(output, start)
    ensures Trimmed(output) != [] && Trimmed(output)[|Trimmed(output)| - 1] == ']'
  {
    hide Value, SkipSpace, ReadAll, Trimmed;
    var document := output[start..];
    DocumentModes(document, []);
    LastRead(Out([]), document[1..]);
    assert output == output[..start + 1] + document[1..];
    TrimmedSuffix(output[..start + 1], document[1..]);
  }
}
