/** Which texts go past the interpreter's limits on depth and digits. */
module JsonLimits {
  import opened Ordering
  import opened JsonText
  import opened DiffPayload
  import opened JsonRender
  import opened JsonAccepts

  // ----- a document -----

  function Max(a: nat, b: nat): nat {
    if a < b then b else a
  }

  /** How many lists and dicts are open at its deepest place. */
  function Nesting(d: Doc): nat
    decreases d, 0
  {
    match d
    case DList(_, items) => 1 + NestingAll(items)
    case DDict(_, fields) => 1 + NestingOf(fields)
    case _ => 0
  }

  function NestingAll(items: seq<Entry>): nat
    decreases items, 1
  {
    if items == [] then 0 else Max(Nesting(items[0].value), NestingAll(items[1..]))
  }

  function NestingOf(fields: seq<Field>): nat
    decreases fields, 1
  {
    if fields == [] then 0 else Max(Nesting(fields[0].value), NestingOf(fields[1..]))
  }

  /** The digits of its longest integer. */
  function Longest(d: Doc): nat
    decreases d, 0
  {
    match d
    case DNumber(n) => if n.fraction.None? && n.exponent.None? then |n.whole| else 0
    case DList(_, items) => LongestAll(items)
    case DDict(_, fields) => LongestOf(fields)
    case _ => 0
  }

  function LongestAll(items: seq<Entry>): nat
    decreases items, 1
  {
    if items == [] then 0 else Max(Longest(items[0].value), LongestAll(items[1..]))
  }

  function LongestOf(fields: seq<Field>): nat
    decreases fields, 1
  {
    if fields == [] then 0 else Max(Longest(fields[0].value), LongestOf(fields[1..]))
  }

  lemma NumeralDigits(n: Numeral, rest: string)
    requires NumeralWritten(n) && Ends(rest)
    ensures IntegerDigits(NumeralText(n) + rest) == if n.fraction.None? && n.exponent.None? then |n.whole| else 0
  {
    hide IntegerLength, TailLength, AllDigits, UnsignedLength;
    UnsignedReads(n, rest);
    NumeralParts(n, rest);
    assert |FractionText(n)| > 0 <==> n.fraction.Some?;
    assert |ExponentText(n)| > 0 <==> n.exponent.Some?;
  }

  lemma NumberEscapes(n: Numeral, rest: string, depth: nat, digits: nat)
    requires NumeralWritten(n) && Ends(rest)
    ensures ValueEscapes(NumeralText(n) + rest, depth, digits) <==> Longest(DNumber(n)) > digits
  {
    hide NumberLength, NumeralText, NumeralWritten, IntegerDigits, Ends, ItemsEscape, FieldsEscape, SkipSpace;
    NumeralReads(n, rest);
    NumeralParts(n, rest);
    NumeralDigits(n, rest);
  }

  lemma WordEscapes(d: Doc, rest: string, depth: nat, digits: nat)
    requires d.DNull? || d.DBool? || (d.DConstant? && Written(d))
    ensures !ValueEscapes(Text(d) + rest, depth, digits)
  {
    hide NumberLength, IntegerDigits, ItemsEscape, FieldsEscape, SkipSpace;
    NoNumber(Text(d), rest);
    assert (Text(d) + rest)[0] == Text(d)[0];
  }

  lemma EmptyEscapes(d: Doc, rest: string, depth: nat, digits: nat)
    requires (d.DList? && d.items == []) || (d.DDict? && d.fields == [])
    requires Blank(d.inner)
    ensures ValueEscapes(Text(d) + rest, depth, digits) <==> depth == 0
  {
    hide *;
    var end := (if d.DList? then "]" else "}") + rest;
    SkipBlank(d.inner, end);
    NotBlankEither();
    NoSkip(end);
    ListEscapes(d.inner + end, depth, digits);
    EmptyText(d, rest);
    if depth > 0 { Closes(end, depth - 1, digits); }
  }

  lemma NotBlankEither()
    ensures !IsBlank(']') && !IsBlank('}')
  {
  }

  lemma EmptyText(d: Doc, rest: string)
    requires (d.DList? && d.items == []) || (d.DDict? && d.fields == [])
    requires Blank(d.inner)
    ensures Written(d)
    ensures Text(d) + rest
         == (if d.DList? then "[" else "{") + (d.inner + ((if d.DList? then "]" else "}") + rest))
  {
    hide Blank;
    var end := if d.DList? then "]" else "}";
    assert d.inner + (end + rest) == d.inner + end + rest;
  }

  lemma Closes(end: string, depth: nat, digits: nat)
    requires end != [] && (end[0] == ']' || end[0] == '}')
    ensures !ItemsEscape(end, depth, digits) && !FieldsEscape(end, depth, digits)
  {
    assert !ValueEscapes(end, depth, digits);
    assert Value(end).None? by {
      if Value(end).Some? { ValueHead(end); }
    }
  }

  lemma ListEscapes(inner: string, depth: nat, digits: nat)
    ensures ValueEscapes("[" + inner, depth, digits) <==> depth == 0 || ItemsEscape(SkipSpace(inner), depth - 1, digits)
    ensures ValueEscapes("{" + inner, depth, digits)
        <==> depth == 0 || FieldsEscape(SkipSpace(inner), depth - 1, digits)
  {
    hide ItemsEscape, FieldsEscape, SkipSpace;
    assert ("[" + inner)[1..] == inner && ("{" + inner)[1..] == inner;
  }

  /** Reading a document goes past a limit exactly when it is nested deeper, or has an
      integer with more digits. */
  lemma {:induction false} DocEscapesExactlyWhen(d: Doc, rest: string, depth: nat, digits: nat)
    requires Written(d) && Ends(rest)
    ensures ValueEscapes(Text(d) + rest, depth, digits) <==> Nesting(d) > depth || Longest(d) > digits
    decreases d, 0
  {
    hide ValueEscapes, ItemsEscape, FieldsEscape, SkipSpace, EntriesText, FieldsText, NumeralText, NumeralWritten,
      GlyphsWritten, NestingAll, NestingOf, LongestAll, LongestOf, Quoted;
    match d
    case DNumber(n) => NumberEscapes(n, rest, depth, digits);
    case DStr(gs) => StringEscapes(gs, rest, depth, digits);
    case DList(inner, items) =>
      if items == [] {
        EmptyEscapes(d, rest, depth, digits);
        NothingNested();
      } else {
        ListEscapes(EntriesText(items) + rest, depth, digits);
        assert Text(d) + rest == "[" + (EntriesText(items) + rest);
        if depth > 0 { EntriesEscape(items, rest, depth - 1, digits); }
      }
    case DDict(inner, fields) =>
      if fields == [] {
        EmptyEscapes(d, rest, depth, digits);
        NothingNested();
      } else {
        ListEscapes(FieldsText(fields) + rest, depth, digits);
        assert Text(d) + rest == "{" + (FieldsText(fields) + rest);
        if depth > 0 { EntriesOfEscape(fields, rest, depth - 1, digits); }
      }
    case _ => WordEscapes(d, rest, depth, digits);
  }

  lemma NothingNested()
    ensures NestingAll([]) == NestingOf([]) == LongestAll([]) == LongestOf([]) == 0
  {
  }

  lemma StringEscapes(gs: seq<Glyph>, rest: string, depth: nat, digits: nat)
    requires GlyphsWritten(gs)
    ensures !ValueEscapes(Quoted(gs) + rest, depth, digits)
  {
    assert (Quoted(gs) + rest)[0] == '"';
  }

  lemma ItemsEscapeUnfold(t: string, v: Json, rest: string, mark: char, more: string, depth: nat, digits: nat)
    requires Value(t) == Some((v, rest)) && SkipSpace(rest) == [mark] + more && (mark == ']' || mark == ',')
    ensures ItemsEscape(t, depth, digits)
       <==> ValueEscapes(t, depth, digits) || (mark == ',' && ItemsEscape(SkipSpace(more), depth, digits))
  {
    hide Value, SkipSpace, ValueEscapes;
    assert SkipSpace(rest)[1..] == more;
  }

  lemma {:induction false} EntriesEscape(items: seq<Entry>, rest: string, depth: nat, digits: nat)
    requires items != [] && EntriesWritten(items)
    ensures ItemsEscape(SkipSpace(EntriesText(items) + rest), depth, digits)
       <==> NestingAll(items) > depth || LongestAll(items) > digits
    decreases items, 1
  {
    hide Value, ValueEscapes, ItemsEscape, SkipSpace, Text, Meaning, Ends, Blank, Nesting, Longest;
    var x := items[0];
    var last := |items| == 1;
    var more := if last then rest else EntriesText(items[1..]) + rest;
    var mark := if last then ']' else ',';
    var end := x.after + ([mark] + more);
    var t := Text(x.value) + end;
    assert EntriesText(items) + rest == x.before + t;
    BlankEnds(x.after, mark, more);
    ValueReads(x.value, end);
    ValueHead(t);
    SkipBlank(x.before, t);
    ItemsEscapeUnfold(t, Meaning(x.value), end, mark, more, depth, digits);
    DocEscapesExactlyWhen(x.value, end, depth, digits);
    if last { NothingNested(); assert items[1..] == []; } else { EntriesEscape(items[1..], rest, depth, digits); }
  }

  lemma FieldsEscapeUnfold(t: string, units: seq<int>, afterName: string, afterColon: string, v: Json,
                           afterValue: string,
                           mark: char, more: string, depth: nat, digits: nat)
    requires t != [] && t[0] == '"' && Units(t[1..]) == Some((units, afterName))
    requires SkipSpace(afterName) == ":" + afterColon
    requires Value(SkipSpace(afterColon)) == Some((v, afterValue))
    requires SkipSpace(afterValue) == [mark] + more && (mark == '}' || mark == ',')
    ensures FieldsEscape(t, depth, digits)
       <==> || ValueEscapes(SkipSpace(afterColon), depth, digits)
            || (mark == ',' && FieldsEscape(SkipSpace(more), depth, digits))
  {
    hide Value, SkipSpace, Units, ValueEscapes;
    assert SkipSpace(afterName)[1..] == afterColon && SkipSpace(afterValue)[1..] == more;
  }

  lemma {:induction false} EntriesOfEscape(fields: seq<Field>, rest: string, depth: nat, digits: nat)
    requires fields != [] && FieldsWritten(fields)
    ensures FieldsEscape(SkipSpace(FieldsText(fields) + rest), depth, digits)
       <==> NestingOf(fields) > depth || LongestOf(fields) > digits
    decreases fields, 1
  {
    hide Value, ValueEscapes, FieldsEscape, Units, SkipSpace, Text, Meaning, Quoted, Ends, Blank, GlyphWritten,
      Nesting, Longest, JoinSurrogates, CodesOf;
    var f := fields[0];
    var last := |fields| == 1;
    var more := if last then rest else FieldsText(fields[1..]) + rest;
    var mark := if last then '}' else ',';
    var end := f.after + ([mark] + more);
    var value := Text(f.value) + end;
    var t := Quoted(f.name) + (f.colon + (":" + (f.gap + value)));
    assert FieldsText(fields) + rest == f.before + t;
    BlankEnds(f.after, mark, more);
    ValueReads(f.value, end);
    ValueHead(value);
    SkipBlank(f.gap, value);
    QuotedReads(f.name, f.colon + (":" + (f.gap + value)));
    SkipBlank(f.colon, ":" + (f.gap + value));
    NoSkip(":" + (f.gap + value)) by { NotBlank(); }
    SkipBlank(f.before, t);
    NoSkip(t) by { NotBlank(); }
    FieldsEscapeUnfold(t, AllUnits(f.name), f.colon + (":" + (f.gap + value)), f.gap + value,
                       Meaning(f.value), end, mark, more, depth, digits);
    DocEscapesExactlyWhen(f.value, end, depth, digits);
    if last { NothingNested(); assert fields[1..] == []; } else { EntriesOfEscape(fields[1..], rest, depth, digits); }
  }

  lemma NotBlank()
    ensures !IsBlank(':') && !IsBlank('"')
  {
  }

  // ----- any text -----

  /** How many brackets and braces a text opens, inside strings and out. */
  function Opens(s: string): nat {
    if s == [] then 0 else (if s[0] == '[' || s[0] == '{' then 1 else 0) + Opens(s[1..])
  }

  /** So many digits in a row. */
  predicate RunAt(s: string, i: nat, n: nat) {
    i + n <= |s| && forall k | i <= k < i + n :: IsDecimal(s[k])
  }

  ghost predicate HasRun(s: string, n: nat) {
    exists i: nat :: RunAt(s, i, n)
  }

  predicate EndOf(t: string, s: string) {
    |t| <= |s| && s[|s| - |t|..] == t
  }

  lemma {:induction false} EndHasLess(t: string, s: string, n: nat)
    requires EndOf(t, s)
    ensures Opens(t) <= Opens(s) && (HasRun(t, n) ==> HasRun(s, n))
    decreases |s|
  {
    if |t| == |s| {
      assert t == s;
    } else {
      assert EndOf(t, s[1..]);
      EndHasLess(t, s[1..], n);
      if HasRun(s[1..], n) {
        var i: nat :| RunAt(s[1..], i, n);
        assert forall k | i + 1 <= k < i + 1 + n :: s[k] == s[1..][k - 1];
        assert RunAt(s, i + 1, n);
      }
    }
  }

  lemma {:induction false} SkipSpaceIsEnd(s: string)
    ensures EndOf(SkipSpace(s), s)
  {
    if s != [] && IsSpace(s[0]) { SkipSpaceIsEnd(s[1..]); }
  }

  lemma ValueRestIsEnd(s: string)
    requires Value(s).Some?
    ensures EndOf(Value(s).value.1, s)
  {
    hide Value, Text, Written, Meaning;
    var d := DocOf(s);
  }

  lemma UnitsRestIsEnd(s: string)
    requires Units(s).Some?
    ensures EndOf(Units(s).value.1, s)
  {
    hide Units;
    var gs := GlyphsOf(s);
    assert s == (GlyphsText(gs) + "\"") + Units(s).value.1;
  }

  lemma EndOfEnd(a: string, b: string, c: string)
    requires EndOf(a, b) && EndOf(b, c)
    ensures EndOf(a, c)
  {
  }

  /** The text past a limit. */
  ghost predicate Within(s: string, depth: nat, digits: nat) {
    Opens(s) <= depth && !HasRun(s, digits + 1)
  }

  lemma EndWithin(t: string, s: string, depth: nat, digits: nat)
    requires EndOf(t, s) && Within(s, depth, digits)
    ensures Within(t, depth, digits)
  {
    EndHasLess(t, s, digits + 1);
  }

  lemma IntegerRuns(s: string, digits: nat)
    requires NumberLength(s) > 0 && IntegerDigits(s) > digits
    ensures HasRun(s, digits + 1)
  {
    hide TailLength;
    var i := if s[0] == '-' then 1 else 0;
    assert forall k | i <= k < i + digits + 1 :: s[k] == s[i..][k - i];
    assert i == 0 ==> s[i..] == s;
    assert RunAt(s, i, digits + 1);
  }

  /** A text with no more brackets than the depth and no longer run of digits goes past no
      limit, whatever is wrong with it. */
  lemma {:induction false} FewNeverEscape(s: string, depth: nat, digits: nat)
    requires Within(s, depth, digits)
    ensures !ValueEscapes(s, depth, digits)
    decreases |s|, 0
  {
    hide Within, NumberLength, IntegerDigits, SkipSpace;
    if s != [] && (s[0] == '[' || s[0] == '{') {
      OneLess(s, depth, digits);
      SkipSpaceIsEnd(s[1..]);
      EndWithin(SkipSpace(s[1..]), s[1..], depth - 1, digits);
      if s[0] == '[' { FewItems(SkipSpace(s[1..]), depth - 1, digits); }
      else { FewFields(SkipSpace(s[1..]), depth - 1, digits); }
    } else if NumberLength(s) > 0 && IntegerDigits(s) > digits {
      IntegerRuns(s, digits);
      RunPasses(s, depth, digits);
    }
  }

  lemma RunPasses(s: string, depth: nat, digits: nat)
    requires HasRun(s, digits + 1)
    ensures !Within(s, depth, digits)
  {
  }

  lemma OneLess(s: string, depth: nat, digits: nat)
    requires s != [] && (s[0] == '[' || s[0] == '{') && Within(s, depth, digits)
    ensures depth > 0 && Within(s[1..], depth - 1, digits)
  {
    EndHasLess(s[1..], s, digits + 1);
  }

  lemma {:induction false} FewItems(s: string, depth: nat, digits: nat)
    requires Within(s, depth, digits)
    ensures !ItemsEscape(s, depth, digits)
    decreases |s|, 1
  {
    hide Within, Value, ValueEscapes, SkipSpace, EndOf;
    FewNeverEscape(s, depth, digits);
    if Value(s).Some? {
      var rest := Value(s).value.1;
      var after := SkipSpace(rest);
      ValueRestIsEnd(s);
      SkipSpaceIsEnd(rest);
      EndOfEnd(after, rest, s);
      if after != [] && after[0] == ',' {
        TailIsEnd(after, s);
        SkipSpaceIsEnd(after[1..]);
        EndOfEnd(SkipSpace(after[1..]), after[1..], s);
        EndWithin(SkipSpace(after[1..]), s, depth, digits);
        FewItems(SkipSpace(after[1..]), depth, digits);
      }
    }
  }

  lemma TailIsEnd(t: string, s: string)
    requires EndOf(t, s) && t != []
    ensures EndOf(t[1..], s)
  {
  }

  lemma {:induction false} FewFields(s: string, depth: nat, digits: nat)
    requires Within(s, depth, digits)
    ensures !FieldsEscape(s, depth, digits)
    decreases |s|, 1
  {
    hide Within, Value, ValueEscapes, SkipSpace, EndOf, Units;
    if s != [] && s[0] == '"' && Units(s[1..]).Some? {
      var rest := Units(s[1..]).value.1;
      var colon := SkipSpace(rest);
      EndOfItself(s);
      TailIsEnd(s, s);
      UnitsRestIsEnd(s[1..]);
      EndOfEnd(rest, s[1..], s);
      SkipSpaceIsEnd(rest);
      EndOfEnd(colon, rest, s);
      if colon != [] && colon[0] == ':' {
        TailIsEnd(colon, s);
        SkipSpaceIsEnd(colon[1..]);
        EndOfEnd(SkipSpace(colon[1..]), colon[1..], s);
        FewInValue(s, SkipSpace(colon[1..]), depth, digits);
      }
    }
  }

  lemma EndOfItself(s: string)
    ensures EndOf(s, s)
  {
  }

  /** The value of a field, and the fields after it. */
  lemma {:induction false} FewInValue(s: string, value: string, depth: nat, digits: nat)
    requires Within(s, depth, digits) && EndOf(value, s) && |value| < |s|
    ensures !ValueEscapes(value, depth, digits)
    ensures Value(value).Some? ==>
      var after := SkipSpace(Value(value).value.1);
      after != [] ==> !FieldsEscape(SkipSpace(after[1..]), depth, digits)
    decreases |s|, 0
  {
    hide Within, Value, ValueEscapes, SkipSpace, EndOf, FieldsEscape;
    EndWithin(value, s, depth, digits);
    FewNeverEscape(value, depth, digits);
    if Value(value).Some? {
      var rest := Value(value).value.1;
      var after := SkipSpace(rest);
      ValueRestIsEnd(value);
      EndOfEnd(rest, value, s);
      SkipSpaceIsEnd(rest);
      EndOfEnd(after, rest, s);
      if after != [] {
        TailIsEnd(after, s);
        SkipSpaceIsEnd(after[1..]);
        EndOfEnd(SkipSpace(after[1..]), after[1..], s);
        EndWithin(SkipSpace(after[1..]), s, depth, digits);
        FewFields(SkipSpace(after[1..]), depth, digits);
      }
    }
  }

  /** So output with few brackets and short runs of digits never stops the scan. */
  lemma FewNeverStop(output: string, limits: Limits)
    requires Opens(output) <= limits.depth && !HasRun(output, limits.digits + 1)
    ensures !Stopped(output, limits)
  {
    hide ValueEscapes, Opens, HasRun, PayloadAt;
    forall i: nat | i < |output| ensures !EscapesAt(output, limits, i) {
      assert EndOf(output[i..], output);
      EndWithin(output[i..], output, limits.depth, limits.digits);
      FewNeverEscape(output[i..], limits.depth, limits.digits);
    }
  }
}
