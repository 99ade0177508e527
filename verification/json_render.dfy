/** The texts of RFC 8259, sections 2 to 7, as trees with their layout and spelling. The
    parser accepts exactly these texts, and reads in each the value it stands for. */
module JsonRender {
  import opened Ordering
  import opened JsonText
  import opened DiffPayload

  // ----- strings -----

  /** One character of a string literal as it is written: itself, a backslash and a letter,
      `\u` and four hexadecimal digits, or two of those for a code point beyond U+FFFF.
      `capitals` says which digits above 9 are capital letters. */
  datatype Glyph =
    | Raw(c: char)
    | Short(code: int)
    | Unicode(unit: int, capitals: seq<bool>)
    | Pair(code: int, capitals: seq<bool>)

  /** The letter of a short escape. */
  function Letter(code: int): Option<char> {
    match code
    case 8 => Some('b')
    case 9 => Some('t')
    case 10 => Some('n')
    case 12 => Some('f')
    case 13 => Some('r')
    case 34 => Some('"')
    case 47 => Some('/')
    case 92 => Some('\\')
    case _ => None
  }

  predicate IsHigh(unit: int) {
    0xD800 <= unit < 0xDC00
  }

  predicate IsLow(unit: int) {
    0xDC00 <= unit < 0xE000
  }

  /** The surrogates of a code point beyond U+FFFF. */
  function High(code: int): int {
    0xD800 + (code - 0x10000) / 0x400
  }

  function Low(code: int): int {
    0xDC00 + (code - 0x10000) % 0x400
  }

  function HexDigit(n: int, capital: bool): char
    requires 0 <= n < 16
  {
    if n < 10 then '0' + n as char else (if capital then 'A' else 'a') + (n - 10) as char
  }

  function HexText(u: int, capitals: seq<bool>): string
    requires 0 <= u < 0x10000 && |capitals| == 4
  {
    [HexDigit(u / 4096, capitals[0]), HexDigit(u / 256 % 16, capitals[1]),
     HexDigit(u / 16 % 16, capitals[2]), HexDigit(u % 16, capitals[3])]
  }

  predicate GlyphWritten(g: Glyph) {
    match g
    case Raw(c) => c != '"' && c != '\\' && c >= ' '
    case Short(code) => Letter(code).Some?
    case Unicode(unit, capitals) => 0 <= unit < 0x10000 && |capitals| == 4
    case Pair(code, capitals) => 0x10000 <= code < 0x110000 && |capitals| == 8
  }

  function GlyphText(g: Glyph): string
    requires GlyphWritten(g)
  {
    match g
    case Raw(c) => [c]
    case Short(code) => ['\\', Letter(code).value]
    case Unicode(unit, capitals) => "\\u" + HexText(unit, capitals)
    case Pair(code, capitals) =>
      ("\\u" + HexText(High(code), capitals[..4])) + ("\\u" + HexText(Low(code), capitals[4..]))
  }

  /** The code point a glyph stands for; a surrogate written alone stands for itself. */
  function CodeOf(g: Glyph): int {
    match g
    case Raw(c) => c as int
    case Short(code) => code
    case Unicode(unit, _) => unit
    case Pair(code, _) => code
  }

  /** All glyphs can be written, and no two would be read as one. */
  ghost predicate GlyphsWritten(gs: seq<Glyph>) {
    && (forall i | 0 <= i < |gs| :: GlyphWritten(gs[i]))
    && (forall i | 0 <= i < |gs| - 1
      :: !(gs[i].Unicode? && IsHigh(gs[i].unit) && gs[i + 1].Unicode? && IsLow(gs[i + 1].unit)))
  }

  function GlyphsText(gs: seq<Glyph>): string
    requires forall i | 0 <= i < |gs| :: GlyphWritten(gs[i])
  {
    if gs == [] then [] else GlyphText(gs[0]) + GlyphsText(gs[1..])
  }

  function CodesOf(gs: seq<Glyph>): (r: seq<int>)
    ensures |r| == |gs|
    ensures forall i | 0 <= i < |r| :: r[i] == CodeOf(gs[i])
  {
    seq(|gs|, i requires 0 <= i < |gs| => CodeOf(gs[i]))
  }

  function Quoted(gs: seq<Glyph>): string
    requires forall i | 0 <= i < |gs| :: GlyphWritten(gs[i])
  {
    "\"" + GlyphsText(gs) + "\""
  }

  // ----- numbers -----

  datatype Exponent = Exponent(mark: char, sign: string, digits: string)

  datatype Numeral = Numeral(minus: bool, whole: string, fraction: Option<string>, exponent: Option<Exponent>)

  predicate IsDecimal(c: char) {
    '0' <= c <= '9'
  }

  predicate AllDigits(s: string) {
    s != [] && forall i | 0 <= i < |s| :: IsDecimal(s[i])
  }

  predicate NumeralWritten(n: Numeral) {
    && AllDigits(n.whole) && (n.whole[0] == '0' ==> |n.whole| == 1)
    && (n.fraction.Some? ==> AllDigits(n.fraction.value))
    && (n.exponent.Some? ==>
          && (n.exponent.value.mark == 'e' || n.exponent.value.mark == 'E')
          && (n.exponent.value.sign == "" || n.exponent.value.sign == "+" || n.exponent.value.sign == "-")
          && AllDigits(n.exponent.value.digits))
  }

  function FractionText(n: Numeral): string {
    match n.fraction case None => "" case Some(f) => "." + f
  }

  function ExponentText(n: Numeral): string {
    match n.exponent case None => "" case Some(e) => [e.mark] + e.sign + e.digits
  }

  function AfterWhole(n: Numeral): string {
    FractionText(n) + ExponentText(n)
  }

  function NumeralText(n: Numeral): string {
    (if n.minus then "-" else "") + (n.whole + AfterWhole(n))
  }

  // ----- documents -----

  /** A list or dict keeps the blanks around its items; `inner` are those of an empty one.
      A name can come more than once. */
  datatype Doc =
    | DNull
    | DBool(value: bool)
    | DConstant(word: string)
    | DNumber(numeral: Numeral)
    | DStr(glyphs: seq<Glyph>)
    | DList(inner: string, items: seq<Entry>)
    | DDict(inner: string, fields: seq<Field>)

  datatype Entry = Entry(before: string, value: Doc, after: string)
  datatype Field = Field(before: string, name: seq<Glyph>, colon: string, gap: string, value: Doc, after: string)

  predicate IsBlank(c: char) {
    c == ' ' || c == '\t' || c == '\n' || c == '\r'
  }

  ghost predicate Blank(w: string) {
    forall i | 0 <= i < |w| :: IsBlank(w[i])
  }

  ghost predicate Written(d: Doc) {
    match d
    case DConstant(word) => word == "NaN" || word == "Infinity" || word == "-Infinity"
    case DNumber(n) => NumeralWritten(n)
    case DStr(gs) => GlyphsWritten(gs)
    case DList(inner, items) =>
      Blank(inner) && forall x | x in items :: Blank(x.before) && Written(x.value) && Blank(x.after)
    case DDict(inner, fields) =>
      Blank(inner) && forall f | f in fields ::
        Blank(f.before) && GlyphsWritten(f.name) && Blank(f.colon) && Blank(f.gap) && Written(f.value) && Blank(f.after)
    case _ => true
  }

  ghost function Text(d: Doc): string
    requires Written(d)
    decreases d, 0
  {
    match d
    case DNull => "null"
    case DBool(b) => if b then "true" else "false"
    case DConstant(word) => word
    case DNumber(n) => NumeralText(n)
    case DStr(gs) => Quoted(gs)
    case DList(inner, items) => "[" + (if items == [] then inner + "]" else EntriesText(items))
    case DDict(inner, fields) => "{" + (if fields == [] then inner + "}" else FieldsText(fields))
  }

  ghost predicate EntriesWritten(items: seq<Entry>) {
    forall x | x in items :: Blank(x.before) && Written(x.value) && Blank(x.after)
  }

  ghost predicate FieldsWritten(fields: seq<Field>) {
    forall f | f in fields ::
      Blank(f.before) && GlyphsWritten(f.name) && Blank(f.colon) && Blank(f.gap) && Written(f.value) && Blank(f.after)
  }

  ghost function EntriesText(items: seq<Entry>): string
    requires items != [] && EntriesWritten(items)
    decreases items, 1
  {
    items[0].before + (Text(items[0].value) + (items[0].after +
      if |items| == 1 then "]" else "," + EntriesText(items[1..])))
  }

  ghost function FieldsText(fields: seq<Field>): string
    requires fields != [] && FieldsWritten(fields)
    decreases fields, 1
  {
    fields[0].before + (Quoted(fields[0].name) + (fields[0].colon + (":" + (fields[0].gap +
      (Text(fields[0].value) + (fields[0].after + if |fields| == 1 then "}" else "," + FieldsText(fields[1..])))))))
  }

  /** The value a document stands for. */
  function Meaning(d: Doc): Json
    decreases d, 0
  {
    match d
    case DNull => Null
    case DBool(b) => Bool(b)
    case DConstant(word) => Number(word)
    case DNumber(n) => Number(NumeralText(n))
    case DStr(gs) => Str(CodesOf(gs))
    case DList(_, items) => List(Meanings(items))
    case DDict(_, fields) => Dict(Fielded(fields))
  }

  function Meanings(items: seq<Entry>): seq<Json>
    decreases items, 1
  {
    seq(|items|, i requires 0 <= i < |items| => Meaning(items[i].value))
  }

  /** A name that comes more than once has its last value. */
  function Fielded(fields: seq<Field>): map<seq<int>, Json>
    decreases fields, 1
  {
    map name | name in Names(fields) :: Meaning(fields[LastNamed(fields, name)].value)
  }

  function Names(fields: seq<Field>): set<seq<int>> {
    set f | f in fields :: CodesOf(f.name)
  }

  function LastNamed(fields: seq<Field>, name: seq<int>): (k: nat)
    requires name in Names(fields)
    ensures k < |fields| && CodesOf(fields[k].name) == name
    ensures forall i | k < i < |fields| :: CodesOf(fields[i].name) != name
  {
    if CodesOf(fields[|fields| - 1].name) == name then |fields| - 1
    else
      assert fields == fields[..|fields| - 1] + [fields[|fields| - 1]];
      LastNamed(fields[..|fields| - 1], name)
  }

  // ----- blanks -----

  lemma {:induction false} SkipBlank(w: string, rest: string)
    requires Blank(w)
    ensures SkipSpace(w + rest) == SkipSpace(rest)
  {
    if w == [] {
      assert w + rest == rest;
    } else {
      assert (w + rest)[1..] == w[1..] + rest;
      SkipBlank(w[1..], rest);
    }
  }

  lemma {:induction false} Blanks(s: string) returns (w: string)
    ensures Blank(w) && s == w + SkipSpace(s)
  {
    if s != [] && IsSpace(s[0]) {
      w := Blanks(s[1..]);
      w := [s[0]] + w;
    } else {
      w := "";
    }
  }

  // ----- strings are read -----

  lemma HexDigitReads(n: int, capital: bool)
    requires 0 <= n < 16
    ensures HexValue(HexDigit(n, capital)) == Some(n)
  {
  }

  lemma HexReads(u: int, capitals: seq<bool>, tail: string)
    requires 0 <= u < 0x10000 && |capitals| == 4
    ensures Hex4(HexText(u, capitals) + tail) == Some(u)
  {
    hide HexDigit, HexValue;
    HexDigitReads(u / 4096, capitals[0]);
    HexDigitReads(u / 256 % 16, capitals[1]);
    HexDigitReads(u / 16 % 16, capitals[2]);
    HexDigitReads(u % 16, capitals[3]);
    var a, b, c, e := u / 4096, u / 256 % 16, u / 16 % 16, u % 16;
    InBaseSixteen(u);
    var t := HexText(u, capitals) + tail;
    FourDigits(t, a, b, c, e);
  }

  lemma InBaseSixteen(u: int)
    requires 0 <= u < 0x10000
    ensures 0 <= u / 4096 < 16
    ensures ((u / 4096 * 16 + u / 256 % 16) * 16 + u / 16 % 16) * 16 + u % 16 == u
  {
    assert u / 256 == u / 4096 * 16 + u / 256 % 16;
    assert u / 16 == u / 256 * 16 + u / 16 % 16;
  }

  lemma FourDigits(t: string, a: int, b: int, c: int, e: int)
    requires |t| >= 4 && HexValue(t[0]) == Some(a) && HexValue(t[1]) == Some(b)
    requires HexValue(t[2]) == Some(c) && HexValue(t[3]) == Some(e)
    ensures Hex4(t) == Some(((a * 16 + b) * 16 + c) * 16 + e)
  {
    hide HexValue;
  }

  lemma UnicodeReads(u: int, capitals: seq<bool>, tail: string)
    requires 0 <= u < 0x10000 && |capitals| == 4
    ensures Units("\\u" + HexText(u, capitals) + tail) == Prepend(u, Units(tail))
  {
    hide Hex4, HexDigit;
    HexReads(u, capitals, tail);
    var s := "\\u" + HexText(u, capitals) + tail;
    assert s[2..] == HexText(u, capitals) + tail && s[6..] == tail;
  }

  lemma ShortReads(code: int, tail: string)
    requires Letter(code).Some?
    ensures Units(['\\', Letter(code).value] + tail) == Prepend(code, Units(tail))
  {
    var s := ['\\', Letter(code).value] + tail;
    assert s[2..] == tail;
    assert SimpleEscape(Letter(code).value) == Some(code);
  }

  /** What the literal's characters are before surrogates are joined. */
  function UnitsOf(g: Glyph): seq<int> {
    if g.Pair? then [High(g.code), Low(g.code)] else [CodeOf(g)]
  }

  function AllUnits(gs: seq<Glyph>): seq<int> {
    if gs == [] then [] else UnitsOf(gs[0]) + AllUnits(gs[1..])
  }

  lemma RawReads(c: char, tail: string)
    requires c != '"' && c != '\\' && c >= ' '
    ensures Units([c] + tail) == Prepend(c as int, Units(tail))
  {
    assert ([c] + tail)[1..] == tail;
  }

  lemma PairReads(code: int, capitals: seq<bool>, tail: string)
    requires GlyphWritten(Pair(code, capitals))
    ensures Units(GlyphText(Pair(code, capitals)) + tail) == Prepend(High(code), Prepend(Low(code), Units(tail)))
  {
    hide Units, HexText, Prepend;
    var first, second := "\\u" + HexText(High(code), capitals[..4]), "\\u" + HexText(Low(code), capitals[4..]);
    UnicodeReads(Low(code), capitals[4..], tail);
    UnicodeReads(High(code), capitals[..4], second + tail);
    assert (first + second) + tail == first + (second + tail);
  }

  lemma GlyphReads(g: Glyph, tail: string)
    requires GlyphWritten(g) && Units(tail).Some?
    ensures Units(GlyphText(g) + tail) == Some((UnitsOf(g) + Units(tail).value.0, Units(tail).value.1))
  {
    hide HexText, Units, High, Low;
    match g
    case Raw(c) => RawReads(c, tail);
    case Short(code) => ShortReads(code, tail);
    case Unicode(unit, capitals) => UnicodeReads(unit, capitals, tail);
    case Pair(code, capitals) =>
      PairReads(code, capitals, tail);
      var units := Units(tail).value.0;
      assert [High(code)] + ([Low(code)] + units) == [High(code), Low(code)] + units;
  }

  lemma UnitsOfQuote(rest: string)
    ensures Units("\"" + rest) == Some(([], rest))
  {
    assert ("\"" + rest)[1..] == rest;
  }

  lemma {:induction false} GlyphsRead(gs: seq<Glyph>, rest: string)
    requires forall i | 0 <= i < |gs| :: GlyphWritten(gs[i])
    ensures Units(GlyphsText(gs) + ("\"" + rest)) == Some((AllUnits(gs), rest))
  {
    hide Units, GlyphText, UnitsOf, GlyphWritten;
    var end := "\"" + rest;
    UnitsOfQuote(rest);
    if gs == [] {
      assert GlyphsText(gs) + end == end;
    } else {
      var tail := GlyphsText(gs[1..]) + end;
      GlyphsRead(gs[1..], rest);
      assert GlyphsText(gs) + end == GlyphText(gs[0]) + tail;
      GlyphReads(gs[0], tail);
    }
  }

  lemma PairJoins(code: int, units: seq<int>)
    requires 0x10000 <= code < 0x110000
    ensures JoinSurrogates([High(code), Low(code)] + units) == [code] + JoinSurrogates(units)
  {
    var s := [High(code), Low(code)] + units;
    assert s[2..] == units;
  }

  lemma AloneJoins(unit: int, units: seq<int>)
    requires IsHigh(unit) && units != [] ==> !IsLow(units[0])
    ensures JoinSurrogates([unit] + units) == [unit] + JoinSurrogates(units)
  {
    var s := [unit] + units;
    assert s[1..] == units;
  }

  /** A list of glyphs stands for its code points. */
  lemma {:induction false} GlyphsJoin(gs: seq<Glyph>)
    requires GlyphsWritten(gs)
    ensures JoinSurrogates(AllUnits(gs)) == CodesOf(gs)
  {
    hide JoinSurrogates, High, Low;
    if gs == [] {
      assert AllUnits(gs) == [] && JoinSurrogates([]) == [] by { NothingJoins(); }
    } else {
      assert gs[0] in gs && GlyphWritten(gs[0]);
      assert GlyphsWritten(gs[1..]) by { WrittenTail(gs); }
      GlyphsJoin(gs[1..]);
      if gs[0].Pair? {
        PairJoins(gs[0].code, AllUnits(gs[1..]));
      } else {
        if |gs| > 1 { SecondUnit(gs); }
        AloneJoins(CodeOf(gs[0]), AllUnits(gs[1..]));
      }
      assert CodesOf(gs) == [CodeOf(gs[0])] + CodesOf(gs[1..]);
    }
  }

  lemma NothingJoins()
    ensures JoinSurrogates([]) == []
  {
  }

  lemma WrittenTail(gs: seq<Glyph>)
    requires GlyphsWritten(gs) && gs != []
    ensures GlyphsWritten(gs[1..])
  {
    var t := gs[1..];
    forall i | 0 <= i < |t| - 1
      ensures !(t[i].Unicode? && IsHigh(t[i].unit) && t[i + 1].Unicode? && IsLow(t[i + 1].unit))
    {
      assert t[i] == gs[i + 1] && t[i + 1] == gs[i + 2];
    }
  }

  lemma SecondUnit(gs: seq<Glyph>)
    requires GlyphsWritten(gs) && |gs| > 1 && !gs[0].Pair?
    ensures AllUnits(gs[1..]) != [] && !(IsHigh(CodeOf(gs[0])) && IsLow(AllUnits(gs[1..])[0]))
  {
    assert GlyphWritten(gs[0]) && GlyphWritten(gs[1]);
    assert !(gs[0].Unicode? && IsHigh(gs[0].unit) && gs[1].Unicode? && IsLow(gs[1].unit));
    assert gs[1..][0] == gs[1];
  }

  lemma QuotedReads(gs: seq<Glyph>, rest: string)
    requires GlyphsWritten(gs)
    ensures var t := Quoted(gs) + rest;
            && t != [] && t[0] == '"' && Units(t[1..]) == Some((AllUnits(gs), rest))
            && JoinSurrogates(AllUnits(gs)) == CodesOf(gs)
  {
    hide Units, JoinSurrogates, GlyphsText, AllUnits;
    assert Quoted(gs) + rest == "\"" + (GlyphsText(gs) + ("\"" + rest));
    assert (Quoted(gs) + rest)[1..] == GlyphsText(gs) + ("\"" + rest);
    GlyphsRead(gs, rest);
    GlyphsJoin(gs);
  }

  // ----- numbers are read -----

  /** What may follow a value: nothing, a blank, or one of the punctuation marks. */
  predicate Ends(rest: string) {
    rest == [] || IsBlank(rest[0]) || rest[0] == ',' || rest[0] == ']' || rest[0] == '}'
  }

  /** Digits, and then no more of them. */
  lemma {:induction false} DigitsRead(digits: string, rest: string)
    requires forall i | 0 <= i < |digits| :: IsDecimal(digits[i])
    requires rest == [] || !IsDecimal(rest[0])
    ensures Digits(digits + rest) == |digits|
  {
    if digits == [] {
      assert digits + rest == rest;
    } else {
      assert (digits + rest)[1..] == digits[1..] + rest;
      DigitsRead(digits[1..], rest);
    }
  }

  lemma SignedDigits(t: string, mark: char, sign: string, digits: string, rest: string)
    requires (mark == 'e' || mark == 'E') && (sign == "" || sign == "+" || sign == "-") && AllDigits(digits)
    requires rest == [] || !IsDecimal(rest[0])
    requires t == [mark] + sign + digits + rest
    ensures ExponentLength(t) == 1 + |sign| + |digits|
  {
    hide Digits;
    DigitsRead(digits, rest);
    assert t[1 + |sign|..] == digits + rest;
    assert IsDecimal(digits[0]);
    if sign == "" { assert t[1] == digits[0]; } else { assert t[1] == sign[0]; }
  }

  lemma ExponentReads(n: Numeral, rest: string)
    requires NumeralWritten(n) && Ends(rest)
    ensures ExponentLength(ExponentText(n) + rest) == |ExponentText(n)|
  {
    hide ExponentLength, AllDigits;
    if n.exponent.Some? {
      var e := n.exponent.value;
      SignedDigits(ExponentText(n) + rest, e.mark, e.sign, e.digits, rest);
    } else {
      assert ExponentText(n) + rest == rest;
      NoExponent(rest);
    }
  }

  lemma NoExponent(rest: string)
    requires Ends(rest)
    ensures ExponentLength(rest) == 0
  {
  }

  lemma PointDigits(digits: string, rest: string)
    requires AllDigits(digits) && (rest == [] || !IsDecimal(rest[0]))
    ensures FractionLength("." + digits + rest) == 1 + |digits|
  {
    hide Digits;
    DigitsRead(digits, rest);
    var t := "." + digits + rest;
    assert t[1..] == digits + rest && t[1] == digits[0] && IsDecimal(digits[0]);
  }

  lemma FractionReads(n: Numeral, rest: string)
    requires NumeralWritten(n) && (rest == [] || !(IsDecimal(rest[0]) || rest[0] == '.'))
    ensures FractionLength(FractionText(n) + rest) == |FractionText(n)|
  {
    hide FractionLength, AllDigits;
    if n.fraction.Some? {
      PointDigits(n.fraction.value, rest);
    } else {
      assert FractionText(n) + rest == rest;
      assert FractionLength(rest) == 0 by { NoFraction(rest); }
    }
  }

  lemma NoFraction(rest: string)
    requires rest == [] || rest[0] != '.'
    ensures FractionLength(rest) == 0
  {
  }

  /** An exponent begins with its mark, so neither digits nor a fraction run into it. */
  lemma AfterFraction(n: Numeral, rest: string)
    requires NumeralWritten(n) && Ends(rest)
    ensures var end := ExponentText(n) + rest; end == [] || !(IsDecimal(end[0]) || end[0] == '.')
  {
    hide AllDigits;
    if n.exponent.Some? {
      assert (ExponentText(n) + rest)[0] == n.exponent.value.mark;
    } else {
      assert ExponentText(n) + rest == rest;
    }
  }

  lemma TailReads(n: Numeral, rest: string)
    requires NumeralWritten(n) && Ends(rest)
    ensures TailLength(AfterWhole(n) + rest) == |AfterWhole(n)|
  {
    hide FractionLength, ExponentLength, FractionText, ExponentText, NumeralWritten, Ends;
    var end := ExponentText(n) + rest;
    assert AfterWhole(n) + rest == FractionText(n) + end;
    assert (FractionText(n) + end)[|FractionText(n)|..] == end;
    AfterFraction(n, rest);
    FractionReads(n, end);
    ExponentReads(n, rest);
  }

  lemma WholeReads(n: Numeral, rest: string)
    requires NumeralWritten(n) && (rest == [] || !IsDecimal(rest[0]))
    ensures IntegerLength(n.whole + rest) == |n.whole|
  {
    hide Digits;
    assert IsDecimal(n.whole[0]) && (n.whole + rest)[0] == n.whole[0];
    DigitsRead(n.whole, rest);
  }

  lemma WholeEnds(n: Numeral, rest: string)
    requires NumeralWritten(n) && Ends(rest)
    ensures var tail := AfterWhole(n) + rest; tail == [] || !IsDecimal(tail[0])
  {
    hide AllDigits;
    AfterFraction(n, rest);
    if n.fraction.Some? {
      assert (AfterWhole(n) + rest)[0] == '.';
    } else {
      assert AfterWhole(n) + rest == ExponentText(n) + rest;
    }
  }

  lemma UnsignedReads(n: Numeral, rest: string)
    requires NumeralWritten(n) && Ends(rest)
    ensures var t := (n.whole + AfterWhole(n)) + rest;
            && IntegerLength(t) == |n.whole| && TailLength(t[|n.whole|..]) == |AfterWhole(n)|
            && UnsignedLength(t) == |n.whole| + |AfterWhole(n)|
  {
    hide IntegerLength, TailLength, AfterWhole, Ends, AllDigits;
    var tail := AfterWhole(n) + rest;
    var t := (n.whole + AfterWhole(n)) + rest;
    assert t == n.whole + tail && t[|n.whole|..] == tail;
    WholeEnds(n, rest);
    WholeReads(n, tail);
    TailReads(n, rest);
    assert |n.whole| > 0 by { WholeStarts(n); }
  }

  lemma WholeStarts(n: Numeral)
    requires NumeralWritten(n)
    ensures n.whole != [] && IsDecimal(n.whole[0])
  {
  }

  /** A numeral without its sign. */
  lemma NumeralParts(n: Numeral, rest: string)
    requires NumeralWritten(n)
    ensures var unsigned := n.whole + AfterWhole(n);
            && NumeralText(n) == (if n.minus then "-" else "") + unsigned
            && (n.minus ==> (NumeralText(n) + rest)[0] == '-' && (NumeralText(n) + rest)[1..] == unsigned + rest)
            && (!n.minus ==> NumeralText(n) == unsigned && IsDecimal((NumeralText(n) + rest)[0]))
  {
    hide FractionText, ExponentText, AllDigits;
    WholeStarts(n);
    if n.minus {
      assert (NumeralText(n) + rest)[1..] == (n.whole + AfterWhole(n)) + rest;
    } else {
      assert "" + (n.whole + AfterWhole(n)) == n.whole + AfterWhole(n);
    }
  }

  lemma NumeralReads(n: Numeral, rest: string)
    requires NumeralWritten(n) && Ends(rest)
    ensures NumberLength(NumeralText(n) + rest) == |NumeralText(n)| > 0
  {
    hide UnsignedLength, AfterWhole, NumeralText, NumeralWritten, Ends;
    WholeStarts(n);
    UnsignedReads(n, rest);
    NumeralParts(n, rest);
  }

  lemma NumberReads(n: Numeral, rest: string)
    requires NumeralWritten(n) && Ends(rest)
    ensures Value(NumeralText(n) + rest) == Some((Number(NumeralText(n)), rest))
  {
    hide Items, Fields, Units, Word, NumberLength, SkipSpace, NumeralText, NumeralWritten, AfterWhole;
    var t := NumeralText(n) + rest;
    NumeralReads(n, rest);
    NumeralParts(n, rest);
    assert t[..|NumeralText(n)|] == NumeralText(n) && t[|NumeralText(n)|..] == rest;
  }

  // ----- documents are read -----

  lemma WordOf(word: string, rest: string)
    requires word in ["null", "true", "false", "NaN", "Infinity", "-Infinity"]
    ensures Word(word + rest) == word
  {
    var t := word + rest;
    assert word <= t && t[0] == word[0];
    assert forall w | w in ["null", "true", "false", "NaN", "Infinity", "-Infinity"] :: w <= t ==> w[0] == t[0];
  }

  lemma NoNumber(word: string, rest: string)
    requires word in ["null", "true", "false", "NaN", "Infinity", "-Infinity"]
    ensures NumberLength(word + rest) == 0
  {
    var t := word + rest;
    assert t[0] == word[0];
    if word == "-Infinity" { assert t[1] == 'I' && t[1..][0] == 'I'; }
  }

  lemma WordReads(d: Doc, rest: string)
    requires d.DNull? || d.DBool? || (d.DConstant? && Written(d))
    ensures Value(Text(d) + rest) == Some((Meaning(d), rest))
  {
    hide NumberLength, Word, Units, Items, Fields, SkipSpace;
    var word := Text(d);
    var t := word + rest;
    WordOf(word, rest);
    NoNumber(word, rest);
    assert t[0] == word[0] && t[|word|..] == rest;
  }

  /** A value starts with none of the characters that would be taken for something else. */
  lemma ValueHead(s: string)
    requires Value(s).Some?
    ensures s != [] && !IsSpace(s[0]) && s[0] != ']' && s[0] != '}' && SkipSpace(s) == s
  {
    hide Units, Items, Fields;
    if NumberLength(s) > 0 { NumberStart(s); }
  }

  lemma NumberStart(s: string)
    requires NumberLength(s) > 0
    ensures s != [] && (IsDigit(s[0]) || s[0] == '-')
  {
    hide TailLength;
  }

  lemma BlankEnds(w: string, c: char, rest: string)
    requires Blank(w) && (c == ',' || c == ']' || c == '}')
    ensures Ends(w + ([c] + rest)) && SkipSpace(w + ([c] + rest)) == [c] + rest
  {
    SkipBlank(w, [c] + rest);
  }

  /** Written, followed by anything a value may be followed by, and read back. */
  lemma {:induction false} ValueReads(d: Doc, rest: string)
    requires Written(d) && Ends(rest)
    ensures Value(Text(d) + rest) == Some((Meaning(d), rest))
    decreases d, 0
  {
    hide Value, Items, Fields, Units, SkipSpace, EntriesText, FieldsText, NumberLength, NumeralText, NumeralWritten,
      GlyphsWritten, Quoted, CodesOf, Meanings, Fielded;
    match d
    case DNumber(n) => NumberReads(n, rest);
    case DStr(gs) => StrReads(gs, rest);
    case DList(inner, items) =>
      if items == [] { EmptyReads(d, rest); }
      else {
        EntriesRead(items, rest);
        ListReads(Meanings(items), EntriesText(items) + rest, rest);
        assert Text(d) + rest == "[" + (EntriesText(items) + rest);
      }
    case DDict(inner, fields) =>
      if fields == [] { EmptyReads(d, rest); }
      else {
        FieldsRead(fields, rest);
        DictReads(Fielded(fields), FieldsText(fields) + rest, rest);
        assert Text(d) + rest == "{" + (FieldsText(fields) + rest);
      }
    case _ => WordReads(d, rest);
  }

  lemma StrReads(gs: seq<Glyph>, rest: string)
    requires GlyphsWritten(gs)
    ensures Value(Quoted(gs) + rest) == Some((Str(CodesOf(gs)), rest))
  {
    hide Units, Items, Fields, Quoted, CodesOf, GlyphWritten, JoinSurrogates, NumberLength, Word, SkipSpace;
    QuotedReads(gs, rest);
    var t := Quoted(gs) + rest;
    assert t != [] && t[0] == '"';
    assert Value(t) == Some((Str(JoinSurrogates(AllUnits(gs))), rest));
  }

  lemma EmptyReads(d: Doc, rest: string)
    requires (d.DList? && d.items == []) || (d.DDict? && d.fields == [])
    requires Blank(d.inner)
    ensures Value(Text(d) + rest) == Some((Meaning(d), rest))
  {
    hide Units, Items, Fields;
    var t := Text(d) + rest;
    var end := (if d.DList? then "]" else "}") + rest;
    assert t[1..] == d.inner + end;
    SkipBlank(d.inner, end);
    assert SkipSpace(end) == end && end[1..] == rest;
    NoFields();
  }

  lemma ListReads(items: seq<Json>, inner: string, rest: string)
    requires SkipSpace(inner) != [] && SkipSpace(inner)[0] != ']' && Items(SkipSpace(inner)) == Some((items, rest))
    ensures Value("[" + inner) == Some((List(items), rest))
  {
    hide Items, Fields, Units, NumberLength, Word, SkipSpace;
    assert ("[" + inner)[1..] == inner;
  }

  lemma DictReads(fields: map<seq<int>, Json>, inner: string, rest: string)
    requires SkipSpace(inner) != [] && SkipSpace(inner)[0] != '}' && Fields(SkipSpace(inner)) == Some((fields, rest))
    ensures Value("{" + inner) == Some((Dict(fields), rest))
  {
    hide Items, Fields, Units, NumberLength, Word, SkipSpace;
    assert ("{" + inner)[1..] == inner;
  }

  /** One item, and the mark that ends it. */
  lemma ItemsUnfold(t: string, v: Json, rest: string, mark: char, more: string)
    requires Value(t) == Some((v, rest)) && SkipSpace(rest) == [mark] + more && (mark == ']' || mark == ',')
    ensures mark == ']' ==> Items(t) == Some(([v], more))
    ensures mark == ',' ==> Items(t) == match Items(SkipSpace(more))
                                        case None => None
                                        case Some((items, end)) => Some(([v] + items, end))
  {
    hide Value, SkipSpace;
    assert SkipSpace(rest)[1..] == more;
  }

  lemma {:induction false} EntriesRead(items: seq<Entry>, rest: string)
    requires items != [] && EntriesWritten(items)
    ensures var t := SkipSpace(EntriesText(items) + rest);
            Items(t) == Some((Meanings(items), rest)) && t != [] && t[0] != ']'
    decreases items, 1
  {
    hide Value, Items, SkipSpace, Text, Meaning, Ends, Blank;
    var x := items[0];
    var last := |items| == 1;
    var more := if last then rest else EntriesText(items[1..]) + rest;
    var mark := if last then ']' else ',';
    var end := x.after + ([mark] + more);
    var t := Text(x.value) + end;
    assert EntriesText(items) + rest == x.before + t;
    BlankEnds(x.after, mark, more);
    ValueReads(x.value, end);
    ValueHead(t);
    SkipBlank(x.before, t);
    ItemsUnfold(t, Meaning(x.value), end, mark, more);
    if last {
      assert Meanings(items) == [Meaning(x.value)];
    } else {
      EntriesRead(items[1..], rest);
      assert Meanings(items) == [Meaning(x.value)] + Meanings(items[1..]);
    }
  }

  lemma LastOfMore(fields: seq<Field>, name: seq<int>)
    requires fields != [] && name in Names(fields)
    ensures LastNamed(fields, name) == if name in Names(fields[1..]) then 1 + LastNamed(fields[1..], name) else 0
  {
    hide CodesOf;
    var rest := fields[1..];
    var k := LastNamed(fields, name);
    if name in Names(rest) {
      var j := LastNamed(rest, name);
      assert CodesOf(fields[j + 1].name) == name;
      assert k > 0 ==> CodesOf(rest[k - 1].name) == name;
    }
    assert k > 0 ==> fields[k] == rest[k - 1];
  }

  lemma MoreNames(fields: seq<Field>)
    requires fields != []
    ensures Names(fields) == {CodesOf(fields[0].name)} + Names(fields[1..])
  {
    hide CodesOf;
    assert fields == [fields[0]] + fields[1..];
  }

  lemma FieldAt(fields: seq<Field>, name: seq<int>)
    requires name in Names(fields)
    ensures name in Fielded(fields) && Fielded(fields)[name] == Meaning(fields[LastNamed(fields, name)].value)
    ensures Fielded(fields).Keys == Names(fields)
  {
    hide Names, LastNamed, Meaning;
  }

  lemma FieldKeys(fields: seq<Field>)
    ensures Fielded(fields).Keys == Names(fields)
  {
    hide Names, LastNamed, Meaning;
  }

  /** The first field gives its name a value unless a later one does. */
  lemma FirstField(fields: seq<Field>)
    requires fields != []
    ensures Fielded(fields) == map[CodesOf(fields[0].name) := Meaning(fields[0].value)] + Fielded(fields[1..])
  {
    hide CodesOf, LastNamed, Names, Meaning, Fielded;
    MoreNames(fields);
    FieldKeys(fields);
    FieldKeys(fields[1..]);
    var left, right := Fielded(fields), map[CodesOf(fields[0].name) := Meaning(fields[0].value)] + Fielded(fields[1..]);
    forall name | name in left ensures left[name] == right[name] {
      LastOfMore(fields, name);
      FieldAt(fields, name);
      if name in Names(fields[1..]) { FieldAt(fields[1..], name); }
    }
  }

  lemma NoFields()
    ensures Fielded([]) == map[] && Meanings([]) == []
  {
  }

  /** One name, colon and value, and the mark that ends them. */
  lemma FieldsUnfold(t: string, units: seq<int>, afterName: string, afterColon: string, v: Json, afterValue: string,
                     mark: char, more: string)
    requires t != [] && t[0] == '"' && Units(t[1..]) == Some((units, afterName))
    requires SkipSpace(afterName) == ":" + afterColon
    requires Value(SkipSpace(afterColon)) == Some((v, afterValue))
    requires SkipSpace(afterValue) == [mark] + more && (mark == '}' || mark == ',')
    ensures mark == '}' ==> Fields(t) == Some((map[JoinSurrogates(units) := v], more))
    ensures mark == ',' ==> Fields(t) == match Fields(SkipSpace(more))
                                         case None => None
                                         case Some((fields, end)) =>
                                           Some((map[JoinSurrogates(units) := v] + fields, end))
  {
    hide Value, SkipSpace, Units, JoinSurrogates;
    assert SkipSpace(afterName)[1..] == afterColon && SkipSpace(afterValue)[1..] == more;
  }

  lemma {:induction false} FieldsRead(fields: seq<Field>, rest: string)
    requires fields != [] && FieldsWritten(fields)
    ensures var t := SkipSpace(FieldsText(fields) + rest);
            Fields(t) == Some((Fielded(fields), rest)) && t != [] && t[0] != '}'
    decreases fields, 1
  {
    hide Value, Fields, Units, SkipSpace, Text, Meaning, Quoted, CodesOf, Ends, Blank, JoinSurrogates, GlyphWritten,
      Fielded;
    var f := fields[0];
    var last := |fields| == 1;
    var more := if last then rest else FieldsText(fields[1..]) + rest;
    var mark := if last then '}' else ',';
    var end := f.after + ([mark] + more);
    var value := Text(f.value) + end;
    var t := Quoted(f.name) + (f.colon + (":" + (f.gap + value)));
    assert FieldsText(fields) + rest == f.before + t;
    BlankEnds(f.after, mark, more);
    ValueReads(f.value, end);
    ValueHead(value);
    SkipBlank(f.gap, value);
    QuotedReads(f.name, f.colon + (":" + (f.gap + value)));
    SkipBlank(f.colon, ":" + (f.gap + value));
    assert SkipSpace(":" + (f.gap + value)) == ":" + (f.gap + value) by { NoSkip(":" + (f.gap + value)); }
    SkipBlank(f.before, t);
    NoSkip(t);
    FieldsUnfold(t, AllUnits(f.name), f.colon + (":" + (f.gap + value)), f.gap + value,
                 Meaning(f.value), end, mark, more);
    FirstField(fields);
    if last {
      NoFields();
      assert fields[1..] == [];
      assert Fielded(fields) == map[CodesOf(f.name) := Meaning(f.value)];
    } else {
      FieldsRead(fields[1..], rest);
    }
  }

  lemma NoSkip(t: string)
    requires t != [] && !IsBlank(t[0])
    ensures SkipSpace(t) == t
  {
  }
}
