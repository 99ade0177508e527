/** The parser accepts the texts of RFC 8259 and the three constants Python adds, and no
    others; what the scan for a payload finds in them; and which of them go past the limits. */
module JsonAccepts {
  import opened Ordering
  import opened JsonText
  import opened DiffPayload
  import opened JsonRender

  // ----- strings -----

  lemma DigitOf(c: char)
    requires HexValue(c).Some?
    ensures 0 <= HexValue(c).value < 16 && c == HexDigit(HexValue(c).value, 'A' <= c <= 'F')
  {
  }

  lemma HexOf(s: string) returns (capitals: seq<bool>)
    requires Hex4(s).Some?
    ensures |capitals| == 4 && 0 <= Hex4(s).value < 0x10000 && |s| >= 4
    ensures s[..4] == HexText(Hex4(s).value, capitals)
  {
    hide HexDigit, HexValue;
    DigitOf(s[0]);
    DigitOf(s[1]);
    DigitOf(s[2]);
    DigitOf(s[3]);
    capitals := ['A' <= s[0] <= 'F', 'A' <= s[1] <= 'F', 'A' <= s[2] <= 'F', 'A' <= s[3] <= 'F'];
    assert s[..4] == [s[0], s[1], s[2], s[3]];
  }

  lemma Preceded(g: Glyph, gs: seq<Glyph>)
    requires GlyphWritten(g) && GlyphsWritten(gs)
    requires g.Unicode? && IsHigh(g.unit) && gs != [] && gs[0].Unicode? ==> !IsLow(gs[0].unit)
    ensures GlyphsWritten([g] + gs)
    ensures GlyphsText([g] + gs) == GlyphText(g) + GlyphsText(gs) && AllUnits([g] + gs) == UnitsOf(g) + AllUnits(gs)
  {
    hide GlyphWritten;
    var all := [g] + gs;
    assert all[1..] == gs;
    forall i | 0 <= i < |all| - 1
      ensures !(all[i].Unicode? && IsHigh(all[i].unit) && all[i + 1].Unicode? && IsLow(all[i + 1].unit))
    {
      if i > 0 { assert all[i] == gs[i - 1] && all[i + 1] == gs[i]; }
    }
  }

  /** Two escapes that are a surrogate pair are one glyph. */
  lemma Paired(high: int, low: int, a: seq<bool>, b: seq<bool>)
    requires IsHigh(high) && IsLow(low) && |a| == |b| == 4
    ensures var g := Pair(0x10000 + (high - 0xD800) * 0x400 + (low - 0xDC00), a + b);
            && GlyphWritten(g) && UnitsOf(g) == [high, low]
            && GlyphText(g) == GlyphText(Unicode(high, a)) + GlyphText(Unicode(low, b))
  {
    hide HexText;
    assert (a + b)[..4] == a && (a + b)[4..] == b;
  }

  /** A `\uXXXX` before glyphs already read. */
  lemma WithUnicode(u: int, capitals: seq<bool>, gs: seq<Glyph>) returns (all: seq<Glyph>)
    requires 0 <= u < 0x10000 && |capitals| == 4 && GlyphsWritten(gs)
    ensures GlyphsWritten(all) && AllUnits(all) == [u] + AllUnits(gs)
    ensures GlyphsText(all) == ("\\u" + HexText(u, capitals)) + GlyphsText(gs)
  {
    hide HexText, GlyphText, AllUnits, GlyphsText;
    var g := Unicode(u, capitals);
    if IsHigh(u) && gs != [] && gs[0].Unicode? && IsLow(gs[0].unit) {
      assert GlyphWritten(gs[0]);
      Paired(u, gs[0].unit, capitals, gs[0].capitals);
      WrittenTail(gs);
      assert gs == [gs[0]] + gs[1..];
      Preceded(gs[0], gs[1..]);
      g := Pair(0x10000 + (u - 0xD800) * 0x400 + (gs[0].unit - 0xDC00), capitals + gs[0].capitals);
      Preceded(g, gs[1..]);
      all := [g] + gs[1..];
      AsWritten(u, capitals);
    } else {
      Preceded(g, gs);
      all := [g] + gs;
      AsWritten(u, capitals);
    }
  }

  lemma AsWritten(u: int, capitals: seq<bool>)
    requires 0 <= u < 0x10000 && |capitals| == 4
    ensures GlyphText(Unicode(u, capitals)) == "\\u" + HexText(u, capitals)
  {
  }

  lemma LetterOf(c: char)
    requires SimpleEscape(c).Some?
    ensures Letter(SimpleEscape(c).value) == Some(c)
  {
  }

  /** The text before the rest of a literal that was written as glyphs. */
  ghost predicate Begins(s: string, gs: seq<Glyph>) {
    && Units(s).Some? && GlyphsWritten(gs)
    && s == GlyphsText(gs) + ("\"" + Units(s).value.1) && AllUnits(gs) == Units(s).value.0
  }

  lemma FromRaw(s: string, tail: seq<Glyph>) returns (gs: seq<Glyph>)
    requires Units(s).Some? && s[0] != '"' && s[0] != '\\' && Begins(s[1..], tail)
    ensures Begins(s, gs)
  {
    hide GlyphsText, AllUnits, GlyphText, GlyphsWritten;
    RawFirst(s[0], tail);
    gs := [Raw(s[0])] + tail;
    assert s == [s[0]] + s[1..];
  }

  lemma FromUnicode(s: string, tail: seq<Glyph>) returns (gs: seq<Glyph>)
    requires Units(s).Some? && s[0] == '\\' && s[1] == 'u' && Begins(s[6..], tail)
    ensures Begins(s, gs)
  {
    hide GlyphsText, AllUnits, GlyphText, GlyphsWritten, HexText, Hex4;
    var capitals := HexOf(s[2..]);
    gs := WithUnicode(Hex4(s[2..]).value, capitals, tail);
    assert s == "\\u" + s[2..][..4] + s[6..];
  }

  lemma FromLetter(s: string, tail: seq<Glyph>) returns (gs: seq<Glyph>)
    requires Units(s).Some? && s[0] == '\\' && s[1] != 'u' && Begins(s[2..], tail)
    ensures Begins(s, gs)
  {
    hide GlyphsText, AllUnits, GlyphText, GlyphsWritten, SimpleEscape, Letter;
    LetterOf(s[1]);
    ShortFirst(SimpleEscape(s[1]).value, tail);
    gs := [Short(SimpleEscape(s[1]).value)] + tail;
    assert s == ['\\', s[1]] + s[2..];
  }

  lemma FromQuote(s: string) returns (gs: seq<Glyph>)
    requires s != [] && s[0] == '"'
    ensures Begins(s, gs)
  {
    gs := [];
    NoGlyphs();
    assert s == "" + ("\"" + s[1..]);
  }

  /** What the parser reads as a string was written as glyphs. */
  lemma {:induction false} GlyphsOf(s: string) returns (gs: seq<Glyph>)
    requires Units(s).Some?
    ensures Begins(s, gs)
  {
    hide Begins, SimpleEscape, HexValue;
    if s[0] == '"' {
      gs := FromQuote(s);
    } else if s[0] != '\\' {
      gs := GlyphsOf(s[1..]);
      gs := FromRaw(s, gs);
    } else if s[1] == 'u' {
      gs := GlyphsOf(s[6..]);
      gs := FromUnicode(s, gs);
    } else {
      gs := GlyphsOf(s[2..]);
      gs := FromLetter(s, gs);
    }
  }

  lemma NoGlyphs()
    ensures GlyphsWritten([]) && GlyphsText([]) == "" && AllUnits([]) == []
  {
  }

  lemma RawFirst(c: char, gs: seq<Glyph>)
    requires c != '"' && c != '\\' && c >= ' ' && GlyphsWritten(gs)
    ensures GlyphsWritten([Raw(c)] + gs)
    ensures GlyphsText([Raw(c)] + gs) == [c] + GlyphsText(gs) && AllUnits([Raw(c)] + gs) == [c as int] + AllUnits(gs)
  {
    hide GlyphsText, AllUnits, GlyphsWritten;
    Preceded(Raw(c), gs);
  }

  lemma ShortFirst(code: int, gs: seq<Glyph>)
    requires Letter(code).Some? && GlyphsWritten(gs)
    ensures GlyphsWritten([Short(code)] + gs)
    ensures GlyphsText([Short(code)] + gs) == ['\\', Letter(code).value] + GlyphsText(gs)
    ensures AllUnits([Short(code)] + gs) == [code] + AllUnits(gs)
  {
    hide GlyphsText, AllUnits, GlyphsWritten, Letter;
    Preceded(Short(code), gs);
  }

  lemma QuotedOf(s: string) returns (gs: seq<Glyph>)
    requires s != [] && s[0] == '"' && Units(s[1..]).Some?
    ensures GlyphsWritten(gs) && s == Quoted(gs) + Units(s[1..]).value.1
    ensures JoinSurrogates(Units(s[1..]).value.0) == CodesOf(gs)
  {
    hide Units, GlyphsText, AllUnits, CodesOf, GlyphWritten, JoinSurrogates;
    gs := GlyphsOf(s[1..]);
    GlyphsJoin(gs);
    assert s == "\"" + s[1..];
  }

  // ----- numbers -----

  lemma DigitsAt(s: string)
    ensures Digits(s) > 0 ==> AllDigits(s[..Digits(s)])
  {
    hide Digits;
  }

  lemma ExponentOf(s: string) returns (e: Option<Exponent>)
    ensures NumeralWritten(Numeral(false, "0", None, e))
        && ExponentText(Numeral(false, "0", None, e)) == s[..ExponentLength(s)]
  {
    var n := ExponentLength(s);
    if n == 0 {
      e := None;
    } else {
      var k := if s[1] == '+' || s[1] == '-' then 1 else 0;
      var sign := if k == 1 then [s[1]] else "";
      var digits := s[1 + k..][..n - 1 - k];
      DigitsAt(s[1 + k..]);
      hide Digits, AllDigits;
      assert sign == "" || sign == "+" || sign == "-";
      e := Some(Exponent(s[0], sign, digits));
      assert s[..n] == [s[0]] + sign + digits;
    }
  }

  lemma FractionOf(s: string) returns (f: Option<string>)
    ensures NumeralWritten(Numeral(false, "0", f, None))
        && FractionText(Numeral(false, "0", f, None)) == s[..FractionLength(s)]
  {
    var n := FractionLength(s);
    if n == 0 {
      f := None;
    } else {
      f := Some(s[1..][..n - 1]);
      assert s[..n] == "." + s[1..][..n - 1];
    }
  }

  lemma UnsignedOf(s: string) returns (n: Numeral)
    requires UnsignedLength(s) > 0
    ensures NumeralWritten(n) && !n.minus && n.whole + AfterWhole(n) == s[..UnsignedLength(s)]
  {
    hide FractionLength, ExponentLength, IntegerLength, NumeralWritten, FractionText, ExponentText;
    var i := IntegerLength(s);
    var tail := s[i..];
    var j := FractionLength(tail);
    var f := FractionOf(tail);
    var e := ExponentOf(tail[j..]);
    WholeOf(s);
    n := Numeral(false, s[..i], f, e);
    Assembled(s[..i], f, e);
    assert s[..UnsignedLength(s)] == s[..i] + (tail[..j] + tail[j..][..ExponentLength(tail[j..])]);
  }

  lemma WholeOf(s: string)
    requires IntegerLength(s) > 0
    ensures NumeralWritten(Numeral(false, s[..IntegerLength(s)], None, None))
  {
    var whole := s[..IntegerLength(s)];
    assert whole[0] == s[0];
    DigitsAt(s);
    hide Digits;
    if s[0] == '0' { assert whole == "0"; }
  }

  lemma Assembled(whole: string, f: Option<string>, e: Option<Exponent>)
    requires NumeralWritten(Numeral(false, whole, None, None)) && NumeralWritten(Numeral(false, "0", f, None))
    requires NumeralWritten(Numeral(false, "0", None, e))
    ensures var n := Numeral(false, whole, f, e);
            && NumeralWritten(n)
            && AfterWhole(n) == FractionText(Numeral(false, "0", f, None)) + ExponentText(Numeral(false, "0", None, e))
  {
    hide AllDigits;
  }

  lemma NumeralOf(s: string) returns (n: Numeral)
    requires NumberLength(s) > 0
    ensures NumeralWritten(n) && NumeralText(n) == s[..NumberLength(s)]
  {
    hide UnsignedLength, AfterWhole;
    if s[0] == '-' {
      n := UnsignedOf(s[1..]);
      n := Signed(n);
      assert s[..NumberLength(s)] == "-" + s[1..][..UnsignedLength(s[1..])];
    } else {
      n := UnsignedOf(s);
      assert "" + (n.whole + AfterWhole(n)) == n.whole + AfterWhole(n);
    }
  }

  lemma Signed(n: Numeral) returns (m: Numeral)
    requires NumeralWritten(n)
    ensures NumeralWritten(m) && m.minus && m.whole == n.whole && AfterWhole(m) == AfterWhole(n)
  {
    m := n.(minus := true);
  }

  // ----- documents -----

  lemma WordDoc(s: string) returns (d: Doc)
    requires Word(s) != ""
    ensures Written(d) && Text(d) == Word(s) && Meaning(d) == WordValue(Word(s))
  {
    var w := Word(s);
    d := if w == "null" then DNull else if w == "true" then DBool(true) else if w == "false" then DBool(false)
         else DConstant(w);
  }

  /** What the parser reads was written as a document. */
  lemma {:induction false} DocOf(s: string) returns (d: Doc)
    requires Value(s).Some?
    ensures Written(d) && s == Text(d) + Value(s).value.1 && Meaning(d) == Value(s).value.0
    decreases |s|, 1
  {
    hide Units, Items, Fields, NumberLength, Word, SkipSpace, JoinSurrogates, GlyphsWritten, NumeralWritten,
      NumeralText, EntriesText, FieldsText, Meanings, Fielded, CodesOf, Blank;
    if s[0] == '"' {
      var gs := QuotedOf(s);
      d := DStr(gs);
    } else if s[0] == '[' {
      d := ListOf(s);
    } else if s[0] == '{' {
      d := DictOf(s);
    } else if NumberLength(s) > 0 {
      var n := NumeralOf(s);
      d := DNumber(n);
      assert s == s[..NumberLength(s)] + s[NumberLength(s)..];
    } else {
      d := WordDoc(s);
      assert s == Word(s) + s[|Word(s)|..];
    }
  }

  lemma {:induction false} ListOf(s: string) returns (d: Doc)
    requires s != [] && s[0] == '[' && Value(s).Some?
    ensures Written(d) && s == Text(d) + Value(s).value.1 && Meaning(d) == Value(s).value.0
    decreases |s|, 0
  {
    hide Units, Items, Fields, NumberLength, Word, SkipSpace, EntriesText, Meanings, Blank;
    var w := Blanks(s[1..]);
    var inner := SkipSpace(s[1..]);
    assert s == "[" + (w + inner);
    if inner != [] && inner[0] == ']' {
      d := DList(w, []);
      NoFields();
      assert s == Text(d) + inner[1..];
    } else {
      var items := EntriesOf(inner);
      items := AfterBlanks(w, items);
      BlankNothing();
      d := DList("", items);
    }
  }

  lemma {:induction false} DictOf(s: string) returns (d: Doc)
    requires s != [] && s[0] == '{' && Value(s).Some?
    ensures Written(d) && s == Text(d) + Value(s).value.1 && Meaning(d) == Value(s).value.0
    decreases |s|, 0
  {
    hide Units, Items, Fields, NumberLength, Word, SkipSpace, FieldsText, Fielded, Blank, GlyphsWritten;
    var w := Blanks(s[1..]);
    var inner := SkipSpace(s[1..]);
    assert s == "{" + (w + inner);
    if inner != [] && inner[0] == '}' {
      d := DDict(w, []);
      NoFields();
      assert s == Text(d) + inner[1..];
    } else {
      var fields := FieldsOf(inner);
      fields := FieldsAfterBlanks(w, fields);
      BlankNothing();
      d := DDict("", fields);
    }
  }

  lemma BlankNothing()
    ensures Blank("")
  {
  }

  lemma BlankJoin(a: string, b: string)
    requires Blank(a) && Blank(b)
    ensures Blank(a + b)
  {
  }

  lemma AfterBlanks(w: string, items: seq<Entry>) returns (r: seq<Entry>)
    requires items != [] && EntriesWritten(items) && Blank(w)
    ensures r != [] && EntriesWritten(r) && EntriesText(r) == w + EntriesText(items) && Meanings(r) == Meanings(items)
  {
    hide Written, Text, Meaning, Blank;
    BlankJoin(w, items[0].before);
    r := items[0 := items[0].(before := w + items[0].before)];
    assert r[1..] == items[1..];
  }

  lemma FieldsAfterBlanks(w: string, fields: seq<Field>) returns (r: seq<Field>)
    requires fields != [] && FieldsWritten(fields) && Blank(w)
    ensures r != [] && FieldsWritten(r) && FieldsText(r) == w + FieldsText(fields) && Fielded(r) == Fielded(fields)
  {
    hide Written, Text, Meaning, Blank, GlyphsWritten, Quoted, CodesOf, Fielded;
    BlankJoin(w, fields[0].before);
    r := fields[0 := fields[0].(before := w + fields[0].before)];
    assert r[1..] == fields[1..];
    FirstField(r);
    FirstField(fields);
  }

  lemma OneEntry(d: Doc, w: string) returns (items: seq<Entry>)
    requires Written(d) && Blank(w)
    ensures items != [] && EntriesWritten(items) && EntriesText(items) == Text(d) + (w + "]")
        && Meanings(items) == [Meaning(d)]
  {
    hide Written, Text, Meaning;
    items := [Entry("", d, w)];
    assert "" + (Text(d) + (w + "]")) == Text(d) + (w + "]");
  }

  lemma MoreEntries(d: Doc, w: string, more: seq<Entry>) returns (items: seq<Entry>)
    requires Written(d) && Blank(w) && more != [] && EntriesWritten(more)
    ensures items != [] && EntriesWritten(items) && EntriesText(items) == Text(d) + (w + ("," + EntriesText(more)))
    ensures Meanings(items) == [Meaning(d)] + Meanings(more)
  {
    hide Written, Text, Meaning;
    items := [Entry("", d, w)] + more;
    assert items[1..] == more;
    assert "" + (Text(d) + (w + ("," + EntriesText(more)))) == Text(d) + (w + ("," + EntriesText(more)));
  }

  lemma {:induction false} EntriesOf(s: string) returns (items: seq<Entry>)
    requires Items(s).Some?
    ensures items != [] && EntriesWritten(items) && s == EntriesText(items) + Items(s).value.1
    ensures Meanings(items) == Items(s).value.0
    decreases |s|, 2
  {
    hide Value, SkipSpace, EntriesText, Meanings, Meaning, Text, Written, Blank;
    var d := DocOf(s);
    var rest := Value(s).value.1;
    var w := Blanks(rest);
    var after := SkipSpace(rest);
    assert s == Text(d) + (w + after);
    assert after == [after[0]] + after[1..];
    if after[0] == ']' {
      items := OneEntry(d, w);
    } else {
      var u := Blanks(after[1..]);
      items := EntriesOf(SkipSpace(after[1..]));
      items := AfterBlanks(u, items);
      assert s == Text(d) + (w + ("," + EntriesText(items))) + Items(s).value.1;
      items := MoreEntries(d, w, items);
    }
  }

  lemma OneField(name: seq<Glyph>, colon: string, gap: string, d: Doc, w: string, more: seq<Field>)
      returns (fields: seq<Field>)
    requires GlyphsWritten(name) && Blank(colon) && Blank(gap) && Written(d) && Blank(w) && FieldsWritten(more)
    ensures fields != [] && FieldsWritten(fields)
    ensures Fielded(fields) == map[CodesOf(name) := Meaning(d)] + Fielded(more)
    ensures FieldsText(fields) == Quoted(name) + (colon + (":" + (gap + (Text(d) +
              (w + if more == [] then "}" else "," + FieldsText(more))))))
  {
    hide Written, Text, Meaning, GlyphWritten, Quoted, CodesOf, Fielded;
    BlankNothing();
    fields := [Field("", name, colon, gap, d, w)] + more;
    assert fields[1..] == more;
    FirstField(fields);
    var text := Quoted(name) + (colon
      + (":" + (gap + (Text(d) + (w + if more == [] then "}" else "," + FieldsText(more))))));
    assert "" + text == text;
  }

  /** The first field of what the parser reads as fields, and what follows it. */
  lemma {:induction false} FieldOf(s: string)
      returns (name: seq<Glyph>, colon: string, gap: string, d: Doc, w: string, after: string)
    requires Fields(s).Some?
    ensures GlyphsWritten(name) && Blank(colon) && Blank(gap) && Written(d) && Blank(w) && 0 < |after| <= |s|
    ensures s == Quoted(name) + (colon + (":" + (gap + (Text(d) + (w + after)))))
    ensures after[0] == '}' || after[0] == ','
    ensures after[0] == '}' ==> Fields(s).value == (map[CodesOf(name) := Meaning(d)], after[1..])
    ensures after[0] == ',' ==>
      var more := Fields(SkipSpace(after[1..]));
      more.Some? && Fields(s).value == (map[CodesOf(name) := Meaning(d)] + more.value.0, more.value.1)
    decreases |s|, 1
  {
    hide Value, Units, SkipSpace, Meaning, Text, Written, Blank, GlyphWritten, Quoted, CodesOf, JoinSurrogates;
    name := QuotedOf(s);
    var afterName := Units(s[1..]).value.1;
    colon := Blanks(afterName);
    gap := Blanks(SkipSpace(afterName)[1..]);
    var value := SkipSpace(SkipSpace(afterName)[1..]);
    d := DocOf(value);
    var rest := Value(value).value.1;
    w := Blanks(rest);
    after := SkipSpace(rest);
    assert SkipSpace(afterName) == ":" + (gap + value);
  }

  lemma {:induction false} FieldsOf(s: string) returns (fields: seq<Field>)
    requires Fields(s).Some?
    ensures fields != [] && FieldsWritten(fields) && s == FieldsText(fields) + Fields(s).value.1
    ensures Fielded(fields) == Fields(s).value.0
    decreases |s|, 2
  {
    hide Fields, SkipSpace, FieldsText, Fielded, Meaning, Text, Written, Blank, GlyphWritten, Quoted, CodesOf;
    var name, colon, gap, d, w, after := FieldOf(s);
    assert after == [after[0]] + after[1..];
    if after[0] == '}' {
      fields := OneField(name, colon, gap, d, w, []);
      NoFields();
    } else {
      var u := Blanks(after[1..]);
      fields := FieldsOf(SkipSpace(after[1..]));
      fields := FieldsAfterBlanks(u, fields);
      assert after == "," + (FieldsText(fields) + Fields(s).value.1);
      fields := OneField(name, colon, gap, d, w, fields);
    }
  }

  // ----- the parser as a whole -----

  /** The text is a document with blanks around it, and stands for the value. */
  ghost predicate Spells(s: string, v: Json) {
    exists before, d, after :: Around(s, before, d, after) && Meaning(d) == v
  }

  ghost predicate Around(s: string, before: string, d: Doc, after: string) {
    Blank(before) && Written(d) && Blank(after) && s == before + (Text(d) + after)
  }

  lemma Surrounded(s: string, before: string, d: Doc, after: string)
    requires Around(s, before, d, after)
    ensures Loads(s) == Some(Meaning(d))
  {
    hide Value, SkipSpace, Text, Meaning, Written;
    assert Ends(after) by { if after != [] { assert IsBlank(after[0]); } }
    ValueReads(d, after);
    ValueHead(Text(d) + after);
    SkipBlank(before, Text(d) + after);
    SkipBlank(after, "");
    assert after + "" == after && SkipSpace("") == "" by { NothingToSkip(); }
  }

  lemma NothingToSkip()
    ensures SkipSpace("") == ""
  {
  }

  /** `json.loads` returns a value exactly when the text spells it: it accepts the grammar of
      RFC 8259, with every spelling of every string, every layout and every number, and the
      three constants, and nothing else. */
  lemma LoadsExactlyWhen(s: string, v: Json)
    ensures Loads(s) == Some(v) <==> Spells(s, v)
  {
    hide Value, SkipSpace, Text, Meaning, Written;
    if Loads(s).Some? {
      var before := Blanks(s);
      var d := DocOf(SkipSpace(s));
      var after := Blanks(Value(SkipSpace(s)).value.1);
      assert after + "" == after;
      assert Around(s, before, d, after);
    }
    if Spells(s, v) {
      var before, d, after :| Around(s, before, d, after) && Meaning(d) == v;
      Surrounded(s, before, d, after);
    }
  }

  // ----- the payload -----

  /** A list of objects, and blanks. */
  ghost predicate PayloadText(s: string, d: Doc, after: string) {
    && Written(d) && d.DList? && (forall x | x in d.items :: x.value.DDict?)
    && Blank(after) && s == Text(d) + after
  }

  lemma PayloadReads(s: string, d: Doc, after: string)
    requires PayloadText(s, d, after)
    ensures IsDocument(s) && Loads(s) == Some(List(Meanings(d.items))) && IsPayload(List(Meanings(d.items)))
  {
    hide Value, SkipSpace, EntriesText, Blank, Loads, Meanings, Written;
    ListText(d, after);
    BlankNothing();
    assert "" + (Text(d) + after) == Text(d) + after;
    Surrounded(s, "", d, after);
    ObjectsAre(d.items);
  }

  lemma ListText(d: Doc, after: string)
    requires Written(d) && d.DList?
    ensures Text(d) + after != "" && (Text(d) + after)[0] == '['
  {
    hide EntriesText;
  }

  /** Objects are what stands for dicts. */
  lemma ObjectsAre(items: seq<Entry>)
    ensures IsPayload(List(Meanings(items))) <==> forall x | x in items :: x.value.DDict?
  {
    var values := Meanings(items);
    forall i | 0 <= i < |items| ensures values[i].Dict? <==> items[i].value.DDict? {
    }
    hide Meaning, Meanings;
    if IsPayload(List(values)) {
      forall x | x in items ensures x.value.DDict? {
        var i :| 0 <= i < |items| && items[i] == x;
        assert values[i].Dict?;
      }
    }
    if forall x | x in items :: x.value.DDict? {
      forall i | 0 <= i < |values| ensures values[i].Dict? {
        assert items[i] in items;
      }
    }
  }

  lemma PayloadOf(s: string) returns (d: Doc, after: string)
    requires IsDocument(s) && IsPayload(Loads(s).value)
    ensures PayloadText(s, d, after)
  {
    hide Value, SkipSpace, Text, Written, Meanings;
    NoSkip(s);
    d := DocOf(s);
    after := Blanks(Value(s).value.1);
    assert after + "" == after;
    ObjectsAre(d.items);
  }

  /** A position carries a payload exactly when what follows it is a list of objects in some
      spelling and layout, and blanks. */
  lemma PayloadExactlyWhen(output: string, start: nat)
    ensures PayloadAt(output, start)
       <==> start < |output| && exists d, after :: PayloadText(output[start..], d, after)
  {
    hide Loads, IsPayload, IsDocument, PayloadText;
    if PayloadAt(output, start) {
      var d, after := PayloadOf(output[start..]);
    } else if start < |output| {
      if d, after :| PayloadText(output[start..], d, after) { PayloadReads(output[start..], d, after); }
    }
  }

  /** The promise of the scan, end to end: write any list of objects in any spelling and
      layout behind any log output; the position of the payload is the only one that carries
      a payload, and what it carries is that list. */
  lemma PrintedPayloadIsFound(prefix: string, document: string, d: Doc, after: string, start: nat)
    requires PayloadText(document, d, after)
    ensures PayloadAt(prefix + document, start) <==> start == |prefix|
    ensures Loads((prefix + document)[|prefix|..]) == Some(List(Meanings(d.items)))
  {
    hide Loads, PayloadText, Meanings;
    PayloadReads(document, d, after);
    assert document[0..] == document && (prefix + document)[|prefix|..] == document;
    NoPrefixHidesThePayload(prefix, document, start);
  }
}
