/** What a statement declares, read off the statement itself: the reference the normal form
    is judged by. */
module ComparatorParts {
  import opened Ordering
  import opened Comparator

  // ----- names -----

  predicate IsCapital(c: char) {
    'A' <= c <= 'Z'
  }

  predicate IsSmall(c: char) {
    'a' <= c <= 'z'
  }

  /** The same letter, but for its case. */
  predicate SameLetter(a: char, b: char) {
    || a == b
    || (IsCapital(a) && IsSmall(b) && b as int - a as int == 32)
    || (IsSmall(a) && IsCapital(b) && a as int - b as int == 32)
  }

  predicate SameButCase(a: string, b: string) {
    |a| == |b| && forall i | 0 <= i < |a| :: SameLetter(a[i], b[i])
  }

  /** Case is lost in a name: it is not quoted, or the dialect ignores quotes too. */
  predicate LosesCase(f: Folding, id: Ident) {
    f.CaseInsensitive? || (!f.CaseSensitive? && !id.quoted)
  }

  function Cased(f: Folding, c: char): char {
    if f.Uppercase? && IsSmall(c) then c - ' ' else if !f.Uppercase? && IsCapital(c) then c + ' ' else c
  }

  /** The name the dialect means. */
  function Meant(f: Folding, id: Ident): (r: string)
    ensures |r| == |id.name|
  {
    if LosesCase(f, id) then seq(|id.name|, i requires 0 <= i < |id.name| => Cased(f, id.name[i])) else id.name
  }

  function Known(f: Folding, id: Ident): Ident {
    Ident(Meant(f, id), true)
  }

  function KnownAll(f: Folding, ids: seq<Ident>): seq<Ident> {
    seq(|ids|, i requires 0 <= i < |ids| => Known(f, ids[i]))
  }

  function KnownPieces(f: Folding, pieces: seq<Piece>): seq<Piece> {
    seq(|pieces|, i requires 0 <= i < |pieces| =>
      match pieces[i] case Token(text) => Token(text) case Name(id) => Name(Known(f, id)))
  }

  lemma {:induction false} LowerIs(s: string)
    ensures |Lower(s)| == |s| && forall i | 0 <= i < |s| :: Lower(s)[i] == if IsCapital(s[i]) then s[i] + ' ' else s[i]
  {
    if s != [] {
      LowerIs(s[1..]);
      assert forall i | 0 < i < |s| :: s[i] == s[1..][i - 1] && Lower(s)[i] == Lower(s[1..])[i - 1];
    }
  }

  lemma {:induction false} UpperIs(s: string)
    ensures |Upper(s)| == |s| && forall i | 0 <= i < |s| :: Upper(s)[i] == if IsSmall(s[i]) then s[i] - ' ' else s[i]
  {
    if s != [] {
      UpperIs(s[1..]);
      assert forall i | 0 < i < |s| :: s[i] == s[1..][i - 1] && Upper(s)[i] == Upper(s[1..])[i - 1];
    }
  }

  /** Equal but for case: equal in small letters, and in capitals. */
  lemma CasesAgree(a: string, b: string)
    ensures Lower(a) == Lower(b) <==> SameButCase(a, b)
    ensures Upper(a) == Upper(b) <==> SameButCase(a, b)
  {
    LowerIs(a);
    LowerIs(b);
    UpperIs(a);
    UpperIs(b);
    hide Lower, Upper;
    if Lower(a) == Lower(b) {
      assert forall i | 0 <= i < |a| :: Lower(a)[i] == Lower(b)[i];
    }
    if Upper(a) == Upper(b) {
      assert forall i | 0 <= i < |a| :: Upper(a)[i] == Upper(b)[i];
    }
    if SameButCase(a, b) {
      assert forall i | 0 <= i < |a| :: SameLetter(a[i], b[i]);
      assert Lower(a) == Lower(b) && Upper(a) == Upper(b);
    }
  }

  lemma FoldIdentIs(f: Folding, id: Ident)
    ensures FoldIdent(f, id) == Known(f, id)
  {
    LowerIs(id.name);
    UpperIs(id.name);
    hide Lower, Upper;
    assert FoldName(f, id) == Meant(f, id);
  }

  lemma {:induction false} FoldIdentsIs(f: Folding, ids: seq<Ident>)
    ensures FoldIdents(f, ids) == KnownAll(f, ids)
  {
    if ids != [] {
      FoldIdentIs(f, ids[0]);
      hide FoldIdent, Known;
      FoldIdentsIs(f, ids[1..]);
      assert KnownAll(f, ids) == [Known(f, ids[0])] + KnownAll(f, ids[1..]);
    }
  }

  lemma {:induction false} FoldPiecesIs(f: Folding, pieces: seq<Piece>)
    ensures FoldPieces(f, pieces) == KnownPieces(f, pieces)
  {
    if pieces != [] {
      if pieces[0].Name? { FoldIdentIs(f, pieces[0].id); }
      hide FoldIdent, Known;
      FoldPiecesIs(f, pieces[1..]);
      assert KnownPieces(f, pieces) == KnownPieces(f, [pieces[0]]) + KnownPieces(f, pieces[1..]);
    }
  }

  // ----- types -----

  /** The dialect's name of a type and, for a SQLite type whose name there starts with
      INTEGER, its spelling, of which the case is not told. */
  datatype TypeParts = NoType | OfType(name: string, spelling: Option<string>)

  predicate KeepsSpelling(d: Dialect, typ: string) {
    d.backend == "sqlite" && "INTEGER" <= d.typeName(typ)
  }

  function TypeOf(d: Dialect, typ: Option<string>): TypeParts {
    match typ
    case None => NoType
    case Some(t) => OfType(d.typeName(t), if KeepsSpelling(d, t) then Some(Capitals(t)) else None)
  }

  function Capitals(s: string): string {
    seq(|s|, i requires 0 <= i < |s| => if IsSmall(s[i]) then s[i] - ' ' else s[i])
  }

  /** Two types are the same to the comparison. */
  predicate SameType(d: Dialect, x: string, y: string) {
    d.typeName(x) == d.typeName(y) && (KeepsSpelling(d, x) ==> SameButCase(x, y))
  }

  lemma SameTypeExactlyWhen(d: Dialect, x: string, y: string)
    ensures TypeOf(d, Some(x)) == TypeOf(d, Some(y)) <==> SameType(d, x, y)
  {
    CasesAgree(x, y);
    UpperIs(x);
    UpperIs(y);
    hide Upper;
    assert Upper(x) == Capitals(x) && Upper(y) == Capitals(y);
  }

  // ----- columns and constraints -----

  /** A PRIMARY KEY that says no more than that, of a column without AUTOINCREMENT, belongs
      to the table. */
  predicate IsPlainKey(c: ColumnConstraint) {
    c.InlineKey? && c.modifiers == []
  }

  predicate GivesKeys(cs: seq<ColumnConstraint>) {
    AutoIncrement !in cs
  }

  function OtherThanKeys(cs: seq<ColumnConstraint>): seq<ColumnConstraint> {
    if cs == [] then []
    else OtherThanKeys(cs[..|cs| - 1]) + (if IsPlainKey(cs[|cs| - 1]) then [] else [cs[|cs| - 1]])
  }

  function PlainKeys(cs: seq<ColumnConstraint>): nat {
    if cs == [] then 0 else PlainKeys(cs[..|cs| - 1]) + if IsPlainKey(cs[|cs| - 1]) then 1 else 0
  }

  function InlineParts(f: Folding, c: ColumnConstraint): ColumnConstraint {
    match c
    case InlineKey(Some(name), modifiers) => InlineKey(Some(Known(f, name)), KnownPieces(f, modifiers))
    case InlineKey(None, modifiers) => InlineKey(None, KnownPieces(f, modifiers))
    case AutoIncrement => AutoIncrement
    case Inline(body) => Inline(KnownPieces(f, body))
  }

  function InlinesParts(f: Folding, cs: seq<ColumnConstraint>): seq<ColumnConstraint> {
    seq(|cs|, i requires 0 <= i < |cs| => InlineParts(f, cs[i]))
  }

  function ClauseParts(f: Folding, c: TableConstraint): TableConstraint {
    match c
    case PrimaryKey(columns) => PrimaryKey(KnownAll(f, columns))
    case Constraint(body) => Constraint(KnownPieces(f, body))
    case BareName(id) => BareName(Known(f, id))
  }

  /** A column: its name, its type as the dialect names it, and the constraints that are
      its own, in order. */
  datatype ColumnParts = ColumnParts(name: Ident, typ: TypeParts, constraints: seq<ColumnConstraint>)

  function ColumnOf(d: Dialect, c: Item): ColumnParts
    requires c.Column?
  {
    ColumnParts(Known(d.folding, c.id), TypeOf(d, c.typ),
                InlinesParts(d.folding, if GivesKeys(c.constraints) then OtherThanKeys(c.constraints)
                  else c.constraints))
  }

  function ColumnsOf(d: Dialect, items: seq<Item>): seq<ColumnParts> {
    if items == [] then []
    else
      var last := items[|items| - 1];
      ColumnsOf(d, items[..|items| - 1]) + if last.Column? then [ColumnOf(d, last)] else []
  }

  /** The constraints of a table and its bare names, one key for each plain key of a column. */
  function ConstraintsOf(d: Dialect, items: seq<Item>): multiset<TableConstraint> {
    if items == [] then multiset{}
    else
      var last := items[|items| - 1];
      ConstraintsOf(d, items[..|items| - 1])
      + match last
        case Clause(c) => multiset{ClauseParts(d.folding, c)}
        case Column(id, _, _, cs) =>
          multiset{}[PrimaryKey([Known(d.folding, id)]) := if GivesKeys(cs) then PlainKeys(cs) else 0]
  }

  /** What a statement consists of: a table or view with its column definitions in order, its
      constraints and bare names in none, and its options; an index on a table; any other
      statement. Comments are no part of it. */
  datatype Parts =
    | Table(path: seq<Ident>, columns: seq<ColumnParts>, constraints: multiset<TableConstraint>, options: seq<Piece>)
    | IndexOn(on: Option<seq<Ident>>, body: seq<Piece>)
    | About(target: Option<seq<Ident>>, body: seq<Piece>)
    | Unknown(text: string)
    | Nothing

  function PartsOf(d: Dialect, s: Statement): Parts {
    match s
    case Create(table, items, options, _) =>
      Table(KnownAll(d.folding, table), ColumnsOf(d, items), ConstraintsOf(d, items), KnownPieces(d.folding, options))
    case Index(Some(on), body, _) => IndexOn(Some(KnownAll(d.folding, on)), KnownPieces(d.folding, body))
    case Index(None, body, _) => IndexOn(None, KnownPieces(d.folding, body))
    case Other(Some(target), body, _) => About(Some(KnownAll(d.folding, target)), KnownPieces(d.folding, body))
    case Other(None, body, _) => About(None, KnownPieces(d.folding, body))
    case Command(text) => Unknown(text)
    case Empty => Nothing
  }

  // ----- which statements take part -----

  /** A name of dbwarden's own bookkeeping, in any case: one underscore may come first, and
      an underscore or a dash follows. */
  predicate IsOwnName(name: string) {
    var from := if name != "" && name[0] == '_' then 1 else 0;
    |name| > from + 8 && SameButCase(name[from..from + 8], "dbwarden")
      && (name[from + 8] == '_' || name[from + 8] == '-')
  }

  function TableOf(s: Statement): Option<Ident> {
    match s
    case Create(path, _, _, _) => LastOf(path)
    case Index(Some(path), _, _) => LastOf(path)
    case Other(Some(path), _, _) => LastOf(path)
    case _ => None
  }

  function LastOf(path: seq<Ident>): Option<Ident> {
    if path == [] then None else Some(path[|path| - 1])
  }

  lemma LowerOfPrefix(name: string, k: nat)
    requires k <= |name|
    ensures |Lower(name)| == |name| && Lower(name)[..k] == Lower(name[..k])
  {
    LowerIs(name);
    LowerIs(name[..k]);
    hide Lower;
  }

  lemma LowerOfWord()
    ensures Lower("dbwarden") == "dbwarden"
  {
  }

  lemma PrefixIs(low: string, word: string, mark: char)
    ensures word + [mark] <= low <==> |low| > |word| && low[..|word|] == word && low[|word|] == mark
  {
    if |low| > |word| {
      assert low[..|word| + 1] == low[..|word|] + [low[|word|]];
      assert word + [mark] <= low <==> low[..|word| + 1] == word + [mark];
      assert (word + [mark])[..|word|] == word && (word + [mark])[|word|] == mark;
    }
  }

  /** The word in any case, and then the mark. */
  lemma WordStarts(name: string, mark: char)
    requires mark == '_' || mark == '-'
    ensures "dbwarden" + [mark] <= Lower(name)
       <==> |name| > 8 && SameButCase(name[..8], "dbwarden") && name[8] == mark
  {
    LowerIs(name);
    hide SameButCase, Lower;
    PrefixIs(Lower(name), "dbwarden", mark);
    if |name| > 8 {
      LowerOfPrefix(name, 8);
      LowerOfWord();
      CasesAgree(name[..8], "dbwarden");
    }
  }

  lemma UnderscoreStarts(name: string, word: string)
    ensures "_" + word <= Lower(name) <==> name != "" && name[0] == '_' && word <= Lower(name[1..])
  {
    var low := Lower(name);
    if name != "" {
      assert low[1..] == Lower(name[1..]);
      assert ("_" + word)[1..] == word;
      if "_" + word <= low { assert low[0] == ("_" + word)[0]; }
      if name[0] == '_' && word <= low[1..] { assert low == "_" + low[1..]; }
    }
  }

  /** Exactly the empty statements and those about a bookkeeping table are passed over. */
  lemma SkippedExactlyWhen(s: Statement)
    ensures Skipped(s) <==> s.Empty? || (TableOf(s).Some? && IsOwnName(TableOf(s).value.name))
  {
    var path := match s
      case Create(p, _, _, _) => p
      case Index(Some(p), _, _) => p
      case Other(Some(p), _, _) => p
      case _ => [];
    if path != [] { OwnNames(path[|path| - 1].name); }
  }

  lemma OwnNames(name: string)
    ensures IsOwnName(name) <==> var low := Lower(name);
            "dbwarden_" <= low || "dbwarden-" <= low || "_dbwarden_" <= low || "_dbwarden-" <= low
  {
    hide Lower, SameButCase;
    WordStarts(name, '_');
    WordStarts(name, '-');
    assert "dbwarden" + ['_'] == "dbwarden_" && "dbwarden" + ['-'] == "dbwarden-";
    assert "_" + "dbwarden_" == "_dbwarden_" && "_" + "dbwarden-" == "_dbwarden-";
    UnderscoreStarts(name, "dbwarden_");
    UnderscoreStarts(name, "dbwarden-");
    if name != "" && name[0] == '_' {
      WordStarts(name[1..], '_');
      WordStarts(name[1..], '-');
      assert |name| > 9 ==> name[1..][..8] == name[1..9] && name[1..][8] == name[9];
      assert |name| > 8 ==> !SameButCase(name[..8], "dbwarden") by { if |name| > 8 { NotTheWord(name); } }
    } else if |name| > 8 {
      assert name[0..8] == name[..8];
    }
  }

  lemma NotTheWord(name: string)
    requires |name| > 8 && name[0] == '_'
    ensures !SameButCase(name[..8], "dbwarden")
  {
    assert name[..8][0] == '_' && "dbwarden"[0] == 'd';
  }
}
