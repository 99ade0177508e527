/** `json.loads` on text: the grammar of RFC 8259 sections 2 to 7 plus the three constants
    Python adds, as a recursive-descent parser over what is left of the text. */
module JsonText {
  import opened Ordering

  /** A parsed value. Strings are code points, numbers keep their spelling, and an object
      keeps for each name the last value given for it. */
  datatype Json =
    | Null
    | Bool(value: bool)
    | Number(spelling: string)
    | Str(codes: seq<int>)
    | List(items: seq<Json>)
    | Dict(fields: map<seq<int>, Json>)

  predicate IsSpace(c: char) {
    c == ' ' || c == '\t' || c == '\n' || c == '\r'
  }

  function SkipSpace(s: string): (r: string)
    ensures |r| <= |s|
    ensures r != [] ==> !IsSpace(r[0])
  {
    if s != [] && IsSpace(s[0]) then SkipSpace(s[1..]) else s
  }

  // ----- strings -----

  function HexValue(c: char): Option<int> {
    if '0' <= c <= '9' then Some(c as int - '0' as int)
    else if 'a' <= c <= 'f' then Some(c as int - 'a' as int + 10)
    else if 'A' <= c <= 'F' then Some(c as int - 'A' as int + 10)
    else None
  }

  /** Four hexadecimal digits at the head of the text. */
  function Hex4(s: string): Option<int> {
    if |s| < 4 then None
    else match (HexValue(s[0]), HexValue(s[1]), HexValue(s[2]), HexValue(s[3]))
      case (Some(a), Some(b), Some(c), Some(d)) => Some(((a * 16 + b) * 16 + c) * 16 + d)
      case _ => None
  }

  function SimpleEscape(c: char): Option<int> {
    match c
    case '"' => Some(34)
    case '\\' => Some(92)
    case '/' => Some(47)
    case 'b' => Some(8)
    case 'f' => Some(12)
    case 'n' => Some(10)
    case 'r' => Some(13)
    case 't' => Some(9)
    case _ => None
  }

  /** The rest of a string literal, after its opening quote: code units and what follows. */
  function Units(s: string): (r: Option<(seq<int>, string)>)
    ensures r.Some? ==> |r.value.1| < |s|
  {
    if s == [] || (s[0] as int) < 32 then None
    else if s[0] == '"' then Some(([], s[1..]))
    else if s[0] != '\\' then Prepend(s[0] as int, Units(s[1..]))
    else if |s| < 2 then None
    else if s[1] == 'u' then
      match Hex4(s[2..])
      case None => None
      case Some(u) => Prepend(u, Units(s[6..]))
    else
      match SimpleEscape(s[1])
      case None => None
      case Some(u) => Prepend(u, Units(s[2..]))
  }

  function Prepend(u: int, r: Option<(seq<int>, string)>): Option<(seq<int>, string)> {
    match r
    case None => None
    case Some((units, rest)) => Some(([u] + units, rest))
  }

  /** A high surrogate followed by a low one is a single code point. */
  function JoinSurrogates(units: seq<int>): seq<int> {
    if |units| >= 2 && 0xD800 <= units[0] <= 0xDBFF && 0xDC00 <= units[1] <= 0xDFFF then
      [0x10000 + (units[0] - 0xD800) * 0x400 + (units[1] - 0xDC00)] + JoinSurrogates(units[2..])
    else if units == [] then []
    else [units[0]] + JoinSurrogates(units[1..])
  }

  // ----- numbers -----

  predicate IsDigit(c: char) {
    '0' <= c <= '9'
  }

  /** How many digits the text starts with. */
  function Digits(s: string): (n: nat)
    ensures n <= |s|
    ensures forall i :: 0 <= i < n ==> IsDigit(s[i])
  {
    if s == [] || !IsDigit(s[0]) then 0 else 1 + Digits(s[1..])
  }

  function IntegerLength(s: string): (n: nat)
    ensures n <= |s|
  {
    if s == [] then 0 else if s[0] == '0' then 1 else Digits(s)
  }

  function FractionLength(s: string): (n: nat)
    ensures n <= |s|
  {
    if |s| >= 2 && s[0] == '.' && IsDigit(s[1]) then 1 + Digits(s[1..]) else 0
  }

  function ExponentLength(s: string): (n: nat)
    ensures n <= |s|
  {
    if |s| < 2 || (s[0] != 'e' && s[0] != 'E') then 0
    else
      var sign := if s[1] == '+' || s[1] == '-' then 1 else 0;
      var digits := Digits(s[1 + sign..]);
      if digits == 0 then 0 else 1 + sign + digits
  }

  /** A fraction and an exponent, each optional. */
  function TailLength(s: string): (n: nat)
    ensures n <= |s|
  {
    var fraction := FractionLength(s);
    fraction + ExponentLength(s[fraction..])
  }

  function UnsignedLength(s: string): (n: nat)
    ensures n <= |s|
  {
    var whole := IntegerLength(s);
    if whole == 0 then 0 else whole + TailLength(s[whole..])
  }

  /** The longest number at the head of the text, or 0. */
  function NumberLength(s: string): (n: nat)
    ensures n <= |s|
  {
    if s == [] || s[0] != '-' then UnsignedLength(s)
    else if UnsignedLength(s[1..]) == 0 then 0
    else 1 + UnsignedLength(s[1..])
  }

  /** The word the text starts with: `null`, a boolean, or one of Python's own `NaN`,
      `Infinity` and `-Infinity`; empty if none. */
  function Word(s: string): (w: string)
    ensures w <= s
    ensures |w| <= 9
  {
    if "null" <= s then "null"
    else if "true" <= s then "true"
    else if "false" <= s then "false"
    else if "NaN" <= s then "NaN"
    else if "Infinity" <= s then "Infinity"
    else if "-Infinity" <= s then "-Infinity"
    else ""
  }

  function WordValue(w: string): Json {
    if w == "null" then Null
    else if w == "true" then Bool(true)
    else if w == "false" then Bool(false)
    else Number(w)
  }

  // ----- values -----

  function Value(s: string): (r: Option<(Json, string)>)
    ensures r.Some? ==> |r.value.1| < |s|
    decreases |s|, 0
  {
    if s == [] then None
    else if s[0] == '"' then
      match Units(s[1..])
      case None => None
      case Some((units, rest)) => Some((Str(JoinSurrogates(units)), rest))
    else if s[0] == '[' then
      var inner := SkipSpace(s[1..]);
      if inner != [] && inner[0] == ']' then Some((List([]), inner[1..]))
      else match Items(inner)
        case None => None
        case Some((items, rest)) => Some((List(items), rest))
    else if s[0] == '{' then
      var inner := SkipSpace(s[1..]);
      if inner != [] && inner[0] == '}' then Some((Dict(map[]), inner[1..]))
      else match Fields(inner)
        case None => None
        case Some((fields, rest)) => Some((Dict(fields), rest))
    else if NumberLength(s) > 0 then
      Some((Number(s[..NumberLength(s)]), s[NumberLength(s)..]))
    else if Word(s) != "" then
      Some((WordValue(Word(s)), s[|Word(s)|..]))
    else None
  }

  /** Values separated by commas, up to and including the closing bracket. */
  function Items(s: string): (r: Option<(seq<Json>, string)>)
    ensures r.Some? ==> |r.value.1| < |s|
    decreases |s|, 1
  {
    match Value(s)
    case None => None
    case Some((v, rest)) =>
      var after := SkipSpace(rest);
      if after == [] then None
      else if after[0] == ']' then Some(([v], after[1..]))
      else if after[0] != ',' then None
      else match Items(SkipSpace(after[1..]))
        case None => None
        case Some((items, end)) => Some(([v] + items, end))
  }

  /** `"name": value` pairs separated by commas, up to and including the closing brace. */
  function Fields(s: string): (r: Option<(map<seq<int>, Json>, string)>)
    ensures r.Some? ==> |r.value.1| < |s|
    decreases |s|, 1
  {
    if s == [] || s[0] != '"' then None
    else match Units(s[1..])
      case None => None
      case Some((units, rest)) =>
        var colon := SkipSpace(rest);
        if colon == [] || colon[0] != ':' then None
        else match Value(SkipSpace(colon[1..]))
          case None => None
          case Some((v, rest')) =>
            var after := SkipSpace(rest');
            var name := JoinSurrogates(units);
            if after == [] then None
            else if after[0] == '}' then Some((map[name := v], after[1..]))
            else if after[0] != ',' then None
            else match Fields(SkipSpace(after[1..]))
              case None => None
              case Some((fields, end)) => Some((map[name := v] + fields, end))
  }

  /** `json.loads(s)`; None stands for JSONDecodeError. */
  function Loads(s: string): Option<Json> {
    match Value(SkipSpace(s))
    case None => None
    case Some((v, rest)) => if SkipSpace(rest) == [] then Some(v) else None
  }
}
