/** JSON values as `json.dumps` prints them and `json.loads` reads them (RFC 8259,
    sections 2 to 7, with Python's own choices where the standard leaves room). */
module Json {
  import opened Unicode

  // A float is identified with the digits Python prints for it.
  datatype Json =
    | Null
    | Bool(b: bool)
    | Int(n: int)
    | Float(lexeme: Text)
    | Str(s: Text)
    | Arr(items: seq<Json>)
    | Obj(members: seq<Member>)

  // A Python dict keeps its insertion order.
  datatype Member = Member(key: Text, value: Json)

  const QUOTE: Code := 0x22
  const BACKSLASH: Code := 0x5C
  const SLASH: Code := 0x2F
  const LBRACE: Code := 0x7B
  const RBRACE: Code := 0x7D
  const LBRACKET: Code := 0x5B
  const RBRACKET: Code := 0x5D
  const COMMA: Code := 0x2C
  const COLON: Code := 0x3A
  const SPACE: Code := 0x20
  const TAB: Code := 0x09
  const BACKSPACE: Code := 0x08
  const FORM_FEED: Code := 0x0C
  const MINUS: Code := 0x2D
  const PLUS: Code := 0x2B
  const DOT: Code := 0x2E
  const LOWER_B: Code := 0x62
  const LOWER_E: Code := 0x65
  const LOWER_F: Code := 0x66
  const LOWER_N: Code := 0x6E
  const LOWER_R: Code := 0x72
  const LOWER_T: Code := 0x74
  const LOWER_U: Code := 0x75
  const UPPER_E: Code := 0x45
  const NULL_WORD: Text := [0x6E, 0x75, 0x6C, 0x6C]
  const TRUE_WORD: Text := [0x74, 0x72, 0x75, 0x65]
  const FALSE_WORD: Text := [0x66, 0x61, 0x6C, 0x73, 0x65]
  const NAN_WORD: Text := [0x4E, 0x61, 0x4E]
  const INFINITY_WORD: Text := [0x49, 0x6E, 0x66, 0x69, 0x6E, 0x69, 0x74, 0x79]
  const MINUS_INFINITY_WORD: Text := [0x2D, 0x49, 0x6E, 0x66, 0x69, 0x6E, 0x69, 0x74, 0x79]

  /******* Printing *******/

  /** `ascii` is `ensure_ascii`; `gap` is what follows each separator. */
  datatype Style = Style(ascii: bool, gap: Text)

  const TRANSCRIPT_STYLE := Style(false, [])
  const KEY_STYLE := Style(true, [])
  const DEFAULT_STYLE := Style(true, [SPACE])

  function HexDigit(d: int): Code
    requires 0 <= d < 16
  {
    if d < 10 then 0x30 + d else 0x57 + d
  }

  function UnicodeEscape(u: int): Text
    requires 0 <= u < 0x1_0000
  {
    [BACKSLASH, LOWER_U, HexDigit(u / 4096), HexDigit(u / 256 % 16), HexDigit(u / 16 % 16), HexDigit(u % 16)]
  }

  function Escape(ascii: bool, c: Code): Text {
    if c == QUOTE || c == BACKSLASH then [BACKSLASH, c]
    else if c == LF then [BACKSLASH, LOWER_N]
    else if c == CR then [BACKSLASH, LOWER_R]
    else if c == TAB then [BACKSLASH, LOWER_T]
    else if c == BACKSPACE then [BACKSLASH, LOWER_B]
    else if c == FORM_FEED then [BACKSLASH, LOWER_F]
    else if c < 0x20 then UnicodeEscape(c)
    else if !ascii || c < 0x7F then [c]
    else if c < 0x1_0000 then UnicodeEscape(c)
    else UnicodeEscape(0xD800 + (c - 0x1_0000) / 1024) + UnicodeEscape(0xDC00 + (c - 0x1_0000) % 1024)
  }

  /** The rest of a printed string, from its first character to its closing quote. */
  function PrintChars(ascii: bool, s: Text): Text {
    if s == [] then [QUOTE] else Escape(ascii, s[0]) + PrintChars(ascii, s[1..])
  }

  function PrintString(ascii: bool, s: Text): Text {
    [QUOTE] + PrintChars(ascii, s)
  }

  function Digits(n: nat): Text {
    if n < 10 then [0x30 + n] else Digits(n / 10) + [0x30 + n % 10]
  }

  function PrintInt(n: int): Text {
    if n < 0 then [MINUS] + Digits(-n) else Digits(n)
  }

  function Print(st: Style, v: Json): Text
    decreases v
  {
    match v
    case Null => NULL_WORD
    case Bool(b) => if b then TRUE_WORD else FALSE_WORD
    case Int(n) => PrintInt(n)
    case Float(lexeme) => lexeme
    case Str(s) => PrintString(st.ascii, s)
    case Arr(items) => if items == [] then [LBRACKET, RBRACKET] else [LBRACKET] + PrintItems(st, items)
    case Obj(ms) => if ms == [] then [LBRACE, RBRACE] else [LBRACE] + PrintMembers(st, ms)
  }

  /** Items and the closing bracket. */
  function PrintItems(st: Style, items: seq<Json>): Text
    requires items != []
    decreases items
  {
    Print(st, items[0]) +
    if |items| == 1 then [RBRACKET] else [COMMA] + st.gap + PrintItems(st, items[1..])
  }

  function PrintMember(st: Style, m: Member): Text
    decreases m
  {
    PrintString(st.ascii, m.key) + [COLON] + st.gap + Print(st, m.value)
  }

  /** Members and the closing brace. */
  function PrintMembers(st: Style, ms: seq<Member>): Text
    requires ms != []
    decreases ms
  {
    PrintMember(st, ms[0]) +
    if |ms| == 1 then [RBRACE] else [COMMA] + st.gap + PrintMembers(st, ms[1..])
  }

  /******* Parsing *******/

  datatype Parsed<+T> = Fail | Ok(value: T, rest: Text)

  predicate IsWhitespace(c: Code) {
    c == SPACE || c == TAB || c == LF || c == CR
  }

  function SkipWs(s: Text): (r: Text)
    ensures |r| <= |s|
    ensures r != [] ==> !IsWhitespace(r[0])
  {
    if s != [] && IsWhitespace(s[0]) then SkipWs(s[1..]) else s
  }

  function HexValue(c: Code): (r: int)
    ensures -1 <= r < 16
  {
    if 0x30 <= c <= 0x39 then c - 0x30
    else if 0x61 <= c <= 0x66 then c - 0x57
    else if 0x41 <= c <= 0x46 then c - 0x37
    else -1
  }

  function ParseHex4(s: Text): (r: Parsed<int>)
    ensures r.Ok? ==> |s| >= 4 && r.rest == s[4..] && 0 <= r.value < 0x1_0000
  {
    if |s| < 4 || HexValue(s[0]) < 0 || HexValue(s[1]) < 0 || HexValue(s[2]) < 0 || HexValue(s[3]) < 0 then Fail
    else Ok(HexValue(s[0]) * 4096 + HexValue(s[1]) * 256 + HexValue(s[2]) * 16 + HexValue(s[3]), s[4..])
  }

  /** The character a one-letter escape stands for, or -1. */
  function Unescape(c: Code): (r: int)
    ensures -1 <= r < 0x80
  {
    if c == QUOTE || c == BACKSLASH || c == SLASH then c
    else if c == LOWER_B then BACKSPACE
    else if c == LOWER_F then FORM_FEED
    else if c == LOWER_N then LF
    else if c == LOWER_R then CR
    else if c == LOWER_T then TAB
    else -1
  }

  /** What follows `\u`: a code point, or two escapes that make a surrogate pair. */
  function ParseUnicodeEscape(s: Text): (r: Parsed<Code>)
    ensures r.Ok? ==> |r.rest| < |s|
  {
    match ParseHex4(s)
    case Fail => Fail
    case Ok(hi, r) =>
      if 0xD800 <= hi <= 0xDBFF && |r| >= 2 && r[0] == BACKSLASH && r[1] == LOWER_U then
        match ParseHex4(r[2..])
        case Fail => Fail
        case Ok(lo, r2) =>
          if 0xDC00 <= lo <= 0xDFFF then Ok(0x1_0000 + (hi - 0xD800) * 1024 + (lo - 0xDC00), r2)
          else Ok(hi, r)
      else Ok(hi, r)
  }

  /** One character of a string literal; control characters must be escaped. */
  function ParseChar(s: Text): (r: Parsed<Code>)
    requires s != [] && s[0] != QUOTE
    ensures r.Ok? ==> |r.rest| < |s|
  {
    if s[0] == BACKSLASH then
      if |s| < 2 then Fail
      else if s[1] == LOWER_U then ParseUnicodeEscape(s[2..])
      else if Unescape(s[1]) < 0 then Fail
      else Ok(Unescape(s[1]), s[2..])
    else if s[0] < 0x20 then Fail
    else Ok(s[0], s[1..])
  }

  /** The characters of a string literal up to and including its closing quote. */
  function ParseChars(s: Text): (r: Parsed<Text>)
    ensures r.Ok? ==> |r.rest| < |s|
    decreases |s|
  {
    if s == [] then Fail
    else if s[0] == QUOTE then Ok([], s[1..])
    else
      match ParseChar(s)
      case Fail => Fail
      case Ok(c, r) =>
        match ParseChars(r)
        case Fail => Fail
        case Ok(cs, r2) => Ok([c] + cs, r2)
  }

  predicate IsDigit(c: Code) {
    0x30 <= c <= 0x39
  }

  function DigitRun(s: Text): (n: nat)
    ensures n <= |s|
  {
    if s != [] && IsDigit(s[0]) then 1 + DigitRun(s[1..]) else 0
  }

  function IntLength(s: Text): (n: nat)
    ensures n <= |s|
  {
    if s != [] && s[0] == 0x30 then 1 else DigitRun(s)
  }

  function FractionLength(s: Text): (n: nat)
    ensures n <= |s|
  {
    if s != [] && s[0] == DOT && DigitRun(s[1..]) > 0 then 1 + DigitRun(s[1..]) else 0
  }

  function SignLength(s: Text): (n: nat)
    ensures n <= |s|
  {
    if s != [] && (s[0] == MINUS || s[0] == PLUS) then 1 else 0
  }

  function ExponentLength(s: Text): (n: nat)
    ensures n <= |s|
  {
    if s != [] && (s[0] == LOWER_E || s[0] == UPPER_E) then
      var k := 1 + SignLength(s[1..]);
      if DigitRun(s[k..]) > 0 then k + DigitRun(s[k..]) else 0
    else 0
  }

  /** The length of the number that starts `s`, 0 when there is none, and whether
      it has no fraction and no exponent. */
  function NumberLength(s: Text): (r: (nat, bool))
    ensures r.0 <= |s|
  {
    var sign := if s != [] && s[0] == MINUS then 1 else 0;
    var i := IntLength(s[sign..]);
    if i == 0 then (0, true)
    else
      var f := FractionLength(s[sign + i..]);
      var e := ExponentLength(s[sign + i + f..]);
      (sign + i + f + e, f + e == 0)
  }

  function DecimalValue(ds: Text): int {
    if ds == [] then 0 else DecimalValue(ds[..|ds| - 1]) * 10 + (ds[|ds| - 1] as int - 0x30)
  }

  function IntValue(s: Text): int {
    if s != [] && s[0] == MINUS then -DecimalValue(s[1..]) else DecimalValue(s)
  }

  function ParseNumber(s: Text): (r: Parsed<Json>)
    ensures r.Ok? ==> |r.rest| < |s|
  {
    var (n, isInt) := NumberLength(s);
    if n == 0 then Fail
    else Ok(if isInt then Int(IntValue(s[..n])) else Float(s[..n]), s[n..])
  }

  /** The position of a key, or the length. */
  function IndexOf(ms: seq<Member>, key: Text): (i: nat)
    ensures i <= |ms| && (i < |ms| ==> ms[i].key == key)
  {
    if ms == [] || ms[0].key == key then 0 else 1 + IndexOf(ms[1..], key)
  }

  function Lookup(ms: seq<Member>, key: Text, default: Json): Json {
    if IndexOf(ms, key) < |ms| then ms[IndexOf(ms, key)].value else default
  }

  /** Assignment into a dict: a known key keeps its place. */
  function Put(ms: seq<Member>, m: Member): seq<Member> {
    if ms == [] then [m]
    else if ms[0].key == m.key then [m] + ms[1..]
    else [ms[0]] + Put(ms[1..], m)
  }

  function DictOf(ms: seq<Member>): seq<Member> {
    if ms == [] then [] else Put(DictOf(ms[..|ms| - 1]), ms[|ms| - 1])
  }

  function ParseValue(s: Text): (r: Parsed<Json>)
    ensures r.Ok? ==> |r.rest| < |s|
    decreases |s|, 1
  {
    if s == [] then Fail
    else if s[0] == QUOTE then
      match ParseChars(s[1..])
      case Fail => Fail
      case Ok(cs, r) => Ok(Str(cs), r)
    else if s[0] == LBRACE then ParseObject(s[1..])
    else if s[0] == LBRACKET then ParseArray(s[1..])
    else ParseScalar(s)
  }

  function ParseScalar(s: Text): (r: Parsed<Json>)
    ensures r.Ok? ==> |r.rest| < |s|
  {
    if NULL_WORD <= s then Ok(Null, s[|NULL_WORD|..])
    else if TRUE_WORD <= s then Ok(Bool(true), s[|TRUE_WORD|..])
    else if FALSE_WORD <= s then Ok(Bool(false), s[|FALSE_WORD|..])
    else if NAN_WORD <= s then Ok(Float(NAN_WORD), s[|NAN_WORD|..])
    else if INFINITY_WORD <= s then Ok(Float(INFINITY_WORD), s[|INFINITY_WORD|..])
    else if MINUS_INFINITY_WORD <= s then Ok(Float(MINUS_INFINITY_WORD), s[|MINUS_INFINITY_WORD|..])
    else ParseNumber(s)
  }

  /** What follows an opening bracket. */
  function ParseArray(s: Text): (r: Parsed<Json>)
    ensures r.Ok? ==> |r.rest| < |s|
    decreases |s|, 3
  {
    var t := SkipWs(s);
    if t != [] && t[0] == RBRACKET then Ok(Arr([]), t[1..])
    else
      match ParseItems(t)
      case Fail => Fail
      case Ok(items, r) => Ok(Arr(items), r)
  }

  function ParseItems(s: Text): (r: Parsed<seq<Json>>)
    ensures r.Ok? ==> |r.rest| < |s| && r.value != []
    decreases |s|, 2
  {
    match ParseValue(s)
    case Fail => Fail
    case Ok(v, r) =>
      var t := SkipWs(r);
      if t == [] then Fail
      else if t[0] == RBRACKET then Ok([v], t[1..])
      else if t[0] == COMMA then
        match ParseItems(SkipWs(t[1..]))
        case Fail => Fail
        case Ok(vs, r2) => Ok([v] + vs, r2)
      else Fail
  }

  /** What follows an opening brace. */
  function ParseObject(s: Text): (r: Parsed<Json>)
    ensures r.Ok? ==> |r.rest| < |s|
    decreases |s|, 3
  {
    var t := SkipWs(s);
    if t != [] && t[0] == RBRACE then Ok(Obj([]), t[1..])
    else
      match ParseMembers(t)
      case Fail => Fail
      case Ok(ms, r) => Ok(Obj(DictOf(ms)), r)
  }

  /** A quoted key and its colon. */
  function ParseKey(s: Text): (r: Parsed<Text>)
    ensures r.Ok? ==> |r.rest| < |s|
  {
    if s == [] || s[0] != QUOTE then Fail
    else
      match ParseChars(s[1..])
      case Fail => Fail
      case Ok(k, r) =>
        var t := SkipWs(r);
        if t == [] || t[0] != COLON then Fail else Ok(k, SkipWs(t[1..]))
  }

  function ParseMembers(s: Text): (r: Parsed<seq<Member>>)
    ensures r.Ok? ==> |r.rest| < |s| && r.value != []
    decreases |s|, 2
  {
    match ParseKey(s)
    case Fail => Fail
    case Ok(k, r) =>
      match ParseValue(r)
      case Fail => Fail
      case Ok(v, r2) =>
        var t := SkipWs(r2);
        if t == [] then Fail
        else if t[0] == RBRACE then Ok([Member(k, v)], t[1..])
        else if t[0] == COMMA then
          match ParseMembers(SkipWs(t[1..]))
          case Fail => Fail
          case Ok(ms, r3) => Ok([Member(k, v)] + ms, r3)
        else Fail
  }

  datatype Option<+T> = None | Some(value: T)

  /** `json.loads`, where `None` is a `JSONDecodeError`. */
  function Loads(s: Text): Option<Json> {
    match ParseValue(SkipWs(s))
    case Fail => None
    case Ok(v, r) => if SkipWs(r) == [] then Some(v) else None
  }

  /******* The values Python prints *******/

  predicate NumberChar(c: Code) {
    IsDigit(c) || c == MINUS || c == PLUS || c == DOT || c == LOWER_E || c == UPPER_E
  }

  /** The printed form of a finite float. */
  predicate IsFloat(l: Text) {
    ParseNumber(l) == Ok(Float(l), []) && forall c <- l :: NumberChar(c)
  }

  predicate UniqueKeys(ms: seq<Member>) {
    forall i, j | 0 <= i < j < |ms| :: ms[i].key != ms[j].key
  }

  /** A JSON value with scalar text, finite floats and dict-like objects. */
  predicate Printable(v: Json)
    decreases v
  {
    match v
    case Null => true
    case Bool(_) => true
    case Int(_) => true
    case Float(l) => IsFloat(l)
    case Str(s) => AllScalar(s)
    case Arr(items) => forall i | 0 <= i < |items| :: Printable(items[i])
    case Obj(ms) => UniqueKeys(ms) && forall i | 0 <= i < |ms| :: AllScalar(ms[i].key) && Printable(ms[i].value)
  }
}
