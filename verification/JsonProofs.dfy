/** The parser undoes the printer, so the printer is injective: the facts the
    transcript and the token cache rest on. */
module JsonProofs {
  import opened Unicode
  import opened Json

  /** A separator gap is whitespace. */
  predicate GoodStyle(st: Style) {
    st.gap == [] || st.gap == [SPACE]
  }

  /** What may follow a number without being read as part of it. */
  predicate Delimited(rest: Text) {
    rest != [] ==> !NumberChar(rest[0])
  }

  /******* Strings *******/

  lemma HexOfDigit(d: int)
    requires 0 <= d < 16
    ensures HexValue(HexDigit(d)) == d
  {
  }

  lemma HexParts(u: int)
    requires 0 <= u < 0x1_0000
    ensures u == u / 4096 * 4096 + u / 256 % 16 * 256 + u / 16 % 16 * 16 + u % 16
  {
    assert u / 256 == u / 4096 * 16 + u / 256 % 16;
    assert u / 16 == u / 256 * 16 + u / 16 % 16;
  }

  lemma ParseHex4OfDigits(a: int, b: int, c: int, d: int, rest: Text)
    requires 0 <= a < 16 && 0 <= b < 16 && 0 <= c < 16 && 0 <= d < 16
    ensures ParseHex4([HexDigit(a), HexDigit(b), HexDigit(c), HexDigit(d)] + rest)
         == Ok(a * 4096 + b * 256 + c * 16 + d, rest)
  {
    var s := [HexDigit(a), HexDigit(b), HexDigit(c), HexDigit(d)] + rest;
    HexOfDigit(a);
    HexOfDigit(b);
    HexOfDigit(c);
    HexOfDigit(d);
    assert s[4..] == rest;
  }

  lemma ParseHex4OfEscape(u: int, rest: Text)
    requires 0 <= u < 0x1_0000
    ensures ParseHex4(UnicodeEscape(u)[2..] + rest) == Ok(u, rest)
  {
    HexParts(u);
    var a, b, c, d := u / 4096, u / 256 % 16, u / 16 % 16, u % 16;
    ParseHex4OfDigits(a, b, c, d, rest);
    assert UnicodeEscape(u)[2..] == [HexDigit(a), HexDigit(b), HexDigit(c), HexDigit(d)];
  }

  lemma ParseShortUnicode(u: Code, rest: Text)
    requires u < 0x1_0000 && IsScalar(u)
    ensures ParseChar(UnicodeEscape(u) + rest) == Ok(u, rest)
  {
    var s := UnicodeEscape(u) + rest;
    ParseHex4OfEscape(u, rest);
    assert s[2..] == UnicodeEscape(u)[2..] + rest;
  }

  lemma ParsePair(s: Text, hi: int, lo: int, tail: Text, rest: Text)
    requires 0xD800 <= hi <= 0xDBFF && 0xDC00 <= lo <= 0xDFFF
    requires ParseHex4(s) == Ok(hi, tail)
    requires |tail| >= 2 && tail[0] == BACKSLASH && tail[1] == LOWER_U && ParseHex4(tail[2..]) == Ok(lo, rest)
    ensures ParseUnicodeEscape(s) == Ok(0x1_0000 + (hi - 0xD800) * 1024 + (lo - 0xDC00), rest)
  {
    hide ParseHex4;
  }

  lemma ParsePairUnicode(hi: int, lo: int, rest: Text)
    requires 0xD800 <= hi <= 0xDBFF && 0xDC00 <= lo <= 0xDFFF
    ensures ParseChar(UnicodeEscape(hi) + UnicodeEscape(lo) + rest)
         == Ok(0x1_0000 + (hi - 0xD800) * 1024 + (lo - 0xDC00), rest)
  {
    hide ParseUnicodeEscape, ParseHex4, HexDigit;
    var tail := UnicodeEscape(lo) + rest;
    var s := UnicodeEscape(hi) + UnicodeEscape(lo) + rest;
    assert s[2..] == UnicodeEscape(hi)[2..] + tail;
    ParseHex4OfEscape(hi, tail);
    assert tail[2..] == UnicodeEscape(lo)[2..] + rest;
    ParseHex4OfEscape(lo, rest);
    ParsePair(s[2..], hi, lo, tail, rest);
  }

  lemma ParseCharOfEscape(ascii: bool, c: Code, rest: Text)
    requires IsScalar(c)
    ensures Escape(ascii, c)[0] != QUOTE
    ensures ParseChar(Escape(ascii, c) + rest) == Ok(c, rest)
  {
    hide ParseUnicodeEscape, HexDigit;
    var s := Escape(ascii, c) + rest;
    if c == QUOTE || c == BACKSLASH || c == LF || c == CR || c == TAB || c == BACKSPACE || c == FORM_FEED {
      assert s[2..] == rest;
    } else if c < 0x20 {
      ParseShortUnicode(c, rest);
    } else if !ascii || c < 0x7F {
      assert s[1..] == rest;
    } else if c < 0x1_0000 {
      ParseShortUnicode(c, rest);
    } else {
      ParsePairUnicode(0xD800 + (c - 0x1_0000) / 1024, 0xDC00 + (c - 0x1_0000) % 1024, rest);
    }
  }

  lemma ParseCharsOfEscape(ascii: bool, c: Code, tail: Text, cs: Text, rest: Text)
    requires IsScalar(c) && ParseChars(tail) == Ok(cs, rest)
    ensures ParseChars(Escape(ascii, c) + tail) == Ok([c] + cs, rest)
  {
    ParseCharOfEscape(ascii, c, tail);
  }

  lemma {:induction false} ParseCharsOfPrint(ascii: bool, s: Text, rest: Text)
    requires AllScalar(s)
    ensures ParseChars(PrintChars(ascii, s) + rest) == Ok(s, rest)
  {
    hide Escape, ParseChar;
    if s == [] {
      assert ([QUOTE] + rest)[1..] == rest;
    } else {
      var tail := PrintChars(ascii, s[1..]) + rest;
      ParseCharsOfPrint(ascii, s[1..], rest);
      ParseCharsOfEscape(ascii, s[0], tail, s[1..], rest);
      assert PrintChars(ascii, s) + rest == Escape(ascii, s[0]) + tail;
      assert s == [s[0]] + s[1..];
    }
  }

  lemma SkipNone(s: Text)
    requires s != [] ==> !IsWhitespace(s[0])
    ensures SkipWs(s) == s
  {
  }

  lemma ParseKeyOfPrint(st: Style, key: Text, rest: Text)
    requires GoodStyle(st) && AllScalar(key) && (rest != [] ==> !IsWhitespace(rest[0]))
    ensures ParseKey(PrintString(st.ascii, key) + [COLON] + st.gap + rest) == Ok(key, rest)
  {
    hide PrintChars, ParseChars, SkipWs;
    var s := PrintString(st.ascii, key) + [COLON] + st.gap + rest;
    var tail := [COLON] + (st.gap + rest);
    assert s[1..] == PrintChars(st.ascii, key) + tail;
    ParseCharsOfPrint(st.ascii, key, tail);
    assert tail[1..] == st.gap + rest;
    SkipNone(tail);
    SkipGap(st, rest);
  }

  lemma SkipGap(st: Style, rest: Text)
    requires GoodStyle(st) && (rest != [] ==> !IsWhitespace(rest[0]))
    ensures SkipWs(st.gap + rest) == rest
  {
    if st.gap == [] {
      assert st.gap + rest == rest;
    } else {
      assert (st.gap + rest)[1..] == rest;
    }
  }

  /******* Numbers *******/

  lemma {:induction false} DigitRunExtends(s: Text, rest: Text)
    requires Delimited(rest)
    ensures DigitRun(s + rest) == DigitRun(s)
  {
    if s == [] {
      assert s + rest == rest;
    } else {
      assert (s + rest)[1..] == s[1..] + rest;
      DigitRunExtends(s[1..], rest);
    }
  }

  lemma DropPrefix(s: Text, rest: Text, k: nat)
    requires k <= |s|
    ensures (s + rest)[k..] == s[k..] + rest
  {
  }

  lemma FractionExtends(s: Text, rest: Text)
    requires Delimited(rest)
    ensures FractionLength(s + rest) == FractionLength(s)
  {
    if s == [] {
      assert s + rest == rest;
    } else {
      DropPrefix(s, rest, 1);
      DigitRunExtends(s[1..], rest);
    }
  }

  lemma ExponentExtends(s: Text, rest: Text)
    requires Delimited(rest)
    ensures ExponentLength(s + rest) == ExponentLength(s)
  {
    if s == [] {
      assert s + rest == rest;
    } else {
      DropPrefix(s, rest, 1);
      if s[1..] == [] {
        assert s[1..] + rest == rest;
      }
      var k := 1 + SignLength(s[1..]);
      DropPrefix(s, rest, k);
      DigitRunExtends(s[k..], rest);
    }
  }

  lemma IntExtends(s: Text, rest: Text)
    requires Delimited(rest)
    ensures IntLength(s + rest) == IntLength(s)
  {
    DigitRunExtends(s, rest);
    if s == [] {
      assert s + rest == rest;
    }
  }

  lemma NumberExtends(s: Text, rest: Text)
    requires s != [] && Delimited(rest)
    ensures NumberLength(s + rest) == NumberLength(s)
  {
    hide DigitRun, IntLength, FractionLength, ExponentLength;
    var sign := if s[0] == MINUS then 1 else 0;
    assert (s + rest)[0] == s[0];
    var i := IntLength(s[sign..]);
    assert IntLength((s + rest)[sign..]) == i by {
      DropPrefix(s, rest, sign);
      IntExtends(s[sign..], rest);
    }
    var f := FractionLength(s[sign + i..]);
    assert FractionLength((s + rest)[sign + i..]) == f by {
      DropPrefix(s, rest, sign + i);
      FractionExtends(s[sign + i..], rest);
    }
    assert ExponentLength((s + rest)[sign + i + f..]) == ExponentLength(s[sign + i + f..]) by {
      DropPrefix(s, rest, sign + i + f);
      ExponentExtends(s[sign + i + f..], rest);
    }
  }

  lemma ParseNumberExtends(s: Text, rest: Text)
    requires s != [] && Delimited(rest) && NumberLength(s).0 == |s|
    ensures ParseNumber(s + rest) == Ok(if NumberLength(s).1 then Int(IntValue(s)) else Float(s), rest)
  {
    NumberExtends(s, rest);
    assert (s + rest)[..|s|] == s && (s + rest)[|s|..] == rest && s[..|s|] == s;
  }

  lemma {:induction false} DigitsShape(n: nat)
    ensures var ds := Digits(n);
      && ds != [] && (forall d <- ds :: IsDigit(d))
      && (n > 0 ==> ds[0] != 0x30) && (n == 0 ==> |ds| == 1)
      && DecimalValue(ds) == n
  {
    if n >= 10 {
      DigitsShape(n / 10);
      var ds := Digits(n);
      assert ds[..|ds| - 1] == Digits(n / 10);
      assert ds[|ds| - 1] == 0x30 + n % 10;
    } else {
      var ds := Digits(n);
      assert ds[..0] == [];
      assert DecimalValue(ds) == DecimalValue(ds[..0]) * 10 + n;
    }
  }

  lemma {:induction false} DigitRunOfDigits(ds: Text)
    requires forall d <- ds :: IsDigit(d)
    ensures DigitRun(ds) == |ds|
  {
    if ds != [] {
      DigitRunOfDigits(ds[1..]);
    }
  }

  lemma NumberLengthOfInt(n: int)
    ensures NumberLength(PrintInt(n)) == (|PrintInt(n)|, true)
    ensures IntValue(PrintInt(n)) == n
  {
    var m := if n < 0 then -n else n;
    DigitsShape(m);
    hide Digits, DecimalValue, NumberLength;
    var ds := Digits(m);
    NumberLengthOfDigits(ds);
    assert ds[0] in ds;
    assert ([MINUS] + ds)[1..] == ds;
  }

  lemma NumberLengthOfDigits(ds: Text)
    requires ds != [] && (forall d <- ds :: IsDigit(d)) && (ds[0] == 0x30 ==> |ds| == 1)
    ensures NumberLength(ds) == (|ds|, true) && NumberLength([MINUS] + ds) == (|ds| + 1, true)
  {
    IntLengthOfDigits(ds);
    NothingFollows([]);
    hide IntLength, FractionLength, ExponentLength;
    var s := [MINUS] + ds;
    assert ds[0] in ds;
    assert ds[0..] == ds && ds[|ds|..] == [];
    assert s[1..] == ds && s[1 + |ds|..] == [];
  }

  lemma NothingFollows(s: Text)
    requires s == []
    ensures FractionLength(s) == 0 && ExponentLength(s) == 0
  {
  }

  lemma IntLengthOfDigits(ds: Text)
    requires ds != [] && (forall d <- ds :: IsDigit(d)) && (ds[0] == 0x30 ==> |ds| == 1)
    ensures IntLength(ds) == |ds|
  {
    DigitRunOfDigits(ds);
    assert ds[0] in ds;
  }

  /******* Values *******/

  predicate StartsValue(s: Text) {
    && s != [] && !IsWhitespace(s[0]) && s[0] != RBRACKET && s[0] != RBRACE
  }

  lemma PrintStarts(st: Style, v: Json)
    requires Printable(v)
    ensures StartsValue(Print(st, v))
    ensures v.Obj? ==> Print(st, v)[0] == LBRACE
  {
    match v
    case Int(n) =>
      var ds := Digits(if n < 0 then -n else n);
      DigitsShape(if n < 0 then -n else n);
      assert ds[0] in ds;
    case Float(l) => assert l[0] in l;
    case _ =>
  }

  lemma ParseScalarOfNumber(s: Text, rest: Text)
    requires s != [] && (IsDigit(s[0]) || s[0] == MINUS) && Delimited(rest) && NumberLength(s).0 == |s|
    requires !(MINUS_INFINITY_WORD <= s + rest)
    ensures ParseValue(s + rest) == Ok(if NumberLength(s).1 then Int(IntValue(s)) else Float(s), rest)
  {
    hide ParseNumber, NumberLength, IntValue;
    var t := s + rest;
    assert t[0] == s[0];
    assert !(NULL_WORD <= t) && !(TRUE_WORD <= t) && !(FALSE_WORD <= t) && !(NAN_WORD <= t) && !(INFINITY_WORD <= t);
    ParseNumberExtends(s, rest);
  }

  lemma NumberNotInfinity(s: Text, rest: Text)
    requires s != [] && NumberLength(s).0 == |s|
    ensures !(MINUS_INFINITY_WORD <= s + rest)
  {
    assert (s + rest)[0] == s[0];
    if s[0] == MINUS {
      assert |s| > 1 && IsDigit(s[1..][0]);
      assert (s + rest)[1] == s[1];
    }
  }

  lemma ParsePrintNumber(st: Style, v: Json, rest: Text)
    requires Printable(v) && (v.Int? || v.Float?) && Delimited(rest)
    ensures ParseValue(Print(st, v) + rest) == Ok(v, rest)
  {
    var s := Print(st, v);
    if v.Int? {
      NumberLengthOfInt(v.n);
      DigitsShape(if v.n < 0 then -v.n else v.n);
      assert v.n >= 0 ==> s[0] in s;
    } else {
      assert s[0] in s;
      FloatShape(s);
    }
    NumberNotInfinity(s, rest);
    ParseScalarOfNumber(s, rest);
  }

  lemma FloatShape(l: Text)
    requires IsFloat(l)
    ensures l != [] && NumberLength(l) == (|l|, false) && (IsDigit(l[0]) || l[0] == MINUS)
  {
    assert l[NumberLength(l).0..] == [];
    assert l[0..] == l;
  }

  lemma ParsePrintWord(word: Text, rest: Text)
    requires word == NULL_WORD || word == TRUE_WORD || word == FALSE_WORD
    ensures ParseValue(word + rest)
         == Ok(if word == NULL_WORD then Null else Bool(word == TRUE_WORD), rest)
  {
    var s := word + rest;
    assert word <= s && s[|word|..] == rest && s[0] == word[0];
    assert NULL_WORD <= s ==> NULL_WORD[0] == s[0];
    assert TRUE_WORD <= s ==> TRUE_WORD[0] == s[0];
  }

  lemma ParseArrayStep(s: Text, items: seq<Json>, rest: Text)
    requires StartsValue(s) && ParseItems(s) == Ok(items, rest)
    ensures ParseValue([LBRACKET] + s) == Ok(Arr(items), rest)
  {
    assert ([LBRACKET] + s)[1..] == s;
    SkipNone(s);
  }

  lemma ParseItemsLast(s: Text, v: Json, rest: Text)
    requires ParseValue(s) == Ok(v, [RBRACKET] + rest)
    ensures ParseItems(s) == Ok([v], rest)
  {
    assert ([RBRACKET] + rest)[1..] == rest;
  }

  lemma AfterComma(st: Style, next: Text)
    requires GoodStyle(st) && StartsValue(next)
    ensures var t := [COMMA] + st.gap + next; SkipWs(t) == t && t[0] == COMMA && SkipWs(t[1..]) == next
  {
    assert ([COMMA] + st.gap + next)[1..] == st.gap + next;
    SkipGap(st, next);
  }

  lemma ParseItemsMore(st: Style, s: Text, v: Json, next: Text, vs: seq<Json>, rest: Text)
    requires GoodStyle(st) && StartsValue(next)
    requires ParseValue(s) == Ok(v, [COMMA] + st.gap + next) && ParseItems(next) == Ok(vs, rest)
    ensures ParseItems(s) == Ok([v] + vs, rest)
  {
    AfterComma(st, next);
  }

  lemma ParseObjectStep(s: Text, ms: seq<Member>, rest: Text)
    requires StartsValue(s) && ParseMembers(s) == Ok(ms, rest) && UniqueKeys(ms)
    ensures ParseValue([LBRACE] + s) == Ok(Obj(ms), rest)
  {
    assert ([LBRACE] + s)[1..] == s;
    SkipNone(s);
    DictOfUnique(ms);
  }

  lemma ParseMembersLast(s: Text, k: Text, r: Text, v: Json, rest: Text)
    requires ParseKey(s) == Ok(k, r) && ParseValue(r) == Ok(v, [RBRACE] + rest)
    ensures ParseMembers(s) == Ok([Member(k, v)], rest)
  {
    assert ([RBRACE] + rest)[1..] == rest;
  }

  lemma ParseMembersMore(st: Style, s: Text, k: Text, r: Text, v: Json, next: Text, ms: seq<Member>, rest: Text)
    requires GoodStyle(st) && StartsValue(next) && ParseKey(s) == Ok(k, r)
    requires ParseValue(r) == Ok(v, [COMMA] + st.gap + next) && ParseMembers(next) == Ok(ms, rest)
    ensures ParseMembers(s) == Ok([Member(k, v)] + ms, rest)
  {
    AfterComma(st, next);
  }

  lemma ParsePrintEmpty(st: Style, v: Json, rest: Text)
    requires v == Arr([]) || v == Obj([])
    ensures ParseValue(Print(st, v) + rest) == Ok(v, rest)
  {
    var s := Print(st, v) + rest;
    assert s[1..] == [Print(st, v)[1]] + rest && s[1..][1..] == rest;
    SkipNone(s[1..]);
  }

  /** What stands after the first item (or member) of a printed list. */
  ghost function AfterItem(st: Style, items: seq<Json>, rest: Text): Text
    requires items != []
  {
    if |items| == 1 then [RBRACKET] + rest else [COMMA] + st.gap + (PrintItems(st, items[1..]) + rest)
  }

  ghost function AfterMember(st: Style, ms: seq<Member>, rest: Text): Text
    requires ms != []
  {
    if |ms| == 1 then [RBRACE] + rest else [COMMA] + st.gap + (PrintMembers(st, ms[1..]) + rest)
  }

  lemma ItemsShape(st: Style, items: seq<Json>, rest: Text)
    requires items != []
    ensures PrintItems(st, items) + rest == Print(st, items[0]) + AfterItem(st, items, rest)
  {
  }

  ghost function NextMembers(st: Style, ms: seq<Member>): Text
    requires ms != []
  {
    if |ms| == 1 then [RBRACE] else [COMMA] + st.gap + PrintMembers(st, ms[1..])
  }

  lemma MembersUnfold(st: Style, ms: seq<Member>)
    requires ms != []
    ensures PrintMembers(st, ms)
         == PrintString(st.ascii, ms[0].key) + [COLON] + st.gap + Print(st, ms[0].value) + NextMembers(st, ms)
    ensures StartsValue(PrintMembers(st, ms))
  {
    hide Print, PrintString;
    StringStarts(st.ascii, ms[0].key);
  }

  lemma AfterUnfold(st: Style, ms: seq<Member>, rest: Text)
    requires ms != []
    ensures NextMembers(st, ms) + rest == AfterMember(st, ms, rest)
  {
    hide PrintMembers;
  }

  lemma Regroup(a: Text, b: Text, c: Text, d: Text)
    ensures a + b + c + d == a + (b + (c + d))
  {
  }

  lemma StringStarts(ascii: bool, s: Text)
    ensures PrintString(ascii, s) != [] && PrintString(ascii, s)[0] == QUOTE
  {
  }

  lemma StartsAfter(a: Text, rest: Text)
    requires StartsValue(a)
    ensures StartsValue(a + rest)
  {
  }

  lemma MembersShape(st: Style, ms: seq<Member>, rest: Text)
    requires ms != []
    ensures PrintMembers(st, ms) + rest
         == PrintString(st.ascii, ms[0].key) + [COLON] + st.gap + (Print(st, ms[0].value) + AfterMember(st, ms, rest))
    ensures StartsValue(PrintMembers(st, ms) + rest)
  {
    hide Print, PrintString, PrintMembers, NextMembers, AfterMember, StartsValue;
    MembersUnfold(st, ms);
    AfterUnfold(st, ms, rest);
    Regroup(PrintString(st.ascii, ms[0].key) + [COLON] + st.gap, Print(st, ms[0].value), NextMembers(st, ms), rest);
    StartsAfter(PrintMembers(st, ms), rest);
  }

  /** `json.loads` undoes `json.dumps`: any printable value, in any style, before
      anything that cannot extend a number. */
  lemma {:induction false} ParsePrint(st: Style, v: Json, rest: Text)
    requires GoodStyle(st) && Printable(v) && Delimited(rest)
    ensures ParseValue(Print(st, v) + rest) == Ok(v, rest)
    decreases v, 0
  {
    hide ParseValue, ParseItems, ParseMembers, PrintItems, PrintMembers, PrintInt, PrintChars;
    match v
    case Null => ParsePrintWord(NULL_WORD, rest);
    case Bool(b) => ParsePrintWord(if b then TRUE_WORD else FALSE_WORD, rest);
    case Int(_) => ParsePrintNumber(st, v, rest);
    case Float(_) => ParsePrintNumber(st, v, rest);
    case Str(s) => ParsePrintStr(st, s, rest);
    case Arr(items) =>
      if items == [] {
        ParsePrintEmpty(st, v, rest);
      } else {
        ParsePrintItems(st, items, rest);
        ParseArrayStep(PrintItems(st, items) + rest, items, rest);
        assert Print(st, v) + rest == [LBRACKET] + (PrintItems(st, items) + rest);
      }
    case Obj(ms) =>
      if ms == [] {
        ParsePrintEmpty(st, v, rest);
      } else {
        ParsePrintMembers(st, ms, rest);
        ParseObjectStep(PrintMembers(st, ms) + rest, ms, rest);
        assert Print(st, v) + rest == [LBRACE] + (PrintMembers(st, ms) + rest);
      }
  }

  lemma ParsePrintStr(st: Style, s: Text, rest: Text)
    requires AllScalar(s)
    ensures ParseValue(Print(st, Str(s)) + rest) == Ok(Str(s), rest)
  {
    hide PrintChars, ParseChars;
    ParseCharsOfPrint(st.ascii, s, rest);
    assert (Print(st, Str(s)) + rest)[1..] == PrintChars(st.ascii, s) + rest;
  }

  lemma {:induction false} ParsePrintItems(st: Style, items: seq<Json>, rest: Text)
    requires GoodStyle(st) && items != [] && forall i | 0 <= i < |items| :: Printable(items[i])
    ensures ParseItems(PrintItems(st, items) + rest) == Ok(items, rest)
    ensures StartsValue(PrintItems(st, items) + rest)
    decreases items
  {
    hide ParseValue, ParseItems, ParseMembers;
    var v := items[0];
    var s := Print(st, v) + AfterItem(st, items, rest);
    ItemsShape(st, items, rest);
    PrintStarts(st, v);
    StartsAfter(Print(st, v), AfterItem(st, items, rest));
    ParsePrint(st, v, AfterItem(st, items, rest));
    if |items| == 1 {
      assert items == [v];
      ParseItemsLast(s, v, rest);
    } else {
      ParsePrintItems(st, items[1..], rest);
      assert items == [v] + items[1..];
      ParseItemsMore(st, s, v, PrintItems(st, items[1..]) + rest, items[1..], rest);
    }
  }

  lemma {:induction false} ParsePrintMembers(st: Style, ms: seq<Member>, rest: Text)
    requires GoodStyle(st) && ms != []
    requires forall i | 0 <= i < |ms| :: AllScalar(ms[i].key) && Printable(ms[i].value)
    ensures ParseMembers(PrintMembers(st, ms) + rest) == Ok(ms, rest)
    ensures StartsValue(PrintMembers(st, ms) + rest)
    decreases ms
  {
    hide ParseValue, ParseItems, ParseMembers;
    var m := ms[0];
    var value := Print(st, m.value) + AfterMember(st, ms, rest);
    var s := PrintString(st.ascii, m.key) + [COLON] + st.gap + value;
    MembersShape(st, ms, rest);
    PrintStarts(st, m.value);
    StartsAfter(Print(st, m.value), AfterMember(st, ms, rest));
    ParseKeyOfPrint(st, m.key, value);
    ParsePrint(st, m.value, AfterMember(st, ms, rest));
    if |ms| == 1 {
      assert ms == [Member(m.key, m.value)];
      ParseMembersLast(s, m.key, value, m.value, rest);
    } else {
      ParsePrintMembers(st, ms[1..], rest);
      assert ms == [Member(m.key, m.value)] + ms[1..];
      ParseMembersMore(st, s, m.key, value, m.value, PrintMembers(st, ms[1..]) + rest, ms[1..], rest);
    }
  }

  lemma {:induction false} PutNew(ms: seq<Member>, m: Member)
    requires forall i | 0 <= i < |ms| :: ms[i].key != m.key
    ensures Put(ms, m) == ms + [m]
  {
    if ms != [] {
      PutNew(ms[1..], m);
    }
  }

  lemma {:induction false} DictOfUnique(ms: seq<Member>)
    requires UniqueKeys(ms)
    ensures DictOf(ms) == ms
  {
    if ms != [] {
      DictOfUnique(ms[..|ms| - 1]);
      PutNew(ms[..|ms| - 1], ms[|ms| - 1]);
    }
  }

  lemma LookupCons(m: Member, ms: seq<Member>, key: Text, default: Json)
    ensures Lookup([m] + ms, key, default) == if m.key == key then m.value else Lookup(ms, key, default)
  {
    var all := [m] + ms;
    assert all[1..] == ms;
    assert IndexOf(all, key) == if m.key == key then 0 else 1 + IndexOf(ms, key);
  }

  lemma {:induction false} LookupPut(ms: seq<Member>, m: Member, key: Text, default: Json)
    ensures Lookup(Put(ms, m), key, default) == if key == m.key then m.value else Lookup(ms, key, default)
  {
    hide Lookup;
    if ms == [] {
      assert [m] + [] == [m];
      LookupCons(m, [], key, default);
    } else {
      assert ms == [ms[0]] + ms[1..];
      LookupPut(ms[1..], m, key, default);
      LookupCons(ms[0], ms[1..], key, default);
      LookupCons(m, ms[1..], key, default);
      LookupCons(ms[0], Put(ms[1..], m), key, default);
    }
  }

  /** Of members with the same key a dict keeps the last. */
  lemma LastMemberWins(ms: seq<Member>, m: Member, key: Text, default: Json)
    ensures Lookup(DictOf(ms + [m]), key, default)
         == if key == m.key then m.value else Lookup(DictOf(ms), key, default)
  {
    assert (ms + [m])[..|ms|] == ms;
    LookupPut(DictOf(ms), m, key, default);
  }

  lemma LoadsPrint(st: Style, v: Json)
    requires GoodStyle(st) && Printable(v)
    ensures Loads(Print(st, v)) == Some(v)
  {
    PrintStarts(st, v);
    ParsePrint(st, v, []);
    assert Print(st, v) + [] == Print(st, v);
  }

  /** Different values print differently. */
  lemma PrintInjective(st: Style, v: Json, w: Json)
    requires GoodStyle(st) && Printable(v) && Printable(w) && Print(st, v) == Print(st, w)
    ensures v == w
  {
    LoadsPrint(st, v);
    LoadsPrint(st, w);
  }
}
