/** A scanner that only counts brackets and watches quotes.  Every text the JSON
    parser accepts as an object leaves it closed; no torn line glued to a whole
    one does. */
module Balance {
  import opened Unicode
  import opened Json
  import opened JsonProofs

  datatype Scanner =
    | Out(depth: nat)   // outside strings
    | In(depth: nat)    // inside a string
    | Esc(depth: nat)   // inside a string, after a backslash
    | Closed            // the first value has ended: only whitespace may follow
    | Bad

  function Close(depth: nat): Scanner {
    if depth == 0 then Bad else if depth == 1 then Closed else Out(depth - 1)
  }

  function Next(q: Scanner, c: Code): Scanner {
    match q
    case Out(d) =>
      if c == LBRACE || c == LBRACKET then Out(d + 1)
      else if c == RBRACE || c == RBRACKET then Close(d)
      else if c == QUOTE then In(d)
      else if c == BACKSLASH then Bad
      else Out(d)
    case In(d) =>
      if c == QUOTE then Out(d) else if c == BACKSLASH then Esc(d) else In(d)
    case Esc(d) => In(d)
    case Closed => if IsWhitespace(c) then Closed else Bad
    case Bad => Bad
  }

  function Scan(q: Scanner, s: Text): Scanner
    decreases |s|
  {
    if s == [] then q else Scan(Next(q, s[0]), s[1..])
  }

  lemma {:induction false} ScanConcat(q: Scanner, s: Text, t: Text)
    ensures Scan(q, s + t) == Scan(Scan(q, s), t)
    decreases |s|
  {
    if s == [] {
      assert s + t == t;
    } else {
      assert (s + t)[0] == s[0] && (s + t)[1..] == s[1..] + t;
      ScanConcat(Next(q, s[0]), s[1..], t);
    }
  }

  /******* Accepted texts are balanced *******/

  lemma {:induction false} ScanSkipWs(d: nat, s: Text)
    ensures Scan(Out(d), s) == Scan(Out(d), SkipWs(s))
  {
    if s != [] && IsWhitespace(s[0]) {
      ScanSkipWs(d, s[1..]);
    }
  }

  /** Neither a bracket, nor a quote, nor a backslash. */
  predicate Plain(c: Code) {
    c !in {LBRACE, RBRACE, LBRACKET, RBRACKET, QUOTE, BACKSLASH}
  }

  lemma {:induction false} ScanPlain(q: Scanner, s: Text, n: nat)
    requires n <= |s| && (forall i | 0 <= i < n :: Plain(s[i])) && (q.Out? || q.In?)
    ensures Scan(q, s) == Scan(q, s[n..])
    decreases n
  {
    if n != 0 {
      assert s[1..][n - 1..] == s[n..];
      assert Plain(s[0]) && Next(q, s[0]) == q;
      ScanPlain(q, s[1..], n - 1);
    } else {
      assert s[0..] == s;
    }
  }

  lemma ScanHex4(d: nat, s: Text)
    requires ParseHex4(s).Ok?
    ensures Scan(In(d), s) == Scan(In(d), s[4..])
  {
    ScanPlain(In(d), s, 4);
  }

  lemma ScanEscape(d: nat, s: Text)
    requires |s| >= 2 && s[0] == BACKSLASH
    ensures Scan(In(d), s) == Scan(In(d), s[2..])
  {
    assert s[1..][1..] == s[2..];
    assert Scan(In(d), s) == Scan(Esc(d), s[1..]);
  }

  lemma ScanChar(d: nat, s: Text)
    requires s != [] && s[0] != QUOTE && ParseChar(s).Ok?
    ensures Scan(In(d), s) == Scan(In(d), ParseChar(s).rest)
  {
    if s[0] == BACKSLASH {
      ScanEscape(d, s);
      if s[1] == LOWER_U {
        var r := ParseHex4(s[2..]).rest;
        ScanHex4(d, s[2..]);
        if |r| >= 2 && r[0] == BACKSLASH && r[1] == LOWER_U && ParseHex4(r[2..]).Ok? {
          ScanEscape(d, r);
          ScanHex4(d, r[2..]);
        }
      }
    }
  }

  lemma {:induction false} ScanChars(d: nat, s: Text)
    requires ParseChars(s).Ok?
    ensures Scan(In(d), s) == Scan(Out(d), ParseChars(s).rest)
    decreases |s|
  {
    hide ParseChar;
    if s[0] != QUOTE {
      ScanChar(d, s);
      ScanChars(d, ParseChar(s).rest);
    }
  }

  lemma {:induction false} DigitRunPlain(s: Text)
    ensures forall c <- s[..DigitRun(s)] :: IsDigit(c)
  {
    if s != [] && IsDigit(s[0]) {
      DigitRunPlain(s[1..]);
      assert s[..DigitRun(s)] == [s[0]] + s[1..][..DigitRun(s[1..])];
    }
  }

  lemma IntPlain(s: Text)
    ensures forall c <- s[..IntLength(s)] :: NumberChar(c)
  {
    DigitRunPlain(s);
  }

  lemma FractionPlain(s: Text)
    ensures forall c <- s[..FractionLength(s)] :: NumberChar(c)
  {
    if FractionLength(s) > 0 {
      DigitRunPlain(s[1..]);
      assert s[..FractionLength(s)] == [s[0]] + s[1..][..DigitRun(s[1..])];
    }
  }

  lemma ExponentPlain(s: Text)
    ensures forall c <- s[..ExponentLength(s)] :: NumberChar(c)
  {
    if ExponentLength(s) > 0 {
      var k := 1 + SignLength(s[1..]);
      DigitRunPlain(s[k..]);
      assert s[..ExponentLength(s)] == s[..k] + s[k..][..DigitRun(s[k..])];
      assert k == 2 ==> s[1] == s[1..][0];
    }
  }

  lemma NumberPlain(s: Text)
    ensures forall c <- s[..NumberLength(s).0] :: NumberChar(c)
  {
    hide IntLength, FractionLength, ExponentLength;
    var sign := if s != [] && s[0] == MINUS then 1 else 0;
    var i := IntLength(s[sign..]);
    var f := FractionLength(s[sign + i..]);
    var e := ExponentLength(s[sign + i + f..]);
    IntPlain(s[sign..]);
    FractionPlain(s[sign + i..]);
    ExponentPlain(s[sign + i + f..]);
    if i != 0 {
      assert s[..NumberLength(s).0]
          == s[..sign] + s[sign..][..i] + s[sign + i..][..f] + s[sign + i + f..][..e];
    }
  }

  lemma ScanWord(d: nat, s: Text, word: Text)
    requires word <= s
    requires word in {NULL_WORD, TRUE_WORD, FALSE_WORD, NAN_WORD, INFINITY_WORD, MINUS_INFINITY_WORD}
    ensures Scan(Out(d), s) == Scan(Out(d), s[|word|..])
  {
    assert forall i | 0 <= i < |word| :: s[i] == word[i] && Plain(word[i]);
    ScanPlain(Out(d), s, |word|);
  }

  lemma ScanNumber(d: nat, s: Text)
    ensures Scan(Out(d), s) == Scan(Out(d), s[NumberLength(s).0..])
  {
    hide NumberLength;
    NumberPlain(s);
    var n := NumberLength(s).0;
    forall i | 0 <= i < n
      ensures Plain(s[i])
    {
      assert s[i] in s[..n];
    }
    ScanPlain(Out(d), s, n);
  }

  lemma ScanScalar(d: nat, s: Text)
    requires ParseScalar(s).Ok?
    ensures Scan(Out(d), s) == Scan(Out(d), ParseScalar(s).rest)
  {
    hide Scan, NumberLength;
    if NULL_WORD <= s {
      ScanWord(d, s, NULL_WORD);
    } else if TRUE_WORD <= s {
      ScanWord(d, s, TRUE_WORD);
    } else if FALSE_WORD <= s {
      ScanWord(d, s, FALSE_WORD);
    } else if NAN_WORD <= s {
      ScanWord(d, s, NAN_WORD);
    } else if INFINITY_WORD <= s {
      ScanWord(d, s, INFINITY_WORD);
    } else if MINUS_INFINITY_WORD <= s {
      ScanWord(d, s, MINUS_INFINITY_WORD);
    } else {
      ScanNumber(d, s);
    }
  }

  lemma ScanKey(d: nat, s: Text)
    requires ParseKey(s).Ok?
    ensures Scan(Out(d), s) == Scan(Out(d), ParseKey(s).rest)
  {
    hide ParseChars, SkipWs;
    ScanChars(d, s[1..]);
    var r := ParseChars(s[1..]).rest;
    ScanSkipWs(d, r);
    ScanSkipWs(d, SkipWs(r)[1..]);
  }

  lemma {:induction false} ScanValue(d: nat, s: Text)
    requires d > 0 && ParseValue(s).Ok?
    ensures Scan(Out(d), s) == Scan(Out(d), ParseValue(s).rest)
    decreases |s|, 1
  {
    hide ParseChars, ParseScalar, ParseItems, ParseMembers, SkipWs;
    if s[0] == QUOTE {
      ScanChars(d, s[1..]);
    } else if s[0] == LBRACE || s[0] == LBRACKET {
      ScanContainer(d, s);
    } else {
      ScanScalar(d, s);
    }
  }

  lemma {:induction false} ScanContainer(d: nat, s: Text)
    requires s != [] && (s[0] == LBRACE || s[0] == LBRACKET) && ParseValue(s).Ok?
    ensures Scan(Out(d), s) == Scan(Close(d + 1), ParseValue(s).rest)
    decreases |s|, 0
  {
    hide ParseChars, ParseScalar, ParseItems, ParseMembers, SkipWs;
    var t := SkipWs(s[1..]);
    ScanSkipWs(d + 1, s[1..]);
    if s[0] == LBRACE && !(t != [] && t[0] == RBRACE) {
      ScanMembers(d + 1, t);
    } else if s[0] == LBRACKET && !(t != [] && t[0] == RBRACKET) {
      ScanItems(d + 1, t);
    }
  }

  lemma {:induction false} ScanItems(d: nat, s: Text)
    requires d > 0 && ParseItems(s).Ok?
    ensures Scan(Out(d), s) == Scan(Close(d), ParseItems(s).rest)
    decreases |s|, 2
  {
    hide ParseValue, SkipWs;
    ScanValue(d, s);
    var r := ParseValue(s).rest;
    var t := SkipWs(r);
    ScanSkipWs(d, r);
    if t[0] == COMMA {
      ScanSkipWs(d, t[1..]);
      ScanItems(d, SkipWs(t[1..]));
    }
  }

  lemma {:induction false} ScanMembers(d: nat, s: Text)
    requires d > 0 && ParseMembers(s).Ok?
    ensures Scan(Out(d), s) == Scan(Close(d), ParseMembers(s).rest)
    decreases |s|, 2
  {
    hide ParseKey, ParseValue, SkipWs;
    ScanKey(d, s);
    var v := ParseKey(s).rest;
    ScanValue(d, v);
    var r := ParseValue(v).rest;
    var t := SkipWs(r);
    ScanSkipWs(d, r);
    if t[0] == COMMA {
      ScanSkipWs(d, t[1..]);
      ScanMembers(d, SkipWs(t[1..]));
    }
  }

  lemma {:induction false} ScanClosed(s: Text)
    requires SkipWs(s) == []
    ensures Scan(Closed, s) == Closed
  {
    if s != [] {
      ScanClosed(s[1..]);
    }
  }

  /** An accepted text that opens with a brace ends with every bracket closed and
      every string finished. */
  lemma AcceptedIsClosed(s: Text)
    requires s != [] && s[0] == LBRACE && Loads(s).Some?
    ensures Scan(Out(0), s) == Closed
  {
    hide ParseValue;
    SkipNone(s);
    ScanContainer(0, s);
    ScanClosed(ParseValue(s).rest);
  }

  /******* Torn texts *******/

  /** The shape of a whole printed object. */
  predicate IsComplete(s: Text) {
    && s != [] && s[0] == LBRACE && s[|s| - 1] == RBRACE
    && Scan(Out(0), s) == Closed
  }

  /** Some bracket is still open. */
  predicate Open(q: Scanner) {
    (q.Out? || q.In? || q.Esc?) && q.depth > 0
  }

  lemma {:induction false} LastOfMembers(st: Style, ms: seq<Member>)
    requires ms != []
    ensures var s := PrintMembers(st, ms); s != [] && s[|s| - 1] == RBRACE
  {
    if |ms| > 1 {
      LastOfMembers(st, ms[1..]);
    }
  }

  lemma PrintIsComplete(st: Style, v: Json)
    requires GoodStyle(st) && Printable(v) && v.Obj?
    ensures IsComplete(Print(st, v))
  {
    hide Loads, PrintMembers, Scan;
    PrintStarts(st, v);
    LoadsPrint(st, v);
    AcceptedIsClosed(Print(st, v));
    if v.members != [] {
      LastOfMembers(st, v.members);
    }
  }

  lemma {:induction false} ScanBad(s: Text)
    ensures Scan(Bad, s) == Bad
  {
    if s != [] {
      ScanBad(s[1..]);
    }
  }

  lemma ScanAfterClosed(s: Text)
    requires s != [] && !IsWhitespace(s[0])
    ensures Scan(Closed, s) == Bad
  {
    ScanBad(s[1..]);
  }

  lemma {:induction false} ScanClosedEnding(s: Text)
    requires s != [] && !IsWhitespace(s[|s| - 1])
    ensures Scan(Closed, s) == Bad
  {
    if IsWhitespace(s[0]) {
      assert s[1..][|s| - 2] == s[|s| - 1];
      ScanClosedEnding(s[1..]);
    } else {
      ScanAfterClosed(s);
    }
  }

  lemma {:induction false} ScanFromOpen(q: Scanner, s: Text)
    requires Open(q) || q == Closed || q == Bad
    ensures Open(Scan(q, s)) || Scan(q, s) == Closed || Scan(q, s) == Bad
    decreases |s|
  {
    if s != [] {
      ScanFromOpen(Next(q, s[0]), s[1..]);
    }
  }

  /** A proper prefix of a whole object leaves a bracket open. */
  lemma PrefixIsOpen(s: Text, k: nat)
    requires IsComplete(s) && 0 < k < |s|
    ensures Open(Scan(Out(0), s[..k]))
  {
    var q := Scan(Out(0), s[..k]);
    assert s[..k] == [s[0]] + s[1..k];
    ScanFromOpen(Out(1), s[1..k]);
    ScanConcat(Out(0), s[..k], s[k..]);
    assert s[..k] + s[k..] == s;
    ScanBad(s[k..]);
    ScanClosedEnding(s[k..]);
  }

  /** A text read from inside a string, in step with the same text read from
      outside one: quotes swap the two, and a backslash is legal in one only. */
  predicate Flipped(r: Scanner, f: Scanner) {
    f.Bad? || (f.In? && (r.Out? || r.Closed?)) || (r.In? && (f.Out? || f.Closed?))
  }

  lemma {:induction false} ScanFlipped(r: Scanner, f: Scanner, s: Text)
    requires Flipped(r, f) && Scan(r, s) != Bad
    ensures Flipped(Scan(r, s), Scan(f, s))
    decreases |s|
  {
    if s != [] {
      ScanBad(s[1..]);
      ScanFlipped(Next(r, s[0]), Next(f, s[0]), s[1..]);
    }
  }

  /** The same text read `d` brackets deeper. */
  function Deeper(r: Scanner, d: nat): Scanner
    requires d > 0
  {
    match r
    case Out(k) => Out(k + d)
    case In(k) => In(k + d)
    case Esc(k) => Esc(k + d)
    case Closed => Out(d)
    case Bad => Bad
  }

  lemma {:induction false} ScanDeeper(r: Scanner, d: nat, s: Text)
    requires d > 0 && Scan(r, s) == Closed
    requires r == Closed ==> s == []
    requires s != [] ==> !IsWhitespace(s[|s| - 1])
    ensures Scan(Deeper(r, d), s) == Out(d)
    decreases |s|
  {
    if s != [] {
      var tail := s[1..];
      ScanBad(tail);
      if tail != [] {
        assert tail[|tail| - 1] == s[|s| - 1];
        ScanClosedEnding(tail);
      }
      ScanDeeper(Next(r, s[0]), d, tail);
    }
  }

  /** A whole object after an open tail never closes the text. */
  lemma ScanAfterOpen(q: Scanner, s: Text)
    requires Open(q) && IsComplete(s)
    ensures Scan(q, s) != Closed
  {
    match q
    case Out(d) => ScanDeeper(Out(0), d, s);
    case In(d) => ScanFlipped(Out(0), q, s);
    case Esc(d) => ScanFlipped(Out(1), In(d), s[1..]);
    case _ =>
  }

  lemma OpenIsRejected(x: Text)
    requires x != [] && x[0] == LBRACE && Open(Scan(Out(0), x))
    ensures Loads(x) == None
  {
    hide Loads, Scan;
    if Loads(x).Some? {
      AcceptedIsClosed(x);
    }
  }

  /** The glued line: a torn tail, or a whole line that lost only its newline,
      with a whole object after it. */
  lemma GluedIsRejected(x: Text, s: Text)
    requires x != [] && x[0] == LBRACE && IsComplete(s)
    requires Open(Scan(Out(0), x)) || Scan(Out(0), x) == Closed
    ensures Loads(x + s) == None
  {
    hide Loads;
    ScanConcat(Out(0), x, s);
    if Scan(Out(0), x) == Closed {
      ScanAfterClosed(s);
    } else {
      ScanAfterOpen(Scan(Out(0), x), s);
    }
    if Loads(x + s).Some? {
      AcceptedIsClosed(x + s);
    }
  }
}
