/** The JSONL transcript: one JSON object per line, appended by writers that may
    crash in the middle of a line, replayed by a reader that skips what it
    cannot parse (src/agent/transcript.py). */
module Transcript {
  import opened Unicode
  import opened Json
  import opened JsonProofs
  import opened Balance

  /******* Serialization *******/

  /** A message as `_serialize_message` sorts them: a dict or dataclass that
      `json.dumps` takes, an object of another kind (or a dataclass that `asdict`
      rejects), and one that `json.dumps` raises on. */
  datatype Message =
    | Shaped(members: seq<Member>)
    | Opaque(repr: Text)
    | Undumpable(repr: Text, error: Text)

  function Payload(m: Message): Json {
    match m
    case Shaped(ms) => Obj(ms)
    case Opaque(repr) => Obj([Member(Ascii("_unserializable"), Str(repr))])
    case Undumpable(repr, error) =>
      Obj([Member(Ascii("_unserializable"), Str(repr)), Member(Ascii("_error"), Str(error))])
  }

  function StyleOf(m: Message): Style {
    if m.Undumpable? then DEFAULT_STYLE else TRANSCRIPT_STYLE
  }

  function Serialize(m: Message): Text {
    Print(StyleOf(m), Payload(m))
  }

  /** No lone surrogate, no NaN, string keys: a message whose line comes back. */
  predicate Recordable(m: Message) {
    Printable(Payload(m))
  }

  function LineBytes(m: Message): Bytes {
    Encode(Serialize(m) + [LF])
  }

  lemma {:induction false} EscapedIsClean(ascii: bool, s: Text)
    requires AllScalar(s)
    ensures forall c <- PrintChars(ascii, s) :: c >= 0x20 && IsScalar(c)
  {
    if s != [] {
      EscapedIsClean(ascii, s[1..]);
      assert s[0] in s;
    }
  }

  predicate Clean(s: Text) {
    forall c <- s :: c >= 0x20 && IsScalar(c)
  }

  /** A printed value holds no control character, so no raw newline, and nothing
      that UTF-8 cannot encode. */
  lemma {:induction false} PrintIsClean(st: Style, v: Json)
    requires GoodStyle(st) && Printable(v)
    ensures Clean(Print(st, v))
    decreases v, 0
  {
    hide PrintChars;
    match v
    case Int(n) => DigitsShape(if n < 0 then -n else n);
    case Str(s) => EscapedIsClean(st.ascii, s);
    case Arr(items) =>
      if items != [] {
        ItemsAreClean(st, items);
      }
    case Obj(ms) =>
      if ms != [] {
        MembersAreClean(st, ms);
      }
    case _ =>
  }

  lemma {:induction false} ItemsAreClean(st: Style, items: seq<Json>)
    requires GoodStyle(st) && items != [] && forall i | 0 <= i < |items| :: Printable(items[i])
    ensures Clean(PrintItems(st, items))
    decreases items
  {
    hide Printable;
    PrintIsClean(st, items[0]);
    if |items| > 1 {
      ItemsAreClean(st, items[1..]);
    }
  }

  lemma {:induction false} MembersAreClean(st: Style, ms: seq<Member>)
    requires GoodStyle(st) && ms != []
    requires forall i | 0 <= i < |ms| :: AllScalar(ms[i].key) && Printable(ms[i].value)
    ensures Clean(PrintMembers(st, ms))
    decreases ms
  {
    hide Printable, PrintChars;
    EscapedIsClean(st.ascii, ms[0].key);
    PrintIsClean(st, ms[0].value);
    if |ms| > 1 {
      MembersAreClean(st, ms[1..]);
    }
  }

  predicate IsPlainAscii(s: Text) {
    forall c <- s :: 0x20 <= c < 0x7F
  }

  lemma {:induction false} EscapedIsAscii(s: Text)
    requires AllScalar(s)
    ensures IsPlainAscii(PrintChars(true, s))
  {
    hide Escape;
    if s != [] {
      EscapedIsAscii(s[1..]);
      assert s[0] in s;
      EscapeIsAscii(s[0]);
    }
  }

  lemma EscapeIsAscii(c: Code)
    requires IsScalar(c)
    ensures IsPlainAscii(Escape(true, c))
  {
  }

  /** With `ensure_ascii` a printed value is plain ASCII. */
  lemma {:induction false} PrintIsAscii(st: Style, v: Json)
    requires st.ascii && GoodStyle(st) && Printable(v)
    ensures IsPlainAscii(Print(st, v))
    decreases v, 0
  {
    hide PrintChars;
    match v
    case Int(n) => DigitsShape(if n < 0 then -n else n);
    case Str(s) => EscapedIsAscii(s);
    case Arr(items) =>
      if items != [] {
        ItemsAreAscii(st, items);
      }
    case Obj(ms) =>
      if ms != [] {
        MembersAreAscii(st, ms);
      }
    case _ =>
  }

  lemma {:induction false} ItemsAreAscii(st: Style, items: seq<Json>)
    requires st.ascii && GoodStyle(st) && items != [] && forall i | 0 <= i < |items| :: Printable(items[i])
    ensures IsPlainAscii(PrintItems(st, items))
    decreases items
  {
    hide Printable;
    PrintIsAscii(st, items[0]);
    if |items| > 1 {
      ItemsAreAscii(st, items[1..]);
    }
  }

  lemma {:induction false} MembersAreAscii(st: Style, ms: seq<Member>)
    requires st.ascii && GoodStyle(st) && ms != []
    requires forall i | 0 <= i < |ms| :: AllScalar(ms[i].key) && Printable(ms[i].value)
    ensures IsPlainAscii(PrintMembers(st, ms))
    decreases ms
  {
    hide Printable, PrintChars;
    EscapedIsAscii(ms[0].key);
    PrintIsAscii(st, ms[0].value);
    if |ms| > 1 {
      MembersAreAscii(st, ms[1..]);
    }
  }

  /** A cache key is plain ASCII; a transcript line keeps readable characters as they
      are. */
  lemma StylesShow(v: Json, c: Code)
    requires Printable(v) && c > 0x7F && IsScalar(c)
    ensures IsPlainAscii(Print(KEY_STYLE, v))
    ensures Print(TRANSCRIPT_STYLE, Str([c])) == [QUOTE, c, QUOTE]
  {
    PrintIsAscii(KEY_STYLE, v);
    assert [c][1..] == [];
    assert PrintChars(false, []) == [QUOTE];
    assert PrintChars(false, [c]) == [c] + [QUOTE];
  }

  /** What every serialized message looks like. */
  lemma SerializedShape(m: Message)
    requires Recordable(m)
    ensures IsComplete(Serialize(m)) && Clean(Serialize(m)) && Loads(Serialize(m)) == Some(Payload(m))
    ensures m.Shaped? ==> Loads(Serialize(m)) == Some(Obj(m.members))
    ensures LF !in Serialize(m) && CR !in Serialize(m) && AllScalar(Serialize(m) + [LF])
  {
    hide Print, Printable, Loads, IsComplete;
    PrintIsComplete(StyleOf(m), Payload(m));
    PrintIsClean(StyleOf(m), Payload(m));
    LoadsPrint(StyleOf(m), Payload(m));
  }

  /******* Reading *******/

  function FirstLF(bs: Bytes): (n: nat)
    ensures n <= |bs| && LF !in bs[..n]
    ensures n < |bs| ==> bs[n] == LF
  {
    if bs == [] || bs[0] == LF then 0
    else
      var n := 1 + FirstLF(bs[1..]);
      assert bs[..n] == [bs[0]] + bs[1..][..n - 1];
      n
  }

  /** Iterating over a binary file: each line keeps its newline. */
  function SplitLines(bs: Bytes): seq<Bytes> {
    if bs == [] then []
    else
      var n := FirstLF(bs);
      if n == |bs| then [bs] else [bs[..n + 1]] + SplitLines(bs[n + 1..])
  }

  /** `rstrip("\r\n")` */
  function RStrip(s: Text): Text {
    if s != [] && (s[|s| - 1] == LF || s[|s| - 1] == CR) then RStrip(s[..|s| - 1]) else s
  }

  datatype Line = Blank | Entry(value: Json) | Unparseable

  function ReadLine(raw: Bytes): Line {
    var line := RStrip(Decode(raw));
    if line == [] then Blank
    else
      match Loads(line)
      case None => Unparseable
      case Some(v) => Entry(v)
  }

  function Entries(lines: seq<Bytes>): seq<Json> {
    if lines == [] then []
    else
      var rest := Entries(lines[1..]);
      match ReadLine(lines[0])
      case Entry(v) => [v] + rest
      case _ => rest
  }

  /** What `read_all` yields from a file with these bytes. */
  function ReadBytes(bs: Bytes): seq<Json> {
    Entries(SplitLines(bs))
  }

  lemma {:induction false} FirstLFAt(line: Bytes, rest: Bytes)
    requires LF !in line
    ensures FirstLF(line + [LF] + rest) == |line|
  {
    var bs := line + [LF] + rest;
    if line != [] {
      assert bs[1..] == line[1..] + [LF] + rest;
      FirstLFAt(line[1..], rest);
    }
  }

  /** A terminated line is read on its own, whatever follows it. */
  lemma ReadFirstLine(line: Bytes, rest: Bytes)
    requires LF !in line
    ensures ReadBytes(line + [LF] + rest)
         == match ReadLine(line + [LF]) case Entry(v) => [v] + ReadBytes(rest) case _ => ReadBytes(rest)
  {
    hide ReadLine;
    var bs := line + [LF] + rest;
    FirstLFAt(line, rest);
    assert bs[..|line| + 1] == line + [LF] && bs[|line| + 1..] == rest;
    assert SplitLines(bs)[1..] == SplitLines(rest);
  }

  lemma ReadLastLine(line: Bytes)
    requires line != [] && LF !in line
    ensures ReadBytes(line) == match ReadLine(line) case Entry(v) => [v] case _ => []
  {
    hide ReadLine;
    assert FirstLF(line) == |line|;
    assert SplitLines(line) == [line];
    assert [line][1..] == [] && Entries([]) == [];
  }

  lemma RStripNone(s: Text)
    requires s != [] ==> s[|s| - 1] != LF && s[|s| - 1] != CR
    ensures RStrip(s) == s && RStrip(s + [LF]) == s
  {
    assert (s + [LF])[..|s|] == s;
  }

  /** A line holding printable text reads as that text parses. */
  lemma ReadDecoded(raw: Bytes, s: Text)
    requires Decode(raw) == s || Decode(raw) == s + [LF]
    requires s != [] && s[|s| - 1] != LF && s[|s| - 1] != CR
    ensures ReadLine(raw) == match Loads(s) case None => Unparseable case Some(v) => Entry(v)
  {
    hide Loads, Decode;
    RStripNone(s);
  }

  /** Blank lines are skipped without a warning. */
  lemma BlankLines()
    ensures ReadLine([LF]) == Blank && ReadLine([CR, LF]) == Blank
  {
    assert Decode([]) == [];
    assert [LF][1..] == [] && [CR, LF][1..] == [LF];
    assert Decode([LF]) == [LF] + [];
    assert Decode([CR, LF]) == [CR] + [LF];
    assert [LF][..0] == [] && ([CR] + [LF])[..1] == [CR] && [CR][..0] == [];
    assert RStrip([CR]) == [];
  }

  lemma DecodeOf(s: Text)
    requires AllScalar(s)
    ensures Decode(Encode(s)) == s
  {
    DecodeEncode(s, []);
    assert Encode(s) + [] == Encode(s) && s + [] == s;
  }

  lemma LineShape(m: Message)
    requires Recordable(m)
    ensures LineBytes(m) == Encode(Serialize(m)) + [LF]
    ensures LF !in Encode(Serialize(m)) && Encode(Serialize(m)) != [] && Encode(Serialize(m))[0] == LBRACE
  {
    var s := Serialize(m);
    hide Serialize;
    SerializedShape(m) by {
      hide IsComplete;
    }
    EncodeConcat(s, [LF]);
    EncodeNoLineFeed(s);
    assert Encode([LF]) == [LF] by {
      assert [LF][1..] == [];
      assert Encode([]) == [];
    }
  }

  /** A whole line gives its message back, with or without its newline. */
  lemma ReadWholeLine(m: Message)
    requires Recordable(m)
    ensures ReadLine(LineBytes(m)) == Entry(Payload(m))
    ensures ReadLine(Encode(Serialize(m))) == Entry(Payload(m))
  {
    hide Serialize, ReadLine, Loads, Scan;
    SerializedShape(m);
    var s := Serialize(m);
    assert AllScalar(s) by {
      assert s == (s + [LF])[..|s|];
    }
    DecodeOf(s);
    DecodeOf(s + [LF]);
    ReadDecoded(LineBytes(m), s);
    ReadDecoded(Encode(s), s);
  }
}
