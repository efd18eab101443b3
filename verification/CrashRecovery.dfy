/** What the reader recovers from a transcript whose writers crashed: appends cut
    short at any byte, and the lines glued onto what they left. */
module CrashRecovery {
  import opened Unicode
  import opened Json
  import opened Balance
  import opened Transcript

  /******* Torn lines *******/

  /** A cut through an encoding falls between two characters or inside one, which
      then decodes to a replacement character; decoding is back in step after it. */
  lemma {:induction false} TornDecode(s: Text, k: nat, rest: Bytes) returns (j: nat, torn: bool)
    requires AllScalar(s) && k < |Encode(s)|
    requires rest != [] ==> rest[0] < 0x80
    ensures j < |s| && Decode(Encode(s)[..k] + rest) == s[..j] + (if torn then [REPLACEMENT] else []) + Decode(rest)
    ensures k > 0 && s[0] < 0x80 ==> j > 0
  {
    hide EncodeCode, Decode, DecodeStep;
    var e := EncodeCode(s[0]);
    var t := Encode(s[1..]);
    if k == 0 {
      j, torn := 0, false;
      assert Encode(s)[..0] + rest == rest;
      assert s[..0] + [] + Decode(rest) == Decode(rest);
    } else if k < |e| {
      j, torn := 0, true;
      assert Encode(s)[..k] == e[..k];
      DecodeTornFirst(s[0], k, rest);
      assert s[..0] + [REPLACEMENT] + Decode(rest) == [REPLACEMENT] + Decode(rest);
    } else {
      j, torn := TornDecode(s[1..], k - |e|, rest);
      assert Encode(s)[..k] + rest == e + (t[..k - |e|] + rest);
      DecodeEncodedFirst(s[0], t[..k - |e|] + rest);
      j := j + 1;
      assert s[..j] == [s[0]] + s[1..][..j - 1];
    }
  }

  lemma DecodeTornFirst(c: Code, k: nat, rest: Bytes)
    requires IsScalar(c) && 0 < k < |EncodeCode(c)|
    requires rest != [] ==> rest[0] < 0x80
    ensures c >= 0x80 && Decode(EncodeCode(c)[..k] + rest) == [REPLACEMENT] + Decode(rest)
  {
    hide DecodeStep;
    var bs := EncodeCode(c)[..k] + rest;
    DecodeStepOfTorn(c, k, rest);
    DecodeFirst(bs, REPLACEMENT, k);
    assert bs[k..] == rest;
  }

  /** The tail a crash left: non-empty, and short of its newline. */
  predicate IsTail(m: Message, k: nat) {
    0 < k < |LineBytes(m)|
  }

  function Tail(m: Message, k: nat): Bytes
    requires IsTail(m, k)
  {
    LineBytes(m)[..k]
  }

  /** The text of a torn tail, before anything ASCII. */
  lemma TailText(m: Message, k: nat, rest: Bytes) returns (x: Text)
    requires Recordable(m) && IsTail(m, k)
    requires rest != [] ==> rest[0] < 0x80
    ensures Decode(Tail(m, k) + rest) == x + Decode(rest)
    ensures x != [] && x[0] == LBRACE && x[|x| - 1] != LF && x[|x| - 1] != CR
    ensures k + 1 < |LineBytes(m)| ==> Open(Scan(Out(0), x))
    ensures k + 1 == |LineBytes(m)| ==> x == Serialize(m) && Scan(Out(0), x) == Closed
    ensures LF !in Tail(m, k)
  {
    hide Serialize, Decode, Scan;
    var s := Serialize(m);
    LineShape(m);
    SerializedShape(m);
    assert AllScalar(s) by {
      assert s == (s + [LF])[..|s|];
    }
    assert Tail(m, k) == Encode(s)[..k];
    if k == |Encode(s)| {
      x := s;
      assert Encode(s)[..k] == Encode(s);
      DecodeEncode(s, rest);
    } else {
      var j, torn := TornDecode(s, k, rest);
      x := s[..j] + if torn then [REPLACEMENT] else [];
      PrefixIsOpen(s, j);
      if torn {
        TornCharacter(Out(0), s[..j]);
      } else {
        assert x == s[..j];
        assert x[|x| - 1] in s;
      }
      assert x[0] == s[0];
    }
  }

  lemma TornCharacter(q: Scanner, s: Text)
    requires Open(Scan(q, s))
    ensures Open(Scan(q, s + [REPLACEMENT]))
  {
    ScanConcat(q, s, [REPLACEMENT]);
    assert [REPLACEMENT][1..] == [];
  }

  /** A torn tail alone reads as nothing, unless only its newline is missing. */
  lemma ReadTail(m: Message, k: nat)
    requires Recordable(m) && IsTail(m, k)
    ensures ReadBytes(Tail(m, k)) == if k + 1 == |LineBytes(m)| then [Payload(m)] else []
  {
    hide ReadBytes, Scan, Loads, Decode, Serialize, LineBytes;
    var x := TailText(m, k, []);
    assert Tail(m, k) + [] == Tail(m, k);
    assert Decode(Tail(m, k)) == x by {
      DecodeOf([]);
      assert Encode([]) == [] && x + [] == x;
    }
    ReadLastLine(Tail(m, k));
    ReadDecoded(Tail(m, k), x);
    if k + 1 == |LineBytes(m)| {
      SerializedShape(m);
    } else {
      OpenIsRejected(x);
    }
  }

  /** A whole line appended after a torn tail is lost with it, and no line that
      nobody wrote appears. */
  lemma ReadGluedLine(m: Message, k: nat, next: Message)
    requires Recordable(m) && IsTail(m, k) && Recordable(next)
    ensures ReadLine(Tail(m, k) + LineBytes(next)) == Unparseable
  {
    hide ReadLine, Scan, Loads, Decode, Serialize, Tail;
    var s := Serialize(next);
    LineShape(next);
    SerializedShape(next);
    var x := TailText(m, k, LineBytes(next));
    DecodeOf(s + [LF]);
    assert x + (s + [LF]) == x + s + [LF];
    ReadDecoded(Tail(m, k) + LineBytes(next), x + s);
    GluedIsRejected(x, s);
  }

  /******* Crash recovery *******/

  /** One call to `append`: it wrote the whole line, or a crash (or a failed
      write) left the first `k` bytes. */
  datatype Append = Whole(m: Message) | Torn(m: Message, k: nat)

  predicate GoodAppend(a: Append) {
    Recordable(a.m) && (a.Torn? ==> a.k < |LineBytes(a.m)|)
  }

  function Written(a: Append): Bytes
    requires GoodAppend(a)
  {
    if a.Whole? then LineBytes(a.m) else LineBytes(a.m)[..a.k]
  }

  predicate GoodHistory(h: seq<Append>) {
    forall i | 0 <= i < |h| :: GoodAppend(h[i])
  }

  function FileOf(h: seq<Append>): Bytes
    requires GoodHistory(h)
  {
    if h == [] then [] else Written(h[0]) + FileOf(h[1..])
  }

  lemma {:induction false} FileGrows(h: seq<Append>, a: Append)
    requires GoodHistory(h) && GoodAppend(a)
    ensures GoodHistory(h + [a]) && FileOf(h + [a]) == FileOf(h) + Written(a)
  {
    hide GoodAppend, Written;
    if h == [] {
      assert (h + [a])[1..] == [];
      assert [] + Written(a) == Written(a) + [];
    } else {
      assert (h + [a])[1..] == h[1..] + [a];
      FileGrows(h[1..], a);
    }
  }

  /** A torn tail is followed by a whole line before the next non-empty torn
      tail; `pending` says that one is still waiting. */
  predicate Separated(h: seq<Append>, pending: bool) {
    if h == [] then true
    else if h[0].Whole? then Separated(h[1..], false)
    else if h[0].k == 0 then Separated(h[1..], pending)
    else !pending && Separated(h[1..], true)
  }

  /** What should come back: every whole append that did not land on a torn tail,
      and a last line that lost only its newline.  `tail` is the torn append the
      file currently ends with. */
  function Survivors(h: seq<Append>, tail: Option<Append>): seq<Json> {
    if h == [] then
      if tail.Some? && tail.value.Torn? && tail.value.k + 1 == |LineBytes(tail.value.m)| then [Payload(tail.value.m)]
      else []
    else if h[0].Whole? then
      (if tail.None? then [Payload(h[0].m)] else []) + Survivors(h[1..], None)
    else if h[0].k == 0 then Survivors(h[1..], tail)
    else Survivors(h[1..], Some(h[0]))
  }

  predicate GoodTail(tail: Option<Append>) {
    tail.Some? ==> tail.value.Torn? && GoodAppend(tail.value) && tail.value.k > 0
  }

  function TailBytes(tail: Option<Append>): Bytes
    requires GoodTail(tail)
  {
    if tail.Some? then Written(tail.value) else []
  }

  lemma {:induction false} RecoverFrom(h: seq<Append>, tail: Option<Append>)
    requires GoodHistory(h) && GoodTail(tail) && Separated(h, tail.Some?)
    ensures ReadBytes(TailBytes(tail) + FileOf(h)) == Survivors(h, tail)
    decreases |h|
  {
    hide ReadBytes, LineBytes, Recordable, Payload;
    if h == [] {
      assert TailBytes(tail) + [] == TailBytes(tail);
      if tail.Some? {
        ReadTail(tail.value.m, tail.value.k);
      } else {
        ReadNothing();
      }
    } else if h[0].Whole? {
      var rest := FileOf(h[1..]);
      var line := TailBytes(tail) + LineBytes(h[0].m);
      assert TailBytes(tail) + FileOf(h) == line + rest;
      WholeLineOnTail(tail, h[0].m, rest);
      RecoverFrom(h[1..], None);
      assert [] + rest == rest;
    } else if h[0].k == 0 {
      assert FileOf(h) == FileOf(h[1..]);
      RecoverFrom(h[1..], tail);
    } else {
      RecoverFrom(h[1..], Some(h[0]));
      assert [] + FileOf(h) == Written(h[0]) + FileOf(h[1..]);
    }
  }

  lemma ReadNothing()
    ensures ReadBytes([]) == []
  {
  }

  lemma WholeLineOnTail(tail: Option<Append>, m: Message, rest: Bytes)
    requires GoodTail(tail) && Recordable(m)
    ensures ReadBytes(TailBytes(tail) + LineBytes(m) + rest)
         == (if tail.None? then [Payload(m)] else []) + ReadBytes(rest)
  {
    hide ReadBytes, ReadLine, Payload, Recordable, Serialize;
    var body := TailBytes(tail) + Encode(Serialize(m));
    LineShape(m);
    assert TailBytes(tail) + LineBytes(m) == body + [LF];
    if tail.Some? {
      ReadGluedLine(tail.value.m, tail.value.k, m);
      var _ := TailText(tail.value.m, tail.value.k, []);
    } else {
      ReadWholeLine(m);
      assert body + [LF] == LineBytes(m);
    }
    ReadFirstLine(body, rest);
    assert [] + ReadBytes(rest) == ReadBytes(rest);
  }

  /** Crash recovery: whatever bytes the crashes left, `read_all` yields exactly
      the surviving appends, in order, and nothing that nobody wrote. */
  lemma ReadsSurvivors(h: seq<Append>)
    requires GoodHistory(h) && Separated(h, false)
    ensures ReadBytes(FileOf(h)) == Survivors(h, None)
  {
    RecoverFrom(h, None);
    assert [] + FileOf(h) == FileOf(h);
  }

  /******* What the survivors amount to *******/

  function WholeCount(h: seq<Append>): nat {
    if h == [] then 0 else (if h[0].Whole? then 1 else 0) + WholeCount(h[1..])
  }

  function TornCount(h: seq<Append>): nat {
    if h == [] then 0 else (if h[0].Torn? && h[0].k > 0 then 1 else 0) + TornCount(h[1..])
  }

  function Payloads(h: seq<Append>): seq<Json> {
    if h == [] then [] else [Payload(h[0].m)] + Payloads(h[1..])
  }

  predicate IsSubsequence(a: seq<Json>, b: seq<Json>) {
    a == [] || (b != [] && ((a[0] == b[0] && IsSubsequence(a[1..], b[1..])) || IsSubsequence(a, b[1..])))
  }

  /** Each crash costs at most one completed message. */
  lemma {:induction false} LossBound(h: seq<Append>, tail: Option<Append>)
    ensures |Survivors(h, tail)| + TornCount(h) + (if tail.Some? then 1 else 0) >= WholeCount(h)
    decreases |h|
  {
    if h != [] {
      LossBound(h[1..], if h[0].Whole? then None else if h[0].k == 0 then tail else Some(h[0]));
    }
  }

  lemma {:induction false} SubsequenceWidens(a: seq<Json>, u: seq<Json>, x: Json, v: seq<Json>)
    requires IsSubsequence(a, u + v)
    ensures IsSubsequence(a, u + [x] + v)
    decreases u
  {
    if u == [] {
      assert u + v == v && (u + [x] + v)[1..] == v;
    } else {
      assert (u + v)[1..] == u[1..] + v && (u + [x] + v)[1..] == u[1..] + [x] + v;
      if a != [] {
        if IsSubsequence(a, u[1..] + v) {
          SubsequenceWidens(a, u[1..], x, v);
        } else {
          SubsequenceWidens(a[1..], u[1..], x, v);
        }
      }
    }
  }

  function PendingPayload(tail: Option<Append>): seq<Json> {
    if tail.Some? then [Payload(tail.value.m)] else []
  }

  lemma SubsequenceSkips(a: seq<Json>, x: Json, b: seq<Json>)
    requires IsSubsequence(a, b)
    ensures IsSubsequence(a, [x] + b)
  {
    assert ([x] + b)[1..] == b;
  }

  lemma SubsequenceTakes(a: seq<Json>, x: Json, b: seq<Json>)
    requires IsSubsequence(a, b)
    ensures IsSubsequence([x] + a, [x] + b)
  {
    assert ([x] + a)[1..] == a && ([x] + b)[1..] == b;
  }

  /** Nothing comes back that was not appended, and nothing out of order. */
  lemma {:induction false} SurvivorsInOrder(h: seq<Append>, tail: Option<Append>)
    ensures IsSubsequence(Survivors(h, tail), PendingPayload(tail) + Payloads(h))
    decreases |h|
  {
    hide Payload, LineBytes, IsSubsequence;
    if h == [] {
      assert PendingPayload(tail) + [] == PendingPayload(tail);
      SurvivingTail(tail);
    } else {
      var p, ps := Payload(h[0].m), Payloads(h[1..]);
      if h[0].Torn? && h[0].k == 0 {
        SurvivorsInOrder(h[1..], tail);
        SubsequenceWidens(Survivors(h[1..], tail), PendingPayload(tail), p, ps);
        assert PendingPayload(tail) + Payloads(h) == PendingPayload(tail) + [p] + ps;
      } else {
        var next := if h[0].Whole? then None else Some(h[0]);
        var kept := Survivors(h[1..], next);
        SurvivorsInOrder(h[1..], next);
        assert PendingPayload(None) + ps == ps && [] + kept == kept;
        if h[0].Torn? {
          WithPending(kept, tail, [p] + ps);
        } else if tail.None? {
          SubsequenceTakes(kept, p, ps);
          WithPending([p] + kept, tail, [p] + ps);
        } else {
          SubsequenceSkips(kept, p, ps);
          WithPending(kept, tail, [p] + ps);
        }
      }
    }
  }

  lemma WithPending(a: seq<Json>, tail: Option<Append>, b: seq<Json>)
    requires IsSubsequence(a, b)
    ensures IsSubsequence(a, PendingPayload(tail) + b)
  {
    hide IsSubsequence;
    if tail.Some? {
      SubsequenceSkips(a, Payload(tail.value.m), b);
    } else {
      assert PendingPayload(tail) + b == b;
    }
  }

  lemma SurvivingTail(tail: Option<Append>)
    ensures IsSubsequence(Survivors([], tail), PendingPayload(tail))
  {
  }

  function AllWhole(ms: seq<Message>): seq<Append> {
    seq(|ms|, i requires 0 <= i < |ms| => Whole(ms[i]))
  }

  lemma {:induction false} WholeSurvive(ms: seq<Message>)
    requires forall i | 0 <= i < |ms| :: Recordable(ms[i])
    ensures var h := AllWhole(ms);
      GoodHistory(h) && Separated(h, false) && |Survivors(h, None)| == |ms|
      && forall i | 0 <= i < |ms| :: Survivors(h, None)[i] == Payload(ms[i])
  {
    hide Recordable, Payload;
    if ms != [] {
      WholeSurvive(ms[1..]);
      assert AllWhole(ms)[1..] == AllWhole(ms[1..]);
    }
  }

  /** Write, then read: the same objects, in the same order. */
  lemma RoundTrip(ms: seq<Message>)
    requires forall i | 0 <= i < |ms| :: Recordable(ms[i])
    ensures var h := AllWhole(ms);
      GoodHistory(h) && ReadBytes(FileOf(h)) == seq(|ms|, i requires 0 <= i < |ms| => Payload(ms[i]))
  {
    WholeSurvive(ms);
    ReadsSurvivors(AllWhole(ms));
  }

  function Dicts(ds: seq<seq<Member>>): (ms: seq<Message>)
    ensures |ms| == |ds| && forall i | 0 <= i < |ms| :: ms[i] == Shaped(ds[i])
  {
    seq(|ds|, i requires 0 <= i < |ds| => Shaped(ds[i]))
  }

  /** Dicts come back with all their members, in their order. */
  lemma DictsRoundTrip(ds: seq<seq<Member>>)
    requires forall i | 0 <= i < |ds| :: Printable(Obj(ds[i]))
    ensures var h := AllWhole(Dicts(ds));
      GoodHistory(h) && ReadBytes(FileOf(h)) == seq(|ds|, i requires 0 <= i < |ds| => Obj(ds[i]))
  {
    hide Printable, ReadBytes, FileOf;
    RoundTrip(Dicts(ds));
  }

  /** What stands in for a message that is not a dict, or that cannot be dumped: its
      `repr`, with the error when there was one. */
  lemma StandIns(m: Message)
    requires Recordable(m)
    ensures match Loads(Serialize(m))
      case None => false
      case Some(v) =>
        match m
        case Shaped(ms) => v == Obj(ms)
        case Opaque(repr) => v == Obj([Member(Ascii("_unserializable"), Str(repr))])
        case Undumpable(repr, error) =>
          v == Obj([Member(Ascii("_unserializable"), Str(repr)), Member(Ascii("_error"), Str(error))])
  {
    hide Loads, Serialize, Recordable;
    SerializedShape(m);
  }

  /******* Two torn tails in a row *******/

  predicate IsAscii(s: Text) {
    forall i | 0 <= i < |s| :: s[i] < 0x80
  }

  lemma {:induction false} EncodeAscii(s: Text)
    requires IsAscii(s)
    ensures Encode(s) == s
  {
    if s != [] {
      EncodeAscii(s[1..]);
    }
  }

  // {"a":"xy"}, {"}":1} and {"a":"x{"}
  const FIRST_TEAR := Shaped([Member([0x61], Str([0x78, 0x79]))])
  const SECOND_TEAR := Shaped([Member([RBRACE], Int(1))])
  const GLUED_RECORD := Shaped([Member([0x61], Str([0x78, LBRACE]))])

  predicate Unescaped(c: Code) {
    0x20 <= c < 0x7F && c != QUOTE && c != BACKSLASH
  }

  lemma {:induction false} PrintUnescaped(s: Text)
    requires forall i | 0 <= i < |s| :: Unescaped(s[i])
    ensures PrintChars(false, s) == s + [QUOTE]
  {
    if s != [] {
      PrintUnescaped(s[1..]);
      assert Unescaped(s[0]);
    }
  }

  lemma PrintSmallMember(k: Code, v: Json)
    requires Unescaped(k)
    ensures PrintMembers(TRANSCRIPT_STYLE, [Member([k], v)])
         == [QUOTE, k, QUOTE, COLON] + Print(TRANSCRIPT_STYLE, v) + [RBRACE]
  {
    hide PrintChars, Print;
    PrintUnescaped([k]);
    assert PrintString(false, [k]) == [QUOTE, k, QUOTE];
  }

  lemma PrintSmallObject(k: Code, v: Json)
    requires Unescaped(k)
    ensures Serialize(Shaped([Member([k], v)]))
         == [LBRACE, QUOTE, k, QUOTE, COLON] + Print(TRANSCRIPT_STYLE, v) + [RBRACE]
  {
    hide PrintMembers;
    PrintSmallMember(k, v);
  }

  lemma TearTexts()
    ensures Serialize(FIRST_TEAR) == [LBRACE, QUOTE, 0x61, QUOTE, COLON, QUOTE, 0x78, 0x79, QUOTE, RBRACE]
    ensures Serialize(SECOND_TEAR) == [LBRACE, QUOTE, RBRACE, QUOTE, COLON, 0x31, RBRACE]
    ensures Serialize(GLUED_RECORD) == [LBRACE, QUOTE, 0x61, QUOTE, COLON, QUOTE, 0x78, LBRACE, QUOTE, RBRACE]
  {
    hide PrintChars, Serialize;
    PrintSmallObject(0x61, Str([0x78, 0x79]));
    PrintUnescaped([0x78, 0x79]);
    PrintSmallObject(RBRACE, Int(1));
    assert Digits(1) == [0x31];
    PrintSmallObject(0x61, Str([0x78, LBRACE]));
    PrintUnescaped([0x78, LBRACE]);
  }

  lemma TearsAreRecordable()
    ensures Recordable(FIRST_TEAR) && Recordable(SECOND_TEAR) && Recordable(GLUED_RECORD)
  {
    assert Printable(Str([0x78, 0x79])) && Printable(Int(1)) && Printable(Str([0x78, LBRACE]));
  }

  lemma TornBytes(m: Message, k: nat)
    requires IsAscii(Serialize(m)) && k <= |Serialize(m)|
    ensures k < |LineBytes(m)| && LineBytes(m)[..k] == Serialize(m)[..k]
  {
    hide Serialize;
    EncodeAscii(Serialize(m) + [LF]);
  }

  /** The file that the two tears leave is the text of an object nobody wrote. */
  lemma TearsLeave()
    ensures var h := [Torn(FIRST_TEAR, 7), Torn(SECOND_TEAR, 3)];
      GoodHistory(h) && FileOf(h) == Serialize(GLUED_RECORD) && IsAscii(FileOf(h))
  {
    hide Serialize, LineBytes, Recordable;
    TearTexts();
    TearsAreRecordable();
    TornBytes(FIRST_TEAR, 7);
    TornBytes(SECOND_TEAR, 3);
    var h := [Torn(FIRST_TEAR, 7), Torn(SECOND_TEAR, 3)];
    assert h[1..] == [h[1]] && h[1..][1..] == [];
    assert FileOf(h[1..]) == Written(h[1]) + [];
    assert FileOf(h) == Serialize(GLUED_RECORD);
  }

  /** Separation is needed: two torn tails in a row can glue into an object that
      nobody wrote. */
  lemma AdjacentTearsGlue()
    ensures var h := [Torn(FIRST_TEAR, 7), Torn(SECOND_TEAR, 3)];
      && GoodHistory(h) && !Separated(h, false)
      && ReadBytes(FileOf(h)) == [Payload(GLUED_RECORD)]
      && Payload(GLUED_RECORD) !in Payloads(h)
  {
    hide Serialize, ReadBytes, LineBytes, Recordable, ReadLine, FileOf, IsAscii;
    var h := [Torn(FIRST_TEAR, 7), Torn(SECOND_TEAR, 3)];
    var text := Serialize(GLUED_RECORD);
    TearsLeave();
    TearsAreRecordable();
    EncodeAscii(text);
    assert text != [] && LF !in Encode(text) by {
      LineShape(GLUED_RECORD);
    }
    ReadWholeLine(GLUED_RECORD);
    ReadLastLine(text);
    assert h[1..] == [h[1]] && h[1..][1..] == [];
    assert Payloads(h[1..]) == [Payload(SECOND_TEAR)] + [];
    assert Payloads(h) == [Payload(FIRST_TEAR), Payload(SECOND_TEAR)];
  }
}
