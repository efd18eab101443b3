/** Token counts of texts and content blocks, memoised (src/token_estimation.py). */
module TokenEstimation {
  import opened Unicode
  import opened Json
  import opened JsonProofs
  import opened TokenCache

  /******* count_tokens *******/

  // The tokenizer is a deterministic function that may raise on some texts.
  type Encoder = Option<Text -> Option<nat>>

  function TokensOf(encoder: Encoder, t: Text): nat {
    var fallback := if |t| / 4 > 1 then |t| / 4 else 1;
    if t == [] then 0
    else
      match encoder
      case None => fallback
      case Some(encode) =>
        match encode(t)
        case None => fallback
        case Some(n) => n
  }

  predicate CountsAreRight(encoder: Encoder, es: seq<Slot<Text>>) {
    forall e <- es :: e.value == TokensOf(encoder, e.key)
  }

  function AfterCount(max: nat, encoder: Encoder, es: seq<Slot<Text>>, t: Text): seq<Slot<Text>> {
    if t == [] then es
    else if Find(es, t).Some? then AfterGet(es, t)
    else AfterPut(max, es, t, TokensOf(encoder, t))
  }

  method CountTokens(cache: TokenCountCache<Text>, encoder: Encoder, t: Text) returns (n: nat)
    requires CountsAreRight(encoder, cache.entries)
    modifies cache
    ensures n == TokensOf(encoder, t) && CountsAreRight(encoder, cache.entries)
    ensures t == [] ==> n == 0
    ensures t != [] && encoder.Some? && encoder.value(t).Some? ==> n == encoder.value(t).value
    ensures t != [] && (encoder.None? || encoder.value(t).None?) ==> n == if |t| < 8 then 1 else |t| / 4
    ensures cache.entries == AfterCount(cache.maxSize, encoder, old(cache.entries), t)
    ensures cache.hits == old(cache.hits) + if t != [] && Find(old(cache.entries), t).Some? then 1 else 0
  {
    if t == [] {
      return 0;
    }
    ghost var es := cache.entries;
    var cached := cache.Get(t);
    if cached.Some? {
      StillRight(cache.maxSize, encoder, es, t);
      return cached.value;
    }
    n := if |t| / 4 > 1 then |t| / 4 else 1;
    if encoder.Some? {
      var encoded := encoder.value(t);
      if encoded.Some? {
        n := encoded.value;
      }
    }
    cache.Put(t, n);
    StillRight(cache.maxSize, encoder, es, t);
  }

  lemma StillRight(max: nat, encoder: Encoder, es: seq<Slot<Text>>, t: Text)
    requires CountsAreRight(encoder, es)
    ensures CountsAreRight(encoder, AfterGet(es, t))
    ensures CountsAreRight(encoder, AfterPut(max, es, t, TokensOf(encoder, t)))
  {
    hide AfterGet, AfterPut, TokensOf;
    forall e: Slot<Text>
      ensures e in AfterGet(es, t) ==> e.value == TokensOf(encoder, e.key)
      ensures e in AfterPut(max, es, t, TokensOf(encoder, t)) ==> e.value == TokensOf(encoder, e.key)
    {
      EntriesAfter(max, es, t, TokensOf(encoder, t), e);
    }
  }

  /** The cache after a sequence of texts, from empty. */
  function AfterTexts(max: nat, encoder: Encoder, ts: seq<Text>): seq<Slot<Text>> {
    if ts == [] then []
    else AfterCount(max, encoder, AfterTexts(max, encoder, ts[..|ts| - 1]), ts[|ts| - 1])
  }

  function NonEmpty(ts: seq<Text>): seq<Text> {
    if ts == [] then []
    else NonEmpty(ts[..|ts| - 1]) + if ts[|ts| - 1] == [] then [] else [ts[|ts| - 1]]
  }

  lemma {:induction false} TextsExact(max: nat, encoder: Encoder, ts: seq<Text>)
    ensures KeysOf(AfterTexts(max, encoder, ts)) == LastOf(Recency(NonEmpty(ts)), max)
  {
    hide AfterGet, AfterPut, Find, Drop, TokensOf;
    if ts != [] {
      var before, t := ts[..|ts| - 1], ts[|ts| - 1];
      var es, touched := AfterTexts(max, encoder, before), NonEmpty(before);
      TextsExact(max, encoder, before);
      if t == [] {
        assert touched + [] == touched;
      } else {
        FindIsMember(es, t);
        RecencyUnique(touched);
        TouchWindow(Recency(touched), max, t);
        TouchedStep(touched, t);
        assert |es| == |KeysOf(es)|;
        KeysAfterGet(es, t);
        KeysAfterPut(max, es, t, TokensOf(encoder, t));
      }
    }
  }

  /** Inclusion: after the same texts, what a smaller cache hits a larger one hits. */
  lemma LargerCacheHits(small: nat, large: nat, encoder: Encoder, ts: seq<Text>, t: Text)
    requires small <= large && Find(AfterTexts(small, encoder, ts), t).Some?
    ensures Find(AfterTexts(large, encoder, ts), t).Some?
  {
    hide AfterTexts, Recency, Find;
    TextsExact(small, encoder, ts);
    TextsExact(large, encoder, ts);
    FindIsMember(AfterTexts(small, encoder, ts), t);
    FindIsMember(AfterTexts(large, encoder, ts), t);
    var r := Recency(NonEmpty(ts));
    var i :| 0 <= i < |LastOf(r, small)| && LastOf(r, small)[i] == t;
    assert LastOf(r, large)[|LastOf(r, large)| - |LastOf(r, small)| + i] == t;
  }

  /******* The uncached block estimator *******/

  /** Python's `round`, on n / 4: half to even. */
  function Rough(n: nat): nat {
    if n % 4 < 2 then n / 4
    else if n % 4 > 2 then n / 4 + 1
    else n / 4 + n / 4 % 2
  }

  // What Python's `str` makes of a value that is not a string.
  type Renderer = Json -> Text

  function AsText(render: Renderer, v: Json): Text {
    if v.Str? then v.s else render(v)
  }

  const EMPTY := Str([])

  /** `block.get("type", "")`; a value that is not a dict has no type. */
  function TypeOf(v: Json): Json {
    if v.Obj? then Lookup(v.members, Ascii("type"), EMPTY) else EMPTY
  }

  function FieldOf(v: Json, key: Text, default: Json): Json {
    if v.Obj? then Lookup(v.members, key, default) else default
  }

  predicate IsToolResult(render: Renderer, v: Json) {
    v.Obj? && AsText(render, TypeOf(v)) == Ascii("tool_result")
  }

  /** The text that a block with no nested content is estimated by. */
  function LeafText(render: Renderer, v: Json): Text {
    var t := AsText(render, TypeOf(v));
    if v.Str? then v.s
    else if t == Ascii("text") then AsText(render, FieldOf(v, Ascii("text"), EMPTY))
    else if t == Ascii("tool_use") then
      AsText(render, FieldOf(v, Ascii("name"), EMPTY)) + Print(KEY_STYLE, FieldOf(v, Ascii("input"), Obj([])))
    else if t == Ascii("thinking") then AsText(render, FieldOf(v, Ascii("thinking"), EMPTY))
    else if t == Ascii("redacted_thinking") then AsText(render, FieldOf(v, Ascii("data"), EMPTY))
    else Print(KEY_STYLE, v)
  }

  predicate IsPicture(render: Renderer, v: Json) {
    var t := AsText(render, TypeOf(v));
    !v.Str? && (t == Ascii("image") || t == Ascii("document"))
  }

  function Plus(a: Option<nat>, b: Option<nat>): Option<nat> {
    if a.Some? && b.Some? then Some(a.value + b.value) else None
  }

  function KeyTokens(ms: seq<Member>): nat {
    if ms == [] then 0 else Rough(|ms[0].key|) + KeyTokens(ms[1..])
  }

  /** The estimate of a block; `None` when the content of a tool result cannot be
      iterated over (TypeError). */
  function BlockTokens(render: Renderer, v: Json): Option<nat>
    decreases v, 1
  {
    if IsPicture(render, v) then Some(2000)
    else if IsToolResult(render, v) then
      var i := IndexOf(v.members, Ascii("content"));
      if i < |v.members| then ContentTokens(render, v.members[i].value) else Some(Rough(0))
    else Some(Rough(|LeafText(render, v)|))
  }

  /** A string, a list of blocks, nothing, or a dict, which iterates over its keys. */
  function ContentTokens(render: Renderer, v: Json): Option<nat>
    decreases v, 3
  {
    match v
    case Null => Some(0)
    case Str(s) => Some(Rough(|s|))
    case Arr(items) => ItemTokens(render, items)
    case Obj(ms) => Some(KeyTokens(ms))
    case _ => None
  }

  function ItemTokens(render: Renderer, items: seq<Json>): Option<nat>
    decreases items, 2
  {
    if items == [] then Some(0)
    else Plus(BlockTokens(render, items[0]), ItemTokens(render, items[1..]))
  }

  /** Rounding to the nearest, and from halfway to the even neighbour. */
  lemma RoughIsNearest(n: nat)
    ensures -2 <= 4 * Rough(n) - n <= 2
    ensures n % 4 == 2 ==> Rough(n) % 2 == 0
  {
  }

  /******* What each block is estimated by *******/

  predicate HasType(ms: seq<Member>, t: string)
    requires forall c <- t :: c < 128 as char
  {
    Lookup(ms, Ascii("type"), EMPTY) == Str(Ascii(t))
  }

  /** The type names the estimator tells apart. */
  lemma TypeNames()
    ensures |Ascii("text")| == 4 && |Ascii("image")| == 5 && |Ascii("document")| == 8 && |Ascii("tool_result")| == 11
    ensures Ascii("document")[0] == 0x64 && Ascii("thinking")[0] == 0x74
    ensures |Ascii("tool_use")| == 8 && Ascii("tool_use")[1] == 0x6F
    ensures |Ascii("thinking")| == 8 && Ascii("thinking")[1] == 0x68 && |Ascii("redacted_thinking")| == 17
  {
  }

  lemma TextBlockTokens(render: Renderer, ms: seq<Member>, text: Text)
    requires HasType(ms, "text") && AsText(render, Lookup(ms, Ascii("text"), EMPTY)) == text
    ensures BlockTokens(render, Obj(ms)) == Some(Rough(|text|))
  {
    TypeNames();
  }

  /** A call is estimated by its name and the JSON of its input. */
  lemma ToolUseTokens(render: Renderer, ms: seq<Member>, name: Text, input: Json)
    requires HasType(ms, "tool_use") && AsText(render, Lookup(ms, Ascii("name"), EMPTY)) == name
    requires Lookup(ms, Ascii("input"), Obj([])) == input
    ensures BlockTokens(render, Obj(ms)) == Some(Rough(|name| + |Print(KEY_STYLE, input)|))
  {
    hide Print;
    TypeNames();
  }

  lemma ThinkingTokens(render: Renderer, ms: seq<Member>, thinking: Text)
    requires HasType(ms, "thinking") && AsText(render, Lookup(ms, Ascii("thinking"), EMPTY)) == thinking
    ensures BlockTokens(render, Obj(ms)) == Some(Rough(|thinking|))
  {
    TypeNames();
  }

  lemma RedactedTokens(render: Renderer, ms: seq<Member>, data: Text)
    requires HasType(ms, "redacted_thinking") && AsText(render, Lookup(ms, Ascii("data"), EMPTY)) == data
    ensures BlockTokens(render, Obj(ms)) == Some(Rough(|data|))
  {
    TypeNames();
  }

  lemma PictureTokens(render: Renderer, ms: seq<Member>)
    requires HasType(ms, "image") || HasType(ms, "document")
    ensures BlockTokens(render, Obj(ms)) == Some(2000)
  {
  }

  /** A result is estimated by its content: a string, the sum over a list, or nothing. */
  lemma ToolResultTokens(render: Renderer, ms: seq<Member>)
    requires HasType(ms, "tool_result")
    ensures match Lookup(ms, Ascii("content"), EMPTY)
      case Str(s) => BlockTokens(render, Obj(ms)) == Some(Rough(|s|))
      case Arr(items) => BlockTokens(render, Obj(ms)) == ItemTokens(render, items)
      case Null => BlockTokens(render, Obj(ms)) == Some(0)
      case _ => true
  {
    TypeNames();
  }

  /** The blocks of a list count one by one. */
  lemma {:induction false} ItemTokensAdd(render: Renderer, a: seq<Json>, b: seq<Json>)
    ensures ItemTokens(render, a + b) == Plus(ItemTokens(render, a), ItemTokens(render, b))
  {
    hide BlockTokens;
    if a == [] {
      assert a + b == b;
    } else {
      assert (a + b)[1..] == a[1..] + b;
      ItemTokensAdd(render, a[1..], b);
    }
  }

  /** Any other dict is estimated by its own JSON. */
  lemma OtherTokens(render: Renderer, ms: seq<Member>)
    requires var t := AsText(render, Lookup(ms, Ascii("type"), EMPTY));
      && t != Ascii("text") && t != Ascii("image") && t != Ascii("document") && t != Ascii("tool_result")
      && t != Ascii("tool_use") && t != Ascii("thinking") && t != Ascii("redacted_thinking")
    ensures BlockTokens(render, Obj(ms)) == Some(Rough(|Print(KEY_STYLE, Obj(ms))|))
  {
    hide Print;
  }

  /** No tool result that the estimator visits holds a boolean or a number as its
      content: iterating over one raises. */
  predicate Iterable(render: Renderer, v: Json)
    decreases v, 1
  {
    IsToolResult(render, v) && !IsPicture(render, v) ==>
      var i := IndexOf(v.members, Ascii("content"));
      i < |v.members| ==> IterableContent(render, v.members[i].value)
  }

  predicate IterableContent(render: Renderer, v: Json)
    decreases v, 3
  {
    !v.Bool? && !v.Int? && !v.Float? && (v.Arr? ==> IterableItems(render, v.items))
  }

  predicate IterableItems(render: Renderer, items: seq<Json>)
    decreases items, 2
  {
    items != [] ==> Iterable(render, items[0]) && IterableItems(render, items[1..])
  }

  /** The recursion has an estimate for exactly the blocks it can iterate over. */
  lemma {:induction false} EstimateIff(render: Renderer, v: Json)
    ensures BlockTokens(render, v).Some? <==> Iterable(render, v)
    decreases v, 1
  {
    if IsToolResult(render, v) {
      var i := IndexOf(v.members, Ascii("content"));
      if i < |v.members| {
        ContentEstimateIff(render, v.members[i].value);
      }
    }
  }

  lemma {:induction false} ContentEstimateIff(render: Renderer, v: Json)
    ensures ContentTokens(render, v).Some? <==> IterableContent(render, v)
    decreases v, 3
  {
    if v.Arr? {
      ItemEstimatesIff(render, v.items);
    }
  }

  lemma {:induction false} ItemEstimatesIff(render: Renderer, items: seq<Json>)
    ensures ItemTokens(render, items).Some? <==> IterableItems(render, items)
    decreases items, 2
  {
    hide BlockTokens, Iterable;
    if items != [] {
      EstimateIff(render, items[0]);
      ItemEstimatesIff(render, items[1..]);
    }
  }

  /******* Cache keys *******/

  // The block's type and its text: the string itself, or its JSON.
  datatype Key = Key(kind: Json, payload: Text)

  function KeyOf(v: Json): Option<Key> {
    match v
    case Str(s) => Some(Key(Str(Ascii("str")), s))
    case Obj(_) => Some(Key(TypeOf(v), Print(KEY_STYLE, v)))
    case _ => None
  }

  /** A list or a dict as `type` makes the key unhashable: looking it up raises. */
  predicate HashableType(v: Json) {
    !TypeOf(v).Arr? && !TypeOf(v).Obj?
  }

  /** No block that the estimator visits has an unhashable type. */
  predicate Hashable(render: Renderer, v: Json)
    decreases v, 1
  {
    HashableType(v) &&
    (IsToolResult(render, v) ==>
      var i := IndexOf(v.members, Ascii("content"));
      i < |v.members| ==> HashableContent(render, v.members[i].value))
  }

  predicate HashableContent(render: Renderer, v: Json)
    decreases v, 3
  {
    v.Arr? ==> HashableItems(render, v.items)
  }

  predicate HashableItems(render: Renderer, items: seq<Json>)
    decreases items, 2
  {
    items != [] ==> Hashable(render, items[0]) && HashableItems(render, items[1..])
  }

  /** Equal keys mean equal estimates, although a string and a dict of type `str`
      can share one. */
  lemma SameKeySameTokens(render: Renderer, v: Json, w: Json)
    requires Printable(v) && Printable(w) && KeyOf(v).Some? && KeyOf(v) == KeyOf(w)
    ensures BlockTokens(render, v) == BlockTokens(render, w)
    ensures Hashable(render, v) == Hashable(render, w)
  {
    hide Print, Printable;
    if v.Obj? && w.Obj? {
      PrintInjective(KEY_STYLE, v, w);
    } else if v.Obj? {
      StringTypedDict(render, v);
      PlainString(render, w);
    } else if w.Obj? {
      StringTypedDict(render, w);
      PlainString(render, v);
    }
  }

  lemma PlainString(render: Renderer, v: Json)
    requires v.Str?
    ensures BlockTokens(render, v) == Some(Rough(|v.s|)) && Hashable(render, v)
  {
  }

  lemma StringTypedDict(render: Renderer, v: Json)
    requires v.Obj? && TypeOf(v) == Str(Ascii("str"))
    ensures BlockTokens(render, v) == Some(Rough(|Print(KEY_STYLE, v)|)) && Hashable(render, v)
  {
    hide TypeOf, Print;
    assert Ascii("str")[0] == 0x73 && |Ascii("str")| == 3;
    assert Ascii("text")[1] == 0x65 && |Ascii("text")| == 4;
  }

  /******* The memoised estimator *******/

  /** Every cached count is the uncached estimate of every block with that key. */
  ghost predicate Sound(render: Renderer, es: seq<Slot<Key>>) {
    forall e <- es :: forall v: Json | Printable(v) && KeyOf(v) == Some(e.key) ::
      Hashable(render, v) && BlockTokens(render, v) == Some(e.value)
  }

  lemma SoundAfterGet(render: Renderer, max: nat, es: seq<Slot<Key>>, k: Key)
    requires Sound(render, es)
    ensures Sound(render, AfterGet(es, k))
  {
    hide AfterGet, BlockTokens, Hashable, KeyOf, Printable;
    forall e <- AfterGet(es, k)
      ensures e in es
    {
      EntriesAfter(max, es, k, 0, e);
    }
  }

  lemma SoundAfterPut(render: Renderer, max: nat, es: seq<Slot<Key>>, v: Json, n: nat)
    requires Sound(render, es) && Printable(v) && KeyOf(v).Some?
    requires Hashable(render, v) && BlockTokens(render, v) == Some(n)
    ensures Sound(render, AfterPut(max, es, KeyOf(v).value, n))
  {
    hide AfterPut, BlockTokens, Hashable, KeyOf, Printable;
    var k := KeyOf(v).value;
    forall e <- AfterPut(max, es, k, n), w: Json | Printable(w) && KeyOf(w) == Some(e.key)
      ensures Hashable(render, w) && BlockTokens(render, w) == Some(e.value)
    {
      EntriesAfter(max, es, k, n, e);
      if e == Slot(k, n) {
        SameKeySameTokens(render, v, w);
      }
    }
  }

  /** What the memoised estimator returns: the uncached estimate, unless some
      block it visits has an unhashable type, when it raises TypeError. */
  function MemoTokens(render: Renderer, v: Json): Option<nat> {
    if Hashable(render, v) then BlockTokens(render, v) else None
  }

  function MemoContent(render: Renderer, v: Json): Option<nat> {
    if HashableContent(render, v) then ContentTokens(render, v) else None
  }

  method EstimateBlock(cache: TokenCountCache<Key>, render: Renderer, v: Json) returns (r: Option<nat>)
    requires Sound(render, cache.entries) && Printable(v)
    modifies cache
    ensures Sound(render, cache.entries)
    ensures r == MemoTokens(render, v)
    ensures r.None? <==> !Hashable(render, v) || !Iterable(render, v)
    ensures r.Some? && KeyOf(v).Some? && cache.maxSize > 0 ==> Find(cache.entries, KeyOf(v).value) == r
    decreases if v.Str? then 0 else 1, v, 1
  {
    hide AfterGet, AfterPut, Iterable;
    EstimateIff(render, v);
    var key := KeyOf(v);
    if key.Some? {
      if !HashableType(v) {
        return None;
      }
      ghost var es := cache.entries;
      var cached := cache.Get(key.value);
      SoundAfterGet(render, cache.maxSize, es, key.value);
      if cached.Some? {
        StillThere(cache.maxSize, es, key.value, 0);
        assert Slot(key.value, cached.value) in es;
        return cached;
      }
    }
    r := EstimateUncached(cache, render, v);
    if key.Some? && r.Some? {
      SoundAfterPut(render, cache.maxSize, cache.entries, v, r.value);
      StillThere(cache.maxSize, cache.entries, key.value, r.value);
      cache.Put(key.value, r.value);
    }
  }

  method EstimateUncached(cache: TokenCountCache<Key>, render: Renderer, v: Json) returns (r: Option<nat>)
    requires Sound(render, cache.entries) && Printable(v) && HashableType(v)
    modifies cache
    ensures Sound(render, cache.entries)
    ensures r == MemoTokens(render, v)
    decreases if v.Str? then 0 else 1, v, 0
  {
    if IsPicture(render, v) {
      return Some(2000);
    }
    if IsToolResult(render, v) {
      var i := IndexOf(v.members, Ascii("content"));
      if i < |v.members| {
        r := EstimateContent(cache, render, v.members[i].value);
        return;
      }
      return Some(Rough(0));
    }
    return Some(Rough(|LeafText(render, v)|));
  }

  method EstimateContent(cache: TokenCountCache<Key>, render: Renderer, v: Json) returns (r: Option<nat>)
    requires Sound(render, cache.entries) && Printable(v)
    modifies cache
    ensures Sound(render, cache.entries)
    ensures r == MemoContent(render, v)
    decreases if v.Str? then 0 else 1, v, 3
  {
    match v {
      case Null => return Some(0);
      case Str(s) => return Some(Rough(|s|));
      case Arr(items) => r := EstimateItems(cache, render, items);
      case Obj(ms) => r := EstimateKeys(cache, render, ms);
      case _ => return None;
    }
  }

  method EstimateItems(cache: TokenCountCache<Key>, render: Renderer, items: seq<Json>) returns (r: Option<nat>)
    requires Sound(render, cache.entries) && forall i | 0 <= i < |items| :: Printable(items[i])
    modifies cache
    ensures Sound(render, cache.entries)
    ensures r == if HashableItems(render, items) then ItemTokens(render, items) else None
    decreases 1, items, 2
  {
    hide Hashable, BlockTokens, Printable;
    var total := 0;
    for i := 0 to |items|
      invariant Sound(render, cache.entries)
      invariant HashableItems(render, items) == HashableItems(render, items[i..])
      invariant ItemTokens(render, items) == Plus(Some(total), ItemTokens(render, items[i..]))
    {
      assert items[i..][1..] == items[i + 1..];
      var tokens := EstimateBlock(cache, render, items[i]);
      if tokens.None? {
        return None;
      }
      total := total + tokens.value;
    }
    return Some(total);
  }

  /** Iterating over a dict yields its keys, and each key is a string block. */
  method EstimateKeys(cache: TokenCountCache<Key>, render: Renderer, ms: seq<Member>) returns (r: Option<nat>)
    requires Sound(render, cache.entries) && forall i | 0 <= i < |ms| :: AllScalar(ms[i].key)
    modifies cache
    ensures Sound(render, cache.entries)
    ensures r == Some(KeyTokens(ms))
    decreases 1, ms, 2
  {
    var total := 0;
    for i := 0 to |ms|
      invariant Sound(render, cache.entries)
      invariant KeyTokens(ms) == total + KeyTokens(ms[i..])
    {
      assert ms[i..][1..] == ms[i + 1..];
      PlainString(render, Str(ms[i].key));
      var tokens := EstimateBlock(cache, render, Str(ms[i].key));
      total := total + tokens.value;
    }
    return Some(total);
  }

  /** The cache changes nothing exactly when no visited block has an unhashable
      type, or some visited content cannot be iterated over, which raises with or
      without it. */
  lemma MemoAgreesIff(render: Renderer, v: Json)
    ensures MemoTokens(render, v) == BlockTokens(render, v) <==> Hashable(render, v) || !Iterable(render, v)
  {
    EstimateIff(render, v);
  }

  /** `{"type": []}` is such a block: the uncached estimator counts its JSON. */
  lemma UnhashableTypeRaises(render: Renderer)
    requires |AsText(render, Arr([]))| == 2
    ensures var v := Obj([Member(Ascii("type"), Arr([]))]);
      Printable(v) && BlockTokens(render, v).Some? && MemoTokens(render, v) == None
  {
    var v := Obj([Member(Ascii("type"), Arr([]))]);
    assert TypeOf(v) == Arr([]);
    assert |Ascii("image")| == 5 && |Ascii("document")| == 8 && |Ascii("tool_result")| == 11;
    assert forall i | 0 <= i < |v.members| :: AllScalar(v.members[i].key) && Printable(v.members[i].value);
  }

  /******* Messages *******/

  function ContentOf(m: Json): Json {
    if !m.Obj? then Null
    else
      var inner := FieldOf(m, Ascii("message"), Null);
      FieldOf(if inner.Obj? then inner else m, Ascii("content"), Null)
  }

  /** What `_estimate_attachment_tokens` counts: a string or a list, else nothing. */
  function AttachmentContent(a: Json): Json {
    var content := FieldOf(a, Ascii("content"), EMPTY);
    if content.Str? || content.Arr? then content else Null
  }

  /** The part of a message that is counted; Null counts nothing. */
  function Counted(render: Renderer, m: Json): Json {
    var t := AsText(render, TypeOf(m));
    if t == Ascii("assistant") || t == Ascii("user") then ContentOf(m)
    else if t == Ascii("attachment") then
      var a := FieldOf(m, Ascii("attachment"), Null);
      if a.Null? then Null else AttachmentContent(a)
    else Null
  }

  /** What a turn is estimated by: the content inside its `message` dict, or its own
      when that is no dict. */
  lemma TurnTokens(render: Renderer, ms: seq<Member>)
    requires HasType(ms, "user") || HasType(ms, "assistant")
    ensures Counted(render, Obj(ms)) ==
      match Lookup(ms, Ascii("message"), Null)
      case Obj(inner) => Lookup(inner, Ascii("content"), Null)
      case _ => Lookup(ms, Ascii("content"), Null)
  {
  }

  /** An attachment is estimated by a string or a list it holds. */
  lemma AttachmentTokens(render: Renderer, ms: seq<Member>, a: seq<Member>)
    requires HasType(ms, "attachment") && Lookup(ms, Ascii("attachment"), Null) == Obj(a)
    ensures ContentTokens(render, Counted(render, Obj(ms))) ==
      match Lookup(a, Ascii("content"), EMPTY)
      case Str(s) => Some(Rough(|s|))
      case Arr(items) => ItemTokens(render, items)
      case _ => Some(0)
  {
    assert |Ascii("user")| == 4 && |Ascii("assistant")| == 9 && |Ascii("attachment")| == 10;
  }

  /** A message of any other type counts nothing. */
  lemma OtherMessageTokens(render: Renderer, ms: seq<Member>)
    requires Lookup(ms, Ascii("type"), EMPTY).Str?
    requires !HasType(ms, "user") && !HasType(ms, "assistant") && !HasType(ms, "attachment")
    ensures ContentTokens(render, Counted(render, Obj(ms))) == Some(0)
  {
  }

  function MessagesTokens(render: Renderer, ms: seq<Json>): Option<nat> {
    if ms == [] then Some(0)
    else Plus(ContentTokens(render, Counted(render, ms[0])), MessagesTokens(render, ms[1..]))
  }

  predicate HashableMessages(render: Renderer, ms: seq<Json>) {
    forall i | 0 <= i < |ms| :: HashableContent(render, Counted(render, ms[i]))
  }

  lemma FieldIsPrintable(v: Json, key: Text, default: Json)
    requires Printable(v) && Printable(default)
    ensures Printable(FieldOf(v, key, default))
  {
  }

  lemma CountedIsPrintable(render: Renderer, m: Json)
    requires Printable(m)
    ensures Printable(Counted(render, m))
  {
    hide TypeOf, FieldOf, AsText;
    assert Printable(Null) && Printable(EMPTY);
    FieldIsPrintable(m, Ascii("message"), Null);
    var inner := FieldOf(m, Ascii("message"), Null);
    FieldIsPrintable(if inner.Obj? then inner else m, Ascii("content"), Null);
    FieldIsPrintable(m, Ascii("attachment"), Null);
    FieldIsPrintable(FieldOf(m, Ascii("attachment"), Null), Ascii("content"), EMPTY);
  }

  method EstimateMessages(cache: TokenCountCache<Key>, render: Renderer, ms: seq<Json>) returns (r: Option<nat>)
    requires Sound(render, cache.entries) && forall i | 0 <= i < |ms| :: Printable(ms[i])
    modifies cache
    ensures Sound(render, cache.entries)
    ensures r == if HashableMessages(render, ms) then MessagesTokens(render, ms) else None
  {
    hide HashableContent, ContentTokens, Printable, Counted;
    var total := 0;
    for i := 0 to |ms|
      invariant Sound(render, cache.entries)
      invariant forall j | 0 <= j < i :: HashableContent(render, Counted(render, ms[j]))
      invariant MessagesTokens(render, ms) == Plus(Some(total), MessagesTokens(render, ms[i..]))
    {
      assert ms[i..][1..] == ms[i + 1..];
      CountedIsPrintable(render, ms[i]);
      var tokens := EstimateContent(cache, render, Counted(render, ms[i]));
      if tokens.None? {
        return None;
      }
      total := total + tokens.value;
    }
    return Some(total);
  }

  /******* How far the estimate is from the text *******/

  function CharsOf(render: Renderer, ms: seq<Member>, key: Text): nat {
    |AsText(render, Lookup(ms, key, EMPTY))|
  }

  /** The characters of the fields that a block without nested content shows. */
  function LeafChars(render: Renderer, v: Json): nat {
    if v.Str? then |v.s|
    else if !v.Obj? then |Print(KEY_STYLE, v)|
    else
      var t := AsText(render, Lookup(v.members, Ascii("type"), EMPTY));
      if t == Ascii("tool_use") then
        CharsOf(render, v.members, Ascii("name")) + |Print(KEY_STYLE, Lookup(v.members, Ascii("input"), Obj([])))|
      else if t == Ascii("text") then CharsOf(render, v.members, Ascii("text"))
      else if t == Ascii("thinking") then CharsOf(render, v.members, Ascii("thinking"))
      else if t == Ascii("redacted_thinking") then CharsOf(render, v.members, Ascii("data"))
      else |Print(KEY_STYLE, v)|
  }

  lemma LeafLength(render: Renderer, v: Json)
    requires !IsPicture(render, v) && !IsToolResult(render, v)
    ensures |LeafText(render, v)| == LeafChars(render, v)
  {
    hide Print;
    TypeNames();
    assert Ascii("redacted_thinking") != Ascii("text");
  }

  /** The characters, text leaves and pictures that an estimate covers. */
  datatype Tally = Tally(chars: nat, texts: nat, pictures: nat)

  function Add(a: Tally, b: Tally): Tally {
    Tally(a.chars + b.chars, a.texts + b.texts, a.pictures + b.pictures)
  }

  const NOTHING := Tally(0, 0, 0)

  function KeyTally(ms: seq<Member>): Tally {
    if ms == [] then NOTHING else Add(Tally(|ms[0].key|, 1, 0), KeyTally(ms[1..]))
  }

  function BlockTally(render: Renderer, v: Json): Tally
    decreases v, 1
  {
    if IsPicture(render, v) then Tally(0, 0, 1)
    else if IsToolResult(render, v) then
      var i := IndexOf(v.members, Ascii("content"));
      if i < |v.members| then ContentTally(render, v.members[i].value) else Tally(0, 1, 0)
    else Tally(LeafChars(render, v), 1, 0)
  }

  function ContentTally(render: Renderer, v: Json): Tally
    decreases v, 3
  {
    match v
    case Str(s) => Tally(|s|, 1, 0)
    case Arr(items) => ItemTally(render, items)
    case Obj(ms) => KeyTally(ms)
    case _ => NOTHING
  }

  function ItemTally(render: Renderer, items: seq<Json>): Tally
    decreases items, 2
  {
    if items == [] then NOTHING
    else Add(BlockTally(render, items[0]), ItemTally(render, items[1..]))
  }

  function MessagesTally(render: Renderer, ms: seq<Json>): Tally {
    if ms == [] then NOTHING
    else Add(ContentTally(render, Counted(render, ms[0])), MessagesTally(render, ms[1..]))
  }

  /** Four times the estimate is within two characters per text leaf of the text,
      each picture counting as 2000 tokens. */
  predicate Within(n: nat, t: Tally) {
    -2 * t.texts <= 4 * n - (t.chars + 8000 * t.pictures) <= 2 * t.texts
  }

  lemma {:induction false} BlockBound(render: Renderer, v: Json)
    ensures BlockTokens(render, v).Some? ==> Within(BlockTokens(render, v).value, BlockTally(render, v))
    decreases v, 1
  {
    hide LeafText, LeafChars;
    if IsPicture(render, v) {
    } else if IsToolResult(render, v) {
      var i := IndexOf(v.members, Ascii("content"));
      if i < |v.members| {
        ContentBound(render, v.members[i].value);
      }
    } else {
      LeafLength(render, v);
    }
  }

  lemma {:induction false} ContentBound(render: Renderer, v: Json)
    ensures ContentTokens(render, v).Some? ==> Within(ContentTokens(render, v).value, ContentTally(render, v))
    decreases v, 3
  {
    match v
    case Arr(items) => ItemBound(render, items);
    case Obj(ms) => KeyBound(ms);
    case _ =>
  }

  lemma {:induction false} ItemBound(render: Renderer, items: seq<Json>)
    ensures ItemTokens(render, items).Some? ==> Within(ItemTokens(render, items).value, ItemTally(render, items))
    decreases items, 2
  {
    hide BlockTokens, BlockTally;
    if items != [] {
      BlockBound(render, items[0]);
      ItemBound(render, items[1..]);
    }
  }

  lemma {:induction false} KeyBound(ms: seq<Member>)
    ensures Within(KeyTokens(ms), KeyTally(ms))
  {
    if ms != [] {
      KeyBound(ms[1..]);
    }
  }

  lemma {:induction false} MessagesBound(render: Renderer, ms: seq<Json>)
    ensures MessagesTokens(render, ms).Some? ==> Within(MessagesTokens(render, ms).value, MessagesTally(render, ms))
  {
    hide ContentTokens, ContentTally, Counted;
    if ms != [] {
      ContentBound(render, Counted(render, ms[0]));
      MessagesBound(render, ms[1..]);
    }
  }
}
