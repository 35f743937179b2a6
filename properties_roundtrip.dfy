/**
  * The deserializer read against a writer: a document tree is rendered as
  * compact JSON (double-quoted strings with `"` and `\` escaped, decimal
  * integers, no white space), and deserializing the rendering gives back the
  * value the tree stands for, duplicate member names resolved by the last one.
  */
module RoundTrip {
  import opened Wrappers
  import opened Chars
  import opened Numbers
  import opened JsonValues
  import opened Cursor
  import opened Grammar
  import ObjectProperties

  /** A JSON document as a writer holds it: members in order, duplicates allowed. */
  datatype Doc =
    | DNull
    | DBool(b: bool)
    | DInt(n: int)
    | DStr(t: Text)
    | DList(items: seq<Doc>)
    | DObject(members: seq<Member>)

  datatype Member = Member(key: Text, value: Doc)

  /** An integer as `int.ToString()` writes it. */
  function IntText(n: int): Text {
    if n < 0 then [Minus] + DecimalText(-n) else DecimalText(n)
  }

  /** The body of a double-quoted string: `"` and `\` behind a backslash, every other code unit as it is. */
  function Escape(t: Text): Text {
    if t == [] then []
    else (if t[0] == Quote || t[0] == Backslash then [Backslash, t[0]] else [t[0]]) + Escape(t[1..])
  }

  function Quoted(t: Text): Text {
    [Quote] + Escape(t) + [Quote]
  }

  function Render(d: Doc): Text {
    match d
    case DNull => NullLiteral
    case DBool(b) => if b then TrueLiteral else FalseLiteral
    case DInt(n) => IntText(n)
    case DStr(t) => Quoted(t)
    case DList(items) => [LeftBracket] + (RenderItems(items) + [RightBracket])
    case DObject(ms) => [LeftBrace] + (RenderMembers(ms) + [RightBrace])
  }

  /** The elements, separated by commas. */
  function RenderItems(items: seq<Doc>): Text {
    if items == [] then []
    else if |items| == 1 then Render(items[0])
    else Render(items[0]) + [Comma] + RenderItems(items[1..])
  }

  /** The members as `"name":value`, separated by commas. */
  function RenderMembers(ms: seq<Member>): Text {
    if ms == [] then []
    else
      var head := Quoted(ms[0].key) + [Colon] + Render(ms[0].value);
      if |ms| == 1 then head else head + [Comma] + RenderMembers(ms[1..])
  }

  /** The value a document stands for. */
  function Meaning(d: Doc): Value {
    match d
    case DNull => Null
    case DBool(b) => Bool(b)
    case DInt(n) => Int32(n)
    case DStr(t) => Str(t)
    case DList(items) => List(Meanings(items))
    case DObject(ms) => Object(Assign(map[], ms))
  }

  function Meanings(items: seq<Doc>): (r: seq<Value>)
    ensures |r| == |items|
  {
    if items == [] then [] else [Meaning(items[0])] + Meanings(items[1..])
  }

  /** The members stored one after the other into `m`, each overwriting an earlier one of the same name. */
  function Assign(m: map<Text, Value>, ms: seq<Member>): map<Text, Value>
    decreases ms
  {
    if ms == [] then m else Assign(m[ms[0].key := Meaning(ms[0].value)], ms[1..])
  }

  /**
    * The documents whose rendering reads back: integers in the `int` range,
    * surrogate-free strings and names, and objects of at most `cap` members.
    */
  ghost predicate WellFormed(d: Doc, cap: int)
    decreases d
  {
    match d
    case DInt(n) => InInt32(n)
    case DStr(t) => !HasSurrogate(t)
    case DList(items) => ItemsWellFormed(items, cap)
    case DObject(ms) => (ms == [] || |ms| <= cap) && MembersWellFormed(ms, cap)
    case _ => true
  }

  ghost predicate ItemsWellFormed(items: seq<Doc>, cap: int)
    decreases items
  {
    items != [] ==> WellFormed(items[0], cap) && ItemsWellFormed(items[1..], cap)
  }

  ghost predicate MembersWellFormed(ms: seq<Member>, cap: int)
    decreases ms
  {
    ms != [] ==> !HasSurrogate(ms[0].key) && WellFormed(ms[0].value, cap) && MembersWellFormed(ms[1..], cap)
  }

  /** `d` nests no deeper than `room` levels. */
  ghost predicate DocFits(d: Doc, room: int)
    decreases d
  {
    && room >= 1
    && match d
       case DList(items) => ItemsFit(items, room - 1)
       case DObject(ms) => MembersFit(ms, room - 1)
       case _ => true
  }

  ghost predicate ItemsFit(items: seq<Doc>, room: int)
    decreases items
  {
    items != [] ==> DocFits(items[0], room) && ItemsFit(items[1..], room)
  }

  ghost predicate MembersFit(ms: seq<Member>, room: int)
    decreases ms
  {
    ms != [] ==> DocFits(ms[0].value, room) && MembersFit(ms[1..], room)
  }

  /** `t` occurs in `s` at index `i`. */
  ghost predicate At(s: Text, i: nat, t: Text) {
    i + |t| <= |s| && forall k :: 0 <= k < |t| ==> s[i + k] == t[k]
  }

  lemma AtSplit(s: Text, i: nat, a: Text, b: Text)
    requires At(s, i, a + b)
    ensures At(s, i, a) && At(s, i + |a|, b)
  {
    forall k | 0 <= k < |a| ensures s[i + k] == a[k] {
      assert (a + b)[k] == a[k];
    }
    forall k | 0 <= k < |b| ensures s[i + |a| + k] == b[k] {
      assert (a + b)[|a| + k] == b[k];
    }
  }

  lemma AtJoin(s: Text, i: nat, a: Text, b: Text)
    requires At(s, i, a) && At(s, i + |a|, b)
    ensures At(s, i, a + b)
  {
    forall k | 0 <= k < |a + b| ensures s[i + k] == (a + b)[k] {
      if k >= |a| {
        assert s[i + |a| + (k - |a|)] == b[k - |a|];
      }
    }
  }

  lemma AtIndex(s: Text, i: nat, t: Text, k: nat)
    requires At(s, i, t) && k < |t|
    ensures s[i + k] == t[k]
  {
  }

  /** What occurs at `i` is the slice of `s` there. */
  lemma AtSlice(s: Text, i: nat, t: Text)
    requires At(s, i, t)
    ensures s[i..i + |t|] == t
  {
    forall k | 0 <= k < |t| ensures s[i..i + |t|][k] == t[k] {
      assert s[i..i + |t|][k] == s[i + k];
    }
  }

  /** Every suffix of a text occurs in it where it starts. */
  lemma AtSuffix(s: Text, i: nat)
    requires i <= |s|
    ensures At(s, i, s[i..])
  {
  }

  /** A text made of a piece, one code unit and another piece, found in `s`, piece by piece. */
  lemma AtPiece(s: Text, i: nat, a: Text, c: CodeUnit, b: Text, j: nat)
    requires At(s, i, a + [c] + b) && j == i + |a|
    ensures At(s, i, a) && j < |s| && s[j] == c && At(s, j + 1, b)
  {
    AtSplit(s, i, a + [c], b);
    AtSplit(s, i, a, [c]);
    AtIndex(s, j, [c], 0);
  }

  /** The read past a token stops at the first code unit that cannot be part of one. */
  lemma {:induction false} TokenEndAt(s: Text, i: nat, e: nat, p: Platform)
    requires i <= e <= |s|
    requires forall k :: i <= k < e ==> IsTokenChar(s[k], p)
    requires e == |s| || !IsTokenChar(s[e], p)
    ensures TokenEnd(s, i, p) == e
    decreases e - i
  {
    if i < e {
      TokenEndAt(s, i + 1, e, p);
    }
  }

  /** Reading back a negative number's text gives the number. */
  lemma NegativeIsInteger(n: int)
    requires n < 0
    ensures IntegerValue(IntText(n)) == Some(n)
  {
    var t := IntText(n);
    assert t == [Minus] + DecimalText(-n);
    assert t[0..|t|] == t;
    assert t[1..] == DecimalText(-n);
  }

  /** The text of an integer: digits after an optional leading minus. */
  lemma IntTextDigits(n: int)
    ensures IntText(n) != []
    ensures forall k :: 0 <= k < |IntText(n)| ==> IsDigit(IntText(n)[k]) || (k == 0 && IntText(n)[k] == Minus)
  {
    var t := IntText(n);
    if n < 0 {
      var digits := DecimalText(-n);
      assert t == [Minus] + digits;
      forall k | 1 <= k < |t| ensures IsDigit(t[k]) {
        assert t[k] == digits[k - 1];
      }
    }
  }

  /** The text of an integer reads back as the integer. */
  lemma IntTextValue(n: int)
    ensures IntegerValue(IntText(n)) == Some(n)
  {
    if n < 0 {
      NegativeIsInteger(n);
    } else {
      assert IntText(n) == DecimalText(n);
      DecimalTextIsInteger(n);
    }
  }

  /** An integer in the `int` range, written out, is classified as that `int`. */
  lemma IntTextIsInt32(n: int, p: Platform)
    requires InInt32(n)
    ensures Classify(IntText(n), p) == Ok(Int32(n))
  {
    var t := IntText(n);
    IntTextDigits(n);
    IntTextValue(n);
    assert t[0] != NullLiteral[0] && t[0] != TrueLiteral[0] && t[0] != FalseLiteral[0];
    assert !IsKeyword(t);
    assert LowerE !in t && UpperE !in t && Dot !in t by {
      forall k | 0 <= k < |t| ensures t[k] != LowerE && t[k] != UpperE && t[k] != Dot {
      }
    }
    OccursIsMembership(t, LowerE);
    OccursIsMembership(t, UpperE);
    OccursIsMembership(t, Dot);
    assert TryInt32(t) == Some(n);
  }

  /** The body of a string written by `Escape` reads back as the original code units. */
  lemma {:induction false} EscapeReadsBack(s: Text, i: nat, t: Text, acc: Text, p: Platform)
    requires At(s, i, Escape(t) + [Quote])
    ensures StringLoop(s, i, Quote, acc, false, p) == Ok(Parsed(p.validateString(acc + t), i + |Escape(t)| + 1))
    decreases t
  {
    var e := Escape(t);
    if t == [] {
      AtIndex(s, i, e + [Quote], 0);
      assert acc + t == acc;
    } else {
      var c := t[0];
      var head := if c == Quote || c == Backslash then [Backslash, c] else [c];
      assert e == head + Escape(t[1..]);
      assert e + [Quote] == head + (Escape(t[1..]) + [Quote]);
      AtSplit(s, i, head, Escape(t[1..]) + [Quote]);
      AtIndex(s, i, head, 0);
      assert acc + t == (acc + [c]) + t[1..];
      if c == Quote || c == Backslash {
        AtIndex(s, i, head, 1);
        EscapeReadsBack(s, i + 2, t[1..], acc + [c], p);
        if c == Quote {
          assert AfterEscape(s, i + 2, c, Quote, acc, p) == StringLoop(s, i + 2, Quote, acc + [c], false, p);
        }
      } else {
        EscapeReadsBack(s, i + 1, t[1..], acc + [c], p);
      }
    }
  }

  /** A quoted string reads back as itself. */
  lemma QuotedReadsBack(s: Text, i: nat, t: Text, p: Platform)
    requires Sound(p) && !HasSurrogate(t)
    requires At(s, i, Quoted(t))
    ensures ParseString(s, i, p) == Ok(Parsed(t, i + |Quoted(t)|))
  {
    assert Quoted(t) == [Quote] + (Escape(t) + [Quote]);
    AtSplit(s, i, [Quote], Escape(t) + [Quote]);
    AtIndex(s, i, [Quote], 0);
    EscapeReadsBack(s, i + 1, t, [], p);
    assert [] + t == t;
  }

  /** The first code unit of a rendering, which decides how it is read. */
  lemma RenderStart(d: Doc)
    ensures Render(d) != []
    ensures d.DNull? ==> Render(d)[0] == 0x6E
    ensures d.DBool? ==> Render(d)[0] == 0x74 || Render(d)[0] == 0x66
    ensures d.DInt? ==> IsDigit(Render(d)[0]) || Render(d)[0] == Minus
    ensures d.DStr? ==> Render(d)[0] == Quote
    ensures d.DList? ==> Render(d)[0] == LeftBracket
    ensures d.DObject? ==> Render(d)[0] == LeftBrace
  {
  }

  /** The code units of a number or keyword are all token code units. */
  lemma BareTokenChars(d: Doc, p: Platform)
    requires Sound(p) && (d.DNull? || d.DBool? || d.DInt?)
    ensures forall k :: 0 <= k < |Render(d)| ==> IsTokenChar(Render(d)[k], p)
  {
    var t := Render(d);
    if d.DInt? {
      IntTextDigits(d.n);
    }
    forall k | 0 <= k < |t| ensures IsTokenChar(t[k], p) {
      assert IsAsciiLetterOrDigit(t[k]) || t[k] == Minus;
    }
  }

  /** The three keywords classify as the values they name. */
  lemma KeywordIsClassified(d: Doc, p: Platform)
    requires d.DNull? || d.DBool?
    ensures Classify(Render(d), p) == Ok(Meaning(d))
  {
  }

  /** A rendered number or keyword is read as exactly one bare token. */
  lemma BareTokenIsRead(s: Text, i: nat, d: Doc, p: Platform)
    requires Sound(p) && (d.DNull? || d.DBool? || d.DInt?)
    requires At(s, i, Render(d))
    requires i + |Render(d)| == |s| || !IsTokenChar(s[i + |Render(d)|], p)
    ensures Token(s, i, p) == Parsed(Render(d), i + |Render(d)|)
  {
    var t := Render(d);
    var e := i + |t|;
    BareTokenChars(d, p);
    forall k | i <= k < e ensures IsTokenChar(s[k], p) {
      AtIndex(s, i, t, k - i);
    }
    TokenEndAt(s, i, e, p);
    AtSlice(s, i, t);
  }

  /** A rendered number or keyword, read as a bare token, gives its meaning. */
  lemma BareTokenReadsBack(s: Text, i: nat, d: Doc, cfg: Config)
    requires Sound(cfg.platform) && (d.DNull? || d.DBool? || (d.DInt? && InInt32(d.n)))
    requires At(s, i, Render(d))
    requires i + |Render(d)| == |s| || !IsTokenChar(s[i + |Render(d)|], cfg.platform)
    ensures ParsePrimitive(s, i, cfg.platform) == Ok(Parsed(Meaning(d), i + |Render(d)|))
  {
    BareTokenIsRead(s, i, d, cfg.platform);
    RenderedTokenIsPrimitive(s, i, d, cfg.platform);
  }

  /** A token that is the rendering of a number in the `int` range or of a keyword is read as its meaning. */
  lemma RenderedTokenIsPrimitive(s: Text, i: nat, d: Doc, p: Platform)
    requires d.DNull? || d.DBool? || (d.DInt? && InInt32(d.n))
    requires i <= |s| && Token(s, i, p) == Parsed(Render(d), i + |Render(d)|)
    ensures ParsePrimitive(s, i, p) == Ok(Parsed(Meaning(d), i + |Render(d)|))
  {
    RenderIsClassified(d, p);
    PrimitiveOfToken(s, i, Render(d), Meaning(d), p);
  }

  /** A rendered number in the `int` range or keyword classifies as its meaning. */
  lemma RenderIsClassified(d: Doc, p: Platform)
    requires d.DNull? || d.DBool? || (d.DInt? && InInt32(d.n))
    ensures Classify(Render(d), p) == Ok(Meaning(d))
  {
    if d.DInt? {
      IntTextIsInt32(d.n, p);
    } else {
      KeywordIsClassified(d, p);
    }
  }

  lemma PrimitiveOfToken(s: Text, i: nat, t: Text, v: Value, p: Platform)
    requires i <= |s| && Token(s, i, p) == Parsed(t, i + |t|) && Classify(t, p) == Ok(v)
    ensures ParsePrimitive(s, i, p) == Ok(Parsed(v, i + |t|))
  {
  }

  /** A rendered document, followed by a code unit that cannot extend a token, reads back as its meaning. */
  lemma {:induction false} ValueReadsBack(s: Text, i: nat, d: Doc, depth: int, cfg: Config)
    requires Sound(cfg.platform) && WellFormed(d, cfg.memberCap) && DocFits(d, cfg.depthLimit - depth)
    requires At(s, i, Render(d))
    requires i + |Render(d)| == |s| || !IsTokenChar(s[i + |Render(d)|], cfg.platform)
    ensures ParseValue(s, i, depth, cfg) == Ok(Parsed(Meaning(d), i + |Render(d)|))
    decreases d, 1
  {
    match d
    case DNull => ScalarReadsBack(s, i, d, depth, cfg);
    case DBool(_) => ScalarReadsBack(s, i, d, depth, cfg);
    case DInt(_) => ScalarReadsBack(s, i, d, depth, cfg);
    case DStr(_) => ScalarReadsBack(s, i, d, depth, cfg);
    case DList(_) => ListReadsBack(s, i, d, depth, cfg);
    case DObject(_) => ObjectReadsBack(s, i, d, depth, cfg);
  }

  /** A rendered keyword, number or string reads back as its meaning. */
  lemma ScalarReadsBack(s: Text, i: nat, d: Doc, depth: int, cfg: Config)
    requires Sound(cfg.platform) && WellFormed(d, cfg.memberCap) && DocFits(d, cfg.depthLimit - depth)
    requires d.DNull? || d.DBool? || d.DInt? || d.DStr?
    requires At(s, i, Render(d))
    requires i + |Render(d)| == |s| || !IsTokenChar(s[i + |Render(d)|], cfg.platform)
    ensures ParseValue(s, i, depth, cfg) == Ok(Parsed(Meaning(d), i + |Render(d)|))
  {
    RenderStart(d);
    AtIndex(s, i, Render(d), 0);
    ValueDispatch(s, i, depth, cfg);
    if d.DStr? {
      QuotedReadsBack(s, i, d.t, cfg.platform);
    } else {
      BareTokenReadsBack(s, i, d, cfg);
    }
  }

  /** A value that starts at a code unit other than white space is read by the production that code unit selects. */
  lemma ValueDispatch(s: Text, i: nat, depth: int, cfg: Config)
    requires i < |s| && !IsWhiteSpace(s[i]) && depth + 1 <= cfg.depthLimit
    ensures s[i] == LeftBrace ==> ParseValue(s, i, depth, cfg) == ObjectLoop(s, i + 1, depth + 1, None, cfg)
    ensures s[i] == LeftBracket ==> ParseValue(s, i, depth, cfg) == ListLoop(s, i + 1, depth + 1, [], false, cfg)
    ensures s[i] == Quote && ParseString(s, i, cfg.platform).Ok? ==>
              var Parsed(t, n) := ParseString(s, i, cfg.platform).value;
              ParseValue(s, i, depth, cfg) == Ok(Parsed(Str(t), n))
    ensures s[i] != LeftBrace && s[i] != LeftBracket && s[i] != Quote && s[i] != Apostrophe ==>
              ParseValue(s, i, depth, cfg) == ParsePrimitive(s, i, cfg.platform)
  {
    ObjectProperties.SkipWhiteAtNonWhite(s, i);
  }

  /** A rendered list reads back as the list of its elements' meanings. */
  lemma ListReadsBack(s: Text, i: nat, d: Doc, depth: int, cfg: Config)
    requires Sound(cfg.platform) && WellFormed(d, cfg.memberCap) && DocFits(d, cfg.depthLimit - depth)
    requires d.DList? && At(s, i, Render(d))
    ensures ParseValue(s, i, depth, cfg) == Ok(Parsed(Meaning(d), i + |Render(d)|))
    decreases d, 0
  {
    var items := d.items;
    var room := cfg.depthLimit - depth;
    assert Render(d) == [LeftBracket] + (RenderItems(items) + [RightBracket]);
    assert Meaning(d) == List([] + Meanings(items));
    AtSplit(s, i, [LeftBracket], RenderItems(items) + [RightBracket]);
    AtIndex(s, i, [LeftBracket], 0);
    ValueDispatch(s, i, depth, cfg);
    ItemsReadBack(s, i + 1, items, depth + 1, [], false, cfg, room - 1);
  }

  /** A rendering starts with a code unit that opens a value: not white space, not a closing bracket. */
  lemma ValueStart(s: Text, i: nat, d: Doc)
    requires At(s, i, Render(d))
    ensures i < |s| && !IsWhiteSpace(s[i]) && s[i] != RightBracket && s[i] != RightBrace && s[i] != Colon
  {
    RenderStart(d);
    AtIndex(s, i, Render(d), 0);
  }

  /** The separators and closing brackets cannot extend a token. */
  lemma DelimiterIsNotToken(c: CodeUnit, p: Platform)
    requires Sound(p) && (c == Comma || c == RightBracket || c == RightBrace)
    ensures !IsTokenChar(c, p)
  {
    assert !p.isLetterOrDigit(c);
  }

  /** A single rendered element followed by `]`: the element, then the `]`. */
  lemma LastItemSplit(s: Text, i: nat, items: seq<Doc>)
    requires |items| == 1 && At(s, i, RenderItems(items) + [RightBracket])
    ensures At(s, i, Render(items[0]))
    ensures i + |Render(items[0])| < |s| && s[i + |Render(items[0])|] == RightBracket
    ensures |RenderItems(items)| == |Render(items[0])|
  {
    var rx := Render(items[0]);
    assert RenderItems(items) + [RightBracket] == rx + [RightBracket] + [];
    AtPiece(s, i, rx, RightBracket, [], i + |rx|);
  }

  /** Several rendered elements followed by `]`: the first element, a comma and the rest. */
  lemma ItemsSplit(s: Text, i: nat, items: seq<Doc>)
    requires |items| > 1 && At(s, i, RenderItems(items) + [RightBracket])
    ensures At(s, i, Render(items[0]))
    ensures i + |Render(items[0])| < |s| && s[i + |Render(items[0])|] == Comma
    ensures At(s, i + |Render(items[0])| + 1, RenderItems(items[1..]) + [RightBracket])
    ensures |RenderItems(items)| == |Render(items[0])| + 1 + |RenderItems(items[1..])|
  {
    var rx := Render(items[0]);
    var rest := RenderItems(items[1..]) + [RightBracket];
    assert RenderItems(items) + [RightBracket] == rx + [Comma] + rest;
    AtPiece(s, i, rx, Comma, rest, i + |rx|);
  }

  /** The list loop at a `]` when no element is owed closes the list. */
  lemma ListLoopClose(s: Text, i: nat, depth: int, items: seq<Value>, cfg: Config)
    requires i < |s| && s[i] == RightBracket && depth <= cfg.depthLimit
    ensures ListLoop(s, i, depth, items, false, cfg) == Ok(Parsed(List(items), i + 1))
  {
    ObjectProperties.SkipWhiteAtNonWhite(s, i);
  }

  /** The list loop over a value followed by `]` closes the list after that value. */
  lemma ListLoopLast(s: Text, i: nat, depth: int, items: seq<Value>, expectMore: bool, cfg: Config, v: Value, n: nat)
    requires i < |s| && !IsWhiteSpace(s[i]) && s[i] != RightBracket && depth <= cfg.depthLimit
    requires ValueThenNext(s, i, depth, cfg) == Ok((v, Some(RightBracket), n))
    ensures ListLoop(s, i, depth, items, expectMore, cfg) == Ok(Parsed(List(items + [v]), n))
  {
    ObjectProperties.SkipWhiteAtNonWhite(s, i);
  }

  /** The list loop over a value followed by `,` goes on with that value appended. */
  lemma ListLoopMore(s: Text, i: nat, depth: int, items: seq<Value>, expectMore: bool, cfg: Config, v: Value,
                     n: nat, rest: seq<Value>, end: nat)
    requires i < |s| && !IsWhiteSpace(s[i]) && s[i] != RightBracket && depth <= cfg.depthLimit
    requires ValueThenNext(s, i, depth, cfg) == Ok((v, Some(Comma), n))
    requires ListLoop(s, n, depth, items + [v], true, cfg) == Ok(Parsed(List(items + [v] + rest), end))
    ensures ListLoop(s, i, depth, items, expectMore, cfg) == Ok(Parsed(List(items + ([v] + rest)), end))
  {
    ObjectProperties.SkipWhiteAtNonWhite(s, i);
    assert items + [v] + rest == items + ([v] + rest);
  }

  /** The list loop over rendered elements collects their meanings in order. */
  lemma {:induction false} ItemsReadBack(s: Text, i: nat, items: seq<Doc>, depth: int, acc: seq<Value>,
                                         expectMore: bool, cfg: Config, room: int)
    requires Sound(cfg.platform) && depth <= cfg.depthLimit && room == cfg.depthLimit - depth
    requires expectMore ==> items != []
    requires ItemsWellFormed(items, cfg.memberCap) && ItemsFit(items, room)
    requires At(s, i, RenderItems(items) + [RightBracket])
    ensures ListLoop(s, i, depth, acc, expectMore, cfg)
            == Ok(Parsed(List(acc + Meanings(items)), i + |RenderItems(items)| + 1))
    decreases items, 1
  {
    if items == [] {
      NoItemsReadBack(s, i, items, depth, acc, cfg);
    } else if |items| == 1 {
      LastItemStep(s, i, items, depth, acc, expectMore, cfg, room);
    } else {
      var e := i + |Render(items[0])|;
      ItemStep(s, i, items, depth, cfg, room, e);
      ItemsTail(s, i, items, depth, acc, expectMore, cfg, room, e + 1);
    }
  }

  /** The list loop over no rendered elements closes the list at the `]`. */
  lemma NoItemsReadBack(s: Text, i: nat, items: seq<Doc>, depth: int, acc: seq<Value>, cfg: Config)
    requires depth <= cfg.depthLimit && items == [] && At(s, i, RenderItems(items) + [RightBracket])
    ensures ListLoop(s, i, depth, acc, false, cfg)
            == Ok(Parsed(List(acc + Meanings(items)), i + |RenderItems(items)| + 1))
  {
    assert RenderItems(items) + [RightBracket] == [RightBracket];
    AtIndex(s, i, [RightBracket], 0);
    ListLoopClose(s, i, depth, acc, cfg);
    assert acc + Meanings(items) == acc;
  }

  /** The list loop over the last rendered element closes the list after it. */
  lemma LastItemStep(s: Text, i: nat, items: seq<Doc>, depth: int, acc: seq<Value>, expectMore: bool,
                     cfg: Config, room: int)
    requires Sound(cfg.platform) && depth <= cfg.depthLimit && room == cfg.depthLimit - depth
    requires |items| == 1 && ItemsWellFormed(items, cfg.memberCap) && ItemsFit(items, room)
    requires At(s, i, RenderItems(items) + [RightBracket])
    ensures ListLoop(s, i, depth, acc, expectMore, cfg)
            == Ok(Parsed(List(acc + Meanings(items)), i + |RenderItems(items)| + 1))
    decreases items, 0
  {
    var x := items[0];
    var e := i + |Render(x)|;
    LastItemSplit(s, i, items);
    ValueStart(s, i, x);
    ItemReadsBack(s, i, x, depth, cfg, room, e);
    ListLoopLast(s, i, depth, acc, expectMore, cfg, Meaning(x), e + 1);
    assert Meanings(items) == [Meaning(x)];
  }

  /** The first of several rendered elements reads back, followed by a comma and the rest. */
  lemma ItemStep(s: Text, i: nat, items: seq<Doc>, depth: int, cfg: Config, room: int, e: nat)
    requires Sound(cfg.platform) && depth <= cfg.depthLimit && room == cfg.depthLimit - depth
    requires |items| > 1 && ItemsWellFormed(items, cfg.memberCap) && ItemsFit(items, room)
    requires At(s, i, RenderItems(items) + [RightBracket]) && e == i + |Render(items[0])|
    ensures i < |s| && !IsWhiteSpace(s[i]) && s[i] != RightBracket
    ensures ValueThenNext(s, i, depth, cfg) == Ok((Meaning(items[0]), Some(Comma), e + 1))
    ensures At(s, e + 1, RenderItems(items[1..]) + [RightBracket])
    ensures |RenderItems(items)| == |Render(items[0])| + 1 + |RenderItems(items[1..])|
    decreases items, 0
  {
    ItemsSplit(s, i, items);
    ValueStart(s, i, items[0]);
    ItemReadsBack(s, i, items[0], depth, cfg, room, e);
  }

  /**
    * A rendered element followed by a separator or a closing bracket: the value
    * reads back as its meaning and the separator is the next code unit read.
    */
  lemma ItemReadsBack(s: Text, i: nat, x: Doc, depth: int, cfg: Config, room: int, e: nat)
    requires Sound(cfg.platform) && depth <= cfg.depthLimit && room == cfg.depthLimit - depth
    requires WellFormed(x, cfg.memberCap) && DocFits(x, room)
    requires At(s, i, Render(x)) && e == i + |Render(x)|
    requires e < |s| && (s[e] == Comma || s[e] == RightBracket || s[e] == RightBrace)
    ensures ValueThenNext(s, i, depth, cfg) == Ok((Meaning(x), Some(s[e]), e + 1))
    decreases x, 2
  {
    DelimiterIsNotToken(s[e], cfg.platform);
    ValueReadsBack(s, i, x, depth, cfg);
    assert ParseValue(s, i, depth, cfg) == Ok(Parsed(Meaning(x), e));
    ObjectProperties.SkipWhiteAtNonWhite(s, e);
    assert SkipWhite(s, e) == (Some(s[e]), e + 1);
  }

  /** The rest of the elements after the first one and its comma, read back by the list loop. */
  lemma ItemsTail(s: Text, i: nat, items: seq<Doc>, depth: int, acc: seq<Value>,
                  expectMore: bool, cfg: Config, room: int, n: nat)
    requires Sound(cfg.platform) && depth <= cfg.depthLimit && room == cfg.depthLimit - depth
    requires |items| > 1 && ItemsWellFormed(items[1..], cfg.memberCap) && ItemsFit(items[1..], room)
    requires i < |s| && !IsWhiteSpace(s[i]) && s[i] != RightBracket
    requires ValueThenNext(s, i, depth, cfg) == Ok((Meaning(items[0]), Some(Comma), n))
    requires At(s, n, RenderItems(items[1..]) + [RightBracket])
    requires i + |RenderItems(items)| == n + |RenderItems(items[1..])|
    ensures ListLoop(s, i, depth, acc, expectMore, cfg)
            == Ok(Parsed(List(acc + Meanings(items)), i + |RenderItems(items)| + 1))
    decreases items, 0
  {
    ItemsAfterComma(s, i, depth, acc, expectMore, cfg, room, n, Meaning(items[0]), items[1..]);
    assert Meanings(items) == [Meaning(items[0])] + Meanings(items[1..]);
  }

  /** The elements after a first value and its comma, read back by the list loop. */
  lemma {:induction false} ItemsAfterComma(s: Text, i: nat, depth: int, acc: seq<Value>, expectMore: bool,
                                           cfg: Config, room: int, n: nat, v: Value, tail: seq<Doc>)
    requires Sound(cfg.platform) && depth <= cfg.depthLimit && room == cfg.depthLimit - depth
    requires tail != [] && ItemsWellFormed(tail, cfg.memberCap) && ItemsFit(tail, room)
    requires i < |s| && !IsWhiteSpace(s[i]) && s[i] != RightBracket
    requires ValueThenNext(s, i, depth, cfg) == Ok((v, Some(Comma), n))
    requires At(s, n, RenderItems(tail) + [RightBracket])
    ensures ListLoop(s, i, depth, acc, expectMore, cfg)
            == Ok(Parsed(List(acc + ([v] + Meanings(tail))), n + |RenderItems(tail)| + 1))
    decreases tail, 2
  {
    ItemsReadBack(s, n, tail, depth, acc + [v], true, cfg, room);
    ListLoopMore(s, i, depth, acc, expectMore, cfg, v, n, Meanings(tail), n + |RenderItems(tail)| + 1);
  }

  /** A rendered object reads back as its members stored in order. */
  lemma ObjectReadsBack(s: Text, i: nat, d: Doc, depth: int, cfg: Config)
    requires Sound(cfg.platform) && WellFormed(d, cfg.memberCap) && DocFits(d, cfg.depthLimit - depth)
    requires d.DObject? && At(s, i, Render(d))
    ensures ParseValue(s, i, depth, cfg) == Ok(Parsed(Meaning(d), i + |Render(d)|))
    decreases d, 0
  {
    var ms := d.members;
    assert Render(d) == [LeftBrace] + (RenderMembers(ms) + [RightBrace]);
    AtSplit(s, i, [LeftBrace], RenderMembers(ms) + [RightBrace]);
    AtIndex(s, i, [LeftBrace], 0);
    ValueAtBrace(s, i, depth, cfg);
    MembersReadBack(s, i + 1, ms, depth + 1, None, cfg, cfg.depthLimit - depth - 1);
  }

  /** A value that starts at `{` is the object loop after it, one level deeper. */
  lemma ValueAtBrace(s: Text, i: nat, depth: int, cfg: Config)
    requires i < |s| && s[i] == LeftBrace && depth + 1 <= cfg.depthLimit
    ensures ParseValue(s, i, depth, cfg) == ObjectLoop(s, i + 1, depth + 1, None, cfg)
  {
    ObjectProperties.SkipWhiteAtNonWhite(s, i);
  }

  /** The object loop at a `}` before any member closes an empty object. */
  lemma ObjectLoopAtEmpty(s: Text, k: nat, depth: int, cfg: Config)
    requires k < |s| && s[k] == RightBrace && depth <= cfg.depthLimit
    ensures ObjectLoop(s, k, depth, None, cfg) == Ok(Parsed(Object(map[]), k + 1))
  {
    ObjectProperties.SkipWhiteAtNonWhite(s, k);
    assert MemberHead(s, k, RightBrace, cfg.platform) == Ok(Parsed(None, k));
    assert ObjectLoop(s, k, depth, None, cfg) == MemberRest(s, k, None, depth, None, cfg);
  }

  /** After a quoted name and its `:`, the object loop goes on with the member's value. */
  lemma ObjectLoopAtName(s: Text, i: nat, depth: int, dict: Option<map<Text, Value>>, cfg: Config, key: Text, a: nat)
    requires i < |s| && s[i] == Quote && depth <= cfg.depthLimit
    requires ParseString(s, i, cfg.platform) == Ok(Parsed(key, a))
    requires a < |s| && s[a] == Colon
    ensures ObjectLoop(s, i, depth, dict, cfg) == MemberRest(s, a + 1, Some(key), depth, dict, cfg)
  {
    ObjectProperties.SkipWhiteAtNonWhite(s, i);
    ObjectProperties.SkipWhiteAtNonWhite(s, a);
    assert MemberName(s, i, cfg.platform) == Ok(Parsed(Some(key), a));
    assert MemberHead(s, i, Quote, cfg.platform) == Ok(Parsed(Some(key), a + 1));
  }

  /** A single rendered member followed by `}`: its name, `:`, its value, then the `}`. */
  lemma LastMemberSplit(s: Text, i: nat, ms: seq<Member>)
    requires |ms| == 1 && At(s, i, RenderMembers(ms) + [RightBrace])
    ensures At(s, i, Quoted(ms[0].key))
    ensures i + |Quoted(ms[0].key)| < |s| && s[i + |Quoted(ms[0].key)|] == Colon
    ensures At(s, i + |Quoted(ms[0].key)| + 1, Render(ms[0].value))
    ensures i + |Quoted(ms[0].key)| + 1 + |Render(ms[0].value)| < |s|
    ensures s[i + |Quoted(ms[0].key)| + 1 + |Render(ms[0].value)|] == RightBrace
    ensures |RenderMembers(ms)| == |Quoted(ms[0].key)| + 1 + |Render(ms[0].value)|
  {
    var q, rx := Quoted(ms[0].key), Render(ms[0].value);
    assert RenderMembers(ms) + [RightBrace] == (q + [Colon] + rx) + [RightBrace] + [];
    AtPiece(s, i, q + [Colon] + rx, RightBrace, [], i + |q| + 1 + |rx|);
    AtPiece(s, i, q, Colon, rx, i + |q|);
  }

  /** Several rendered members followed by `}`: the first member, a comma and the rest. */
  lemma MembersSplit(s: Text, i: nat, ms: seq<Member>, e: nat)
    requires |ms| > 1 && At(s, i, RenderMembers(ms) + [RightBrace])
    requires e == i + |Quoted(ms[0].key)| + 1 + |Render(ms[0].value)|
    ensures At(s, i, Quoted(ms[0].key) + [Colon] + Render(ms[0].value))
    ensures e < |s| && s[e] == Comma && At(s, e + 1, RenderMembers(ms[1..]) + [RightBrace])
    ensures i + |RenderMembers(ms)| == e + 1 + |RenderMembers(ms[1..])|
  {
    var head := Quoted(ms[0].key) + [Colon] + Render(ms[0].value);
    var rest := RenderMembers(ms[1..]) + [RightBrace];
    assert RenderMembers(ms) + [RightBrace] == head + [Comma] + rest;
    AtPiece(s, i, head, Comma, rest, e);
  }

  /** A rendered member followed by `,` or `}`: its name and its value each read back. */
  lemma MemberReadsBack(s: Text, i: nat, m: Member, depth: int, cfg: Config, room: int, a: nat, e: nat)
    requires Sound(cfg.platform) && depth <= cfg.depthLimit && room == cfg.depthLimit - depth
    requires !HasSurrogate(m.key) && WellFormed(m.value, cfg.memberCap) && DocFits(m.value, room)
    requires a == i + |Quoted(m.key)| && e == a + 1 + |Render(m.value)|
    requires At(s, i, Quoted(m.key)) && At(s, a + 1, Render(m.value))
    requires e < |s| && (s[e] == Comma || s[e] == RightBrace)
    ensures i < |s| && s[i] == Quote
    ensures ParseString(s, i, cfg.platform) == Ok(Parsed(m.key, a))
    ensures ValueThenNext(s, a + 1, depth, cfg) == Ok((Meaning(m.value), Some(s[e]), e + 1))
    decreases m.value, 3
  {
    QuotedReadsBack(s, i, m.key, cfg.platform);
    ItemReadsBack(s, a + 1, m.value, depth, cfg, room, e);
    AtIndex(s, i, Quoted(m.key), 0);
  }

  /** The dictionary an object loop pass stores into: none yet is an empty one. */
  function Held(dict: Option<map<Text, Value>>): map<Text, Value> {
    if dict.Some? then dict.value else map[]
  }

  /** One pass of the object loop over a rendered member followed by `}`: the value is stored and the object closed. */
  lemma MemberPassLast(s: Text, i: nat, m: Member, depth: int, dict: Option<map<Text, Value>>,
                       cfg: Config, room: int, a: nat, e: nat)
    requires Sound(cfg.platform) && depth <= cfg.depthLimit && room == cfg.depthLimit - depth
    requires !HasSurrogate(m.key) && WellFormed(m.value, cfg.memberCap) && DocFits(m.value, room)
    requires a == i + |Quoted(m.key)| && e == a + 1 + |Render(m.value)|
    requires At(s, i, Quoted(m.key)) && a < |s| && s[a] == Colon && At(s, a + 1, Render(m.value))
    requires e < |s| && s[e] == RightBrace && |Held(dict)| < cfg.memberCap
    ensures ObjectLoop(s, i, depth, dict, cfg) == Ok(Parsed(Object(Held(dict)[m.key := Meaning(m.value)]), e + 1))
    decreases m.value, 4
  {
    MemberReadsBack(s, i, m, depth, cfg, room, a, e);
    MemberLoopCloses(s, i, depth, dict, cfg, m.key, a, Meaning(m.value), s[e], e + 1);
  }

  /** One pass of the object loop over a rendered member followed by `,`: the value is stored and the loop goes on. */
  lemma MemberPassMore(s: Text, i: nat, m: Member, depth: int, dict: Option<map<Text, Value>>,
                       cfg: Config, room: int, a: nat, e: nat)
    requires Sound(cfg.platform) && depth <= cfg.depthLimit && room == cfg.depthLimit - depth
    requires !HasSurrogate(m.key) && WellFormed(m.value, cfg.memberCap) && DocFits(m.value, room)
    requires a == i + |Quoted(m.key)| && e == a + 1 + |Render(m.value)|
    requires At(s, i, Quoted(m.key)) && a < |s| && s[a] == Colon && At(s, a + 1, Render(m.value))
    requires e < |s| && s[e] == Comma && |Held(dict)| < cfg.memberCap
    ensures ObjectLoop(s, i, depth, dict, cfg)
            == ObjectLoop(s, e + 1, depth, Some(Held(dict)[m.key := Meaning(m.value)]), cfg)
    decreases m.value, 4
  {
    MemberReadsBack(s, i, m, depth, cfg, room, a, e);
    MemberLoopGoesOn(s, i, depth, dict, cfg, m.key, a, Meaning(m.value), s[e], e + 1);
  }

  /** The object loop at a quoted name, its `:` and a value followed by `}`. */
  lemma MemberLoopCloses(s: Text, i: nat, depth: int, dict: Option<map<Text, Value>>,
                         cfg: Config, key: Text, a: nat, v: Value, c: CodeUnit, n: nat)
    requires i < |s| && s[i] == Quote && depth <= cfg.depthLimit && |Held(dict)| < cfg.memberCap
    requires ParseString(s, i, cfg.platform) == Ok(Parsed(key, a)) && a < |s| && s[a] == Colon
    requires ValueThenNext(s, a + 1, depth, cfg) == Ok((v, Some(c), n)) && c == RightBrace
    ensures ObjectLoop(s, i, depth, dict, cfg) == Ok(Parsed(Object(Held(dict)[key := v]), n))
  {
    MemberRestCloses(s, a + 1, key, depth, dict, cfg, v, c, n);
    ObjectLoopAtName(s, i, depth, dict, cfg, key, a);
  }

  /** The rest of a pass over a named member whose value is followed by `}` stores it and closes the object. */
  lemma MemberRestCloses(s: Text, m: nat, key: Text, depth: int, dict: Option<map<Text, Value>>,
                         cfg: Config, v: Value, c: CodeUnit, n: nat)
    requires m <= |s| && depth <= cfg.depthLimit && |Held(dict)| < cfg.memberCap
    requires ValueThenNext(s, m, depth, cfg) == Ok((v, Some(c), n)) && c == RightBrace
    ensures MemberRest(s, m, Some(key), depth, dict, cfg) == Ok(Parsed(Object(Held(dict)[key := v]), n))
  {
  }

  /** The object loop at a quoted name, its `:` and a value followed by `,`. */
  lemma MemberLoopGoesOn(s: Text, i: nat, depth: int, dict: Option<map<Text, Value>>,
                         cfg: Config, key: Text, a: nat, v: Value, c: CodeUnit, n: nat)
    requires i < |s| && s[i] == Quote && depth <= cfg.depthLimit && |Held(dict)| < cfg.memberCap
    requires ParseString(s, i, cfg.platform) == Ok(Parsed(key, a)) && a < |s| && s[a] == Colon
    requires ValueThenNext(s, a + 1, depth, cfg) == Ok((v, Some(c), n)) && c == Comma
    ensures ObjectLoop(s, i, depth, dict, cfg) == ObjectLoop(s, n, depth, Some(Held(dict)[key := v]), cfg)
  {
    MemberRestGoesOn(s, a + 1, key, depth, dict, cfg, v, c, n);
    ObjectLoopAtName(s, i, depth, dict, cfg, key, a);
  }

  /** The rest of a pass over a named member whose value is followed by `,` stores it and goes on. */
  lemma MemberRestGoesOn(s: Text, m: nat, key: Text, depth: int, dict: Option<map<Text, Value>>,
                         cfg: Config, v: Value, c: CodeUnit, n: nat)
    requires m <= |s| && depth <= cfg.depthLimit && |Held(dict)| < cfg.memberCap
    requires ValueThenNext(s, m, depth, cfg) == Ok((v, Some(c), n)) && c == Comma
    ensures MemberRest(s, m, Some(key), depth, dict, cfg) == ObjectLoop(s, n, depth, Some(Held(dict)[key := v]), cfg)
  {
  }

  /** The last of the rendered members, read by one pass of the object loop, closes the object. */
  lemma LastMemberStep(s: Text, i: nat, ms: seq<Member>, depth: int, dict: Option<map<Text, Value>>,
                       cfg: Config, room: int)
    requires Sound(cfg.platform) && depth <= cfg.depthLimit && room == cfg.depthLimit - depth && |ms| == 1
    requires |Held(dict)| < cfg.memberCap
    requires MembersWellFormed(ms, cfg.memberCap) && MembersFit(ms, room)
    requires At(s, i, RenderMembers(ms) + [RightBrace])
    ensures ObjectLoop(s, i, depth, dict, cfg)
            == Ok(Parsed(Object(Assign(Held(dict), ms)), i + |RenderMembers(ms)| + 1))
    decreases ms, 0
  {
    var m := ms[0];
    LastMemberSplit(s, i, ms);
    MemberPassLast(s, i, m, depth, dict, cfg, room, i + |Quoted(m.key)|, i + |RenderMembers(ms)|);
    assert Assign(Held(dict), ms) == Assign(Held(dict)[m.key := Meaning(m.value)], []);
  }

  /**
    * What the object loop needs to read rendered members `ms` at `n` into the
    * dictionary `dict` holds so far.
    */
  ghost predicate MembersReady(s: Text, n: nat, ms: seq<Member>, dict: Option<map<Text, Value>>, depth: int,
                               cfg: Config, room: int)
  {
    && Sound(cfg.platform) && depth <= cfg.depthLimit && room == cfg.depthLimit - depth
    && |Held(dict)| + |ms| <= cfg.memberCap && MembersWellFormed(ms, cfg.memberCap) && MembersFit(ms, room)
    && At(s, n, RenderMembers(ms) + [RightBrace])
  }

  /**
    * The first of several rendered members, read by one pass of the object
    * loop, leaves the rest of the members after a comma.
    */
  lemma MembersStep(s: Text, i: nat, ms: seq<Member>, depth: int, dict: Option<map<Text, Value>>,
                    cfg: Config, room: int, e: nat)
    requires |ms| > 1 && MembersReady(s, i, ms, dict, depth, cfg, room)
    requires e == i + |Quoted(ms[0].key)| + 1 + |Render(ms[0].value)|
    ensures i <= |s| && ObjectLoop(s, i, depth, dict, cfg)
            == ObjectLoop(s, e + 1, depth, Some(Held(dict)[ms[0].key := Meaning(ms[0].value)]), cfg)
    ensures MembersReady(s, e + 1, ms[1..], Some(Held(dict)[ms[0].key := Meaning(ms[0].value)]), depth, cfg, room)
    ensures i + |RenderMembers(ms)| + 1 == e + 1 + |RenderMembers(ms[1..])| + 1
    decreases ms, 0
  {
    MembersAfterFirst(ms, Held(dict), cfg.memberCap, room);
    var m := ms[0];
    MembersSplit(s, i, ms, e);
    AtPiece(s, i, Quoted(m.key), Colon, Render(m.value), i + |Quoted(m.key)|);
    MemberPassMore(s, i, m, depth, dict, cfg, room, i + |Quoted(m.key)|, e);
  }

  /** The object loop over rendered members stores each, in order, into the dictionary. */
  lemma {:induction false} MembersReadBack(s: Text, i: nat, ms: seq<Member>, depth: int,
                                           dict: Option<map<Text, Value>>, cfg: Config, room: int)
    requires Sound(cfg.platform) && depth <= cfg.depthLimit && room == cfg.depthLimit - depth
    requires ms == [] ==> dict.None?
    requires ms == [] || |Held(dict)| + |ms| <= cfg.memberCap
    requires MembersWellFormed(ms, cfg.memberCap) && MembersFit(ms, room)
    requires At(s, i, RenderMembers(ms) + [RightBrace])
    ensures ObjectLoop(s, i, depth, dict, cfg)
            == Ok(Parsed(Object(Assign(Held(dict), ms)), i + |RenderMembers(ms)| + 1))
    decreases ms, 2
  {
    if ms == [] {
      NoMembersReadBack(s, i, ms, depth, dict, cfg);
    } else if |ms| == 1 {
      LastMemberStep(s, i, ms, depth, dict, cfg, room);
    } else {
      var e := i + |Quoted(ms[0].key)| + 1 + |Render(ms[0].value)|;
      MembersStep(s, i, ms, depth, dict, cfg, room, e);
      MembersTail(s, i, ms, depth, dict, cfg, room, e);
    }
  }

  /** The object loop over no rendered members closes an empty object at the `}`. */
  lemma NoMembersReadBack(s: Text, i: nat, ms: seq<Member>, depth: int, dict: Option<map<Text, Value>>, cfg: Config)
    requires depth <= cfg.depthLimit && ms == [] && dict.None?
    requires At(s, i, RenderMembers(ms) + [RightBrace])
    ensures ObjectLoop(s, i, depth, dict, cfg)
            == Ok(Parsed(Object(Assign(Held(dict), ms)), i + |RenderMembers(ms)| + 1))
  {
    assert RenderMembers(ms) + [RightBrace] == [RightBrace];
    AtIndex(s, i, [RightBrace], 0);
    ObjectLoopAtEmpty(s, i, depth, cfg);
  }

  /** The members after the first one and its comma, read back by the object loop. */
  lemma MembersTail(s: Text, i: nat, ms: seq<Member>, depth: int, dict: Option<map<Text, Value>>,
                    cfg: Config, room: int, e: nat)
    requires i <= |s| && |ms| > 1 && depth <= cfg.depthLimit
    requires MembersReady(s, e + 1, ms[1..], Some(Held(dict)[ms[0].key := Meaning(ms[0].value)]), depth, cfg, room)
    requires ObjectLoop(s, i, depth, dict, cfg)
             == ObjectLoop(s, e + 1, depth, Some(Held(dict)[ms[0].key := Meaning(ms[0].value)]), cfg)
    requires i + |RenderMembers(ms)| + 1 == e + 1 + |RenderMembers(ms[1..])| + 1
    ensures ObjectLoop(s, i, depth, dict, cfg)
            == Ok(Parsed(Object(Assign(Held(dict), ms)), i + |RenderMembers(ms)| + 1))
    decreases ms, 1
  {
    var updated := Held(dict)[ms[0].key := Meaning(ms[0].value)];
    MembersReadBack(s, e + 1, ms[1..], depth, Some(updated), cfg, room);
  }

  /** Storing the first of several members leaves the rest well formed, fitting and under the cap. */
  lemma MembersAfterFirst(ms: seq<Member>, members: map<Text, Value>, cap: int, room: int)
    requires |ms| > 1 && MembersWellFormed(ms, cap) && MembersFit(ms, room) && |members| + |ms| <= cap
    ensures MembersWellFormed(ms[1..], cap) && MembersFit(ms[1..], room)
    ensures |members| < cap && |members[ms[0].key := Meaning(ms[0].value)]| + |ms[1..]| <= cap
  {
    assert |members[ms[0].key := Meaning(ms[0].value)]| <= |members| + 1;
  }

  /**
    * Deserializing the rendering of a well-formed document that fits the
    * recursion limit gives the value the document stands for.
    */
  lemma RenderThenDeserialize(d: Doc, cfg: Config)
    requires Sound(cfg.platform) && WellFormed(d, cfg.memberCap) && DocFits(d, cfg.depthLimit)
    ensures BasicDeserialize(Render(d), cfg) == Ok(Meaning(d))
  {
    var s := Render(d);
    AtSuffix(s, 0);
    ValueReadsBack(s, 0, d, 0, cfg);
  }

  /** Storing one more member puts its value under its name. */
  lemma {:induction false} AssignAppend(m: map<Text, Value>, ms: seq<Member>, last: Member)
    ensures Assign(m, ms + [last]) == Assign(m, ms)[last.key := Meaning(last.value)]
    decreases ms
  {
    if ms == [] {
      assert [] + [last] == [last];
    } else {
      assert (ms + [last])[1..] == ms[1..] + [last];
      AssignAppend(m[ms[0].key := Meaning(ms[0].value)], ms[1..], last);
    }
  }

  /** Of two members with the same name, the later one is the one the object keeps. */
  lemma LastMemberWins(ms: seq<Member>, last: Member)
    ensures last.key in Assign(map[], ms + [last]) && Assign(map[], ms + [last])[last.key] == Meaning(last.value)
  {
    AssignAppend(map[], ms, last);
  }
}
