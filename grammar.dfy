/**
  * The deserializer's productions as functions of the text and a start index.
  * Each function follows one method of `JsonObjectDeserializer` branch for
  * branch (each `while` loop becomes a function of the loop-head state) and
  * returns what that method returns together with where it leaves the cursor.
  * The class in module Deserializer is proved to compute exactly these; the
  * properties of the deserializer are proved about these.
  */
module Grammar {
  import opened Wrappers
  import opened Chars
  import opened Numbers
  import opened JsonValues
  import opened Cursor

  predicate IsNextElementArray(c: CodeUnit) { c == LeftBracket }
  predicate IsNextElementObject(c: CodeUnit) { c == LeftBrace }
  predicate IsNextElementString(c: CodeUnit) { c == Quote || c == Apostrophe }

  /** A code unit a bare token may contain: a letter, a digit, `.`, `-`, `_` or `+`. */
  predicate IsTokenChar(c: CodeUnit, p: Platform) {
    p.isLetterOrDigit(c) || c == Dot || c == Minus || c == Underscore || c == Plus
  }

  const NullLiteral: Text := [0x6E, 0x75, 0x6C, 0x6C]
  const TrueLiteral: Text := [0x74, 0x72, 0x75, 0x65]
  const FalseLiteral: Text := [0x66, 0x61, 0x6C, 0x73, 0x65]

  predicate IsKeyword(t: Text) {
    t == NullLiteral || t == TrueLiteral || t == FalseLiteral
  }

  /** Whether the code unit `c` occurs in `t`, scanning from the front. */
  predicate Occurs(t: Text, c: CodeUnit)
    decreases |t|
  {
    t != [] && (t[0] == c || Occurs(t[1..], c))
  }

  lemma {:induction false} OccursIsMembership(t: Text, c: CodeUnit)
    ensures Occurs(t, c) <==> c in t
    decreases |t|
  {
    if t != [] {
      OccursIsMembership(t[1..], c);
      assert t == [t[0]] + t[1..];
    }
  }

  /** `input.IndexOf('.') >= 0`. */
  predicate HasDecimalPoint(t: Text) { Occurs(t, Dot) }

  /** `input.LastIndexOf("e", StringComparison.OrdinalIgnoreCase) >= 0`. */
  predicate HasExponent(t: Text) { Occurs(t, LowerE) || Occurs(t, UpperE) }

  /** Where the maximal run of token code units starting at `i` ends. */
  function TokenEnd(s: Text, i: nat, p: Platform): (e: nat)
    requires i <= |s|
    ensures i <= e <= |s|
    ensures e == |s| || !IsTokenChar(s[e], p)
    decreases |s| - i
  {
    if i < |s| && IsTokenChar(s[i], p) then TokenEnd(s, i + 1, p) else i
  }

  /** The run up to `TokenEnd` is made of token code units only. */
  lemma {:induction false} TokenEndSpan(s: Text, i: nat, p: Platform)
    requires i <= |s|
    ensures forall k :: i <= k < TokenEnd(s, i, p) ==> IsTokenChar(s[k], p)
    decreases |s| - i
  {
    if i < |s| && IsTokenChar(s[i], p) {
      TokenEndSpan(s, i + 1, p);
    }
  }

  /**
    * The classification in `DeserializePrimitiveObject`: the three keywords,
    * then Int32 and Int64 for a token without `.` and exponent, then decimal
    * for a token without exponent, then double, else an illegal primitive.
    */
  function Classify(t: Text, p: Platform): Result<Value> {
    if t == NullLiteral then Ok(Null)
    else if t == TrueLiteral then Ok(Bool(true))
    else if t == FalseLiteral then Ok(Bool(false))
    else if !HasExponent(t) && !HasDecimalPoint(t) && TryInt32(t).Some? then Ok(Int32(TryInt32(t).value))
    else if !HasExponent(t) && !HasDecimalPoint(t) && TryInt64(t).Some? then Ok(Int64(TryInt64(t).value))
    else if !HasExponent(t) && p.tryDecimal(t).Some? then Ok(Decimal(p.tryDecimal(t).value))
    else if p.tryDouble(t).Some? then Ok(Double(p.tryDouble(t).value))
    else Err(IllegalPrimitive)
  }

  /**
    * The numeric-type selection policy, both ways: which tokens become which
    * kind of value, and exactly which tokens are illegal primitives.
    */
  lemma ClassifyPolicy(t: Text, p: Platform, r: Result<Value>)
    requires r == Classify(t, p)
    ensures r.Ok? ==> (r.value.Null? || r.value.Bool? || r.value.Int32? || r.value.Int64?
                       || r.value.Decimal? || r.value.Double?)
    ensures r.Ok? && r.value.Null? <==> t == NullLiteral
    ensures r.Ok? && r.value.Bool? <==> t == TrueLiteral || t == FalseLiteral
    ensures r.Ok? && r.value.Bool? ==> r.value.b == (t == TrueLiteral)
    ensures r.Ok? && r.value.Int32? ==>
              !HasExponent(t) && !HasDecimalPoint(t) && InInt32(r.value.i) && IntegerValue(t) == Some(r.value.i)
    ensures r.Ok? && r.value.Int64? ==>
              !HasExponent(t) && !HasDecimalPoint(t) && InInt64(r.value.l) && !InInt32(r.value.l)
              && IntegerValue(t) == Some(r.value.l)
    ensures r.Ok? && r.value.Decimal? ==>
              !IsKeyword(t) && !HasExponent(t) && p.tryDecimal(t) == Some(r.value.d)
              && (HasDecimalPoint(t) || TryInt64(t).None?)
    ensures r.Ok? && r.value.Double? ==>
              !IsKeyword(t) && p.tryDouble(t) == Some(r.value.bits)
              && (HasExponent(t) || (p.tryDecimal(t).None? && (HasDecimalPoint(t) || TryInt64(t).None?)))
    ensures !IsKeyword(t) && !HasExponent(t) && !HasDecimalPoint(t) && TryInt32(t).Some? ==> r.Ok? && r.value.Int32?
    ensures r.Err? <==> !IsKeyword(t) && p.tryDouble(t).None?
                        && (HasExponent(t) || (p.tryDecimal(t).None? && (HasDecimalPoint(t) || TryInt64(t).None?)))
    ensures r.Err? ==> r.error == IllegalPrimitive
  {
  }

  /** `DeserializePrimitiveToken`: the token at `i` and the index of the first code unit after it. */
  function Token(s: Text, i: nat, p: Platform): (r: Parsed<Text>)
    requires i <= |s|
  {
    var e := TokenEnd(s, i, p);
    Parsed(s[i..e], e)
  }

  /** `DeserializePrimitiveObject`. */
  function ParsePrimitive(s: Text, i: nat, p: Platform): (r: Result<Parsed<Value>>)
    requires i <= |s|
    ensures r.Ok? ==> i <= r.value.next <= |s|
  {
    var Parsed(t, e) := Token(s, i, p);
    match Classify(t, p)
    case Ok(v) => Ok(Parsed(v, e))
    case Err(err) => Err(err)
  }

  /** `CheckQuoteChar`: the quote the string opened with. */
  function CheckQuoteChar(c: Option<CodeUnit>): (r: Result<CodeUnit>)
    ensures r.Ok? <==> c == Some(Quote) || c == Some(Apostrophe)
    ensures r.Ok? ==> c == Some(r.value)
    ensures r.Err? ==> r.error == StringNotQuoted
  {
    if c == Some(Apostrophe) then Ok(Apostrophe)
    else if c != Some(Quote) then Err(StringNotQuoted)
    else Ok(Quote)
  }

  /** The code units after a backslash that stand for one code unit without further input. */
  predicate IsShortEscape(c: CodeUnit) {
    c == Quote || c == Apostrophe || c == Slash || c == LowerB || c == LowerF || c == LowerN || c == LowerR || c == LowerT
  }

  /**
    * `AppendCharToBuilder` for the code unit `c` that followed a backslash,
    * with the cursor at `i`: the text to append and where the cursor ends.
    */
  function Unescape(s: Text, i: nat, c: CodeUnit): (r: Result<Parsed<Text>>)
    requires i <= |s|
    ensures r.Ok? ==> |r.value.item| == 1 && i <= r.value.next <= |s|
    ensures r.Ok? && c != LowerU ==> r.value.next == i
    ensures r.Ok? && c == LowerU ==> r.value.next == i + 4
    ensures r.Ok? && (c == Quote || c == Apostrophe || c == Slash) ==> r.value.item == [c]
    ensures r.Ok? && c == LowerB ==> r.value.item == [Backspace]
    ensures r.Ok? && c == LowerF ==> r.value.item == [FormFeed]
    ensures r.Ok? && c == LowerN ==> r.value.item == [LineFeed]
    ensures r.Ok? && c == LowerR ==> r.value.item == [CarriageReturn]
    ensures r.Ok? && c == LowerT ==> r.value.item == [Tab]
    ensures r.Ok? && c == LowerU ==>
              HexValue(s[i..i + 4]).Some? && r.value.item[0] as int == HexValue(s[i..i + 4]).value
    ensures r.Err? <==> !IsShortEscape(c)
                        && (c == LowerU ==> i + 4 > |s| || HexValue(s[i..i + 4]).None?)
    ensures r.Err? ==> r.error == (if c == LowerU then BadUnicodeEscape else BadEscape)
  {
    if c == Quote || c == Apostrophe || c == Slash then Ok(Parsed([c], i))
    else if c == LowerB then Ok(Parsed([Backspace], i))
    else if c == LowerF then Ok(Parsed([FormFeed], i))
    else if c == LowerN then Ok(Parsed([LineFeed], i))
    else if c == LowerR then Ok(Parsed([CarriageReturn], i))
    else if c == LowerT then Ok(Parsed([Tab], i))
    else if c == LowerU then
      // `_input.MoveNext(4)` then `(char)int.Parse(..., NumberStyles.HexNumber)`
      if i + 4 <= |s| then
        match HexValue(s[i..i + 4])
        case Some(v) =>
          assert Power16(4) == 0x1_0000;
          Ok(Parsed([(v % 0x1_0000) as CodeUnit], i + 4))
        case None => Err(BadUnicodeEscape)
      else Err(BadUnicodeEscape)
    else Err(BadEscape)
  }

  /**
    * The loop of `DeserializeString` from loop-head index `i`: `acc` is what the
    * builder holds and `escaped` says whether a backslash is pending.
    */
  function StringLoop(s: Text, i: nat, quote: CodeUnit, acc: Text, escaped: bool, p: Platform)
    : (r: Result<Parsed<Text>>)
    requires i <= |s|
    ensures r.Ok? ==> i < r.value.next <= |s|
    ensures r.Err? ==> r.error == UnterminatedString || r.error == BadEscape || r.error == BadUnicodeEscape
    decreases |s| - i, 1
  {
    if i == |s| then Err(UnterminatedString)
    else
      var c := s[i];
      if c == Backslash then
        if escaped then StringLoop(s, i + 1, quote, acc + [Backslash], false, p)
        else StringLoop(s, i + 1, quote, acc, true, p)
      else if escaped then AfterEscape(s, i + 1, c, quote, acc, p)
      else if c == quote then Ok(Parsed(p.validateString(acc), i + 1))
      else StringLoop(s, i + 1, quote, acc + [c], false, p)
  }

  /**
    * The loop of `DeserializeString` once `c` has been read after a backslash,
    * with the cursor at `i`: `AppendCharToBuilder`, then the loop goes on.
    */
  function AfterEscape(s: Text, i: nat, c: CodeUnit, quote: CodeUnit, acc: Text, p: Platform)
    : (r: Result<Parsed<Text>>)
    requires i <= |s|
    ensures r.Ok? ==> i < r.value.next <= |s|
    ensures r.Err? ==> r.error == UnterminatedString || r.error == BadEscape || r.error == BadUnicodeEscape
    decreases |s| - i + 1, 0
  {
    match Unescape(s, i, c)
    case Err(e) => Err(e)
    case Ok(Parsed(t, n)) => StringLoop(s, n, quote, acc + t, false, p)
  }

  /** `DeserializeString`. */
  function ParseString(s: Text, i: nat, p: Platform): (r: Result<Parsed<Text>>)
    requires i <= |s|
    ensures r.Ok? ==> i < r.value.next <= |s|
    ensures r.Err? ==> r.error == StringNotQuoted || r.error == UnterminatedString || r.error == BadEscape
                       || r.error == BadUnicodeEscape
  {
    var (c, j) := Step(s, i);
    match CheckQuoteChar(c)
    case Err(e) => Err(e)
    case Ok(quote) => StringLoop(s, j, quote, [], false, p)
  }

  /** `DeserializeMemberName`: a quoted string or a bare token; None at the end of the text. */
  function MemberName(s: Text, i: nat, p: Platform): (r: Result<Parsed<Option<Text>>>)
    requires i <= |s|
    ensures r.Ok? ==> i <= r.value.next <= |s|
    ensures SkipWhite(s, i).0.None? ==> r == Ok(Parsed(None, |s|))
    ensures SkipWhite(s, i).0.Some? && IsNextElementString(SkipWhite(s, i).0.value) ==>
              var q := ParseString(s, SkipWhite(s, i).1 - 1, p);
              (r.Ok? <==> q.Ok?) && (r.Ok? ==> r.value == Parsed(Some(q.value.item), q.value.next))
              && (r.Err? ==> r.error == q.error)
    ensures SkipWhite(s, i).0.Some? && !IsNextElementString(SkipWhite(s, i).0.value) ==>
              var t := Token(s, SkipWhite(s, i).1 - 1, p);
              r == Ok(Parsed(Some(t.item), t.next))
  {
    var (c, j) := SkipWhite(s, i);
    if c.None? then Ok(Parsed(None, j))
    else
      var k := Back(j);
      if IsNextElementString(c.value) then
        match ParseString(s, k, p)
        case Err(e) => Err(e)
        case Ok(Parsed(t, n)) => Ok(Parsed(Some(t), n))
      else
        var Parsed(t, n) := Token(s, k, p);
        Ok(Parsed(Some(t), n))
  }

  /**
    * The part of the object loop before the value, with the cursor on the
    * code unit `c`: no name when `c` is `}`, otherwise a member name and `:`.
    */
  function MemberHead(s: Text, i: nat, c: CodeUnit, p: Platform): (r: Result<Parsed<Option<Text>>>)
    requires i <= |s|
    ensures r.Ok? ==> i <= r.value.next <= |s|
  {
    if c == RightBrace then Ok(Parsed(None, i))
    else
      match MemberName(s, i, p)
      case Err(e) => Err(e)
      case Ok(Parsed(name, m)) =>
        var (c2, n) := SkipWhite(s, m);
        if c2 != Some(Colon) then Err(InvalidObject) else Ok(Parsed(name, n))
  }

  /** `ThrowIfMaxJsonDeserializerMembersExceeded`. */
  function CheckMemberCount(count: int, cap: int): (r: Outcome)
    ensures r.Pass? <==> count < cap
    ensures r.Fail? ==> r.error == TooManyMembers
  {
    if count >= cap then Fail(TooManyMembers) else Pass
  }

  /** `DeserializeInternal`: one value, one level deeper than `depth`. */
  function ParseValue(s: Text, i: nat, depth: int, cfg: Config): (r: Result<Parsed<Value>>)
    requires i <= |s|
    ensures r.Ok? ==> i <= r.value.next <= |s|
    decreases cfg.depthLimit - depth, 3, 0
  {
    if depth + 1 > cfg.depthLimit then Err(DepthLimitExceeded)
    else
      var (c, j) := SkipWhite(s, i);
      if c.None? then Ok(Parsed(Null, j))
      else
        var k := Back(j);
        if IsNextElementObject(c.value) then ParseObject(s, k, depth + 1, cfg)
        else if IsNextElementArray(c.value) then ParseList(s, k, depth + 1, cfg)
        else if IsNextElementString(c.value) then
          match ParseString(s, k, cfg.platform)
          case Err(e) => Err(e)
          case Ok(Parsed(t, n)) => Ok(Parsed(Str(t), n))
        else ParsePrimitive(s, k, cfg.platform)
  }

  /**
    * What both loops do after a name or a separator: `DeserializeInternal`, then
    * `GetNextNonEmptyChar`. The value, the code unit read after it and the index past that.
    */
  function ValueThenNext(s: Text, i: nat, depth: int, cfg: Config): (r: Result<(Value, Option<CodeUnit>, nat)>)
    requires i <= |s| && depth <= cfg.depthLimit
    ensures r.Ok? ==> i <= r.value.2 <= |s|
    ensures r.Ok? && r.value.1.Some? ==> i < r.value.2
    decreases cfg.depthLimit - depth + 1, 0, 0
  {
    match ParseValue(s, i, depth, cfg)
    case Err(e) => Err(e)
    case Ok(Parsed(v, m)) =>
      var (c, n) := SkipWhite(s, m);
      Ok((v, c, n))
  }

  /** `DeserializeList`. */
  function ParseList(s: Text, i: nat, depth: int, cfg: Config): (r: Result<Parsed<Value>>)
    requires i <= |s| && depth <= cfg.depthLimit
    ensures r.Ok? ==> i <= r.value.next <= |s|
    decreases cfg.depthLimit - depth + 1, 2, 0
  {
    var (c, j) := Step(s, i);
    if c != Some(LeftBracket) then Err(InvalidArrayStart)
    else ListLoop(s, j, depth, [], false, cfg)
  }

  /** The checks after the loop of `DeserializeList`. */
  function ListExit(c: Option<CodeUnit>, j: nat, items: seq<Value>, expectMore: bool): Result<Parsed<Value>> {
    if expectMore then Err(InvalidArrayExtraComma)
    else if c != Some(RightBracket) then Err(InvalidArrayEnd)
    else Ok(Parsed(List(items), j))
  }

  /** The loop of `DeserializeList` from loop-head index `i`, with the elements read so far. */
  function ListLoop(s: Text, i: nat, depth: int, items: seq<Value>, expectMore: bool, cfg: Config)
    : (r: Result<Parsed<Value>>)
    requires i <= |s| && depth <= cfg.depthLimit
    ensures r.Ok? ==> i <= r.value.next <= |s|
    decreases cfg.depthLimit - depth + 1, 1, |s| - i
  {
    var (c, j) := SkipWhite(s, i);
    if c.None? || c.value == RightBracket then ListExit(c, j, items, expectMore)
    else
      match ValueThenNext(s, Back(j), depth, cfg)
      case Err(e) => Err(e)
      case Ok((v, c2, n)) =>
        if c2 == Some(RightBracket) then ListExit(c2, n, items + [v], false)
        else if c2 != Some(Comma) then Err(InvalidArrayExpectComma)
        else ListLoop(s, n, depth, items + [v], true, cfg)
  }

  /** `DeserializeDictionary`. */
  function ParseObject(s: Text, i: nat, depth: int, cfg: Config): (r: Result<Parsed<Value>>)
    requires i <= |s| && depth <= cfg.depthLimit
    ensures r.Ok? ==> i <= r.value.next <= |s|
    decreases cfg.depthLimit - depth + 1, 2, 0
  {
    var (c, j) := Step(s, i);
    if c != Some(LeftBrace) then Err(ExpectedOpenBrace)
    else ObjectLoop(s, j, depth, None, cfg)
  }

  /**
    * The loop of `DeserializeDictionary` from loop-head index `i`; `dict` is
    * None until the first pass through the loop creates the dictionary.
    */
  function ObjectLoop(s: Text, i: nat, depth: int, dict: Option<map<Text, Value>>, cfg: Config)
    : (r: Result<Parsed<Value>>)
    requires i <= |s| && depth <= cfg.depthLimit
    ensures r.Ok? ==> i <= r.value.next <= |s|
    decreases cfg.depthLimit - depth + 1, 1, |s| - i, 2
  {
    var (c, j) := SkipWhite(s, i);
    if c.None? then Err(InvalidObject)
    else if c.value == Colon then Err(InvalidMemberName)
    else ObjectPass(s, Back(j), c.value, depth, dict, cfg)
  }

  /**
    * The rest of one pass of the object loop, with the cursor moved back onto
    * the code unit `c` that the pass read first.
    */
  function ObjectPass(s: Text, k: nat, c: CodeUnit, depth: int, dict: Option<map<Text, Value>>, cfg: Config)
    : (r: Result<Parsed<Value>>)
    requires k <= |s| && depth <= cfg.depthLimit
    ensures r.Ok? ==> k <= r.value.next <= |s|
    decreases cfg.depthLimit - depth + 1, 1, |s| - k, 1
  {
    match MemberHead(s, k, c, cfg.platform)
    case Err(e) => Err(e)
    case Ok(Parsed(name, m)) => MemberRest(s, m, name, depth, dict, cfg)
  }

  /**
    * The pass after its member head: `name` is the member name read (None for
    * the `}` of an empty object) and `m` the index just past the `:`.
    */
  function MemberRest(s: Text, m: nat, name: Option<Text>, depth: int, dict: Option<map<Text, Value>>, cfg: Config)
    : (r: Result<Parsed<Value>>)
    requires m <= |s| && depth <= cfg.depthLimit
    ensures r.Ok? ==> m <= r.value.next <= |s|
    decreases cfg.depthLimit - depth + 1, 1, |s| - m, 0
  {
    if dict.None? && name.None? then
      var (c2, n) := SkipWhite(s, m);
      if c2 != Some(RightBrace) then Err(InvalidObject) else Ok(Parsed(Object(map[]), n))
    else
      var members := if dict.Some? then dict.value else map[];
      if CheckMemberCount(|members|, cfg.memberCap).Fail? then Err(TooManyMembers)
      else
        match ValueThenNext(s, m, depth, cfg)
        case Err(e) => Err(e)
        case Ok((v, c3, n)) =>
          if name.None? then Err(NullMemberName)
          else
            var updated := members[name.value := v];
            if c3 == Some(RightBrace) then Ok(Parsed(Object(updated), n))
            else if c3 != Some(Comma) then Err(InvalidObject)
            else ObjectLoop(s, n, depth, Some(updated), cfg)
  }

  /** `BasicDeserialize`: one value at depth 0, then nothing but white space. */
  function BasicDeserialize(s: Text, cfg: Config): Result<Value> {
    match ParseValue(s, 0, 0, cfg)
    case Err(e) => Err(e)
    case Ok(Parsed(v, j)) => if SkipWhite(s, j).0.Some? then Err(IllegalPrimitive) else Ok(v)
  }

  /** `Deserialize`: the null and length checks, then `BasicDeserialize`. */
  function Deserialize(input: Option<Text>, lengthLimit: int, cfg: Config): Result<Value> {
    if input.None? then Err(NullInput)
    else if |input.value| > lengthLimit then Err(InputTooLong)
    else BasicDeserialize(input.value, cfg)
  }
}
