/**
  * The acceptance and error rules of the deserializer: what white-space-only
  * input and trailing content give, how deep a document may nest, which
  * separator mistakes in a list or an object raise which error, and which
  * quote closes a string. Each rule is stated once for every input and then
  * shown on a small document.
  */
module ErrorProperties {
  import opened Wrappers
  import opened Chars
  import opened Numbers
  import opened JsonValues
  import opened Cursor
  import opened Grammar
  import ObjectProperties
  import RoundTrip

  // Code units of the example documents.
  const One: CodeUnit := 0x31
  const Two: CodeUnit := 0x32
  const LowerA: CodeUnit := 0x61

  /** The whitespace-skipping read finds nothing exactly when only white space remains. */
  lemma {:induction false} SkipWhiteNoneIffWhite(s: Text, i: nat)
    requires i <= |s|
    ensures SkipWhite(s, i).0.None? <==> AllWhite(s, i, |s|)
    decreases |s| - i
  {
    if i < |s| && IsWhiteSpace(s[i]) {
      SkipWhiteNoneIffWhite(s, i + 1);
    }
  }

  /**
    * Input that is empty or white space only deserializes to null, once the
    * recursion limit admits the top-level value.
    */
  lemma WhiteInputIsNull(s: Text, cfg: Config)
    requires AllWhite(s, 0, |s|)
    ensures BasicDeserialize(s, cfg) == if cfg.depthLimit < 1 then Err(DepthLimitExceeded) else Ok(Null)
  {
    SkipWhiteNoneIffWhite(s, 0);
    SkipWhiteNoneIffWhite(s, |s|);
  }

  /** The empty string under the default limits is null. */
  lemma EmptyStringIsNull(p: Platform)
    ensures Deserialize(Some([]), DefaultMaxJsonLength,
                        Config(DefaultRecursionLimit, DefaultMaxJsonDeserializerMembers, p)) == Ok(Null)
  {
    WhiteInputIsNull([], Config(DefaultRecursionLimit, DefaultMaxJsonDeserializerMembers, p));
  }

  /**
    * After the top-level value only white space may follow: the value is the
    * result exactly when the rest is white, and an illegal primitive otherwise.
    */
  lemma TrailingContent(s: Text, cfg: Config, v: Value, j: nat)
    requires ParseValue(s, 0, 0, cfg) == Ok(Parsed(v, j))
    ensures BasicDeserialize(s, cfg) == if AllWhite(s, j, |s|) then Ok(v) else Err(IllegalPrimitive)
  {
    SkipWhiteNoneIffWhite(s, j);
  }

  /** A number followed by a space and another number: `1 2` fails after the first value. */
  lemma TwoNumbersRejected(cfg: Config)
    requires Sound(cfg.platform) && cfg.depthLimit >= 1
    ensures BasicDeserialize([One, Space, Two], cfg) == Err(IllegalPrimitive)
  {
    var s: Text := [One, Space, Two];
    var d := RoundTrip.DInt(1);
    assert RoundTrip.Render(d) == [One];
    assert !IsTokenChar(s[1], cfg.platform);
    RoundTrip.ValueReadsBack(s, 0, d, 0, cfg);
    TrailingContent(s, cfg, Int32(1), 1);
    assert !IsWhiteSpace(s[2]);
  }

  /** A closed list followed by a stray `]`: `[1]]` fails after the list. */
  lemma ExtraCloseBracketRejected(cfg: Config)
    requires Sound(cfg.platform) && cfg.depthLimit >= 2
    ensures BasicDeserialize([LeftBracket, One, RightBracket, RightBracket], cfg) == Err(IllegalPrimitive)
  {
    var s: Text := [LeftBracket, One, RightBracket, RightBracket];
    var d := RoundTrip.DList([RoundTrip.DInt(1)]);
    assert RoundTrip.Render(d) == [LeftBracket, One, RightBracket];
    RoundTrip.DelimiterIsNotToken(RightBracket, cfg.platform);
    assert RoundTrip.Meaning(d) == List([Int32(1)]);
    RoundTrip.ValueReadsBack(s, 0, d, 0, cfg);
    TrailingContent(s, cfg, List([Int32(1)]), 3);
    assert !IsWhiteSpace(s[3]);
  }

  /** A recursion limit below 1 rejects every input before anything is read. */
  lemma LimitBelowOneRejects(s: Text, cfg: Config)
    requires cfg.depthLimit < 1
    ensures BasicDeserialize(s, cfg) == Err(DepthLimitExceeded)
  {
  }

  /** `[1]`: the list takes one level and its element a second, so it needs a limit of at least 2. */
  lemma OneElementListNeedsTwoLevels(cfg: Config)
    requires Sound(cfg.platform)
    ensures BasicDeserialize([LeftBracket, One, RightBracket], cfg)
            == if cfg.depthLimit < 2 then Err(DepthLimitExceeded) else Ok(List([Int32(1)]))
  {
    var s: Text := [LeftBracket, One, RightBracket];
    var d := RoundTrip.DList([RoundTrip.DInt(1)]);
    assert RoundTrip.Render(d) == s;
    if cfg.depthLimit >= 2 {
      assert RoundTrip.Meaning(d) == List([Int32(1)]);
      RoundTrip.RenderThenDeserialize(d, cfg);
    } else if cfg.depthLimit == 1 {
      RoundTrip.ValueDispatch(s, 0, 0, cfg);
      ObjectProperties.SkipWhiteAtNonWhite(s, 1);
      assert ValueThenNext(s, 1, 1, cfg) == Err(DepthLimitExceeded);
    }
  }

  /**
    * The list loop stops at the end of the text or at `]`: after a comma that
    * is an extra comma, at the end of the text without one a missing `]`.
    */
  lemma ListLoopExit(s: Text, i: nat, depth: int, items: seq<Value>, expectMore: bool, cfg: Config)
    requires i <= |s| && depth <= cfg.depthLimit
    requires SkipWhite(s, i).0.None? || SkipWhite(s, i).0 == Some(RightBracket)
    ensures ListLoop(s, i, depth, items, expectMore, cfg)
            == if expectMore then Err(InvalidArrayExtraComma)
               else if SkipWhite(s, i).0.None? then Err(InvalidArrayEnd)
               else Ok(Parsed(List(items), SkipWhite(s, i).1))
  {
  }

  /**
    * After an element the list loop reads a separator: `]` closes the list,
    * `,` asks for another element, anything else (the end of the text too) is
    * a missing comma.
    */
  lemma ListSeparator(s: Text, i: nat, depth: int, items: seq<Value>, expectMore: bool, cfg: Config,
                      v: Value, c: Option<CodeUnit>, n: nat)
    requires i < |s| && !IsWhiteSpace(s[i]) && s[i] != RightBracket && depth <= cfg.depthLimit
    requires ValueThenNext(s, i, depth, cfg) == Ok((v, c, n))
    ensures ListLoop(s, i, depth, items, expectMore, cfg)
            == if c == Some(RightBracket) then Ok(Parsed(List(items + [v]), n))
               else if c != Some(Comma) then Err(InvalidArrayExpectComma)
               else ListLoop(s, n, depth, items + [v], true, cfg)
  {
    ObjectProperties.SkipWhiteAtNonWhite(s, i);
  }

  /** `[1,2,]`: a comma before `]` is an extra comma. */
  lemma ListCommaBeforeClose(cfg: Config)
    requires Sound(cfg.platform) && cfg.depthLimit >= 2
    ensures BasicDeserialize([LeftBracket, One, Comma, Two, Comma, RightBracket], cfg) == Err(InvalidArrayExtraComma)
  {
    var s: Text := [LeftBracket, One, Comma, Two, Comma, RightBracket];
    var room := cfg.depthLimit - 1;
    RoundTrip.ValueDispatch(s, 0, 0, cfg);
    assert RoundTrip.Render(RoundTrip.DInt(1)) == [One];
    assert RoundTrip.Render(RoundTrip.DInt(2)) == [Two];
    RoundTrip.ItemReadsBack(s, 1, RoundTrip.DInt(1), 1, cfg, room, 2);
    ListSeparator(s, 1, 1, [], false, cfg, Int32(1), Some(Comma), 3);
    RoundTrip.ItemReadsBack(s, 3, RoundTrip.DInt(2), 1, cfg, room, 4);
    ListSeparator(s, 3, 1, [Int32(1)], true, cfg, Int32(2), Some(Comma), 5);
    ObjectProperties.SkipWhiteAtNonWhite(s, 5);
    ListLoopExit(s, 5, 1, [Int32(1), Int32(2)], true, cfg);
  }

  /** `[1,`: a comma at the end of the text is an extra comma. */
  lemma ListCommaAtEnd(cfg: Config)
    requires Sound(cfg.platform) && cfg.depthLimit >= 2
    ensures BasicDeserialize([LeftBracket, One, Comma], cfg) == Err(InvalidArrayExtraComma)
  {
    var s: Text := [LeftBracket, One, Comma];
    RoundTrip.ValueDispatch(s, 0, 0, cfg);
    assert RoundTrip.Render(RoundTrip.DInt(1)) == [One];
    RoundTrip.ItemReadsBack(s, 1, RoundTrip.DInt(1), 1, cfg, cfg.depthLimit - 1, 2);
    ListSeparator(s, 1, 1, [], false, cfg, Int32(1), Some(Comma), 3);
    ListLoopExit(s, 3, 1, [Int32(1)], true, cfg);
  }

  /** `[1 2]`: two elements without a comma between them. */
  lemma ListMissingComma(cfg: Config)
    requires Sound(cfg.platform) && cfg.depthLimit >= 2
    ensures BasicDeserialize([LeftBracket, One, Space, Two, RightBracket], cfg) == Err(InvalidArrayExpectComma)
  {
    var s: Text := [LeftBracket, One, Space, Two, RightBracket];
    RoundTrip.ValueDispatch(s, 0, 0, cfg);
    assert RoundTrip.Render(RoundTrip.DInt(1)) == [One];
    assert !IsTokenChar(s[2], cfg.platform);
    RoundTrip.ValueReadsBack(s, 1, RoundTrip.DInt(1), 1, cfg);
    assert SkipWhite(s, 2) == (Some(Two), 4);
    ListSeparator(s, 1, 1, [], false, cfg, Int32(1), Some(Two), 4);
  }

  /** `[1`: the text ends where a separator should follow. */
  lemma ListUnclosed(cfg: Config)
    requires Sound(cfg.platform) && cfg.depthLimit >= 2
    ensures BasicDeserialize([LeftBracket, One], cfg) == Err(InvalidArrayExpectComma)
  {
    var s: Text := [LeftBracket, One];
    RoundTrip.ValueDispatch(s, 0, 0, cfg);
    assert RoundTrip.Render(RoundTrip.DInt(1)) == [One];
    RoundTrip.ValueReadsBack(s, 1, RoundTrip.DInt(1), 1, cfg);
    ListSeparator(s, 1, 1, [], false, cfg, Int32(1), None, 2);
  }

  /** `[` and then only white space: the list is never closed. */
  lemma ListOpenOnly(cfg: Config)
    requires cfg.depthLimit >= 1
    ensures BasicDeserialize([LeftBracket, Space], cfg) == Err(InvalidArrayEnd)
  {
    var s: Text := [LeftBracket, Space];
    RoundTrip.ValueDispatch(s, 0, 0, cfg);
    assert SkipWhite(s, 1) == (None, 2);
    ListLoopExit(s, 1, 1, [], false, cfg);
  }

  /**
    * Where the object loop expects a member: the end of the text is an
    * invalid object and a `:` an invalid member name.
    */
  lemma ObjectLoopStart(s: Text, i: nat, depth: int, dict: Option<map<Text, Value>>, cfg: Config)
    requires i <= |s| && depth <= cfg.depthLimit
    ensures SkipWhite(s, i).0.None? ==> ObjectLoop(s, i, depth, dict, cfg) == Err(InvalidObject)
    ensures SkipWhite(s, i).0 == Some(Colon) ==> ObjectLoop(s, i, depth, dict, cfg) == Err(InvalidMemberName)
  {
  }

  /**
    * The member cap is checked before the value is read: a full dictionary
    * fails with the cap error whatever follows the name.
    */
  lemma MemberCapBeforeValue(s: Text, m: nat, name: Option<Text>, depth: int, dict: Option<map<Text, Value>>,
                             cfg: Config)
    requires m <= |s| && depth <= cfg.depthLimit && !(dict.None? && name.None?)
    requires |RoundTrip.Held(dict)| >= cfg.memberCap
    ensures MemberRest(s, m, name, depth, dict, cfg) == Err(TooManyMembers)
  {
  }

  /**
    * After a member's value the object loop reads a separator: `}` closes the
    * object with the value stored, `,` goes on with it stored, anything else
    * (the end of the text too) is an invalid object.
    */
  lemma MemberSeparator(s: Text, m: nat, key: Text, depth: int, dict: Option<map<Text, Value>>, cfg: Config,
                        v: Value, c: Option<CodeUnit>, n: nat)
    requires m <= |s| && depth <= cfg.depthLimit && |RoundTrip.Held(dict)| < cfg.memberCap
    requires ValueThenNext(s, m, depth, cfg) == Ok((v, c, n))
    ensures MemberRest(s, m, Some(key), depth, dict, cfg)
            == if c == Some(RightBrace) then Ok(Parsed(Object(RoundTrip.Held(dict)[key := v]), n))
               else if c != Some(Comma) then Err(InvalidObject)
               else ObjectLoop(s, n, depth, Some(RoundTrip.Held(dict)[key := v]), cfg)
  {
  }

  /** `{:1}`: a `:` where the name should be. */
  lemma ObjectColonFirst(cfg: Config)
    requires cfg.depthLimit >= 1
    ensures BasicDeserialize([LeftBrace, Colon, One, RightBrace], cfg) == Err(InvalidMemberName)
  {
    var s: Text := [LeftBrace, Colon, One, RightBrace];
    RoundTrip.ValueAtBrace(s, 0, 0, cfg);
    ObjectProperties.SkipWhiteAtNonWhite(s, 1);
    ObjectLoopStart(s, 1, 1, None, cfg);
  }

  /** `{"a" 1}`: a name not followed by `:`. */
  lemma ObjectNameWithoutColon(cfg: Config)
    requires Sound(cfg.platform) && cfg.depthLimit >= 1
    ensures BasicDeserialize([LeftBrace, Quote, LowerA, Quote, Space, One, RightBrace], cfg) == Err(InvalidObject)
  {
    var s: Text := [LeftBrace, Quote, LowerA, Quote, Space, One, RightBrace];
    RoundTrip.ValueAtBrace(s, 0, 0, cfg);
    assert !IsSurrogate(LowerA);
    assert RoundTrip.Quoted([LowerA]) == [Quote, LowerA, Quote] by {
      assert RoundTrip.Escape([LowerA]) == [LowerA] + RoundTrip.Escape([]);
    }
    RoundTrip.QuotedReadsBack(s, 1, [LowerA], cfg.platform);
    ObjectProperties.SkipWhiteAtNonWhite(s, 1);
    assert MemberName(s, 1, cfg.platform) == Ok(Parsed(Some([LowerA]), 4));
    assert SkipWhite(s, 4) == (Some(One), 6);
    assert ObjectLoop(s, 1, 1, None, cfg) == Err(InvalidObject);
  }

  /** `{"a":1`: the text ends before the `}`. */
  lemma ObjectUnclosed(cfg: Config)
    requires Sound(cfg.platform) && cfg.depthLimit >= 2 && cfg.memberCap >= 1
    ensures BasicDeserialize([LeftBrace, Quote, LowerA, Quote, Colon, One], cfg) == Err(InvalidObject)
  {
    var s: Text := [LeftBrace, Quote, LowerA, Quote, Colon, One];
    RoundTrip.ValueAtBrace(s, 0, 0, cfg);
    assert !IsSurrogate(LowerA);
    assert RoundTrip.Quoted([LowerA]) == [Quote, LowerA, Quote] by {
      assert RoundTrip.Escape([LowerA]) == [LowerA] + RoundTrip.Escape([]);
    }
    RoundTrip.QuotedReadsBack(s, 1, [LowerA], cfg.platform);
    RoundTrip.ObjectLoopAtName(s, 1, 1, None, cfg, [LowerA], 4);
    assert RoundTrip.Render(RoundTrip.DInt(1)) == [One];
    RoundTrip.ValueReadsBack(s, 5, RoundTrip.DInt(1), 1, cfg);
    MemberSeparator(s, 5, [LowerA], 1, None, cfg, Int32(1), None, 6);
  }

  /** No backslash and no closing quote among `s[i..j]`. */
  ghost predicate PlainRun(s: Text, i: nat, j: nat, quote: CodeUnit)
    requires i <= j <= |s|
  {
    forall k :: i <= k < j ==> s[k] != Backslash && s[k] != quote
  }

  /**
    * A run without backslash and without the opening quote is taken as it is,
    * the other kind of quote included, and the opening quote after it ends the string.
    */
  lemma {:induction false} PlainRunThenQuote(s: Text, i: nat, j: nat, quote: CodeUnit, acc: Text, p: Platform)
    requires quote == Quote || quote == Apostrophe
    requires i <= j < |s| && PlainRun(s, i, j, quote) && s[j] == quote
    ensures StringLoop(s, i, quote, acc, false, p) == Ok(Parsed(p.validateString(acc + s[i..j]), j + 1))
    decreases j - i
  {
    if i < j {
      PlainRunThenQuote(s, i + 1, j, quote, acc + [s[i]], p);
      assert acc + s[i..j] == acc + [s[i]] + s[i + 1..j];
    } else {
      assert acc + s[i..j] == acc;
    }
  }

  /** Text that ends without a backslash and without the opening quote leaves the string unterminated. */
  lemma {:induction false} PlainRunUnterminated(s: Text, i: nat, quote: CodeUnit, acc: Text, p: Platform)
    requires i <= |s| && PlainRun(s, i, |s|, quote)
    ensures StringLoop(s, i, quote, acc, false, p) == Err(UnterminatedString)
    decreases |s| - i
  {
    if i < |s| {
      PlainRunUnterminated(s, i + 1, quote, acc + [s[i]], p);
    }
  }

  /** Two backslashes stand for one backslash, and the string goes on. */
  lemma DoubleBackslash(s: Text, i: nat, quote: CodeUnit, acc: Text, p: Platform)
    requires i + 1 < |s| && s[i] == Backslash && s[i + 1] == Backslash
    ensures StringLoop(s, i, quote, acc, false, p) == StringLoop(s, i + 2, quote, acc + [Backslash], false, p)
  {
  }

  /** `'"'`: a string opened with `'` keeps a `"` as text and closes at the second `'`. */
  lemma SingleQuotedKeepsDoubleQuote(p: Platform)
    requires Sound(p)
    ensures ParseString([Apostrophe, Quote, Apostrophe], 0, p) == Ok(Parsed([Quote], 3))
  {
    var s: Text := [Apostrophe, Quote, Apostrophe];
    PlainRunThenQuote(s, 1, 2, Apostrophe, [], p);
    assert [] + s[1..2] == [Quote];
    assert !IsSurrogate(Quote);
  }

  /** `"a'`: a string opened with `"` is not closed by `'`. */
  lemma MismatchedQuoteUnterminated(p: Platform)
    ensures ParseString([Quote, LowerA, Apostrophe], 0, p) == Err(UnterminatedString)
  {
    PlainRunUnterminated([Quote, LowerA, Apostrophe], 1, Quote, [], p);
  }
}
