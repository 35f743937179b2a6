/**
  * What the string and member-name readers give back: the escape table of
  * `AppendCharToBuilder` on whole strings, the hexadecimal value of a `\u`
  * escape (with the white space and trailing U+0000 code units the number
  * parser accepts), and the three forms of a member name — double-quoted,
  * single-quoted and bare.
  */
module StringProperties {
  import opened Wrappers
  import opened Chars
  import opened Numbers
  import opened JsonValues
  import opened Cursor
  import opened Grammar
  import ObjectProperties
  import ErrorProperties
  import RoundTrip

  // Code units of the example documents.
  const Zero: CodeUnit := 0x30
  const One: CodeUnit := 0x31
  const Four: CodeUnit := 0x34
  const UpperA: CodeUnit := 0x41
  const LowerA: CodeUnit := 0x61
  const Nul: CodeUnit := 0x00

  /** Trailing U+0000 code units change nothing the number parser reads. */
  lemma TrimDropsTrailingNul(t: Text)
    ensures Trim(t + [Nul]) == Trim(t)
  {
    var u := t + [Nul];
    assert BackNul(u, |u|) == BackNul(u, |t|);
    BackNulPrefix(t, u, |t|);
    BackNumberWhitePrefix(t, u, BackNul(t, |t|));
    SkipNumberWhitePrefix(t, u, 0);
    var a := SkipNumberWhite(t, 0);
    var b := BackNumberWhite(t, BackNul(t, |t|));
    if a < b {
      assert u[a..b] == t[a..b];
    }
  }

  lemma {:induction false} BackNulPrefix(t: Text, u: Text, k: nat)
    requires k <= |t| <= |u| && u[..|t|] == t
    ensures BackNul(u, k) == BackNul(t, k)
  {
    if k > 0 {
      assert u[k - 1] == t[k - 1];
      BackNulPrefix(t, u, k - 1);
    }
  }

  lemma {:induction false} BackNumberWhitePrefix(t: Text, u: Text, k: nat)
    requires k <= |t| <= |u| && u[..|t|] == t
    ensures BackNumberWhite(u, k) == BackNumberWhite(t, k)
  {
    if k > 0 {
      assert u[k - 1] == t[k - 1];
      BackNumberWhitePrefix(t, u, k - 1);
    }
  }

  /** Skipping leading white space agrees on `t` and `t` followed by U+0000. */
  lemma {:induction false} SkipNumberWhitePrefix(t: Text, u: Text, k: nat)
    requires k <= |t| && u == t + [Nul]
    ensures SkipNumberWhite(u, k) == SkipNumberWhite(t, k)
    decreases |t| - k
  {
    if k < |t| {
      assert u[k] == t[k];
      if IsNumberWhite(t[k]) {
        SkipNumberWhitePrefix(t, u, k + 1);
      }
    } else {
      assert u[k] == Nul;
    }
  }

  /** `0041`, `41` padded with two U+0000 code units and ` 41 ` all stand for `A`. */
  lemma HexEscapeDigits()
    ensures HexValue([Zero, Zero, Four, One]) == Some(0x41)
    ensures HexValue([Four, One, Nul, Nul]) == Some(0x41)
    ensures HexValue([Space, Four, One, Space]) == Some(0x41)
    ensures HexValue([Four, Nul, One, Nul]) == None
  {
    var v: Text := [Four, One];
    assert SkipNumberWhite(v, 0) == 0 && BackNul(v, 2) == 2 && BackNumberWhite(v, 2) == 2;
    assert Trim(v) == v[0..2] == v;
    assert v[..1] == [Four] && HexDigitsValue([Four]) == 4;
    assert AllHexDigits(v) && HexDigitsValue(v) == 0x41;

    var t: Text := [Zero, Zero, Four, One];
    assert SkipNumberWhite(t, 0) == 0 && BackNul(t, 4) == 4 && BackNumberWhite(t, 4) == 4;
    assert Trim(t) == t[0..4] == t;
    assert [Zero, Zero][..1] == [Zero] && HexDigitsValue([Zero]) == 0;
    assert [Zero, Zero, Four][..2] == [Zero, Zero] && HexDigitsValue([Zero, Zero]) == 0;
    assert t[..3] == [Zero, Zero, Four] && HexDigitsValue([Zero, Zero, Four]) == 4;
    assert AllHexDigits(t) && HexDigitsValue(t) == 0x41;

    TrimDropsTrailingNul(v);
    TrimDropsTrailingNul(v + [Nul]);
    assert v + [Nul] + [Nul] == [Four, One, Nul, Nul];

    var w: Text := [Space, Four, One, Space];
    assert SkipNumberWhite(w, 0) == 1 && BackNul(w, 4) == 4 && BackNumberWhite(w, 4) == 3;
    assert Trim(w) == w[1..3] == v;

    var x: Text := [Four, Nul, One, Nul];
    assert SkipNumberWhite(x, 0) == 0 && BackNul(x, 4) == 3 && BackNumberWhite(x, 3) == 3;
    assert Trim(x) == x[0..3] && !IsHexDigit(Trim(x)[1]);
  }

  /** `"\n\t"` reads as a line feed and a tab. */
  lemma ControlEscapes(p: Platform)
    requires Sound(p)
    ensures ParseString([Quote, Backslash, LowerN, Backslash, LowerT, Quote], 0, p)
            == Ok(Parsed([LineFeed, Tab], 6))
  {
    var s: Text := [Quote, Backslash, LowerN, Backslash, LowerT, Quote];
    assert [LineFeed] + [Tab] == [LineFeed, Tab] && [] + [LineFeed] == [LineFeed];
    assert Unescape(s, 5, LowerT) == Ok(Parsed([Tab], 5)) && Unescape(s, 3, LowerN) == Ok(Parsed([LineFeed], 3));
    assert StringLoop(s, 5, Quote, [LineFeed, Tab], false, p) == Ok(Parsed(p.validateString([LineFeed, Tab]), 6));
    assert AfterEscape(s, 5, LowerT, Quote, [LineFeed], p) == StringLoop(s, 5, Quote, [LineFeed, Tab], false, p);
    assert StringLoop(s, 3, Quote, [LineFeed], false, p) == AfterEscape(s, 5, LowerT, Quote, [LineFeed], p);
    assert AfterEscape(s, 3, LowerN, Quote, [], p) == StringLoop(s, 3, Quote, [LineFeed], false, p);
    assert StringLoop(s, 1, Quote, [], false, p) == AfterEscape(s, 3, LowerN, Quote, [], p);
    assert !HasSurrogate([LineFeed, Tab]);
  }

  /** `"\u0041"` reads as the single code unit `A`. */
  lemma UnicodeEscape(p: Platform)
    requires Sound(p)
    ensures ParseString([Quote, Backslash, LowerU, Zero, Zero, Four, One, Quote], 0, p)
            == Ok(Parsed([UpperA], 8))
  {
    var s: Text := [Quote, Backslash, LowerU, Zero, Zero, Four, One, Quote];
    HexEscapeDigits();
    assert s[3..7] == [Zero, Zero, Four, One];
    assert Unescape(s, 3, LowerU) == Ok(Parsed([UpperA], 7));
    assert [] + [UpperA] == [UpperA];
    assert StringLoop(s, 7, Quote, [UpperA], false, p) == Ok(Parsed(p.validateString([UpperA]), 8));
    assert AfterEscape(s, 3, LowerU, Quote, [], p) == StringLoop(s, 7, Quote, [UpperA], false, p);
    assert StringLoop(s, 1, Quote, [], false, p) == AfterEscape(s, 3, LowerU, Quote, [], p);
    assert !HasSurrogate([UpperA]) && p.validateString([UpperA]) == [UpperA];
    assert Step(s, 0) == (Some(Quote), 1) && CheckQuoteChar(Some(Quote)) == Ok(Quote);
  }

  /**
    * A bare member name: at a code unit that is neither white space nor a
    * quote, the name is the maximal run of token code units.
    */
  lemma BareNameReadsBack(s: Text, i: nat, e: nat, p: Platform)
    requires i < e <= |s| && !IsWhiteSpace(s[i]) && s[i] != Quote && s[i] != Apostrophe
    requires forall k :: i <= k < e ==> IsTokenChar(s[k], p)
    requires e == |s| || !IsTokenChar(s[e], p)
    ensures MemberName(s, i, p) == Ok(Parsed(Some(s[i..e]), e))
  {
    ObjectProperties.SkipWhiteAtNonWhite(s, i);
    RoundTrip.TokenEndAt(s, i, e, p);
  }

  /**
    * A single-quoted member name: the code units between the apostrophes,
    * when none is a backslash or an apostrophe, validated.
    */
  lemma SingleQuotedNameReadsBack(s: Text, i: nat, j: nat, p: Platform)
    requires i < j < |s| && s[i] == Apostrophe && s[j] == Apostrophe
    requires ErrorProperties.PlainRun(s, i + 1, j, Apostrophe)
    ensures MemberName(s, i, p) == Ok(Parsed(Some(p.validateString(s[i + 1..j])), j + 1))
  {
    ObjectProperties.SkipWhiteAtNonWhite(s, i);
    ErrorProperties.PlainRunThenQuote(s, i + 1, j, Apostrophe, [], p);
    assert [] + s[i + 1..j] == s[i + 1..j];
  }

  /**
    * After a member name of any form and its `:`, the pass of the dictionary
    * loop goes on with the member's value under that name.
    */
  lemma ObjectLoopAtMemberName(s: Text, i: nat, depth: int, dict: Option<map<Text, Value>>, cfg: Config,
                               key: Text, a: nat)
    requires i < |s| && !IsWhiteSpace(s[i]) && s[i] != Colon && s[i] != RightBrace && depth <= cfg.depthLimit
    requires MemberName(s, i, cfg.platform) == Ok(Parsed(Some(key), a))
    requires a < |s| && s[a] == Colon
    ensures ObjectLoop(s, i, depth, dict, cfg) == MemberRest(s, a + 1, Some(key), depth, dict, cfg)
  {
    ObjectProperties.SkipWhiteAtNonWhite(s, i);
    ObjectProperties.SkipWhiteAtNonWhite(s, a);
    assert MemberHead(s, i, s[i], cfg.platform) == Ok(Parsed(Some(key), a + 1));
  }

  /** `{'a':"b"}` is the dictionary mapping `a` to the string `b`. */
  lemma SingleQuotedName(cfg: Config)
    requires Sound(cfg.platform) && cfg.depthLimit >= 2 && cfg.memberCap >= 1
    ensures BasicDeserialize([LeftBrace, Apostrophe, LowerA, Apostrophe, Colon, Quote, LowerB, Quote, RightBrace], cfg)
            == Ok(Object(map[[LowerA] := Str([LowerB])]))
  {
    var s: Text := [LeftBrace, Apostrophe, LowerA, Apostrophe, Colon, Quote, LowerB, Quote, RightBrace];
    RoundTrip.ValueAtBrace(s, 0, 0, cfg);
    QuotedNameA(s, cfg.platform);
    ObjectLoopAtMemberName(s, 1, 1, None, cfg, [LowerA], 4);
    StringValueThenClose(s, cfg);
    ErrorProperties.MemberSeparator(s, 5, [LowerA], 1, None, cfg, Str([LowerB]), Some(RightBrace), 9);
    assert SkipWhite(s, 9) == (None, 9);
  }

  /** The name `'a'` of `{'a':"b"}`. */
  lemma QuotedNameA(s: Text, p: Platform)
    requires Sound(p)
    requires s == [LeftBrace, Apostrophe, LowerA, Apostrophe, Colon, Quote, LowerB, Quote, RightBrace]
    ensures MemberName(s, 1, p) == Ok(Parsed(Some([LowerA]), 4))
  {
    SingleQuotedNameReadsBack(s, 1, 3, p);
    assert s[2..3] == [LowerA] && !HasSurrogate([LowerA]);
    assert p.validateString([LowerA]) == [LowerA];
  }

  /** The value `"b"` of `{'a':"b"}` and the `}` after it. */
  lemma StringValueThenClose(s: Text, cfg: Config)
    requires Sound(cfg.platform) && cfg.depthLimit >= 2 && cfg.memberCap >= 1
    requires s == [LeftBrace, Apostrophe, LowerA, Apostrophe, Colon, Quote, LowerB, Quote, RightBrace]
    ensures ValueThenNext(s, 5, 1, cfg) == Ok((Str([LowerB]), Some(RightBrace), 9))
  {
    var d := RoundTrip.DStr([LowerB]);
    assert RoundTrip.Render(d) == [Quote, LowerB, Quote] by {
      assert RoundTrip.Escape([LowerB]) == [LowerB] + RoundTrip.Escape([]);
    }
    assert RoundTrip.Meaning(d) == Str([LowerB]);
    RoundTrip.ValueReadsBack(s, 5, d, 1, cfg);
    ObjectProperties.SkipWhiteAtNonWhite(s, 8);
  }

  /** `{a:1}` is the dictionary mapping `a` to the `int` 1. */
  lemma BareName(cfg: Config)
    requires Sound(cfg.platform) && cfg.depthLimit >= 2 && cfg.memberCap >= 1
    ensures BasicDeserialize([LeftBrace, LowerA, Colon, One, RightBrace], cfg)
            == Ok(Object(map[[LowerA] := Int32(1)]))
  {
    var s: Text := [LeftBrace, LowerA, Colon, One, RightBrace];
    RoundTrip.ValueAtBrace(s, 0, 0, cfg);
    assert IsTokenChar(LowerA, cfg.platform) && !IsTokenChar(Colon, cfg.platform);
    BareNameReadsBack(s, 1, 2, cfg.platform);
    assert s[1..2] == [LowerA];
    ObjectLoopAtMemberName(s, 1, 1, None, cfg, [LowerA], 2);
    IntValueThenClose(s, cfg);
    ErrorProperties.MemberSeparator(s, 3, [LowerA], 1, None, cfg, Int32(1), Some(RightBrace), 5);
    assert SkipWhite(s, 5) == (None, 5);
  }

  /** The value `1` of `{a:1}` and the `}` after it. */
  lemma IntValueThenClose(s: Text, cfg: Config)
    requires Sound(cfg.platform) && cfg.depthLimit >= 2 && cfg.memberCap >= 1
    requires s == [LeftBrace, LowerA, Colon, One, RightBrace]
    ensures ValueThenNext(s, 3, 1, cfg) == Ok((Int32(1), Some(RightBrace), 5))
  {
    assert RoundTrip.Render(RoundTrip.DInt(1)) == [One];
    RoundTrip.DelimiterIsNotToken(RightBrace, cfg.platform);
    RoundTrip.ValueReadsBack(s, 3, RoundTrip.DInt(1), 1, cfg);
    ObjectProperties.SkipWhiteAtNonWhite(s, 4);
  }
}
