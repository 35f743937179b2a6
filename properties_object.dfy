/**
  * Properties of `DeserializeDictionary`: a `}` where a value should start is
  * an illegal primitive, so a trailing comma in an object is rejected and the
  * dictionary is never asked to store a value under a null name.
  */
module ObjectProperties {
  import opened Wrappers
  import opened Chars
  import opened Numbers
  import opened JsonValues
  import opened Cursor
  import opened Grammar

  /** Reading from a code unit that is not white space returns that code unit. */
  lemma SkipWhiteAtNonWhite(s: Text, k: nat)
    requires k < |s| && !IsWhiteSpace(s[k])
    ensures SkipWhite(s, k) == (Some(s[k]), k + 1)
  {
  }

  /** The empty token is no primitive: not a keyword, not a number. */
  lemma EmptyTokenIsIllegal(p: Platform)
    requires Sound(p)
    ensures Classify([], p) == Err(IllegalPrimitive)
  {
    assert Trim([]) == [];
    assert IntegerValue([]) == None;
  }

  /** The bare token at a `}` is empty, so it is an illegal primitive. */
  lemma PrimitiveAtCloseBrace(s: Text, k: nat, p: Platform)
    requires Sound(p)
    requires k < |s| && s[k] == RightBrace
    ensures ParsePrimitive(s, k, p) == Err(IllegalPrimitive)
  {
    assert !p.isLetterOrDigit(RightBrace);
    assert TokenEnd(s, k, p) == k;
    assert s[k..k] == [];
    EmptyTokenIsIllegal(p);
  }

  /**
    * A value that starts at a `}` is rejected: it is read as a bare token, the
    * token is empty, and the empty token is an illegal primitive.
    */
  lemma CloseBraceIsIllegal(s: Text, k: nat, depth: int, cfg: Config)
    requires Sound(cfg.platform)
    requires k < |s| && s[k] == RightBrace
    ensures ParseValue(s, k, depth, cfg)
            == Err(if depth + 1 > cfg.depthLimit then DepthLimitExceeded else IllegalPrimitive)
  {
    if depth + 1 <= cfg.depthLimit {
      SkipWhiteAtNonWhite(s, k);
      PrimitiveAtCloseBrace(s, k, cfg.platform);
    }
  }

  /**
    * A comma followed by `}` in an object: the member cap is checked first,
    * then the `}` is read as a value and rejected.
    */
  lemma ObjectTrailingComma(s: Text, i: nat, depth: int, dict: map<Text, Value>, cfg: Config)
    requires Sound(cfg.platform)
    requires i <= |s| && depth <= cfg.depthLimit
    requires SkipWhite(s, i).0 == Some(RightBrace)
    ensures ObjectLoop(s, i, depth, Some(dict), cfg)
            == Err(if |dict| >= cfg.memberCap then TooManyMembers
                   else if depth + 1 > cfg.depthLimit then DepthLimitExceeded
                   else IllegalPrimitive)
  {
    var j := SkipWhite(s, i).1;
    assert MemberHead(s, j - 1, RightBrace, cfg.platform) == Ok(Parsed(None, j - 1));
    assert ObjectLoop(s, i, depth, Some(dict), cfg) == MemberRest(s, j - 1, None, depth, Some(dict), cfg);
    CloseBraceIsIllegal(s, j - 1, depth, cfg);
    if |dict| < cfg.memberCap {
      assert ValueThenNext(s, j - 1, depth, cfg) == Err(if depth + 1 > cfg.depthLimit then DepthLimitExceeded else IllegalPrimitive);
    }
  }

  /** The member head at a code unit that is not white space and not `}` carries a name. */
  lemma HeadHasName(s: Text, k: nat, p: Platform)
    requires k < |s| && !IsWhiteSpace(s[k]) && s[k] != RightBrace
    ensures MemberHead(s, k, s[k], p).Ok? ==> MemberHead(s, k, s[k], p).value.item.Some?
  {
    SkipWhiteAtNonWhite(s, k);
  }

  /**
    * No text makes the deserializer store a value under a null member name:
    * the only nameless member head is a `}`, and a value cannot start there.
    */
  lemma {:induction false} ValueNoNullName(s: Text, i: nat, depth: int, cfg: Config)
    requires Sound(cfg.platform) && i <= |s|
    ensures ParseValue(s, i, depth, cfg) != Err(NullMemberName)
    decreases cfg.depthLimit - depth, 3, 0
  {
    if depth + 1 <= cfg.depthLimit {
      var (c, j) := SkipWhite(s, i);
      if c.Some? && IsNextElementObject(c.value) {
        ObjectNoNullName(s, Back(j), depth + 1, cfg);
      } else if c.Some? && IsNextElementArray(c.value) {
        ListNoNullName(s, Back(j), depth + 1, cfg);
      }
    }
  }

  lemma {:induction false} ListNoNullName(s: Text, i: nat, depth: int, cfg: Config)
    requires Sound(cfg.platform) && i <= |s| && depth <= cfg.depthLimit
    ensures ParseList(s, i, depth, cfg) != Err(NullMemberName)
    decreases cfg.depthLimit - depth + 1, 2, 0
  {
    var (c, j) := Step(s, i);
    if c == Some(LeftBracket) {
      ListLoopNoNullName(s, j, depth, [], false, cfg);
    }
  }

  lemma {:induction false} ListLoopNoNullName(s: Text, i: nat, depth: int, items: seq<Value>, expectMore: bool,
                                              cfg: Config)
    requires Sound(cfg.platform) && i <= |s| && depth <= cfg.depthLimit
    ensures ListLoop(s, i, depth, items, expectMore, cfg) != Err(NullMemberName)
    decreases cfg.depthLimit - depth + 1, 1, |s| - i
  {
    var (c, j) := SkipWhite(s, i);
    if c.Some? && c.value != RightBracket {
      ValueNoNullName(s, Back(j), depth, cfg);
      var r := ValueThenNext(s, Back(j), depth, cfg);
      if r.Ok? {
        var (v, c2, n) := r.value;
        if c2 != Some(RightBracket) && c2 == Some(Comma) {
          ListLoopNoNullName(s, n, depth, items + [v], true, cfg);
        }
      }
    }
  }

  lemma {:induction false} ObjectNoNullName(s: Text, i: nat, depth: int, cfg: Config)
    requires Sound(cfg.platform) && i <= |s| && depth <= cfg.depthLimit
    ensures ParseObject(s, i, depth, cfg) != Err(NullMemberName)
    decreases cfg.depthLimit - depth + 1, 2, 0
  {
    var (c, j) := Step(s, i);
    if c == Some(LeftBrace) {
      ObjectLoopNoNullName(s, j, depth, None, cfg);
    }
  }

  lemma {:induction false} ObjectLoopNoNullName(s: Text, i: nat, depth: int, dict: Option<map<Text, Value>>,
                                                cfg: Config)
    requires Sound(cfg.platform) && i <= |s| && depth <= cfg.depthLimit
    ensures ObjectLoop(s, i, depth, dict, cfg) != Err(NullMemberName)
    decreases cfg.depthLimit - depth + 1, 1, |s| - i, 1
  {
    var (c, j) := SkipWhite(s, i);
    if c.Some? && c.value != Colon {
      var k := Back(j);
      var head := MemberHead(s, k, c.value, cfg.platform);
      if head.Ok? {
        if c.value != RightBrace {
          HeadHasName(s, k, cfg.platform);
        }
        assert ObjectLoop(s, i, depth, dict, cfg) == MemberRest(s, head.value.next, head.value.item, depth, dict, cfg);
        MemberRestNoNullName(s, head.value.next, head.value.item, depth, dict, cfg);
      }
    }
  }

  /** A nameless member head stops at a `}`, where no value can start. */
  lemma {:induction false} MemberRestNoNullName(s: Text, m: nat, name: Option<Text>, depth: int,
                                                dict: Option<map<Text, Value>>, cfg: Config)
    requires Sound(cfg.platform) && m <= |s| && depth <= cfg.depthLimit
    requires name.None? ==> m < |s| && s[m] == RightBrace
    ensures MemberRest(s, m, name, depth, dict, cfg) != Err(NullMemberName)
    decreases cfg.depthLimit - depth + 1, 1, |s| - m, 0
  {
    var members := if dict.Some? then dict.value else map[];
    if !(dict.None? && name.None?) && |members| < cfg.memberCap {
      if name.None? {
        CloseBraceIsIllegal(s, m, depth, cfg);
      } else {
        ValueNoNullName(s, m, depth, cfg);
        var r := ValueThenNext(s, m, depth, cfg);
        if r.Ok? {
          var (v, c3, n) := r.value;
          if c3 != Some(RightBrace) && c3 == Some(Comma) {
            ObjectLoopNoNullName(s, n, depth, Some(members[name.value := v]), cfg);
          }
        }
      }
    }
  }

  /** `BasicDeserialize` never fails with a null member name. */
  lemma NoNullMemberName(s: Text, cfg: Config)
    requires Sound(cfg.platform)
    ensures BasicDeserialize(s, cfg) != Err(NullMemberName)
  {
    ValueNoNullName(s, 0, 0, cfg);
  }
}
