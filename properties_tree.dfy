/**
  * What the recursion limit and the member cap guarantee about every value the
  * deserializer returns, and that raising the recursion limit never changes a
  * result other than the depth error.
  */
module TreeProperties {
  import opened Wrappers
  import opened Chars
  import opened JsonValues
  import opened Cursor
  import opened Grammar

  /**
    * `v` nests no deeper than `room` levels: every value takes one level, and
    * the elements of a list and the members of an object take the levels below.
    */
  ghost predicate Fits(v: Value, room: int)
    decreases v
  {
    && room >= 1
    && match v
       case List(items) => forall k :: 0 <= k < |items| ==> Fits(items[k], room - 1)
       case Object(m) => forall key :: key in m ==> Fits(m[key], room - 1)
       case _ => true
  }

  /** Every object in `v` is empty or holds at most `cap` members. */
  ghost predicate WithinCap(v: Value, cap: int)
    decreases v
  {
    match v
    case List(items) => forall k :: 0 <= k < |items| ==> WithinCap(items[k], cap)
    case Object(m) => (m == map[] || |m| <= cap) && forall key :: key in m ==> WithinCap(m[key], cap)
    case _ => true
  }

  /**
    * A value parsed at `depth` fits in the levels the limit leaves, and its
    * objects respect the member cap.
    */
  lemma {:induction false} ValueShape(s: Text, i: nat, depth: int, cfg: Config)
    requires i <= |s|
    ensures ParseValue(s, i, depth, cfg).Ok? ==>
              && Fits(ParseValue(s, i, depth, cfg).value.item, cfg.depthLimit - depth)
              && WithinCap(ParseValue(s, i, depth, cfg).value.item, cfg.memberCap)
    decreases cfg.depthLimit - depth, 3, 0
  {
    if depth + 1 <= cfg.depthLimit {
      var (c, j) := SkipWhite(s, i);
      if c.Some? && IsNextElementObject(c.value) {
        ObjectShape(s, Back(j), depth + 1, cfg);
      } else if c.Some? && IsNextElementArray(c.value) {
        ListShape(s, Back(j), depth + 1, cfg);
      }
    }
  }

  lemma {:induction false} ListShape(s: Text, i: nat, depth: int, cfg: Config)
    requires i <= |s| && depth <= cfg.depthLimit
    ensures ParseList(s, i, depth, cfg).Ok? ==>
              && Fits(ParseList(s, i, depth, cfg).value.item, cfg.depthLimit - depth + 1)
              && WithinCap(ParseList(s, i, depth, cfg).value.item, cfg.memberCap)
    decreases cfg.depthLimit - depth + 1, 2, 0
  {
    var (c, j) := Step(s, i);
    if c == Some(LeftBracket) {
      ListLoopShape(s, j, depth, [], false, cfg);
    }
  }

  lemma {:induction false} ObjectShape(s: Text, i: nat, depth: int, cfg: Config)
    requires i <= |s| && depth <= cfg.depthLimit
    ensures ParseObject(s, i, depth, cfg).Ok? ==>
              && Fits(ParseObject(s, i, depth, cfg).value.item, cfg.depthLimit - depth + 1)
              && WithinCap(ParseObject(s, i, depth, cfg).value.item, cfg.memberCap)
    decreases cfg.depthLimit - depth + 1, 2, 0
  {
    var (c, j) := Step(s, i);
    if c == Some(LeftBrace) {
      ObjectLoopShape(s, j, depth, None, cfg);
    }
  }

  /** The list loop keeps every element within the limit and the cap. */
  lemma {:induction false} ListLoopShape(s: Text, i: nat, depth: int, items: seq<Value>, expectMore: bool, cfg: Config)
    requires i <= |s| && depth <= cfg.depthLimit
    requires forall k :: 0 <= k < |items| ==> Fits(items[k], cfg.depthLimit - depth)
    requires forall k :: 0 <= k < |items| ==> WithinCap(items[k], cfg.memberCap)
    ensures ListLoop(s, i, depth, items, expectMore, cfg).Ok? ==>
              && Fits(ListLoop(s, i, depth, items, expectMore, cfg).value.item, cfg.depthLimit - depth + 1)
              && WithinCap(ListLoop(s, i, depth, items, expectMore, cfg).value.item, cfg.memberCap)
    decreases cfg.depthLimit - depth + 1, 1, |s| - i
  {
    var (c, j) := SkipWhite(s, i);
    if c.Some? && c.value != RightBracket {
      ValueShape(s, Back(j), depth, cfg);
      var r := ValueThenNext(s, Back(j), depth, cfg);
      if r.Ok? {
        var (v, c2, n) := r.value;
        var more := items + [v];
        assert forall k :: 0 <= k < |more| ==> more[k] == if k < |items| then items[k] else v;
        if c2 != Some(RightBracket) && c2 == Some(Comma) {
          ListLoopShape(s, n, depth, more, true, cfg);
        }
      }
    }
  }

  /** The object loop keeps every member within the limit and the count within the cap. */
  lemma {:induction false} ObjectLoopShape(s: Text, i: nat, depth: int, dict: Option<map<Text, Value>>, cfg: Config)
    requires i <= |s| && depth <= cfg.depthLimit
    requires dict.Some? ==> |dict.value| <= cfg.memberCap
    requires dict.Some? ==> forall key :: key in dict.value ==> Fits(dict.value[key], cfg.depthLimit - depth)
    requires dict.Some? ==> forall key :: key in dict.value ==> WithinCap(dict.value[key], cfg.memberCap)
    ensures ObjectLoop(s, i, depth, dict, cfg).Ok? ==>
              && Fits(ObjectLoop(s, i, depth, dict, cfg).value.item, cfg.depthLimit - depth + 1)
              && WithinCap(ObjectLoop(s, i, depth, dict, cfg).value.item, cfg.memberCap)
    decreases cfg.depthLimit - depth + 1, 1, |s| - i, 1
  {
    var (c, j) := SkipWhite(s, i);
    if c.Some? && c.value != Colon {
      var head := MemberHead(s, Back(j), c.value, cfg.platform);
      if head.Ok? {
        assert ObjectLoop(s, i, depth, dict, cfg) == MemberRest(s, head.value.next, head.value.item, depth, dict, cfg);
        MemberRestShape(s, head.value.next, head.value.item, depth, dict, cfg);
      }
    }
  }

  /** One member pass keeps the same bounds. */
  lemma {:induction false} MemberRestShape(s: Text, m: nat, name: Option<Text>, depth: int,
                                           dict: Option<map<Text, Value>>, cfg: Config)
    requires m <= |s| && depth <= cfg.depthLimit
    requires dict.Some? ==> |dict.value| <= cfg.memberCap
    requires dict.Some? ==> forall key :: key in dict.value ==> Fits(dict.value[key], cfg.depthLimit - depth)
    requires dict.Some? ==> forall key :: key in dict.value ==> WithinCap(dict.value[key], cfg.memberCap)
    ensures MemberRest(s, m, name, depth, dict, cfg).Ok? ==>
              && Fits(MemberRest(s, m, name, depth, dict, cfg).value.item, cfg.depthLimit - depth + 1)
              && WithinCap(MemberRest(s, m, name, depth, dict, cfg).value.item, cfg.memberCap)
    decreases cfg.depthLimit - depth + 1, 1, |s| - m, 0
  {
    var members := if dict.Some? then dict.value else map[];
    if !(dict.None? && name.None?) && |members| < cfg.memberCap {
      ValueShape(s, m, depth, cfg);
      var r := ValueThenNext(s, m, depth, cfg);
      if r.Ok? && name.Some? {
        var (v, c3, n) := r.value;
        var updated := members[name.value := v];
        assert |updated| <= |members| + 1;
        if c3 != Some(RightBrace) && c3 == Some(Comma) {
          ObjectLoopShape(s, n, depth, Some(updated), cfg);
        }
      }
    }
  }

  /** Everything `BasicDeserialize` returns nests within the limit and respects the cap. */
  lemma ResultShape(s: Text, cfg: Config)
    ensures BasicDeserialize(s, cfg).Ok? ==>
              Fits(BasicDeserialize(s, cfg).value, cfg.depthLimit)
              && WithinCap(BasicDeserialize(s, cfg).value, cfg.memberCap)
  {
    ValueShape(s, 0, 0, cfg);
  }

  /**
    * Raising the recursion limit changes nothing unless the parse failed on
    * the depth check: same value or same error, and the same end index.
    */
  lemma {:induction false} ValueRaisedLimit(s: Text, i: nat, depth: int, cfg: Config, limit: int)
    requires i <= |s| && limit >= cfg.depthLimit
    requires ParseValue(s, i, depth, cfg) != Err(DepthLimitExceeded)
    ensures ParseValue(s, i, depth, cfg.(depthLimit := limit)) == ParseValue(s, i, depth, cfg)
    decreases cfg.depthLimit - depth, 3, 0
  {
    var (c, j) := SkipWhite(s, i);
    if c.Some? && IsNextElementObject(c.value) {
      ObjectRaisedLimit(s, Back(j), depth + 1, cfg, limit);
    } else if c.Some? && IsNextElementArray(c.value) {
      ListRaisedLimit(s, Back(j), depth + 1, cfg, limit);
    }
  }

  lemma {:induction false} ListRaisedLimit(s: Text, i: nat, depth: int, cfg: Config, limit: int)
    requires i <= |s| && depth <= cfg.depthLimit <= limit
    requires ParseList(s, i, depth, cfg) != Err(DepthLimitExceeded)
    ensures ParseList(s, i, depth, cfg.(depthLimit := limit)) == ParseList(s, i, depth, cfg)
    decreases cfg.depthLimit - depth + 1, 2, 0
  {
    var (c, j) := Step(s, i);
    if c == Some(LeftBracket) {
      ListLoopRaisedLimit(s, j, depth, [], false, cfg, limit);
    }
  }

  lemma {:induction false} ObjectRaisedLimit(s: Text, i: nat, depth: int, cfg: Config, limit: int)
    requires i <= |s| && depth <= cfg.depthLimit <= limit
    requires ParseObject(s, i, depth, cfg) != Err(DepthLimitExceeded)
    ensures ParseObject(s, i, depth, cfg.(depthLimit := limit)) == ParseObject(s, i, depth, cfg)
    decreases cfg.depthLimit - depth + 1, 2, 0
  {
    var (c, j) := Step(s, i);
    if c == Some(LeftBrace) {
      ObjectLoopRaisedLimit(s, j, depth, None, cfg, limit);
    }
  }

  lemma {:induction false} ListLoopRaisedLimit(s: Text, i: nat, depth: int, items: seq<Value>, expectMore: bool,
                                               cfg: Config, limit: int)
    requires i <= |s| && depth <= cfg.depthLimit <= limit
    requires ListLoop(s, i, depth, items, expectMore, cfg) != Err(DepthLimitExceeded)
    ensures ListLoop(s, i, depth, items, expectMore, cfg.(depthLimit := limit))
            == ListLoop(s, i, depth, items, expectMore, cfg)
    decreases cfg.depthLimit - depth + 1, 1, |s| - i
  {
    var (c, j) := SkipWhite(s, i);
    if c.Some? && c.value != RightBracket {
      ValueRaisedLimit(s, Back(j), depth, cfg, limit);
      var r := ValueThenNext(s, Back(j), depth, cfg);
      if r.Ok? {
        var (v, c2, n) := r.value;
        if c2 != Some(RightBracket) && c2 == Some(Comma) {
          ListLoopRaisedLimit(s, n, depth, items + [v], true, cfg, limit);
        }
      }
    }
  }

  lemma {:induction false} ObjectLoopRaisedLimit(s: Text, i: nat, depth: int, dict: Option<map<Text, Value>>,
                                                 cfg: Config, limit: int)
    requires i <= |s| && depth <= cfg.depthLimit <= limit
    requires ObjectLoop(s, i, depth, dict, cfg) != Err(DepthLimitExceeded)
    ensures ObjectLoop(s, i, depth, dict, cfg.(depthLimit := limit)) == ObjectLoop(s, i, depth, dict, cfg)
    decreases cfg.depthLimit - depth + 1, 1, |s| - i, 1
  {
    var (c, j) := SkipWhite(s, i);
    if c.Some? && c.value != Colon {
      var head := MemberHead(s, Back(j), c.value, cfg.platform);
      if head.Ok? {
        var cfg' := cfg.(depthLimit := limit);
        assert ObjectLoop(s, i, depth, dict, cfg) == MemberRest(s, head.value.next, head.value.item, depth, dict, cfg);
        assert ObjectLoop(s, i, depth, dict, cfg') == MemberRest(s, head.value.next, head.value.item, depth, dict, cfg');
        MemberRestRaisedLimit(s, head.value.next, head.value.item, depth, dict, cfg, limit);
      }
    }
  }

  lemma {:induction false} MemberRestRaisedLimit(s: Text, m: nat, name: Option<Text>, depth: int,
                                                 dict: Option<map<Text, Value>>, cfg: Config, limit: int)
    requires m <= |s| && depth <= cfg.depthLimit <= limit
    requires MemberRest(s, m, name, depth, dict, cfg) != Err(DepthLimitExceeded)
    ensures MemberRest(s, m, name, depth, dict, cfg.(depthLimit := limit)) == MemberRest(s, m, name, depth, dict, cfg)
    decreases cfg.depthLimit - depth + 1, 1, |s| - m, 0
  {
    var members := if dict.Some? then dict.value else map[];
    if !(dict.None? && name.None?) && |members| < cfg.memberCap {
      ValueRaisedLimit(s, m, depth, cfg, limit);
      var r := ValueThenNext(s, m, depth, cfg);
      if r.Ok? && name.Some? {
        var (v, c3, n) := r.value;
        if c3 != Some(RightBrace) && c3 == Some(Comma) {
          ObjectLoopRaisedLimit(s, n, depth, Some(members[name.value := v]), cfg, limit);
        }
      }
    }
  }


  /**
    * A document accepted under one recursion limit is accepted, as the same
    * value, under every higher limit.
    */
  lemma RaisedLimitSameResult(s: Text, cfg: Config, limit: int)
    requires limit >= cfg.depthLimit
    requires BasicDeserialize(s, cfg).Ok?
    ensures BasicDeserialize(s, cfg.(depthLimit := limit)) == BasicDeserialize(s, cfg)
  {
    ValueRaisedLimit(s, 0, 0, cfg, limit);
  }
}
