/**
  * The deserializer (`JsonObjectDeserializer`, and its copy
  * `JavaScriptObjectDeserializer`): recursive descent over a shared cursor
  * field. Every method is proved to return what the matching function of
  * module Grammar returns and to leave the cursor where that function says.
  */
module Deserializer {
  import opened Wrappers
  import opened Chars
  import opened Numbers
  import opened JsonValues
  import opened Cursor
  import opened Grammar

  /** A method's result and final cursor index agree with a production's. */
  ghost predicate Tracks<T>(r: Result<T>, index: nat, spec: Result<Parsed<T>>) {
    match spec
    case Ok(p) => r == Ok(p.item) && index == p.next
    case Err(e) => r == Err(e)
  }

  class ObjectDeserializer {
    const lengthLimit: int
    const config: Config
    var input: JsonString?

    /** `JsonObjectDeserializer(lengthLimit, depthLimit)`, with the member cap as a parameter. */
    constructor (lengthLimit: int, depthLimit: int, memberCap: int, platform: Platform)
      ensures this.lengthLimit == lengthLimit
      ensures config == Config(depthLimit, memberCap, platform)
      ensures input == null
    {
      this.lengthLimit := lengthLimit;
      config := Config(depthLimit, memberCap, platform);
      input := null;
    }

    /** `JsonObjectDeserializer()`: the default limits. */
    constructor Default(platform: Platform)
      ensures lengthLimit == DefaultMaxJsonLength
      ensures config == Config(DefaultRecursionLimit, DefaultMaxJsonDeserializerMembers, platform)
      ensures input == null
    {
      lengthLimit := DefaultMaxJsonLength;
      config := Config(DefaultRecursionLimit, DefaultMaxJsonDeserializerMembers, platform);
      input := null;
    }

    /**
      * The private constructor of `JavaScriptObjectDeserializer`: a cursor over
      * the input at once. That copy has no length limit at all: the field is
      * only filled because the shared class has one, with the input's own
      * length, and `BasicDeserialize` never reads it.
      */
    constructor ForInput(text: Text, depthLimit: int, memberCap: int, platform: Platform)
      ensures lengthLimit == |text|
      ensures config == Config(depthLimit, memberCap, platform)
      ensures input != null && fresh(input) && input.content == text && input.index == 0 && input.Valid()
    {
      lengthLimit := |text|;
      config := Config(depthLimit, memberCap, platform);
      input := new JsonString(text);
    }

    /** `JsonObjectDeserializer.Deserialize`: rejects null and over-long input, then parses a fresh cursor. */
    method Deserialize(text: Option<Text>) returns (r: Result<Value>)
      modifies this
      ensures r == Grammar.Deserialize(text, lengthLimit, config)
    {
      if text.None? {
        return Err(NullInput);
      }
      if |text.value| > lengthLimit {
        return Err(InputTooLong);
      }
      input := new JsonString(text.value);
      var result := DeserializeInternal(0);
      if result.Err? {
        return result;
      }
      var c := input.GetNextNonEmptyChar();
      if c != None {
        return Err(IllegalPrimitive);
      }
      return result;
    }

    /** `JavaScriptObjectDeserializer.BasicDeserialize`: parses a fresh cursor, with no length check. */
    static method BasicDeserialize(text: Text, depthLimit: int, memberCap: int, platform: Platform)
      returns (r: Result<Value>)
      ensures r == Grammar.BasicDeserialize(text, Config(depthLimit, memberCap, platform))
    {
      var jsod := new ObjectDeserializer.ForInput(text, depthLimit, memberCap, platform);
      var result := jsod.DeserializeInternal(0);
      if result.Err? {
        return result;
      }
      var c := jsod.input.GetNextNonEmptyChar();
      if c != None {
        return Err(IllegalPrimitive);
      }
      return result;
    }

    method DeserializeInternal(depth: int) returns (r: Result<Value>)
      requires input != null && input.Valid()
      modifies input
      ensures input.Valid()
      ensures Tracks(r, input.index, ParseValue(input.content, old(input.index), depth, config))
      decreases config.depthLimit - depth, 3, 0
    {
      var level := depth + 1;
      if level > config.depthLimit {
        return Err(DepthLimitExceeded);
      }
      var nextChar := input.GetNextNonEmptyChar();
      if nextChar == None {
        return Ok(Null);
      }
      input.MovePrev();
      if IsNextElementObject(nextChar.value) {
        r := DeserializeDictionary(level);
        return;
      }
      if IsNextElementArray(nextChar.value) {
        r := DeserializeList(level);
        return;
      }
      if IsNextElementString(nextChar.value) {
        var t := DeserializeString();
        r := if t.Ok? then Ok(Str(t.value)) else Err(t.error);
        return;
      }
      r := DeserializePrimitiveObject();
    }

    method DeserializeList(depth: int) returns (r: Result<Value>)
      requires input != null && input.Valid() && depth <= config.depthLimit
      modifies input
      ensures input.Valid()
      ensures Tracks(r, input.index, ParseList(input.content, old(input.index), depth, config))
      decreases config.depthLimit - depth + 1, 2, 0
    {
      var list: seq<Value> := [];
      var c := input.MoveNext();
      if c != Some(LeftBracket) {
        return Err(InvalidArrayStart);
      }
      var expectMore := false;
      while true
        invariant input.Valid()
        invariant ListLoop(input.content, input.index, depth, list, expectMore, config)
                  == ParseList(input.content, old(input.index), depth, config)
        decreases |input.content| - input.index
      {
        c := input.GetNextNonEmptyChar();
        if c == None || c.value == RightBracket {
          break;
        }
        input.MovePrev();
        var o := DeserializeInternal(depth);
        if o.Err? {
          return o;
        }
        list := list + [o.value];
        expectMore := false;
        // we might be done here
        c := input.GetNextNonEmptyChar();
        if c == Some(RightBracket) {
          break;
        }
        expectMore := true;
        if c != Some(Comma) {
          return Err(InvalidArrayExpectComma);
        }
      }
      if expectMore {
        return Err(InvalidArrayExtraComma);
      }
      if c != Some(RightBracket) {
        return Err(InvalidArrayEnd);
      }
      return Ok(List(list));
    }

    method DeserializeDictionary(depth: int) returns (r: Result<Value>)
      requires input != null && input.Valid() && depth <= config.depthLimit
      modifies input
      ensures input.Valid()
      ensures Tracks(r, input.index, ParseObject(input.content, old(input.index), depth, config))
      decreases config.depthLimit - depth + 1, 2, 0
    {
      ghost var s := input.content;
      ghost var target := ParseObject(s, input.index, depth, config);
      var dictionary: Option<map<Text, Value>> := None;
      var c := input.MoveNext();
      if c != Some(LeftBrace) {
        return Err(ExpectedOpenBrace);
      }
      while true
        invariant input.Valid()
        invariant ObjectLoop(s, input.index, depth, dictionary, config)
                  == target
        decreases |input.content| - input.index
      {
        c := input.GetNextNonEmptyChar();
        if c == None {
          assert target == Err(InvalidObject);
          break;
        }
        input.MovePrev();
        if c.value == Colon {
          return Err(InvalidMemberName);
        }
        ghost var k, first := input.index, c.value;
        assert ObjectPass(s, k, first, depth, dictionary, config)
               == target;
        var memberName: Option<Text> := None;
        if c.value != RightBrace {
          var name := DeserializeMemberName();
          if name.Err? {
            return Err(name.error);
          }
          memberName := name.value;
          c := input.GetNextNonEmptyChar();
          if c != Some(Colon) {
            return Err(InvalidObject);
          }
        }
        assert MemberHead(s, k, first, config.platform) == Ok(Parsed(memberName, input.index));
        ghost var m := input.index;
        assert MemberRest(s, m, memberName, depth, dictionary, config) == target;
        if dictionary == None {
          dictionary := Some(map[]);
          // the object contains nothing: move the cursor past the '}'
          if memberName == None {
            c := input.GetNextNonEmptyChar();
            assert target
                   == if c == Some(RightBrace) then Ok(Parsed(Object(map[]), input.index)) else Err(InvalidObject);
            break;
          }
        }
        var check := CheckMemberCount(|dictionary.value|, config.memberCap);
        if check.Fail? {
          return Err(check.error);
        }
        var propVal := DeserializeInternal(depth);
        if propVal.Err? {
          assert ValueThenNext(s, m, depth, config) == Err(propVal.error);
          return propVal;
        }
        if memberName == None {
          assert ValueThenNext(s, m, depth, config).Ok?;
          return Err(NullMemberName);
        }
        dictionary := Some(dictionary.value[memberName.value := propVal.value]);
        c := input.GetNextNonEmptyChar();
        assert ValueThenNext(s, m, depth, config) == Ok((propVal.value, c, input.index));
        if c == Some(RightBrace) {
          assert target
                 == Ok(Parsed(Object(dictionary.value), input.index));
          break;
        }
        if c != Some(Comma) {
          return Err(InvalidObject);
        }
      }
      if c != Some(RightBrace) {
        return Err(InvalidObject);
      }
      return Ok(Object(dictionary.value));
    }

    method DeserializeMemberName() returns (r: Result<Option<Text>>)
      requires input != null && input.Valid()
      modifies input
      ensures input.Valid()
      ensures Tracks(r, input.index, MemberName(input.content, old(input.index), config.platform))
    {
      var c := input.GetNextNonEmptyChar();
      if c == None {
        return Ok(None);
      }
      input.MovePrev();
      if IsNextElementString(c.value) {
        var t := DeserializeString();
        r := if t.Ok? then Ok(Some(t.value)) else Err(t.error);
        return;
      }
      var token := DeserializePrimitiveToken();
      return Ok(Some(token));
    }

    method DeserializePrimitiveObject() returns (r: Result<Value>)
      requires input != null && input.Valid()
      modifies input
      ensures input.Valid()
      ensures Tracks(r, input.index, ParsePrimitive(input.content, old(input.index), config.platform))
    {
      var token := DeserializePrimitiveToken();
      r := Classify(token, config.platform);
    }

    method DeserializePrimitiveToken() returns (t: Text)
      requires input != null && input.Valid()
      modifies input
      ensures input.Valid()
      ensures Token(input.content, old(input.index), config.platform) == Parsed(t, input.index)
    {
      var sb: Text := [];
      while true
        invariant input.Valid() && old(input.index) <= input.index
        invariant sb == input.content[old(input.index)..input.index]
        invariant TokenEnd(input.content, input.index, config.platform)
                  == TokenEnd(input.content, old(input.index), config.platform)
        decreases |input.content| - input.index
      {
        var c := input.MoveNext();
        if c == None {
          break;
        }
        if IsTokenChar(c.value, config.platform) {
          sb := sb + [c.value];
        } else {
          input.MovePrev();
          break;
        }
      }
      return sb;
    }

    method DeserializeString() returns (r: Result<Text>)
      requires input != null && input.Valid()
      modifies input
      ensures input.Valid()
      ensures Tracks(r, input.index, ParseString(input.content, old(input.index), config.platform))
    {
      ghost var s, p := input.content, config.platform;
      ghost var target := ParseString(s, input.index, p);
      var sb: Text := [];
      var escapedChar := false;
      var c := input.MoveNext();
      // first determine which quote is used by the string
      var quoteChar := CheckQuoteChar(c);
      if quoteChar.Err? {
        return Err(quoteChar.error);
      }
      ghost var q := quoteChar.value;
      while true
        invariant input.Valid()
        invariant StringLoop(s, input.index, q, sb, escapedChar, p) == target
        decreases |input.content| - input.index
      {
        ghost var i, acc, esc := input.index, sb, escapedChar;
        c := input.MoveNext();
        if c == None {
          assert target == Err(UnterminatedString);
          break;
        }
        assert c.value == s[i] && input.index == i + 1;
        if c.value == Backslash {
          if escapedChar {
            sb := sb + [Backslash];
            escapedChar := false;
          } else {
            escapedChar := true;
          }
          assert StringLoop(s, i + 1, q, sb, escapedChar, p) == target;
          continue;
        }
        if escapedChar {
          assert AfterEscape(s, i + 1, c.value, q, acc, p) == target;
          var appended := AppendCharToBuilder(c.value, sb);
          if appended.Err? {
            return Err(appended.error);
          }
          sb := appended.value;
          escapedChar := false;
        } else {
          if c.value == quoteChar.value {
            assert target == Ok(Parsed(p.validateString(acc), i + 1));
            return Ok(config.platform.validateString(sb));
          }
          sb := sb + [c.value];
          assert StringLoop(s, i + 1, q, sb, false, p) == target;
        }
      }
      return Err(UnterminatedString);
    }

    /** Appends the meaning of the escaped code unit `c` to the builder contents `sb`. */
    method AppendCharToBuilder(c: CodeUnit, sb: Text) returns (r: Result<Text>)
      requires input != null && input.Valid()
      modifies input
      ensures input.Valid()
      ensures match Unescape(input.content, old(input.index), c)
              case Ok(p) => r == Ok(sb + p.item) && input.index == p.next
              case Err(e) => r == Err(e)
    {
      if c == Quote || c == Apostrophe || c == Slash {
        return Ok(sb + [c]);
      } else if c == LowerB {
        return Ok(sb + [Backspace]);
      } else if c == LowerF {
        return Ok(sb + [FormFeed]);
      } else if c == LowerN {
        return Ok(sb + [LineFeed]);
      } else if c == LowerR {
        return Ok(sb + [CarriageReturn]);
      } else if c == LowerT {
        return Ok(sb + [Tab]);
      } else if c == LowerU {
        var digits := input.MoveNextCount(4);
        if digits == None {
          return Err(BadUnicodeEscape);
        }
        var v := HexValue(digits.value);
        if v == None {
          return Err(BadUnicodeEscape);
        }
        return Ok(sb + [(v.value % 0x1_0000) as CodeUnit]);
      } else {
        return Err(BadEscape);
      }
    }
  }
}
