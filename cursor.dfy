/**
  * The character cursor (`JsonString`, and its copy `JavaScriptString`): an
  * immutable text and one read index that every read moves. The functions
  * `SkipWhite`, `Step` and `Back` say what a read does to an index; the class
  * is the cursor itself and its methods are proved against them.
  */
module Cursor {
  import opened Wrappers
  import opened Chars
  import opened Numbers

  ghost predicate AllWhite(s: Text, lo: nat, hi: nat)
    requires lo <= hi <= |s|
  {
    forall k :: lo <= k < hi ==> IsWhiteSpace(s[k])
  }

  /**
    * The whitespace-skipping read from index `i`: the first non-whitespace
    * code unit and the index just past it, or None and the end of the text.
    */
  function SkipWhite(s: Text, i: nat): (r: (Option<CodeUnit>, nat))
    requires i <= |s|
    ensures i <= r.1 <= |s|
    ensures r.0.Some? ==> i < r.1 && r.0.value == s[r.1 - 1] && !IsWhiteSpace(s[r.1 - 1])
    ensures r.0.None? ==> r.1 == |s|
    decreases |s| - i
  {
    if i < |s| then
      if IsWhiteSpace(s[i]) then SkipWhite(s, i + 1) else (Some(s[i]), i + 1)
    else (None, i)
  }

  /** Everything the whitespace-skipping read passes over is white space. */
  lemma {:induction false} SkipWhiteSkipsWhite(s: Text, i: nat)
    requires i <= |s|
    ensures SkipWhite(s, i).0.Some? ==> AllWhite(s, i, SkipWhite(s, i).1 - 1)
    ensures SkipWhite(s, i).0.None? ==> AllWhite(s, i, |s|)
    decreases |s| - i
  {
    if i < |s| && IsWhiteSpace(s[i]) {
      SkipWhiteSkipsWhite(s, i + 1);
    }
  }

  /** The single read from index `i`: the code unit there and the index past it, or None without moving. */
  function Step(s: Text, i: nat): (r: (Option<CodeUnit>, nat))
    requires i <= |s|
    ensures i < |s| ==> r == (Some(s[i]), i + 1)
    ensures i == |s| ==> r == (None, i)
  {
    if i < |s| then (Some(s[i]), i + 1) else (None, i)
  }

  /** The one-step backtrack: one back, never below zero. */
  function Back(i: nat): (j: nat)
    ensures i > 0 ==> j + 1 == i
    ensures i == 0 ==> j == 0
  {
    if i > 0 then i - 1 else 0
  }

  class JsonString {
    const content: Text
    var index: nat

    ghost predicate Valid()
      reads this
    {
      index <= |content|
    }

    constructor (content: Text)
      ensures this.content == content && index == 0
      ensures Valid()
    {
      this.content := content;
      index := 0;
    }

    /** Skips white space and returns the next code unit, leaving the index just past it. */
    method GetNextNonEmptyChar() returns (c: Option<CodeUnit>)
      requires Valid()
      modifies this
      ensures Valid()
      ensures (c, index) == SkipWhite(content, old(index))
    {
      while |content| > index
        invariant old(index) <= index <= |content|
        invariant SkipWhite(content, index) == SkipWhite(content, old(index))
        decreases |content| - index
      {
        var ch := content[index];
        index := index + 1;
        if !IsWhiteSpace(ch) {
          return Some(ch);
        }
      }
      return None;
    }

    /** Returns the code unit at the index and advances past it; None at the end, without moving. */
    method MoveNext() returns (c: Option<CodeUnit>)
      requires Valid()
      modifies this
      ensures Valid()
      ensures old(index) < |content| ==> c == Some(content[old(index)]) && index == old(index) + 1
      ensures old(index) == |content| ==> c == None && index == old(index)
    {
      if |content| > index {
        c := Some(content[index]);
        index := index + 1;
      } else {
        c := None;
      }
    }

    /** `MoveNext(int count)`: the next `count` code units, all or nothing. */
    method MoveNextCount(count: nat) returns (r: Option<Text>)
      requires Valid()
      modifies this
      ensures Valid()
      ensures old(index) + count <= |content| ==>
                r == Some(content[old(index)..old(index) + count]) && index == old(index) + count
      ensures old(index) + count > |content| ==> r == None && index == old(index)
    {
      if |content| >= index + count {
        r := Some(content[index..index + count]);
        index := index + count;
      } else {
        r := None;
      }
    }

    method MovePrev()
      requires Valid()
      modifies this
      ensures Valid()
      ensures index == Back(old(index))
    {
      if index > 0 {
        index := index - 1;
      }
    }

    /** The unread rest of the text. */
    function ToString(): (r: Text)
      reads this
      requires Valid()
      ensures content == content[..index] + r
      ensures |r| == |content| - index
    {
      if |content| > index then content[index..] else []
    }

    /** `message + " (" + index + "): " + content`. */
    function GetDebugString(message: Text): (r: Text)
      reads this
      ensures |r| >= |message| + |content| + 5
      ensures r[..|message|] == message
      ensures r[|r| - |content|..] == content
      ensures r[|message|..|message| + 2] == [Space, OpenParen]
      ensures r[|message| + 2..|r| - |content| - 3] == DecimalText(index)
      ensures r[|r| - |content| - 3..|r| - |content|] == [CloseParen, Colon, Space]
    {
      message + [Space, OpenParen] + DecimalText(index) + [CloseParen, Colon, Space] + content
    }
  }

  /** Reading back the digits `GetDebugString` embeds gives the index. */
  lemma DecimalTextIsInteger(n: nat)
    ensures IntegerValue(DecimalText(n)) == Some(n)
  {
    var t := DecimalText(n);
    assert t[0..|t|] == t;
  }
}
