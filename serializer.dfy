/**
  * `JavaScriptSerializer`: holds the two limits, validates them when they are
  * set, and hands input to `JavaScriptObjectDeserializer.BasicDeserialize`.
  */
module Serializer {
  import opened Wrappers
  import opened Chars
  import opened JsonValues
  import Grammar
  import Deserializer

  class JavaScriptSerializer {
    var recursionLimit: int
    var maxJsonLength: int
    const platform: Platform

    /** Both limits are at least 1 at all times. */
    ghost predicate Valid()
      reads this
    {
      recursionLimit >= 1 && maxJsonLength >= 1
    }

    /** The settings `DeserializeObject` parses under. */
    function Settings(): (cfg: Config)
      reads this
      ensures cfg.depthLimit == recursionLimit
      ensures cfg.memberCap == DefaultMaxJsonDeserializerMembers && cfg.platform == platform
    {
      Config(recursionLimit, DefaultMaxJsonDeserializerMembers, platform)
    }

    constructor (platform: Platform)
      ensures Valid()
      ensures recursionLimit == DefaultRecursionLimit && maxJsonLength == DefaultMaxJsonLength
      ensures this.platform == platform
    {
      recursionLimit := DefaultRecursionLimit;
      maxJsonLength := DefaultMaxJsonLength;
      this.platform := platform;
    }

    /** The `MaxJsonLength` setter: rejects a value below 1 and keeps the old one. */
    method SetMaxJsonLength(value: int) returns (r: Outcome)
      requires Valid()
      modifies this
      ensures Valid()
      ensures value < 1 ==> r == Fail(InvalidMaxJsonLength) && maxJsonLength == old(maxJsonLength)
      ensures value >= 1 ==> r == Pass && maxJsonLength == value
      ensures recursionLimit == old(recursionLimit)
    {
      if value < 1 {
        return Fail(InvalidMaxJsonLength);
      }
      maxJsonLength := value;
      return Pass;
    }

    /** The `RecursionLimit` setter: rejects a value below 1 and keeps the old one. */
    method SetRecursionLimit(value: int) returns (r: Outcome)
      requires Valid()
      modifies this
      ensures Valid()
      ensures value < 1 ==> r == Fail(InvalidRecursionLimit) && recursionLimit == old(recursionLimit)
      ensures value >= 1 ==> r == Pass && recursionLimit == value
      ensures maxJsonLength == old(maxJsonLength)
    {
      if value < 1 {
        return Fail(InvalidRecursionLimit);
      }
      recursionLimit := value;
      return Pass;
    }

    /**
      * Null input and input longer than `MaxJsonLength` are rejected before any
      * parsing; everything else is what `BasicDeserialize` returns under
      * `RecursionLimit`.
      */
    method DeserializeObject(input: Option<Text>) returns (r: Result<Value>)
      ensures input.None? ==> r == Err(NullInput)
      ensures input.Some? && |input.value| > maxJsonLength ==> r == Err(InputTooLong)
      ensures input.Some? && |input.value| <= maxJsonLength ==>
                r == Grammar.BasicDeserialize(input.value, Settings())
    {
      if input.None? {
        return Err(NullInput);
      }
      if |input.value| > maxJsonLength {
        return Err(InputTooLong);
      }
      r := Deserializer.ObjectDeserializer.BasicDeserialize(
        input.value, recursionLimit, DefaultMaxJsonDeserializerMembers, platform);
    }
  }
}
