/**
  * The value tree the deserializer builds, its error kinds, and the foreign
  * library functions it calls (Unicode tables, .NET decimal and double
  * parsing, the UTF-16 validator), which the model takes as parameters.
  */
module JsonValues {
  import opened Wrappers
  import opened Chars

  /** A .NET `decimal`: a signed 96-bit mantissa scaled by a power of ten. */
  datatype DecimalNumber = DecimalNumber(mantissa: int, scale: nat)

  /**
    * What `Deserialize` returns as an `object`: `null`, a boxed `bool`, `int`,
    * `long`, `decimal` or `double` (kept as its IEEE 754 bit pattern), a
    * `string`, an `IList<object>` or an `IDictionary<string, object>`.
    */
  datatype Value =
    | Null
    | Bool(b: bool)
    | Int32(i: int)
    | Int64(l: int)
    | Decimal(d: DecimalNumber)
    | Double(bits: bv64)
    | Str(text: Text)
    | List(items: seq<Value>)
    | Object(members: map<Text, Value>)

  /** The exception each failing path throws, by the resource message it carries. */
  datatype ErrorKind =
    | NullInput                // ArgumentNullException on a null input
    | InputTooLong             // JSON_MaxJsonLengthExceeded
    | InvalidMaxJsonLength     // JSON_InvalidMaxJsonLength
    | InvalidRecursionLimit    // JSON_InvalidRecursionLimit
    | DepthLimitExceeded       // JSON_DepthLimitExceeded
    | InvalidArrayStart        // JSON_InvalidArrayStart
    | InvalidArrayExpectComma  // JSON_InvalidArrayExpectComma
    | InvalidArrayExtraComma   // JSON_InvalidArrayExtraComma
    | InvalidArrayEnd          // JSON_InvalidArrayEnd
    | ExpectedOpenBrace        // JSON_ExpectedOpenBrace
    | InvalidMemberName        // JSON_InvalidMemberName
    | InvalidObject            // JSON_InvalidObject
    | TooManyMembers           // InvalidOperationException from the member cap
    | NullMemberName           // ArgumentNullException from storing under a null key
    | StringNotQuoted          // JSON_StringNotQuoted
    | UnterminatedString       // JSON_UnterminatedString
    | BadEscape                // JSON_BadEscape
    | BadUnicodeEscape         // int.Parse failing on the four characters after \u
    | IllegalPrimitive         // JSON_IllegalPrimitive

  datatype Result<+T> = Ok(value: T) | Err(error: ErrorKind)

  /** A pass/fail check that throws on failure. */
  datatype Outcome = Pass | Fail(error: ErrorKind)

  /** What a production returns and where it leaves the cursor. */
  datatype Parsed<+T> = Parsed(item: T, next: nat)

  /**
    * The library functions the deserializer calls and whose definitions are
    * not part of this model: `Char.IsLetterOrDigit`,
    * `decimal.TryParse(_, NumberStyles.Number, InvariantCulture)`,
    * `Double.TryParse(_, NumberStyles.Float, InvariantCulture)` and
    * `Utf16StringValidator.ValidateString`.
    */
  datatype Platform = Platform(
    isLetterOrDigit: CodeUnit -> bool,
    tryDecimal: Text -> Option<DecimalNumber>,
    tryDouble: Text -> Option<bv64>,
    validateString: Text -> Text)

  /** `DefaultMaxJsonDeserializerMembers`, `Int32.MaxValue`. */
  const DefaultMaxJsonDeserializerMembers: int := 0x7FFF_FFFF
  const DefaultRecursionLimit: int := 100
  const DefaultMaxJsonLength: int := 2097152

  /** The settings a parse runs under. */
  datatype Config = Config(depthLimit: int, memberCap: int, platform: Platform)

  predicate HasSurrogate(t: Text) {
    exists k :: 0 <= k < |t| && IsSurrogate(t[k])
  }

  /**
    * The facts about the .NET library that some of the properties use:
    * `Char.IsLetterOrDigit` agrees with the ASCII letters and digits on the
    * ASCII range, neither `decimal.TryParse` nor `Double.TryParse` accepts
    * the empty string, and the validator returns surrogate-free text unchanged.
    */
  ghost predicate Sound(p: Platform) {
    && (forall c: CodeUnit :: c < 0x80 ==> (p.isLetterOrDigit(c) <==> IsAsciiLetterOrDigit(c)))
    && p.tryDecimal([]) == None
    && p.tryDouble([]) == None
    && (forall t: Text :: !HasSurrogate(t) ==> p.validateString(t) == t)
  }
}
