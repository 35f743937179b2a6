# A verified model of the lenient JSON deserializer of the .NET runtime

This project models the JSON reader in `Microsoft.Framework.Runtime`. The reader is a cursor-based
recursive-descent deserializer that turns text into an untyped tree. A value is one of:
null, a `bool`, an `int`, a `long`, a `decimal`, a `double`, a `string`, an ordered list, or a
string-keyed dictionary. The model covers:

- **The character cursor** `JsonString`. `JavaScriptString` is a copy of it.
  It is modelled as the class `Cursor.JsonString`: an immutable text and one mutable `index`.
  Every read method is proved against a function of the text and the index (`SkipWhite`, `Step`, `Back`).
  The class keeps the invariant `index <= |content|`.
- **The deserializer** `JsonObjectDeserializer`. `JavaScriptObjectDeserializer` is a copy of it.
  It is modelled as the class
  `Deserializer.ObjectDeserializer`, whose methods work on a shared cursor field.
  - Each method keeps the source's loops, flags and early exits.
  - Each method is proved to return what the matching function of module `Grammar` returns,
    and to leave the cursor where that function says.
  - `Grammar` is the reference definition: one function per method, and one function per `while` loop,
    taking the loop-head state.
  - The two entry points are `Deserialize`, which checks for null and for length and then creates a
    fresh cursor, and `BasicDeserialize`, which does no length check.
- **The façade** `JavaScriptSerializer`. It is modelled as the class `Serializer.JavaScriptSerializer`:
  - the two validated limits and their defaults;
  - the class invariant that both limits are at least 1;
  - `DeserializeObject`, which rejects null and over-long input and otherwise returns what
    `BasicDeserialize` returns.

Texts are sequences of UTF-16 code units (`Chars.CodeUnit`). A `\uXXXX` escape can produce a lone
surrogate, which a Dafny `char` cannot hold.

Errors are the kinds of exception the source throws (`JsonValues.ErrorKind`). The library functions
whose definitions are not part of this model are fields of a `Platform` value:
`Char.IsLetterOrDigit`, `decimal.TryParse`, `Double.TryParse` and `Utf16StringValidator.ValidateString`.
The predicate `Sound` lists the few facts about them that some properties use:
- they agree with ASCII letters and digits on the ASCII range;
- neither number parser accepts the empty string;
- the validator returns surrogate-free text unchanged.

The following are modelled concretely:
- `Char.IsWhiteSpace`;
- `Int32.TryParse` and `Int64.TryParse` with `NumberStyles.Integer`;
- `int.Parse` with `NumberStyles.HexNumber`.

Both number styles accept, around the digits, white space and then trailing U+0000 code units,
as the .NET number parser does.

The properties are proved about the `Grammar` functions:
- the numeric-type selection policy;
- the error rules for lists, objects and strings;
- the acceptance of empty and white-space-only input;
- the rejection of trailing content;
- the depth and member-cap bounds on every result;
- the monotonicity of the recursion limit;
- that the null-name path of the dictionary loop cannot be reached;
- a round trip. Module `RoundTrip` renders a document as compact JSON (an independent writer),
  and deserializing that rendering gives back the value the document stands for, with the last
  of any duplicate member names winning.

## Model

All source paths are under `src/Microsoft.Framework.Runtime/JsonDeserializer/`, except the test file.

| member | source | states |
|---|---|---|
| Cursor.SkipWhite | src/Microsoft.Framework.Runtime/JsonDeserializer/JsonString.cs:19-31 | The read returns the first code unit that is not white space, with the index just past it; otherwise it returns none, with the index at the end; the index never moves back |
| Cursor.SkipWhiteSkipsWhite | src/Microsoft.Framework.Runtime/JsonDeserializer/JsonString.cs:21-28 | Every code unit the whitespace-skipping read passes over is white space |
| Cursor.Step | src/Microsoft.Framework.Runtime/JsonDeserializer/JsonString.cs:33-41 | A single read returns the code unit at the index and moves one past it; at the end it returns none and does not move |
| Cursor.Back | src/Microsoft.Framework.Runtime/JsonDeserializer/JsonString.cs:56-62 | The backtrack moves one back, saturating at 0 |
| Cursor.JsonString.constructor | src/Microsoft.Framework.Runtime/JsonDeserializer/JsonString.cs:14-17 | The content is stored, the index starts at 0, and the index invariant holds |
| Cursor.JsonString.GetNextNonEmptyChar | src/Microsoft.Framework.Runtime/JsonDeserializer/JsonString.cs:19-31 | The loop returns what `SkipWhite` returns and leaves the index where `SkipWhite` says; the invariant `index <= |content|` is kept |
| Cursor.JsonString.MoveNext | src/Microsoft.Framework.Runtime/JsonDeserializer/JsonString.cs:33-41 | Before the end it returns the code unit at the index and advances by one; at the end it returns none and does not move |
| Cursor.JsonString.MoveNextCount | src/Microsoft.Framework.Runtime/JsonDeserializer/JsonString.cs:43-54 | All or nothing: if `index + count <= length` it returns exactly the next `count` code units and advances by `count`; otherwise it returns none and does not move |
| Cursor.JsonString.MovePrev | src/Microsoft.Framework.Runtime/JsonDeserializer/JsonString.cs:56-62 | Decrements the index, and does nothing at 0 |
| Cursor.JsonString.ToString | src/Microsoft.Framework.Runtime/JsonDeserializer/JsonString.cs:64-72 | Returns the unread suffix (empty at the end): the read prefix followed by it is the whole content; nothing moves |
| Cursor.JsonString.GetDebugString | src/Microsoft.Framework.Runtime/JsonDeserializer/JsonString.cs:74-77 | The result is the message, ` (`, the decimal digits of the index, `): `, then the whole content, piece by piece |
| Numbers.DecimalText | src/Microsoft.Framework.Runtime/JsonDeserializer/JsonString.cs:76 | The index is rendered as ASCII digits whose value is the index, with no leading zero |
| Cursor.DecimalTextIsInteger | src/Microsoft.Framework.Runtime/JsonDeserializer/JsonString.cs:76 | The digits embedded in a debug string read back as the index |
| Numbers.TryInt32 | src/Microsoft.Framework.Runtime/JsonDeserializer/JsonDeserializer.cs:274-279 | `Int32.TryParse` succeeds exactly when the token is an optionally signed decimal integer (surrounding white space allowed) within the `int` range, and then gives that integer |
| Numbers.TryInt64 | src/Microsoft.Framework.Runtime/JsonDeserializer/JsonDeserializer.cs:282-287 | `Int64.TryParse` succeeds exactly when the token is an integer within the `long` range, and then gives that integer |
| Grammar.OccursIsMembership | src/Microsoft.Framework.Runtime/JsonDeserializer/JsonDeserializer.cs:258-260 | The scan used for the `.` and `e`/`E` tests finds a code unit exactly when it occurs in the token |
| Grammar.TokenEnd | src/Microsoft.Framework.Runtime/JsonDeserializer/JsonDeserializer.cs:312-332 | A bare token ends at the end of the text or at the first code unit that is not a letter, a digit, `.`, `-`, `_` or `+` |
| Grammar.TokenEndSpan | src/Microsoft.Framework.Runtime/JsonDeserializer/JsonDeserializer.cs:316-323 | Every code unit of the token is a token code unit, so the token is the maximal such run |
| Grammar.ClassifyPolicy | src/Microsoft.Framework.Runtime/JsonDeserializer/JsonDeserializer.cs:239-310 | The numeric-type selection, in both directions. `null`, `true` and `false` are exactly the keywords. A token with no `.` and no exponent that fits an `int` is an `int`, and one that fits only a `long` is a `long`. A `decimal` has no exponent. A `double` means every earlier parse failed or there was an exponent. The token is an illegal primitive exactly when all the parsers fail |
| Grammar.CheckQuoteChar | src/Microsoft.Framework.Runtime/JsonDeserializer/JsonDeserializer.cs:415-429 | Succeeds exactly on `"` and `'` and returns the opening quote; anything else, or the end of the text, is the string-not-quoted error |
| Grammar.Unescape | src/Microsoft.Framework.Runtime/JsonDeserializer/JsonDeserializer.cs:379-413 | The escape table. `\"`, `\'` and `\/` give the code unit itself. `\b`, `\f`, `\n`, `\r` and `\t` give backspace, form feed, line feed, carriage return and tab. `\u` reads exactly 4 more code units and gives the code unit whose value is their hexadecimal value; the other escapes read none. It fails exactly on an unknown escape (the bad-escape error), or on a `\u` whose 4 code units are missing or not hexadecimal (the bad-unicode-escape error) |
| Numbers.HexValue | src/Microsoft.Framework.Runtime/JsonDeserializer/JsonDeserializer.cs:407 | The value of a `\u` escape's 4 code units is below 0x10000, so the `(char)` cast keeps all of it |
| Grammar.StringLoop | src/Microsoft.Framework.Runtime/JsonDeserializer/JsonDeserializer.cs:343-376 | The string loop ends past its start, inside the text; it fails only as unterminated or as a bad escape |
| Grammar.ParseString | src/Microsoft.Framework.Runtime/JsonDeserializer/JsonDeserializer.cs:334-377 | `DeserializeString` consumes at least the opening quote, and fails only with one of the four string errors |
| Grammar.MemberName | src/Microsoft.Framework.Runtime/JsonDeserializer/JsonDeserializer.cs:217-237 | At the end of the text there is no name. At `"` or `'` the name is the string `DeserializeString` reads, and its errors are the string's. At any other code unit the name is the bare token `DeserializePrimitiveToken` reads |
| Grammar.CheckMemberCount | src/Microsoft.Framework.Runtime/JsonDeserializer/JsonDeserializer.cs:205-211 | Passes exactly when the count is below the cap; otherwise it fails with the cap error |
| Deserializer.ObjectDeserializer.constructor | src/Microsoft.Framework.Runtime/JsonDeserializer/JsonDeserializer.cs:26-30 | Stores the length limit and the depth limit; there is no cursor yet |
| Deserializer.ObjectDeserializer.Default | src/Microsoft.Framework.Runtime/JsonDeserializer/JsonDeserializer.cs:21-24 | The default limits: length 2097152, depth 100, member cap `Int32.MaxValue` |
| Deserializer.ObjectDeserializer.ForInput | src/Microsoft.Framework.Runtime/JsonDeserializer/JavaScriptObjectDeserializer.cs:32-37 | A fresh cursor over the input at index 0, with the given depth limit; the length limit field, which that class does not have, holds the input's length and is never read |
| Deserializer.ObjectDeserializer.Deserialize | src/Microsoft.Framework.Runtime/JsonDeserializer/JsonDeserializer.cs:32-54 | Null input and input longer than the limit fail before any parsing. Otherwise, on a fresh cursor, the result is one value at depth 0 followed by white space only, else an illegal primitive; this is exactly `Grammar.Deserialize` |
| Deserializer.ObjectDeserializer.BasicDeserialize | src/Microsoft.Framework.Runtime/JsonDeserializer/JavaScriptObjectDeserializer.cs:21-30 | One value at depth 0 on a fresh cursor, then only white space may remain; no length check; this is exactly `Grammar.BasicDeserialize` |
| Deserializer.ObjectDeserializer.DeserializeInternal | src/Microsoft.Framework.Runtime/JsonDeserializer/JsonDeserializer.cs:56-87 | The depth is raised and checked before anything is read. Only white space means null. Otherwise it dispatches on `{`, `[`, a quote, or anything else. Result and cursor are those of `ParseValue` |
| Deserializer.ObjectDeserializer.DeserializeList | src/Microsoft.Framework.Runtime/JsonDeserializer/JsonDeserializer.cs:89-128 | The list loop and its `expectMore` flag compute `ParseList`: the elements in order, and the array start, expect-comma, extra-comma and array-end errors |
| Deserializer.ObjectDeserializer.DeserializeDictionary | src/Microsoft.Framework.Runtime/JsonDeserializer/JsonDeserializer.cs:130-197 | The dictionary loop computes `ParseObject`. The dictionary is created lazily, `{}` gives an empty one, and the cap is checked before each value. Each value is stored under its name, and the member-name and invalid-object errors are raised where the loop raises them |
| Deserializer.ObjectDeserializer.DeserializeMemberName | src/Microsoft.Framework.Runtime/JsonDeserializer/JsonDeserializer.cs:217-237 | A quoted string or a bare token; none at the end of the text; result and cursor are those of `MemberName` |
| Deserializer.ObjectDeserializer.DeserializePrimitiveObject | src/Microsoft.Framework.Runtime/JsonDeserializer/JsonDeserializer.cs:239-310 | The token is classified by the selection policy; result and cursor are those of `ParsePrimitive` |
| Deserializer.ObjectDeserializer.DeserializePrimitiveToken | src/Microsoft.Framework.Runtime/JsonDeserializer/JsonDeserializer.cs:312-332 | The builder holds exactly the maximal run of token code units, and the cursor is left on the first code unit after it |
| Deserializer.ObjectDeserializer.DeserializeString | src/Microsoft.Framework.Runtime/JsonDeserializer/JsonDeserializer.cs:334-377 | The loop, with its pending-backslash flag, computes `ParseString`: the validated decoded text and the index past the closing quote, or the first error |
| Deserializer.ObjectDeserializer.AppendCharToBuilder | src/Microsoft.Framework.Runtime/JsonDeserializer/JsonDeserializer.cs:379-413 | The builder gets exactly the code unit `Unescape` gives; the cursor moves 4 for `\u` and not otherwise; it fails as `Unescape` fails |
| Serializer.JavaScriptSerializer.constructor | src/Microsoft.Framework.Runtime/JsonDeserializer/JavaScriptSerializer.cs:16-20 | A new serializer has `RecursionLimit == 100` and `MaxJsonLength == 2097152`, and both limits are at least 1 |
| Serializer.JavaScriptSerializer.SetMaxJsonLength | src/Microsoft.Framework.Runtime/JsonDeserializer/JavaScriptSerializer.cs:22-36 | A value below 1 fails and leaves the stored value unchanged; otherwise it is stored exactly; the other limit is untouched and both stay at least 1 |
| Serializer.JavaScriptSerializer.SetRecursionLimit | src/Microsoft.Framework.Runtime/JsonDeserializer/JavaScriptSerializer.cs:38-52 | A value below 1 fails and leaves the stored value unchanged; otherwise it is stored exactly; the other limit is untouched and both stay at least 1 |
| Serializer.JavaScriptSerializer.DeserializeObject | src/Microsoft.Framework.Runtime/JsonDeserializer/JavaScriptSerializer.cs:54-67 | Null input and input longer than `MaxJsonLength` fail before any parsing; otherwise the result is exactly `BasicDeserialize` under `RecursionLimit` |
| ErrorProperties.SkipWhiteNoneIffWhite | src/Microsoft.Framework.Runtime/JsonDeserializer/JsonString.cs:19-31 | The whitespace-skipping read finds nothing exactly when only white space remains |
| ErrorProperties.WhiteInputIsNull | src/Microsoft.Framework.Runtime/JsonDeserializer/JsonDeserializer.cs:63-67 | Empty or white-space-only input deserializes to null, provided the limit admits one level |
| ErrorProperties.EmptyStringIsNull | test/Microsoft.Framework.Runtime.Tests/JsonDeserializerFacts.cs:14-21 | `Deserialize("")` under the default limits is null |
| ErrorProperties.TrailingContent | src/Microsoft.Framework.Runtime/JsonDeserializer/JsonDeserializer.cs:46-53 | After the top-level value, the value is the result exactly when only white space follows; otherwise the result is an illegal primitive |
| ErrorProperties.TwoNumbersRejected | src/Microsoft.Framework.Runtime/JsonDeserializer/JsonDeserializer.cs:48-51 | `1 2` is an illegal primitive |
| ErrorProperties.ExtraCloseBracketRejected | src/Microsoft.Framework.Runtime/JsonDeserializer/JsonDeserializer.cs:48-51 | `[1]]` is an illegal primitive |
| ErrorProperties.LimitBelowOneRejects | src/Microsoft.Framework.Runtime/JsonDeserializer/JsonDeserializer.cs:58-61 | A recursion limit below 1 rejects every input with the depth error |
| ErrorProperties.OneElementListNeedsTwoLevels | src/Microsoft.Framework.Runtime/JsonDeserializer/JsonDeserializer.cs:58-78 | `[1]` is the list `[1]` exactly when the limit is at least 2; otherwise it is the depth error |
| ErrorProperties.ListLoopExit | src/Microsoft.Framework.Runtime/JsonDeserializer/JsonDeserializer.cs:99-127 | At the end of the text or at `]`: after a comma it is an extra comma; at the end without one it is a missing `]`; at `]` the list closes with its elements |
| ErrorProperties.ListSeparator | src/Microsoft.Framework.Runtime/JsonDeserializer/JsonDeserializer.cs:102-117 | After an element, `]` closes the list with the element appended and `,` asks for another; anything else, including the end of the text, is the expect-comma error |
| ErrorProperties.ListCommaBeforeClose | src/Microsoft.Framework.Runtime/JsonDeserializer/JsonDeserializer.cs:119-122 | `[1,2,]` is the extra-comma error |
| ErrorProperties.ListCommaAtEnd | src/Microsoft.Framework.Runtime/JsonDeserializer/JsonDeserializer.cs:119-122 | `[1,` is the extra-comma error |
| ErrorProperties.ListMissingComma | src/Microsoft.Framework.Runtime/JsonDeserializer/JsonDeserializer.cs:113-117 | `[1 2]` is the expect-comma error |
| ErrorProperties.ListUnclosed | src/Microsoft.Framework.Runtime/JsonDeserializer/JsonDeserializer.cs:113-117 | `[1` is the expect-comma error |
| ErrorProperties.ListOpenOnly | src/Microsoft.Framework.Runtime/JsonDeserializer/JsonDeserializer.cs:123-126 | `[` followed by white space only is the array-end error |
| ErrorProperties.ObjectLoopStart | src/Microsoft.Framework.Runtime/JsonDeserializer/JsonDeserializer.cs:140-147 | Where a member is expected, the end of the text is an invalid object and `:` is an invalid member name |
| ErrorProperties.MemberCapBeforeValue | src/Microsoft.Framework.Runtime/JsonDeserializer/JsonDeserializer.cs:174-177 | With the dictionary full, the cap error is raised whatever follows the name, before the value is read |
| ErrorProperties.MemberSeparator | src/Microsoft.Framework.Runtime/JsonDeserializer/JsonDeserializer.cs:177-188 | After a value, `}` closes the object with the value stored and `,` goes on with it stored; anything else, including the end of the text, is an invalid object |
| ErrorProperties.ObjectColonFirst | src/Microsoft.Framework.Runtime/JsonDeserializer/JsonDeserializer.cs:144-147 | `{:1}` is the invalid-member-name error |
| ErrorProperties.ObjectNameWithoutColon | src/Microsoft.Framework.Runtime/JsonDeserializer/JsonDeserializer.cs:153-158 | `{"a" 1}` is the invalid-object error |
| ErrorProperties.ObjectUnclosed | src/Microsoft.Framework.Runtime/JsonDeserializer/JsonDeserializer.cs:179-194 | `{"a":1` is the invalid-object error |
| ErrorProperties.PlainRunThenQuote | src/Microsoft.Framework.Runtime/JsonDeserializer/JsonDeserializer.cs:343-373 | Code units that are neither a backslash nor the opening quote are kept as they are, the other kind of quote included; the opening quote then ends the string |
| ErrorProperties.PlainRunUnterminated | src/Microsoft.Framework.Runtime/JsonDeserializer/JsonDeserializer.cs:343-376 | Text that ends without the opening quote (and without a backslash) is the unterminated-string error |
| ErrorProperties.DoubleBackslash | src/Microsoft.Framework.Runtime/JsonDeserializer/JsonDeserializer.cs:345-357 | Two backslashes stand for one backslash, and the string goes on |
| ErrorProperties.SingleQuotedKeepsDoubleQuote | src/Microsoft.Framework.Runtime/JsonDeserializer/JsonDeserializer.cs:415-429 | `'"'` is the one-character string `"` |
| ErrorProperties.MismatchedQuoteUnterminated | src/Microsoft.Framework.Runtime/JsonDeserializer/JsonDeserializer.cs:367-376 | `"a'` is unterminated: only the opening kind of quote closes a string |
| StringProperties.TrimDropsTrailingNul | src/Microsoft.Framework.Runtime/JsonDeserializer/JsonDeserializer.cs:407 | A trailing U+0000 code unit changes nothing that `int.Parse` or `Int32.TryParse` reads |
| StringProperties.HexEscapeDigits | src/Microsoft.Framework.Runtime/JsonDeserializer/JsonDeserializer.cs:407 | `0041`, `41` followed by two U+0000 code units, and ` 41 ` are all 0x41; `4`, U+0000, `1`, U+0000 is rejected |
| StringProperties.ControlEscapes | src/Microsoft.Framework.Runtime/JsonDeserializer/JsonDeserializer.cs:385-404 | `"\n\t"` reads as a line feed and a tab |
| StringProperties.UnicodeEscape | src/Microsoft.Framework.Runtime/JsonDeserializer/JsonDeserializer.cs:405-408 | `"\u0041"` reads as the single code unit `A` |
| StringProperties.BareNameReadsBack | src/Microsoft.Framework.Runtime/JsonDeserializer/JsonDeserializer.cs:235-236 | At a code unit that is neither white space nor a quote, the member name is the maximal run of token code units |
| StringProperties.SingleQuotedNameReadsBack | src/Microsoft.Framework.Runtime/JsonDeserializer/JsonDeserializer.cs:229-233 | A single-quoted member name with no backslash inside is the code units between the apostrophes, validated |
| StringProperties.ObjectLoopAtMemberName | src/Microsoft.Framework.Runtime/JsonDeserializer/JsonDeserializer.cs:149-159 | After a member name of any form and its `:`, the pass goes on with the value under that name |
| StringProperties.SingleQuotedName | src/Microsoft.Framework.Runtime/JsonDeserializer/JsonDeserializer.cs:215 | `{'a':"b"}` is the dictionary mapping `a` to the string `b` |
| StringProperties.BareName | src/Microsoft.Framework.Runtime/JsonDeserializer/JsonDeserializer.cs:214 | `{a:1}` is the dictionary mapping `a` to the `int` 1 |
| ObjectProperties.SkipWhiteAtNonWhite | src/Microsoft.Framework.Runtime/JsonDeserializer/JsonString.cs:19-31 | At a code unit that is not white space, the read returns it and moves one past it |
| ObjectProperties.EmptyTokenIsIllegal | src/Microsoft.Framework.Runtime/JsonDeserializer/JsonDeserializer.cs:239-310 | The empty token is an illegal primitive |
| ObjectProperties.PrimitiveAtCloseBrace | src/Microsoft.Framework.Runtime/JsonDeserializer/JsonDeserializer.cs:312-332 | The bare token read at a `}` is empty, so it is an illegal primitive |
| ObjectProperties.CloseBraceIsIllegal | src/Microsoft.Framework.Runtime/JsonDeserializer/JsonDeserializer.cs:56-87 | A value starting at `}` is the depth error if the limit is reached, and an illegal primitive otherwise |
| ObjectProperties.ObjectTrailingComma | src/Microsoft.Framework.Runtime/JsonDeserializer/JsonDeserializer.cs:140-177 | A comma followed by `}` in an object is rejected: the cap error if the dictionary is full, else the depth error, else an illegal primitive |
| ObjectProperties.HeadHasName | src/Microsoft.Framework.Runtime/JsonDeserializer/JsonDeserializer.cs:149-159 | A member head that does not start at `}` carries a name |
| ObjectProperties.ValueNoNullName | src/Microsoft.Framework.Runtime/JsonDeserializer/JsonDeserializer.cs:178 | No value parse ever stores a value under a null name |
| ObjectProperties.ListNoNullName | src/Microsoft.Framework.Runtime/JsonDeserializer/JsonDeserializer.cs:89-128 | Likewise for a list |
| ObjectProperties.ListLoopNoNullName | src/Microsoft.Framework.Runtime/JsonDeserializer/JsonDeserializer.cs:99-118 | Likewise for every state of the list loop |
| ObjectProperties.ObjectNoNullName | src/Microsoft.Framework.Runtime/JsonDeserializer/JsonDeserializer.cs:130-197 | Likewise for an object |
| ObjectProperties.ObjectLoopNoNullName | src/Microsoft.Framework.Runtime/JsonDeserializer/JsonDeserializer.cs:140-189 | Likewise for every state of the dictionary loop |
| ObjectProperties.MemberRestNoNullName | src/Microsoft.Framework.Runtime/JsonDeserializer/JsonDeserializer.cs:161-178 | A nameless pass stops at a `}`, where no value can start |
| ObjectProperties.NoNullMemberName | src/Microsoft.Framework.Runtime/JsonDeserializer/JsonDeserializer.cs:178 | `BasicDeserialize` never fails because a value was stored under a null name |
| TreeProperties.ValueShape | src/Microsoft.Framework.Runtime/JsonDeserializer/JsonDeserializer.cs:56-87 | A value parsed at some depth nests within the levels the limit leaves, and every object in it holds at most the member cap |
| TreeProperties.ListShape | src/Microsoft.Framework.Runtime/JsonDeserializer/JsonDeserializer.cs:89-128 | Likewise for a list one level deeper |
| TreeProperties.ObjectShape | src/Microsoft.Framework.Runtime/JsonDeserializer/JsonDeserializer.cs:130-197 | Likewise for an object one level deeper |
| TreeProperties.ListLoopShape | src/Microsoft.Framework.Runtime/JsonDeserializer/JsonDeserializer.cs:99-118 | The list loop keeps every element within the limit and the cap |
| TreeProperties.ObjectLoopShape | src/Microsoft.Framework.Runtime/JsonDeserializer/JsonDeserializer.cs:140-189 | The dictionary loop keeps every member within the limit, and the count within the cap |
| TreeProperties.MemberRestShape | src/Microsoft.Framework.Runtime/JsonDeserializer/JsonDeserializer.cs:161-188 | One member pass keeps those bounds: the cap is checked before a store adds at most one member |
| TreeProperties.ResultShape | src/Microsoft.Framework.Runtime/JsonDeserializer/JsonDeserializer.cs:46 | Every result of `BasicDeserialize` nests within the recursion limit and respects the member cap |
| TreeProperties.ValueRaisedLimit | src/Microsoft.Framework.Runtime/JsonDeserializer/JsonDeserializer.cs:58-61 | Raising the limit changes a value parse only if it failed on the depth check: otherwise the same value or error, and the same end |
| TreeProperties.ListRaisedLimit | src/Microsoft.Framework.Runtime/JsonDeserializer/JsonDeserializer.cs:89-128 | Likewise for a list |
| TreeProperties.ObjectRaisedLimit | src/Microsoft.Framework.Runtime/JsonDeserializer/JsonDeserializer.cs:130-197 | Likewise for an object |
| TreeProperties.ListLoopRaisedLimit | src/Microsoft.Framework.Runtime/JsonDeserializer/JsonDeserializer.cs:99-118 | Likewise for the list loop |
| TreeProperties.ObjectLoopRaisedLimit | src/Microsoft.Framework.Runtime/JsonDeserializer/JsonDeserializer.cs:140-189 | Likewise for the dictionary loop |
| TreeProperties.MemberRestRaisedLimit | src/Microsoft.Framework.Runtime/JsonDeserializer/JsonDeserializer.cs:161-188 | Likewise for one member pass |
| TreeProperties.RaisedLimitSameResult | src/Microsoft.Framework.Runtime/JsonDeserializer/JavaScriptSerializer.cs:38-52 | A document accepted under one recursion limit gives the same value under every higher limit |
| RoundTrip.RenderThenDeserialize | src/Microsoft.Framework.Runtime/JsonDeserializer/JsonDeserializer.cs:32-54 | Deserializing the compact rendering of a well-formed document that fits the limit gives the value the document stands for |
| RoundTrip.ValueReadsBack | src/Microsoft.Framework.Runtime/JsonDeserializer/JsonDeserializer.cs:56-87 | A rendered document, followed by a code unit that cannot extend a token, reads back as its meaning and ends right after its rendering |
| RoundTrip.ScalarReadsBack | src/Microsoft.Framework.Runtime/JsonDeserializer/JsonDeserializer.cs:81-86 | Likewise for keywords, integers and strings |
| RoundTrip.ValueDispatch | src/Microsoft.Framework.Runtime/JsonDeserializer/JsonDeserializer.cs:63-86 | A value at a code unit that is not white space is read by the production that code unit selects |
| RoundTrip.ValueAtBrace | src/Microsoft.Framework.Runtime/JsonDeserializer/JsonDeserializer.cs:71-74 | A value at `{` is the dictionary loop after it, one level deeper |
| RoundTrip.EscapeReadsBack | src/Microsoft.Framework.Runtime/JsonDeserializer/JsonDeserializer.cs:343-376 | The body of a string with `"` and `\` escaped reads back as the original code units, validated |
| RoundTrip.QuotedReadsBack | src/Microsoft.Framework.Runtime/JsonDeserializer/JsonDeserializer.cs:334-377 | A double-quoted surrogate-free string reads back as itself, ending after its closing quote |
| RoundTrip.IntTextValue | src/Microsoft.Framework.Runtime/JsonDeserializer/JsonDeserializer.cs:275 | The decimal text of an integer reads back as the integer |
| RoundTrip.NegativeIsInteger | src/Microsoft.Framework.Runtime/JsonDeserializer/JsonDeserializer.cs:275 | Likewise with a leading minus |
| RoundTrip.IntTextDigits | src/Microsoft.Framework.Runtime/JsonDeserializer/JsonDeserializer.cs:258-260 | An integer's text is digits after an optional minus, so it has no `.` and no exponent |
| RoundTrip.IntTextIsInt32 | src/Microsoft.Framework.Runtime/JsonDeserializer/JsonDeserializer.cs:265-279 | An integer in the `int` range, written out, is classified as that `int` |
| RoundTrip.KeywordIsClassified | src/Microsoft.Framework.Runtime/JsonDeserializer/JsonDeserializer.cs:242-255 | `null`, `true` and `false` classify as null and the two booleans |
| RoundTrip.RenderIsClassified | src/Microsoft.Framework.Runtime/JsonDeserializer/JsonDeserializer.cs:239-310 | A rendered keyword or `int` classifies as its meaning |
| RoundTrip.BareTokenChars | src/Microsoft.Framework.Runtime/JsonDeserializer/JsonDeserializer.cs:318-319 | Every code unit of a rendered keyword or integer is a token code unit |
| RoundTrip.BareTokenIsRead | src/Microsoft.Framework.Runtime/JsonDeserializer/JsonDeserializer.cs:312-332 | A rendered keyword or integer is read as exactly one token |
| RoundTrip.BareTokenReadsBack | src/Microsoft.Framework.Runtime/JsonDeserializer/JsonDeserializer.cs:239-332 | Likewise, and the token is classified as the document's meaning |
| RoundTrip.RenderedTokenIsPrimitive | src/Microsoft.Framework.Runtime/JsonDeserializer/JsonDeserializer.cs:239-310 | A token that is such a rendering gives the document's meaning |
| RoundTrip.PrimitiveOfToken | src/Microsoft.Framework.Runtime/JsonDeserializer/JsonDeserializer.cs:239-241 | A primitive is its token, classified |
| RoundTrip.TokenEndAt | src/Microsoft.Framework.Runtime/JsonDeserializer/JsonDeserializer.cs:316-329 | The token read stops exactly at the first code unit that cannot be part of a token |
| RoundTrip.DelimiterIsNotToken | src/Microsoft.Framework.Runtime/JsonDeserializer/JsonDeserializer.cs:318-319 | `,`, `]` and `}` cannot extend a token |
| RoundTrip.RenderStart | src/Microsoft.Framework.Runtime/JsonDeserializer/JsonDeserializer.cs:71-86 | The first code unit of a rendering is the one that selects its production |
| RoundTrip.ValueStart | src/Microsoft.Framework.Runtime/JsonDeserializer/JsonDeserializer.cs:99 | A rendering starts with neither white space nor a closing bracket |
| RoundTrip.ListReadsBack | src/Microsoft.Framework.Runtime/JsonDeserializer/JsonDeserializer.cs:89-128 | A rendered list reads back as the list of its elements' meanings, in order |
| RoundTrip.ListLoopClose | src/Microsoft.Framework.Runtime/JsonDeserializer/JsonDeserializer.cs:99-127 | The list loop at `]`, with no element owed, closes the list |
| RoundTrip.ListLoopLast | src/Microsoft.Framework.Runtime/JsonDeserializer/JsonDeserializer.cs:102-111 | A value followed by `]` closes the list with it appended |
| RoundTrip.ListLoopMore | src/Microsoft.Framework.Runtime/JsonDeserializer/JsonDeserializer.cs:102-117 | A value followed by `,` is appended and the loop goes on |
| RoundTrip.ItemsReadBack | src/Microsoft.Framework.Runtime/JsonDeserializer/JsonDeserializer.cs:99-127 | The list loop over rendered elements appends their meanings in order and ends after the `]` |
| RoundTrip.NoItemsReadBack | src/Microsoft.Framework.Runtime/JsonDeserializer/JsonDeserializer.cs:99-127 | `[]` is the empty list |
| RoundTrip.LastItemStep | src/Microsoft.Framework.Runtime/JsonDeserializer/JsonDeserializer.cs:102-111 | The last rendered element closes the list after it |
| RoundTrip.ItemStep | src/Microsoft.Framework.Runtime/JsonDeserializer/JsonDeserializer.cs:102-107 | The first of several rendered elements reads back, and then its comma is read |
| RoundTrip.ItemReadsBack | src/Microsoft.Framework.Runtime/JsonDeserializer/JsonDeserializer.cs:102-107 | A rendered element reads back, and the separator after it is the next code unit read |
| RoundTrip.ItemsTail | src/Microsoft.Framework.Runtime/JsonDeserializer/JsonDeserializer.cs:99-118 | The elements after the first one and its comma are read back in order |
| RoundTrip.ItemsAfterComma | src/Microsoft.Framework.Runtime/JsonDeserializer/JsonDeserializer.cs:99-118 | Likewise, starting from the value and its comma |
| RoundTrip.LastItemSplit | src/Microsoft.Framework.Runtime/JsonDeserializer/JsonDeserializer.cs:107-110 | A single rendered element followed by `]` is the element, then the `]` |
| RoundTrip.ItemsSplit | src/Microsoft.Framework.Runtime/JsonDeserializer/JsonDeserializer.cs:107-117 | Several rendered elements are the first one, a comma, and the rest |
| RoundTrip.ObjectReadsBack | src/Microsoft.Framework.Runtime/JsonDeserializer/JsonDeserializer.cs:130-197 | A rendered object reads back as its members stored in order |
| RoundTrip.ObjectLoopAtEmpty | src/Microsoft.Framework.Runtime/JsonDeserializer/JsonDeserializer.cs:161-171 | `{}` is the empty dictionary |
| RoundTrip.ObjectLoopAtName | src/Microsoft.Framework.Runtime/JsonDeserializer/JsonDeserializer.cs:149-159 | After a quoted name and its `:`, the pass goes on with the member's value |
| RoundTrip.LastMemberSplit | src/Microsoft.Framework.Runtime/JsonDeserializer/JsonDeserializer.cs:153-183 | A single rendered member followed by `}` is its name, `:`, its value, then the `}` |
| RoundTrip.MembersSplit | src/Microsoft.Framework.Runtime/JsonDeserializer/JsonDeserializer.cs:153-188 | Several rendered members are the first member, a comma, and the rest |
| RoundTrip.MemberReadsBack | src/Microsoft.Framework.Runtime/JsonDeserializer/JsonDeserializer.cs:153-179 | The name of a rendered member reads back as itself, and its value as its meaning |
| RoundTrip.MemberPassLast | src/Microsoft.Framework.Runtime/JsonDeserializer/JsonDeserializer.cs:149-183 | A pass over a member followed by `}` stores the value under the name and closes the object |
| RoundTrip.MemberPassMore | src/Microsoft.Framework.Runtime/JsonDeserializer/JsonDeserializer.cs:149-188 | A pass over a member followed by `,` stores the value under the name and goes on |
| RoundTrip.MemberLoopCloses | src/Microsoft.Framework.Runtime/JsonDeserializer/JsonDeserializer.cs:149-183 | A quoted name, `:` and a value followed by `}` close the object with the value stored |
| RoundTrip.MemberLoopGoesOn | src/Microsoft.Framework.Runtime/JsonDeserializer/JsonDeserializer.cs:149-188 | A quoted name, `:` and a value followed by `,` store the value and go on |
| RoundTrip.MemberRestCloses | src/Microsoft.Framework.Runtime/JsonDeserializer/JsonDeserializer.cs:174-183 | Below the cap, a value followed by `}` is stored and the object closed |
| RoundTrip.MemberRestGoesOn | src/Microsoft.Framework.Runtime/JsonDeserializer/JsonDeserializer.cs:174-188 | Below the cap, a value followed by `,` is stored and the loop goes on |
| RoundTrip.LastMemberStep | src/Microsoft.Framework.Runtime/JsonDeserializer/JsonDeserializer.cs:149-183 | The last rendered member closes the object with every member stored |
| RoundTrip.MembersStep | src/Microsoft.Framework.Runtime/JsonDeserializer/JsonDeserializer.cs:149-188 | The first of several members is stored, and the rest remain after the comma |
| RoundTrip.MembersReadBack | src/Microsoft.Framework.Runtime/JsonDeserializer/JsonDeserializer.cs:140-196 | The dictionary loop over rendered members stores each of them in order, and ends after the `}` |
| RoundTrip.NoMembersReadBack | src/Microsoft.Framework.Runtime/JsonDeserializer/JsonDeserializer.cs:161-171 | No members means the empty dictionary |
| RoundTrip.MembersTail | src/Microsoft.Framework.Runtime/JsonDeserializer/JsonDeserializer.cs:140-189 | The members after the first one and its comma are stored in order |
| RoundTrip.MembersAfterFirst | src/Microsoft.Framework.Runtime/JsonDeserializer/JsonDeserializer.cs:174-178 | Storing one member adds at most one to the count, so the rest stay under the cap |
| RoundTrip.AssignAppend | src/Microsoft.Framework.Runtime/JsonDeserializer/JsonDeserializer.cs:178 | Storing one more member puts its value under its name |
| RoundTrip.LastMemberWins | src/Microsoft.Framework.Runtime/JsonDeserializer/JsonDeserializer.cs:178 | Of two members with the same name, the dictionary keeps the later one |

## Left out

- The platform functions `Char.IsLetterOrDigit`, `decimal.TryParse`, `Double.TryParse` and
  `Utf16StringValidator.ValidateString` have no definition in the model. They are parameters, constrained
  only by the `Sound` facts, because their definitions are Unicode tables and library code outside the
  repository.
- A `double` result is kept as its bit pattern and a `decimal` as mantissa and scale, with no arithmetic,
  because floating point is out of scope. `Infinity` and `NaN` are whatever the platform parser says.
- The message text of each exception, and the index and text that `GetDebugString` embeds in it, are not
  modelled. `GetDebugString` itself is modelled. A failure is its `ErrorKind`, and the exception classes
  are folded into it.
- `Dictionary[null] = value` throwing `ArgumentNullException` is the `NullMemberName` kind. It is proved
  unreachable whenever the platform is `Sound`.
- The `_serializer` field of `JavaScriptObjectDeserializer` is left out, because it is stored and never read.
- `Char.IsWhiteSpace` is the fixed .NET table of white-space code points, not a Unicode-version-dependent
  lookup.
- `NumberStyles.Integer` and `NumberStyles.HexNumber` are modelled for the invariant culture only: ASCII
  digits, `+` and `-`, U+0009..U+000D and U+0020 as surrounding white space, and trailing U+0000 code
  units after everything else. `Numbers.Trim` removes those by index.
- Indices, counts and depths are unbounded integers, so these are not modelled:
  - `++depth` overflowing at `Int32.MaxValue`;
  - `_index + count` overflowing in `MoveNext(int)`, which is only ever called with 4.
- The member cap is a parameter, `Int32.MaxValue` by default, so that its check can be stated without
  building two billion members.
- The round-trip properties cover documents whose integers are in the `int` range and whose strings are
  surrogate-free. Other documents are outside what the writer in `RoundTrip` produces.
- The two copies `JavaScriptObjectDeserializer` and `JavaScriptString` are not modelled separately. They
  match `JsonObjectDeserializer` and `JsonString` line for line, apart from these differences:
  - the entry point `BasicDeserialize`, which has no length check;
  - the resource class of the messages.

  `BasicDeserialize` and its constructor are modelled as their own members, and everything else is shared.
