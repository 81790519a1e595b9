# JSONNode in Dafny

A model of the Swift library JSONNode: a recursive, immutable tagged union for
JSON values (`JSONNode`, with cases null, string, integer, floatingPoint,
boolean, array and dictionary) together with the five pieces of logic around
it, each proved against a specification:

- **Decoder** (`Decoder`): `init(JSON:)` classifies the untyped Foundation
  object tree that `JSONSerialization` produces; `nodeRepresentation(fromNumber:)`
  classifies an NSNumber by comparing its Objective-C type encoding with the
  encodings of `true` (`c`), of an `Int` (`q`) and of a `Double` (`d`), in that
  order. Everything unrecognised becomes `Null`; arrays keep every element and
  dictionaries every key.
- **Accessors** (`Accessors`): the typed getters `string`, `integer`,
  `floatingPoint`, `boolean`, `array`, `dictionary`, and the two subscripts.
- **Formatter** (`Formatter`): `debugDescription` / `nodeDescription(withIndent:)`.
- **Encoder** (`Encoder`): `unwrapped(for:)`, `unwrappedArray(for:)`,
  `unwrappedDictionary(for:)`.
- **Equality** (`Values.Equal`): the `Equatable` conformance.

Supporting modules: `Scalars` (Swift `Int` as a 64-bit range, Swift `Double`
as its IEEE 754 bit pattern with IEEE `==`), `Foundation` (NSNumber with its
type encoding, and the object tree: NSString, NSNumber, NSArray, NSDictionary,
NSNull, anything else), `RoundTrip` (decoder and encoder are inverse
bijections between nodes and canonical object trees) and `Scenarios` (the
documents of the library's test-suite).

The loops of the source (the decoder's dictionary loop, the formatter's array
and dictionary loops, the encoder's dictionary loop) are methods with loop
invariants, each proved to compute the corresponding pure function; the rest is
functions over datatypes.

Where the library's own tests, or what a caller would expect, and its code
disagree, the model follows the code:

- Only NSNumbers whose encoding is exactly `c`, `q` or `d` are classified; a
  number boxed as any other C type (an `Int32` is boxed as `i`) becomes `Null`,
  not `Integer` (`Scenarios.Int32DecodesToNull`). The test at
  `JSONNode/JSONNodeTests/JSONNodeTests.swift:113-124` expects `Integer` there;
  whether Foundation re-boxes such a number as `q` cannot be settled from the
  code, so the model keeps the three-entry table and this case is unresolved.
- A number boxed as a C char shares the BOOL encoding and decodes as a boolean
  (`Scenarios.CharNumberDecodesAsBoolean`).
- The integer subscript on an array traps when the index is out of range
  instead of returning `Null`; the model makes the index range a precondition.
- `==` on a bare `floatingPoint` node holding a NaN is false, so that node is
  unequal to itself. An array or dictionary holding a NaN can still equal
  itself in Swift, through the buffer-identity shortcut listed under
  "Left out". The model compares containers element by element, so in the
  model such a container is unequal to itself as well (`Values.EqualReflexive`).

The decoder tests the encoding of a number with `objCType == objCType`.
`objCType` is an `UnsafePointer<Int8>`, so this compares pointers, not the
C strings they point to. The model compares the one-character encodings
instead. It therefore assumes that two numbers with the same encoding report
the same pointer for it; the source does not ensure this. The char-as-boolean
case above rests on this assumption.

## Model

| member | source | states |
|---|---|---|
| `Values.Equal` | JSONNode/JSONNode/JSONNode.swift:216-244 | two nodes are equal only if they are built by the same case; equal arrays have equal lengths and equal dictionaries the same keys |
| `Values.EqualReflexive` | JSONNode/JSONNode/JSONNode.swift:229-230 | a node equals itself exactly when no double inside it is a NaN |
| `Values.EqualSymmetric` | JSONNode/JSONNode/JSONNode.swift:216-244 | `a == b` implies `b == a` |
| `Values.EqualTransitive` | JSONNode/JSONNode/JSONNode.swift:216-244 | `a == b` and `b == c` imply `a == c` |
| `Values.EqualIsIdentity` | JSONNode/JSONNode/JSONNode.swift:216-244 | for a node without NaNs or zeros, `==` holds exactly for the identical tree: cross-case pairs unequal, arrays pairwise, dictionaries key by key |
| `Scalars.Wrap64` | JSONNode/JSONNode/JSONNode.swift:66 | reading a boxed integer as `Int` keeps it modulo 2^64 and leaves any value in the 64-bit range unchanged |
| `Scalars.DoubleEqual` | JSONNode/JSONNode/JSONNode.swift:229-230 | Swift's `Double ==`: false whenever either side is a NaN, true for any non-NaN double compared with itself, and true for the two zeros |
| `Scalars.DoubleEqualReflexiveUnlessNaN` | JSONNode/JSONNode/JSONNode.swift:229-230 | a double equals itself exactly when it is not a NaN |
| `Scalars.DoubleEqualTransitive` | JSONNode/JSONNode/JSONNode.swift:229-230 | IEEE equality of doubles is transitive |
| `Scalars.DoubleEqualIsIdentity` | JSONNode/JSONNode/JSONNode.swift:229-230 | away from NaN and the zeros, equal doubles have the same bits |
| `Scalars.DoubleEqualIsNotIdentity` | JSONNode/JSONNode/JSONNode.swift:229-230 | a NaN is unequal to itself, and +0 equals -0 although their bits differ |
| `Decoder.NodeRepresentation` | JSONNode/JSONNode/JSONNode.swift:61-71 | the BOOL encoding gives `Boolean` of "non-zero", else the `Int` encoding gives `Integer` of the value reduced to 64 bits, else the `Double` encoding gives `FloatingPoint` of the boxed double, and every other encoding gives `Null` (each case if and only if) |
| `Decoder.Decode` | JSONNode/JSONNode/JSONNode.swift:37-54 | strings, arrays and dictionaries decode to the same case (if and only if); text is kept; arrays keep their length and dictionaries their key set; NSNull and unrecognised objects give `Null` |
| `Decoder.DecodeEntries` | JSONNode/JSONNode/JSONNode.swift:46-49 | the loop produces exactly the input's keys, each mapped to the decoding of its value, i.e. the decoded dictionary |
| `Decoder.FlatMap` | JSONNode/JSONNode/JSONNode.swift:44 | `flatMap` never returns more elements than its input; when the closure yields a value for every element it drops nothing and keeps the order: element i of the result is the closure's value for input element i |
| `Decoder.DecodeArray` | JSONNode/JSONNode/JSONNode.swift:43-44 | since the decoding closure always yields a node, an array decodes to an array of the same length whose element i is the decoding of input element i |
| `Accessors.StringValue` | JSONNode/JSONNode/JSONNode.swift:124-127 | present exactly on a string node, and then the node is `String` of the value |
| `Accessors.IntegerValue` | JSONNode/JSONNode/JSONNode.swift:129-132 | present exactly on an integer node, and then the node is `Integer` of the value |
| `Accessors.FloatingPointValue` | JSONNode/JSONNode/JSONNode.swift:134-137 | present exactly on a floating-point node, and then the node is `FloatingPoint` of the value |
| `Accessors.BooleanValue` | JSONNode/JSONNode/JSONNode.swift:139-142 | present exactly on a boolean node, and then the node is `Boolean` of the value |
| `Accessors.ArrayValue` | JSONNode/JSONNode/JSONNode.swift:144-147 | present exactly on an array node, and then the node is `Array` of the value |
| `Accessors.DictionaryValue` | JSONNode/JSONNode/JSONNode.swift:149-152 | present exactly on a dictionary node, and then the node is `Dictionary` of the value |
| `Accessors.AccessorsPartition` | JSONNode/JSONNode/JSONNode.swift:122-153 | no coercion: on every node at most one of the six accessors is present (a count of the present ones is at most 1), and all are absent exactly on `Null` |
| `Accessors.KeySubscript` | JSONNode/JSONNode/JSONNode.swift:161-163 | the value under the key when the node is a dictionary holding it, `Null` for a missing key or any other case |
| `Accessors.IndexSubscript` | JSONNode/JSONNode/JSONNode.swift:157-159 | `Null` on any non-array; on an array, with the index in range, the element at the index |
| `Formatter.Description` | JSONNode/JSONNode/JSONNode.swift:83-119 | the description of any node begins with the indent it is given; `Null` renders as the indent followed by `NULL`; an array opens with the indent, `[` and a newline and closes with the indent and `]`; a dictionary opens with the indent and `{` and closes with the indent and `}` |
| `Formatter.DebugDescription` | JSONNode/JSONNode/JSONNode.swift:79-81 | the debug description begins with a single space |
| `Formatter.ArrayDescription` | JSONNode/JSONNode/JSONNode.swift:100-106 | the appending loop produces exactly the array's description |
| `Formatter.DictionaryDescription` | JSONNode/JSONNode/JSONNode.swift:108-114 | the appending loop over the keys in dictionary order produces exactly the dictionary's description |
| `Formatter.ArrayChildRendered` | JSONNode/JSONNode/JSONNode.swift:100-106 | every child appears in its array's description, rendered at twice the indent and followed by a newline and a comma |
| `Formatter.DictionaryEntryRendered` | JSONNode/JSONNode/JSONNode.swift:108-114 | every key appears in its dictionary's description at twice the indent, followed by its value rendered at three times the indent |
| `Formatter.DescriptionOrderIndependent` | JSONNode/JSONNode/JSONNode.swift:108-114 | a tree without dictionaries renders identically under every key order |
| `Formatter.DescriptionLengthOrderIndependent` | JSONNode/JSONNode/JSONNode.swift:83-119 | for every tree, dictionaries included, the description has the same length under every key order: the order moves text around but never adds or removes any |
| `Formatter.DecimalString` | JSONNode/JSONNode/JSONNode.swift:91-92 | `String(Int)` starts with a minus sign exactly for negative numbers |
| `Formatter.DecimalStringRoundTrip` | JSONNode/JSONNode/JSONNode.swift:91-92 | `String(Int)` reads back as the same integer |
| `Formatter.BoolString` | JSONNode/JSONNode/JSONNode.swift:97-98 | `String(Bool)` is "true" exactly for true and "false" exactly for false |
| `Encoder.Unwrapped` | JSONNode/JSONNode/JSONNode.swift:175-199 | every node unwraps, and always to a canonical tree: bridged `Bool`/`Int`/`Double` numbers, strings, NSNull and containers of these, nothing unrecognised |
| `Encoder.UnwrappedArray` | JSONNode/JSONNode/JSONNode.swift:201-203 | the unwrapped array has the same length, element i is the unwrapping of node i, and every element is canonical |
| `Encoder.UnwrappedDictionary` | JSONNode/JSONNode/JSONNode.swift:205-211 | the loop produces exactly the input's keys, each mapped to the unwrapping of its value |
| `RoundTrip.DecodeUnwrapped` | JSONNode/JSONNode/JSONNode.swift:175-199 | decoding the unwrapped form of any node gives back that node |
| `RoundTrip.DecodeUnwrappedArray` | JSONNode/JSONNode/JSONNode.swift:201-203 | decoding element i of an unwrapped array gives back node i, for every array |
| `RoundTrip.UnwrappedDecode` | JSONNode/JSONNode/JSONNode.swift:37-54 | unwrapping the decoding of any canonical tree gives back that tree |
| `RoundTrip.UnwrappedInjective` | JSONNode/JSONNode/JSONNode.swift:175-199 | distinct nodes have distinct unwrapped forms |
| `Scenarios.TestDocumentDecodes` | JSONNode/JSONNodeTests/JSONNodeTests.swift:16-23 | the object tree of the test document decodes to the expected node, key by key |
| `Scenarios.TestDocumentReads` | JSONNode/JSONNodeTests/JSONNodeTests.swift:30-98 | in the decoded test document the string, int, floatingPoint, bool, array and dictionary keys read back through their accessors; chained subscripts give `Null` on a missing key or the wrong case |
| `Scenarios.Int64ReadsAsInteger` | JSONNode/JSONNodeTests/JSONNodeTests.swift:100-111 | an `Int64` 1234567890 reads back through `integer` |
| `Scenarios.Int32DecodesToNull` | JSONNode/JSONNode/JSONNode.swift:65 | as written, an `Int32`-boxed number decodes to `Null` and has no `integer` |
| `Scenarios.IntegerBeyond64BitsReadsAsDouble` | JSONNode/JSONNodeTests/JSONNodeTests.swift:126-137 | a literal beyond the signed 64-bit range of `Int`, delivered as a boxed double, reads back through `floatingPoint` and not through `integer` |
| `Scenarios.CharNumberDecodesAsBoolean` | JSONNode/JSONNode/JSONNode.swift:63-64 | a number boxed as a C char decodes as a boolean, non-zero as true |
| `Scenarios.UnrecognisedChildrenBecomeNull` | JSONNode/JSONNode/JSONNode.swift:43-53 | unrecognised array elements and dictionary values are kept as `Null` |
| `Scenarios.EqualityWitnesses` | JSONNode/JSONNode/JSONNode.swift:216-244 | `Integer(5) != FloatingPoint(5.0)`, `Integer(1) != Boolean(true)`, NaN is unequal to itself, arrays compare by length and elements |

## Left out

- `init(data:)` and `serialise()` (JSONNode.swift:56-59, 168-173): thin wrappers over Foundation's JSON parser and serialiser, whose code is not part of this model. The claim that serialising cannot fail is not modelled: the serialiser rejects top-level scalars and non-finite doubles.
- `String(Double)` (JSONNode.swift:95): the decimal rendering of a double is a parameter of the formatter.
- Dictionary iteration order: Swift leaves it unspecified; the formatter takes it as a parameter that enumerates each dictionary's keys once, and the decoder and encoder loops pick keys in arbitrary order (their results do not depend on it).
- Reading a boxed double through `intValue`, or a boxed integer through `doubleValue`: conversions the decoder never performs; the model leaves them undefined.
- Numbers outside the double range (NSDecimalNumber, the TODO at JSONNode.swift:73): not modelled. An NSDecimalNumber reports the encoding `d`. If its `objCType` pointer equals that of a boxed `Double`, the source reads it through `doubleValue` as a `floatingPoint`; whether the pointers are equal is not settled by the source, and the model has no NSDecimalNumber.
- `Decoder.NodeRepresentation`: compares type encodings as characters, where the source compares the `objCType` pointers; it assumes that equal encodings give equal pointers.
- `Values.Equal`: compares strings and dictionary keys code point by code point. Swift's `String ==` and its dictionary keys use Unicode canonical equivalence, so "é" as U+00E9 equals "e" followed by U+0301 in Swift but not in the model.
- `Values.EqualIsIdentity`: holds for code-point strings. In Swift, two trees that differ only in canonically equivalent strings or keys are `==` without being identical.
- `Decoder.Decode`: keeps dictionary keys that differ by code points as separate keys. A Foundation dictionary can hold two canonically equivalent keys; Swift's decoded dictionary merges them into one key, holding the value stored last.
- `Decoder.DecodeEntries`: the same code-point key comparison as `Decoder.Decode`; the model never merges two keys.
- `Accessors.KeySubscript`: finds a key only when it has the same code points. Swift also finds a canonically equivalent key.
- `RoundTrip.UnwrappedDecode`: proved with code-point keys. In Swift it fails for a canonical dictionary holding two canonically equivalent keys, because decoding merges them.
- `Values.Equal`, `Values.EqualReflexive`: the buffer-identity shortcut of Swift's `==` on arrays and dictionaries (two copies of one buffer compare equal without looking at the elements, so an array holding a NaN can equal its own copy): the model has no notion of storage identity and compares element by element.
- Recursion depth: pathologically deep documents may exhaust the stack in the original; the model has unbounded recursion.
- `JSONNode.playground/Contents.swift`: a superseded prototype (failable initialiser, no null case, children that fail to decode are dropped), not part of this model.
- `JSONNodeExample.playground/Contents.swift`: a demonstration script with bundle file I/O, not part of this model.
- `JSONNode/JSONNodeTests/JSONNodeTests.swift`: the XCTest harness and its file loading; its expectations are stated in `Scenarios`.
