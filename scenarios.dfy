/**
 * Concrete documents and the answers the library's own test-suite expects
 * from them, stated over the model.
 */
module Scenarios {
  import opened Scalars
  import opened Wrappers
  import opened Foundation
  import opened Values
  import opened Decoder
  import opened Accessors

  /** The binary64 value nearest to 3.14. */
  const Pi314: Double := Double(0x4009_1EB8_51EB_851F)
  /** The binary64 value 5.0. */
  const Five: Double := Double(0x4014_0000_0000_0000)

  /** The array under the test document's "array" key. */
  function TestArray(): seq<Object> {
    [NSString("arrayValue1"), NSString("arrayValue2"), NSString("arrayValue3")]
  }

  /** The dictionary under the test document's "dictionary" key. */
  function TestDictionary(): map<string, Object> {
    map["key1" := NSString("value1"), "key2" := NSString("value2"), "key3" := NSString("value3")]
  }

  /** The object tree JSONSerialization yields for the test document. */
  function TestDocument(): Object {
    NSDictionary(map[
      "string" := NSString("This is a string"),
      "int" := NSNumber(Integral(IntReferenceType, 5)),
      "floatingPoint" := NSNumber(Floating(DoubleReferenceType, Pi314)),
      "bool" := NSNumber(Integral(BoolReferenceType, 1)),
      "array" := NSArray(TestArray()),
      "dictionary" := NSDictionary(TestDictionary())
    ])
  }

  /** The nodes the test document's "array" should decode to. */
  function ExpectedArray(): seq<JSONNode> {
    [String("arrayValue1"), String("arrayValue2"), String("arrayValue3")]
  }

  /** The entries the test document's "dictionary" should decode to. */
  function ExpectedDictionary(): map<string, JSONNode> {
    map["key1" := String("value1"), "key2" := String("value2"), "key3" := String("value3")]
  }

  /** The node the test document should decode to. */
  function ExpectedDocument(): JSONNode {
    Dictionary(map[
      "string" := String("This is a string"),
      "int" := Integer(5),
      "floatingPoint" := FloatingPoint(Pi314),
      "bool" := Boolean(true),
      "array" := Array(ExpectedArray()),
      "dictionary" := Dictionary(ExpectedDictionary())
    ])
  }

  lemma TestArrayDecodes()
    ensures Decode(NSArray(TestArray())) == Array(ExpectedArray())
  {
    DecodeArray(TestArray());
  }

  lemma TestDictionaryDecodes()
    ensures Decode(NSDictionary(TestDictionary())) == Dictionary(ExpectedDictionary())
  {
    DecodesEntrywise(TestDictionary(), ExpectedDictionary());
  }

  /** The test document decodes to the expected node, key by key. */
  lemma TestDocumentDecodes()
    ensures Decode(TestDocument()) == ExpectedDocument()
  {
    var json := TestDocument().entries;
    var expected := ExpectedDocument().entries;
    forall key | key in json ensures Decode(json[key]) == expected[key] {
      if key == "array" {
        TestArrayDecodes();
      } else if key == "dictionary" {
        TestDictionaryDecodes();
      }
    }
    DecodesEntrywise(json, expected);
  }

  /**
   * Each key of the decoded test document (`TestDocumentDecodes`) reads back
   * through its typed accessor.
   */
  lemma TestDocumentReads()
    ensures var doc := ExpectedDocument();
      && StringValue(KeySubscript(doc, "string")) == Some("This is a string")
      && IntegerValue(KeySubscript(doc, "int")) == Some(5)
      && FloatingPointValue(KeySubscript(doc, "floatingPoint")) == Some(Pi314)
      && BooleanValue(KeySubscript(doc, "bool")) == Some(true)
      && ArrayValue(KeySubscript(doc, "array"))
         == Some([String("arrayValue1"), String("arrayValue2"), String("arrayValue3")])
      && DictionaryValue(KeySubscript(doc, "dictionary"))
         == Some(map["key1" := String("value1"), "key2" := String("value2"), "key3" := String("value3")])
      && StringValue(IndexSubscript(KeySubscript(doc, "array"), 1)) == Some("arrayValue2")
      && KeySubscript(doc, "missing") == Null
      && KeySubscript(KeySubscript(doc, "int"), "anything") == Null
      && IndexSubscript(KeySubscript(doc, "string"), 7) == Null
  {
  }

  /**
   * A literal beyond the signed 64-bit range of `Int` reaches the decoder as a boxed double:
   * it reads back through `floatingPoint`, never through `integer`.
   */
  lemma IntegerBeyond64BitsReadsAsDouble(nearest: Double)
    ensures var node := KeySubscript(Decode(NSDictionary(map["largeInt" := NSNumber(Floating(DoubleReferenceType, nearest))])), "largeInt");
      FloatingPointValue(node) == Some(nearest) && IntegerValue(node) == None
  {
  }

  /** An `Int64` is boxed as a long long and reads back through `integer`. */
  lemma Int64ReadsAsInteger()
    ensures IntegerValue(KeySubscript(Decode(NSDictionary(map["int64" := NSNumber(Integral('q', 1234567890))])), "int64"))
         == Some(1234567890)
  {
  }

  /**
   * An `Int32` is boxed as a C int, whose encoding is none of the three
   * reference encodings, so the decoder as written yields `Null` for it.
   */
  lemma Int32DecodesToNull()
    ensures var node := KeySubscript(Decode(NSDictionary(map["int32" := NSNumber(Integral('i', 12345))])), "int32");
      node == Null && IntegerValue(node) == None
  {
  }

  /** A number boxed as a C char shares the BOOL encoding: 65 (`'A'`) decodes as `true`. */
  lemma CharNumberDecodesAsBoolean()
    ensures Decode(NSNumber(Integral('c', 65))) == Boolean(true)
    ensures Decode(NSNumber(Integral('c', 0))) == Boolean(false)
  {
  }

  /** Unrecognised children are kept as `Null`, never dropped. */
  lemma UnrecognisedChildrenBecomeNull()
    ensures Decode(NSArray([Unrecognised, NSString("a"), NSNull])) == Array([Null, String("a"), Null])
    ensures Decode(NSDictionary(map["k" := Unrecognised])) == Dictionary(map["k" := Null])
  {
    DecodeArray([Unrecognised, NSString("a"), NSNull]);
  }

  /** Equality is case-sensitive and, on doubles, IEEE's. */
  lemma EqualityWitnesses()
    ensures !Equal(Integer(5), FloatingPoint(Five))
    ensures !Equal(Integer(1), Boolean(true))
    ensures !Equal(FloatingPoint(QuietNaN), FloatingPoint(QuietNaN))
    ensures Equal(Array([Integer(5)]), Array([Integer(5)]))
    ensures !Equal(Array([Integer(5)]), Array([Integer(5), Null]))
  {
  }
}
