/**
 * The decoder: `init(JSON:)` classifies a Foundation object tree into a
 * JSONNode, and `nodeRepresentation(fromNumber:)` classifies one NSNumber by
 * its Objective-C type encoding. Decoding never fails: every shape it does
 * not recognise becomes `Null`, and containers keep every element and key.
 */
module Decoder {
  import opened Scalars
  import opened Wrappers
  import opened Foundation
  import opened Values

  /**
   * `nodeRepresentation(fromNumber:)`: the number's type encoding is compared
   * with the Bool, then the Int, then the Double reference encodings, and the
   * first match decides the case; any other encoding gives `Null`.
   */
  function NodeRepresentation(number: Number): (r: JSONNode)
    ensures r.Boolean? <==> number.ObjCType() == BoolReferenceType
    ensures r.Integer? <==> number.ObjCType() == IntReferenceType
    ensures r.FloatingPoint? <==> number.ObjCType() == DoubleReferenceType
    ensures r.Null? <==> number.ObjCType() !in {BoolReferenceType, IntReferenceType, DoubleReferenceType}
    ensures r.Boolean? ==> number.Integral? && r.boolValue == (number.integer != 0)
    ensures r.Integer? ==> number.Integral? && r.intValue == Wrap64(number.integer)
    ensures r.FloatingPoint? ==> number == Floating(DoubleReferenceType, r.doubleValue)
  {
    if number.ObjCType() == BoolReferenceType then
      Boolean(number.BoolValue())
    else if number.ObjCType() == IntReferenceType then
      Integer(number.IntValue())
    else if number.ObjCType() == DoubleReferenceType then
      FloatingPoint(number.DoubleValue())
    else
      Null
  }

  /**
   * Swift's `flatMap` on an array, with a closure whose result is promoted to
   * an optional: the present results, in order, the absent ones skipped. When
   * the closure never yields an absent result, nothing is skipped and
   * `flatMap` is an element-wise map.
   */
  function FlatMap<A, B>(xs: seq<A>, transform: A --> Option<B>): (r: seq<B>)
    requires forall i :: 0 <= i < |xs| ==> transform.requires(xs[i])
    ensures |r| <= |xs|
    ensures (forall i :: 0 <= i < |xs| ==> transform(xs[i]).Some?) ==>
      |r| == |xs| && forall i :: 0 <= i < |xs| ==> r[i] == transform(xs[i]).value
  {
    if xs == [] then
      []
    else
      var rest := FlatMap(xs[1..], transform);
      match transform(xs[0])
      case Some(y) => [y] + rest
      case None => rest
  }

  /**
   * `init(JSON:)`: strings and numbers become leaves, arrays and dictionaries
   * are decoded child by child, and everything else (NSNull included) is `Null`.
   */
  function Decode(json: Object): (r: JSONNode)
    ensures r.String? <==> json.NSString?
    ensures r.Array? <==> json.NSArray?
    ensures r.Dictionary? <==> json.NSDictionary?
    ensures json.NSString? ==> r.text == json.text
    ensures json.NSArray? ==> |r.nodes| == |json.items|
    ensures json.NSDictionary? ==> r.entries.Keys == json.entries.Keys
    ensures json.NSNull? || json.Unrecognised? ==> r.Null?
  {
    match json
    case NSString(s) => String(s)
    case NSNumber(n) => NodeRepresentation(n)
    case NSArray(items) =>
      Array(FlatMap(items, (item: Object) requires item in items => Some(Decode(item))))
    case NSDictionary(entries) =>
      Dictionary(map key | key in entries :: Decode(entries[key]))
    case _ => Null
  }

  /**
   * The loop of `init(JSON:)` that fills the decoded dictionary one key at a
   * time; the keys are visited in whatever order the dictionary yields them.
   */
  method DecodeEntries(jsonDictionary: map<string, Object>) returns (dictionary: map<string, JSONNode>)
    ensures dictionary.Keys == jsonDictionary.Keys
    ensures forall key :: key in dictionary ==> dictionary[key] == Decode(jsonDictionary[key])
    ensures Dictionary(dictionary) == Decode(NSDictionary(jsonDictionary))
  {
    dictionary := map[];
    var pending := jsonDictionary.Keys;
    while pending != {}
      invariant pending <= jsonDictionary.Keys
      invariant dictionary.Keys == jsonDictionary.Keys - pending
      invariant forall key :: key in dictionary ==> dictionary[key] == Decode(jsonDictionary[key])
      decreases pending
    {
      var key :| key in pending;
      dictionary := dictionary[key := Decode(jsonDictionary[key])];
      pending := pending - {key};
    }
    DecodesEntrywise(jsonDictionary, dictionary);
  }

  /** A dictionary decodes to the expected entries when each of its values does. */
  lemma DecodesEntrywise(entries: map<string, Object>, expected: map<string, JSONNode>)
    requires entries.Keys == expected.Keys
    requires forall key :: key in entries ==> Decode(entries[key]) == expected[key]
    ensures Decode(NSDictionary(entries)) == Dictionary(expected)
  {
    assert Decode(NSDictionary(entries)).entries == expected;
  }

  /**
   * An array decodes element by element: the decoding closure always yields
   * a node, so `flatMap` drops nothing and keeps the order.
   */
  lemma DecodeArray(items: seq<Object>)
    ensures Decode(NSArray(items)).Array?
    ensures |Decode(NSArray(items)).nodes| == |items|
    ensures forall i :: 0 <= i < |items| ==> Decode(NSArray(items)).nodes[i] == Decode(items[i])
  {
  }
}
