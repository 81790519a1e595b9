/**
 * The encoder: `unwrapped(for:)`, `unwrappedArray(for:)` and
 * `unwrappedDictionary(for:)` turn a JSONNode back into the Foundation object
 * tree that JSONSerialization writes out, case by case the inverse of the
 * decoder.
 */
module Encoder {
  import opened Scalars
  import opened Foundation
  import opened Values

  /** A boxed number of the kind Swift's bridging produces for `Bool`, `Int` and `Double`. */
  predicate CanonicalNumber(number: Number) {
    match number
    case Integral(code, v) =>
      (code == BoolReferenceType && (v == 0 || v == 1))
      || (code == IntReferenceType && -TwoTo63 <= v < TwoTo63)
    case Floating(code, _) => code == DoubleReferenceType
  }

  /**
   * The object trees the encoder can produce: strings, bridged numbers,
   * NSNull, and arrays and string-keyed dictionaries of these; nothing
   * unrecognised anywhere.
   */
  predicate Canonical(json: Object) {
    match json
    case NSString(_) => true
    case NSNumber(n) => CanonicalNumber(n)
    case NSArray(items) => forall i :: 0 <= i < |items| ==> Canonical(items[i])
    case NSDictionary(entries) => forall key :: key in entries ==> Canonical(entries[key])
    case NSNull => true
    case Unrecognised => false
  }

  /**
   * `unwrapped(for:)`: a string becomes an NSString, an `Int`, a `Double` and
   * a `Bool` are bridged to NSNumbers boxing a long long, a double and a BOOL
   * (a char holding 1 or 0), containers are unwrapped child by child, and
   * `Null` becomes NSNull. Every node has an unwrapped form, and it is canonical.
   */
  function Unwrapped(node: JSONNode): (r: Object)
    ensures Canonical(r)
  {
    match node
    case String(s) => NSString(s)
    case Integer(i) => NSNumber(Integral(IntReferenceType, i))
    case FloatingPoint(d) => NSNumber(Floating(DoubleReferenceType, d))
    case Boolean(b) => NSNumber(Integral(BoolReferenceType, if b then 1 else 0))
    case Array(nodes) => NSArray(UnwrappedArray(nodes))
    case Dictionary(entries) => NSDictionary(map key | key in entries :: Unwrapped(entries[key]))
    case Null => NSNull
  }

  /** `unwrappedArray(for:)`: the unwrapped children, in order. */
  function UnwrappedArray(nodes: seq<JSONNode>): (r: seq<Object>)
    ensures |r| == |nodes|
    ensures forall i :: 0 <= i < |r| ==> r[i] == Unwrapped(nodes[i])
    ensures forall i :: 0 <= i < |r| ==> Canonical(r[i])
  {
    seq(|nodes|, i requires 0 <= i < |nodes| => Unwrapped(nodes[i]))
  }

  /**
   * `unwrappedDictionary(for:)`: a loop that fills a fresh dictionary one key
   * at a time, in whatever order the source dictionary yields its keys.
   */
  method UnwrappedDictionary(nodeDictionary: map<string, JSONNode>) returns (dictionary: map<string, Object>)
    ensures dictionary.Keys == nodeDictionary.Keys
    ensures forall key :: key in dictionary ==> dictionary[key] == Unwrapped(nodeDictionary[key])
    ensures NSDictionary(dictionary) == Unwrapped(Dictionary(nodeDictionary))
  {
    dictionary := map[];
    var pending := nodeDictionary.Keys;
    while pending != {}
      invariant pending <= nodeDictionary.Keys
      invariant dictionary.Keys == nodeDictionary.Keys - pending
      invariant forall key :: key in dictionary ==> dictionary[key] == Unwrapped(nodeDictionary[key])
      decreases pending
    {
      var key :| key in pending;
      dictionary := dictionary[key := Unwrapped(nodeDictionary[key])];
      pending := pending - {key};
    }
    UnwrapsEntrywise(nodeDictionary, dictionary);
  }

  /** A dictionary unwraps to the given entries when they have its keys and hold the unwrapping of each value. */
  lemma UnwrapsEntrywise(entries: map<string, JSONNode>, expected: map<string, Object>)
    requires expected.Keys == entries.Keys
    requires forall key :: key in expected ==> expected[key] == Unwrapped(entries[key])
    ensures Unwrapped(Dictionary(entries)) == NSDictionary(expected)
  {
    assert Unwrapped(Dictionary(entries)).entries == expected;
  }
}
