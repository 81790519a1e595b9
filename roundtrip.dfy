/**
 * The decoder and the encoder are inverse bijections between JSONNode values
 * and canonical Foundation object trees.
 */
module RoundTrip {
  import opened Foundation
  import opened Values
  import opened Decoder
  import opened Encoder

  /** Decoding what the encoder produced gives back the original node, for every node. */
  lemma {:induction false} DecodeUnwrapped(node: JSONNode)
    ensures Decode(Unwrapped(node)) == node
  {
    match node
    case Array(nodes) =>
      forall i | 0 <= i < |nodes| ensures Decode(Unwrapped(nodes[i])) == nodes[i] {
        DecodeUnwrapped(nodes[i]);
      }
      assert Decode(Unwrapped(node)).nodes == nodes;
    case Dictionary(entries) =>
      forall key | key in entries ensures Decode(Unwrapped(entries[key])) == entries[key] {
        DecodeUnwrapped(entries[key]);
      }
      assert Decode(Unwrapped(node)).entries == entries;
    case _ =>
  }

  /** Decoding an unwrapped array element by element gives back the original elements. */
  lemma {:induction false} DecodeUnwrappedArray(nodes: seq<JSONNode>)
    ensures |UnwrappedArray(nodes)| == |nodes|
    ensures forall i :: 0 <= i < |nodes| ==> Decode(UnwrappedArray(nodes)[i]) == nodes[i]
  {
    forall i | 0 <= i < |nodes| ensures Decode(UnwrappedArray(nodes)[i]) == nodes[i] {
      DecodeUnwrapped(nodes[i]);
    }
  }

  /**
   * Encoding what the decoder produced gives back the original tree, for
   * every canonical tree: booleans boxed as 0 or 1 in a char, integers in a
   * long long, doubles in a double, no unrecognised objects.
   */
  lemma {:induction false} UnwrappedDecode(json: Object)
    requires Canonical(json)
    ensures Unwrapped(Decode(json)) == json
  {
    match json
    case NSArray(items) =>
      forall i | 0 <= i < |items| ensures Unwrapped(Decode(items[i])) == items[i] {
        UnwrappedDecode(items[i]);
      }
      assert Unwrapped(Decode(json)).items == items;
    case NSDictionary(entries) =>
      forall key | key in entries ensures Unwrapped(Decode(entries[key])) == entries[key] {
        UnwrappedDecode(entries[key]);
      }
      assert Unwrapped(Decode(json)).entries == entries;
    case _ =>
  }

  /** Two nodes with the same encoding are the same node. */
  lemma UnwrappedInjective(a: JSONNode, b: JSONNode)
    requires Unwrapped(a) == Unwrapped(b)
    ensures a == b
  {
    DecodeUnwrapped(a);
    DecodeUnwrapped(b);
  }
}
