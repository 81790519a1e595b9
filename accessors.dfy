/**
 * The read surface of a JSONNode: six typed accessors that yield their
 * payload only for the matching case, and two subscripts that always yield a
 * node, `Null` when there is nothing to find, so that look-ups can be chained.
 */
module Accessors {
  import opened Scalars
  import opened Wrappers
  import opened Values

  /** `string` */
  function StringValue(node: JSONNode): (r: Option<string>)
    ensures r.Some? <==> node.String?
    ensures r.Some? ==> node == String(r.value)
  {
    if node.String? then Some(node.text) else None
  }

  /** `integer` */
  function IntegerValue(node: JSONNode): (r: Option<Int64>)
    ensures r.Some? <==> node.Integer?
    ensures r.Some? ==> node == Integer(r.value)
  {
    if node.Integer? then Some(node.intValue) else None
  }

  /** `floatingPoint` */
  function FloatingPointValue(node: JSONNode): (r: Option<Double>)
    ensures r.Some? <==> node.FloatingPoint?
    ensures r.Some? ==> node == FloatingPoint(r.value)
  {
    if node.FloatingPoint? then Some(node.doubleValue) else None
  }

  /** `boolean` */
  function BooleanValue(node: JSONNode): (r: Option<bool>)
    ensures r.Some? <==> node.Boolean?
    ensures r.Some? ==> node == Boolean(r.value)
  {
    if node.Boolean? then Some(node.boolValue) else None
  }

  /** `array` */
  function ArrayValue(node: JSONNode): (r: Option<seq<JSONNode>>)
    ensures r.Some? <==> node.Array?
    ensures r.Some? ==> node == Array(r.value)
  {
    if node.Array? then Some(node.nodes) else None
  }

  /** `dictionary` */
  function DictionaryValue(node: JSONNode): (r: Option<map<string, JSONNode>>)
    ensures r.Some? <==> node.Dictionary?
    ensures r.Some? ==> node == Dictionary(r.value)
  {
    if node.Dictionary? then Some(node.entries) else None
  }

  /** How many of the six typed accessors yield a value on `node`. */
  function PresentCount(node: JSONNode): nat {
    (if StringValue(node).Some? then 1 else 0) + (if IntegerValue(node).Some? then 1 else 0)
    + (if FloatingPointValue(node).Some? then 1 else 0) + (if BooleanValue(node).Some? then 1 else 0)
    + (if ArrayValue(node).Some? then 1 else 0) + (if DictionaryValue(node).Some? then 1 else 0)
  }

  /**
   * The accessors partition the cases: at most one of them yields a value,
   * and all of them are absent exactly on `Null`.
   */
  lemma AccessorsPartition(node: JSONNode)
    ensures PresentCount(node) <= 1
    ensures PresentCount(node) == 0 <==> node.Null?
    ensures node.Null? <==>
      && StringValue(node).None? && IntegerValue(node).None? && FloatingPointValue(node).None?
      && BooleanValue(node).None? && ArrayValue(node).None? && DictionaryValue(node).None?
    ensures IntegerValue(node).Some? ==> FloatingPointValue(node).None? && BooleanValue(node).None?
    ensures FloatingPointValue(node).Some? ==> IntegerValue(node).None?
    ensures StringValue(node).Some? ==> IntegerValue(node).None? && ArrayValue(node).None?
    ensures ArrayValue(node).Some? ==> DictionaryValue(node).None?
  {
  }

  /**
   * `subscript(_ key: String)`: the value stored under `key` when the node is
   * a dictionary holding that key, and `Null` for a missing key or any other
   * case.
   */
  function KeySubscript(node: JSONNode, key: string): (r: JSONNode)
    ensures node.Dictionary? && key in node.entries ==> r == node.entries[key]
    ensures !node.Dictionary? || key !in node.entries ==> r == Null
  {
    match DictionaryValue(node)
    case Some(dictionary) => if key in dictionary then dictionary[key] else Null
    case None => Null
  }

  /**
   * `subscript(_ index: Int)`: `Null` on any node that is not an array. On an
   * array the element is read directly, which traps when `index` is out of
   * range, so a caller must keep it in range there.
   */
  function IndexSubscript(node: JSONNode, index: Int64): (r: JSONNode)
    requires node.Array? ==> 0 <= index < |node.nodes|
    ensures node.Array? ==> r == node.nodes[index]
    ensures !node.Array? ==> r == Null
  {
    match ArrayValue(node)
    case Some(elements) => elements[index]
    case None => Null
  }
}
