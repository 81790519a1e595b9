/**
 * The value model: `JSONNode`, a recursive tagged union over the JSON value
 * kinds, and the structural equality that `Equatable` gives it.
 */
module Values {
  import opened Scalars

  /** One JSON value. Containers hold further nodes, so every node is a finite tree. */
  datatype JSONNode =
    | Null
    | String(text: string)
    | Integer(intValue: Int64)
    | FloatingPoint(doubleValue: Double)
    | Boolean(boolValue: bool)
    | Array(nodes: seq<JSONNode>)
    | Dictionary(entries: map<string, JSONNode>)

  /** The two nodes are built by the same case of the enum. */
  predicate SameCase(a: JSONNode, b: JSONNode) {
    || (a.Null? && b.Null?)
    || (a.String? && b.String?)
    || (a.Integer? && b.Integer?)
    || (a.FloatingPoint? && b.FloatingPoint?)
    || (a.Boolean? && b.Boolean?)
    || (a.Array? && b.Array?)
    || (a.Dictionary? && b.Dictionary?)
  }

  /**
   * `==` on JSONNode: the cases must match and the payloads must be equal,
   * doubles by IEEE comparison, arrays element by element, dictionaries
   * key by key (Swift's `==` on `[JSONNode]` and `[String: JSONNode]`).
   */
  function Equal(lhs: JSONNode, rhs: JSONNode): (r: bool)
    ensures r ==> SameCase(lhs, rhs)
    ensures r && lhs.Array? ==> |lhs.nodes| == |rhs.nodes|
    ensures r && lhs.Dictionary? ==> lhs.entries.Keys == rhs.entries.Keys
  {
    match (lhs, rhs)
    case (Null, Null) => true
    case (String(a), String(b)) => a == b
    case (Integer(a), Integer(b)) => a == b
    case (FloatingPoint(a), FloatingPoint(b)) => DoubleEqual(a, b)
    case (Boolean(a), Boolean(b)) => a == b
    case (Array(a), Array(b)) =>
      |a| == |b| && forall i :: 0 <= i < |a| ==> Equal(a[i], b[i])
    case (Dictionary(a), Dictionary(b)) =>
      a.Keys == b.Keys && forall k :: k in a ==> Equal(a[k], b[k])
    case _ => false
  }

  /** No double anywhere in the tree is a NaN. */
  predicate NaNFree(node: JSONNode) {
    match node
    case FloatingPoint(d) => !IsNaN(d)
    case Array(a) => forall i :: 0 <= i < |a| ==> NaNFree(a[i])
    case Dictionary(m) => forall k :: k in m ==> NaNFree(m[k])
    case _ => true
  }

  /** No double anywhere in the tree is a NaN or a zero. */
  predicate ExactlyComparable(node: JSONNode) {
    match node
    case FloatingPoint(d) => !IsNaN(d) && !IsZero(d)
    case Array(a) => forall i :: 0 <= i < |a| ==> ExactlyComparable(a[i])
    case Dictionary(m) => forall k :: k in m ==> ExactlyComparable(m[k])
    case _ => true
  }

  /** `==` is reflexive exactly on the nodes that hold no NaN. */
  lemma {:induction false} EqualReflexive(node: JSONNode)
    ensures Equal(node, node) <==> NaNFree(node)
  {
    match node
    case Array(a) =>
      forall i | 0 <= i < |a| ensures Equal(a[i], a[i]) <==> NaNFree(a[i]) {
        EqualReflexive(a[i]);
      }
    case Dictionary(m) =>
      forall k | k in m ensures Equal(m[k], m[k]) <==> NaNFree(m[k]) {
        EqualReflexive(m[k]);
      }
    case _ =>
  }

  lemma {:induction false} EqualSymmetric(a: JSONNode, b: JSONNode)
    ensures Equal(a, b) ==> Equal(b, a)
  {
    match (a, b)
    case (Array(x), Array(y)) =>
      forall i | 0 <= i < |x| && i < |y| ensures Equal(x[i], y[i]) ==> Equal(y[i], x[i]) {
        EqualSymmetric(x[i], y[i]);
      }
    case (Dictionary(x), Dictionary(y)) =>
      forall k | k in x && k in y ensures Equal(x[k], y[k]) ==> Equal(y[k], x[k]) {
        EqualSymmetric(x[k], y[k]);
      }
    case _ =>
  }

  lemma {:induction false} EqualTransitive(a: JSONNode, b: JSONNode, c: JSONNode)
    requires Equal(a, b) && Equal(b, c)
    ensures Equal(a, c)
  {
    match (a, b, c)
    case (Array(x), Array(y), Array(z)) =>
      forall i | 0 <= i < |x| ensures Equal(x[i], z[i]) {
        EqualTransitive(x[i], y[i], z[i]);
      }
    case (Dictionary(x), Dictionary(y), Dictionary(z)) =>
      forall k | k in x ensures Equal(x[k], z[k]) {
        EqualTransitive(x[k], y[k], z[k]);
      }
    case _ =>
  }

  /**
   * Away from NaNs and signed zeros, `==` on nodes is plain structural
   * identity: it tells apart exactly the trees that differ.
   */
  lemma {:induction false} EqualIsIdentity(a: JSONNode, b: JSONNode)
    requires ExactlyComparable(a)
    ensures Equal(a, b) <==> a == b
  {
    match (a, b)
    case (Array(x), Array(y)) =>
      forall i | 0 <= i < |x| && i < |y| ensures Equal(x[i], y[i]) <==> x[i] == y[i] {
        EqualIsIdentity(x[i], y[i]);
      }
      if Equal(a, b) {
        assert x == y;
      }
    case (Dictionary(x), Dictionary(y)) =>
      forall k | k in x && k in y ensures Equal(x[k], y[k]) <==> x[k] == y[k] {
        EqualIsIdentity(x[k], y[k]);
      }
      if Equal(a, b) {
        assert x == y;
      }
    case _ =>
  }
}
