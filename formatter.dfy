/**
 * The debug formatter: `debugDescription` and `nodeDescription(withIndent:)`
 * render a node as text by recursive descent. Each nesting level doubles the
 * indent; dictionary values are rendered at three times the current indent.
 *
 * Swift leaves the iteration order of a dictionary unspecified, and the
 * rendering of a dictionary follows it, so the formatter is parameterised by
 * a `KeyOrder` that enumerates each dictionary's keys. `String(Double)` is a
 * parameter as well: the shortest round-tripping decimal form of a double is
 * not modelled.
 */
module Formatter {
  import opened Scalars
  import opened Values

  /** The order in which a dictionary yields its keys. */
  type KeyOrder = map<string, JSONNode> -> seq<string>

  /** All different. */
  predicate Distinct(keys: seq<string>) {
    forall i, j :: 0 <= i < j < |keys| ==> keys[i] != keys[j]
  }

  /** `keys` lists every key of `dictionary` exactly once. */
  predicate Enumerates(keys: seq<string>, dictionary: map<string, JSONNode>) {
    && (forall key :: key in keys ==> key in dictionary)
    && (forall key :: key in dictionary ==> key in keys)
    && Distinct(keys)
  }

  /** Every dictionary is enumerated exactly once per key. */
  ghost predicate ValidOrder(order: KeyOrder) {
    forall dictionary :: Enumerates(order(dictionary), dictionary)
  }

  /** The pieces, concatenated left to right. */
  function Concat(pieces: seq<string>): string {
    if pieces == [] then "" else Concat(pieces[..|pieces| - 1]) + pieces[|pieces| - 1]
  }

  /** `String(Bool)` */
  function BoolString(b: bool): (r: string)
    ensures r == "true" <==> b
    ensures r == "false" <==> !b
  {
    if b then "true" else "false"
  }

  function DigitChar(d: nat): (c: char)
    requires d < 10
    ensures '0' <= c <= '9' && c as int - '0' as int == d
  {
    ('0' as int + d) as char
  }

  /** The decimal digits of `n`, most significant first, without leading zeros. */
  function Digits(n: nat): (r: string)
    ensures |r| >= 1
    ensures forall i :: 0 <= i < |r| ==> '0' <= r[i] <= '9'
    ensures |r| > 1 ==> r[0] != '0'
    decreases n
  {
    if n < 10 then [DigitChar(n)] else Digits(n / 10) + [DigitChar(n % 10)]
  }

  /** `String(Int)`: optional minus sign, then the digits. */
  function DecimalString(n: int): (r: string)
    ensures |r| >= 1
    ensures r[0] == '-' <==> n < 0
  {
    if n < 0 then "-" + Digits(-n) else Digits(n)
  }

  /** Reading a string of decimal digits back as a number. */
  function DigitsValue(s: string): int
    decreases |s|
  {
    if s == [] then 0 else DigitsValue(s[..|s| - 1]) * 10 + (s[|s| - 1] as int - '0' as int)
  }

  /** Reading a decimal string with an optional minus sign back as a number. */
  function ParseDecimal(s: string): int {
    if s != [] && s[0] == '-' then -DigitsValue(s[1..]) else DigitsValue(s)
  }

  lemma {:induction false} DigitsRoundTrip(n: nat)
    ensures DigitsValue(Digits(n)) == n
    decreases n
  {
    if n >= 10 {
      DigitsRoundTrip(n / 10);
      var s := Digits(n);
      assert s[..|s| - 1] == Digits(n / 10);
    }
  }

  /** `String(Int)` loses nothing: the text reads back as the same integer. */
  lemma DecimalStringRoundTrip(n: int)
    ensures ParseDecimal(DecimalString(n)) == n
  {
    if n < 0 {
      DigitsRoundTrip(-n);
      assert DecimalString(n)[1..] == Digits(-n);
    } else {
      DigitsRoundTrip(n);
    }
  }

  /**
   * `nodeDescription(withIndent:)`. Scalars are the indent followed by their
   * text; an array is `[`, one line per child at the doubled indent, each
   * followed by a newline and a comma, and `]`; a dictionary is `{`, then per
   * key the doubled indent, the key, a colon and the value at three times the
   * indent, and `}`.
   */
  function Description(node: JSONNode, indent: string, order: KeyOrder, showDouble: Double -> string): (r: string)
    requires ValidOrder(order)
    ensures |indent| <= |r| && r[..|indent|] == indent
    ensures node.Null? ==> r == indent + "NULL"
    ensures node.Array? ==>
      |r| >= 2 * |indent| + 3 && r[..|indent| + 2] == indent + "[\n" && r[|r| - |indent| - 1..] == indent + "]"
    ensures node.Dictionary? ==>
      |r| >= 2 * |indent| + 2 && r[..|indent| + 1] == indent + "{" && r[|r| - |indent| - 1..] == indent + "}"
    decreases node, 2
  {
    var nextIndent := indent + indent;
    match node
    case String(s) => indent + s
    case Integer(i) => indent + DecimalString(i)
    case FloatingPoint(d) => indent + showDouble(d)
    case Boolean(b) => indent + BoolString(b)
    case Array(nodes) =>
      indent + "[\n" + Concat(ArrayLines(nodes, nextIndent, order, showDouble)) + indent + "]"
    case Dictionary(entries) =>
      indent + "{" + Concat(EntryLines(entries, nextIndent, nextIndent + indent, order, showDouble)) + indent + "}"
    case Null => indent + "NULL"
  }

  /** The text appended for each child of an array: its description at `childIndent`, a newline and a comma. */
  function ArrayLines(nodes: seq<JSONNode>, childIndent: string, order: KeyOrder, showDouble: Double -> string): (r: seq<string>)
    requires ValidOrder(order)
    ensures |r| == |nodes|
    decreases Array(nodes), 0
  {
    seq(|nodes|, i requires 0 <= i < |nodes| => Description(nodes[i], childIndent, order, showDouble) + "\n, ")
  }

  /**
   * The text appended for one key of a dictionary: the key at `keyIndent`, a
   * colon, a newline, the value's description at `valueIndent` and a comma.
   */
  function EntryLine(entries: map<string, JSONNode>, key: string, keyIndent: string, valueIndent: string, order: KeyOrder, showDouble: Double -> string): string
    requires ValidOrder(order) && key in entries
    decreases Dictionary(entries), 0
  {
    keyIndent + key + ": \n" + Description(entries[key], valueIndent, order, showDouble) + ", "
  }

  /** The text appended for each key of a dictionary, in dictionary order. */
  function EntryLines(entries: map<string, JSONNode>, keyIndent: string, valueIndent: string, order: KeyOrder, showDouble: Double -> string): (r: seq<string>)
    requires ValidOrder(order)
    ensures |r| == |order(entries)|
    decreases Dictionary(entries), 1
  {
    var keys := order(entries);
    seq(|keys|, i requires 0 <= i < |keys| => EntryLine(entries, keys[i], keyIndent, valueIndent, order, showDouble))
  }

  /** `debugDescription`: the description at an indent of one space. */
  function DebugDescription(node: JSONNode, order: KeyOrder, showDouble: Double -> string): (r: string)
    requires ValidOrder(order)
    ensures |r| >= 1 && r[0] == ' '
  {
    Description(node, " ", order, showDouble)
  }

  /** The array case of `nodeDescription(withIndent:)`, as the loop that appends one child at a time. */
  method ArrayDescription(nodes: seq<JSONNode>, indent: string, order: KeyOrder, showDouble: Double -> string)
    returns (returnString: string)
    requires ValidOrder(order)
    ensures returnString == Description(Array(nodes), indent, order, showDouble)
  {
    var nextIndent := indent + indent;
    ghost var lines := ArrayLines(nodes, nextIndent, order, showDouble);
    returnString := indent + "[\n";
    for i := 0 to |nodes|
      invariant returnString == indent + "[\n" + Concat(lines[..i])
    {
      var line := Description(nodes[i], nextIndent, order, showDouble) + "\n, ";
      assert line == lines[i];
      assert lines[..i + 1][..i] == lines[..i];
      returnString := returnString + line;
    }
    assert lines[..|nodes|] == lines;
    returnString := returnString + indent + "]";
  }

  /** The dictionary case of `nodeDescription(withIndent:)`, as the loop over the keys in dictionary order. */
  method DictionaryDescription(entries: map<string, JSONNode>, indent: string, order: KeyOrder, showDouble: Double -> string)
    returns (returnString: string)
    requires ValidOrder(order)
    ensures returnString == Description(Dictionary(entries), indent, order, showDouble)
  {
    var nextIndent := indent + indent;
    var keys := order(entries);
    ghost var lines := EntryLines(entries, nextIndent, nextIndent + indent, order, showDouble);
    returnString := indent + "{";
    for i := 0 to |keys|
      invariant returnString == indent + "{" + Concat(lines[..i])
    {
      var line := EntryLine(entries, keys[i], nextIndent, nextIndent + indent, order, showDouble);
      assert lines[..i + 1][..i] == lines[..i];
      returnString := returnString + line;
    }
    assert lines[..|keys|] == lines;
    returnString := returnString + indent + "}";
  }

  lemma {:induction false} ConcatAppend(p: seq<string>, q: seq<string>)
    ensures Concat(p + q) == Concat(p) + Concat(q)
    decreases |q|
  {
    if q != [] {
      var last := |q| - 1;
      assert (p + q)[..|p + q| - 1] == p + q[..last];
      ConcatAppend(p, q[..last]);
    } else {
      assert p + q == p;
    }
  }

  /** `part` appears inside `whole`, starting at position `k`. */
  predicate OccursAt(part: string, whole: string, k: int) {
    0 <= k <= |whole| - |part| && whole[k..k + |part|] == part
  }

  /** `part` appears somewhere inside `whole`. */
  ghost predicate Occurs(part: string, whole: string) {
    exists k :: OccursAt(part, whole, k)
  }

  lemma OccursInMiddle(before: string, part: string, after: string)
    ensures OccursAt(part, before + part + after, |before|)
  {
    assert (before + part + after)[|before|..|before| + |part|] == part;
  }

  /** An occurrence survives adding text on either side. */
  lemma {:induction false} OccursWithin(part: string, middle: string, k: int, prefix: string, suffix: string)
    requires OccursAt(part, middle, k)
    ensures OccursAt(part, prefix + middle + suffix, |prefix| + k)
  {
    var whole := prefix + middle + suffix;
    forall j | 0 <= j < |part| ensures whole[|prefix| + k + j] == part[j] {
      assert middle[k + j] == part[j];
    }
    assert whole[|prefix| + k..|prefix| + k + |part|] == part;
  }

  lemma {:induction false} ConcatSnoc(lines: seq<string>, line: string)
    ensures Concat(lines + [line]) == Concat(lines) + line
  {
    assert (lines + [line])[..|lines|] == lines;
  }

  /** Concatenation splits around any one of its pieces. */
  lemma {:induction false} ConcatSplit(lines: seq<string>, i: nat)
    requires i < |lines|
    ensures Concat(lines) == Concat(lines[..i]) + lines[i] + Concat(lines[i + 1..])
  {
    ConcatSnoc(lines[..i], lines[i]);
    assert lines[..i] + [lines[i]] == lines[..i + 1];
    assert lines[..i + 1] + lines[i + 1..] == lines;
    ConcatAppend(lines[..i + 1], lines[i + 1..]);
  }

  /** The line `lines[i]` appears in the concatenation of `lines` between `prefix` and `suffix`. */
  lemma {:induction false} LineOccurs(prefix: string, lines: seq<string>, suffix: string, i: nat)
    requires i < |lines|
    ensures Occurs(lines[i], prefix + Concat(lines) + suffix)
  {
    ConcatSplit(lines, i);
    var before := Concat(lines[..i]);
    OccursInMiddle(before, lines[i], Concat(lines[i + 1..]));
    OccursWithin(lines[i], Concat(lines), |before|, prefix, suffix);
  }

  /**
   * Every child of an array is rendered inside the array's description at
   * twice the array's indent, followed by a newline and a comma.
   */
  lemma ArrayChildRendered(nodes: seq<JSONNode>, indent: string, order: KeyOrder, showDouble: Double -> string, i: nat)
    requires ValidOrder(order) && i < |nodes|
    ensures Occurs(Description(nodes[i], indent + indent, order, showDouble) + "\n, ",
                   Description(Array(nodes), indent, order, showDouble))
  {
    var lines := ArrayLines(nodes, indent + indent, order, showDouble);
    assert lines[i] == Description(nodes[i], indent + indent, order, showDouble) + "\n, ";
    assert Description(Array(nodes), indent, order, showDouble) == (indent + "[\n") + Concat(lines) + (indent + "]");
    LineOccurs(indent + "[\n", lines, indent + "]", i);
  }

  /**
   * Every key of a dictionary is rendered inside the dictionary's description
   * at twice the dictionary's indent, and its value at three times it.
   */
  lemma DictionaryEntryRendered(entries: map<string, JSONNode>, indent: string, order: KeyOrder, showDouble: Double -> string, key: string)
    requires ValidOrder(order) && key in entries
    ensures Occurs(indent + indent + key + ": \n" + Description(entries[key], indent + indent + indent, order, showDouble) + ", ",
                   Description(Dictionary(entries), indent, order, showDouble))
  {
    var keys := order(entries);
    assert Enumerates(keys, entries);
    var i :| 0 <= i < |keys| && keys[i] == key;
    var lines := EntryLines(entries, indent + indent, indent + indent + indent, order, showDouble);
    assert lines[i] == EntryLine(entries, key, indent + indent, indent + indent + indent, order, showDouble);
    assert Description(Dictionary(entries), indent, order, showDouble) == (indent + "{") + Concat(lines) + (indent + "}");
    LineOccurs(indent + "{", lines, indent + "}", i);
  }

  /** No dictionary anywhere in the tree. */
  predicate DictionaryFree(node: JSONNode) {
    match node
    case Dictionary(_) => false
    case Array(nodes) => forall i :: 0 <= i < |nodes| ==> DictionaryFree(nodes[i])
    case _ => true
  }

  /**
   * Only dictionaries make the description depend on iteration order: a tree
   * without dictionaries renders the same under every key order.
   */
  lemma {:induction false} DescriptionOrderIndependent(node: JSONNode, indent: string, order1: KeyOrder, order2: KeyOrder, showDouble: Double -> string)
    requires ValidOrder(order1) && ValidOrder(order2) && DictionaryFree(node)
    ensures Description(node, indent, order1, showDouble) == Description(node, indent, order2, showDouble)
  {
    match node
    case Array(nodes) =>
      forall i | 0 <= i < |nodes|
        ensures Description(nodes[i], indent + indent, order1, showDouble)
             == Description(nodes[i], indent + indent, order2, showDouble)
      {
        DescriptionOrderIndependent(nodes[i], indent + indent, order1, order2, showDouble);
      }
      assert ArrayLines(nodes, indent + indent, order1, showDouble) == ArrayLines(nodes, indent + indent, order2, showDouble);
    case _ =>
  }

  /** Pieces of pairwise equal lengths concatenate to texts of equal length. */
  lemma {:induction false} ConcatLengthsAgree(p: seq<string>, q: seq<string>)
    requires |p| == |q|
    requires forall i :: 0 <= i < |p| ==> |p[i]| == |q[i]|
    ensures |Concat(p)| == |Concat(q)|
    decreases |p|
  {
    if p != [] {
      ConcatLengthsAgree(p[..|p| - 1], q[..|q| - 1]);
    }
  }

  /** The total of the widths of `keys`, added up left to right. */
  function SumOver(keys: seq<string>, width: map<string, nat>): nat
    requires forall key :: key in keys ==> key in width
  {
    if keys == [] then 0 else SumOver(keys[..|keys| - 1], width) + width[keys[|keys| - 1]]
  }

  lemma {:induction false} SumOverAppend(p: seq<string>, q: seq<string>, width: map<string, nat>)
    requires forall key :: key in p + q ==> key in width
    ensures SumOver(p + q, width) == SumOver(p, width) + SumOver(q, width)
    decreases |q|
  {
    if q == [] {
      assert p + q == p;
    } else {
      assert (p + q)[..|p + q| - 1] == p + q[..|q| - 1];
      SumOverAppend(p, q[..|q| - 1], width);
    }
  }

  /** Taking one key out of the list takes its width out of the total. */
  lemma SumOverRemove(keys: seq<string>, width: map<string, nat>, j: nat)
    requires j < |keys| && forall key :: key in keys ==> key in width
    ensures SumOver(keys, width) == SumOver(keys[..j] + keys[j + 1..], width) + width[keys[j]]
  {
    assert keys == keys[..j] + ([keys[j]] + keys[j + 1..]);
    SumOverAppend(keys[..j], [keys[j]] + keys[j + 1..], width);
    SumOverAppend([keys[j]], keys[j + 1..], width);
    SumOverAppend(keys[..j], keys[j + 1..], width);
    assert [keys[j]][..0] == [];
  }

  lemma FirstKeyListed(keys: seq<string>)
    ensures keys != [] ==> keys[0] in keys
  {
  }

  /** Taking key `j` out of a duplicate-free list leaves exactly the other keys, still without duplicates. */
  lemma {:induction false} RemoveKey(keys: seq<string>, j: nat)
    requires j < |keys| && Distinct(keys)
    ensures forall key :: key in keys[..j] + keys[j + 1..] ==> key in keys && key != keys[j]
    ensures forall key :: key in keys && key != keys[j] ==> key in keys[..j] + keys[j + 1..]
    ensures Distinct(keys[..j] + keys[j + 1..])
  {
    var rest := keys[..j] + keys[j + 1..];
    forall m | 0 <= m < |rest| ensures rest[m] == keys[if m < j then m else m + 1] {
    }
    forall key | key in keys && key != keys[j] ensures key in rest {
      var m :| 0 <= m < |keys| && keys[m] == key;
      assert rest[if m < j then m else m - 1] == key;
    }
  }

  /** Two duplicate-free lists of the same keys have the same total width, whatever their order. */
  lemma {:induction false} SumOverPermutation(keys1: seq<string>, keys2: seq<string>, width: map<string, nat>)
    requires forall key :: key in keys1 ==> key in width
    requires forall key :: key in keys1 ==> key in keys2
    requires forall key :: key in keys2 ==> key in keys1
    requires Distinct(keys1) && Distinct(keys2)
    ensures SumOver(keys1, width) == SumOver(keys2, width)
    decreases |keys1|
  {
    if keys1 == [] {
      FirstKeyListed(keys2);
    } else {
      var n := |keys1| - 1;
      var last := keys1[n];
      assert last in keys1;
      var j :| 0 <= j < |keys2| && keys2[j] == last;
      var rest1, rest2 := keys1[..n], keys2[..j] + keys2[j + 1..];
      RemoveKey(keys1, n);
      assert keys1[..n] + keys1[n + 1..] == rest1;
      RemoveKey(keys2, j);
      forall key | key in rest1 ensures key in rest2 {
        assert key in keys2 && key != last;
      }
      forall key | key in rest2 ensures key in rest1 {
        assert key in keys1 && key != last;
      }
      SumOverPermutation(rest1, rest2, width);
      SumOverRemove(keys2, width, j);
    }
  }

  /** When piece i is as long as the width of key i, the concatenation is as long as the total width. */
  lemma {:induction false} ConcatLength(lines: seq<string>, keys: seq<string>, width: map<string, nat>)
    requires |lines| == |keys| && forall key :: key in keys ==> key in width
    requires forall i :: 0 <= i < |lines| ==> |lines[i]| == width[keys[i]]
    ensures |Concat(lines)| == SumOver(keys, width)
    decreases |lines|
  {
    if lines != [] {
      ConcatLength(lines[..|lines| - 1], keys[..|keys| - 1], width);
    }
  }

  /**
   * The key order moves text around but never changes how much of it there
   * is: every node renders to a description of the same length under every
   * key order.
   */
  lemma {:induction false} DescriptionLengthOrderIndependent(node: JSONNode, indent: string, order1: KeyOrder, order2: KeyOrder, showDouble: Double -> string)
    requires ValidOrder(order1) && ValidOrder(order2)
    ensures |Description(node, indent, order1, showDouble)| == |Description(node, indent, order2, showDouble)|
    decreases node
  {
    var nextIndent := indent + indent;
    match node
    case Array(nodes) =>
      forall i | 0 <= i < |nodes|
        ensures |Description(nodes[i], nextIndent, order1, showDouble)| == |Description(nodes[i], nextIndent, order2, showDouble)|
      {
        DescriptionLengthOrderIndependent(nodes[i], nextIndent, order1, order2, showDouble);
      }
      ArrayLinesLength(nodes, nextIndent, order1, order2, showDouble);
    case Dictionary(entries) =>
      var valueIndent := nextIndent + indent;
      forall key | key in entries
        ensures |EntryLine(entries, key, nextIndent, valueIndent, order1, showDouble)|
             == |EntryLine(entries, key, nextIndent, valueIndent, order2, showDouble)|
      {
        DescriptionLengthOrderIndependent(entries[key], valueIndent, order1, order2, showDouble);
      }
      EntryLinesLength(entries, nextIndent, valueIndent, order1, order2, showDouble);
    case _ =>
  }

  /** When every child has descriptions of the same length under two key orders, so do the array's lines. */
  lemma ArrayLinesLength(nodes: seq<JSONNode>, childIndent: string, order1: KeyOrder, order2: KeyOrder, showDouble: Double -> string)
    requires ValidOrder(order1) && ValidOrder(order2)
    requires forall i :: 0 <= i < |nodes| ==>
      |Description(nodes[i], childIndent, order1, showDouble)| == |Description(nodes[i], childIndent, order2, showDouble)|
    ensures |Concat(ArrayLines(nodes, childIndent, order1, showDouble))|
         == |Concat(ArrayLines(nodes, childIndent, order2, showDouble))|
  {
    ConcatLengthsAgree(ArrayLines(nodes, childIndent, order1, showDouble), ArrayLines(nodes, childIndent, order2, showDouble));
  }

  /**
   * When every key's line has the same width under two key orders, the
   * dictionary's lines add up to the same length under both orders.
   */
  lemma EntryLinesLength(entries: map<string, JSONNode>, keyIndent: string, valueIndent: string, order1: KeyOrder, order2: KeyOrder, showDouble: Double -> string)
    requires ValidOrder(order1) && ValidOrder(order2)
    requires forall key :: key in entries ==>
      |EntryLine(entries, key, keyIndent, valueIndent, order1, showDouble)|
      == |EntryLine(entries, key, keyIndent, valueIndent, order2, showDouble)|
    ensures |Concat(EntryLines(entries, keyIndent, valueIndent, order1, showDouble))|
         == |Concat(EntryLines(entries, keyIndent, valueIndent, order2, showDouble))|
  {
    var width := map key | key in entries :: |EntryLine(entries, key, keyIndent, valueIndent, order1, showDouble)|;
    var keys1, keys2 := order1(entries), order2(entries);
    assert Enumerates(keys1, entries) && Enumerates(keys2, entries);
    var lines1 := EntryLines(entries, keyIndent, valueIndent, order1, showDouble);
    var lines2 := EntryLines(entries, keyIndent, valueIndent, order2, showDouble);
    ConcatLength(lines1, keys1, width);
    ConcatLength(lines2, keys2, width);
    SumOverPermutation(keys1, keys2, width);
  }
}
