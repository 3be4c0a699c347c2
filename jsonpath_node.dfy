/**
 * The parse-tree nodes of the JSONPath template language (pkg/jsonpath/node.go): the node
 * type codes and their names, one variant per node kind with its payload, the constructors,
 * the String renderings, and the list node that the parser appends children to in place.
 */
module JsonPathNode {
  import opened StringOps

  /** NodeType: the integer code identifying the kind of a node. */
  type NodeType = int

  const NodeText: NodeType := 0
  const NodeArray: NodeType := 1
  const NodeList: NodeType := 2
  const NodeField: NodeType := 3
  const NodeIdentifier: NodeType := 4
  const NodeFilter: NodeType := 5
  const NodeInt: NodeType := 6
  const NodeFloat: NodeType := 7
  const NodeWildcard: NodeType := 8
  const NodeRecursive: NodeType := 9
  const NodeUnion: NodeType := 10
  const NodeBool: NodeType := 11

  /** NodeTypeName: the text of each node type code. */
  const NodeTypeName: map<NodeType, string> := map[
    NodeText := "NodeText",
    NodeArray := "NodeArray",
    NodeList := "NodeList",
    NodeField := "NodeField",
    NodeIdentifier := "NodeIdentifier",
    NodeFilter := "NodeFilter",
    NodeInt := "NodeInt",
    NodeFloat := "NodeFloat",
    NodeWildcard := "NodeWildcard",
    NodeRecursive := "NodeRecursive",
    NodeUnion := "NodeUnion",
    NodeBool := "NodeBool"
  ]

  /** NodeType.String: the name of a code; a code outside the table reads as the empty string. */
  function TypeString(t: NodeType): string {
    if t in NodeTypeName then NodeTypeName[t] else ""
  }

  /**
   * The twelve codes are 0 to 11, each has a name starting with "Node", and no name is a
   * prefix of another (so in particular all names are distinct).
   */
  lemma NodeTypeNames()
    ensures forall t :: t in NodeTypeName <==> 0 <= t < 12
    ensures forall t :: 0 <= t < 12 ==> |TypeString(t)| > 4 && TypeString(t)[..4] == "Node"
    ensures forall t, u :: 0 <= t < 12 && 0 <= u < 12 && t != u ==> !HasPrefix(TypeString(u), TypeString(t))
    ensures forall t :: !(0 <= t < 12) ==> TypeString(t) == ""
  {
    forall t, u | 0 <= t < 12 && 0 <= u < 12 && t != u
      ensures !HasPrefix(TypeString(u), TypeString(t))
    {
      NamePrefix(t, u);
    }
  }

  lemma NamePrefix(t: NodeType, u: NodeType)
    requires 0 <= t < 12 && 0 <= u < 12 && t != u
    ensures !HasPrefix(TypeString(u), TypeString(t))
  {
    var a, b := TypeString(t), TypeString(u);
    var k := if a[4] != b[4] then 4 else if a[5] != b[5] then 5 else 6;
    DifferAt(a, b, k);
  }

  lemma DifferAt(a: string, b: string, k: nat)
    requires k < |a| && k < |b| && a[k] != b[k]
    ensures !HasPrefix(b, a)
  {
  }

  /** ParamsEntry: one array-selector parameter and whether it was given and whether it was derived. */
  datatype ParamsEntry = ParamsEntry(value: int, known: bool, derived: bool)

  /** The three parameters of an array selector, in the order start, end, step. */
  type Params = p: seq<ParamsEntry> | |p| == 3
    witness [ParamsEntry(0, false, false), ParamsEntry(0, false, false), ParamsEntry(0, false, false)]

  const Start := 0
  const End := 1
  const Step := 2

  /**
   * A parse-tree node. Each Go node struct embeds its NodeType; here the variant is the kind.
   * List nodes are ListNode objects, shared by reference like the Go pointers.
   */
  datatype Node =
    | List(list: ListNode)
    | Text(text: string)
    | Field(value: string)
    | Identifier(name: string)
    | Array(params: Params)
    | Filter(left: ListNode, right: ListNode, operator: string)
    | Int(intValue: int)
    | Float(floatValue: real)
    | Wildcard
    | Recursive
    | Union(lists: seq<ListNode>)
    | Bool(boolValue: bool)
  {
    /** Type: the code embedded in the node. */
    function Type(): NodeType {
      match this
      case List(_) => NodeList
      case Text(_) => NodeText
      case Field(_) => NodeField
      case Identifier(_) => NodeIdentifier
      case Array(_) => NodeArray
      case Filter(_, _, _) => NodeFilter
      case Int(_) => NodeInt
      case Float(_) => NodeFloat
      case Wildcard => NodeWildcard
      case Recursive => NodeRecursive
      case Union(_) => NodeUnion
      case Bool(_) => NodeBool
    }

    /** String: the node's rendering (float nodes use Go's %f formatting and are left out). */
    function String(): string
      requires !Float?
    {
      var name := TypeString(Type());
      match this
      case List(_) => name
      case Text(t) => name + ": " + t
      case Field(v) => name + ": " + v
      case Identifier(n) => name + ": " + n
      case Array(p) => name + ": " + ParamsString(p)
      case Filter(_, _, op) => name + ": " + TypeString(NodeList) + " " + op + " " + TypeString(NodeList)
      case Int(i) => name + ": " + IntToString(i)
      case Wildcard => name
      case Recursive => name
      case Union(_) => name
      case Bool(b) => name + ": " + BoolToString(b)
    }
  }

  /** ListNode: the sequence of child nodes, in lexical order, which the parser grows in place. */
  class ListNode {
    var nodes: seq<Node>

    /** newList: an empty list node. */
    constructor ()
      ensures nodes == []
    {
      nodes := [];
    }

    /** append: adds `n` after the existing children. */
    method Append(n: Node)
      modifies this
      ensures nodes == old(nodes) + [n]
      ensures |nodes| == |old(nodes)| + 1 && nodes[|nodes| - 1] == n
      ensures forall i :: 0 <= i < |old(nodes)| ==> nodes[i] == old(nodes)[i]
    {
      nodes := nodes + [n];
    }
  }

  /** The node for a list object (a *ListNode used as a Node). */
  function NewList(l: ListNode): (n: Node)
    ensures n.Type() == NodeList && n.List? && n.list == l
  {
    List(l)
  }

  function NewText(text: string): (n: Node)
    ensures n.Type() == NodeText && n.Text? && n.text == text
  {
    Text(text)
  }

  function NewField(value: string): (n: Node)
    ensures n.Type() == NodeField && n.Field? && n.value == value
  {
    Field(value)
  }

  function NewIdentifier(value: string): (n: Node)
    ensures n.Type() == NodeIdentifier && n.Identifier? && n.name == value
  {
    Identifier(value)
  }

  function NewArray(params: Params): (n: Node)
    ensures n.Type() == NodeArray && n.Array? && n.params == params
  {
    Array(params)
  }

  function NewFilter(left: ListNode, right: ListNode, operator: string): (n: Node)
    ensures n.Type() == NodeFilter && n.Filter?
    ensures n.left == left && n.right == right && n.operator == operator
  {
    Filter(left, right, operator)
  }

  function NewInt(num: int): (n: Node)
    ensures n.Type() == NodeInt && n.Int? && n.intValue == num
  {
    Int(num)
  }

  function NewFloat(num: real): (n: Node)
    ensures n.Type() == NodeFloat && n.Float? && n.floatValue == num
  {
    Float(num)
  }

  function NewWildcard(): (n: Node)
    ensures n.Type() == NodeWildcard && n.Wildcard?
  {
    Wildcard
  }

  function NewRecursive(): (n: Node)
    ensures n.Type() == NodeRecursive && n.Recursive?
  {
    Recursive
  }

  function NewUnion(lists: seq<ListNode>): (n: Node)
    ensures n.Type() == NodeUnion && n.Union? && n.lists == lists
  {
    Union(lists)
  }

  function NewBool(value: bool): (n: Node)
    ensures n.Type() == NodeBool && n.Bool? && n.boolValue == value
  {
    Bool(value)
  }

  /** Go's %t. */
  function BoolToString(b: bool): string {
    if b then "true" else "false"
  }

  /** Go's %v of a [3]ParamsEntry: "[{value known derived} {…} {…}]". */
  function ParamsString(p: Params): string {
    "[" + EntryString(p[Start]) + " " + EntryString(p[End]) + " " + EntryString(p[Step]) + "]"
  }

  function EntryString(e: ParamsEntry): string {
    "{" + IntToString(e.value) + " " + BoolToString(e.known) + " " + BoolToString(e.derived) + "}"
  }

  /** Go's %d: an optional minus sign and the decimal digits, without leading zeros. */
  function IntToString(i: int): string {
    if i < 0 then "-" + NatToString(-i) else NatToString(i)
  }

  function NatToString(n: nat): (s: string)
    ensures |s| > 0 && (forall k :: 0 <= k < |s| ==> '0' <= s[k] <= '9')
    ensures s[0] == '0' ==> n == 0
  {
    if n < 10 then [Digit(n)] else NatToString(n / 10) + [Digit(n % 10)]
  }

  function Digit(d: nat): char
    requires d < 10
  {
    "0123456789"[d]
  }

  /** The number a string of decimal digits denotes. */
  function DecimalValue(s: string): nat
    requires forall k :: 0 <= k < |s| ==> '0' <= s[k] <= '9'
  {
    if s == [] then 0 else 10 * DecimalValue(s[..|s| - 1]) + (s[|s| - 1] - '0') as nat
  }

  /** The decimal rendering of a number reads back as the same number. */
  lemma {:induction false} NatToStringValue(n: nat)
    ensures DecimalValue(NatToString(n)) == n
  {
    if n >= 10 {
      NatToStringValue(n / 10);
      var s := NatToString(n);
      assert s[..|s| - 1] == NatToString(n / 10);
    }
  }

  /** Every rendering starts with the name of the node's type. */
  lemma StringStartsWithName(n: Node)
    requires !n.Float?
    ensures HasPrefix(n.String(), TypeString(n.Type()))
  {
  }

  /** A string starts with the name of at most one node type. */
  lemma OneNamePrefix(s: string, t: NodeType, u: NodeType)
    requires 0 <= t < 12 && 0 <= u < 12
    requires HasPrefix(s, TypeString(t)) && HasPrefix(s, TypeString(u))
    ensures t == u
  {
    var na, nb := TypeString(t), TypeString(u);
    if t != u {
      if |na| <= |nb| {
        assert nb[..|na|] == s[..|na|] == na;
        NamePrefix(t, u);
      } else {
        assert na[..|nb|] == s[..|nb|] == nb;
        NamePrefix(u, t);
      }
    }
  }

  /** The rendering determines the kind of node: two nodes rendered alike have the same type. */
  lemma StringDeterminesType(a: Node, b: Node)
    requires !a.Float? && !b.Float?
    requires a.String() == b.String()
    ensures a.Type() == b.Type()
  {
    StringStartsWithName(a);
    StringStartsWithName(b);
    OneNamePrefix(a.String(), a.Type(), b.Type());
  }

  /** List, Wildcard, Recursive and Union render as their bare type name. */
  lemma BareNames(n: Node)
    requires n.List? || n.Wildcard? || n.Recursive? || n.Union?
    ensures n.String() == TypeString(n.Type())
  {
  }

  /**
   * Text, Field and Identifier nodes render as "<type name>: <payload>", so the rendering
   * gives back the node, payload included.
   */
  lemma PayloadRendering(a: Node, b: Node)
    requires a.Text? || a.Field? || a.Identifier?
    requires b.Text? || b.Field? || b.Identifier?
    requires a.String() == b.String()
    ensures a == b
  {
    StringDeterminesType(a, b);
    var name := TypeString(a.Type());
    var x := match a case Text(t) => t case Field(v) => v case Identifier(n) => n;
    var y := match b case Text(t) => t case Field(v) => v case Identifier(n) => n;
    assert a.String() == name + ": " + x && b.String() == name + ": " + y;
    assert x == a.String()[|name| + 2..] == y;
  }
}
