/**
 * The parse-tree nodes of tacparser/node.py: non-terminal, terminal,
 * failure and reconstructed nodes, their text (`get_str`), child and
 * descendant queries, the attribute dictionary and the kind flags.
 *
 * Nodes are values.  The parent of a node is the node above it in the tree
 * (see module Trees); the only neighbour links the source ever sets point at
 * the adjacent sibling, so a reconstructed node records them as two flags.
 */
module Nodes {
  import opened Text

  /** The attribute dictionary `_attribute`; values are strings here. */
  type Attrs = map<string, string>

  /** Positions and the line/column pairs that `set_position` derives from them. */
  datatype Span = Span(startpos: nat, endpos: nat, linenum: nat, column: nat, endLinenum: nat, endColumn: nat)

  const NoSpan := Span(0, 0, 0, 0, 0, 0)

  datatype Node =
    | NonTerminal(typ: string, children: seq<Node>, span: Span, nodenum: nat, attrs: Attrs)
    | Terminal(termstr: string, span: Span, attrs: Attrs)
    | Failure(termstr: string, span: Span, attrs: Attrs)
    | Reconstructed(typ: string, children: seq<Node>, span: Span, nodenum: nat, attrs: Attrs,
                    termstr: string, hasLeft: bool, hasRight: bool)

  /** The exception `ReconstructedNode.get_str` raises for an unset `termstr`. */
  datatype StrError = TermstrUnset

  const TermstrUnsetMessage := "termstr が未設定です"

  /** `n.type`; terminal and failure nodes keep the base class's "". */
  function Type(n: Node): string
  {
    if n.NonTerminal? || n.Reconstructed? then n.typ else ""
  }

  /** `n.children`; the base class starts with an empty tuple. */
  function Kids(n: Node): seq<Node>
  {
    if n.NonTerminal? || n.Reconstructed? then n.children else []
  }

  /** A terminal and a non-terminal with no position, number or attributes, for stating examples. */
  function Leaf(s: string): Node { Terminal(s, NoSpan, map[]) }

  function Inner(t: string, cs: seq<Node>): Node { NonTerminal(t, cs, NoSpan, 0, map[]) }

  function Nodenum(n: Node): nat
  {
    if n.NonTerminal? || n.Reconstructed? then n.nodenum else 0
  }

  /** `isinstance(n, NonTerminalNode)`: a reconstructed node is one too. */
  predicate IsNonTerminal(n: Node) { n.NonTerminal? || n.Reconstructed? }

  predicate IsTerminal(n: Node) { n.Terminal? || n.Failure? }

  predicate IsFailure(n: Node) { n.Failure? }

  /**
   * `get_str(_dict)`.  Passing no dictionary behaves like passing an empty
   * one, so the dictionary is a plain map.
   */
  function GetStr(n: Node, dict: map<string, string>): (r: Result<string, StrError>)
    ensures Plain(n) ==> r.Ok?
  {
    match n
    case NonTerminal(t, cs, _, _, _) => if t in dict then Ok(dict[t]) else GetStrs(cs, dict)
    case Terminal(s, _, _) => Ok(s)
    case Failure(s, _, _) => Ok(s)
    case Reconstructed(t, _, _, _, _, s, _, _) =>
      if t in dict then Ok(dict[t]) else if s == "" then Err(TermstrUnset) else Ok(s)
  }

  /** The children's texts concatenated in order; the first error wins. */
  function GetStrs(ns: seq<Node>, dict: map<string, string>): (r: Result<string, StrError>)
    ensures (forall i :: 0 <= i < |ns| ==> Plain(ns[i])) ==> r.Ok?
  {
    if ns == [] then Ok("")
    else
      match GetStr(ns[0], dict)
      case Err(e) => Err(e)
      case Ok(s) =>
        match GetStrs(ns[1..], dict)
        case Err(e) => Err(e)
        case Ok(r) => Ok(s + r)
  }

  /** `{'Spacing': ""}`: the dictionary that reads a name without its trailing spacing. */
  const NoSpacing: map<string, string> := map["Spacing" := ""]

  /** The terminal and failure nodes of a tree, left to right. */
  function Leaves(n: Node): seq<Node>
  {
    match n
    case NonTerminal(_, cs, _, _, _) => LeavesOf(cs)
    case Reconstructed(_, cs, _, _, _, _, _, _) => LeavesOf(cs)
    case _ => [n]
  }

  function LeavesOf(ns: seq<Node>): seq<Node>
  {
    if ns == [] then [] else Leaves(ns[0]) + LeavesOf(ns[1..])
  }

  function LeafText(ns: seq<Node>): string
  {
    if ns == [] then "" else (if ns[0].Terminal? || ns[0].Failure? then ns[0].termstr else "") + LeafText(ns[1..])
  }

  /** A tree the parser built: no reconstructed node anywhere in it. */
  predicate Plain(n: Node)
  {
    match n
    case NonTerminal(_, cs, _, _, _) => forall i :: 0 <= i < |cs| ==> Plain(cs[i])
    case Reconstructed(_, _, _, _, _, _, _, _) => false
    case _ => true
  }

  lemma {:induction false} LeafTextAppend(a: seq<Node>, b: seq<Node>)
    ensures LeafText(a + b) == LeafText(a) + LeafText(b)
  {
    if a == [] {
      assert a + b == b;
    } else {
      var h := if a[0].Terminal? || a[0].Failure? then a[0].termstr else "";
      assert (a + b)[0] == a[0];
      assert (a + b)[1..] == a[1..] + b;
      LeafTextAppend(a[1..], b);
      assert LeafText(a + b) == h + (LeafText(a[1..]) + LeafText(b));
      assert LeafText(a) == h + LeafText(a[1..]);
    }
  }

  /**
   * Without a dictionary, the text of a parser-built tree is the text of its
   * leaves read left to right.
   */
  lemma {:induction false} GetStrIsLeafText(n: Node)
    requires Plain(n)
    ensures GetStr(n, map[]) == Ok(LeafText(Leaves(n)))
  {
    match n
    case NonTerminal(_, cs, _, _, _) => GetStrsIsLeafText(cs);
    case Terminal(_, _, _) =>
      assert Leaves(n) == [n] && [n][1..] == [];
      assert LeafText([n]) == n.termstr + LeafText([n][1..]);
      assert LeafText([n]) == n.termstr;
    case Failure(_, _, _) =>
      assert Leaves(n) == [n] && [n][1..] == [];
      assert LeafText([n]) == n.termstr + LeafText([n][1..]);
      assert LeafText([n]) == n.termstr;
  }

  lemma {:induction false} GetStrsIsLeafText(ns: seq<Node>)
    requires forall i :: 0 <= i < |ns| ==> Plain(ns[i])
    ensures GetStrs(ns, map[]) == Ok(LeafText(LeavesOf(ns)))
  {
    if ns != [] {
      GetStrIsLeafText(ns[0]);
      GetStrsIsLeafText(ns[1..]);
      LeafTextAppend(Leaves(ns[0]), LeavesOf(ns[1..]));
    }
  }

  /** A type that is a dictionary key is replaced without looking below it. */
  lemma DictionaryReplaces(n: Node, dict: map<string, string>)
    requires IsNonTerminal(n) && Type(n) in dict
    ensures GetStr(n, dict) == Ok(dict[Type(n)])
  {
  }

  /** Terminal and failure nodes ignore the dictionary. */
  lemma TerminalIgnoresDictionary(n: Node, dict: map<string, string>)
    requires IsTerminal(n)
    ensures GetStr(n, dict) == Ok(n.termstr)
  {
  }

  /** With no entry for its type, a reconstructed node's text is its `termstr`, which must be set. */
  lemma ReconstructedText(n: Node, dict: map<string, string>)
    requires n.Reconstructed? && n.typ !in dict
    ensures GetStr(n, dict).Ok? <==> n.termstr != ""
    ensures GetStr(n, dict).Ok? ==> GetStr(n, dict).value == n.termstr
  {
  }

  /** `get_childnode(t)`; None where the base class's stub answers. */
  function GetChildNode(n: Node, t: string): (r: Option<seq<Node>>)
    ensures r.Some? <==> IsNonTerminal(n)
    ensures r.Some? ==> forall x :: x in r.value <==> x in Kids(n) && Type(x) == t
  {
    if IsNonTerminal(n) then Some(FilterType(Kids(n), t)) else None
  }

  function FilterType(ns: seq<Node>, t: string): (r: seq<Node>)
    ensures forall x :: x in r <==> x in ns && Type(x) == t
    ensures |r| <= |ns|
  {
    if ns == [] then []
    else (if Type(ns[0]) == t then [ns[0]] else []) + FilterType(ns[1..], t)
  }

  /** The child query keeps the children's order: children of the type form a prefix-closed selection. */
  lemma FilterTypeAppend(a: seq<Node>, b: seq<Node>, t: string)
    ensures FilterType(a + b, t) == FilterType(a, t) + FilterType(b, t)
  {
    if a == [] {
      assert a + b == b;
    } else {
      assert (a + b)[0] == a[0];
      assert (a + b)[1..] == a[1..] + b;
      FilterTypeAppend(a[1..], b, t);
    }
  }

  /**
   * `search_node(t, deep)`: the non-terminals of type `t`, self included,
   * in preorder.  Without `deep` a match is not searched below.  Terminal
   * children are never entered; on a terminal the base class's stub answers.
   */
  function SearchNode(n: Node, t: string, deep: bool): (r: Option<seq<Node>>)
    ensures r.Some? <==> IsNonTerminal(n)
  {
    if IsNonTerminal(n) then Some(Search(n, t, deep)) else None
  }

  function Search(n: Node, t: string, deep: bool): seq<Node>
    requires IsNonTerminal(n)
  {
    if Type(n) == t && !deep then [n]
    else (if Type(n) == t then [n] else []) + SearchKids(Kids(n), t, deep)
  }

  function SearchKids(ns: seq<Node>, t: string, deep: bool): seq<Node>
  {
    if ns == [] then []
    else (if IsNonTerminal(ns[0]) then Search(ns[0], t, deep) else []) + SearchKids(ns[1..], t, deep)
  }

  /** `x` is `n` or sits below it along a chain of non-terminals. */
  predicate Reaches(n: Node, x: Node)
  {
    n == x || (IsNonTerminal(n) && exists i :: 0 <= i < |Kids(n)| && IsNonTerminal(Kids(n)[i]) && Reaches(Kids(n)[i], x))
  }

  /** Everything found is a non-terminal of the type, reachable from the start. */
  lemma {:induction false} SearchSound(n: Node, t: string, deep: bool, x: Node)
    requires IsNonTerminal(n) && x in Search(n, t, deep)
    ensures IsNonTerminal(x) && Type(x) == t && Reaches(n, x)
  {
    if Type(n) == t && !deep {
    } else if x == n && Type(n) == t {
    } else {
      assert x in SearchKids(Kids(n), t, deep);
      var i := SearchKidsSound(Kids(n), t, deep, x);
      SearchSound(Kids(n)[i], t, deep, x);
    }
  }

  lemma {:induction false} SearchKidsSound(ns: seq<Node>, t: string, deep: bool, x: Node) returns (i: nat)
    requires x in SearchKids(ns, t, deep)
    ensures i < |ns| && IsNonTerminal(ns[i]) && x in Search(ns[i], t, deep)
  {
    if x in (if IsNonTerminal(ns[0]) then Search(ns[0], t, deep) else []) {
      i := 0;
    } else {
      i := SearchKidsSound(ns[1..], t, deep, x);
      i := i + 1;
    }
  }

  /** A deep search finds every reachable non-terminal of the type. */
  lemma {:induction false} DeepSearchComplete(n: Node, t: string, x: Node)
    requires IsNonTerminal(n) && IsNonTerminal(x) && Type(x) == t && Reaches(n, x)
    ensures x in Search(n, t, true)
  {
    if x != n {
      var i :| 0 <= i < |Kids(n)| && IsNonTerminal(Kids(n)[i]) && Reaches(Kids(n)[i], x);
      DeepSearchComplete(Kids(n)[i], t, x);
      SearchKidsHas(Kids(n), i, t, x);
    }
  }

  lemma {:induction false} SearchKidsHas(ns: seq<Node>, i: nat, t: string, x: Node)
    requires i < |ns| && IsNonTerminal(ns[i]) && x in Search(ns[i], t, true)
    ensures x in SearchKids(ns, t, true)
  {
    if i > 0 {
      SearchKidsHas(ns[1..], i - 1, t, x);
    }
  }

  /** A start node of the type is the whole answer of a shallow search. */
  lemma ShallowSearchStops(n: Node, t: string)
    requires IsNonTerminal(n) && Type(n) == t
    ensures SearchNode(n, t, false) == Some([n])
  {
  }

  /** `get_attr`: None for an absent name. */
  function GetAttr(n: Node, name: string): Option<string>
  {
    if name in n.attrs then Some(n.attrs[name]) else None
  }

  /** `set_attr`: the node with one dictionary entry written. */
  function SetAttr(n: Node, name: string, value: string): (r: Node)
    ensures r.attrs == n.attrs[name := value]
  {
    n.(attrs := n.attrs[name := value])
  }

  lemma {:induction false} SetThenGet(n: Node, name: string, value: string, other: string)
    ensures GetAttr(SetAttr(n, name, value), name) == Some(value)
    ensures other != name ==> GetAttr(SetAttr(n, name, value), other) == GetAttr(n, other)
    ensures Type(SetAttr(n, name, value)) == Type(n) && Kids(SetAttr(n, name, value)) == Kids(n)
  {
    var r := SetAttr(n, name, value);
    assert r.attrs == n.attrs[name := value];
  }

  /**
   * The `ReconstructedNode(node)` constructor: type, span and node number
   * copied, no children, no links, an empty `termstr`, and the attribute
   * dictionary of the original.
   */
  function ReconstructedFrom(n: Node): (r: Node)
    ensures r.Reconstructed? && r.typ == Type(n) && r.span == n.span && r.nodenum == Nodenum(n)
    ensures r.children == [] && r.termstr == "" && !r.hasLeft && !r.hasRight && r.attrs == n.attrs
  {
    Reconstructed(Type(n), [], n.span, Nodenum(n), n.attrs, "", false, false)
  }

  lemma KindFlags(n: Node)
    ensures IsFailure(n) ==> IsTerminal(n)
    ensures IsTerminal(n) <==> !IsNonTerminal(n)
    ensures n.Reconstructed? ==> !IsTerminal(n) && !IsFailure(n)
  {
  }
}
