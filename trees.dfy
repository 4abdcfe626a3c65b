/**
 * The free tree functions of tacparser/baseparser.py: positions of nodes
 * in a tree (what `complete_tree`'s parent links point at), the two
 * traversals, and `reconstruct_tree`.
 *
 * A node is addressed by its path of child indices from the root; the
 * parent of the node at a non-empty path is the node at the path without
 * its last index, which is exactly the link `complete_tree` writes.
 */
module Trees {
  import opened Text
  import opened Nodes

  type Path = seq<nat>

  predicate ValidPath(n: Node, p: Path)
    decreases p
  {
    p == [] || (p[0] < |Kids(n)| && ValidPath(Kids(n)[p[0]], p[1..]))
  }

  function NodeAt(n: Node, p: Path): Node
    requires ValidPath(n, p)
    decreases p
  {
    if p == [] then n else NodeAt(Kids(n)[p[0]], p[1..])
  }

  /** The node with its children replaced; nodes without children stay as they are. */
  function WithKids(n: Node, cs: seq<Node>): (r: Node)
    ensures IsNonTerminal(n) ==> Kids(r) == cs
    ensures Type(r) == Type(n) && IsNonTerminal(r) == IsNonTerminal(n)
  {
    match n
    case NonTerminal(t, _, sp, k, at) => NonTerminal(t, cs, sp, k, at)
    case Reconstructed(t, _, sp, k, at, s, l, r) => Reconstructed(t, cs, sp, k, at, s, l, r)
    case _ => n
  }

  predicate IsPrefix(p: Path, q: Path)
  {
    |p| <= |q| && q[..|p|] == p
  }

  /**
   * The splice `sub_parse` performs: the node at `p` swapped for `x`.  A path
   * that is not in the tree changes nothing, as the source's identity
   * search over the parent's children finds nothing then.
   */
  function ReplaceAt(n: Node, p: Path, x: Node): (r: Node)
    ensures ValidPath(n, p) ==> ValidPath(r, p) && NodeAt(r, p) == x
    ensures !ValidPath(n, p) ==> r == n
    ensures p != [] ==> Type(r) == Type(n) && IsNonTerminal(r) == IsNonTerminal(n)
    decreases p
  {
    if p == [] then x
    else if p[0] < |Kids(n)| then
      var c := ReplaceAt(Kids(n)[p[0]], p[1..], x);
      var r := WithKids(n, Kids(n)[p[0] := c]);
      assert Kids(r)[p[0]] == c;
      if !ValidPath(n, p) then
        assert Kids(n)[p[0] := c] == Kids(n);
        match n
        case NonTerminal(_, _, _, _, _) => r
        case Reconstructed(_, _, _, _, _, _, _, _) => r
      else r
    else n
  }

  /** Replacing one node leaves every node that is neither above nor below it as it was. */
  lemma {:induction false} ReplaceElsewhere(n: Node, p: Path, q: Path, x: Node)
    requires ValidPath(n, p) && ValidPath(n, q) && !IsPrefix(p, q) && !IsPrefix(q, p)
    ensures ValidPath(ReplaceAt(n, q, x), p) && NodeAt(ReplaceAt(n, q, x), p) == NodeAt(n, p)
    decreases p
  {
    assert p != [] && q != [];
    var r := ReplaceAt(n, q, x);
    assert Kids(r) == Kids(n)[q[0] := ReplaceAt(Kids(n)[q[0]], q[1..], x)];
    if p[0] != q[0] {
      assert Kids(r)[p[0]] == Kids(n)[p[0]];
    } else {
      PrefixStep(p, q);
      PrefixStep(q, p);
      ReplaceElsewhere(Kids(n)[p[0]], p[1..], q[1..], x);
    }
  }

  lemma PrefixStep(p: Path, q: Path)
    requires p != [] && q != [] && p[0] == q[0]
    ensures IsPrefix(p, q) == IsPrefix(p[1..], q[1..])
  {
    if |p| <= |q| {
      assert q[..|p|] == [q[0]] + q[1..][..|p| - 1];
      assert p == [p[0]] + p[1..];
    }
  }

  /**
   * `complete_tree`: the parent of the node at a non-empty path is the node
   * one step up, and the node is its child at the last index.
   */
  function ParentAt(root: Node, p: Path): (r: Node)
    requires ValidPath(root, p) && p != []
    ensures IsNonTerminal(r) || r.Failure? || r.Terminal?
    ensures p[|p| - 1] < |Kids(r)| && Kids(r)[p[|p| - 1]] == NodeAt(root, p)
  {
    ParentStep(root, p);
    NodeAt(root, p[..|p| - 1])
  }

  lemma {:induction false} ParentStep(n: Node, p: Path)
    requires ValidPath(n, p) && p != []
    ensures ValidPath(n, p[..|p| - 1])
    ensures p[|p| - 1] < |Kids(NodeAt(n, p[..|p| - 1]))|
    ensures Kids(NodeAt(n, p[..|p| - 1]))[p[|p| - 1]] == NodeAt(n, p)
    decreases p
  {
    if |p| > 1 {
      var c := Kids(n)[p[0]];
      ParentStep(c, p[1..]);
      assert p[1..][..|p[1..]| - 1] == p[..|p| - 1][1..];
      assert p[1..][|p[1..]| - 1] == p[|p| - 1];
    } else {
      assert p[..|p| - 1] == [];
    }
  }

  // ---------------------------------------------------------------------------
  // Search by path

  function PrefixAll(k: nat, ps: seq<Path>): (r: seq<Path>)
    ensures |r| == |ps| && forall i :: 0 <= i < |ps| ==> r[i] == [k] + ps[i]
  {
    if ps == [] then [] else [[k] + ps[0]] + PrefixAll(k, ps[1..])
  }

  /** The paths of the nodes `search_node(t, deep)` finds, in the same order. */
  function SearchPaths(n: Node, t: string, deep: bool): seq<Path>
    requires IsNonTerminal(n)
    decreases n, 1, 0
  {
    if Type(n) == t && !deep then [[]]
    else (if Type(n) == t then [[]] else []) + KidPaths(n, 0, t, deep)
  }

  function KidPaths(n: Node, k: nat, t: string, deep: bool): seq<Path>
    requires IsNonTerminal(n)
    decreases n, 0, |Kids(n)| - k
  {
    if k >= |Kids(n)| then []
    else (if IsNonTerminal(Kids(n)[k]) then PrefixAll(k, SearchPaths(Kids(n)[k], t, deep)) else [])
         + KidPaths(n, k + 1, t, deep)
  }

  /** Following the search paths yields exactly the nodes `search_node` lists. */
  lemma {:induction false} SearchPathsAgree(n: Node, t: string, deep: bool)
    requires IsNonTerminal(n)
    ensures var ps := SearchPaths(n, t, deep);
      |ps| == |Search(n, t, deep)|
      && forall i :: 0 <= i < |ps| ==> ValidPath(n, ps[i]) && NodeAt(n, ps[i]) == Search(n, t, deep)[i]
    decreases n, 1, 0
  {
    if !(Type(n) == t && !deep) {
      KidPathsAgree(n, 0, t, deep);
      assert Kids(n)[0..] == Kids(n);
    }
  }

  /** Following each path of `ps` from `n` yields the node of `xs` at the same index. */
  ghost predicate Agree(n: Node, ps: seq<Path>, xs: seq<Node>)
  {
    |ps| == |xs| && forall i :: 0 <= i < |ps| ==> ValidPath(n, ps[i]) && NodeAt(n, ps[i]) == xs[i]
  }

  lemma AgreeAppend(n: Node, ps: seq<Path>, xs: seq<Node>, qs: seq<Path>, ys: seq<Node>)
    requires Agree(n, ps, xs) && Agree(n, qs, ys)
    ensures Agree(n, ps + qs, xs + ys)
  {
    forall i | 0 <= i < |ps + qs| ensures ValidPath(n, (ps + qs)[i]) && NodeAt(n, (ps + qs)[i]) == (xs + ys)[i] {
      if i >= |ps| {
        assert (ps + qs)[i] == qs[i - |ps|] && (xs + ys)[i] == ys[i - |ps|];
      }
    }
  }

  /** The paths below child `k`, each prefixed by `k`, lead from `n` to the same nodes. */
  lemma PrefixAgree(n: Node, k: nat, ps: seq<Path>, xs: seq<Node>)
    requires k < |Kids(n)| && Agree(Kids(n)[k], ps, xs)
    ensures Agree(n, PrefixAll(k, ps), xs)
  {
    var qs := PrefixAll(k, ps);
    forall i | 0 <= i < |qs| ensures ValidPath(n, qs[i]) && NodeAt(n, qs[i]) == xs[i] {
      assert qs[i] == [k] + ps[i];
      assert qs[i][0] == k && qs[i][1..] == ps[i];
    }
  }

  lemma {:induction false} KidPathsAgree(n: Node, k: nat, t: string, deep: bool)
    requires IsNonTerminal(n) && k <= |Kids(n)|
    ensures Agree(n, KidPaths(n, k, t, deep), SearchKids(Kids(n)[k..], t, deep))
    decreases n, 0, |Kids(n)| - k
  {
    if k < |Kids(n)| {
      var c := Kids(n)[k];
      KidPathsAgree(n, k + 1, t, deep);
      assert Kids(n)[k..][0] == c && Kids(n)[k..][1..] == Kids(n)[k + 1..];
      var rest := KidPaths(n, k + 1, t, deep);
      var more := SearchKids(Kids(n)[k + 1..], t, deep);
      if IsNonTerminal(c) {
        SearchPathsAgree(c, t, deep);
        PrefixAgree(n, k, SearchPaths(c, t, deep), Search(c, t, deep));
        AgreeAppend(n, PrefixAll(k, SearchPaths(c, t, deep)), Search(c, t, deep), rest, more);
      } else {
        assert KidPaths(n, k, t, deep) == [] + rest;
        assert SearchKids(Kids(n)[k..], t, deep) == [] + more;
      }
    }
  }

  // ---------------------------------------------------------------------------
  // Traversals

  /** The order in which `preorder_travel` calls its function. */
  function Preorder(n: Node): (r: seq<Node>)
    ensures |r| >= 1 && r[0] == n
  {
    [n] + (if IsNonTerminal(n) then PreorderAll(Kids(n)) else [])
  }

  function PreorderAll(ns: seq<Node>): seq<Node>
  {
    if ns == [] then [] else Preorder(ns[0]) + PreorderAll(ns[1..])
  }

  /** The order in which `postorder_travel` calls its function. */
  function Postorder(n: Node): (r: seq<Node>)
    ensures |r| >= 1 && r[|r| - 1] == n
  {
    (if IsNonTerminal(n) then PostorderAll(Kids(n)) else []) + [n]
  }

  function PostorderAll(ns: seq<Node>): seq<Node>
  {
    if ns == [] then [] else Postorder(ns[0]) + PostorderAll(ns[1..])
  }

  /** Both traversals visit the same nodes, each as often: they differ only in order. */
  lemma {:induction false} TraversalsVisitSameNodes(n: Node)
    ensures multiset(Preorder(n)) == multiset(Postorder(n))
  {
    if IsNonTerminal(n) {
      TraversalsVisitSameNodesAll(Kids(n));
    }
  }

  lemma {:induction false} TraversalsVisitSameNodesAll(ns: seq<Node>)
    ensures multiset(PreorderAll(ns)) == multiset(PostorderAll(ns))
  {
    if ns != [] {
      TraversalsVisitSameNodes(ns[0]);
      TraversalsVisitSameNodesAll(ns[1..]);
    }
  }

  function TypedNonTerminals(ns: seq<Node>, t: string): seq<Node>
  {
    if ns == [] then []
    else (if IsNonTerminal(ns[0]) && Type(ns[0]) == t then [ns[0]] else []) + TypedNonTerminals(ns[1..], t)
  }

  lemma TypedNonTerminalsAppend(a: seq<Node>, b: seq<Node>, t: string)
    ensures TypedNonTerminals(a + b, t) == TypedNonTerminals(a, t) + TypedNonTerminals(b, t)
  {
    if a == [] {
      assert a + b == b;
    } else {
      assert (a + b)[0] == a[0];
      assert (a + b)[1..] == a[1..] + b;
      TypedNonTerminalsAppend(a[1..], b, t);
    }
  }

  /**
   * A deep `search_node` lists exactly the non-terminals of the type in
   * preorder: skipping terminal children loses nothing, as they have no
   * children.
   */
  lemma {:induction false} DeepSearchIsPreorder(n: Node, t: string)
    requires IsNonTerminal(n)
    ensures Search(n, t, true) == TypedNonTerminals(Preorder(n), t)
  {
    DeepSearchIsPreorderAll(Kids(n), t);
    TypedNonTerminalsAppend([n], PreorderAll(Kids(n)), t);
    assert TypedNonTerminals([n], t) == (if Type(n) == t then [n] else []) + TypedNonTerminals([], t);
  }

  lemma {:induction false} DeepSearchIsPreorderAll(ns: seq<Node>, t: string)
    ensures SearchKids(ns, t, true) == TypedNonTerminals(PreorderAll(ns), t)
  {
    if ns != [] {
      DeepSearchIsPreorderAll(ns[1..], t);
      TypedNonTerminalsAppend(Preorder(ns[0]), PreorderAll(ns[1..]), t);
      if IsNonTerminal(ns[0]) {
        DeepSearchIsPreorder(ns[0], t);
      } else {
        assert Kids(ns[0]) == [];
        assert Preorder(ns[0]) == [ns[0]];
        assert TypedNonTerminals([ns[0]], t) == [] + TypedNonTerminals([], t);
      }
    }
  }

  // ---------------------------------------------------------------------------
  // reconstruct_tree

  datatype RebuildError = TermstrMissing | NoNodeKept

  /** Sets the neighbour flags the way an assignment to `left_neighbor`/`right_neighbor` does. */
  function SetLinks(n: Node, left: bool, right: bool): Node
  {
    match n
    case Reconstructed(t, cs, sp, k, at, s, l, r) => Reconstructed(t, cs, sp, k, at, s, l || left, r || right)
    case _ => n
  }

  /** The neighbour loop of `reconstructnode`: a right neighbour below the last index, a left one from index 1. */
  function Linked(ns: seq<Node>): seq<Node>
  {
    seq(|ns|, i requires 0 <= i < |ns| => SetLinks(ns[i], i >= 1, i + 1 < |ns|))
  }

  /** The neighbour loop written for the wrapper around an untyped root. */
  function RootLinkedAsWritten(ns: seq<Node>): seq<Node>
  {
    seq(|ns|, i requires 0 <= i < |ns| => SetLinks(ns[i], i > 1, i > 0 && i + 1 < |ns|))
  }

  /** Every node of a sequence carries exactly the flags of its position. */
  predicate Neighbours(ns: seq<Node>)
  {
    forall i :: 0 <= i < |ns| ==>
      ns[i].Reconstructed? && ns[i].hasLeft == (i >= 1) && ns[i].hasRight == (i + 1 < |ns|)
  }

  /** All children at every depth below `n` have neighbour flags that match their siblings. */
  predicate LinkedBelow(n: Node)
  {
    n.Reconstructed? && Neighbours(n.children)
    && forall i :: 0 <= i < |n.children| ==> LinkedBelow(n.children[i])
  }

  /** What `reconstructnode` returns before its parent links it in. */
  predicate Loose(n: Node)
  {
    LinkedBelow(n) && !n.hasLeft && !n.hasRight
  }

  /**
   * `reconstructnode`: a terminal gives nothing; a non-terminal whose type is
   * listed becomes one reconstructed node holding its text and its rebuilt
   * children; any other node is replaced by its rebuilt children.
   */
  function Rebuild(n: Node, types: set<string>, dict: map<string, string>): (r: Result<seq<Node>, RebuildError>)
    ensures r.Ok? ==> forall i :: 0 <= i < |r.value| ==> Loose(r.value[i])
    ensures r.Ok? && IsNonTerminal(n) && Type(n) in types ==>
      GetStr(n, dict).Ok? && |r.value| == 1 && r.value[0].Reconstructed? && r.value[0].typ == Type(n) && r.value[0].span == n.span
      && r.value[0].termstr == GetStr(n, dict).value
    ensures !IsNonTerminal(n) ==> r == Ok([])
  {
    if !IsNonTerminal(n) then Ok([])
    else
      match RebuildAll(Kids(n), types, dict)
      case Err(e) => Err(e)
      case Ok(kids) =>
        if Type(n) in types then
          match GetStr(n, dict)
          case Err(_) => Err(TermstrMissing)
          case Ok(s) =>
            var x := Reconstructed(Type(n), Linked(kids), n.span, Nodenum(n), n.attrs, s, false, false);
            assert forall i :: 0 <= i < |x.children| ==> LinkedBelow(x.children[i]) by {
              forall i | 0 <= i < |x.children| ensures LinkedBelow(x.children[i]) {
                assert Loose(kids[i]);
              }
            }
            Ok([x])
        else Ok(kids)
  }

  function RebuildAll(ns: seq<Node>, types: set<string>, dict: map<string, string>): (r: Result<seq<Node>, RebuildError>)
    ensures r.Ok? ==> forall i :: 0 <= i < |r.value| ==> Loose(r.value[i])
  {
    if ns == [] then Ok([])
    else
      match Rebuild(ns[0], types, dict)
      case Err(e) => Err(e)
      case Ok(a) =>
        match RebuildAll(ns[1..], types, dict)
        case Err(e) => Err(e)
        case Ok(b) =>
          assert forall i :: 0 <= i < |a + b| ==> Loose((a + b)[i]) by {
            forall i | 0 <= i < |a + b| ensures Loose((a + b)[i]) {
              if i < |a| { assert (a + b)[i] == a[i]; } else { assert (a + b)[i] == b[i - |a|]; }
            }
          }
          Ok(a + b)
  }

  /**
   * `reconstruct_tree` as written: the wrapper around an untyped root links
   * its children with shifted bounds, so a child has a left link only from
   * the third on and a right link only from the second on.
   */
  function ReconstructTreeAsWritten(root: Node, types: set<string>, dict: map<string, string>): (r: Result<Node, RebuildError>)
    ensures r.Ok? && IsNonTerminal(root) && Type(root) !in types ==>
      r.value.Reconstructed? && r.value.typ == Type(root)
      && forall i :: 0 <= i < |r.value.children| ==>
           r.value.children[i].Reconstructed? && r.value.children[i].hasLeft == (i >= 2) && r.value.children[i].hasRight == (1 <= i && i + 1 < |r.value.children|)
  {
    match Rebuild(root, types, dict)
    case Err(e) => Err(e)
    case Ok(nc) =>
      if IsNonTerminal(root) && Type(root) !in types then
        Ok(Reconstructed(Type(root), RootLinkedAsWritten(nc), root.span, Nodenum(root), root.attrs, Type(root), false, false))
      else if nc == [] then Err(NoNodeKept)
      else Ok(nc[0])
  }

  /** `reconstruct_tree` with the root's children linked like every other level. */
  function ReconstructTree(root: Node, types: set<string>, dict: map<string, string>): (r: Result<Node, RebuildError>)
    ensures r.Ok? ==> LinkedBelow(r.value) && r.value.typ == Type(root)
    ensures r.Ok? && IsNonTerminal(root) && Type(root) !in types ==> r.value.termstr == Type(root)
    ensures !IsNonTerminal(root) ==> r == Err(NoNodeKept)
  {
    match Rebuild(root, types, dict)
    case Err(e) => Err(e)
    case Ok(nc) =>
      if IsNonTerminal(root) && Type(root) !in types then
        var x := Reconstructed(Type(root), Linked(nc), root.span, Nodenum(root), root.attrs, Type(root), false, false);
        assert forall i :: 0 <= i < |x.children| ==> LinkedBelow(x.children[i]) by {
          forall i | 0 <= i < |x.children| ensures LinkedBelow(x.children[i]) {
            assert Loose(nc[i]);
          }
        }
        Ok(x)
      else if nc == [] then Err(NoNodeKept)
      else Ok(nc[0])
  }

  /** The two definitions differ only in the neighbour flags of the root's children. */
  lemma SameRebuildOtherwise(root: Node, types: set<string>, dict: map<string, string>)
    ensures ReconstructTreeAsWritten(root, types, dict).Ok? == ReconstructTree(root, types, dict).Ok?
    ensures !(IsNonTerminal(root) && Type(root) !in types) ==>
      ReconstructTreeAsWritten(root, types, dict) == ReconstructTree(root, types, dict)
  {
  }

  /**
   * With an untyped root over two kept siblings, the first is left without
   * its right neighbour and the second without its left one.
   */
  lemma RootLinksAsWrittenMissing()
    ensures var leaf := Terminal("x", NoSpan, map[]);
      var a := NonTerminal("A", [leaf], NoSpan, 0, map[]);
      var root := NonTerminal("R", [a, a], NoSpan, 1, map[]);
      var r := ReconstructTreeAsWritten(root, {"A"}, map[]);
      r.Ok? && |r.value.children| == 2 && !r.value.children[0].hasRight && !r.value.children[1].hasLeft
      && !LinkedBelow(r.value) && ReconstructTree(root, {"A"}, map[]).Ok?
  {
    var leaf := Terminal("x", NoSpan, map[]);
    var a := NonTerminal("A", [leaf], NoSpan, 0, map[]);
    var root := NonTerminal("R", [a, a], NoSpan, 1, map[]);
    assert [leaf][1..] == [];
    assert RebuildAll([leaf], {"A"}, map[]) == Ok([] + []);
    assert GetStrs([leaf], map[]) == Ok("x" + "");
    assert "x" + "" == "x";
    var none: map<string, string> := map[];
    assert a.typ !in none;
    assert GetStr(a, map[]) == Ok("x");
    var ra := Reconstructed("A", [], NoSpan, 0, map[], "x", false, false);
    assert Linked([]) == [];
    assert Rebuild(a, {"A"}, map[]) == Ok([ra]);
    assert [a, a][1..] == [a];
    assert [a][1..] == [];
    assert [ra] + [] == [ra];
    assert RebuildAll([a], {"A"}, map[]) == Ok([ra]);
    assert RebuildAll([a, a], {"A"}, map[]) == Ok([ra] + [ra]);
  }

  // Document order of what is kept

  /** The types met in preorder, descending through non-terminals. */
  function Outline(ns: seq<Node>): seq<string>
  {
    if ns == [] then []
    else [Type(ns[0])] + (if IsNonTerminal(ns[0]) then Outline(Kids(ns[0])) else []) + Outline(ns[1..])
  }

  /** The types of the listed non-terminals in preorder. */
  function KeptOutline(n: Node, types: set<string>): seq<string>
  {
    if !IsNonTerminal(n) then []
    else (if Type(n) in types then [Type(n)] else []) + KeptOutlineAll(Kids(n), types)
  }

  function KeptOutlineAll(ns: seq<Node>, types: set<string>): seq<string>
  {
    if ns == [] then [] else KeptOutline(ns[0], types) + KeptOutlineAll(ns[1..], types)
  }

  lemma {:induction false} OutlineAppend(a: seq<Node>, b: seq<Node>)
    ensures Outline(a + b) == Outline(a) + Outline(b)
  {
    if a == [] {
      assert a + b == b;
    } else {
      assert (a + b)[0] == a[0];
      assert (a + b)[1..] == a[1..] + b;
      OutlineAppend(a[1..], b);
      var h := [Type(a[0])] + (if IsNonTerminal(a[0]) then Outline(Kids(a[0])) else []);
      assert Outline(a + b) == h + (Outline(a[1..]) + Outline(b));
      assert Outline(a) == h + Outline(a[1..]);
      assert h + (Outline(a[1..]) + Outline(b)) == h + Outline(a[1..]) + Outline(b);
    }
  }

  /** Sequences whose nodes agree in type and children have the same outline. */
  lemma {:induction false} OutlineAlike(a: seq<Node>, b: seq<Node>)
    requires |a| == |b|
    requires forall i :: 0 <= i < |a| ==>
      Type(a[i]) == Type(b[i]) && IsNonTerminal(a[i]) == IsNonTerminal(b[i]) && Kids(a[i]) == Kids(b[i])
    ensures Outline(a) == Outline(b)
  {
    if a != [] {
      OutlineAlike(a[1..], b[1..]);
    }
  }

  /**
   * Rebuilding keeps exactly the non-terminals whose type is listed, in
   * document order.
   */
  lemma {:induction false} RebuildKeepsListedTypes(n: Node, types: set<string>, dict: map<string, string>)
    requires Rebuild(n, types, dict).Ok?
    ensures Outline(Rebuild(n, types, dict).value) == KeptOutline(n, types)
  {
    if IsNonTerminal(n) {
      var kids := RebuildAll(Kids(n), types, dict).value;
      RebuildAllKeepsListedTypes(Kids(n), types, dict);
      if Type(n) in types {
        var x := Rebuild(n, types, dict).value[0];
        assert x.children == Linked(kids);
        OutlineAlike(Linked(kids), kids);
        assert Outline([x]) == [Type(n)] + Outline(Linked(kids)) + Outline([]);
      }
    }
  }

  lemma {:induction false} RebuildAllKeepsListedTypes(ns: seq<Node>, types: set<string>, dict: map<string, string>)
    requires RebuildAll(ns, types, dict).Ok?
    ensures Outline(RebuildAll(ns, types, dict).value) == KeptOutlineAll(ns, types)
  {
    if ns != [] {
      RebuildKeepsListedTypes(ns[0], types, dict);
      RebuildAllKeepsListedTypes(ns[1..], types, dict);
      OutlineAppend(Rebuild(ns[0], types, dict).value, RebuildAll(ns[1..], types, dict).value);
    }
  }
}
