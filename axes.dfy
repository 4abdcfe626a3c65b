/**
 * The axes of the tree query language of tacparser/astactions.py: from one
 * node, the nodes a selector step looks at (its neighbours, ancestors,
 * children or descendants), those of the step's type, and the step's
 * conditions applied to them.
 *
 * The nodes are those of tacparser/node.py, which astactions.py imports.
 * A node's parent is the node one step up its path.  A neighbour link is
 * the flag a reconstructed node carries for the sibling just before or
 * after it; every other node of node.py has the link set to `None`.  The
 * node classes a parser builds have no link fields outside their
 * reconstructed node; module ParserNodes states the steps on those.
 */
module Axes {
  import opened Text
  import opened Nodes
  import opened Trees
  import opened Conditions

  datatype Axis = OnTheLeft | OnTheRight | ForwardTo | NextTo | Descendants | Children | Ancestor | Parent

  /** One selector step: an axis, the type name it looks for, and the `[..|..]` groups after it. */
  datatype Step = Step(axis: Axis, typename: string, groups: seq<seq<Condition>>)

  // ---------------------------------------------------------------------------
  // Links

  /** `n.left_neighbor` is set. */
  predicate HasLeftLink(root: Node, p: Path)
    requires ValidPath(root, p)
  {
    p != [] && Last(p) > 0 && NodeAt(root, p).Reconstructed? && NodeAt(root, p).hasLeft
  }

  /** `n.right_neighbor` is set. */
  predicate HasRightLink(root: Node, p: Path)
    requires ValidPath(root, p)
  {
    p != [] && Last(p) + 1 < |Kids(ParentAt(root, p))| && NodeAt(root, p).Reconstructed? && NodeAt(root, p).hasRight
  }

  /** Where `left_neighbor` points: the sibling just before. */
  function LeftOf(root: Node, p: Path): (r: Path)
    requires ValidPath(root, p) && HasLeftLink(root, p)
    ensures ValidPath(root, r) && r == Sibling(p, Last(p) - 1)
  {
    SiblingPath(root, p, Last(p) - 1);
    Sibling(p, Last(p) - 1)
  }

  /** Where `right_neighbor` points: the sibling just after. */
  function RightOf(root: Node, p: Path): (r: Path)
    requires ValidPath(root, p) && HasRightLink(root, p)
    ensures ValidPath(root, r) && r == Sibling(p, Last(p) + 1)
    ensures ParentAt(root, r) == ParentAt(root, p)
  {
    SiblingPath(root, p, Last(p) + 1);
    Sibling(p, Last(p) + 1)
  }

  /** The nodes the `while _ln.left_neighbor` loop visits, nearest first. */
  function LeftChain(root: Node, p: Path): (r: seq<Path>)
    requires ValidPath(root, p)
    decreases if p == [] then 0 else Last(p)
  {
    if HasLeftLink(root, p) then [LeftOf(root, p)] + LeftChain(root, LeftOf(root, p)) else []
  }

  /** The nodes the `while _rn.right_neighbor` loop visits, nearest first. */
  function RightChain(root: Node, p: Path): (r: seq<Path>)
    requires ValidPath(root, p)
    decreases if p == [] then 0 else |Kids(ParentAt(root, p))| - Last(p)
  {
    if HasRightLink(root, p) then [RightOf(root, p)] + RightChain(root, RightOf(root, p)) else []
  }

  /** The nodes the `while _ancestor.parent` loop visits: every proper prefix, longest first. */
  function AncestorChain(p: Path): (r: seq<Path>)
    ensures |r| == |p|
    decreases |p|
  {
    if p == [] then [] else [Up(p)] + AncestorChain(Up(p))
  }

  /** The ancestors are the parent, its parent, and so on up to the root. */
  lemma {:induction false} AncestorChainPrefixes(p: Path)
    ensures forall j :: 0 <= j < |p| ==> AncestorChain(p)[j] == p[..|p| - 1 - j]
    decreases |p|
  {
    if p != [] {
      AncestorChainPrefixes(Up(p));
      forall j | 0 <= j < |p| ensures AncestorChain(p)[j] == p[..|p| - 1 - j] {
        if j > 0 {
          assert AncestorChain(p)[j] == AncestorChain(Up(p))[j - 1];
          assert Up(p)[..|Up(p)| - 1 - (j - 1)] == p[..|p| - 1 - j];
        }
      }
    }
  }

  lemma AncestorChainValid(root: Node, p: Path)
    requires ValidPath(root, p)
    ensures AllValid(root, AncestorChain(p))
  {
    AncestorChainPrefixes(p);
    forall j | 0 <= j < |p| ensures ValidPath(root, AncestorChain(p)[j]) {
      PrefixPath(root, p, |p| - 1 - j);
    }
  }

  /** The paths of the children of the node at `p`, in order. */
  function ChildPaths(root: Node, p: Path): (r: seq<Path>)
    requires ValidPath(root, p)
    ensures AllValid(root, r) && |r| == |Kids(NodeAt(root, p))|
    ensures forall i :: 0 <= i < |r| ==> r[i] == p + [i] && NodeAt(root, r[i]) == Kids(NodeAt(root, p))[i]
  {
    var n := |Kids(NodeAt(root, p))|;
    forall i | 0 <= i < n ensures ValidPath(root, p + [i]) && NodeAt(root, p + [i]) == Kids(NodeAt(root, p))[i] {
      ChildPath(root, p, i);
    }
    seq(n, i requires 0 <= i < n => p + [i])
  }

  /** The paths `_n.search_node(t)` finds below the node at `p`; a terminal has none. */
  function DescendantPaths(root: Node, p: Path, t: string): (r: seq<Path>)
    requires ValidPath(root, p)
    ensures AllValid(root, r)
    ensures forall i :: 0 <= i < |r| ==> HasType(root, r[i], t)
  {
    var n := NodeAt(root, p);
    if IsNonTerminal(n) then
      var qs := SearchPaths(n, t, false);
      SearchPathsAgree(n, t, false);
      forall i | 0 <= i < |qs| ensures ValidPath(root, p + qs[i]) && Type(NodeAt(root, p + qs[i])) == t {
        NodeAtConcat(root, p, qs[i]);
        SearchSound(n, t, false, Search(n, t, false)[i]);
      }
      seq(|qs|, i requires 0 <= i < |qs| => p + qs[i])
    else []
  }

  /** A descendant step finds the nodes `search_node` finds, in its order. */
  lemma DescendantsAreSearch(root: Node, p: Path, t: string)
    requires ValidPath(root, p) && IsNonTerminal(NodeAt(root, p))
    ensures NodesAt(root, DescendantPaths(root, p, t)) == Search(NodeAt(root, p), t, false)
  {
    var n := NodeAt(root, p);
    var qs := SearchPaths(n, t, false);
    SearchPathsAgree(n, t, false);
    var r := DescendantPaths(root, p, t);
    forall i | 0 <= i < |r| ensures NodeAt(root, r[i]) == Search(n, t, false)[i] {
      NodeAtConcat(root, p, qs[i]);
    }
  }

  /** Under the flags `reconstruct_tree` sets, a node has a left neighbour exactly when it is not the first child. */
  lemma LeftLinkIff(root: Node, p: Path)
    requires ValidPath(root, p) && p != [] && Neighbours(Kids(ParentAt(root, p)))
    ensures HasLeftLink(root, p) <==> Last(p) > 0
  {
    assert NodeAt(root, p) == Kids(ParentAt(root, p))[Last(p)];
  }

  /** Under the flags `reconstruct_tree` sets, a node has a right neighbour exactly when it is not the last child. */
  lemma RightLinkIff(root: Node, p: Path)
    requires ValidPath(root, p) && p != [] && Neighbours(Kids(ParentAt(root, p)))
    ensures HasRightLink(root, p) <==> Last(p) + 1 < |Kids(ParentAt(root, p))|
  {
    assert NodeAt(root, p) == Kids(ParentAt(root, p))[Last(p)];
  }

  lemma SameParent(root: Node, p: Path, k: nat)
    requires ValidPath(root, p) && p != [] && k < |Kids(ParentAt(root, p))|
    ensures ValidPath(root, Sibling(p, k)) && ParentAt(root, Sibling(p, k)) == ParentAt(root, p)
  {
    SiblingPath(root, p, k);
  }

  /** Sibling lists, counted down from index `k` or up from it. */
  predicate CountsDown(c: seq<Path>, u: Path, k: int)
  {
    forall j :: 0 <= j < |c| ==> c[j] == u + [k - j]
  }

  lemma CountsDownCons(x: Path, d: seq<Path>, u: Path, k: int)
    requires x == u + [k] && CountsDown(d, u, k - 1)
    ensures CountsDown([x] + d, u, k)
  {
    forall j | 0 <= j < |[x] + d| ensures ([x] + d)[j] == u + [k - j] {
      if j > 0 { assert ([x] + d)[j] == d[j - 1]; }
    }
  }

  predicate CountsUp(c: seq<Path>, u: Path, k: int)
  {
    forall j :: 0 <= j < |c| ==> c[j] == u + [k + j]
  }

  lemma CountsUpCons(x: Path, d: seq<Path>, u: Path, k: int)
    requires x == u + [k] && CountsUp(d, u, k + 1)
    ensures CountsUp([x] + d, u, k)
  {
    forall j | 0 <= j < |[x] + d| ensures ([x] + d)[j] == u + [k + j] {
      if j > 0 { assert ([x] + d)[j] == d[j - 1]; }
    }
  }

  /** One step along the left links of a reconstructed tree. */
  lemma LeftChainStepSibling(root: Node, p: Path)
    requires ValidPath(root, p) && p != [] && Neighbours(Kids(ParentAt(root, p))) && Last(p) > 0
    ensures HasLeftLink(root, p)
    ensures var q := Sibling(p, Last(p) - 1);
      ValidPath(root, q) && ParentAt(root, q) == ParentAt(root, p)
      && LeftChain(root, p) == [q] + LeftChain(root, q)
  {
    LeftLinkIff(root, p);
    SameParent(root, p, Last(p) - 1);
  }

  lemma RightChainStepSibling(root: Node, p: Path)
    requires ValidPath(root, p) && p != [] && Neighbours(Kids(ParentAt(root, p)))
    requires Last(p) + 1 < |Kids(ParentAt(root, p))|
    ensures HasRightLink(root, p)
    ensures var q := Sibling(p, Last(p) + 1);
      ValidPath(root, q) && ParentAt(root, q) == ParentAt(root, p)
      && RightChain(root, p) == [q] + RightChain(root, q)
  {
    RightLinkIff(root, p);
    SameParent(root, p, Last(p) + 1);
  }

  /** In a reconstructed tree the left neighbours are all the earlier siblings, nearest first. */
  lemma {:induction false} LeftChainSiblings(root: Node, p: Path)
    requires ValidPath(root, p) && p != [] && Neighbours(Kids(ParentAt(root, p)))
    ensures |LeftChain(root, p)| == Last(p)
    ensures CountsDown(LeftChain(root, p), Up(p), Last(p) - 1)
    decreases Last(p)
  {
    LeftLinkIff(root, p);
    if Last(p) > 0 {
      LeftChainStepSibling(root, p);
      var q := Sibling(p, Last(p) - 1);
      assert q == Up(p) + [Last(p) - 1] && Up(q) == Up(p) && Last(q) == Last(p) - 1;
      LeftChainSiblings(root, q);
      CountsDownCons(q, LeftChain(root, q), Up(p), Last(p) - 1);
    }
  }

  /** In a reconstructed tree the right neighbours are all the later siblings, nearest first. */
  lemma {:induction false} RightChainSiblings(root: Node, p: Path)
    requires ValidPath(root, p) && p != [] && Neighbours(Kids(ParentAt(root, p)))
    ensures |RightChain(root, p)| == |Kids(ParentAt(root, p))| - 1 - Last(p)
    ensures CountsUp(RightChain(root, p), Up(p), Last(p) + 1)
    decreases |Kids(ParentAt(root, p))| - Last(p)
  {
    RightLinkIff(root, p);
    if Last(p) + 1 < |Kids(ParentAt(root, p))| {
      RightChainStepSibling(root, p);
      var q := Sibling(p, Last(p) + 1);
      assert q == Up(p) + [Last(p) + 1] && Up(q) == Up(p) && Last(q) == Last(p) + 1;
      RightChainSiblings(root, q);
      CountsUpCons(q, RightChain(root, q), Up(p), Last(p) + 1);
    }
  }

  // ---------------------------------------------------------------------------
  // What one step finds

  /** The `_result` list each axis builds before the conditions are applied. */
  function Found(root: Node, p: Path, axis: Axis, t: string): (r: seq<Path>)
    requires ValidPath(root, p)
    ensures AllValid(root, r)
    ensures forall i :: 0 <= i < |r| ==> HasType(root, r[i], t)
  {
    match axis
    case OnTheLeft => FilterTypePaths(root, LeftChain(root, p), t)
    case OnTheRight => FilterTypePaths(root, RightChain(root, p), t)
    case ForwardTo =>
      if HasLeftLink(root, p) && Type(NodeAt(root, LeftOf(root, p))) == t then [LeftOf(root, p)] else []
    case NextTo =>
      if HasRightLink(root, p) && Type(NodeAt(root, RightOf(root, p))) == t then [RightOf(root, p)] else []
    case Descendants => DescendantPaths(root, p, t)
    case Children => FilterTypePaths(root, ChildPaths(root, p), t)
    case Ancestor => FilterTypePaths(root, AncestorChain(p), t)
    case Parent =>
      if p != [] && Type(ParentAt(root, p)) == t then
        PrefixPath(root, p, |p| - 1);
        [Up(p)]
      else []
  }

  /** A child step finds what `get_childnode` lists: the children of the type, in order. */
  lemma ChildrenAreChildNodes(root: Node, p: Path, t: string)
    requires ValidPath(root, p)
    ensures var f := FilterTypePaths(root, ChildPaths(root, p), t);
      AllValid(root, f) && NodesAt(root, f) == FilterType(Kids(NodeAt(root, p)), t)
  {
    var cs := ChildPaths(root, p);
    FilterTypePathsKeeps(root, cs, t);
    FilterTypePathsNodes(root, cs, t);
    ChildNodesAt(root, p);
  }

  lemma ChildNodesAt(root: Node, p: Path)
    requires ValidPath(root, p)
    ensures NodesAt(root, ChildPaths(root, p)) == Kids(NodeAt(root, p))
  {
    var cs := ChildPaths(root, p);
    var ns := NodesAt(root, cs);
    forall i | 0 <= i < |ns| ensures ns[i] == Kids(NodeAt(root, p))[i] { }
  }

  /** `-` and `+` look only at the nearest neighbour: the first entry of what `--` and `++` walk along. */
  lemma NeighbourIsNearest(root: Node, p: Path, t: string)
    requires ValidPath(root, p)
    ensures var c := LeftChain(root, p);
      Found(root, p, ForwardTo, t) == FilterTypePaths(root, c[..if c == [] then 0 else 1], t)
    ensures var c := RightChain(root, p);
      Found(root, p, NextTo, t) == FilterTypePaths(root, c[..if c == [] then 0 else 1], t)
  {
    var l := LeftChain(root, p);
    if l != [] {
      FilterTypeCons(root, l[0], [], t);
      assert l[..1] == [l[0]] + [];
    }
    var r := RightChain(root, p);
    if r != [] {
      FilterTypeCons(root, r[0], [], t);
      assert r[..1] == [r[0]] + [];
    }
  }

  /** `<` looks only at the parent: the first entry of what `<<` walks along. */
  lemma ParentIsNearestAncestor(root: Node, p: Path, t: string)
    requires ValidPath(root, p)
    ensures Found(root, p, Parent, t) == FilterTypePaths(root, AncestorChain(p)[..if p == [] then 0 else 1], t)
  {
    if p != [] {
      var c := AncestorChain(p);
      PrefixPath(root, p, |p| - 1);
      FilterTypeCons(root, c[0], [], t);
      assert c[..1] == [c[0]] + [];
    }
  }

  /**
   * One step from the node at `p`: what its axis finds, with its conditions
   * applied.  A path outside the tree finds nothing; the selectors only
   * ever start from paths of the tree.
   */
  function StepSpec(root: Node, p: Path, s: Step): (r: Result<seq<Path>, ActionError>)
    ensures r.Ok? ==> AllValid(root, r.value)
  {
    if ValidPath(root, p) then ConditionsSpec(root, Found(root, p, s.axis, s.typename), s.groups) else Ok([])
  }

  // ---------------------------------------------------------------------------
  // The walkers

  lemma FilterTypeCons(root: Node, x: Path, rest: seq<Path>, t: string)
    ensures FilterTypePaths(root, [x] + rest, t)
      == (if HasType(root, x, t) then [x] else []) + FilterTypePaths(root, rest, t)
  {
    assert ([x] + rest)[0] == x && ([x] + rest)[1..] == rest;
  }

  lemma Concat3(a: seq<Path>, b: seq<Path>, c: seq<Path>)
    ensures a + (b + c) == (a + b) + c
  {
  }

  /** One round of `otl`'s loop: the nearest left neighbour, then those beyond it. */
  lemma LeftChainStep(root: Node, p: Path, t: string)
    requires ValidPath(root, p) && HasLeftLink(root, p)
    ensures FilterTypePaths(root, LeftChain(root, p), t)
      == (if HasType(root, LeftOf(root, p), t) then [LeftOf(root, p)] else [])
         + FilterTypePaths(root, LeftChain(root, LeftOf(root, p)), t)
  {
    FilterTypeCons(root, LeftOf(root, p), LeftChain(root, LeftOf(root, p)), t);
  }

  lemma RightChainStep(root: Node, p: Path, t: string)
    requires ValidPath(root, p) && HasRightLink(root, p)
    ensures FilterTypePaths(root, RightChain(root, p), t)
      == (if HasType(root, RightOf(root, p), t) then [RightOf(root, p)] else [])
         + FilterTypePaths(root, RightChain(root, RightOf(root, p)), t)
  {
    FilterTypeCons(root, RightOf(root, p), RightChain(root, RightOf(root, p)), t);
  }

  /** `otl`'s loop: the left neighbours of the type, nearest first. */
  method LeftWalk(root: Node, p: Path, t: string) returns (r: seq<Path>)
    requires ValidPath(root, p)
    ensures r == FilterTypePaths(root, LeftChain(root, p), t)
  {
    r := [];
    var cur := p;
    while HasLeftLink(root, cur)
      invariant ValidPath(root, cur)
      invariant r + FilterTypePaths(root, LeftChain(root, cur), t) == FilterTypePaths(root, LeftChain(root, p), t)
      decreases if cur == [] then 0 else Last(cur)
    {
      var next := LeftOf(root, cur);
      var h := if HasType(root, next, t) then [next] else [];
      LeftChainStep(root, cur, t);
      Concat3(r, h, FilterTypePaths(root, LeftChain(root, next), t));
      r := r + h;
      cur := next;
    }
    assert LeftChain(root, cur) == [];
    assert r + [] == r;
  }

  /** `otr`'s loop: the right neighbours of the type, nearest first. */
  method RightWalk(root: Node, p: Path, t: string) returns (r: seq<Path>)
    requires ValidPath(root, p)
    ensures r == FilterTypePaths(root, RightChain(root, p), t)
  {
    r := [];
    var cur := p;
    while HasRightLink(root, cur)
      invariant ValidPath(root, cur)
      invariant r + FilterTypePaths(root, RightChain(root, cur), t) == FilterTypePaths(root, RightChain(root, p), t)
      decreases if cur == [] then 0 else |Kids(ParentAt(root, cur))| - Last(cur)
    {
      var next := RightOf(root, cur);
      var h := if HasType(root, next, t) then [next] else [];
      RightChainStep(root, cur, t);
      Concat3(r, h, FilterTypePaths(root, RightChain(root, next), t));
      r := r + h;
      cur := next;
    }
    assert RightChain(root, cur) == [];
    assert r + [] == r;
  }

  /** `act`'s loop: the ancestors of the type, nearest first. */
  method AncestorWalk(root: Node, p: Path, t: string) returns (r: seq<Path>)
    requires ValidPath(root, p)
    ensures r == FilterTypePaths(root, AncestorChain(p), t)
  {
    r := [];
    var cur := p;
    while cur != []
      invariant r + FilterTypePaths(root, AncestorChain(cur), t) == FilterTypePaths(root, AncestorChain(p), t)
      decreases |cur|
    {
      var next := Up(cur);
      var h := if HasType(root, next, t) then [next] else [];
      AncestorChainStep(root, cur, t);
      Concat3(r, h, FilterTypePaths(root, AncestorChain(next), t));
      r := r + h;
      cur := next;
    }
    assert r + [] == r;
  }

  lemma AncestorChainStep(root: Node, p: Path, t: string)
    requires p != []
    ensures FilterTypePaths(root, AncestorChain(p), t)
      == (if HasType(root, Up(p), t) then [Up(p)] else []) + FilterTypePaths(root, AncestorChain(Up(p)), t)
  {
    FilterTypeCons(root, Up(p), AncestorChain(Up(p)), t);
  }

  lemma FilterTypeSnoc(root: Node, a: seq<Path>, x: Path, t: string)
    ensures FilterTypePaths(root, a + [x], t)
      == FilterTypePaths(root, a, t) + (if HasType(root, x, t) then [x] else [])
  {
    FilterTypePathsAppend(root, a, [x], t);
    assert [x][1..] == [];
  }

  lemma {:induction false} FilterTypePathsAppend(root: Node, a: seq<Path>, b: seq<Path>, t: string)
    ensures FilterTypePaths(root, a + b, t) == FilterTypePaths(root, a, t) + FilterTypePaths(root, b, t)
  {
    if a == [] {
      assert a + b == b;
    } else {
      var h := if HasType(root, a[0], t) then [a[0]] else [];
      assert (a + b)[0] == a[0] && (a + b)[1..] == a[1..] + b;
      assert FilterTypePaths(root, a + b, t) == h + FilterTypePaths(root, a[1..] + b, t);
      FilterTypePathsAppend(root, a[1..], b, t);
      assert h + (FilterTypePaths(root, a[1..], t) + FilterTypePaths(root, b, t))
          == (h + FilterTypePaths(root, a[1..], t)) + FilterTypePaths(root, b, t);
    }
  }

  /** `cld`'s loop: the children of the type, in order. */
  method ChildrenWalk(root: Node, p: Path, t: string) returns (r: seq<Path>)
    requires ValidPath(root, p)
    ensures r == FilterTypePaths(root, ChildPaths(root, p), t)
  {
    var kids := ChildPaths(root, p);
    r := [];
    for i := 0 to |kids|
      invariant r == FilterTypePaths(root, kids[..i], t)
    {
      assert kids[..i + 1] == kids[..i] + [kids[i]];
      FilterTypeSnoc(root, kids[..i], kids[i], t);
      if Type(NodeAt(root, kids[i])) == t {
        r := r + [kids[i]];
      }
    }
    assert kids[..|kids|] == kids;
  }

  /** One selector function `otl` … `prt` applied to one node. */
  method RunStep(root: Node, p: Path, s: Step) returns (r: Result<seq<Path>, ActionError>)
    requires ValidPath(root, p)
    ensures r == StepSpec(root, p, s)
  {
    var found: seq<Path>;
    match s.axis {
      case OnTheLeft => found := LeftWalk(root, p, s.typename);
      case OnTheRight => found := RightWalk(root, p, s.typename);
      case ForwardTo =>
        found := [];
        if HasLeftLink(root, p) && Type(NodeAt(root, LeftOf(root, p))) == s.typename {
          found := [LeftOf(root, p)];
        }
      case NextTo =>
        found := [];
        if HasRightLink(root, p) && Type(NodeAt(root, RightOf(root, p))) == s.typename {
          found := [RightOf(root, p)];
        }
      case Descendants => found := DescendantPaths(root, p, s.typename);
      case Children => found := ChildrenWalk(root, p, s.typename);
      case Ancestor => found := AncestorWalk(root, p, s.typename);
      case Parent =>
        found := [];
        if p != [] && Type(ParentAt(root, p)) == s.typename {
          PrefixPath(root, p, |p| - 1);
          found := [Up(p)];
        }
    }
    assert found == Found(root, p, s.axis, s.typename);
    r := ApplyCondition(root, found, s.groups);
  }
}
