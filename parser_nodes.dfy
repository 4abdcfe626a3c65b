/**
 * The selectors of tacparser/astactions.py as they run on the trees a
 * parser builds.  Those trees are made of the node classes of
 * tacparser/baseparser.py, not of tacparser/node.py, and no class there
 * has `get_attr`: an attribute test raises AttributeError at the first node
 * it is applied to.  Only its ReconstructedNode has `left_neighbor` and
 * `right_neighbor`, so a neighbour axis raises at any other node.
 *
 * The rest of the model reads the selectors on node.py's classes
 * (`Axes.StepSpec`), where every node has the two links and the
 * attributes; this module says where the two readings part.
 */
module ParserNodes {
  import opened Text
  import opened Nodes
  import opened Trees
  import opened Conditions
  import opened Axes

  // ---------------------------------------------------------------------------
  // Conditions on baseparser's nodes

  /** No condition of the groups is an attribute test. */
  predicate NoAttributeTests(groups: seq<seq<Condition>>)
  {
    forall i, j :: 0 <= i < |groups| && 0 <= j < |groups[i]| ==> !groups[i][j].Attribute?
  }

  /** One condition: an attribute test calls the missing `get_attr` on the first node it sees. */
  function ApplyOneOnParserNodes(root: Node, ps: seq<Path>, c: Condition): (r: Result<seq<Path>, ActionError>)
    requires AllValid(root, ps)
    ensures r.Ok? ==> AllValid(root, r.value)
    ensures c.Attribute? ==> (r.Err? <==> ps != []) && (r.Err? ==> r.error == NoField("get_attr"))
    ensures !c.Attribute? ==> r == ApplyOne(root, ps, c)
  {
    if c.Attribute? && ps != [] then Err(NoField("get_attr")) else ApplyOne(root, ps, c)
  }

  function GroupOnParserNodes(root: Node, ps: seq<Path>, g: seq<Condition>): (r: Result<seq<Path>, ActionError>)
    requires AllValid(root, ps)
    ensures r.Ok? ==> AllValid(root, r.value)
    decreases |g|
  {
    if g == [] then Ok([])
    else
      match GroupOnParserNodes(root, ps, g[..|g| - 1])
      case Err(e) => Err(e)
      case Ok(acc) =>
        match ApplyOneOnParserNodes(root, ps, g[|g| - 1])
        case Err(e) => Err(e)
        case Ok(more) =>
          AllValidAppend(root, acc, more);
          Ok(acc + more)
  }

  /** `_apply_condition` on baseparser's nodes. */
  function ConditionsOnParserNodes(root: Node, ps: seq<Path>, groups: seq<seq<Condition>>): (r: Result<seq<Path>, ActionError>)
    requires AllValid(root, ps)
    ensures r.Ok? ==> AllValid(root, r.value)
    decreases |groups|
  {
    if groups == [] then Ok(ps)
    else
      match ConditionsOnParserNodes(root, ps, groups[..|groups| - 1])
      case Err(e) => Err(e)
      case Ok(cur) => GroupOnParserNodes(root, cur, groups[|groups| - 1])
  }

  /** Without attribute tests a group runs as on node.py's classes. */
  lemma {:induction false} GroupAgrees(root: Node, ps: seq<Path>, g: seq<Condition>)
    requires AllValid(root, ps) && forall j :: 0 <= j < |g| ==> !g[j].Attribute?
    ensures GroupOnParserNodes(root, ps, g) == GroupSpec(root, ps, g)
    decreases |g|
  {
    if g != [] {
      GroupAgrees(root, ps, g[..|g| - 1]);
    }
  }

  /** Without attribute tests the conditions run as on node.py's classes. */
  lemma {:induction false} ConditionsAgree(root: Node, ps: seq<Path>, groups: seq<seq<Condition>>)
    requires AllValid(root, ps) && NoAttributeTests(groups)
    ensures ConditionsOnParserNodes(root, ps, groups) == ConditionsSpec(root, ps, groups)
    decreases |groups|
  {
    if groups != [] {
      var n := |groups| - 1;
      assert NoAttributeTests(groups[..n]) by {
        forall i, j | 0 <= i < n && 0 <= j < |groups[..n][i]| ensures !groups[..n][i][j].Attribute? {
          assert groups[..n][i] == groups[i];
        }
      }
      ConditionsAgree(root, ps, groups[..n]);
      match ConditionsSpec(root, ps, groups[..n])
      case Err(_) =>
      case Ok(cur) =>
        assert forall j :: 0 <= j < |groups[n]| ==> !groups[n][j].Attribute?;
        GroupAgrees(root, cur, groups[n]);
    }
  }

  /** A group applied to no nodes gives no nodes. */
  lemma {:induction false} GroupOfNothing(root: Node, g: seq<Condition>)
    ensures GroupSpec(root, [], g) == Ok([])
    decreases |g|
  {
    if g != [] {
      GroupOfNothing(root, g[..|g| - 1]);
      var c := g[|g| - 1];
      assert ApplyOne(root, [], c) == Ok([]) by {
        match c
        case SliceAt(_) =>
        case SliceRange(start, stop) => assert PySlice<Path>([], start, stop) == [];
        case LineColumn(_, _, _) =>
        case Attribute(_, _, _) =>
      }
      var none: seq<Path> := [];
      assert none + none == none;
    }
  }

  /** Conditions applied to no nodes give no nodes. */
  lemma {:induction false} ConditionsOfNothing(root: Node, groups: seq<seq<Condition>>)
    ensures ConditionsSpec(root, [], groups) == Ok([])
    decreases |groups|
  {
    if groups != [] {
      ConditionsOfNothing(root, groups[..|groups| - 1]);
      GroupOfNothing(root, groups[|groups| - 1]);
    }
  }

  /**
   * An attribute test on a non-empty list raises on baseparser's nodes.  On
   * node.py's classes a test that reads no string method of the value
   * answers.
   */
  lemma AttributeTestRaises(root: Node, ps: seq<Path>, test: AttrTest, name: string, value: string)
    requires AllValid(root, ps) && ps != []
    ensures ConditionsOnParserNodes(root, ps, [[Attribute(test, name, value)]]) == Err(NoField("get_attr"))
    ensures !NeedsValue(test) ==> ConditionsSpec(root, ps, [[Attribute(test, name, value)]]).Ok?
  {
    var c := Attribute(test, name, value);
    assert [[c]][..0] == [] && [c][..0] == [];
    assert GroupOnParserNodes(root, ps, [c]) == Err(NoField("get_attr"));
    if !NeedsValue(test) {
      assert forall i :: 0 <= i < |ps| ==> !Raises(test, GetAttr(NodeAt(root, ps[i]), name));
      assert GroupSpec(root, ps, [c]).Ok?;
    }
  }

  // ---------------------------------------------------------------------------
  // Axes on baseparser's nodes

  /** The `while _ln.left_neighbor` loop: each node whose field it reads must be a ReconstructedNode. */
  function LeftChainOnParserTree(root: Node, p: Path): (r: Result<seq<Path>, ActionError>)
    requires ValidPath(root, p)
    ensures r.Ok? ==> r.value == LeftChain(root, p)
    ensures r.Err? ==> r.error == NoField("left_neighbor")
    decreases if p == [] then 0 else Last(p)
  {
    if !NodeAt(root, p).Reconstructed? then Err(NoField("left_neighbor"))
    else if HasLeftLink(root, p) then
      match LeftChainOnParserTree(root, LeftOf(root, p))
      case Err(e) => Err(e)
      case Ok(rest) => Ok([LeftOf(root, p)] + rest)
    else Ok([])
  }

  /** The `while _rn.right_neighbor` loop, likewise. */
  function RightChainOnParserTree(root: Node, p: Path): (r: Result<seq<Path>, ActionError>)
    requires ValidPath(root, p)
    ensures r.Ok? ==> r.value == RightChain(root, p)
    ensures r.Err? ==> r.error == NoField("right_neighbor")
    decreases if p == [] then 0 else |Kids(ParentAt(root, p))| - Last(p)
  {
    if !NodeAt(root, p).Reconstructed? then Err(NoField("right_neighbor"))
    else if HasRightLink(root, p) then
      match RightChainOnParserTree(root, RightOf(root, p))
      case Err(e) => Err(e)
      case Ok(rest) => Ok([RightOf(root, p)] + rest)
    else Ok([])
  }

  /** What each axis finds before the conditions; `-` and `+` read the link of the start node only. */
  function FoundOnParserTree(root: Node, p: Path, axis: Axis, t: string): (r: Result<seq<Path>, ActionError>)
    requires ValidPath(root, p)
    ensures r.Ok? ==> r.value == Found(root, p, axis, t)
  {
    match axis
    case OnTheLeft =>
      (match LeftChainOnParserTree(root, p)
       case Err(e) => Err(e)
       case Ok(c) => Ok(FilterTypePaths(root, c, t)))
    case OnTheRight =>
      (match RightChainOnParserTree(root, p)
       case Err(e) => Err(e)
       case Ok(c) => Ok(FilterTypePaths(root, c, t)))
    case ForwardTo =>
      if NodeAt(root, p).Reconstructed? then Ok(Found(root, p, axis, t)) else Err(NoField("left_neighbor"))
    case NextTo =>
      if NodeAt(root, p).Reconstructed? then Ok(Found(root, p, axis, t)) else Err(NoField("right_neighbor"))
    case _ => Ok(Found(root, p, axis, t))
  }

  /** One selector step as written, on a tree of baseparser's nodes. */
  function StepOnParserTree(root: Node, p: Path, s: Step): (r: Result<seq<Path>, ActionError>)
    ensures r.Ok? ==> AllValid(root, r.value)
  {
    if !ValidPath(root, p) then Ok([])
    else
      match FoundOnParserTree(root, p, s.axis, s.typename)
      case Err(e) => Err(e)
      case Ok(ps) => ConditionsOnParserNodes(root, ps, s.groups)
  }

  predicate IsNeighbourAxis(a: Axis)
  {
    a == OnTheLeft || a == OnTheRight || a == ForwardTo || a == NextTo
  }

  /**
   * On a node that is not a ReconstructedNode, such as every node of a
   * parse result, `--`, `++`, `-` and `+` raise AttributeError as written,
   * where `Axes.StepSpec` finds nothing.
   */
  lemma NeighbourStepRaises(root: Node, p: Path, s: Step)
    requires ValidPath(root, p) && !NodeAt(root, p).Reconstructed? && IsNeighbourAxis(s.axis)
    ensures StepOnParserTree(root, p, s)
            == Err(NoField(if s.axis == OnTheLeft || s.axis == ForwardTo then "left_neighbor" else "right_neighbor"))
    ensures StepSpec(root, p, s) == Ok([])
  {
    assert Found(root, p, s.axis, s.typename) == [];
    ConditionsOfNothing(root, s.groups);
  }

  /** Every node of the tree is a ReconstructedNode, as in what `reconstruct_tree` builds. */
  ghost predicate EveryReconstructed(root: Node)
  {
    forall q :: ValidPath(root, q) ==> NodeAt(root, q).Reconstructed?
  }

  lemma {:induction false} LeftChainAnswers(root: Node, p: Path)
    requires ValidPath(root, p) && EveryReconstructed(root)
    ensures LeftChainOnParserTree(root, p) == Ok(LeftChain(root, p))
    decreases if p == [] then 0 else Last(p)
  {
    if HasLeftLink(root, p) {
      LeftChainAnswers(root, LeftOf(root, p));
    }
  }

  lemma {:induction false} RightChainAnswers(root: Node, p: Path)
    requires ValidPath(root, p) && EveryReconstructed(root)
    ensures RightChainOnParserTree(root, p) == Ok(RightChain(root, p))
    decreases if p == [] then 0 else |Kids(ParentAt(root, p))| - Last(p)
  {
    if HasRightLink(root, p) {
      RightChainAnswers(root, RightOf(root, p));
    }
  }

  /**
   * On a tree of ReconstructedNodes and without attribute tests, a step as
   * written finds what `Axes.StepSpec` finds.
   */
  lemma StepAgrees(root: Node, p: Path, s: Step)
    requires EveryReconstructed(root) && NoAttributeTests(s.groups)
    ensures StepOnParserTree(root, p, s) == StepSpec(root, p, s)
  {
    if ValidPath(root, p) {
      if s.axis == OnTheLeft {
        LeftChainAnswers(root, p);
      } else if s.axis == OnTheRight {
        RightChainAnswers(root, p);
      }
      assert FoundOnParserTree(root, p, s.axis, s.typename) == Ok(Found(root, p, s.axis, s.typename));
      ConditionsAgree(root, Found(root, p, s.axis, s.typename), s.groups);
    }
  }
}
