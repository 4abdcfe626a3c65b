/**
 * The conditions of the tree query language of tacparser/astactions.py:
 * the filters a selector step applies to the nodes its axis found (slices,
 * line/column limits, attribute tests), and `_apply_condition`, which runs
 * the bracket groups of a step in turn.
 *
 * Nodes are addressed by their path from the root of the tree the actions
 * are applied to (see module Trees).
 */
module Conditions {
  import opened Text
  import opened Nodes
  import opened Trees

  /** The line/column field a `@L`, `@C`, `@EL` or `@EC` limit reads. */
  datatype Field = StartLine | StartColumn | EndLine | EndColumn

  /** `GraterLimitation`, `LessLimitation`, `GraterEqualLimitation`, `LessEqualLimitation`, `EqualLimitation`. */
  datatype Cmp = Greater | Less | GreaterEqual | LessEqual | Equal

  /** The attribute tests, in the order the attribute builder tries them. */
  datatype AttrTest =
    | AttrEqual | AttrStartsWith | AttrEndsWith | AttrContains
    | AttrNotEqual | AttrNotStartsWith | AttrNotEndsWith | AttrNotContains
    | AttrSimple | AttrSimpleNot

  /** One bracketed condition: the closure `_get_Conditions` builds for it. */
  datatype Condition =
    | SliceAt(num: int)                                 // TypeA[3], TypeA[-1]
    | SliceRange(start: Option<int>, stop: Option<int>) // TypeA[1:3], TypeA[:-1]
    | LineColumn(field: Field, cmp: Cmp, bound: int)    // TypeA[@L > 10]
    | Attribute(test: AttrTest, name: string, value: string) // TypeA[foo ^= "bar"]

  /** The exceptions raised while building or running a selector. */
  datatype ActionError =
    | MissingAttribute(name: string)    // `None.startswith(..)` or `v in None` on an absent attribute
    | Unexpected(typename: string)      // ActionException: a node type the builder does not handle
    | Malformed                         // IndexError: a child or list entry that is not there
    | NotANumber(text: string)          // `int()` raised ValueError
    | NotAStringLiteral(text: string)   // `eval()` of text that is not a quoted string
    | NoAttributeValue                  // ActionException: a test without an AttributeValue
    | NotBuilt                          // ActionException: a Slice that is neither FromTo nor Number
    | NoSteps                           // `selector_funcs[0]` of an empty list
    | TextUnset                         // `get_str` raised
    | NoField(name: string)             // AttributeError: the node class has no such field or method

  // ---------------------------------------------------------------------------
  // Paths

  predicate AllValid(root: Node, ps: seq<Path>)
  {
    forall i :: 0 <= i < |ps| ==> ValidPath(root, ps[i])
  }

  /** The path one step up: where `parent` points. */
  function Up(p: Path): Path
    requires p != []
  {
    p[..|p| - 1]
  }

  function Last(p: Path): nat
    requires p != []
  {
    p[|p| - 1]
  }

  /** The sibling of `p` at index `k`. */
  function Sibling(p: Path, k: nat): (r: Path)
    requires p != []
    ensures r != [] && Up(r) == Up(p) && Last(r) == k && |r| == |p|
  {
    assert (Up(p) + [k])[..|p| - 1] == Up(p);
    Up(p) + [k]
  }

  /** A path extended: the node there is the one reached from the node at `p`. */
  lemma {:induction false} NodeAtConcat(root: Node, p: Path, q: Path)
    requires ValidPath(root, p)
    ensures ValidPath(root, p + q) == ValidPath(NodeAt(root, p), q)
    ensures ValidPath(root, p + q) ==> NodeAt(root, p + q) == NodeAt(NodeAt(root, p), q)
    decreases p
  {
    if p != [] {
      assert (p + q)[0] == p[0] && (p + q)[1..] == p[1..] + q;
      NodeAtConcat(Kids(root)[p[0]], p[1..], q);
    } else {
      assert p + q == q;
    }
  }

  /** The child at index `k` of the node at `p`. */
  lemma ChildPath(root: Node, p: Path, k: nat)
    requires ValidPath(root, p) && k < |Kids(NodeAt(root, p))|
    ensures ValidPath(root, p + [k]) && NodeAt(root, p + [k]) == Kids(NodeAt(root, p))[k]
  {
    NodeAtConcat(root, p, [k]);
    assert [k][1..] == [];
  }

  /** Every prefix of a path in the tree is in the tree. */
  lemma PrefixPath(root: Node, p: Path, k: nat)
    requires ValidPath(root, p) && k <= |p|
    ensures ValidPath(root, p[..k])
  {
    assert p == p[..k] + p[k..];
    if !ValidPath(root, p[..k]) {
      PrefixInvalid(root, p[..k], p[k..]);
    }
  }

  lemma {:induction false} PrefixInvalid(root: Node, p: Path, q: Path)
    requires !ValidPath(root, p)
    ensures !ValidPath(root, p + q)
    decreases p
  {
    assert p != [];
    assert (p + q)[0] == p[0] && (p + q)[1..] == p[1..] + q;
    if p[0] < |Kids(root)| {
      PrefixInvalid(Kids(root)[p[0]], p[1..], q);
    }
  }

  /** The sibling at index `k` of a node below the root is in the tree. */
  lemma SiblingPath(root: Node, p: Path, k: nat)
    requires ValidPath(root, p) && p != [] && k < |Kids(ParentAt(root, p))|
    ensures ValidPath(root, Sibling(p, k)) && NodeAt(root, Sibling(p, k)) == Kids(ParentAt(root, p))[k]
  {
    PrefixPath(root, p, |p| - 1);
    ChildPath(root, Up(p), k);
  }

  /** The nodes at the paths, in order. */
  function NodesAt(root: Node, ps: seq<Path>): (r: seq<Node>)
    requires AllValid(root, ps)
    ensures |r| == |ps| && forall i :: 0 <= i < |ps| ==> r[i] == NodeAt(root, ps[i])
  {
    if ps == [] then [] else [NodeAt(root, ps[0])] + NodesAt(root, ps[1..])
  }

  /** Whether the node at `q` is in the tree and has the type. */
  predicate HasType(root: Node, q: Path, t: string)
  {
    ValidPath(root, q) && Type(NodeAt(root, q)) == t
  }

  /** The paths whose node has the type, in order: the `if _x.type == type_name` tests of the axes. */
  function FilterTypePaths(root: Node, ps: seq<Path>, t: string): (r: seq<Path>)
    ensures |r| <= |ps|
    ensures forall i :: 0 <= i < |r| ==> HasType(root, r[i], t)
  {
    if ps == [] then []
    else (if HasType(root, ps[0], t) then [ps[0]] else []) + FilterTypePaths(root, ps[1..], t)
  }

  /** The type filter keeps exactly the paths whose node has the type. */
  lemma {:induction false} FilterTypePathsKeeps(root: Node, ps: seq<Path>, t: string)
    requires AllValid(root, ps)
    ensures AllValid(root, FilterTypePaths(root, ps, t))
    ensures forall q :: q in FilterTypePaths(root, ps, t) <==> q in ps && Type(NodeAt(root, q)) == t
  {
    if ps != [] {
      assert AllValid(root, ps[1..]) by {
        forall i | 0 <= i < |ps[1..]| ensures ValidPath(root, ps[1..][i]) { assert ps[1..][i] == ps[i + 1]; }
      }
      FilterTypePathsKeeps(root, ps[1..], t);
      assert forall q :: q in ps <==> q == ps[0] || q in ps[1..];
    }
  }

  /** Filtering paths by type picks the same nodes as filtering the nodes by type. */
  lemma {:induction false} FilterTypePathsNodes(root: Node, ps: seq<Path>, t: string)
    requires AllValid(root, ps)
    ensures NodesAt(root, FilterTypePaths(root, ps, t)) == FilterType(NodesAt(root, ps), t)
  {
    if ps != [] {
      FilterTypePathsNodes(root, ps[1..], t);
      var head := if HasType(root, ps[0], t) then [ps[0]] else [];
      NodesAtAppend(root, head, FilterTypePaths(root, ps[1..], t));
      assert NodesAt(root, ps)[1..] == NodesAt(root, ps[1..]);
    }
  }

  lemma AllValidAppend(root: Node, a: seq<Path>, b: seq<Path>)
    requires AllValid(root, a) && AllValid(root, b)
    ensures AllValid(root, a + b)
  {
    forall i | 0 <= i < |a + b| ensures ValidPath(root, (a + b)[i]) {
      if i >= |a| { assert (a + b)[i] == b[i - |a|]; }
    }
  }

  lemma NodesAtAppend(root: Node, a: seq<Path>, b: seq<Path>)
    requires AllValid(root, a) && AllValid(root, b)
    ensures AllValid(root, a + b) && NodesAt(root, a + b) == NodesAt(root, a) + NodesAt(root, b)
  {
    AllValidAppend(root, a, b);
    var l := NodesAt(root, a + b);
    var m := NodesAt(root, a) + NodesAt(root, b);
    forall i | 0 <= i < |l| ensures l[i] == m[i] {
      if i >= |a| { assert (a + b)[i] == b[i - |a|]; } else { assert (a + b)[i] == a[i]; }
    }
  }

  // ---------------------------------------------------------------------------
  // Conditions

  /** `n.linenum`, `n.column`, `n.end_linenum` or `n.end_column`. */
  function FieldOf(n: Node, f: Field): int
  {
    match f
    case StartLine => n.span.linenum
    case StartColumn => n.span.column
    case EndLine => n.span.endLinenum
    case EndColumn => n.span.endColumn
  }

  predicate Compares(x: int, c: Cmp, bound: int)
  {
    match c
    case Greater => x > bound
    case Less => x < bound
    case GreaterEqual => x >= bound
    case LessEqual => x <= bound
    case Equal => x == bound
  }

  /** `slice_num`: the entry at a Python index, or nothing when the index is out of range. */
  function SliceNum(k: int, ps: seq<Path>): (r: seq<Path>)
  {
    if (k >= 0 && k < |ps|) || (k < 0 && -k <= |ps|) then [ps[if k >= 0 then k else |ps| + k]] else []
  }

  /**
   * An index condition picks what the one-entry slice starting there
   * picks: `L[k:k+1]`, and `L[-1:]` for the last entry.
   */
  lemma SliceNumIsSlice(k: int, ps: seq<Path>)
    ensures k != -1 ==> SliceNum(k, ps) == PySlice(ps, Some(k), Some(k + 1))
    ensures k == -1 ==> SliceNum(k, ps) == PySlice(ps, Some(-1), None)
    ensures |SliceNum(k, ps)| <= 1
  {
    if k >= 0 && k < |ps| {
      assert ps[k..k + 1] == [ps[k]];
    } else if k < -1 && -k <= |ps| {
      assert ps[|ps| + k..|ps| + k + 1] == [ps[|ps| + k]];
    } else if k == -1 && |ps| > 0 {
      assert ps[|ps| - 1..|ps|] == [ps[|ps| - 1]];
    }
  }

  /** Whether the node at `q` is in the tree and passes the limit. */
  predicate InLimit(root: Node, q: Path, f: Field, c: Cmp, bound: int)
  {
    ValidPath(root, q) && Compares(FieldOf(NodeAt(root, q), f), c, bound)
  }

  /** The `filter` of a line/column limit. */
  function LineColumnFilter(root: Node, ps: seq<Path>, f: Field, c: Cmp, bound: int): (r: seq<Path>)
    ensures |r| <= |ps|
    ensures forall i :: 0 <= i < |r| ==> InLimit(root, r[i], f, c, bound)
  {
    if ps == [] then []
    else
      (if InLimit(root, ps[0], f, c, bound) then [ps[0]] else [])
      + LineColumnFilter(root, ps[1..], f, c, bound)
  }

  /** A line/column limit keeps exactly the nodes whose field compares as the limit says. */
  lemma {:induction false} LineColumnFilterKeeps(root: Node, ps: seq<Path>, f: Field, c: Cmp, bound: int)
    requires AllValid(root, ps)
    ensures AllValid(root, LineColumnFilter(root, ps, f, c, bound))
    ensures forall q :: q in LineColumnFilter(root, ps, f, c, bound) <==> q in ps && Compares(FieldOf(NodeAt(root, q), f), c, bound)
  {
    if ps != [] {
      assert AllValid(root, ps[1..]) by {
        forall i | 0 <= i < |ps[1..]| ensures ValidPath(root, ps[1..][i]) { assert ps[1..][i] == ps[i + 1]; }
      }
      LineColumnFilterKeeps(root, ps[1..], f, c, bound);
      assert forall q :: q in ps <==> q == ps[0] || q in ps[1..];
    }
  }

  /** A line/column limit keeps the order: filtering a concatenation filters each part. */
  lemma {:induction false} LineColumnFilterAppend(root: Node, a: seq<Path>, b: seq<Path>, f: Field, c: Cmp, bound: int)
    ensures LineColumnFilter(root, a + b, f, c, bound) == LineColumnFilter(root, a, f, c, bound) + LineColumnFilter(root, b, f, c, bound)
  {
    if a == [] {
      assert a + b == b;
    } else {
      var h := if InLimit(root, a[0], f, c, bound) then [a[0]] else [];
      assert (a + b)[0] == a[0] && (a + b)[1..] == a[1..] + b;
      assert LineColumnFilter(root, a + b, f, c, bound) == h + LineColumnFilter(root, a[1..] + b, f, c, bound);
      LineColumnFilterAppend(root, a[1..], b, f, c, bound);
      assert h + (LineColumnFilter(root, a[1..], f, c, bound) + LineColumnFilter(root, b, f, c, bound))
          == (h + LineColumnFilter(root, a[1..], f, c, bound)) + LineColumnFilter(root, b, f, c, bound);
    }
  }

  /** The tests that call a string method on the attribute, or `in` on it, and so raise on an absent one. */
  predicate NeedsValue(test: AttrTest)
  {
    test in {AttrStartsWith, AttrEndsWith, AttrContains, AttrNotStartsWith, AttrNotEndsWith, AttrNotContains}
  }

  predicate Raises(test: AttrTest, v: Option<string>)
  {
    NeedsValue(test) && v.None?
  }

  /** Whether a node whose attribute is `v` passes the test. */
  predicate AttrMatch(test: AttrTest, v: Option<string>, value: string)
    requires !Raises(test, v)
  {
    match test
    case AttrEqual => v == Some(value)
    case AttrStartsWith => StartsWith(v.value, value)
    case AttrEndsWith => EndsWith(v.value, value)
    case AttrContains => Contains(v.value, value)
    case AttrNotEqual => v != Some(value)
    case AttrNotStartsWith => !StartsWith(v.value, value)
    case AttrNotEndsWith => !EndsWith(v.value, value)
    case AttrNotContains => !Contains(v.value, value)
    case AttrSimple => v.Some?
    case AttrSimpleNot => v.None?
  }

  /** The `filter` of an attribute test; it raises at the first node the test cannot be applied to. */
  function AttributeFilter(root: Node, ps: seq<Path>, test: AttrTest, name: string, value: string): (r: Result<seq<Path>, ActionError>)
    requires AllValid(root, ps)
    ensures r.Err? <==> exists i :: 0 <= i < |ps| && Raises(test, GetAttr(NodeAt(root, ps[i]), name))
    ensures r.Err? ==> r.error == MissingAttribute(name)
    ensures r.Ok? ==> AllValid(root, r.value)
    ensures r.Ok? ==> forall q :: q in r.value <==> q in ps && AttrMatch(test, GetAttr(NodeAt(root, q), name), value)
  {
    if ps == [] then Ok([])
    else
      var v := GetAttr(NodeAt(root, ps[0]), name);
      if Raises(test, v) then Err(MissingAttribute(name))
      else
        match AttributeFilter(root, ps[1..], test, name, value)
        case Err(e) =>
          assert exists i :: 0 <= i < |ps[1..]| && Raises(test, GetAttr(NodeAt(root, ps[1..][i]), name));
          Err(e)
        case Ok(rest) =>
          assert forall i :: 0 < i < |ps| ==> ps[i] == ps[1..][i - 1];
          Ok((if AttrMatch(test, v, value) then [ps[0]] else []) + rest)
  }

  /** The negated test of each positive one. */
  function Negation(test: AttrTest): AttrTest
  {
    match test
    case AttrEqual => AttrNotEqual
    case AttrStartsWith => AttrNotStartsWith
    case AttrEndsWith => AttrNotEndsWith
    case AttrContains => AttrNotContains
    case AttrSimple => AttrSimpleNot
    case _ => test
  }

  /**
   * A test and its negation split the nodes between them: they raise on
   * the same lists, and otherwise each node passes exactly one of them.
   */
  lemma NegationSplits(root: Node, ps: seq<Path>, test: AttrTest, name: string, value: string)
    requires AllValid(root, ps) && test in {AttrEqual, AttrStartsWith, AttrEndsWith, AttrContains, AttrSimple}
    ensures var pos := AttributeFilter(root, ps, test, name, value);
      var neg := AttributeFilter(root, ps, Negation(test), name, value);
      pos.Ok? == neg.Ok?
      && (pos.Ok? ==> forall q :: q in ps ==> (q in pos.value <==> q !in neg.value))
  {
    assert forall v :: Raises(test, v) == Raises(Negation(test), v);
    assert forall v :: !Raises(test, v) ==> AttrMatch(Negation(test), v, value) == !AttrMatch(test, v, value);
  }

  /** One condition applied to the list it is given. */
  function ApplyOne(root: Node, ps: seq<Path>, c: Condition): (r: Result<seq<Path>, ActionError>)
    requires AllValid(root, ps)
    ensures r.Ok? ==> AllValid(root, r.value)
  {
    match c
    case SliceAt(k) => Ok(SliceNum(k, ps))
    case SliceRange(s, e) => Ok(PySlice(ps, s, e))
    case LineColumn(f, cmp, b) => Ok(LineColumnFilter(root, ps, f, cmp, b))
    case Attribute(test, name, value) => AttributeFilter(root, ps, test, name, value)
  }

  /** The alternatives of one `[..|..]` group, each applied to the same list, their outputs concatenated. */
  function GroupSpec(root: Node, ps: seq<Path>, g: seq<Condition>): (r: Result<seq<Path>, ActionError>)
    requires AllValid(root, ps)
    ensures r.Ok? ==> AllValid(root, r.value)
    decreases |g|
  {
    if g == [] then Ok([])
    else
      match GroupSpec(root, ps, g[..|g| - 1])
      case Err(e) => Err(e)
      case Ok(acc) =>
        match ApplyOne(root, ps, g[|g| - 1])
        case Err(e) => Err(e)
        case Ok(more) =>
          AllValidAppend(root, acc, more);
          Ok(acc + more)
  }

  /** The groups applied left to right, each to the previous group's output. */
  function ConditionsSpec(root: Node, ps: seq<Path>, groups: seq<seq<Condition>>): (r: Result<seq<Path>, ActionError>)
    requires AllValid(root, ps)
    ensures r.Ok? ==> AllValid(root, r.value)
    decreases |groups|
  {
    if groups == [] then Ok(ps)
    else
      match ConditionsSpec(root, ps, groups[..|groups| - 1])
      case Err(e) => Err(e)
      case Ok(cur) => GroupSpec(root, cur, groups[|groups| - 1])
  }

  lemma {:induction false} GroupSticky(root: Node, ps: seq<Path>, g: seq<Condition>, k: nat)
    requires AllValid(root, ps) && k <= |g| && GroupSpec(root, ps, g[..k]).Err?
    ensures GroupSpec(root, ps, g) == GroupSpec(root, ps, g[..k])
    decreases |g| - k
  {
    if k < |g| {
      var g' := g[..|g| - 1];
      assert g'[..k] == g[..k];
      GroupSticky(root, ps, g', k);
    } else {
      assert g[..k] == g;
    }
  }

  lemma {:induction false} ConditionsSticky(root: Node, ps: seq<Path>, groups: seq<seq<Condition>>, k: nat)
    requires AllValid(root, ps) && k <= |groups| && ConditionsSpec(root, ps, groups[..k]).Err?
    ensures ConditionsSpec(root, ps, groups) == ConditionsSpec(root, ps, groups[..k])
    decreases |groups| - k
  {
    if k < |groups| {
      var gs := groups[..|groups| - 1];
      assert gs[..k] == groups[..k];
      ConditionsSticky(root, ps, gs, k);
    } else {
      assert groups[..k] == groups;
    }
  }

  /** One group of `_apply_condition`: the alternatives in order, their outputs concatenated. */
  method ApplyGroup(root: Node, ps: seq<Path>, g: seq<Condition>) returns (r: Result<seq<Path>, ActionError>)
    requires AllValid(root, ps)
    ensures r == GroupSpec(root, ps, g)
  {
    var ret := [];
    var j := 0;
    while j < |g|
      invariant 0 <= j <= |g| && GroupSpec(root, ps, g[..j]) == Ok(ret)
    {
      assert g[..j + 1][..j] == g[..j];
      var out := ApplyOne(root, ps, g[j]);
      if out.Err? {
        GroupSticky(root, ps, g, j + 1);
        return out;
      }
      ret := ret + out.value;
      j := j + 1;
    }
    assert g[..j] == g;
    r := Ok(ret);
  }

  /** `_apply_condition`: the groups in order, each applied to the previous group's output. */
  method ApplyCondition(root: Node, ps: seq<Path>, groups: seq<seq<Condition>>) returns (r: Result<seq<Path>, ActionError>)
    requires AllValid(root, ps)
    ensures r == ConditionsSpec(root, ps, groups)
  {
    var param := ps;
    var i := 0;
    while i < |groups|
      invariant 0 <= i <= |groups| && AllValid(root, param)
      invariant ConditionsSpec(root, ps, groups[..i]) == Ok(param)
    {
      assert groups[..i + 1][..i] == groups[..i];
      var out := ApplyGroup(root, param, groups[i]);
      if out.Err? {
        ConditionsSticky(root, ps, groups, i + 1);
        return out;
      }
      param := out.value;
      i := i + 1;
    }
    assert groups[..i] == groups;
    r := Ok(param);
  }

  /** Groups compose: applying two lists of groups in turn is applying their concatenation. */
  lemma {:induction false} ConditionsCompose(root: Node, ps: seq<Path>, gs1: seq<seq<Condition>>, gs2: seq<seq<Condition>>)
    requires AllValid(root, ps)
    ensures ConditionsSpec(root, ps, gs1 + gs2) ==
      match ConditionsSpec(root, ps, gs1)
      case Err(e) => Err(e)
      case Ok(mid) => ConditionsSpec(root, mid, gs2)
    decreases |gs2|
  {
    if gs2 == [] {
      assert gs1 + gs2 == gs1;
    } else {
      var all := gs1 + gs2;
      assert all[..|all| - 1] == gs1 + gs2[..|gs2| - 1];
      assert all[|all| - 1] == gs2[|gs2| - 1];
      ConditionsCompose(root, ps, gs1, gs2[..|gs2| - 1]);
    }
  }

  /**
   * The de-duplication in `_apply_condition` is discarded: a group that
   * names the same condition twice lists its nodes twice.
   */
  lemma GroupKeepsDuplicates(root: Node, ps: seq<Path>, c: Condition)
    requires AllValid(root, ps) && ApplyOne(root, ps, c).Ok?
    ensures GroupSpec(root, ps, [c, c]) == Ok(ApplyOne(root, ps, c).value + ApplyOne(root, ps, c).value)
  {
    var v := ApplyOne(root, ps, c).value;
    assert [c, c][..1] == [c] && [c][..0] == [];
    assert GroupSpec(root, ps, []) == Ok([]);
    assert [] + v == v;
    assert GroupSpec(root, ps, [c]) == Ok(v);
  }
}
