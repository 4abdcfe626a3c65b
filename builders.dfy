/**
 * The builders of tacparser/astactions.py that turn the syntax tree of a
 * selector (as tacparser/actionsparser.py produces it) into the steps and
 * conditions the selection runs: `_get_selector_func`, the axis builders
 * `_get_OnTheLeft` … `_get_Parent` and `_get_Conditions` with its slice,
 * line/column and attribute builders.
 *
 * Where the source builds a closure, the model builds the `Step` or
 * `Condition` value that module Axes and module Conditions interpret.
 * Each builder fails where the source raises, with the first error the
 * source would meet.
 *
 * The partner of the builders is the rendering of a step or condition as
 * the tree the grammar gives for it: building the rendered tree gives the
 * value back.
 */
module Builders {
  import opened Text
  import opened Nodes
  import opened Conditions
  import opened Axes

  // ---------------------------------------------------------------------------
  // Reading the syntax tree

  /** `n.children[k]`; an IndexError when there is no such child. */
  function Child(n: Node, k: nat): Result<Node, ActionError>
  {
    if k < |Kids(n)| then Ok(Kids(n)[k]) else Err(Malformed)
  }

  /** `n.get_childnode(t)`; on a terminal the base class answers None and the caller fails. */
  function ChildrenOf(n: Node, t: string): Result<seq<Node>, ActionError>
  {
    match GetChildNode(n, t)
    case None => Err(Malformed)
    case Some(ns) => Ok(ns)
  }

  /** `ns[0]`. */
  function First(ns: seq<Node>): Result<Node, ActionError>
  {
    if ns == [] then Err(Malformed) else Ok(ns[0])
  }

  /** `n.get_str()`. */
  function TextOf(n: Node): Result<string, ActionError>
  {
    match GetStr(n, map[])
    case Err(_) => Err(TextUnset)
    case Ok(s) => Ok(s)
  }

  /** `int(s)`. */
  function Number(s: string): Result<int, ActionError>
  {
    match ParseInt(s)
    case None => Err(NotANumber(s))
    case Some(k) => Ok(k)
  }

  /**
   * A loop over `xs` that builds one value from each element and raises at
   * the first element it cannot build.  `evaluate` is passed on to every
   * builder: it says whether attribute values go through `eval`.
   */
  function BuildAll<X, Y>(f: (X, bool) -> Result<Y, ActionError>, evaluate: bool, xs: seq<X>): (r: Result<seq<Y>, ActionError>)
    ensures r.Ok? ==> |r.value| == |xs| && forall i :: 0 <= i < |xs| ==> f(xs[i], evaluate) == Ok(r.value[i])
    ensures r.Err? ==> exists i :: 0 <= i < |xs| && f(xs[i], evaluate) == Err(r.error)
  {
    if xs == [] then Ok([])
    else
      var ys :- BuildAll(f, evaluate, xs[..|xs| - 1]);
      var y :- f(xs[|xs| - 1], evaluate);
      Ok(ys + [y])
  }

  /** When every element builds, the loop returns what each one built, in order. */
  lemma {:induction false} BuildAllOk<X, Y>(f: (X, bool) -> Result<Y, ActionError>, evaluate: bool, xs: seq<X>, ys: seq<Y>)
    requires |ys| == |xs|
    requires forall i :: 0 <= i < |xs| ==> f(xs[i], evaluate) == Ok(ys[i])
    ensures BuildAll(f, evaluate, xs) == Ok(ys)
    decreases |xs|
  {
    if xs != [] {
      var n := |xs| - 1;
      BuildAllOk(f, evaluate, xs[..n], ys[..n]);
      assert ys[..n] + [ys[n]] == ys;
    }
  }

  /** Once a prefix of the loop raises, the whole loop raises the same error. */
  lemma {:induction false} BuildAllSticky<X, Y>(f: (X, bool) -> Result<Y, ActionError>, evaluate: bool, xs: seq<X>, k: nat)
    requires k <= |xs| && BuildAll(f, evaluate, xs[..k]).Err?
    ensures BuildAll(f, evaluate, xs) == BuildAll(f, evaluate, xs[..k])
    decreases |xs| - k
  {
    if k < |xs| {
      assert xs[..k + 1][..k] == xs[..k];
      BuildAllSticky(f, evaluate, xs, k + 1);
    } else {
      assert xs[..k] == xs;
    }
  }

  /** One more turn of the loop: the next element either raises, or adds what it built. */
  lemma BuildAllNext<X, Y>(f: (X, bool) -> Result<Y, ActionError>, evaluate: bool, xs: seq<X>, i: nat, ys: seq<Y>)
    requires i < |xs| && BuildAll(f, evaluate, xs[..i]) == Ok(ys)
    ensures f(xs[i], evaluate).Err? ==> BuildAll(f, evaluate, xs) == Err(f(xs[i], evaluate).error)
    ensures f(xs[i], evaluate).Ok? ==> BuildAll(f, evaluate, xs[..i + 1]) == Ok(ys + [f(xs[i], evaluate).value])
  {
    assert xs[..i + 1][..i] == xs[..i];
    if f(xs[i], evaluate).Err? {
      BuildAllSticky(f, evaluate, xs, i + 1);
    }
  }

  // ---------------------------------------------------------------------------
  // Node type names

  /** The node type of each axis in the Selector rule. */
  function AxisName(a: Axis): string
  {
    match a
    case OnTheLeft => "OnTheLeft"
    case OnTheRight => "OnTheRight"
    case ForwardTo => "ForwardTo"
    case NextTo => "NextTo"
    case Descendants => "Descendants"
    case Children => "Children"
    case Ancestor => "Ancestor"
    case Parent => "Parent"
  }

  /** The dispatch of `_get_selector_func` on a step's node type. */
  function AxisOf(t: string): (r: Option<Axis>)
    ensures r.Some? ==> AxisName(r.value) == t
    ensures r.None? ==> forall a: Axis :: AxisName(a) != t
  {
    if t == "OnTheRight" then Some(OnTheRight)
    else if t == "OnTheLeft" then Some(OnTheLeft)
    else if t == "ForwardTo" then Some(ForwardTo)
    else if t == "NextTo" then Some(NextTo)
    else if t == "Descendants" then Some(Descendants)
    else if t == "Children" then Some(Children)
    else if t == "Ancestor" then Some(Ancestor)
    else if t == "Parent" then Some(Parent)
    else None
  }

  function FieldName(f: Field): string
  {
    match f
    case StartLine => "StartLine"
    case StartColumn => "StartColumn"
    case EndLine => "EndLine"
    case EndColumn => "EndColumn"
  }

  /** The field a LineOrColumn's child selects. */
  function FieldOfName(t: string): (r: Option<Field>)
    ensures r.Some? ==> FieldName(r.value) == t
    ensures r.None? ==> forall f: Field :: FieldName(f) != t
  {
    if t == "StartLine" then Some(StartLine)
    else if t == "StartColumn" then Some(StartColumn)
    else if t == "EndLine" then Some(EndLine)
    else if t == "EndColumn" then Some(EndColumn)
    else None
  }

  /** The limitation rules, with the grammar's own spelling. */
  function CmpName(c: Cmp): string
  {
    match c
    case Greater => "GraterLimitation"
    case Less => "LessLimitation"
    case GreaterEqual => "GraterEqualLimitation"
    case LessEqual => "LessEqualLimitation"
    case Equal => "EqualLimitation"
  }

  function CmpOfName(t: string): (r: Option<Cmp>)
    ensures r.Some? ==> CmpName(r.value) == t
    ensures r.None? ==> forall c: Cmp :: CmpName(c) != t
  {
    if t == "GraterLimitation" then Some(Greater)
    else if t == "LessLimitation" then Some(Less)
    else if t == "GraterEqualLimitation" then Some(GreaterEqual)
    else if t == "LessEqualLimitation" then Some(LessEqual)
    else if t == "EqualLimitation" then Some(Equal)
    else None
  }

  /**
   * The attribute rules, with the grammar's own spelling (`AttibuteEndsWith`,
   * `AttributeNotEaual`).  `AttributeSimpleNot` is handled by the builder
   * though no rule produces it.
   */
  function TestName(t: AttrTest): string
  {
    match t
    case AttrEqual => "AttributeEqual"
    case AttrStartsWith => "AttributeStartsWith"
    case AttrEndsWith => "AttibuteEndsWith"
    case AttrContains => "AttributeContains"
    case AttrNotEqual => "AttributeNotEaual"
    case AttrNotStartsWith => "AttributeNotStartsWith"
    case AttrNotEndsWith => "AttributeNotEndsWith"
    case AttrNotContains => "AttributeNotContains"
    case AttrSimple => "AttributeSimple"
    case AttrSimpleNot => "AttributeSimpleNot"
  }

  function TestOfName(t: string): (r: Option<AttrTest>)
    ensures r.Some? ==> TestName(r.value) == t
    ensures r.None? ==> forall a: AttrTest :: TestName(a) != t
  {
    if t == "AttributeEqual" then Some(AttrEqual)
    else if t == "AttributeStartsWith" then Some(AttrStartsWith)
    else if t == "AttibuteEndsWith" then Some(AttrEndsWith)
    else if t == "AttributeContains" then Some(AttrContains)
    else if t == "AttributeNotEaual" then Some(AttrNotEqual)
    else if t == "AttributeNotStartsWith" then Some(AttrNotStartsWith)
    else if t == "AttributeNotEndsWith" then Some(AttrNotEndsWith)
    else if t == "AttributeNotContains" then Some(AttrNotContains)
    else if t == "AttributeSimple" then Some(AttrSimple)
    else if t == "AttributeSimpleNot" then Some(AttrSimpleNot)
    else None
  }

  /** The two tests that take no value. */
  predicate Valueless(t: AttrTest)
  {
    t == AttrSimple || t == AttrSimpleNot
  }

  // ---------------------------------------------------------------------------
  // Python's eval on the text of an attribute value

  predicate IsQuote(c: char) { c == '\'' || c == '"' }

  /** Text with neither the quote `q` nor a backslash: a string literal body without escapes. */
  predicate PlainBody(v: string, q: char)
  {
    forall i :: 0 <= i < |v| ==> v[i] != q && v[i] != '\\'
  }

  /**
   * `eval(s)` for a Python string literal written without escapes: the text
   * between its quotes.  Any other text is an error here, which is what
   * Python gives for a name `eval` does not find (see UnboundName).
   */
  function EvalLiteral(s: string): (r: Result<string, ActionError>)
    ensures r.Ok? ==> |s| >= 2 && IsQuote(s[0]) && s == [s[0]] + r.value + [s[0]] && PlainBody(r.value, s[0])
    ensures r.Err? ==> r.error == NotAStringLiteral(s)
  {
    if |s| >= 2 && IsQuote(s[0]) && s[|s| - 1] == s[0] && PlainBody(s[1..|s| - 1], s[0]) then
      Ok(s[1..|s| - 1])
    else
      Err(NotAStringLiteral(s))
  }

  /** A string literal evaluates to its body. */
  lemma EvalQuoted(v: string, q: char)
    requires IsQuote(q) && PlainBody(v, q)
    ensures EvalLiteral([q] + v + [q]) == Ok(v)
  {
    var s := [q] + v + [q];
    assert s[1..|s| - 1] == v;
  }

  // ---------------------------------------------------------------------------
  // The condition builders of `_get_Conditions`

  /** A `StartNumber` or `EndNumber` bound: empty text is None. */
  function BoundOf(text: string): Result<Option<int>, ActionError>
  {
    if text == "" then Ok(None)
    else
      var k :- Number(text);
      Ok(Some(k))
  }

  /** The text of the first node of type `t` below a FromTo node. */
  function SearchedText(n: Node, t: string): Result<string, ActionError>
  {
    match SearchNode(n, t, false)
    case None => Err(Malformed)
    case Some(ns) =>
      var m :- First(ns);
      TextOf(m)
  }

  /** `_get_Slice_Condition`: FromTo reads both texts before converting either. */
  function SliceCondition(slice: Node): (r: Result<Condition, ActionError>)
    ensures r.Ok? ==>
      |Kids(slice)| > 0
      && (r.value.SliceRange? <==> Type(Kids(slice)[0]) == "FromTo")
      && (r.value.SliceAt? <==> Type(Kids(slice)[0]) == "Number")
    ensures |Kids(slice)| > 0 && Type(Kids(slice)[0]) != "FromTo" && Type(Kids(slice)[0]) != "Number" ==> r == Err(NotBuilt)
  {
    var kind :- Child(slice, 0);
    if Type(kind) == "FromTo" then
      var lo :- SearchedText(kind, "StartNumber");
      var hi :- SearchedText(kind, "EndNumber");
      var start :- BoundOf(lo);
      var stop :- BoundOf(hi);
      Ok(SliceRange(start, stop))
    else if Type(kind) == "Number" then
      var text :- TextOf(kind);
      var k :- Number(text);
      Ok(SliceAt(k))
    else
      Err(NotBuilt)
  }

  /**
   * `_get_LineColumnLimitation`: the field node and the number are read,
   * the number converted, then the field and the comparison dispatched.
   */
  function LineColumnCondition(lc: Node): (r: Result<Condition, ActionError>)
    ensures r.Ok? ==>
      r.value.LineColumn? && |Kids(lc)| > 0 && CmpName(r.value.cmp) == Type(Kids(lc)[0])
      && |Kids(Kids(lc)[0])| > 1 && TextOf(Kids(Kids(lc)[0])[1]).Ok?
      && ParseInt(TextOf(Kids(Kids(lc)[0])[1]).value) == Some(r.value.bound)
  {
    var lim :- Child(lc, 0);
    var loc :- Child(lim, 0);
    var fnode :- Child(loc, 0);
    var numnode :- Child(lim, 1);
    var text :- TextOf(numnode);
    var bound :- Number(text);
    var field :- match FieldOfName(Type(fnode))
                 case None => Err(Unexpected(Type(fnode)))
                 case Some(f) => Ok(f);
    var cmp :- match CmpOfName(Type(lim))
               case None => Err(Unexpected(Type(lim)))
               case Some(c) => Ok(c);
    Ok(LineColumn(field, cmp, bound))
  }

  /**
   * `_get_AttributeLimitation`.  With `evaluate` the value is the source's
   * `eval()` of the AttributeValue text; without it, that text itself.
   */
  function AttributeCondition(al: Node, evaluate: bool): (r: Result<Condition, ActionError>)
    ensures r.Ok? ==>
      r.value.Attribute? && |Kids(al)| > 0 && TestName(r.value.test) == Type(Kids(al)[0])
      && (Valueless(r.value.test) ==> r.value.value == "")
  {
    var m :- Child(al, 0);
    var names :- ChildrenOf(m, "AttributeName");
    var nameNode :- First(names);
    var name :- TextOf(nameNode);
    var value :- if Type(m) == "AttributeSimple" || Type(m) == "AttributeSimpleNot" then Ok("")
                 else
                   var vs :- ChildrenOf(m, "AttributeValue");
                   if vs == [] then Err(NoAttributeValue)
                   else
                     var text :- TextOf(vs[0]);
                     if evaluate then EvalLiteral(text) else Ok(text);
    var test :- match TestOfName(Type(m))
                case None => Err(Unexpected(Type(m)))
                case Some(t) => Ok(t);
    Ok(Attribute(test, name, value))
  }

  /** The attribute builder as the source writes it: `eval` of the text between the quotes. */
  function AttributeConditionAsWritten(al: Node): Result<Condition, ActionError>
  {
    AttributeCondition(al, true)
  }

  /** The attribute builder the rest of the model uses: the value is the literal's body. */
  function AttributeConditionFixed(al: Node): Result<Condition, ActionError>
  {
    AttributeCondition(al, false)
  }

  /** One SingleCondition: the dispatch on its child's type. */
  function SingleCondition(sc: Node, evaluate: bool): Result<Condition, ActionError>
  {
    var c :- Child(sc, 0);
    if Type(c) == "Slice" then SliceCondition(c)
    else if Type(c) == "LineColumnLimitation" then LineColumnCondition(c)
    else if Type(c) == "AttributeLimitation" then AttributeCondition(c, evaluate)
    else Err(Unexpected(Type(c)))
  }

  /** One bracket group: its SingleConditions in order. */
  function GroupOf(oc: Node, evaluate: bool): Result<seq<Condition>, ActionError>
  {
    var scs :- ChildrenOf(oc, "SingleCondition");
    BuildAll(SingleCondition, evaluate, scs)
  }

  /** `_get_Conditions`: the Identifier's text and the groups. */
  function ConditionsOf(cn: Node, evaluate: bool): (r: Result<(string, seq<seq<Condition>>), ActionError>)
    ensures r.Ok? ==>
      ChildrenOf(cn, "Identifier").Ok? && ChildrenOf(cn, "Identifier").value != []
      && TextOf(ChildrenOf(cn, "Identifier").value[0]) == Ok(r.value.0)
      && ChildrenOf(cn, "OrCondition").Ok?
      && var ocs := ChildrenOf(cn, "OrCondition").value;
         |r.value.1| == |ocs| && forall i :: 0 <= i < |ocs| ==> GroupOf(ocs[i], evaluate) == Ok(r.value.1[i])
  {
    var ids :- ChildrenOf(cn, "Identifier");
    var id :- First(ids);
    var typename :- TextOf(id);
    var ocs :- ChildrenOf(cn, "OrCondition");
    var groups :- BuildAll(GroupOf, evaluate, ocs);
    Ok((typename, groups))
  }

  /** One step of a selector: the axis builder `_get_X` called on the step's Conditions child. */
  function StepOf(n: Node, evaluate: bool): (r: Result<Step, ActionError>)
    ensures AxisOf(Type(n)).None? ==> r == Err(Unexpected(Type(n)))
    ensures r.Ok? ==> AxisName(r.value.axis) == Type(n)
  {
    var axis :- match AxisOf(Type(n))
                case None => Err(Unexpected(Type(n)))
                case Some(a) => Ok(a);
    var cn :- Child(n, 0);
    var tc :- ConditionsOf(cn, evaluate);
    Ok(Step(axis, tc.0, tc.1))
  }

  /** `_get_selector_func`: a step for each child of the Selector node. */
  function SelectorOf(sel: Node, evaluate: bool): Result<seq<Step>, ActionError>
  {
    if IsNonTerminal(sel) then BuildAll(StepOf, evaluate, Kids(sel)) else Err(Malformed)
  }

  // ---------------------------------------------------------------------------
  // The loops of the builders

  method BuildGroup(oc: Node, evaluate: bool) returns (r: Result<seq<Condition>, ActionError>)
    ensures r == GroupOf(oc, evaluate)
  {
    var found := ChildrenOf(oc, "SingleCondition");
    if found.Err? {
      r := Err(found.error);
      return;
    }
    r := BuildEach(SingleCondition, evaluate, found.value);
  }

  /** A builder loop: `f` on each node in turn, stopping at the first that raises. */
  method BuildEach<X, Y>(f: (X, bool) -> Result<Y, ActionError>, evaluate: bool, xs: seq<X>) returns (r: Result<seq<Y>, ActionError>)
    ensures r == BuildAll(f, evaluate, xs)
  {
    var ys: seq<Y> := [];
    var i := 0;
    while i < |xs|
      invariant 0 <= i <= |xs|
      invariant BuildAll(f, evaluate, xs[..i]) == Ok(ys)
    {
      var y := f(xs[i], evaluate);
      BuildAllNext(f, evaluate, xs, i, ys);
      if y.Err? {
        r := Err(y.error);
        return;
      }
      ys := ys + [y.value];
      i := i + 1;
    }
    assert xs[..i] == xs;
    r := Ok(ys);
  }

  /** The loop of `_get_Conditions` over the OrCondition nodes. */
  method BuildGroups(ocs: seq<Node>, evaluate: bool) returns (r: Result<seq<seq<Condition>>, ActionError>)
    ensures r == BuildAll(GroupOf, evaluate, ocs)
  {
    var groups: seq<seq<Condition>> := [];
    var i := 0;
    while i < |ocs|
      invariant 0 <= i <= |ocs|
      invariant BuildAll(GroupOf, evaluate, ocs[..i]) == Ok(groups)
    {
      var g := BuildGroup(ocs[i], evaluate);
      BuildAllNext(GroupOf, evaluate, ocs, i, groups);
      if g.Err? {
        return Err(g.error);
      }
      groups := groups + [g.value];
      i := i + 1;
    }
    assert ocs[..i] == ocs;
    return Ok(groups);
  }

  method BuildConditions(cn: Node, evaluate: bool) returns (r: Result<(string, seq<seq<Condition>>), ActionError>)
    ensures r == ConditionsOf(cn, evaluate)
  {
    var ids := ChildrenOf(cn, "Identifier");
    if ids.Err? {
      return Err(ids.error);
    }
    var id := First(ids.value);
    if id.Err? {
      return Err(id.error);
    }
    var typename := TextOf(id.value);
    if typename.Err? {
      return Err(typename.error);
    }
    var ocs := ChildrenOf(cn, "OrCondition");
    if ocs.Err? {
      return Err(ocs.error);
    }
    var groups := BuildGroups(ocs.value, evaluate);
    if groups.Err? {
      return Err(groups.error);
    }
    return Ok((typename.value, groups.value));
  }

  method BuildStep(n: Node, evaluate: bool) returns (r: Result<Step, ActionError>)
    ensures r == StepOf(n, evaluate)
  {
    var axis := AxisOf(Type(n));
    if axis.None? {
      return Err(Unexpected(Type(n)));
    }
    var cn := Child(n, 0);
    if cn.Err? {
      return Err(cn.error);
    }
    var tc := BuildConditions(cn.value, evaluate);
    if tc.Err? {
      return Err(tc.error);
    }
    return Ok(Step(axis.value, tc.value.0, tc.value.1));
  }

  /** The loop of `_get_selector_func` over the children of the Selector node. */
  method BuildSteps(fns: seq<Node>, evaluate: bool) returns (r: Result<seq<Step>, ActionError>)
    ensures r == BuildAll(StepOf, evaluate, fns)
  {
    var steps: seq<Step> := [];
    var i := 0;
    while i < |fns|
      invariant 0 <= i <= |fns|
      invariant BuildAll(StepOf, evaluate, fns[..i]) == Ok(steps)
    {
      var next := StepTurn(fns, i, steps, evaluate);
      if next.Err? {
        r := next;
        return;
      }
      steps := next.value;
      i := i + 1;
    }
    assert fns[..i] == fns;
    r := Ok(steps);
  }

  /** One turn of that loop: the step built from child `i`, appended, or the error it raised. */
  method StepTurn(fns: seq<Node>, i: nat, steps: seq<Step>, evaluate: bool) returns (next: Result<seq<Step>, ActionError>)
    requires i < |fns| && BuildAll(StepOf, evaluate, fns[..i]) == Ok(steps)
    ensures next.Err? ==> BuildAll(StepOf, evaluate, fns) == next
    ensures next.Ok? ==> BuildAll(StepOf, evaluate, fns[..i + 1]) == next
  {
    var s := BuildStep(fns[i], evaluate);
    BuildAllNext(StepOf, evaluate, fns, i, steps);
    if s.Err? {
      next := Err(s.error);
    } else {
      next := Ok(steps + [s.value]);
    }
  }

  method BuildSelector(sel: Node, evaluate: bool) returns (r: Result<seq<Step>, ActionError>)
    ensures r == SelectorOf(sel, evaluate)
  {
    if !IsNonTerminal(sel) {
      return Err(Malformed);
    }
    r := BuildSteps(Kids(sel), evaluate);
  }

  // ---------------------------------------------------------------------------
  // The trees the grammar gives for steps and conditions

  function NumberTree(k: int): Node { Inner("Number", [Leaf(IntToString(k))]) }

  /** `StartNumber <- Number?` and `EndNumber <- Number?`. */
  function BoundTree(t: string, b: Option<int>): Node
  {
    Inner(t, if b.Some? then [NumberTree(b.value)] else [])
  }

  /** `AttributeValue <- Literal`, a double-quoted literal whose quotes the grammar skips. */
  function ValueTree(value: string): Node
  {
    Inner("AttributeValue", [Inner("Literal", [Inner("DoubleQuotesLiteral", [Leaf(value)])])])
  }

  /** An attribute test: the name, then the quoted value unless the test takes none. */
  function AttributeTree(test: AttrTest, name: string, value: string): Node
  {
    Inner(TestName(test), [Inner("AttributeName", [Leaf(name)])] + if Valueless(test) then [] else [ValueTree(value)])
  }

  /** The child of a SingleCondition node for a condition. */
  function ConditionBody(c: Condition): Node
  {
    match c
    case SliceAt(k) => Inner("Slice", [NumberTree(k)])
    case SliceRange(lo, hi) => Inner("Slice", [Inner("FromTo", [BoundTree("StartNumber", lo), BoundTree("EndNumber", hi)])])
    case LineColumn(f, cmp, bound) =>
      Inner("LineColumnLimitation", [Inner(CmpName(cmp), [Inner("LineOrColumn", [Inner(FieldName(f), [])]),
                                                          Inner("PositiveNumber", [Leaf(IntToString(bound))])])])
    case Attribute(test, name, value) => Inner("AttributeLimitation", [AttributeTree(test, name, value)])
  }

  function ConditionTree(c: Condition): Node { Inner("SingleCondition", [ConditionBody(c)]) }

  function ConditionTrees(g: seq<Condition>): (r: seq<Node>)
    ensures |r| == |g| && forall i :: 0 <= i < |g| ==> r[i] == ConditionTree(g[i])
  {
    seq(|g|, i requires 0 <= i < |g| => ConditionTree(g[i]))
  }

  function GroupTree(g: seq<Condition>): Node { Inner("OrCondition", ConditionTrees(g)) }

  function GroupTrees(groups: seq<seq<Condition>>): (r: seq<Node>)
    ensures |r| == |groups| && forall i :: 0 <= i < |groups| ==> r[i] == GroupTree(groups[i])
  {
    seq(|groups|, i requires 0 <= i < |groups| => GroupTree(groups[i]))
  }

  function ConditionsTree(typename: string, groups: seq<seq<Condition>>): Node
  {
    Inner("Conditions", [Inner("Identifier", [Leaf(typename)])] + GroupTrees(groups))
  }

  function StepTree(s: Step): Node
  {
    Inner(AxisName(s.axis), [ConditionsTree(s.typename, s.groups)])
  }

  function StepTrees(steps: seq<Step>): (r: seq<Node>)
    ensures |r| == |steps| && forall i :: 0 <= i < |steps| ==> r[i] == StepTree(steps[i])
  {
    seq(|steps|, i requires 0 <= i < |steps| => StepTree(steps[i]))
  }

  function SelectorTree(steps: seq<Step>): Node { Inner("Selector", StepTrees(steps)) }

  /** A condition the grammar can express: the valueless tests carry the empty value the builder gives them. */
  predicate Expressible(c: Condition)
  {
    c.Attribute? && Valueless(c.test) ==> c.value == ""
  }

  /**
   * A condition its tree builds back to: one the grammar can express and,
   * when values go through `eval`, no attribute test with a value, whose
   * value `eval` changes (ConditionAsWritten).
   */
  predicate Rebuilt(c: Condition, evaluate: bool)
  {
    Expressible(c) && (evaluate ==> !(c.Attribute? && !Valueless(c.test)))
  }

  predicate GroupsRebuilt(groups: seq<seq<Condition>>, evaluate: bool)
  {
    forall i, j :: 0 <= i < |groups| && 0 <= j < |groups[i]| ==> Rebuilt(groups[i][j], evaluate)
  }

  // ---------------------------------------------------------------------------
  // Building a rendered tree gives the value back

  lemma AxisOfName(a: Axis)
    ensures AxisOf(AxisName(a)) == Some(a)
  {
    match a
    case OnTheLeft => case OnTheRight => case ForwardTo => case NextTo =>
    case Descendants => case Children => case Ancestor => case Parent =>
  }

  lemma FieldOfNameInverts(f: Field)
    ensures FieldOfName(FieldName(f)) == Some(f)
  {
    match f
    case StartLine => case StartColumn => case EndLine => case EndColumn =>
  }

  lemma CmpOfNameInverts(c: Cmp)
    ensures CmpOfName(CmpName(c)) == Some(c)
  {
    match c
    case Greater => case Less => case GreaterEqual => case LessEqual => case Equal =>
  }

  lemma TestOfNameInverts(t: AttrTest)
    ensures TestOfName(TestName(t)) == Some(t)
  {
    match t
    case AttrEqual => case AttrStartsWith => case AttrEndsWith => case AttrContains =>
    case AttrNotEqual => case AttrNotStartsWith => case AttrNotEndsWith => case AttrNotContains =>
    case AttrSimple => case AttrSimpleNot =>
  }

  /** The text of a node with one child is the child's text. */
  lemma TextOfOnly(t: string, n: Node)
    ensures TextOf(Inner(t, [n])) == TextOf(n)
  {
    assert [n][1..] == [];
    assert GetStr(Inner(t, [n]), map[]) == GetStrs([n], map[]);
    match GetStr(n, map[])
    case Err(_) =>
    case Ok(x) => assert x + "" == x;
  }

  lemma TextOfLeaf(t: string, s: string)
    ensures TextOf(Inner(t, [Leaf(s)])) == Ok(s)
  {
    TextOfOnly(t, Leaf(s));
  }

  lemma {:induction false} FilterTypeAll(ns: seq<Node>, t: string)
    requires forall i :: 0 <= i < |ns| ==> Type(ns[i]) == t
    ensures FilterType(ns, t) == ns
    decreases |ns|
  {
    if ns != [] {
      FilterTypeAll(ns[1..], t);
      assert [ns[0]] + ns[1..] == ns;
    }
  }

  lemma FilterTypeSkip(x: Node, ns: seq<Node>, t: string)
    requires Type(x) != t
    ensures FilterType([x] + ns, t) == FilterType(ns, t)
  {
    assert ([x] + ns)[1..] == ns;
  }

  lemma {:induction false} FilterTypeNone(ns: seq<Node>, t: string)
    requires forall i :: 0 <= i < |ns| ==> Type(ns[i]) != t
    ensures FilterType(ns, t) == []
    decreases |ns|
  {
    if ns != [] {
      FilterTypeNone(ns[1..], t);
    }
  }

  lemma SearchPair(a: Node, b: Node, t: string)
    requires IsNonTerminal(a) && IsNonTerminal(b)
    ensures SearchKids([a, b], t, false) == Search(a, t, false) + Search(b, t, false)
  {
    assert [a, b][1..] == [b];
    assert [b][1..] == [];
    assert SearchKids([b], t, false) == Search(b, t, false) + SearchKids([], t, false);
    assert SearchKids([a, b], t, false) == Search(a, t, false) + SearchKids([b], t, false);
  }

  /** A bound searched for its own type is found at once; searched for another, not at all. */
  lemma BoundTreeSearch(t: string, b: Option<int>, u: string)
    requires u != "Number"
    ensures Search(BoundTree(t, b), u, false) == if t == u then [BoundTree(t, b)] else []
  {
    if t != u && b.Some? {
      var num := NumberTree(b.value);
      var leaf := Leaf(IntToString(b.value));
      assert [num][1..] == [];
      assert [leaf][1..] == [];
      assert SearchKids([leaf], u, false) == [] + SearchKids([], u, false);
      assert Search(num, u, false) == SearchKids([leaf], u, false);
      assert SearchKids([num], u, false) == Search(num, u, false) + SearchKids([], u, false);
    }
  }

  /** The text of a bound, and the value it converts back to. */
  lemma BoundRoundTrip(t: string, b: Option<int>)
    ensures TextOf(BoundTree(t, b)).Ok?
    ensures BoundOf(TextOf(BoundTree(t, b)).value) == Ok(b)
  {
    if b.Some? {
      assert BoundTree(t, b) == Inner(t, [NumberTree(b.value)]);
      TextOfOnly(t, NumberTree(b.value));
      TextOfLeaf("Number", IntToString(b.value));
      ParseIntToString(b.value);
      assert TextOf(BoundTree(t, b)) == Ok(IntToString(b.value));
      assert IntToString(b.value) != "";
    } else {
      assert BoundTree(t, b) == Inner(t, []);
      assert GetStr(Inner(t, []), map[]) == GetStrs([], map[]);
    }
  }

  /** The FromTo node of a range finds its StartNumber and its EndNumber child, one each. */
  lemma FromToSearch(start: Option<int>, stop: Option<int>)
    ensures SearchNode(Inner("FromTo", [BoundTree("StartNumber", start), BoundTree("EndNumber", stop)]), "StartNumber", false)
            == Some([BoundTree("StartNumber", start)])
    ensures SearchNode(Inner("FromTo", [BoundTree("StartNumber", start), BoundTree("EndNumber", stop)]), "EndNumber", false)
            == Some([BoundTree("EndNumber", stop)])
  {
    var lo := BoundTree("StartNumber", start);
    var hi := BoundTree("EndNumber", stop);
    var kind := Inner("FromTo", [lo, hi]);
    SearchPair(lo, hi, "StartNumber");
    SearchPair(lo, hi, "EndNumber");
    BoundTreeSearch("StartNumber", start, "StartNumber");
    BoundTreeSearch("EndNumber", stop, "StartNumber");
    BoundTreeSearch("StartNumber", start, "EndNumber");
    BoundTreeSearch("EndNumber", stop, "EndNumber");
    assert Search(kind, "StartNumber", false) == [] + SearchKids([lo, hi], "StartNumber", false);
    assert Search(kind, "EndNumber", false) == [] + SearchKids([lo, hi], "EndNumber", false);
    assert [lo] + [] == [lo] && [] + [hi] == [hi];
    assert SearchKids([lo, hi], "StartNumber", false) == [lo];
    assert SearchKids([lo, hi], "EndNumber", false) == [hi];
    assert IsNonTerminal(kind) && Kids(kind) == [lo, hi];
    assert "FromTo"[0] != "StartNumber"[0] && "FromTo"[0] != "EndNumber"[0];
    assert Search(kind, "StartNumber", false) == [lo];
    assert Search(kind, "EndNumber", false) == [hi];
  }

  lemma SliceRoundTrip(c: Condition)
    requires c.SliceAt? || c.SliceRange?
    ensures SliceCondition(ConditionBody(c)) == Ok(c)
  {
    if c.SliceAt? {
      TextOfLeaf("Number", IntToString(c.num));
      ParseIntToString(c.num);
    } else {
      FromToSearch(c.start, c.stop);
      BoundRoundTrip("StartNumber", c.start);
      BoundRoundTrip("EndNumber", c.stop);
    }
  }

  lemma LineColumnRoundTrip(c: Condition)
    requires c.LineColumn?
    ensures LineColumnCondition(ConditionBody(c)) == Ok(c)
  {
    TextOfLeaf("PositiveNumber", IntToString(c.bound));
    ParseIntToString(c.bound);
    FieldOfNameInverts(c.field);
    CmpOfNameInverts(c.cmp);
  }

  /** The name node of an attribute tree, found as the builder finds it. */
  lemma AttributeTreeName(test: AttrTest, name: string, value: string)
    ensures ChildrenOf(AttributeTree(test, name, value), "AttributeName") == Ok([Inner("AttributeName", [Leaf(name)])])
  {
    var nameNode := Inner("AttributeName", [Leaf(name)]);
    var m := AttributeTree(test, name, value);
    FilterTypeAll([nameNode], "AttributeName");
    if Valueless(test) {
      assert Kids(m) == [nameNode];
    } else {
      var v := ValueTree(value);
      assert Kids(m) == [nameNode] + [v];
      assert FilterType([nameNode] + [v], "AttributeName") == [nameNode] + FilterType([v], "AttributeName");
      FilterTypeNone([v], "AttributeName");
    }
  }

  /** The value node of an attribute tree that has one, found as the builder finds it. */
  lemma AttributeTreeValue(test: AttrTest, name: string, value: string)
    requires !Valueless(test)
    ensures ChildrenOf(AttributeTree(test, name, value), "AttributeValue") == Ok([ValueTree(value)])
  {
    var nameNode := Inner("AttributeName", [Leaf(name)]);
    var m := AttributeTree(test, name, value);
    var v := ValueTree(value);
    assert Kids(m) == [nameNode] + [v];
    FilterTypeAll([v], "AttributeValue");
    FilterTypeSkip(nameNode, [v], "AttributeValue");
  }

  /** The text of a value node is the literal's body. */
  lemma ValueTreeText(value: string)
    ensures TextOf(ValueTree(value)) == Ok(value)
  {
    TextOfLeaf("DoubleQuotesLiteral", value);
    TextOfOnly("Literal", Inner("DoubleQuotesLiteral", [Leaf(value)]));
    TextOfOnly("AttributeValue", Inner("Literal", [Inner("DoubleQuotesLiteral", [Leaf(value)])]));
  }

  /**
   * The attribute builder on the tree of a test with a value: the value is
   * the text of the AttributeValue node, evaluated when `evaluate` says so.
   */
  lemma AttributeValued(test: AttrTest, name: string, value: string, evaluate: bool)
    requires !Valueless(test)
    ensures AttributeCondition(ConditionBody(Attribute(test, name, value)), evaluate) ==
      var v := if evaluate then EvalLiteral(value) else Ok(value);
      if v.Ok? then Ok(Attribute(test, name, v.value)) else Err(v.error)
  {
    AttributeTreeName(test, name, value);
    AttributeTreeValue(test, name, value);
    ValueTreeText(value);
    TextOfLeaf("AttributeName", name);
    TestOfNameInverts(test);
  }

  lemma AttributeRoundTrip(c: Condition, evaluate: bool)
    requires c.Attribute? && Rebuilt(c, evaluate)
    ensures AttributeCondition(ConditionBody(c), evaluate) == Ok(c)
  {
    AttributeTreeName(c.test, c.name, c.value);
    if !Valueless(c.test) {
      AttributeTreeValue(c.test, c.name, c.value);
    }
    ValueTreeText(c.value);
    TextOfLeaf("AttributeName", c.name);
    TestOfNameInverts(c.test);
  }

  /** Building the tree of a condition gives the condition. */
  lemma ConditionRoundTrip(c: Condition, evaluate: bool)
    requires Rebuilt(c, evaluate)
    ensures SingleCondition(ConditionTree(c), evaluate) == Ok(c)
  {
    assert Child(ConditionTree(c), 0) == Ok(ConditionBody(c));
    match c
    case SliceAt(_) =>
      SliceRoundTrip(c);
    case SliceRange(_, _) =>
      SliceRoundTrip(c);
    case LineColumn(_, _, _) =>
      assert Type(ConditionBody(c)) == "LineColumnLimitation" != "Slice";
      LineColumnRoundTrip(c);
    case Attribute(_, _, _) =>
      assert Type(ConditionBody(c)) == "AttributeLimitation" != "Slice";
      assert "AttributeLimitation" != "LineColumnLimitation";
      AttributeRoundTrip(c, evaluate);
  }

  /**
   * What the builder as written gives for the tree of any condition: an
   * attribute test with a value gets the `eval` of that value, which raises
   * unless the value is itself a quoted literal; every other condition
   * comes back as it was.
   */
  lemma ConditionAsWritten(c: Condition)
    requires Expressible(c)
    ensures SingleCondition(ConditionTree(c), true) ==
      if c.Attribute? && !Valueless(c.test) then
        match EvalLiteral(c.value)
        case Ok(v) => Ok(c.(value := v))
        case Err(e) => Err(e)
      else Ok(c)
  {
    if c.Attribute? && !Valueless(c.test) {
      AttributeValued(c.test, c.name, c.value, true);
    } else {
      ConditionRoundTrip(c, true);
    }
  }

  lemma GroupRoundTrip(g: seq<Condition>, evaluate: bool)
    requires forall j :: 0 <= j < |g| ==> Rebuilt(g[j], evaluate)
    ensures GroupOf(GroupTree(g), evaluate) == Ok(g)
  {
    var scs := ConditionTrees(g);
    FilterTypeAll(scs, "SingleCondition");
    forall j | 0 <= j < |g| ensures SingleCondition(scs[j], evaluate) == Ok(g[j]) {
      ConditionRoundTrip(g[j], evaluate);
    }
    BuildAllOk(SingleCondition, evaluate, scs, g);
  }

  lemma ConditionsIdentifier(typename: string, groups: seq<seq<Condition>>)
    ensures ChildrenOf(ConditionsTree(typename, groups), "Identifier") == Ok([Inner("Identifier", [Leaf(typename)])])
  {
    var id := Inner("Identifier", [Leaf(typename)]);
    var ocs := GroupTrees(groups);
    FilterTypeNone(ocs, "Identifier");
    FilterTypeAll([id], "Identifier");
    assert FilterType([id] + ocs, "Identifier") == [id] + FilterType(ocs, "Identifier");
  }

  lemma ConditionsGroupTrees(typename: string, groups: seq<seq<Condition>>)
    ensures ChildrenOf(ConditionsTree(typename, groups), "OrCondition") == Ok(GroupTrees(groups))
  {
    var id := Inner("Identifier", [Leaf(typename)]);
    var ocs := GroupTrees(groups);
    FilterTypeAll(ocs, "OrCondition");
    FilterTypeSkip(id, ocs, "OrCondition");
  }

  /** Building the tree of a step's Conditions gives its type name and groups. */
  lemma ConditionsRoundTrip(typename: string, groups: seq<seq<Condition>>, evaluate: bool)
    requires GroupsRebuilt(groups, evaluate)
    ensures ConditionsOf(ConditionsTree(typename, groups), evaluate) == Ok((typename, groups))
  {
    var ocs := GroupTrees(groups);
    ConditionsIdentifier(typename, groups);
    ConditionsGroupTrees(typename, groups);
    TextOfLeaf("Identifier", typename);
    forall i | 0 <= i < |groups| ensures GroupOf(ocs[i], evaluate) == Ok(groups[i]) {
      GroupRoundTrip(groups[i], evaluate);
    }
    BuildAllOk(GroupOf, evaluate, ocs, groups);
  }

  lemma StepRoundTrip(s: Step, evaluate: bool)
    requires GroupsRebuilt(s.groups, evaluate)
    ensures StepOf(StepTree(s), evaluate) == Ok(s)
  {
    ConditionsRoundTrip(s.typename, s.groups, evaluate);
    AxisOfName(s.axis);
  }

  /**
   * Building the tree of a selector gives its steps: the builders invert the
   * grammar's trees.  Without `eval` this holds for every selector the
   * grammar can express; as written, for those without an attribute value.
   */
  lemma SelectorRoundTrip(steps: seq<Step>, evaluate: bool)
    requires forall i :: 0 <= i < |steps| ==> GroupsRebuilt(steps[i].groups, evaluate)
    ensures SelectorOf(SelectorTree(steps), evaluate) == Ok(steps)
  {
    var fns := StepTrees(steps);
    forall i | 0 <= i < |steps| ensures StepOf(fns[i], evaluate) == Ok(steps[i]) {
      StepRoundTrip(steps[i], evaluate);
    }
    BuildAllOk(StepOf, evaluate, fns, steps);
  }

  // ---------------------------------------------------------------------------
  // The value of an attribute test, as written

  /** An ASCII Python identifier: a letter or `_`, then letters, digits and `_`. */
  predicate IsIdentifier(v: string)
  {
    |v| > 0 && !IsDigit(v[0])
    && forall i :: 0 <= i < |v| ==> IsDigit(v[i]) || 'a' <= v[i] <= 'z' || 'A' <= v[i] <= 'Z' || v[i] == '_'
  }

  /**
   * The lower-case names bound where `_get_AttributeLimitation` calls
   * `eval`: the builder's locals, the lower-case globals of astactions.py
   * and Python's lower-case builtins.
   */
  predicate BoundAtEval(v: string)
  {
    v in {"attrlim_node", "match_type_node", "attrname", "attrval", "attrval_nodes"}
    || v in {"os", "config", "getLogger", "default_logger"}
    || v in {"abs", "aiter", "all", "anext", "any", "ascii", "bin", "bool", "breakpoint", "bytearray"}
    || v in {"bytes", "callable", "chr", "classmethod", "compile", "complex", "copyright", "credits"}
    || v in {"delattr", "dict", "dir", "divmod", "enumerate", "eval", "exec", "exit", "filter", "float"}
    || v in {"format", "frozenset", "getattr", "globals", "hasattr", "hash", "help", "hex", "id", "input"}
    || v in {"int", "isinstance", "issubclass", "iter", "len", "license", "list", "locals", "map", "max"}
    || v in {"memoryview", "min", "next", "object", "oct", "open", "ord", "pow", "print", "property"}
    || v in {"quit", "range", "repr", "reversed", "round", "set", "setattr", "slice", "sorted"}
    || v in {"staticmethod", "str", "sum", "super", "tuple", "type", "vars", "zip"}
  }

  /**
   * A body `eval` raises on: an identifier starting with a lower-case letter
   * (so not a numeral, not None/True/False and no class) that names nothing
   * bound there, so NameError, or a keyword, so SyntaxError.
   */
  predicate UnboundName(v: string)
  {
    IsIdentifier(v) && 'a' <= v[0] <= 'z' && !BoundAtEval(v)
  }

  /**
   * The grammar drops the quotes of an AttributeValue, so the source's
   * `eval` sees the bare body: `TypeA[foo == "bar"]` evaluates `bar`,
   * which is not a string literal.
   */
  lemma AsWrittenEvaluatesBody(test: AttrTest, name: string, value: string)
    requires !Valueless(test)
    requires UnboundName(value)
    ensures AttributeConditionAsWritten(ConditionBody(Attribute(test, name, value))) == Err(NotAStringLiteral(value))
    ensures AttributeConditionFixed(ConditionBody(Attribute(test, name, value))) == Ok(Attribute(test, name, value))
  {
    AttributeValued(test, name, value, true);
    AttributeValued(test, name, value, false);
  }

  /** The same at the SingleCondition around the test. */
  lemma ConditionAsWrittenRaises(test: AttrTest, name: string, value: string)
    requires !Valueless(test) && UnboundName(value)
    ensures SingleCondition(ConditionTree(Attribute(test, name, value)), true) == Err(NotAStringLiteral(value))
  {
    AsWrittenEvaluatesBody(test, name, value);
  }

  /** `TypeA[foo == "bar"]`, as written, raises instead of testing for `bar`. */
  lemma AsWrittenFooBar()
    ensures AttributeConditionAsWritten(ConditionBody(Attribute(AttrEqual, "foo", "bar"))) == Err(NotAStringLiteral("bar"))
  {
    AsWrittenEvaluatesBody(AttrEqual, "foo", "bar");
  }

  /** A group whose only condition raises raises the same error. */
  lemma GroupRaises(c: Condition, evaluate: bool)
    requires SingleCondition(ConditionTree(c), evaluate).Err?
    ensures GroupOf(GroupTree([c]), evaluate) == Err(SingleCondition(ConditionTree(c), evaluate).error)
  {
    var scs := ConditionTrees([c]);
    FilterTypeAll(scs, "SingleCondition");
    assert scs[..0] == [];
  }

  /** Conditions whose only group raises raise the same error. */
  lemma ConditionsRaise(typename: string, g: seq<Condition>, evaluate: bool)
    requires GroupOf(GroupTree(g), evaluate).Err?
    ensures ConditionsOf(ConditionsTree(typename, [g]), evaluate) == Err(GroupOf(GroupTree(g), evaluate).error)
  {
    ConditionsIdentifier(typename, [g]);
    ConditionsGroupTrees(typename, [g]);
    TextOfLeaf("Identifier", typename);
    assert GroupTrees([g])[..0] == [];
  }

  /** A selector whose only step raises raises the same error. */
  lemma SelectorRaises(s: Step, evaluate: bool)
    requires ConditionsOf(ConditionsTree(s.typename, s.groups), evaluate).Err?
    ensures SelectorOf(SelectorTree([s]), evaluate) == Err(ConditionsOf(ConditionsTree(s.typename, s.groups), evaluate).error)
  {
    AxisOfName(s.axis);
    assert StepOf(StepTree(s), evaluate) == Err(ConditionsOf(ConditionsTree(s.typename, s.groups), evaluate).error);
    assert StepTrees([s])[..0] == [];
  }

  /**
   * A one-step selector with one attribute test whose value is an unbound
   * name, such as `TypeA[foo == "bar"]`: `_get_selector_func` as written
   * raises, and without `eval` it gives the step back.
   */
  lemma SelectorAsWrittenRaises(axis: Axis, typename: string, test: AttrTest, name: string, value: string)
    requires !Valueless(test) && UnboundName(value)
    ensures var step := Step(axis, typename, [[Attribute(test, name, value)]]);
      SelectorOf(SelectorTree([step]), true) == Err(NotAStringLiteral(value))
      && SelectorOf(SelectorTree([step]), false) == Ok([step])
  {
    var c := Attribute(test, name, value);
    SelectorRoundTrip([Step(axis, typename, [[c]])], false);
    ConditionAsWrittenRaises(test, name, value);
    GroupRaises(c, true);
    ConditionsRaise(typename, [c], true);
    SelectorRaises(Step(axis, typename, [[c]]), true);
  }
}
