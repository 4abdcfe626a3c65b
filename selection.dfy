/**
 * The selectors and the action loop of tacparser/astactions.py:
 * `selector_func` runs the first step from the node the actions are
 * applied to and every later step from each start node in turn; and
 * `_ActionDefinition.apply_actions` gathers every selector's pairs and
 * then calls each action once per (pair, target).
 *
 * The actions themselves are closures built from the action syntax; here
 * they are numbered, and the model records the calls `apply_actions`
 * makes, in order.
 */
module Selection {
  import opened Text
  import opened Nodes
  import opened Trees
  import opened Conditions
  import opened Axes

  /** One `(start_node, next_list)` entry of a selector's result. */
  datatype Pair = Pair(start: Path, targets: seq<Path>)

  // ---------------------------------------------------------------------------
  // selector_func

  /** The lists a step returns for each node of `ps`, in order. */
  function Outputs(root: Node, ps: seq<Path>, s: Step): (r: seq<Result<seq<Path>, ActionError>>)
    ensures |r| == |ps| && forall i :: 0 <= i < |ps| ==> r[i] == StepSpec(root, ps[i], s)
  {
    seq(|ps|, i requires 0 <= i < |ps| => StepSpec(root, ps[i], s))
  }

  /** `next_list.extend(next_nodes)` over the outputs in order; the first exception stops it. */
  function Collect(outs: seq<Result<seq<Path>, ActionError>>): Result<seq<Path>, ActionError>
    decreases |outs|
  {
    if outs == [] then Ok([])
    else
      match Collect(outs[..|outs| - 1])
      case Err(e) => Err(e)
      case Ok(acc) =>
        match outs[|outs| - 1]
        case Err(e) => Err(e)
        case Ok(more) => Ok(acc + more)
  }

  /** A later step mapped over the current list: each node's output, concatenated in order. */
  function StepAll(root: Node, ps: seq<Path>, s: Step): Result<seq<Path>, ActionError>
  {
    Collect(Outputs(root, ps, s))
  }

  /** The later steps in turn, each mapped over the previous one's output. */
  function StepsFrom(root: Node, ps: seq<Path>, steps: seq<Step>): Result<seq<Path>, ActionError>
    decreases |steps|
  {
    if steps == [] then Ok(ps)
    else
      match StepsFrom(root, ps, steps[..|steps| - 1])
      case Err(e) => Err(e)
      case Ok(cur) => StepAll(root, cur, steps[|steps| - 1])
  }

  /** The pairs of the start nodes, in order, each with where the later steps lead from it. */
  function PairsSpec(root: Node, starts: seq<Path>, rest: seq<Step>): Result<seq<Pair>, ActionError>
    decreases |starts|
  {
    if starts == [] then Ok([])
    else
      var q := starts[|starts| - 1];
      match PairsSpec(root, starts[..|starts| - 1], rest)
      case Err(e) => Err(e)
      case Ok(acc) =>
        match StepsFrom(root, [q], rest)
        case Err(e) => Err(e)
        case Ok(ts) => Ok(acc + [Pair(q, ts)])
  }

  /** `selector_func` applied to the root: the first step from the root, the rest from each start node. */
  function SelectSpec(root: Node, steps: seq<Step>): (r: Result<seq<Pair>, ActionError>)
    ensures steps == [] ==> r == Err(NoSteps)
    ensures r.Ok? ==>
      steps != [] && StepSpec(root, [], steps[0]).Ok?
      && var starts := StepSpec(root, [], steps[0]).value;
         |r.value| == |starts|
         && forall i :: 0 <= i < |starts| ==>
              r.value[i].start == starts[i] && StepsFrom(root, [starts[i]], steps[1..]) == Ok(r.value[i].targets)
  {
    if steps == [] then Err(NoSteps)
    else
      match StepSpec(root, [], steps[0])
      case Err(e) => Err(e)
      case Ok(starts) =>
        var pairs := PairsSpec(root, starts, steps[1..]);
        if pairs.Ok? then PairsFollowStarts(root, starts, steps[1..]); pairs else pairs
  }

  /** Every output that is a list holds paths of the tree. */
  predicate OutputsValid(root: Node, outs: seq<Result<seq<Path>, ActionError>>)
  {
    forall i :: 0 <= i < |outs| && outs[i].Ok? ==> AllValid(root, outs[i].value)
  }

  lemma {:induction false} CollectValid(root: Node, outs: seq<Result<seq<Path>, ActionError>>)
    requires OutputsValid(root, outs)
    ensures Collect(outs).Ok? ==> AllValid(root, Collect(outs).value)
    decreases |outs|
  {
    if outs != [] {
      var init := outs[..|outs| - 1];
      assert OutputsValid(root, init) by {
        forall i | 0 <= i < |init| && init[i].Ok? ensures AllValid(root, init[i].value) { assert init[i] == outs[i]; }
      }
      CollectValid(root, init);
      if Collect(outs).Ok? {
        AllValidAppend(root, Collect(init).value, outs[|outs| - 1].value);
      }
    }
  }

  /** A step mapped over a list leads to paths of the tree. */
  lemma StepAllValid(root: Node, ps: seq<Path>, s: Step)
    ensures StepAll(root, ps, s).Ok? ==> AllValid(root, StepAll(root, ps, s).value)
  {
    CollectValid(root, Outputs(root, ps, s));
  }

  lemma {:induction false} CollectSticky(outs: seq<Result<seq<Path>, ActionError>>, k: nat)
    requires k <= |outs| && Collect(outs[..k]).Err?
    ensures Collect(outs) == Collect(outs[..k])
    decreases |outs| - k
  {
    if k < |outs| {
      var init := outs[..|outs| - 1];
      assert init[..k] == outs[..k];
      CollectSticky(init, k);
    } else {
      assert outs[..k] == outs;
    }
  }

  /** One more step applies to what the steps before it selected. */
  lemma StepsFromSnoc(root: Node, ps: seq<Path>, steps: seq<Step>, i: nat)
    requires i < |steps|
    ensures StepsFrom(root, ps, steps[..i + 1])
            == match StepsFrom(root, ps, steps[..i]) case Err(e) => Err(e) case Ok(cur) => StepAll(root, cur, steps[i])
  {
    assert steps[..i + 1][..i] == steps[..i];
  }

  lemma {:induction false} StepsFromSticky(root: Node, ps: seq<Path>, steps: seq<Step>, k: nat)
    requires k <= |steps| && StepsFrom(root, ps, steps[..k]).Err?
    ensures StepsFrom(root, ps, steps) == StepsFrom(root, ps, steps[..k])
    decreases |steps| - k
  {
    if k < |steps| {
      var steps' := steps[..|steps| - 1];
      assert steps'[..k] == steps[..k];
      StepsFromSticky(root, ps, steps', k);
    } else {
      assert steps[..k] == steps;
    }
  }

  lemma {:induction false} PairsSticky(root: Node, starts: seq<Path>, rest: seq<Step>, k: nat)
    requires k <= |starts| && PairsSpec(root, starts[..k], rest).Err?
    ensures PairsSpec(root, starts, rest) == PairsSpec(root, starts[..k], rest)
    decreases |starts| - k
  {
    if k < |starts| {
      var s' := starts[..|starts| - 1];
      assert s'[..k] == starts[..k];
      PairsSticky(root, s', rest, k);
    } else {
      assert starts[..k] == starts;
    }
  }

  /** The inner `for n in param_list` loop of `selector_func`. */
  method MapStep(root: Node, ps: seq<Path>, s: Step) returns (r: Result<seq<Path>, ActionError>)
    requires AllValid(root, ps)
    ensures r == StepAll(root, ps, s)
  {
    ghost var outs := Outputs(root, ps, s);
    var next := [];
    for i := 0 to |ps|
      invariant Collect(outs[..i]) == Ok(next)
    {
      assert outs[..i + 1][..i] == outs[..i] && outs[..i + 1][i] == outs[i];
      var out := RunStep(root, ps[i], s);
      if out.Err? {
        CollectSticky(outs, i + 1);
        return out;
      }
      next := next + out.value;
    }
    assert outs[..|ps|] == outs;
    r := Ok(next);
  }

  /** The `for selector_func in rem_selector_funcs` loop for one start node. */
  method Follow(root: Node, start: Path, rest: seq<Step>) returns (r: Result<seq<Path>, ActionError>)
    requires ValidPath(root, start)
    ensures r == StepsFrom(root, [start], rest)
  {
    var param := [start];
    assert AllValid(root, param) by { assert param[0] == start; }
    var i := 0;
    while i < |rest|
      invariant 0 <= i <= |rest| && AllValid(root, param)
      invariant StepsFrom(root, [start], rest[..i]) == Ok(param)
    {
      StepsFromSnoc(root, [start], rest, i);
      var out := MapStep(root, param, rest[i]);
      if out.Err? {
        StepsFromSticky(root, [start], rest, i + 1);
        return out;
      }
      StepAllValid(root, param, rest[i]);
      param := out.value;
      i := i + 1;
    }
    assert rest[..i] == rest;
    r := Ok(param);
  }

  /** The loop of `selector_func` over the start nodes, each paired with where the later steps lead from it. */
  method FollowAll(root: Node, starts: seq<Path>, rest: seq<Step>) returns (r: Result<seq<Pair>, ActionError>)
    requires AllValid(root, starts)
    ensures r == PairsSpec(root, starts, rest)
  {
    var pairs := [];
    for i := 0 to |starts|
      invariant PairsSpec(root, starts[..i], rest) == Ok(pairs)
    {
      assert starts[..i + 1][..i] == starts[..i] && starts[..i + 1][i] == starts[i];
      var ts := Follow(root, starts[i], rest);
      if ts.Err? {
        PairsSticky(root, starts, rest, i + 1);
        return Err(ts.error);
      }
      pairs := pairs + [Pair(starts[i], ts.value)];
    }
    assert starts[..|starts|] == starts;
    r := Ok(pairs);
  }

  /** `selector_func`: the selector's pairs, in the order of the start nodes. */
  method Select(root: Node, steps: seq<Step>) returns (r: Result<seq<Pair>, ActionError>)
    ensures r == SelectSpec(root, steps)
  {
    if |steps| == 0 {
      return Err(NoSteps);
    }
    var first := RunStep(root, [], steps[0]);
    if first.Err? {
      return Err(first.error);
    }
    r := FollowAll(root, first.value, steps[1..]);
  }

  // ---------------------------------------------------------------------------
  // Properties of selectors

  /** A one-step selector pairs each node it finds with itself. */
  lemma {:induction false} SingleStepPairs(root: Node, starts: seq<Path>)
    ensures PairsSpec(root, starts, []).Ok?
    ensures var pairs := PairsSpec(root, starts, []).value;
      |pairs| == |starts| && forall i :: 0 <= i < |starts| ==> pairs[i] == Pair(starts[i], [starts[i]])
    decreases |starts|
  {
    if starts != [] {
      SingleStepPairs(root, starts[..|starts| - 1]);
    }
  }

  /**
   * Every start node the first step finds gets exactly one pair, in the
   * same order, holding where the later steps lead from it.
   */
  lemma {:induction false} PairsFollowStarts(root: Node, starts: seq<Path>, rest: seq<Step>)
    requires PairsSpec(root, starts, rest).Ok?
    ensures var pairs := PairsSpec(root, starts, rest).value;
      |pairs| == |starts|
      && forall i :: 0 <= i < |starts| ==>
           pairs[i].start == starts[i] && StepsFrom(root, [starts[i]], rest) == Ok(pairs[i].targets)
    decreases |starts|
  {
    if starts != [] {
      var init := starts[..|starts| - 1];
      PairsFollowStarts(root, init, rest);
      var pairs := PairsSpec(root, starts, rest).value;
      var acc := PairsSpec(root, init, rest).value;
      forall i | 0 <= i < |starts|
        ensures pairs[i].start == starts[i] && StepsFrom(root, [starts[i]], rest) == Ok(pairs[i].targets)
      {
        if i < |starts| - 1 {
          assert pairs[i] == acc[i] && init[i] == starts[i];
        }
      }
    }
  }

  /** Collecting a concatenation of outputs collects each part and concatenates. */
  lemma {:induction false} CollectAppend(a: seq<Result<seq<Path>, ActionError>>, b: seq<Result<seq<Path>, ActionError>>)
    ensures Collect(a + b) ==
      match Collect(a)
      case Err(e) => Err(e)
      case Ok(x) => (match Collect(b) case Err(e) => Err(e) case Ok(y) => Ok(x + y))
    decreases |b|
  {
    if b == [] {
      assert a + b == a;
      if Collect(a).Ok? {
        assert Collect(a).value + [] == Collect(a).value;
      }
    } else {
      var ab := a + b;
      var b' := b[..|b| - 1];
      assert ab[..|ab| - 1] == a + b';
      assert ab[|ab| - 1] == b[|b| - 1];
      CollectAppend(a, b');
      if Collect(a).Ok? && Collect(b').Ok? && b[|b| - 1].Ok? {
        var x, y, w := Collect(a).value, Collect(b').value, b[|b| - 1].value;
        assert x + y + w == x + (y + w);
      }
    }
  }

  /** Mapping a step over a concatenation maps it over each part and concatenates the outputs. */
  lemma StepAllAppend(root: Node, a: seq<Path>, b: seq<Path>, s: Step)
    ensures StepAll(root, a + b, s) ==
      match StepAll(root, a, s)
      case Err(e) => Err(e)
      case Ok(x) => (match StepAll(root, b, s) case Err(e) => Err(e) case Ok(y) => Ok(x + y))
  {
    assert Outputs(root, a + b, s) == Outputs(root, a, s) + Outputs(root, b, s);
    CollectAppend(Outputs(root, a, s), Outputs(root, b, s));
  }

  /** Running two lists of later steps in turn is running their concatenation. */
  lemma {:induction false} StepsCompose(root: Node, ps: seq<Path>, s1: seq<Step>, s2: seq<Step>)
    ensures StepsFrom(root, ps, s1 + s2) ==
      match StepsFrom(root, ps, s1)
      case Err(e) => Err(e)
      case Ok(mid) => StepsFrom(root, mid, s2)
    decreases |s2|
  {
    if s2 == [] {
      assert s1 + s2 == s1;
    } else {
      var all := s1 + s2;
      assert all[..|all| - 1] == s1 + s2[..|s2| - 1];
      assert all[|all| - 1] == s2[|s2| - 1];
      StepsCompose(root, ps, s1, s2[..|s2| - 1]);
    }
  }

  // ---------------------------------------------------------------------------
  // apply_actions

  /** `action(start_node, target_node, start_index, target_index)` for the action numbered `action`. */
  datatype Call = Call(start: Path, target: Path, startIndex: nat, targetIndex: nat, action: nat)

  /** `action_nodes`: every selector's pairs, concatenated in order. */
  function ActionNodes(root: Node, selectors: seq<seq<Step>>): Result<seq<Pair>, ActionError>
    decreases |selectors|
  {
    if selectors == [] then Ok([])
    else
      match ActionNodes(root, selectors[..|selectors| - 1])
      case Err(e) => Err(e)
      case Ok(acc) =>
        match SelectSpec(root, selectors[|selectors| - 1])
        case Err(e) => Err(e)
        case Ok(more) => Ok(acc + more)
  }

  /** The innermost loop: every action on one target. */
  function ActionCalls(start: Path, target: Path, i: nat, j: nat, na: nat): (r: seq<Call>)
    ensures |r| == na && forall k :: 0 <= k < na ==> r[k] == Call(start, target, i, j, k)
  {
    seq(na, k requires 0 <= k < na => Call(start, target, i, j, k))
  }

  /** The middle loop: the targets of one pair in order, every action on each. */
  function PairCalls(start: Path, ts: seq<Path>, i: nat, na: nat): (r: seq<Call>)
    decreases |ts|
  {
    if ts == [] then []
    else PairCalls(start, ts[..|ts| - 1], i, na) + ActionCalls(start, ts[|ts| - 1], i, |ts| - 1, na)
  }

  /** The outer loop: the pairs in order. */
  function CallsSpec(pairs: seq<Pair>, na: nat): (r: seq<Call>)
    decreases |pairs|
  {
    if pairs == [] then []
    else
      var last := pairs[|pairs| - 1];
      CallsSpec(pairs[..|pairs| - 1], na) + PairCalls(last.start, last.targets, |pairs| - 1, na)
  }

  /** `apply_actions` with `na` actions: no action runs unless every selector succeeds. */
  function ApplyActionsSpec(root: Node, selectors: seq<seq<Step>>, na: nat): Result<seq<Call>, ActionError>
  {
    match ActionNodes(root, selectors)
    case Err(e) => Err(e)
    case Ok(pairs) => Ok(CallsSpec(pairs, na))
  }

  /** Call `c` comes before call `d`: by pair, then by target, then by action. */
  predicate Before(c: Call, d: Call)
  {
    c.startIndex < d.startIndex
    || (c.startIndex == d.startIndex && c.targetIndex < d.targetIndex)
    || (c.startIndex == d.startIndex && c.targetIndex == d.targetIndex && c.action < d.action)
  }

  predicate InOrder(cs: seq<Call>)
  {
    forall x, y :: 0 <= x < y < |cs| ==> Before(cs[x], cs[y])
  }

  /** `c` is the call of action `c.action` on target `c.targetIndex` of pair `c.startIndex`. */
  predicate Made(pairs: seq<Pair>, na: nat, c: Call)
  {
    c.startIndex < |pairs| && c.targetIndex < |pairs[c.startIndex].targets| && c.action < na
    && c.start == pairs[c.startIndex].start && c.target == pairs[c.startIndex].targets[c.targetIndex]
  }

  lemma InOrderAppend(a: seq<Call>, b: seq<Call>)
    requires InOrder(a) && InOrder(b)
    requires forall x, y :: 0 <= x < |a| && 0 <= y < |b| ==> Before(a[x], b[y])
    ensures InOrder(a + b)
  {
    var ab := a + b;
    forall x, y | 0 <= x < y < |ab| ensures Before(ab[x], ab[y]) {
      if y < |a| {
        assert ab[x] == a[x] && ab[y] == a[y];
      } else if x >= |a| {
        assert ab[x] == b[x - |a|] && ab[y] == b[y - |a|];
      } else {
        assert ab[x] == a[x] && ab[y] == b[y - |a|];
      }
    }
  }

  /** The calls for one pair: each target in order, every action on it in order. */
  lemma {:induction false} PairCallsShape(start: Path, ts: seq<Path>, i: nat, na: nat)
    ensures InOrder(PairCalls(start, ts, i, na))
    ensures forall c :: c in PairCalls(start, ts, i, na) <==>
      c.startIndex == i && c.targetIndex < |ts| && c.action < na && c.start == start && c.target == ts[c.targetIndex]
    decreases |ts|
  {
    if ts != [] {
      var m := |ts| - 1;
      var init := ts[..m];
      PairCallsShape(start, init, i, na);
      var a := PairCalls(start, init, i, na);
      var b := ActionCalls(start, ts[m], i, m, na);
      forall x, y | 0 <= x < |a| && 0 <= y < |b| ensures Before(a[x], b[y]) {
        assert a[x] in a;
      }
      InOrderAppend(a, b);
      forall c ensures c in a + b <==>
        c.startIndex == i && c.targetIndex < |ts| && c.action < na && c.start == start && c.target == ts[c.targetIndex]
      {
        if c.startIndex == i && c.targetIndex < m {
          assert init[c.targetIndex] == ts[c.targetIndex];
        }
        if c.startIndex == i && c.targetIndex == m && c.action < na && c.start == start && c.target == ts[m] {
          assert b[c.action] == c;
        }
      }
    }
  }

  /**
   * `apply_actions`' order: its calls are exactly one per pair, target and
   * action, each with its own indices, in pair, then target, then action order.
   */
  lemma {:induction false} CallsShape(pairs: seq<Pair>, na: nat)
    ensures InOrder(CallsSpec(pairs, na))
    ensures forall c :: c in CallsSpec(pairs, na) <==> Made(pairs, na, c)
    decreases |pairs|
  {
    if pairs != [] {
      var m := |pairs| - 1;
      var init := pairs[..m];
      var last := pairs[m];
      CallsShape(init, na);
      PairCallsShape(last.start, last.targets, m, na);
      var a := CallsSpec(init, na);
      var b := PairCalls(last.start, last.targets, m, na);
      forall x, y | 0 <= x < |a| && 0 <= y < |b| ensures Before(a[x], b[y]) {
        assert a[x] in a && b[y] in b;
      }
      InOrderAppend(a, b);
      forall c ensures c in a + b <==> Made(pairs, na, c) {
        if c.startIndex < m {
          assert init[c.startIndex] == pairs[c.startIndex];
        }
      }
    }
  }

  /** The number of targets over all pairs. */
  function Total(pairs: seq<Pair>): nat
    decreases |pairs|
  {
    if pairs == [] then 0 else Total(pairs[..|pairs| - 1]) + |pairs[|pairs| - 1].targets|
  }

  lemma {:induction false} PairCallsCount(start: Path, ts: seq<Path>, i: nat, na: nat)
    ensures |PairCalls(start, ts, i, na)| == na * |ts|
    decreases |ts|
  {
    if ts != [] {
      PairCallsCount(start, ts[..|ts| - 1], i, na);
      Distrib(na, |ts| - 1, 1);
    }
  }

  lemma Distrib(na: nat, x: nat, y: nat)
    ensures na * (x + y) == na * x + na * y
  {
  }

  /** Every action runs once per target of every pair. */
  lemma {:induction false} CallsCount(pairs: seq<Pair>, na: nat)
    ensures |CallsSpec(pairs, na)| == na * Total(pairs)
    decreases |pairs|
  {
    if pairs != [] {
      var m := |pairs| - 1;
      CallsCount(pairs[..m], na);
      PairCallsCount(pairs[m].start, pairs[m].targets, m, na);
      Distrib(na, Total(pairs[..m]), |pairs[m].targets|);
    }
  }

  // ---------------------------------------------------------------------------
  // The loops of apply_actions

  method CallTarget(start: Path, target: Path, i: nat, j: nat, na: nat) returns (r: seq<Call>)
    ensures r == ActionCalls(start, target, i, j, na)
  {
    r := [];
    for k := 0 to na
      invariant |r| == k && forall k' :: 0 <= k' < k ==> r[k'] == Call(start, target, i, j, k')
    {
      r := r + [Call(start, target, i, j, k)];
    }
  }

  method CallPair(start: Path, ts: seq<Path>, i: nat, na: nat) returns (r: seq<Call>)
    ensures r == PairCalls(start, ts, i, na)
  {
    r := [];
    for j := 0 to |ts|
      invariant r == PairCalls(start, ts[..j], i, na)
    {
      assert ts[..j + 1][..j] == ts[..j] && ts[..j + 1][j] == ts[j];
      var more := CallTarget(start, ts[j], i, j, na);
      r := r + more;
    }
    assert ts[..|ts|] == ts;
  }

  /** The first loop of `apply_actions`: `action_nodes.extend(selector(node))` for every selector. */
  method GatherPairs(root: Node, selectors: seq<seq<Step>>) returns (r: Result<seq<Pair>, ActionError>)
    ensures r == ActionNodes(root, selectors)
  {
    var nodes := [];
    for s := 0 to |selectors|
      invariant ActionNodes(root, selectors[..s]) == Ok(nodes)
    {
      assert selectors[..s + 1][..s] == selectors[..s] && selectors[..s + 1][s] == selectors[s];
      var out := Select(root, selectors[s]);
      if out.Err? {
        ActionNodesSticky(root, selectors, s + 1);
        return Err(out.error);
      }
      nodes := nodes + out.value;
    }
    assert selectors[..|selectors|] == selectors;
    r := Ok(nodes);
  }

  /** The nested loops of `apply_actions` over the pairs, their targets and the actions. */
  method CallAll(pairs: seq<Pair>, na: nat) returns (calls: seq<Call>)
    ensures calls == CallsSpec(pairs, na)
  {
    calls := [];
    for i := 0 to |pairs|
      invariant calls == CallsSpec(pairs[..i], na)
    {
      assert pairs[..i + 1][..i] == pairs[..i] && pairs[..i + 1][i] == pairs[i];
      var more := CallPair(pairs[i].start, pairs[i].targets, i, na);
      calls := calls + more;
    }
    assert pairs[..|pairs|] == pairs;
  }

  /** `apply_actions`: the selectors first, then every call in pair, target and action order. */
  method ApplyActions(root: Node, selectors: seq<seq<Step>>, na: nat) returns (r: Result<seq<Call>, ActionError>)
    ensures r == ApplyActionsSpec(root, selectors, na)
  {
    var nodes := GatherPairs(root, selectors);
    if nodes.Err? {
      return Err(nodes.error);
    }
    var calls := CallAll(nodes.value, na);
    r := Ok(calls);
  }

  lemma {:induction false} ActionNodesSticky(root: Node, selectors: seq<seq<Step>>, k: nat)
    requires k <= |selectors| && ActionNodes(root, selectors[..k]).Err?
    ensures ActionNodes(root, selectors) == ActionNodes(root, selectors[..k])
    decreases |selectors| - k
  {
    if k < |selectors| {
      var s' := selectors[..|selectors| - 1];
      assert s'[..k] == selectors[..k];
      ActionNodesSticky(root, s', k);
    } else {
      assert selectors[..k] == selectors;
    }
  }
}
