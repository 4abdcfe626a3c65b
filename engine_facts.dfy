/**
 * Properties of the combinator engine that relate several evaluations:
 * the memo replays a rule call, and a repetition with no maximum over an
 * element that never fails never ends (the parser of tests/testmodules/recursion.py).
 */
module EngineFacts {
  import opened Text
  import opened Patterns
  import opened Nodes
  import opened Reading
  import opened Engine
  import opened Driver

  /**
   * Calling the same rule again at the same position is answered from the
   * memo: the same outcome, the same nodes, the same final state, and no
   * fuel is needed.
   */
  lemma CallReplays(env: Env, e: Expr, st: State, fuel: nat, fuel2: nat)
    requires e.Call? && StateOk(env, st) && Eval(env, e, st, fuel).Done?
    ensures Eval(env, e, Eval(env, e, st, fuel).st.(pos := st.pos), fuel2) == Eval(env, e, st, fuel)
  {
    var r := Eval(env, e, st, fuel);
    var again := r.st.(pos := st.pos);
    assert Key(e.typename, st.pos) in again.cache;
    if r.ok {
      assert SetPos(again, r.nodes[0].span.endpos) == r.st;
    }
  }

  /**
   * `x` never fails from a state satisfying `inv`, and keeps `inv`, as
   * long as there is fuel to enter a rule.
   */
  ghost predicate NeverFails(env: Env, x: Expr, inv: State -> bool)
  {
    forall s: State, f: nat :: StateOk(env, s) && inv(s) && f > 0 ==>
      Eval(env, x, s, f).Done? && Eval(env, x, s, f).ok && inv(Eval(env, x, s, f).st)
  }

  lemma {:induction false} AllBoundedAppend(a: seq<Node>, b: seq<Node>, len: nat)
    requires AllBounded(a, len) && AllBounded(b, len)
    ensures AllBounded(a + b, len)
  {
    forall i | 0 <= i < |a + b| ensures Bounded((a + b)[i], len) {
      if i >= |a| { assert (a + b)[i] == b[i - |a|]; }
    }
  }

  /**
   * `_rpt` has no progress check: with no maximum, over an element that
   * never fails, every round succeeds and the loop ends only when the fuel
   * does, whatever `min` is.  The rounds do not nest, so what runs out is
   * the loop, not the rule nesting Python bounds.
   */
  lemma {:induction false} RptNeverEnds(env: Env, e: Expr, i: nat, acc: seq<Node>, start: State, st: State,
                                        fuel: nat, inv: State -> bool)
    requires e.Rpt? && e.max < 0
    requires StateOk(env, start) && StateOk(env, st) && AllBounded(acc, |env.contents|)
    requires start.pos <= st.pos && start.maxpos <= st.maxpos && start.cache.Keys <= st.cache.Keys
    requires start.nodenum <= st.nodenum
    requires inv(st) && NeverFails(env, e.e, inv)
    ensures EvalRpt(env, e, i, acc, start, st, fuel) == Stuck(LoopOutOfFuel)
    decreases fuel
  {
    if fuel > 0 {
      var r := Eval(env, e.e, st, fuel);
      AllBoundedAppend(acc, r.nodes, |env.contents|);
      RptNeverEnds(env, e, i + 1, acc + r.nodes, start, r.st, fuel - 1, inv);
    }
  }

  // ---------------------------------------------------------------------------
  // The parser of tests/testmodules/recursion.py: `Recursion <- ALoop _EOF`,
  // `ALoop <- A*`, `A <- r"A*"`.

  /** The regular expression `A*`. */
  const AStar: Pattern := Star(Str("A"))

  const AExpr: Expr := Call("p_a", "A")
  const ALoopBody: Expr := Rpt(AExpr, 0, -1)
  const RecursionBody: Expr := Seq([Call("p_aloop", "ALoop"), Call("_eof", "_EOF")])

  const RecursionRules: Rules :=
    map["p_recursion" := RecursionBody, "p_aloop" := ALoopBody, "p_a" := Reg(AStar), "_eof" := Eof]
  const RecursionDefs: map<string, Expr> :=
    map["Recursion" := RecursionBody, "ALoop" := ALoopBody, "A" := Reg(AStar)]

  /** The memo holds no failure for type `A`. */
  ghost predicate NoFailedA(s: State)
  {
    forall k :: k in s.cache && k.typename == "A" ==> s.cache[k].ok
  }

  /** `A <- r"A*"` matches everywhere, the empty string included. */
  lemma AStarMatches(env: Env, s: State)
    requires StateOk(env, s)
    ensures RegexpMatch(env.contents, s.pos, env.limit, AStar).Some?
  {
    StarAlwaysMatches(Str("A"), Window(env.contents, s.pos, env.limit));
  }

  lemma CallANeverFails(env: Env)
    requires "p_a" in env.rules && env.rules["p_a"] == Reg(AStar)
    ensures NeverFails(env, AExpr, NoFailedA)
  {
    forall s: State, f: nat | StateOk(env, s) && NoFailedA(s) && f > 0
      ensures Eval(env, AExpr, s, f).Done? && Eval(env, AExpr, s, f).ok && NoFailedA(Eval(env, AExpr, s, f).st)
    {
      var k := Key("A", s.pos);
      if k !in s.cache {
        AStarMatches(env, s);
        assert Eval(env, Reg(AStar), s, f - 1).ok;
      }
    }
  }

  /** `ALoop <- A*` never ends, whatever the text and whatever the fuel. */
  lemma ALoopNeverEnds(env: Env, st: State, fuel: nat)
    requires "p_a" in env.rules && env.rules["p_a"] == Reg(AStar)
    requires StateOk(env, st) && NoFailedA(st)
    ensures Eval(env, ALoopBody, st, fuel) == Stuck(LoopOutOfFuel)
  {
    CallANeverFails(env);
    RptNeverEnds(env, ALoopBody, 0, [], st, st, fuel, NoFailedA);
  }

  /**
   * The root rule of recursion.py never ends on any text, started from a
   * fresh parser: the `A*` loop runs out of fuel.  Only with no fuel at all,
   * before the root rule is entered, is the nesting what runs out.
   */
  lemma RecursionNeverEnds(env: Env, fuel: nat)
    requires env.rules == RecursionRules && env.limit <= |env.contents|
    ensures Eval(env, RecursionBody, Fresh, fuel) == if fuel == 0 then Stuck(OutOfFuel) else Stuck(LoopOutOfFuel)
  {
    var call := Call("p_aloop", "ALoop");
    assert Eval(env, RecursionBody, Fresh, fuel) == EvalSeq(env, RecursionBody, 0, [], Fresh, Fresh, fuel);
    assert RecursionBody.xs[0] == call;
    assert Key("ALoop", 0) !in Fresh.cache;
    if fuel > 0 {
      assert env.rules["p_aloop"] == ALoopBody && env.rules["p_a"] == Reg(AStar);
      ALoopNeverEnds(env, Fresh, fuel - 1);
      assert Eval(env, call, Fresh, fuel) == Stuck(LoopOutOfFuel);
    } else {
      assert Eval(env, call, Fresh, fuel) == Stuck(OutOfFuel);
    }
  }

  /**
   * tests/test_recursion.py expects `(False, None)` from `parse_file` on the
   * recursion parser.  As written no RecursionError is raised: `ALoop <- A*`
   * loops at a constant depth, so `parse_file` never answers, whatever the
   * file holds.
   */
  lemma RecursionParseFileSpins(rules: Rules, defs: map<string, Expr>, text: string, fuel: nat)
    requires rules == RecursionRules && defs == RecursionDefs
    ensures ParseFileSpec(rules, map[], defs, [], "Recursion", false, text, "Recursion", fuel)
            == if fuel == 0 then FileDone(false, None) else FileStuck(LoopOutOfFuel)
  {
    var env := Env(text, -1, Initialize(rules, map[]), false);
    assert env.rules == RecursionRules;
    assert defs["Recursion"] == RecursionBody;
    RecursionNeverEnds(env, fuel);
  }

  /**
   * The answer the test expects, from a `parse_file` that gives up on an
   * endless repetition the way it gives up on a RecursionError.
   */
  lemma RecursionParseFileGuardedFails(rules: Rules, defs: map<string, Expr>, text: string, fuel: nat)
    requires rules == RecursionRules && defs == RecursionDefs
    ensures ParseFileGuardedSpec(rules, map[], defs, [], "Recursion", false, text, "Recursion", fuel)
            == FileDone(false, None)
  {
    RecursionParseFileSpins(rules, defs, text, fuel);
  }
}
