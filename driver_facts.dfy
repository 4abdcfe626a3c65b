/**
 * Two discrepancies in the drivers of tacparser/baseparser.py, each shown
 * on a concrete input and set against the corrected definition.
 *
 * `parse_string` runs the sub-parses even after the main parse failed;
 * the failure node it then holds cannot be searched, so the call raises
 * instead of answering `(False, failure)` the way `parse_file` does.
 *
 * `sub_parse` clears the memo once for all nodes of a type, but each node
 * is parsed under its own end limit; a failure recorded while the reader
 * was limited to one node answers for the same rule at the same position
 * when the next node is parsed, and the next node fails.
 */
module DriverFacts {
  import opened Text
  import opened Nodes
  import opened Reading
  import opened Engine
  import opened Driver
  import Trees

  // ---------------------------------------------------------------------------
  // parse_string after a failed main parse

  /**
   * As written, a failed main parse followed by a sub-definition type whose
   * `s_` rule exists ends in the TypeError of iterating the failure node's
   * answer; the corrected driver answers the failure.
   */
  lemma ParseStringRaisesAfterFailure(rules: Rules, backup: Rules, subtypes: seq<string>, top: string, legacy: bool,
                                      text: string, rule: string, typename: string, fuel: nat)
    requires rule in rules && |subtypes| > 0 && SubRuleName(subtypes[0]) in Initialize(rules, backup)
    requires var env := Env(text, -1, Initialize(rules, backup), legacy);
      var p := ParseSpec(env, rules[rule], if typename == "" then top else typename, None, Fresh, fuel);
      p.ParseDone? && !p.ok
    ensures ParseStringSpec(rules, backup, subtypes, top, legacy, text, rule, typename, fuel) == SessionStuck(NotSearchable)
    ensures var r := ParseStringFixed(rules, backup, subtypes, top, legacy, text, rule, typename, fuel);
      r.SessionDone? && !r.ok && r.tree.Failure?
  {
    var env := Env(text, -1, Initialize(rules, backup), legacy);
    var p := ParseSpec(env, rules[rule], if typename == "" then top else typename, None, Fresh, fuel);
    assert p.tree.Failure?;
    assert !IsNonTerminal(p.tree);
  }

  /** The corrected driver differs from the one as written only after a failed main parse. */
  lemma ParseStringFixedAgrees(rules: Rules, backup: Rules, subtypes: seq<string>, top: string, legacy: bool,
                               text: string, rule: string, typename: string, fuel: nat)
    requires rule in rules
    requires var env := Env(text, -1, Initialize(rules, backup), legacy);
      var p := ParseSpec(env, rules[rule], if typename == "" then top else typename, None, Fresh, fuel);
      p.ParseStuck? || p.ok
    ensures ParseStringFixed(rules, backup, subtypes, top, legacy, text, rule, typename, fuel)
            == ParseStringSpec(rules, backup, subtypes, top, legacy, text, rule, typename, fuel)
  {
  }

  /** The corrected `parse_string` answers a failed parse the way `parse_file` does. */
  lemma ParseStringFixedMatchesParseFile(rules: Rules, backup: Rules, defs: map<string, Expr>, subtypes: seq<string>,
                                         top: string, legacy: bool, text: string, rule: string, typename: string, fuel: nat)
    requires rule in rules
    requires var tname := if typename == "" then top else typename; tname in defs && defs[tname] == rules[rule]
    ensures var f := ParseFileSpec(rules, backup, defs, subtypes, top, legacy, text, typename, fuel);
      match ParseStringFixed(rules, backup, subtypes, top, legacy, text, rule, typename, fuel)
      case SessionDone(ok, t, _, _, _) => f == FileDone(ok, Some(t))
      case SessionStuck(h) => f == FileStuck(h) || (h == OutOfFuel && f == FileDone(false, None))
  {
    var tname := if typename == "" then top else typename;
    var env := Env(text, -1, Initialize(rules, backup), legacy);
    match ParseSpec(env, rules[rule], tname, None, Fresh, fuel) {
      case ParseStuck(h) =>
      case ParseDone(ok, t, st) =>
        if ok {
          var s := SubParseAll(text, legacy, env.rules, backup, subtypes, 0, ok, t, -1, st, fuel);
          assert s.SessionDone? ==> s.ok == ok;
        }
    }
  }

  /** The smallest input: a grammar `A <- "a"` with a sub-definition `B <-- "b"`, and the empty text. */
  const SmallRules: Rules := map["p_a" := Lit("a", false), "s_b" := Lit("b", false)]

  lemma ParseStringRaisesOnEmptyText()
    ensures ParseStringSpec(SmallRules, map[], ["B"], "A", false, "", "p_a", "", 1) == SessionStuck(NotSearchable)
    ensures ParseStringFixed(SmallRules, map[], ["B"], "A", false, "", "p_a", "", 1).SessionDone?
  {
    assert Lower("B") == [LowerChar('B')] + Lower("");
    assert SubRuleName("B") == "s_b";
    assert Initialize(SmallRules, map[]) == SmallRules;
    var env := Env("", -1, SmallRules, false);
    LiteralMatchIff("", 0, -1, "a", false);
    assert !ParseSpec(env, Lit("a", false), "A", None, Fresh, 1).ok;
    ParseStringRaisesAfterFailure(SmallRules, map[], ["B"], "A", false, "", "p_a", "", 1);
  }

  // ---------------------------------------------------------------------------
  // sub_parse and the memo shared between nodes

  /** `S <-- X+` over `X <- "a" / "b"`, with both nodes of type S in the text "ab". */
  const Alt: Expr := Sel([Lit("a", false), Lit("b", false)])
  const Body: Expr := Rpt(Call("p_x", "X"), 1, -1)
  const Table: Rules := map["s_s" := Body, "p_x" := Alt]
  const Swapped: Rules := Table["p_s" := Body]
  const NodeA: Node := NonTerminal("S", [Terminal("a", Span(0, 1, 1, 0, 1, 1), map[])], Span(0, 1, 1, 0, 1, 1), 1, map[])
  const NodeB: Node := NonTerminal("S", [Terminal("b", Span(1, 2, 1, 1, 1, 2), map[])], Span(1, 2, 1, 1, 1, 2), 2, map[])
  const Root: Node := NonTerminal("R", [NodeA, NodeB], Span(0, 2, 1, 0, 1, 2), 3, map[])

  lemma SubParseSetup()
    ensures SubRuleName("S") == "s_s" && MainRuleName("S") == "p_s"
    ensures Initialize(Table, map[]) == Table
    ensures Search(Root, "S", false) == [NodeA, NodeB]
    ensures Trees.SearchPaths(Root, "S", false) == [[0], [1]]
  {
    assert Lower("S") == [LowerChar('S')] + Lower("");
    assert SearchKids([NodeB], "S", false) == [NodeB] + SearchKids([], "S", false);
    assert SearchKids(Kids(Root), "S", false) == [NodeA] + SearchKids([NodeB], "S", false);
    assert Trees.SearchPaths(NodeA, "S", false) == [[]] && Trees.SearchPaths(NodeB, "S", false) == [[]];
    assert [0] + [] == [0] && [1] + [] == [1];
    assert Trees.PrefixAll(0, [[]]) == [[0]] && Trees.PrefixAll(1, [[]]) == [[1]];
    assert Trees.KidPaths(Root, 2, "S", false) == [];
    assert Trees.KidPaths(Root, 1, "S", false) == [[1]];
    assert Trees.KidPaths(Root, 0, "S", false) == [[0]] + [[1]];
  }

  const LitA: Expr := Lit("a", false)
  const LitB: Expr := Lit("b", false)
  const CallX: Expr := Call("p_x", "X")

  /** X's body tries "a" and then "b" from the same position. */
  lemma AltSteps(env: Env, st: State, fuel: nat)
    requires StateOk(env, st)
    ensures var a := EvalLit(env, LitA, st); var b := EvalLit(env, LitB, st);
      Eval(env, Alt, st, fuel) == if a.ok then a else if b.ok then b else Done(false, [], st)
  {
    var a := EvalLit(env, LitA, st);
    var b := EvalLit(env, LitB, st);
    assert Eval(env, Alt.xs[0], st, fuel) == a;
    assert Eval(env, Alt.xs[1], st, fuel) == b;
    assert SetPos(st, st.pos) == st;
    assert EvalSel(env, Alt, 2, st, fuel) == Done(false, [], st);
    assert EvalSel(env, Alt, 1, st, fuel) == if b.ok then b else Done(false, [], st);
  }

  /** A call of X without a memo entry runs X's body and records the outcome. */
  lemma CallSteps(env: Env, st: State, fuel: nat)
    requires StateOk(env, st) && env.rules == Swapped && Key("X", st.pos) !in st.cache && fuel > 0
    requires Eval(env, Alt, st, fuel - 1).Done?
    ensures var a := Eval(env, Alt, st, fuel - 1); var k := Key("X", st.pos);
      Eval(env, CallX, st, fuel)
      == if a.ok then
           var node := NonTerminal("X", a.nodes, SpanAt(env, st.pos, a.st.pos), a.st.nodenum, map[]);
           Done(true, [node], a.st.(nodenum := a.st.nodenum + 1, cache := a.st.cache[k := Memo(true, [node])]))
         else Done(false, [], a.st.(cache := a.st.cache[k := Memo(false, [])]))
  {
    assert Swapped["p_x"] == Alt;
    assert Eval(env, CallX, st, fuel) == EvalCall(env, CallX, st, fuel);
  }

  /** One round of S's body, `X+`. */
  lemma RptRound(env: Env, i: nat, acc: seq<Node>, start: State, st: State, fuel: nat)
    requires StateOk(env, start) && StateOk(env, st) && AllBounded(acc, |env.contents|)
    requires start.pos <= st.pos && start.maxpos <= st.maxpos && start.cache.Keys <= st.cache.Keys
    requires start.nodenum <= st.nodenum && fuel > 0
    requires Eval(env, CallX, st, fuel).Done?
    ensures var x := Eval(env, CallX, st, fuel);
      EvalRpt(env, Body, i, acc, start, st, fuel)
      == if !x.ok then (if i >= 1 then Done(true, acc, x.st) else Done(false, [], SetPos(x.st, start.pos)))
         else EvalRpt(env, Body, i + 1, acc + x.nodes, start, x.st, fuel - 1)
  {
  }

  /** The first call of X on the first node reads "a". */
  lemma FirstCall(env: Env, st0: State)
    requires env == Env("ab", 1, Swapped, false) && st0 == State(0, 0, map[], 0)
    ensures var x := Eval(env, CallX, st0, 2);
      x.Done? && x.ok && x.st.pos == 1 && x.st.maxpos == 1 && Key("X", 1) !in x.st.cache
  {
    LiteralMatchIff("ab", 0, 1, "a", false);
    assert "ab"[0..1] == "a";
    AltSteps(env, st0, 1);
    var a := Eval(env, Alt, st0, 1);
    assert a.ok && a.st == State(1, 1, map[], 0);
    CallSteps(env, st0, 2);
  }

  /** The second call of X meets the limit 1 and records its failure at position 1. */
  lemma FirstRetry(env: Env, st: State)
    requires env == Env("ab", 1, Swapped, false)
    requires StateOk(env, st) && st.pos == 1 && st.maxpos == 1 && Key("X", 1) !in st.cache
    ensures Eval(env, CallX, st, 1) == Done(false, [], st.(cache := st.cache[Key("X", 1) := Memo(false, [])]))
  {
    LiteralMatchIff("ab", 1, 1, "a", false);
    LiteralMatchIff("ab", 1, 1, "b", false);
    AltSteps(env, st, 0);
    CallSteps(env, st, 1);
  }

  /** S's body on the first node: one X, then the recorded failure. */
  lemma FirstBody(env: Env, st0: State)
    requires env == Env("ab", 1, Swapped, false) && st0 == State(0, 0, map[], 0)
    ensures var x := Eval(env, CallX, st0, 2);
      x.Done? && Eval(env, Body, st0, 2)
                 == Done(true, x.nodes, x.st.(cache := x.st.cache[Key("X", 1) := Memo(false, [])]))
  {
    FirstCall(env, st0);
    var x := Eval(env, CallX, st0, 2);
    FirstRetry(env, x.st);
    RptRound(env, 1, x.nodes, st0, x.st, 1);
    RptRound(env, 0, [], st0, st0, 2);
    assert [] + x.nodes == x.nodes;
  }

  /** The first node, parsed under the limit 1: one X, and a failure of X recorded at position 1. */
  lemma FirstNodeRecordsFailure(env: Env, st0: State)
    requires env == Env("ab", 1, Swapped, false) && st0 == State(0, 0, map[], 0)
    ensures var p := ParseSpec(env, Body, "S", Some(1), st0, 2);
      p.ParseDone? && p.ok && p.tree.NonTerminal? && p.st.pos == 1 && p.st.maxpos == 1
      && Key("X", 1) in p.st.cache && p.st.cache[Key("X", 1)] == Memo(false, [])
  {
    FirstCall(env, st0);
    FirstBody(env, st0);
  }

  /** The second node, parsed with that memo under the limit 2: the recorded failure answers, and S fails. */
  lemma SecondNodeFailsOnMemo(env: Env, st: State)
    requires env == Env("ab", 2, Swapped, false)
    requires st.pos == 1 && st.maxpos == 1 && Key("X", 1) in st.cache && st.cache[Key("X", 1)] == Memo(false, [])
    requires CacheOk(st.cache, 2)
    ensures var p := ParseSpec(env, Body, "S", Some(2), st, 2);
      p.ParseDone? && !p.ok && p.tree.Failure?
  {
    assert Eval(env, CallX, st, 2) == Done(false, [], st);
    RptRound(env, 0, [], st, st, 2);
    assert SetPos(st, 1) == st;
    assert Eval(env, Body, st, 2) == EvalRpt(env, Body, 0, [], st, st, 2) == Done(false, [], st);
  }

  /** Alone, the call of X on the second node reads "b". */
  lemma AloneCall(env: Env, st0: State)
    requires env == Env("ab", 2, Swapped, false) && st0 == State(1, 1, map[], 0)
    ensures var x := Eval(env, CallX, st0, 2);
      x.Done? && x.ok && x.st.pos == 2 && x.st.maxpos == 2 && Key("X", 2) !in x.st.cache
  {
    LiteralMatchIff("ab", 1, 2, "a", false);
    LiteralMatchIff("ab", 1, 2, "b", false);
    assert "ab"[1..2] == "b";
    AltSteps(env, st0, 1);
    var a := Eval(env, Alt, st0, 1);
    assert a.ok && a.st == State(2, 2, map[], 0);
    CallSteps(env, st0, 2);
  }

  /** The next call of X is at the end of the text and fails. */
  lemma AloneRetry(env: Env, st: State)
    requires env == Env("ab", 2, Swapped, false)
    requires StateOk(env, st) && st.pos == 2 && st.maxpos == 2 && Key("X", 2) !in st.cache
    ensures var y := Eval(env, CallX, st, 1);
      y.Done? && !y.ok && y.st.pos == 2 && y.st.maxpos == 2
  {
    LiteralMatchIff("ab", 2, 2, "a", false);
    LiteralMatchIff("ab", 2, 2, "b", false);
    AltSteps(env, st, 0);
    CallSteps(env, st, 1);
  }

  /** Parsed alone, the second node succeeds. */
  lemma SecondNodeAloneSucceeds(env: Env, st0: State)
    requires env == Env("ab", 2, Swapped, false) && st0 == State(1, 1, map[], 0)
    ensures var p := ParseSpec(env, Body, "S", Some(2), st0, 2);
      p.ParseDone? && p.ok && p.tree.NonTerminal?
  {
    AloneCall(env, st0);
    var x := Eval(env, CallX, st0, 2);
    AloneRetry(env, x.st);
    var y := Eval(env, CallX, x.st, 1);
    RptRound(env, 1, x.nodes, st0, x.st, 1);
    RptRound(env, 0, [], st0, st0, 2);
    assert [] + x.nodes == x.nodes;
    assert Eval(env, Body, st0, 2) == Done(true, x.nodes, y.st);
  }

  /** One round of the `sub_parse` loop that does not stop it. */
  lemma LoopStep(c: string, legacy: bool, rules: Rules, name: string, nodes: seq<Node>, paths: seq<Trees.Path>,
                 i: nat, tree: Node, limit: int, st: State, ok: bool, results: seq<Node>, fuel: nat)
    requires |nodes| == |paths| && i < |nodes| && SubRuleName(name) in rules
    requires StateOk(Env(c, limit, rules, legacy), st) && Inside(c, nodes[i]) && paths[i] != []
    requires var s, e := nodes[i].span.startpos, nodes[i].span.endpos;
      ParseSpec(Env(c, e, rules, legacy), rules[SubRuleName(name)], name, Some(e), st.(pos := s, maxpos := s), fuel).ParseDone?
    ensures var s, e := nodes[i].span.startpos, nodes[i].span.endpos;
      var p := ParseSpec(Env(c, e, rules, legacy), rules[SubRuleName(name)], name, Some(e), st.(pos := s, maxpos := s), fuel);
      SubParseLoop(c, legacy, rules, name, nodes, paths, i, tree, limit, st, ok, results, fuel)
      == SubParseLoop(c, legacy, rules, name, nodes, paths, i + 1, Trees.ReplaceAt(tree, paths[i], p.tree), e, p.st,
                      ok && p.ok, results + [p.tree], fuel)
  {
  }

  /** As written, re-parsing both nodes of type S in "ab" fails on the second one. */
  lemma SubParseMemoLeaks(c: string, st: State)
    requires c == "ab" && st == State(2, 2, map[], 0)
    ensures var r := SubParseSpec(c, false, Table, map[], "S", Root, -1, st, 2);
      r.SubDone? && !r.ok && |r.results| == 2 && r.results[1].Failure?
  {
    SubParseSetup();
    assert Table[MainRuleName("S") := Table[SubRuleName("S")]] == Swapped;
    MemoLeakLoop(c, st);
  }

  /** The loop of the example above: the second node meets the first one's memo entry. */
  lemma MemoLeakLoop(c: string, st: State)
    requires c == "ab" && st == State(2, 2, map[], 0)
    ensures (SubParseSetup();
             var r := SubParseLoop(c, false, Swapped, "S", [NodeA, NodeB], [[0], [1]], 0, Root, -1, st, true, [], 2);
             r.SubDone? && !r.ok && |r.results| == 2 && r.results[1].Failure?)
  {
    SubParseSetup();
    assert Swapped[SubRuleName("S")] == Body;
    var s0 := State(0, 0, map[], 0);
    FirstNodeRecordsFailure(Env(c, 1, Swapped, false), s0);
    var p := ParseSpec(Env(c, 1, Swapped, false), Body, "S", Some(1), s0, 2);
    SecondNodeFailsOnMemo(Env(c, 2, Swapped, false), p.st);
    var q := ParseSpec(Env(c, 2, Swapped, false), Body, "S", Some(2), p.st, 2);
    var nodes := [NodeA, NodeB];
    var paths: seq<Trees.Path> := [[0], [1]];
    assert st.(pos := 0, maxpos := 0) == s0 && p.st.(pos := 1, maxpos := 1) == p.st;
    LoopStep(c, false, Swapped, "S", nodes, paths, 0, Root, -1, st, true, [], 2);
    var t1 := Trees.ReplaceAt(Root, [0], p.tree);
    LoopStep(c, false, Swapped, "S", nodes, paths, 1, t1, 1, p.st, true, [p.tree], 2);
    assert [] + [p.tree] == [p.tree];
  }

  /** One round of the fixed loop that does not stop it. */
  lemma FixedStep(c: string, legacy: bool, rules: Rules, name: string, nodes: seq<Node>, paths: seq<Trees.Path>,
                  i: nat, tree: Node, limit: int, st: State, ok: bool, results: seq<Node>, fuel: nat)
    requires |nodes| == |paths| && i < |nodes| && SubRuleName(name) in rules
    requires StateOk(Env(c, limit, rules, legacy), st) && Inside(c, nodes[i]) && paths[i] != []
    requires NodeAlone(c, legacy, rules, name, nodes[i], fuel).ParseDone?
    ensures var p := NodeAlone(c, legacy, rules, name, nodes[i], fuel);
      SubParseLoopFixed(c, legacy, rules, name, nodes, paths, i, tree, limit, st, ok, results, fuel)
      == SubParseLoopFixed(c, legacy, rules, name, nodes, paths, i + 1, Trees.ReplaceAt(tree, paths[i], p.tree),
                           nodes[i].span.endpos, p.st, ok && p.ok, results + [p.tree], fuel)
  {
  }

  /** Parsed with a fresh memo each, both nodes of type S in "ab" succeed. */
  lemma SubParseFixedSucceeds(c: string, st: State)
    requires c == "ab" && st == State(2, 2, map[], 0)
    ensures var r := SubParseSpecFixed(c, false, Table, map[], "S", Root, -1, st, 2);
      r.SubDone? && |r.results| == 2 && r.results[1].NonTerminal?
  {
    SubParseSetup();
    assert Table[MainRuleName("S") := Table[SubRuleName("S")]] == Swapped;
    assert Swapped[SubRuleName("S")] == Body;
    FirstNodeRecordsFailure(Env(c, 1, Swapped, false), State(0, 0, map[], 0));
    SecondNodeAloneSucceeds(Env(c, 2, Swapped, false), State(1, 1, map[], 0));
    var nodes := [NodeA, NodeB];
    var paths: seq<Trees.Path> := [[0], [1]];
    var pa := NodeAlone(c, false, Swapped, "S", NodeA, 2);
    var pb := NodeAlone(c, false, Swapped, "S", NodeB, 2);
    assert pa.ParseDone? && pb.ParseDone? && pb.tree.NonTerminal?;
    FixedStep(c, false, Swapped, "S", nodes, paths, 0, Root, -1, st, true, [], 2);
    var t1 := Trees.ReplaceAt(Root, [0], pa.tree);
    FixedStep(c, false, Swapped, "S", nodes, paths, 1, t1, 1, pa.st, pa.ok, [pa.tree], 2);
    assert [] + [pa.tree] == [pa.tree];
  }
}
