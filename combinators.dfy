/**
 * What `_seq`, `_sel` and `_rpt` of tacparser/baseparser.py answer, stated
 * over the runs of their operands rather than over the engine's recursion.
 *
 * A run lists the states the operands start in and the nodes each one
 * yields.  For each combinator one lemma gives the answer from any run that
 * stops where the combinator stops, and another says that such a run
 * exists, so together they determine the answer.
 */
module Combinators {
  import opened Nodes
  import opened Engine
  import EngineFacts

  /** The nodes of the elements or rounds, concatenated in order. */
  function Flatten(ns: seq<seq<Node>>): seq<Node>
  {
    if ns == [] then [] else Flatten(ns[..|ns| - 1]) + ns[|ns| - 1]
  }

  /**
   * A run of `xs[0..|ns|]` in which every element succeeds: element `j`
   * starts in `ss[j]`, yields `ns[j]` and leaves `ss[j + 1]`.
   */
  ghost predicate Succeeding(env: Env, xs: seq<Expr>, ss: seq<State>, ns: seq<seq<Node>>, fuel: nat)
  {
    |ss| == |ns| + 1 && |ns| <= |xs|
    && (forall j :: 0 <= j < |ss| ==> StateOk(env, ss[j]))
    && (forall j :: 0 <= j < |ns| ==> Eval(env, xs[j], ss[j], fuel) == Done(true, ns[j], ss[j + 1]))
  }

  /** The run goes as far as the operands succeed. */
  ghost predicate SucceedsToEnd(env: Env, xs: seq<Expr>, ss: seq<State>, ns: seq<seq<Node>>, fuel: nat)
    requires Succeeding(env, xs, ss, ns, fuel)
  {
    |ns| == |xs| || !(Eval(env, xs[|ns|], ss[|ns|], fuel).Done? && Eval(env, xs[|ns|], ss[|ns|], fuel).ok)
  }

  /** The invariant each step of a successful run keeps relative to the start. */
  ghost predicate Grown(env: Env, st: State, s: State, acc: seq<Node>)
  {
    StateOk(env, s) && AllBounded(acc, |env.contents|)
    && st.pos <= s.pos && st.maxpos <= s.maxpos && st.cache.Keys <= s.cache.Keys && st.nodenum <= s.nodenum
  }

  // ---------------------------------------------------------------------------
  // _seq

  /**
   * `_seq` over a run of successful elements from the cursor: when the run
   * covers every element, it succeeds with their nodes concatenated and the
   * last element's state; when the next element fails, it fails with the
   * cursor back at the start; when that element halts, so does `_seq`.
   */
  lemma SeqRun(env: Env, e: Expr, st: State, ss: seq<State>, ns: seq<seq<Node>>, fuel: nat)
    requires e.Seq? && StateOk(env, st) && Succeeding(env, e.xs, ss, ns, fuel) && ss[0] == st
    ensures |ns| == |e.xs| ==> Eval(env, e, st, fuel) == Done(true, Flatten(ns), ss[|ns|])
    ensures |ns| < |e.xs| ==>
      match Eval(env, e.xs[|ns|], ss[|ns|], fuel)
      case Stuck(h) => Eval(env, e, st, fuel) == Stuck(h)
      case Done(ok, _, t) => !ok ==> Eval(env, e, st, fuel) == Done(false, [], SetPos(t, st.pos))
  {
    var j := 0;
    while j < |ns|
      invariant 0 <= j <= |ns| && Grown(env, st, ss[j], Flatten(ns[..j]))
      invariant EvalSeq(env, e, j, Flatten(ns[..j]), st, ss[j], fuel) == Eval(env, e, st, fuel)
    {
      var acc := Flatten(ns[..j]);
      assert Eval(env, e.xs[j], ss[j], fuel) == Done(true, ns[j], ss[j + 1]);
      assert ns[..j + 1][..j] == ns[..j];
      EngineFacts.AllBoundedAppend(acc, ns[j], |env.contents|);
      assert EvalSeq(env, e, j, acc, st, ss[j], fuel) == EvalSeq(env, e, j + 1, acc + ns[j], st, ss[j + 1], fuel);
      j := j + 1;
    }
    assert ns[..|ns|] == ns;
  }

  /** From any state, the elements of a `_seq` succeed up to some point and no further. */
  lemma SeqRunExists(env: Env, xs: seq<Expr>, st: State, fuel: nat)
    requires StateOk(env, st)
    ensures exists ss, ns :: Succeeding(env, xs, ss, ns, fuel) && ss[0] == st && SucceedsToEnd(env, xs, ss, ns, fuel)
  {
    var ss, ns := [st], [];
    while |ns| < |xs| && Eval(env, xs[|ns|], ss[|ns|], fuel).Done? && Eval(env, xs[|ns|], ss[|ns|], fuel).ok
      invariant Succeeding(env, xs, ss, ns, fuel) && ss[0] == st
      decreases |xs| - |ns|
    {
      var r := Eval(env, xs[|ns|], ss[|ns|], fuel);
      ss, ns := ss + [r.st], ns + [r.nodes];
    }
    assert SucceedsToEnd(env, xs, ss, ns, fuel);
  }

  // ---------------------------------------------------------------------------
  // _sel

  /**
   * A run of `xs[0..|ss| - 1]` in which every alternative fails: each starts
   * in `ss[j]`, and the next starts where it left, with the cursor back at
   * `ss[0]`'s.
   */
  ghost predicate Failing(env: Env, xs: seq<Expr>, ss: seq<State>, fuel: nat)
  {
    1 <= |ss| <= |xs| + 1
    && (forall j :: 0 <= j < |ss| ==> StateOk(env, ss[j]))
    && (forall j :: 0 <= j < |ss| - 1 ==>
          Eval(env, xs[j], ss[j], fuel).Done? && !Eval(env, xs[j], ss[j], fuel).ok
          && ss[j + 1] == SetPos(Eval(env, xs[j], ss[j], fuel).st, ss[0].pos))
  }

  /** The run goes as far as the alternatives fail. */
  ghost predicate FailsToEnd(env: Env, xs: seq<Expr>, ss: seq<State>, fuel: nat)
    requires Failing(env, xs, ss, fuel)
  {
    var k := |ss| - 1;
    k == |xs| || !(Eval(env, xs[k], ss[k], fuel).Done? && !Eval(env, xs[k], ss[k], fuel).ok)
  }

  /**
   * `_sel` over a run of failing alternatives from the cursor: the first
   * alternative that succeeds gives the answer, nodes and state; when every
   * alternative fails, `_sel` fails with the last reset state; when an
   * alternative halts, so does `_sel`.
   */
  lemma SelRun(env: Env, e: Expr, st: State, ss: seq<State>, fuel: nat)
    requires e.Sel? && StateOk(env, st) && Failing(env, e.xs, ss, fuel) && ss[0] == st
    ensures |ss| - 1 == |e.xs| ==> Eval(env, e, st, fuel) == Done(false, [], ss[|ss| - 1]) && ss[|ss| - 1].pos == st.pos
    ensures |ss| - 1 < |e.xs| ==>
      match Eval(env, e.xs[|ss| - 1], ss[|ss| - 1], fuel)
      case Stuck(h) => Eval(env, e, st, fuel) == Stuck(h)
      case Done(ok, ns, t) => ok ==> Eval(env, e, st, fuel) == Done(true, ns, t)
  {
    var j := 0;
    while j < |ss| - 1
      invariant 0 <= j <= |ss| - 1 && ss[j].pos == st.pos
      invariant EvalSel(env, e, j, ss[j], fuel) == Eval(env, e, st, fuel)
    {
      j := j + 1;
    }
  }

  /** From any state, the alternatives of a `_sel` fail up to some point and no further. */
  lemma SelRunExists(env: Env, xs: seq<Expr>, st: State, fuel: nat)
    requires StateOk(env, st)
    ensures exists ss :: Failing(env, xs, ss, fuel) && ss[0] == st && FailsToEnd(env, xs, ss, fuel)
  {
    var ss := [st];
    while |ss| - 1 < |xs| && Eval(env, xs[|ss| - 1], ss[|ss| - 1], fuel).Done?
          && !Eval(env, xs[|ss| - 1], ss[|ss| - 1], fuel).ok
      invariant Failing(env, xs, ss, fuel) && ss[0] == st
      decreases |xs| - |ss|
    {
      var r := Eval(env, xs[|ss| - 1], ss[|ss| - 1], fuel);
      ss := ss + [SetPos(r.st, st.pos)];
    }
    assert FailsToEnd(env, xs, ss, fuel);
  }

  // ---------------------------------------------------------------------------
  // _rpt

  /**
   * `|ns|` successful rounds of `x`: round `j` starts in `ss[j]` with the
   * fuel left after `j` rounds, yields `ns[j]` and leaves `ss[j + 1]`.
   */
  ghost predicate Rounds(env: Env, x: Expr, ss: seq<State>, ns: seq<seq<Node>>, fuel: nat)
  {
    |ss| == |ns| + 1 && |ns| <= fuel && StateOk(env, ss[|ns|])
    && forall j :: 0 <= j < |ns| ==> RoundOk(env, x, ss, ns, fuel, j)
  }

  /** Round `j` of the run: it starts in a valid state and succeeds with `ns[j]`, leaving `ss[j + 1]`. */
  ghost predicate RoundOk(env: Env, x: Expr, ss: seq<State>, ns: seq<seq<Node>>, fuel: nat, j: nat)
  {
    j < |ns| && |ss| == |ns| + 1 && j <= fuel && StateOk(env, ss[j])
    && Eval(env, x, ss[j], fuel - j) == Done(true, ns[j], ss[j + 1])
  }

  /** A run of rounds extended by one more successful round. */
  lemma RoundsSnoc(env: Env, x: Expr, ss: seq<State>, ns: seq<seq<Node>>, fuel: nat, n1: seq<Node>, s1: State)
    requires Rounds(env, x, ss, ns, fuel) && |ns| < fuel
    requires Eval(env, x, ss[|ns|], fuel - |ns|) == Done(true, n1, s1)
    ensures Rounds(env, x, ss + [s1], ns + [n1], fuel)
  {
    forall j | 0 <= j < |ns| + 1
      ensures RoundOk(env, x, ss + [s1], ns + [n1], fuel, j)
    {
      if j < |ns| {
        RoundOkSnoc(env, x, ss, ns, fuel, j, n1, s1);
      } else {
        RoundOkLast(env, x, ss, ns, fuel, n1, s1);
      }
    }
  }

  /** An earlier round stays what it was when the run grows. */
  lemma RoundOkSnoc(env: Env, x: Expr, ss: seq<State>, ns: seq<seq<Node>>, fuel: nat, j: nat, n1: seq<Node>, s1: State)
    requires RoundOk(env, x, ss, ns, fuel, j)
    ensures RoundOk(env, x, ss + [s1], ns + [n1], fuel, j)
  {
    assert (ss + [s1])[j] == ss[j] && (ss + [s1])[j + 1] == ss[j + 1] && (ns + [n1])[j] == ns[j];
  }

  /** The new round is the one that succeeded from the last state. */
  lemma RoundOkLast(env: Env, x: Expr, ss: seq<State>, ns: seq<seq<Node>>, fuel: nat, n1: seq<Node>, s1: State)
    requires |ss| == |ns| + 1 && |ns| < fuel && StateOk(env, ss[|ns|])
    requires Eval(env, x, ss[|ns|], fuel - |ns|) == Done(true, n1, s1)
    ensures RoundOk(env, x, ss + [s1], ns + [n1], fuel, |ns|)
  {
    assert (ss + [s1])[|ns|] == ss[|ns|] && (ss + [s1])[|ns| + 1] == s1 && (ns + [n1])[|ns|] == n1;
  }

  /** The rounds go on until the maximum, the fuel or a round that does not succeed. */
  ghost predicate RoundsToEnd(env: Env, e: Expr, ss: seq<State>, ns: seq<seq<Node>>, fuel: nat)
    requires e.Rpt? && Rounds(env, e.e, ss, ns, fuel)
  {
    var k := |ns|;
    (e.max >= 0 && k == e.max) || k == fuel
    || !(Eval(env, e.e, ss[k], fuel - k).Done? && Eval(env, e.e, ss[k], fuel - k).ok)
  }

  /**
   * `_rpt(x, min, max)` over `k` successful rounds from the cursor: after
   * `max` rounds it succeeds with the rounds' nodes concatenated; at the
   * first failing round it succeeds with them when `k >= min` and fails,
   * back at the start, when fewer than `min` rounds succeeded; a halting
   * round halts it; and a loop still going when the fuel is spent is
   * `LoopOutOfFuel`.
   */
  lemma RptRun(env: Env, e: Expr, st: State, ss: seq<State>, ns: seq<seq<Node>>, fuel: nat)
    requires e.Rpt? && StateOk(env, st) && Rounds(env, e.e, ss, ns, fuel) && ss[0] == st
    requires e.max < 0 || |ns| <= e.max
    ensures e.max >= 0 && |ns| == e.max ==> Eval(env, e, st, fuel) == Done(true, Flatten(ns), ss[|ns|])
    ensures (e.max < 0 || |ns| < e.max) && |ns| == fuel ==> Eval(env, e, st, fuel) == Stuck(LoopOutOfFuel)
    ensures (e.max < 0 || |ns| < e.max) && |ns| < fuel ==>
      match Eval(env, e.e, ss[|ns|], fuel - |ns|)
      case Stuck(h) => Eval(env, e, st, fuel) == Stuck(h)
      case Done(ok, _, t) =>
        !ok ==> Eval(env, e, st, fuel)
                == if |ns| >= e.min then Done(true, Flatten(ns), t) else Done(false, [], SetPos(t, st.pos))
  {
    RptAfterRounds(env, e, st, ss, ns, fuel);
  }

  /** Replaying the successful rounds brings `_rpt` to round `|ns|` with their nodes gathered. */
  lemma RptAfterRounds(env: Env, e: Expr, st: State, ss: seq<State>, ns: seq<seq<Node>>, fuel: nat)
    requires e.Rpt? && StateOk(env, st) && Rounds(env, e.e, ss, ns, fuel) && ss[0] == st
    requires e.max < 0 || |ns| <= e.max
    ensures Grown(env, st, ss[|ns|], Flatten(ns))
    ensures EvalRpt(env, e, |ns|, Flatten(ns), st, ss[|ns|], fuel - |ns|) == Eval(env, e, st, fuel)
  {
    RptStart(env, e, st, fuel);
    RptFrom(env, e, st, ss, ns, fuel, 0, [], fuel, Eval(env, e, st, fuel));
    GatherAll(ns);
  }

  /** What the loop holds after the rounds from `j` on, starting from `acc`. */
  function Gather(acc: seq<Node>, ns: seq<seq<Node>>, j: nat): seq<Node>
    decreases |ns| - j
  {
    if j >= |ns| then acc else Gather(acc + ns[j], ns, j + 1)
  }

  /** Gathering every round from nothing gives the rounds' nodes concatenated. */
  lemma GatherAll(ns: seq<seq<Node>>)
    ensures Gather([], ns, 0) == Flatten(ns)
  {
    GatherFrom(ns, 0);
    assert ns[..0] == [] && ns[..|ns|] == ns;
  }

  /** Gathering from the flattened first `j` rounds finishes the whole concatenation. */
  lemma {:induction false} GatherFrom(ns: seq<seq<Node>>, j: nat)
    requires j <= |ns|
    ensures Gather(Flatten(ns[..j]), ns, j) == Flatten(ns)
    decreases |ns| - j
  {
    if j == |ns| {
      assert ns[..j] == ns;
    } else {
      assert ns[..j + 1][..j] == ns[..j];
      GatherFrom(ns, j + 1);
    }
  }

  /**
   * The rounds from `j` on, replayed one by one: the loop holds `acc` and
   * the fuel `f` at round `j`, and `r` is what it answers from there.
   */
  lemma RptFrom(env: Env, e: Expr, st: State, ss: seq<State>, ns: seq<seq<Node>>, fuel: nat,
                j: nat, acc: seq<Node>, f: nat, r: Res)
    requires e.Rpt? && StateOk(env, st) && Rounds(env, e.e, ss, ns, fuel)
    requires e.max < 0 || |ns| <= e.max
    requires j <= |ns| && f == fuel - j && Grown(env, st, ss[j], acc)
    requires EvalRpt(env, e, j, acc, st, ss[j], f) == r
    ensures Grown(env, st, ss[|ns|], Gather(acc, ns, j))
    ensures EvalRpt(env, e, |ns|, Gather(acc, ns, j), st, ss[|ns|], fuel - |ns|) == r
    decreases |ns| - j
  {
    if j < |ns| {
      RoundStep(env, e, st, ss, ns, fuel, j, acc, f);
      RptFrom(env, e, st, ss, ns, fuel, j + 1, acc + ns[j], f - 1, r);
    }
  }

  /** Round `j` of the run, taken by the repetition loop. */
  lemma RoundStep(env: Env, e: Expr, st: State, ss: seq<State>, ns: seq<seq<Node>>, fuel: nat, j: nat,
                  acc: seq<Node>, f: nat)
    requires e.Rpt? && StateOk(env, st) && Rounds(env, e.e, ss, ns, fuel)
    requires (e.max < 0 || |ns| <= e.max) && j < |ns| && f == fuel - j && Grown(env, st, ss[j], acc)
    ensures Grown(env, st, ss[j + 1], acc + ns[j])
    ensures EvalRpt(env, e, j, acc, st, ss[j], f) == EvalRpt(env, e, j + 1, acc + ns[j], st, ss[j + 1], f - 1)
    ensures Gather(acc, ns, j) == Gather(acc + ns[j], ns, j + 1)
  {
    assert RoundOk(env, e.e, ss, ns, fuel, j);
    RptStep(env, e, j, acc, st, ss[j], f, ns[j], ss[j + 1]);
  }

  /** `_rpt` starts at round 0 with nothing gathered. */
  lemma RptStart(env: Env, e: Expr, st: State, fuel: nat)
    requires e.Rpt? && StateOk(env, st)
    ensures Eval(env, e, st, fuel) == EvalRpt(env, e, 0, [], st, st, fuel)
  {
  }

  /** One successful round: `_rpt` goes on with its nodes appended and one unit of fuel less. */
  lemma RptStep(env: Env, e: Expr, i: nat, acc: seq<Node>, st: State, s: State, f: nat, ns: seq<Node>, s1: State)
    requires e.Rpt? && StateOk(env, st) && Grown(env, st, s, acc)
    requires (e.max < 0 || i < e.max) && f > 0 && Eval(env, e.e, s, f) == Done(true, ns, s1)
    ensures Grown(env, st, s1, acc + ns)
    ensures EvalRpt(env, e, i, acc, st, s, f) == EvalRpt(env, e, i + 1, acc + ns, st, s1, f - 1)
  {
    EngineFacts.AllBoundedAppend(acc, ns, |env.contents|);
  }

  /** One round of the repetition loop, whichever way the round goes. */
  lemma RptRound(env: Env, e: Expr, i: nat, acc: seq<Node>, st: State, s: State, f: nat)
    requires e.Rpt? && StateOk(env, st) && Grown(env, st, s, acc) && (e.max < 0 || i < e.max) && f > 0
    ensures match Eval(env, e.e, s, f)
      case Stuck(h) => EvalRpt(env, e, i, acc, st, s, f) == Stuck(h)
      case Done(ok, ns, t) =>
        if !ok then
          EvalRpt(env, e, i, acc, st, s, f) == if i >= e.min then Done(true, acc, t) else Done(false, [], SetPos(t, st.pos))
        else
          Grown(env, st, t, acc + ns) && EvalRpt(env, e, i, acc, st, s, f) == EvalRpt(env, e, i + 1, acc + ns, st, t, f - 1)
  {
    var r := Eval(env, e.e, s, f);
    if r.Done? && r.ok {
      RptStep(env, e, i, acc, st, s, f, r.nodes, r.st);
    }
  }

  /** From any state, the rounds of a `_rpt` go on until the maximum, the fuel or a round that does not succeed. */
  lemma RptRunExists(env: Env, e: Expr, st: State, fuel: nat)
    requires e.Rpt? && StateOk(env, st)
    ensures exists ss, ns :: Rounds(env, e.e, ss, ns, fuel) && ss[0] == st && (e.max < 0 || |ns| <= e.max)
                             && RoundsToEnd(env, e, ss, ns, fuel)
  {
    var ss, ns := [st], [];
    while !((e.max >= 0 && |ns| >= e.max) || |ns| == fuel)
          && Eval(env, e.e, ss[|ns|], fuel - |ns|).Done? && Eval(env, e.e, ss[|ns|], fuel - |ns|).ok
      invariant Rounds(env, e.e, ss, ns, fuel) && ss[0] == st && (e.max < 0 || |ns| <= e.max)
      decreases fuel - |ns|
    {
      var r := Eval(env, e.e, ss[|ns|], fuel - |ns|);
      RoundsSnoc(env, e.e, ss, ns, fuel, r.nodes, r.st);
      ss, ns := ss + [r.st], ns + [r.nodes];
    }
    assert RoundsToEnd(env, e, ss, ns, fuel);
  }
}
