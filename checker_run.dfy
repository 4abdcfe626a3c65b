/**
 * The `ParserChecker` object of tacparser/parsergenerator.py: two
 * dictionaries the left-recursion check updates in place, the unresolved
 * definitions (`check_def_dic`) and the resolved ones (`defchecked`). Each
 * method is proved against the functions of module Checker, so the
 * properties proved there carry over to the object.
 *
 * Two flags fixed at construction choose the reading: with `fixAnd` the
 * &-branch matches the type name the grammar gives ("AndPrefix") instead
 * of "Andprefix", and with `withRoot` the root definition is registered
 * with the others.  Both false is the code as written.
 */
module CheckerRun {
  import opened Text
  import opened Nodes
  import opened Checker

  class ParserChecker {
    /** `check_def_dic`: the definitions not yet resolved, in insertion order. */
    var checkDefDic: Dict
    /** `defchecked`: the resolved definitions and their values. */
    var defchecked: map<string, int>
    /** The &-branch tests the grammar's "AndPrefix" rather than the source's "Andprefix". */
    const fixAnd: bool
    /** The rule under RootDefinition is registered too. */
    const withRoot: bool

    constructor(fixAnd: bool, withRoot: bool)
      ensures checkDefDic == [] && defchecked == map[]
      ensures this.fixAnd == fixAnd && this.withRoot == withRoot
    {
      checkDefDic := [];
      defchecked := map[];
      this.fixAnd := fixAnd;
      this.withRoot := withRoot;
    }

    /** The first loop of a round: every definition that evaluates is recorded; answers `chg_chk`. */
    method ResolveAll() returns (chg: bool)
      modifies this
      ensures checkDefDic == old(checkDefDic)
      ensures defchecked == Resolved(old(checkDefDic), old(defchecked))
      ensures chg == Changed(checkDefDic)
    {
      var d := checkDefDic;
      chg := false;
      var i := 0;
      while i < |d|
        invariant 0 <= i <= |d| && checkDefDic == d
        invariant defchecked == Resolved(d[..i], old(defchecked))
        invariant chg <==> exists j :: 0 <= j < i && EvalDef(d[j].1).Some?
      {
        assert d[..i + 1][..i] == d[..i];
        var value := EvalDef(d[i].1);
        if value.Some? {
          defchecked := defchecked[d[i].0 := value.value];
          chg := true;
        }
        i := i + 1;
      }
      assert d[..i] == d;
    }

    /** The second loop: the resolved names leave `check_def_dic`, the others keep their order. */
    method RemoveChecked()
      modifies this
      ensures defchecked == old(defchecked)
      ensures checkDefDic == Unchecked(old(checkDefDic), defchecked)
    {
      var d := checkDefDic;
      var kept: Dict := [];
      var i := 0;
      while i < |d|
        invariant 0 <= i <= |d|
        invariant kept == Unchecked(d[..i], defchecked)
      {
        assert d[..i + 1][..i] == d[..i];
        if d[i].0 !in defchecked {
          kept := kept + [d[i]];
        }
        i := i + 1;
      }
      assert d[..i] == d;
      checkDefDic := kept;
    }

    /** The third loop: the resolved values are substituted into each remaining definition. */
    method SubstituteAll()
      modifies this
      ensures defchecked == old(defchecked)
      ensures checkDefDic == Substituted(old(checkDefDic), defchecked)
    {
      var i := 0;
      while i < |checkDefDic|
        invariant 0 <= i <= |checkDefDic| == |old(checkDefDic)| && defchecked == old(defchecked)
        invariant forall j :: 0 <= j < i ==> checkDefDic[j] == (old(checkDefDic)[j].0, Assign(old(checkDefDic)[j].1, defchecked))
        invariant forall j :: i <= j < |checkDefDic| ==> checkDefDic[j] == old(checkDefDic)[j]
      {
        checkDefDic := checkDefDic[i := (checkDefDic[i].0, Assign(checkDefDic[i].1, defchecked))];
        i := i + 1;
      }
    }

    /** The inner `while chg_chk` loop: rounds until one resolves nothing. */
    method SettleAll()
      modifies this
      ensures (checkDefDic, defchecked) == Settle(old(checkDefDic), old(defchecked))
    {
      ghost var target := Settle(checkDefDic, defchecked);
      var chg := true;
      while chg
        invariant chg ==> Settle(checkDefDic, defchecked) == target
        invariant !chg ==> (checkDefDic, defchecked) == target
        decreases |checkDefDic| + (if chg then 1 else 0)
      {
        ghost var d0, c0 := checkDefDic, defchecked;
        chg := ResolveAll();
        RemoveChecked();
        SubstituteAll();
        assert (checkDefDic, defchecked) == Round(d0, c0);
        RoundShrinks(d0, c0);
      }
    }

    /** `find_left_recursive_loop_list`: the first cycle of first calls from the smallest name. */
    method FindLoop() returns (r: Result<seq<string>, CheckError>)
      requires checkDefDic != []
      ensures r == FindLoopSpec(checkDefDic)
    {
      var d := checkDefDic;
      var loop: seq<string> := [];
      var name := Smallest(Keys(d));
      while name !in loop
        invariant Walk(d, name, loop) == FindLoopSpec(d)
        decreases KeySet(d) - ListSet(loop)
      {
        var def := Lookup(d, name);
        if def.None? {
          return Err(KeyMissing(name));
        }
        var next := SearchUnresolve(def.value);
        if next.None? {
          return Err(SearchFailed("!Unexpected Error! @search_unresolve_call " + name + ": " + Repr(def.value) + " -> None"));
        }
        LookupInKeys(d, name);
        assert name in KeySet(d) - ListSet(loop);
        assert name !in KeySet(d) - ListSet(loop + [name]);
        loop := loop + [name];
        name := next.value;
      }
      loop := loop + [name];
      return Ok(loop[IndexOf(loop, name)..]);
    }

    /** The registration loop of `check_left_recursion`: each definition's abstraction under its name. */
    method Register(defs: seq<Node>) returns (r: Result<(), CheckError>)
      modifies this
      ensures defchecked == old(defchecked)
      ensures r.Ok? <==> Registered(defs, fixAnd, old(checkDefDic)).Ok?
      ensures r.Ok? ==> checkDefDic == Registered(defs, fixAnd, old(checkDefDic)).value
      ensures r.Err? ==> r.error == Registered(defs, fixAnd, old(checkDefDic)).error
    {
      var i := 0;
      while i < |defs|
        invariant 0 <= i <= |defs| && defchecked == old(defchecked)
        invariant Registered(defs[i..], fixAnd, checkDefDic) == Registered(defs, fixAnd, old(checkDefDic))
      {
        assert defs[i..][1..] == defs[i + 1..];
        var exprs := Children(defs[i], "DefinitionExpression");
        if exprs.Err? {
          return Err(exprs.error);
        }
        var chk := Abstract(exprs.value[0], fixAnd);
        if chk.None? {
          return Err(NoAbstraction);
        }
        var ids := Children(defs[i], "DefinitionIdentifier");
        if ids.Err? {
          return Err(ids.error);
        }
        checkDefDic := Put(checkDefDic, Str(ids.value[0], NoSpacing), chk.value);
        i := i + 1;
      }
      return Ok(());
    }

    /** `check_left_recursion`: the loop reports, or the exception the check raises. */
    method CheckLeftRecursion(tree: Node) returns (r: Result<seq<string>, CheckError>)
      modifies this
      ensures r == LeftRecursionFrom(tree, fixAnd, withRoot, old(checkDefDic), old(defchecked))
    {
      if Type(tree) == "ExPeg" {
        var reg := Register(CheckedDefinitions(tree, withRoot));
        if reg.Err? {
          return Err(reg.error);
        }
      }
      ghost var target := LeftRecursionLoop(checkDefDic, defchecked, 0, []);
      var count: nat := 0;
      var msgs: seq<string> := [];
      while true
        invariant LeftRecursionLoop(checkDefDic, defchecked, count, msgs) == target
        decreases Measure(checkDefDic)
      {
        SettleAll();
        if count > 0 && count == |checkDefDic| {
          return Ok(msgs + [CantFindMessage(checkDefDic)]);
        }
        if |checkDefDic| == 0 {
          return Ok(msgs);
        }
        var loop := FindLoop();
        if loop.Err? {
          return Err(loop.error);
        }
        FindLoopIsCycle(checkDefDic);
        ForcedShrinksNext(checkDefDic, loop.value);
        checkDefDic := Put(checkDefDic, loop.value[0], Len(1));
        msgs := msgs + [LoopMessage(loop.value)];
        count := |checkDefDic|;
      }
    }

    /**
     * `check_tree`: a failure node raises ParseException, the definition
     * messages come first, and the left-recursion check runs only when there
     * are none. On a fresh checker this is Checker.CheckTree.
     */
    method CheckTree(tree: Node) returns (v: Verdict)
      modifies this
      ensures old(checkDefDic) == [] && old(defchecked) == map[] ==> v == Checker.CheckTree(tree, fixAnd, withRoot)
      ensures v.ParseError? <==> tree.Failure?
    {
      if tree.Failure? {
        return ParseError(tree.termstr);
      }
      var defs := CheckDefinition(tree);
      if defs.Err? {
        return Raised(defs.error);
      }
      if defs.value != [] {
        return CheckFailed(defs.value);
      }
      var lr := CheckLeftRecursion(tree);
      if lr.Err? {
        return Raised(lr.error);
      }
      if lr.value != [] {
        return CheckFailed(lr.value);
      }
      return Passed;
    }
  }
}
