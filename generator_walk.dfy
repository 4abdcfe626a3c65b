/**
 * Properties of the generator's walk: the generator only ever adds to its
 * lists and to its table of compiled patterns, and a definition's body
 * names only patterns its own method has compiled, so the `__regdict`
 * lookup of `travel_generate_file` never raises KeyError inside
 * `get_defstring`.
 */
module GeneratorWalk {
  import opened Text
  import opened Nodes
  import opened Generator

  // ---------------------------------------------------------------------------
  // The lists are only appended to, the pattern table only gains keys

  predicate Grows(a: GenState, b: GenState)
  {
    a.definitions <= b.definitions && a.subDefinitions <= b.subDefinitions && a.regdict.Keys <= b.regdict.Keys
  }

  lemma GrowsTrans(a: GenState, b: GenState, c: GenState)
    requires Grows(a, b) && Grows(b, c)
    ensures Grows(a, c)
  {
  }

  lemma {:induction false} RegexDefsGrows(regs: seq<Node>, defname: string, level: nat, i: nat, st: GenState)
    requires RegexDefs(regs, defname, level, i, st).Ok?
    ensures Grows(st, RegexDefs(regs, defname, level, i, st).value.1)
    decreases |regs| - i
  {
    if i < |regs| {
      var strreg := RegValue(regs[i]).value;
      var next := st.(regdict := st.regdict[strreg := "_reg_" + defname + NatToString(i)]);
      RegexDefsGrows(regs, defname, level, i + 1, next);
      GrowsTrans(st, next, RegexDefs(regs, defname, level, i, st).value.1);
    }
  }

  /** `travel_generate_file` never removes a recorded definition name or compiled pattern. */
  lemma {:induction false} TravelGrows(n: Node, level: nat, st: GenState)
    requires Travel(n, level, st).Ok?
    ensures Grows(st, Travel(n, level, st).value.1)
    decreases n, 2
  {
    if n.NonTerminal? || n.Reconstructed? {
      var b := GenBranchOf(n.typ);
      if b.Grammar? || b.Other? {
        TravelAllGrows(n.children, if b.Grammar? then 4 else level, st);
      } else if b.RootDef? || b.Def? || b.MacroDef? || b.SubDef? {
        DefinitionTextGrows(n, b, level, st);
      } else if b.Alternatives? || b.Sequence? || b.Wrapped? || b.Repeat? {
        CombinatorTextGrows(n, b, level, st);
      }
    }
  }

  lemma {:induction false} DefinitionTextGrows(n: Node, b: GenBranch, level: nat, st: GenState)
    requires n.NonTerminal? || n.Reconstructed?
    requires b.RootDef? || b.Def? || b.MacroDef? || b.SubDef?
    requires DefinitionText(n, b, level, st).Ok?
    ensures Grows(st, DefinitionText(n, b, level, st).value.1)
    decreases n, 1
  {
    if b.RootDef? {
      var name := TextOf(Search(n, "DefinitionIdentifier", false)[0], NoSpacing).value;
      TravelAllGrows(n.children, level, st.(rootname := name));
    } else {
      var ids := FilterType(n.children, if b.MacroDef? then "MacroIdentifier" else "DefinitionIdentifier");
      var name := TextOf(ids[0], NoSpacing).value;
      if b.Def? {
        var st' := st.(definitions := st.definitions + [name]);
        DefStringGrows(n, RuleName("p_", name), level, st');
        GrowsTrans(st, st', DefinitionText(n, b, level, st).value.1);
      } else if b.MacroDef? {
        DefStringGrows(n, RuleName("t_", name), level, st);
      } else {
        DefStringGrows(n, RuleName("s_", name), level, st);
      }
    }
  }

  lemma {:induction false} CombinatorTextGrows(n: Node, b: GenBranch, level: nat, st: GenState)
    requires n.NonTerminal? || n.Reconstructed?
    requires b.Alternatives? || b.Sequence? || b.Wrapped? || b.Repeat?
    requires CombinatorText(n, b, level, st).Ok?
    ensures Grows(st, CombinatorText(n, b, level, st).value.1)
    decreases n, 1
  {
    if b.Alternatives? {
      TravelSequencesGrows(n.children, level + 10, st);
    } else {
      TravelAllGrows(n.children, level + 10, st);
    }
  }

  lemma {:induction false} TravelAllGrows(ns: seq<Node>, level: nat, st: GenState)
    requires TravelAll(ns, level, st).Ok?
    ensures Grows(st, TravelAll(ns, level, st).value.1)
    decreases ns
  {
    if ns != [] {
      var h := Travel(ns[0], level, st).value;
      TravelGrows(ns[0], level, st);
      TravelAllGrows(ns[1..], level, h.1);
      GrowsTrans(st, h.1, TravelAll(ns, level, st).value.1);
    }
  }

  lemma {:induction false} TravelSequencesGrows(ns: seq<Node>, level: nat, st: GenState)
    requires TravelSequences(ns, level, st).Ok?
    ensures Grows(st, TravelSequences(ns, level, st).value.1)
    decreases ns
  {
    if ns != [] {
      if Type(ns[0]) == "Sequence" || Type(ns[0]) == "MacroSequence" {
        var h := Travel(ns[0], level, st).value;
        TravelGrows(ns[0], level, st);
        TravelSequencesGrows(ns[1..], level, h.1);
        GrowsTrans(st, h.1, TravelSequences(ns, level, st).value.1);
      } else {
        TravelSequencesGrows(ns[1..], level, st);
      }
    }
  }

  lemma {:induction false} DefStringGrows(n: Node, defname: string, level: nat, st: GenState)
    requires n.NonTerminal? || n.Reconstructed?
    requires DefString(n, defname, level, st).Ok?
    ensures Grows(st, DefString(n, defname, level, st).value.1)
    decreases n, 0
  {
    var regs := RegexDefs(Search(n, "RegularExp", false), defname, level, 0, st).value;
    RegexDefsGrows(Search(n, "RegularExp", false), defname, level, 0, st);
    var exprs := FilterType(n.children, "DefinitionExpression");
    var defnode := if exprs != [] then exprs else FilterType(n.children, "MacroExpression");
    assert defnode[0] in n.children;
    TravelGrows(defnode[0], level + 11, regs.1);
    GrowsTrans(st, regs.1, DefString(n, defname, level, st).value.1);
  }

  /** A definition appends its name to `__definition` and a sub-definition to `__sub_definition`. */
  lemma DefinitionRecorded(n: Node, level: nat, st: GenState)
    requires n.NonTerminal? || n.Reconstructed?
    requires GenBranchOf(n.typ).Def? || GenBranchOf(n.typ).SubDef?
    requires DefinitionText(n, GenBranchOf(n.typ), level, st).Ok?
    ensures var ids := FilterType(n.children, "DefinitionIdentifier");
            var after := DefinitionText(n, GenBranchOf(n.typ), level, st).value.1;
            ids != [] && TextOf(ids[0], NoSpacing).Ok?
            && (GenBranchOf(n.typ).Def? ==> st.definitions + [TextOf(ids[0], NoSpacing).value] <= after.definitions)
            && (GenBranchOf(n.typ).SubDef? ==>
                  && after.subDefinitions != []
                  && st.subDefinitions <= after.subDefinitions[..|after.subDefinitions| - 1]
                  && after.subDefinitions[|after.subDefinitions| - 1] == TextOf(ids[0], NoSpacing).value)
  {
    var b := GenBranchOf(n.typ);
    var ids := FilterType(n.children, "DefinitionIdentifier");
    var name := TextOf(ids[0], NoSpacing).value;
    if b.Def? {
      DefStringGrows(n, RuleName("p_", name), level, st.(definitions := st.definitions + [name]));
    } else {
      DefStringGrows(n, RuleName("s_", name), level, st);
      var r := DefString(n, RuleName("s_", name), level, st).value;
      assert (r.1.subDefinitions + [name])[..|r.1.subDefinitions|] == r.1.subDefinitions;
    }
  }

  // ---------------------------------------------------------------------------
  // Every pattern a definition's body uses is compiled before the body is walked

  /** Every pattern of `regs` that has a value is a key of the table. */
  predicate Compiled(regs: seq<Node>, st: GenState)
  {
    forall r :: r in regs && RegValue(r).Ok? ==> RegValue(r).value in st.regdict
  }

  /** The patterns `search_node("RegularExp")` finds below `n` are compiled. */
  predicate PatternsCompiled(n: Node, st: GenState)
  {
    IsNonTerminal(n) ==> Compiled(Search(n, "RegularExp", false), st)
  }

  predicate NoKeyError<T>(r: Result<T, GenError>)
  {
    r.Ok? || !r.error.KeyError?
  }

  lemma CompiledGrows(n: Node, st: GenState, st': GenState)
    requires PatternsCompiled(n, st) && Grows(st, st')
    ensures PatternsCompiled(n, st')
  {
  }

  lemma {:induction false} SearchKidsHas(ns: seq<Node>, t: string, i: nat, x: Node)
    requires i < |ns| && IsNonTerminal(ns[i]) && x in Search(ns[i], t, false)
    ensures x in SearchKids(ns, t, false)
  {
    if i > 0 {
      SearchKidsHas(ns[1..], t, i - 1, x);
    }
  }

  /** Below a node that is not itself a pattern, each child's patterns are among the node's. */
  lemma ChildPatterns(n: Node, st: GenState)
    requires IsNonTerminal(n) && Type(n) != "RegularExp" && PatternsCompiled(n, st)
    ensures forall i :: 0 <= i < |n.children| ==> PatternsCompiled(n.children[i], st)
  {
    forall i | 0 <= i < |n.children| && IsNonTerminal(n.children[i])
      ensures Compiled(Search(n.children[i], "RegularExp", false), st)
    {
      forall x | x in Search(n.children[i], "RegularExp", false) ensures x in Search(n, "RegularExp", false) {
        SearchKidsHas(n.children, "RegularExp", i, x);
      }
    }
  }

  lemma {:induction false} RegexDefsCompiles(regs: seq<Node>, defname: string, level: nat, i: nat, st: GenState)
    requires RegexDefs(regs, defname, level, i, st).Ok?
    ensures forall j :: i <= j < |regs| ==> RegValue(regs[j]).Ok?
                                            && RegValue(regs[j]).value in RegexDefs(regs, defname, level, i, st).value.1.regdict
    decreases |regs| - i
  {
    if i < |regs| {
      var strreg := RegValue(regs[i]).value;
      var next := st.(regdict := st.regdict[strreg := "_reg_" + defname + NatToString(i)]);
      RegexDefsCompiles(regs, defname, level, i + 1, next);
      RegexDefsGrows(regs, defname, level, i + 1, next);
    }
  }

  /** The pattern loop of `get_defstring` compiles every pattern it is given. */
  lemma RegexDefsCompileAll(regs: seq<Node>, defname: string, level: nat, st: GenState)
    requires RegexDefs(regs, defname, level, 0, st).Ok?
    ensures Compiled(regs, RegexDefs(regs, defname, level, 0, st).value.1)
  {
    RegexDefsCompiles(regs, defname, level, 0, st);
    forall r | r in regs && RegValue(r).Ok? ensures RegValue(r).value in RegexDefs(regs, defname, level, 0, st).value.1.regdict {
      var j :| 0 <= j < |regs| && regs[j] == r;
    }
  }

  /** Only a RegularExp node takes the pattern branch. */
  lemma PatternBranch(t: string)
    ensures GenBranchOf(t).Regex? <==> t == "RegularExp"
  {
  }

  /** A leaf call: a pattern is looked up, the other leaves fail only without text. */
  lemma LeafFindsPattern(n: Node, b: GenBranch, st: GenState)
    requires n.NonTerminal? || n.Reconstructed?
    requires b.Regex? ==> Type(n) == "RegularExp" && PatternsCompiled(n, st)
    ensures NoKeyError(LeafCall(n, b, st))
  {
    if b.Regex? {
      assert Search(n, "RegularExp", false) == [n];
    }
  }

  lemma {:induction false} RegexDefsNoKeyError(regs: seq<Node>, defname: string, level: nat, i: nat, st: GenState)
    ensures NoKeyError(RegexDefs(regs, defname, level, i, st))
    decreases |regs| - i
  {
    if i < |regs| && RegValue(regs[i]).Ok? {
      var strreg := RegValue(regs[i]).value;
      RegexDefsNoKeyError(regs, defname, level, i + 1, st.(regdict := st.regdict[strreg := "_reg_" + defname + NatToString(i)]));
    }
  }

  /** The walk meets only patterns already in the table, so its lookup never fails. */
  lemma {:induction false} TravelFindsPatterns(n: Node, level: nat, st: GenState)
    requires PatternsCompiled(n, st)
    ensures NoKeyError(Travel(n, level, st))
    decreases n, 2
  {
    if n.NonTerminal? || n.Reconstructed? {
      var b := GenBranchOf(n.typ);
      PatternBranch(n.typ);
      if b.Regex? {
        LeafFindsPattern(n, b, st);
      } else {
        ChildPatterns(n, st);
        if b.Grammar? || b.Other? {
          TravelAllFindsPatterns(n.children, if b.Grammar? then 4 else level, st);
        } else if b.RootDef? || b.Def? || b.MacroDef? || b.SubDef? {
          DefinitionTextFindsPatterns(n, b, level, st);
        } else if b.Alternatives? || b.Sequence? || b.Wrapped? || b.Repeat? {
          CombinatorTextFindsPatterns(n, b, level, st);
        } else {
          LeafFindsPattern(n, b, st);
        }
      }
    }
  }

  lemma {:induction false} DefinitionTextFindsPatterns(n: Node, b: GenBranch, level: nat, st: GenState)
    requires n.NonTerminal? || n.Reconstructed?
    requires b.RootDef? || b.Def? || b.MacroDef? || b.SubDef?
    requires Type(n) != "RegularExp"
    requires forall i :: 0 <= i < |n.children| ==> PatternsCompiled(n.children[i], st)
    ensures NoKeyError(DefinitionText(n, b, level, st))
    decreases n, 1
  {
    if b.RootDef? {
      var ids := Search(n, "DefinitionIdentifier", false);
      if ids != [] && TextOf(ids[0], NoSpacing).Ok? {
        var st' := st.(rootname := TextOf(ids[0], NoSpacing).value);
        TravelAllFindsPatterns(n.children, level, st');
      }
    } else {
      var ids := FilterType(n.children, if b.MacroDef? then "MacroIdentifier" else "DefinitionIdentifier");
      if ids != [] && TextOf(ids[0], NoSpacing).Ok? {
        var name := TextOf(ids[0], NoSpacing).value;
        if b.Def? {
          DefStringFindsPatterns(n, RuleName("p_", name), level, st.(definitions := st.definitions + [name]));
        } else if b.MacroDef? {
          DefStringFindsPatterns(n, RuleName("t_", name), level, st);
        } else {
          DefStringFindsPatterns(n, RuleName("s_", name), level, st);
        }
      }
    }
  }

  lemma {:induction false} CombinatorTextFindsPatterns(n: Node, b: GenBranch, level: nat, st: GenState)
    requires n.NonTerminal? || n.Reconstructed?
    requires b.Alternatives? || b.Sequence? || b.Wrapped? || b.Repeat?
    requires forall i :: 0 <= i < |n.children| ==> PatternsCompiled(n.children[i], st)
    ensures NoKeyError(CombinatorText(n, b, level, st))
    decreases n, 1
  {
    if b.Alternatives? {
      TravelSequencesFindsPatterns(n.children, level + 10, st);
    } else {
      TravelAllFindsPatterns(n.children, level + 10, st);
    }
  }

  lemma {:induction false} TravelAllFindsPatterns(ns: seq<Node>, level: nat, st: GenState)
    requires forall i :: 0 <= i < |ns| ==> PatternsCompiled(ns[i], st)
    ensures NoKeyError(TravelAll(ns, level, st))
    decreases ns
  {
    if ns != [] {
      TravelFindsPatterns(ns[0], level, st);
      if Travel(ns[0], level, st).Ok? {
        var h := Travel(ns[0], level, st).value;
        TravelGrows(ns[0], level, st);
        forall i | 0 <= i < |ns[1..]| ensures PatternsCompiled(ns[1..][i], h.1) {
          CompiledGrows(ns[i + 1], st, h.1);
        }
        TravelAllFindsPatterns(ns[1..], level, h.1);
      }
    }
  }

  lemma {:induction false} TravelSequencesFindsPatterns(ns: seq<Node>, level: nat, st: GenState)
    requires forall i :: 0 <= i < |ns| ==> PatternsCompiled(ns[i], st)
    ensures NoKeyError(TravelSequences(ns, level, st))
    decreases ns
  {
    if ns != [] {
      if Type(ns[0]) == "Sequence" || Type(ns[0]) == "MacroSequence" {
        TravelFindsPatterns(ns[0], level, st);
        if Travel(ns[0], level, st).Ok? {
          var h := Travel(ns[0], level, st).value;
          TravelGrows(ns[0], level, st);
          forall i | 0 <= i < |ns[1..]| ensures PatternsCompiled(ns[1..][i], h.1) {
            CompiledGrows(ns[i + 1], st, h.1);
          }
          TravelSequencesFindsPatterns(ns[1..], level, h.1);
        }
      } else {
        assert forall i :: 0 <= i < |ns[1..]| ==> ns[1..][i] == ns[i + 1];
        TravelSequencesFindsPatterns(ns[1..], level, st);
      }
    }
  }

  /**
   * `get_defstring` compiles every pattern `search_node("RegularExp")` finds
   * in the definition before it walks the body, so whatever table it starts
   * from it never fails with KeyError.
   */
  lemma {:induction false} DefStringFindsPatterns(n: Node, defname: string, level: nat, st: GenState)
    requires n.NonTerminal? || n.Reconstructed?
    requires Type(n) != "RegularExp"
    ensures NoKeyError(DefString(n, defname, level, st))
    decreases n, 0
  {
    var regsearch := Search(n, "RegularExp", false);
    RegexDefsNoKeyError(regsearch, defname, level, 0, st);
    if TextOf(n, map[]).Ok? && RegexDefs(regsearch, defname, level, 0, st).Ok? {
      var regs := RegexDefs(regsearch, defname, level, 0, st).value;
      RegexDefsCompileAll(regsearch, defname, level, st);
      var exprs := FilterType(n.children, "DefinitionExpression");
      var defnode := if exprs != [] then exprs else FilterType(n.children, "MacroExpression");
      if defnode != [] {
        assert defnode[0] in n.children;
        ChildPatterns(n, regs.1);
        var k :| 0 <= k < |n.children| && n.children[k] == defnode[0];
        TravelFindsPatterns(defnode[0], level + 11, regs.1);
        var e := Travel(defnode[0], level + 11, regs.1);
        assert e.Err? ==> DefString(n, defname, level, st) == Err(e.error);
      }
    }
  }
}
