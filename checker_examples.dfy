/**
 * Two grammars on which the left-recursion check of parsergenerator.py
 * goes wrong as written, with the trees the grammar parser builds for them
 * (`Spacing` left out, as in text without blanks).
 *
 * `Root <- 'a' B / 'c'` with `B <- Root? 'b'` has no left recursion, but
 * the check never registers the rule under RootDefinition, so following
 * B's first call raises KeyError.  `Start <- A` with `A <- &'x' A` is
 * left-recursive, but the &-branch tests the type name "Andprefix", which
 * the grammar never produces, so `&'x'` counts as consuming input.
 */
module CheckerExamples {
  import opened Text
  import opened Nodes
  import opened Checker

  function IdTree(name: string): Node { Inner("Identifier", [Leaf(name)]) }

  function LitTree(text: string): Node
  {
    Inner("Literal", [Inner("SingleQuotesLiteral", [Leaf("'"), Inner("SingleQuotesLiteralContents", [Leaf(text)]), Leaf("'")])])
  }

  /** `Prefix <- Suffix`, `Suffix <- Primary`. */
  function Unary(primary: Node): Node { Inner("Prefix", [Inner("Suffix", [Inner("Primary", [primary])])]) }

  function DefTree(name: string, body: Node): Node
  {
    Inner("Definition", [Inner("DefinitionIdentifier", [IdTree(name)]), Inner("LEFTARROW", [Leaf("<-")]),
                         Inner("DefinitionExpression", [Inner("Expression", [body])])])
  }

  function GrammarTree(root: Node, defs: seq<Node>): Node
  {
    Inner("ExPeg", [Inner("RootDefinition", [root])] + defs + [Inner("_EOF", [])])
  }

  lemma WrapperBranches(fixAnd: bool)
    ensures BranchOf("Primary", fixAnd) == Generic && BranchOf("Suffix", fixAnd) == Generic
    ensures BranchOf("Prefix", fixAnd) == Generic
  {
  }

  lemma LiteralBranches(fixAnd: bool)
    ensures BranchOf("Literal", fixAnd) == Generic && BranchOf("SingleQuotesLiteral", fixAnd) == Generic
    ensures BranchOf("SingleQuotesLiteralContents", fixAnd) == Contents
  {
  }

  lemma SequenceBranches(fixAnd: bool)
    ensures BranchOf("Sequence", fixAnd) == Generic && BranchOf("SingleSequence", fixAnd) == Generic
    ensures BranchOf("MultiSequence", fixAnd) == Sequence
  {
  }

  lemma RuleBranches(fixAnd: bool)
    ensures BranchOf("Expression", fixAnd) == Generic && BranchOf("DefinitionExpression", fixAnd) == Generic
    ensures BranchOf("Identifier", fixAnd) == Ident
  {
  }

  lemma MarkBranches(fixAnd: bool)
    ensures BranchOf("SLASH", fixAnd) == Generic
    ensures BranchOf("QUESTION", fixAnd) == Generic && BranchOf("AMPERSAND", fixAnd) == Generic
  {
  }

  lemma OperatorBranches(fixAnd: bool)
    ensures BranchOf("Selection", fixAnd) == Alternatives && BranchOf("QuestionSuffix", fixAnd) == Optional
    ensures BranchOf("AndPrefix", fixAnd) == if fixAnd then Optional else Generic
  {
  }

  lemma KidValuesCons(x: Node, ns: seq<Node>, fixAnd: bool)
    ensures KidValues([x] + ns, fixAnd) == (match Abstract(x, fixAnd) case None => [] case Some(v) => [v]) + KidValues(ns, fixAnd)
  {
    assert ([x] + ns)[1..] == ns;
  }

  /** A node of an ordinary type with one child carries the child's abstraction. */
  lemma WrapperKeeps(t: string, x: Node, fixAnd: bool)
    requires t != "" && BranchOf(t, fixAnd) == Generic
    ensures Abstract(Inner(t, [x]), fixAnd) == Abstract(x, fixAnd)
  {
    KidValuesCons(x, [], fixAnd);
    assert [x] + [] == [x];
    match Abstract(x, fixAnd)
    case None => assert KidValues([x], fixAnd) == [];
    case Some(v) => assert KidValues([x], fixAnd) == [v];
  }

  lemma LeafHasNone(s: string, fixAnd: bool)
    ensures Abstract(Leaf(s), fixAnd).None?
  {
    assert BranchOf("", fixAnd) == Generic;
  }

  lemma StrOfLeaf(t: string, s: string, dict: map<string, string>)
    requires t !in dict
    ensures Str(Inner(t, [Leaf(s)]), dict) == s
  {
    assert GetStrs([Leaf(s)], dict) == Ok(s + "") by { assert [Leaf(s)][1..] == []; }
    assert s + "" == s;
  }

  lemma PlainLiteral(text: string, fixAnd: bool)
    requires text != []
    ensures Abstract(Unary(LitTree(text)), fixAnd) == Some(Len(1))
  {
    SuffixedLiteral(text, fixAnd);
    WrapperBranches(fixAnd);
    WrapperKeeps("Prefix", Inner("Suffix", [Inner("Primary", [LitTree(text)])]), fixAnd);
  }

  lemma SuffixedLiteral(text: string, fixAnd: bool)
    requires text != []
    ensures Abstract(Inner("Suffix", [Inner("Primary", [LitTree(text)])]), fixAnd) == Some(Len(1))
  {
    LiteralBranches(fixAnd);
    WrapperBranches(fixAnd);
    MarkBranches(fixAnd);
    var c := Inner("SingleQuotesLiteralContents", [Leaf(text)]);
    StrOfLeaf("SingleQuotesLiteralContents", text, map[]);
    assert Abstract(c, fixAnd) == Some(Len(1));
    LeafHasNone("'", fixAnd);
    KidValuesCons(Leaf("'"), [], fixAnd);
    KidValuesCons(c, [Leaf("'")], fixAnd);
    KidValuesCons(Leaf("'"), [c, Leaf("'")], fixAnd);
    assert [Leaf("'"), c, Leaf("'")] == [Leaf("'")] + ([c] + [Leaf("'")]);
    var q := Inner("SingleQuotesLiteral", [Leaf("'"), c, Leaf("'")]);
    assert KidValues(q.children, fixAnd) == [Len(1)];
    assert Abstract(q, fixAnd) == Some(Len(1));
    WrapperKeeps("Literal", q, fixAnd);
    WrapperKeeps("Primary", LitTree(text), fixAnd);
    WrapperKeeps("Suffix", Inner("Primary", [LitTree(text)]), fixAnd);
  }

  lemma IdentifierName(name: string, fixAnd: bool)
    requires name != "_EOF"
    ensures Str(IdTree(name), NoSpacing) == name
    ensures Abstract(IdTree(name), fixAnd) == Some(Name(name))
    ensures Abstract(Unary(IdTree(name)), fixAnd) == Some(Name(name))
  {
    RuleBranches(fixAnd);
    WrapperBranches(fixAnd);
    StrOfLeaf("Identifier", name, NoSpacing);
    WrapperKeeps("Primary", IdTree(name), fixAnd);
    WrapperKeeps("Suffix", Inner("Primary", [IdTree(name)]), fixAnd);
    WrapperKeeps("Prefix", Inner("Suffix", [Inner("Primary", [IdTree(name)])]), fixAnd);
  }

  /** `Root <- 'a' B / 'c'`. */
  function RootBody(): Node
  {
    Inner("Selection", [Inner("Sequence", [Inner("MultiSequence", [Unary(LitTree("a")), Unary(IdTree("B"))])]),
                        Inner("SLASH", [Leaf("/")]),
                        Inner("Sequence", [Inner("SingleSequence", [Unary(LitTree("c"))])])])
  }

  /** `B <- Root? 'b'`. */
  function BBody(): Node
  {
    Inner("Sequence", [Inner("MultiSequence", [
      Inner("Prefix", [Inner("Suffix", [Inner("QuestionSuffix", [Inner("Primary", [IdTree("Root")]), Inner("QUESTION", [Leaf("?")])])])]),
      Unary(LitTree("b"))])])
  }

  /** A grammar with no left recursion whose second rule calls the root rule first. */
  function RootCalledTree(): Node
  {
    GrammarTree(DefTree("Root", RootBody()), [DefTree("B", BBody())])
  }

  const RootValue := Any([All([Len(1), Name("B")]), Len(1)])
  const BValue := All([Any([Name("Root"), Len(0)]), Len(1)])

  lemma KidValuesPair(x: Node, y: Node, fixAnd: bool)
    ensures KidValues([x, y], fixAnd) ==
              (match Abstract(x, fixAnd) case None => [] case Some(v) => [v])
              + (match Abstract(y, fixAnd) case None => [] case Some(v) => [v])
  {
    KidValuesCons(y, [], fixAnd);
    KidValuesCons(x, [y], fixAnd);
    assert [x, y] == [x] + [y];
  }

  lemma FilterCons(x: Node, ns: seq<Node>, t: string)
    ensures FilterType([x] + ns, t) == (if Type(x) == t then [x] else []) + FilterType(ns, t)
  {
    assert ([x] + ns)[1..] == ns;
  }

  lemma DefExpressionPart(name: string, body: Node)
    ensures Children(DefTree(name, body), "DefinitionExpression") == Ok([Inner("DefinitionExpression", [Inner("Expression", [body])])])
  {
    var e := Inner("DefinitionExpression", [Inner("Expression", [body])]);
    var di := Inner("DefinitionIdentifier", [IdTree(name)]);
    var arrow := Inner("LEFTARROW", [Leaf("<-")]);
    assert "DefinitionIdentifier" != "DefinitionExpression" && "LEFTARROW" != "DefinitionExpression";
    FilterCons(e, [], "DefinitionExpression");
    FilterCons(arrow, [e], "DefinitionExpression");
    FilterCons(di, [arrow, e], "DefinitionExpression");
    assert [di, arrow, e] == [di] + ([arrow] + [e]);
    assert [e] + [] == [e] && [] + ([] + [e]) == [e];
  }

  lemma DefIdentifierPart(name: string, body: Node)
    ensures Children(DefTree(name, body), "DefinitionIdentifier") == Ok([Inner("DefinitionIdentifier", [IdTree(name)])])
  {
    var e := Inner("DefinitionExpression", [Inner("Expression", [body])]);
    var di := Inner("DefinitionIdentifier", [IdTree(name)]);
    var arrow := Inner("LEFTARROW", [Leaf("<-")]);
    assert "DefinitionExpression" != "DefinitionIdentifier" && "LEFTARROW" != "DefinitionIdentifier";
    FilterCons(e, [], "DefinitionIdentifier");
    FilterCons(arrow, [e], "DefinitionIdentifier");
    FilterCons(di, [arrow, e], "DefinitionIdentifier");
    assert [di, arrow, e] == [di] + ([arrow] + [e]);
    assert [di] + [] == [di];
  }

  lemma DefIdentifierText(name: string)
    requires name != "_EOF"
    ensures Str(Inner("DefinitionIdentifier", [IdTree(name)]), NoSpacing) == name
  {
    var di := Inner("DefinitionIdentifier", [IdTree(name)]);
    IdentifierName(name, false);
    assert "DefinitionIdentifier" !in NoSpacing;
    assert GetStr(di, NoSpacing) == GetStrs([IdTree(name)], NoSpacing);
    assert GetStr(IdTree(name), NoSpacing) == Ok(name);
    assert GetStrs([IdTree(name)], NoSpacing) == Ok(name + "") by { assert [IdTree(name)][1..] == []; }
    assert name + "" == name;
  }

  /** A MultiSequence node carries the list of its children's abstractions. */
  lemma SequenceNode(cs: seq<Node>, fixAnd: bool)
    ensures Abstract(Inner("MultiSequence", cs), fixAnd) == Some(All(KidValues(cs, fixAnd)))
  {
    SequenceBranches(fixAnd);
  }

  lemma DefValue(name: string, body: Node, v: Chk, fixAnd: bool, rest: seq<Node>, d: Dict)
    requires name != "_EOF" && Abstract(body, fixAnd) == Some(v)
    ensures Registered([DefTree(name, body)] + rest, fixAnd, d) == Registered(rest, fixAnd, Put(d, name, v))
  {
    DefExpressionPart(name, body);
    DefIdentifierPart(name, body);
    DefIdentifierText(name);
    RuleBranches(fixAnd);
    WrapperKeeps("Expression", body, fixAnd);
    WrapperKeeps("DefinitionExpression", Inner("Expression", [body]), fixAnd);
    assert ([DefTree(name, body)] + rest)[1..] == rest;
  }

  /** The first alternative of the root rule: `'a' B`. */
  lemma RootFirstValue(fixAnd: bool)
    ensures Abstract(Inner("Sequence", [Inner("MultiSequence", [Unary(LitTree("a")), Unary(IdTree("B"))])]), fixAnd)
            == Some(All([Len(1), Name("B")]))
  {
    PlainLiteral("a", fixAnd);
    IdentifierName("B", fixAnd);
    SequenceBranches(fixAnd);
    KidValuesPair(Unary(LitTree("a")), Unary(IdTree("B")), fixAnd);
    var m := Inner("MultiSequence", [Unary(LitTree("a")), Unary(IdTree("B"))]);
    SequenceNode([Unary(LitTree("a")), Unary(IdTree("B"))], fixAnd);
    assert KidValues([Unary(LitTree("a")), Unary(IdTree("B"))], fixAnd) == [Len(1)] + [Name("B")];
    assert [Len(1)] + [Name("B")] == [Len(1), Name("B")];
    assert Abstract(m, fixAnd) == Some(All([Len(1), Name("B")]));
    WrapperKeeps("Sequence", m, fixAnd);
  }

  /** The second alternative of the root rule: `'c'`. */
  lemma RootSecondValue(fixAnd: bool)
    ensures Abstract(Inner("Sequence", [Inner("SingleSequence", [Unary(LitTree("c"))])]), fixAnd) == Some(Len(1))
    ensures Abstract(Inner("SLASH", [Leaf("/")]), fixAnd).None?
  {
    PlainLiteral("c", fixAnd);
    SequenceBranches(fixAnd);
    MarkBranches(fixAnd);
    WrapperKeeps("SingleSequence", Unary(LitTree("c")), fixAnd);
    WrapperKeeps("Sequence", Inner("SingleSequence", [Unary(LitTree("c"))]), fixAnd);
    LeafHasNone("/", fixAnd);
    WrapperKeeps("SLASH", Leaf("/"), fixAnd);
  }

  /** A Selection node carries the tuple of its children's abstractions. */
  lemma SelectionNode(cs: seq<Node>, fixAnd: bool)
    ensures Abstract(Inner("Selection", cs), fixAnd) == Some(Any(KidValues(cs, fixAnd)))
  {
    OperatorBranches(fixAnd);
  }

  lemma KidValuesGap(x: Node, y: Node, z: Node, fixAnd: bool)
    requires Abstract(x, fixAnd).Some? && Abstract(y, fixAnd).None? && Abstract(z, fixAnd).Some?
    ensures KidValues([x, y, z], fixAnd) == [Abstract(x, fixAnd).value, Abstract(z, fixAnd).value]
  {
    KidValuesCons(z, [], fixAnd);
    KidValuesCons(y, [z], fixAnd);
    KidValuesCons(x, [y, z], fixAnd);
    assert [x, y, z] == [x] + ([y] + [z]);
    assert [y] + [z] == [y, z];
  }

  lemma RootValueOf(fixAnd: bool)
    ensures Abstract(RootBody(), fixAnd) == Some(RootValue)
  {
    RootFirstValue(fixAnd);
    RootSecondValue(fixAnd);
    var s1 := Inner("Sequence", [Inner("MultiSequence", [Unary(LitTree("a")), Unary(IdTree("B"))])]);
    var s2 := Inner("Sequence", [Inner("SingleSequence", [Unary(LitTree("c"))])]);
    var slash := Inner("SLASH", [Leaf("/")]);
    KidValuesGap(s1, slash, s2, fixAnd);
    SelectionNode([s1, slash, s2], fixAnd);
  }

  /** A `?`-node whose children carry one abstraction `v` may consume as `v` does, or nothing. */
  lemma QuestionNode(cs: seq<Node>, v: Chk, fixAnd: bool)
    requires KidValues(cs, fixAnd) == [v]
    ensures Abstract(Inner("QuestionSuffix", cs), fixAnd) == Some(Any([v, Len(0)]))
  {
    OperatorBranches(fixAnd);
  }

  lemma QuestionMarkHasNone(fixAnd: bool)
    ensures Abstract(Inner("QUESTION", [Leaf("?")]), fixAnd).None?
  {
    MarkBranches(fixAnd);
    LeafHasNone("?", fixAnd);
    WrapperKeeps("QUESTION", Leaf("?"), fixAnd);
  }

  /** `Root?` */
  lemma OptionalRootValue(fixAnd: bool)
    ensures Abstract(Inner("Prefix", [Inner("Suffix", [Inner("QuestionSuffix", [Inner("Primary", [IdTree("Root")]),
              Inner("QUESTION", [Leaf("?")])])])]), fixAnd) == Some(Any([Name("Root"), Len(0)]))
  {
    IdentifierName("Root", fixAnd);
    WrapperBranches(fixAnd);
    WrapperKeeps("Primary", IdTree("Root"), fixAnd);
    QuestionMarkHasNone(fixAnd);
    var primary := Inner("Primary", [IdTree("Root")]);
    var mark := Inner("QUESTION", [Leaf("?")]);
    KidValuesPair(primary, mark, fixAnd);
    assert [Name("Root")] + [] == [Name("Root")];
    QuestionNode([primary, mark], Name("Root"), fixAnd);
    var q := Inner("QuestionSuffix", [primary, mark]);
    WrapperKeeps("Suffix", q, fixAnd);
    WrapperKeeps("Prefix", Inner("Suffix", [q]), fixAnd);
  }

  lemma BValueOf(fixAnd: bool)
    ensures Abstract(BBody(), fixAnd) == Some(BValue)
  {
    OptionalRootValue(fixAnd);
    PlainLiteral("b", fixAnd);
    SequenceBranches(fixAnd);
    var p := Inner("Prefix", [Inner("Suffix", [Inner("QuestionSuffix", [Inner("Primary", [IdTree("Root")]),
               Inner("QUESTION", [Leaf("?")])])])]);
    KidValuesPair(p, Unary(LitTree("b")), fixAnd);
    var bm := Inner("MultiSequence", [p, Unary(LitTree("b"))]);
    SequenceNode([p, Unary(LitTree("b"))], fixAnd);
    assert [Any([Name("Root"), Len(0)])] + [Len(1)] == BValue.items;
    WrapperKeeps("Sequence", bm, fixAnd);
  }

  // ---------------------------------------------------------------------------
  // Which definitions each variant registers

  lemma DefinitionType(name: string, body: Node)
    ensures Type(DefTree(name, body)) == "Definition" && IsNonTerminal(DefTree(name, body))
  {
  }

  /** As written only the Definition children of the root: the second rule. */
  lemma GrammarDefinitionsAsWritten(r: string, rb: Node, n: string, b: Node)
    ensures CheckedDefinitions(GrammarTree(DefTree(r, rb), [DefTree(n, b)]), false) == [DefTree(n, b)]
  {
    var root := DefTree(r, rb);
    var def := DefTree(n, b);
    var rd := Inner("RootDefinition", [root]);
    var eof := Inner("_EOF", []);
    var g := GrammarTree(root, [def]);
    assert Kids(g) == [rd, def, eof];
    assert "RootDefinition" != "Definition" && "_EOF" != "Definition";
    FilterCons(eof, [], "Definition");
    FilterCons(def, [eof], "Definition");
    FilterCons(rd, [def, eof], "Definition");
    assert [rd, def, eof] == [rd] + ([def] + [eof]);
    assert [] + ([def] + []) == [def];
  }

  /** With `check_definition`'s list: the root rule, then the second rule. */
  lemma GrammarDefinitions(r: string, rb: Node, n: string, b: Node)
    ensures Search(GrammarTree(DefTree(r, rb), [DefTree(n, b)]), "Definition", false) == [DefTree(r, rb), DefTree(n, b)]
    ensures CheckedDefinitions(GrammarTree(DefTree(r, rb), [DefTree(n, b)]), true) == [DefTree(r, rb), DefTree(n, b)]
  {
    var root := DefTree(r, rb);
    var def := DefTree(n, b);
    var rd := Inner("RootDefinition", [root]);
    var eof := Inner("_EOF", []);
    var g := GrammarTree(root, [def]);
    assert Kids(g) == [rd, def, eof];
    assert "RootDefinition" != "Definition" && "ExPeg" != "Definition";
    assert Search(root, "Definition", false) == [root];
    assert Search(def, "Definition", false) == [def];
    assert Search(rd, "Definition", false) == [root] by {
      assert SearchKids([root], "Definition", false) == [root] + SearchKids([], "Definition", false);
      assert [root] + [] == [root];
    }
    assert Search(eof, "Definition", false) == [];
    assert SearchKids([eof], "Definition", false) == [] by { assert [eof][1..] == []; }
    assert SearchKids([def, eof], "Definition", false) == [def] by { assert [def, eof][1..] == [eof]; assert [def] + [] == [def]; }
    assert SearchKids([rd, def, eof], "Definition", false) == [root, def] by { assert [rd, def, eof][1..] == [def, eof]; }
  }

  // ---------------------------------------------------------------------------
  // One and two definitions through the rounds

  lemma ResolvedOne(x: (string, Chk), c: map<string, int>)
    ensures Resolved([x], c) == match EvalDef(x.1) case Some(v) => c[x.0 := v] case None => c
  {
    assert [x][..0] == [];
  }

  lemma ResolvedTwo(x: (string, Chk), y: (string, Chk), c: map<string, int>)
    ensures Resolved([x, y], c) == match EvalDef(y.1) case Some(v) => Resolved([x], c)[y.0 := v] case None => Resolved([x], c)
  {
    assert [x, y][..1] == [x];
  }

  lemma UncheckedOne(x: (string, Chk), c: map<string, int>)
    ensures Unchecked([x], c) == if x.0 in c then [] else [x]
  {
    assert [x][..0] == [];
  }

  lemma UncheckedTwo(x: (string, Chk), y: (string, Chk), c: map<string, int>)
    ensures Unchecked([x, y], c) == Unchecked([x], c) + (if y.0 in c then [] else [y])
  {
    assert [x, y][..1] == [x];
  }

  /** `B <- Root? 'b'` alone: B waits on Root, which is not there. */
  lemma RootMissingRaises()
    ensures LeftRecursionLoop([("B", BValue)], map[], 0, []) == Err(KeyMissing("Root"))
  {
    var d := [("B", BValue)];
    assert EvalDef(Any([Name("Root"), Len(0)])).None?;
    assert EvalDef(BValue).None?;
    assert !Changed(d);
    ResolvedOne(("B", BValue), map[]);
    UncheckedOne(("B", BValue), map[]);
    assert Assign(Any([Name("Root"), Len(0)]), map[]) == Any([Name("Root"), Len(0)]) by {
      assert AssignAll([Len(0)], map[]) == [Len(0)];
      assert AssignAll([Name("Root"), Len(0)], map[]) == [Name("Root"), Len(0)];
    }
    assert AssignAll([Len(1)], map[]) == [Len(1)];
    assert Assign(BValue, map[]) == BValue;
    assert Substituted(d, map[]) == d;
    assert Settle(d, map[]) == (d, map[]);
    assert Keys(d) == ["B"];
    assert Smallest(["B"]) == "B";
    assert SearchUnresolve(BValue) == Some("Root") by {
      assert SearchItems([Name("Root"), Len(0)]) == Some("Root");
    }
    assert Lookup(d, "Root") == None;
    assert Walk(d, "Root", ["B"]) == Err(KeyMissing("Root"));
    assert Walk(d, "B", []) == Err(KeyMissing("Root"));
  }

  /** With the root rule registered first, Root resolves, then B. */
  lemma RootThenBResolve()
    ensures LeftRecursionLoop([("Root", RootValue), ("B", BValue)], map[], 0, []) == Ok([])
  {
    var d := [("Root", RootValue), ("B", BValue)];
    assert EvalDef(All([Len(1), Name("B")])) == Some(1);
    assert EvalDef(RootValue) == Some(1);
    assert EvalDef(Any([Name("Root"), Len(0)])).None?;
    assert EvalDef(BValue).None?;
    ResolvedOne(("Root", RootValue), map[]);
    ResolvedTwo(("Root", RootValue), ("B", BValue), map[]);
    var c := map["Root" := 1];
    assert Resolved(d, map[]) == c;
    UncheckedOne(("Root", RootValue), c);
    UncheckedTwo(("Root", RootValue), ("B", BValue), c);
    assert Unchecked(d, c) == [("B", BValue)];
    var b1 := All([Any([Len(1), Len(0)]), Len(1)]);
    assert Assign(BValue, c) == b1 by {
      assert AssignAll([Len(0)], c) == [Len(0)];
      assert AssignAll([Name("Root"), Len(0)], c) == [Len(1), Len(0)];
      assert AssignAll([Len(1)], c) == [Len(1)];
    }
    var d1 := [("B", b1)];
    assert Substituted([("B", BValue)], c) == d1;
    assert Changed(d) by { assert EvalDef(d[0].1).Some?; }
    assert Round(d, map[]) == (d1, c);
    assert EvalDef(Any([Len(1), Len(0)])) == Some(0);
    assert EvalDef(b1) == Some(1);
    ResolvedOne(("B", b1), c);
    var c2 := c["B" := 1];
    UncheckedOne(("B", b1), c2);
    assert Changed(d1) by { assert EvalDef(d1[0].1).Some?; }
    assert Round(d1, c) == ([], c2);
    assert !Changed([]);
    assert Settle([], c2) == ([], c2);
    assert Settle(d, map[]) == ([], c2);
  }

  // ---------------------------------------------------------------------------
  // The identifiers each rule body uses

  lemma SearchWrap(t: string, x: Node, s: string)
    requires t != s && IsNonTerminal(x)
    ensures Search(Inner(t, [x]), s, false) == Search(x, s, false)
  {
    assert [x][1..] == [];
    assert SearchKids([x], s, false) == Search(x, s, false) + SearchKids([], s, false);
    assert Search(x, s, false) + [] == Search(x, s, false);
  }

  lemma SearchPairKids(x: Node, y: Node, s: string)
    requires IsNonTerminal(x) && IsNonTerminal(y)
    ensures SearchKids([x, y], s, false) == Search(x, s, false) + Search(y, s, false)
  {
    assert [x, y][1..] == [y];
    assert [y][1..] == [];
    assert SearchKids([y], s, false) == Search(y, s, false) + SearchKids([], s, false);
    assert Search(y, s, false) + [] == Search(y, s, false);
    assert SearchKids([x, y], s, false) == Search(x, s, false) + SearchKids([y], s, false);
  }

  lemma LiteralHasNoIdentifier(text: string)
    ensures Search(Unary(LitTree(text)), "Identifier", false) == []
  {
    SuffixedLiteralHasNoIdentifier(text);
    SearchWrap("Prefix", Inner("Suffix", [Inner("Primary", [LitTree(text)])]), "Identifier");
  }

  lemma SuffixedLiteralHasNoIdentifier(text: string)
    ensures Search(Inner("Suffix", [Inner("Primary", [LitTree(text)])]), "Identifier", false) == []
  {
    var c := Inner("SingleQuotesLiteralContents", [Leaf(text)]);
    assert SearchKids([Leaf(text)], "Identifier", false) == [] by { assert [Leaf(text)][1..] == []; }
    assert Search(c, "Identifier", false) == [];
    var ks := [Leaf("'"), c, Leaf("'")];
    assert SearchKids([Leaf("'")], "Identifier", false) == [] by { assert [Leaf("'")][1..] == []; }
    assert SearchKids([c, Leaf("'")], "Identifier", false) == [] by { assert [c, Leaf("'")][1..] == [Leaf("'")]; }
    assert SearchKids(ks, "Identifier", false) == [] by { assert ks[1..] == [c, Leaf("'")]; }
    var q := Inner("SingleQuotesLiteral", ks);
    assert Search(q, "Identifier", false) == [];
    SearchWrap("Literal", q, "Identifier");
    SearchWrap("Primary", LitTree(text), "Identifier");
    SearchWrap("Suffix", Inner("Primary", [LitTree(text)]), "Identifier");
  }

  lemma IdentifierFound(name: string)
    ensures Search(IdTree(name), "Identifier", false) == [IdTree(name)]
    ensures Search(Unary(IdTree(name)), "Identifier", false) == [IdTree(name)]
  {
    SearchWrap("Primary", IdTree(name), "Identifier");
    SearchWrap("Suffix", Inner("Primary", [IdTree(name)]), "Identifier");
    SearchWrap("Prefix", Inner("Suffix", [Inner("Primary", [IdTree(name)])]), "Identifier");
  }

  lemma SearchInnerKids(t: string, cs: seq<Node>, s: string)
    requires t != s
    ensures Search(Inner(t, cs), s, false) == SearchKids(cs, s, false)
  {
    assert Type(Inner(t, cs)) == t;
  }

  lemma RootFirstUses()
    ensures Search(Inner("Sequence", [Inner("MultiSequence", [Unary(LitTree("a")), Unary(IdTree("B"))])]), "Identifier", false)
            == [IdTree("B")]
  {
    LiteralHasNoIdentifier("a");
    IdentifierFound("B");
    var m := Inner("MultiSequence", [Unary(LitTree("a")), Unary(IdTree("B"))]);
    SearchPairKids(Unary(LitTree("a")), Unary(IdTree("B")), "Identifier");
    SearchInnerKids("MultiSequence", [Unary(LitTree("a")), Unary(IdTree("B"))], "Identifier");
    assert [] + [IdTree("B")] == [IdTree("B")];
    SearchWrap("Sequence", m, "Identifier");
  }

  lemma RootSecondUses()
    ensures Search(Inner("Sequence", [Inner("SingleSequence", [Unary(LitTree("c"))])]), "Identifier", false) == []
    ensures Search(Inner("SLASH", [Leaf("/")]), "Identifier", false) == []
  {
    LiteralHasNoIdentifier("c");
    var s2 := Inner("SingleSequence", [Unary(LitTree("c"))]);
    SearchWrap("SingleSequence", Unary(LitTree("c")), "Identifier");
    SearchWrap("Sequence", s2, "Identifier");
    assert SearchKids([Leaf("/")], "Identifier", false) == [] by { assert [Leaf("/")][1..] == []; }
    SearchInnerKids("SLASH", [Leaf("/")], "Identifier");
  }

  lemma RootBodyUses()
    ensures Search(RootBody(), "Identifier", false) == [IdTree("B")]
  {
    RootFirstUses();
    RootSecondUses();
    var s1 := Inner("Sequence", [Inner("MultiSequence", [Unary(LitTree("a")), Unary(IdTree("B"))])]);
    var slash := Inner("SLASH", [Leaf("/")]);
    var s2 := Inner("Sequence", [Inner("SingleSequence", [Unary(LitTree("c"))])]);
    var ks := [s1, slash, s2];
    SearchPairKids(slash, s2, "Identifier");
    assert ks[1..] == [slash, s2];
    assert SearchKids(ks, "Identifier", false) == [IdTree("B")] + ([] + []);
    SearchInnerKids("Selection", ks, "Identifier");
  }

  /** `Root?` uses Root. */
  lemma OptionalRootUses()
    ensures Search(Inner("Prefix", [Inner("Suffix", [Inner("QuestionSuffix", [Inner("Primary", [IdTree("Root")]),
              Inner("QUESTION", [Leaf("?")])])])]), "Identifier", false) == [IdTree("Root")]
  {
    var question := Inner("QUESTION", [Leaf("?")]);
    assert Search(question, "Identifier", false) == [] by { assert [Leaf("?")][1..] == []; }
    var primary := Inner("Primary", [IdTree("Root")]);
    SearchWrap("Primary", IdTree("Root"), "Identifier");
    var q := Inner("QuestionSuffix", [primary, question]);
    SearchPairKids(primary, question, "Identifier");
    assert Search(q, "Identifier", false) == [IdTree("Root")];
    SearchWrap("Suffix", q, "Identifier");
    SearchWrap("Prefix", Inner("Suffix", [q]), "Identifier");
  }

  lemma BBodyUses()
    ensures Search(BBody(), "Identifier", false) == [IdTree("Root")]
  {
    LiteralHasNoIdentifier("b");
    OptionalRootUses();
    var p := Inner("Prefix", [Inner("Suffix", [Inner("QuestionSuffix", [Inner("Primary", [IdTree("Root")]),
               Inner("QUESTION", [Leaf("?")])])])]);
    SearchPairKids(p, Unary(LitTree("b")), "Identifier");
    var bm := Inner("MultiSequence", [p, Unary(LitTree("b"))]);
    assert Search(bm, "Identifier", false) == [IdTree("Root")] + [];
    SearchWrap("Sequence", bm, "Identifier");
  }

  /** The uses `check_definition` finds under one definition. */
  lemma DefUses(name: string, body: Node, ids: seq<Node>, rest: seq<Node>)
    requires IsNonTerminal(body) && Search(body, "Identifier", false) == ids
    ensures UsedIdentifiers([DefTree(name, body)] + rest) ==
              (var r :- UsedIdentifiers(rest); Ok([ids] + r))
  {
    DefExpressionPart(name, body);
    SearchWrap("Expression", body, "Identifier");
    SearchWrap("DefinitionExpression", Inner("Expression", [body]), "Identifier");
    assert ([DefTree(name, body)] + rest)[1..] == rest;
  }

  lemma DefName(name: string, body: Node, rest: seq<Node>)
    requires name != "_EOF"
    ensures DeclaredNames([DefTree(name, body)] + rest) == (var r :- DeclaredNames(rest); Ok([name] + r))
  {
    DefIdentifierPart(name, body);
    DefIdentifierText(name);
    assert ([DefTree(name, body)] + rest)[1..] == rest;
  }

  // ---------------------------------------------------------------------------
  // The rule under RootDefinition is never registered

  lemma TwoNames(r: string, rb: Node, n: string, b: Node)
    requires r != "_EOF" && n != "_EOF"
    ensures DeclaredNames([DefTree(r, rb), DefTree(n, b)]) == Ok([r, n])
  {
    DefName(r, rb, [DefTree(n, b)]);
    DefName(n, b, []);
    assert [DefTree(n, b)] + [] == [DefTree(n, b)];
    assert [DefTree(r, rb)] + [DefTree(n, b)] == [DefTree(r, rb), DefTree(n, b)];
    assert [n] + [] == [n] && [r] + [n] == [r, n];
  }

  lemma TwoUses(r: string, rb: Node, ru: seq<Node>, n: string, b: Node, nu: seq<Node>)
    requires IsNonTerminal(rb) && Search(rb, "Identifier", false) == ru
    requires IsNonTerminal(b) && Search(b, "Identifier", false) == nu
    ensures UsedIdentifiers([DefTree(r, rb), DefTree(n, b)]) == Ok([ru, nu])
  {
    DefUses(r, rb, ru, [DefTree(n, b)]);
    DefUses(n, b, nu, []);
    assert [DefTree(n, b)] + [] == [DefTree(n, b)];
    assert [DefTree(r, rb)] + [DefTree(n, b)] == [DefTree(r, rb), DefTree(n, b)];
    assert [nu] + [] == [nu] && [ru] + [nu] == [ru, nu];
  }

  lemma TwoRegistered(r: string, rb: Node, rv: Chk, n: string, b: Node, nv: Chk, fixAnd: bool)
    requires r != "_EOF" && n != "_EOF" && r != n
    requires Abstract(rb, fixAnd) == Some(rv) && Abstract(b, fixAnd) == Some(nv)
    ensures Registered([DefTree(r, rb), DefTree(n, b)], fixAnd, []) == Ok([(r, rv), (n, nv)])
  {
    var first, second := DefTree(r, rb), DefTree(n, b);
    var d1: Dict := [(r, rv)];
    assert Put([], r, rv) == d1;
    assert Put(d1, n, nv) == [(r, rv), (n, nv)] by {
      assert d1[0].0 != n && d1[1..] == [];
      assert Put([], n, nv) == [(n, nv)];
    }
    DefValue(r, rb, rv, fixAnd, [second], []);
    assert [first] + [second] == [first, second];
    DefValue(n, b, nv, fixAnd, [], d1);
    assert [second] + [] == [second];
  }

  /** Root and B are declared once each. */
  lemma RootCalledDeclaredOnce()
    ensures Duplicates(["Root", "B"], {"_eof"}) == []
    ensures LowerSet(["Root", "B"]) == {"root", "b"}
  {
    assert Lower("Root") == "root" && Lower("B") == "b";
    assert Duplicates(["B"], {"_eof", "root"}) == [];
    var names := ["Root", "B"];
    assert LowerSet(names) == {"root", "b"} by {
      assert Lower(names[0]) == "root" && Lower(names[1]) == "b";
    }
  }

  lemma UseDefined(name: string, known: set<string>)
    requires name != "_EOF" && Lower(name) in known
    ensures Undefined([IdTree(name)], known) == []
  {
    IdentifierName(name, false);
    assert [IdTree(name)][1..] == [];
    assert Undefined([IdTree(name)], known) == [] + Undefined([], known);
  }

  lemma UsesTwoDefined(x: string, y: string, known: set<string>)
    requires x != "_EOF" && Lower(x) in known && y != "_EOF" && Lower(y) in known
    ensures UndefinedAll([[IdTree(x)], [IdTree(y)]], known) == []
  {
    UseDefined(x, known);
    UseDefined(y, known);
    var uses := [[IdTree(x)], [IdTree(y)]];
    assert uses[1..] == [[IdTree(y)]] && [[IdTree(y)]][1..] == [];
    assert UndefinedAll([[IdTree(y)]], known) == Undefined([IdTree(y)], known) + UndefinedAll([], known);
    assert UndefinedAll(uses, known) == Undefined([IdTree(x)], known) + UndefinedAll([[IdTree(y)]], known);
  }

  /** Every use names a declared rule. */
  lemma RootCalledUsesDefined()
    ensures UndefinedAll([[IdTree("B")], [IdTree("Root")]], {"_eof"} + {"root", "b"}) == []
  {
    assert Lower("Root") == "root" && Lower("B") == "b";
    UsesTwoDefined("B", "Root", {"_eof"} + {"root", "b"});
  }

  /** `check_definition` reports nothing when no name repeats and every use is declared. */
  lemma DefinitionsClean(tree: Node, names: seq<string>, uses: seq<seq<Node>>)
    requires Type(tree) == "ExPeg"
    requires DeclaredNames(Search(tree, "Definition", false)) == Ok(names)
    requires UsedIdentifiers(Search(tree, "Definition", false)) == Ok(uses)
    requires Duplicates(names, {"_eof"}) == [] && UndefinedAll(uses, {"_eof"} + LowerSet(names)) == []
    ensures CheckDefinition(tree) == Ok([])
  {
    var none: seq<string> := [];
    assert none + none == [];
  }

  lemma RootCalledDefinitionsSound()
    ensures CheckDefinition(RootCalledTree()) == Ok([])
  {
    GrammarDefinitions("Root", RootBody(), "B", BBody());
    TwoNames("Root", RootBody(), "B", BBody());
    RootBodyUses();
    BBodyUses();
    TwoUses("Root", RootBody(), [IdTree("B")], "B", BBody(), [IdTree("Root")]);
    RootCalledDeclaredOnce();
    RootCalledUsesDefined();
    DefinitionsClean(RootCalledTree(), ["Root", "B"], [[IdTree("B")], [IdTree("Root")]]);
  }

  /** As written: the check stops with KeyError on a grammar with no left recursion. */
  lemma RootCalledRaisesKeyError(fixAnd: bool)
    ensures LeftRecursion(RootCalledTree(), fixAnd, false) == Err(KeyMissing("Root"))
  {
    GrammarDefinitionsAsWritten("Root", RootBody(), "B", BBody());
    BValueOf(fixAnd);
    DefValue("B", BBody(), BValue, fixAnd, [], []);
    assert [DefTree("B", BBody())] + [] == [DefTree("B", BBody())];
    assert Put([], "B", BValue) == [("B", BValue)];
    RootMissingRaises();
  }

  lemma RootCalledRaises(fixAnd: bool)
    ensures CheckTree(RootCalledTree(), fixAnd, false) == Raised(KeyMissing("Root"))
  {
    RootCalledRaisesKeyError(fixAnd);
    RootCalledDefinitionsSound();
  }

  /** With every definition registered the grammar passes. */
  lemma RootCalledNoLoop(fixAnd: bool)
    ensures LeftRecursion(RootCalledTree(), fixAnd, true) == Ok([])
  {
    GrammarDefinitions("Root", RootBody(), "B", BBody());
    RootValueOf(fixAnd);
    BValueOf(fixAnd);
    TwoRegistered("Root", RootBody(), RootValue, "B", BBody(), BValue, fixAnd);
    RootThenBResolve();
  }

  lemma RootCalledPasses(fixAnd: bool)
    ensures CheckTree(RootCalledTree(), fixAnd, true) == Passed
  {
    RootCalledNoLoop(fixAnd);
    RootCalledDefinitionsSound();
  }

  // ---------------------------------------------------------------------------
  // The &-branch tests "Andprefix"

  /** `&'x'` */
  function AndX(): Node
  {
    Inner("Prefix", [Inner("AndPrefix", [Inner("AMPERSAND", [Leaf("&")]), Inner("Suffix", [Inner("Primary", [LitTree("x")])])])])
  }

  /** `Start <- A` */
  function StartBody(): Node { Inner("Sequence", [Inner("SingleSequence", [Unary(IdTree("A"))])]) }

  /** `A <- &'x' A` */
  function ABody(): Node { Inner("Sequence", [Inner("MultiSequence", [AndX(), Unary(IdTree("A"))])]) }

  /** A left-recursive grammar whose recursive rule starts with a look-ahead. */
  function LookaheadTree(): Node
  {
    GrammarTree(DefTree("Start", StartBody()), [DefTree("A", ABody())])
  }

  /** The look-ahead consumes nothing only when the &-branch is taken. */
  function AndXValue(fixAnd: bool): Chk
  {
    if fixAnd then Any([Len(1), Len(0)]) else Len(1)
  }

  function AValue(fixAnd: bool): Chk { All([AndXValue(fixAnd), Name("A")]) }

  /** An &-node whose children carry one "always consumes". */
  lemma AndPrefixNode(cs: seq<Node>, fixAnd: bool)
    requires KidValues(cs, fixAnd) == [Len(1)]
    ensures Abstract(Inner("AndPrefix", cs), fixAnd) == Some(AndXValue(fixAnd))
  {
    OperatorBranches(fixAnd);
  }

  lemma AmpersandHasNone(fixAnd: bool)
    ensures Abstract(Inner("AMPERSAND", [Leaf("&")]), fixAnd).None?
  {
    MarkBranches(fixAnd);
    LeafHasNone("&", fixAnd);
    WrapperKeeps("AMPERSAND", Leaf("&"), fixAnd);
  }

  lemma AndXAbstract(fixAnd: bool)
    ensures Abstract(AndX(), fixAnd) == Some(AndXValue(fixAnd))
  {
    SuffixedLiteral("x", fixAnd);
    AmpersandHasNone(fixAnd);
    var amp := Inner("AMPERSAND", [Leaf("&")]);
    var suffix := Inner("Suffix", [Inner("Primary", [LitTree("x")])]);
    KidValuesPair(amp, suffix, fixAnd);
    assert [] + [Len(1)] == [Len(1)];
    AndPrefixNode([amp, suffix], fixAnd);
    WrapperBranches(fixAnd);
    WrapperKeeps("Prefix", Inner("AndPrefix", [amp, suffix]), fixAnd);
  }

  lemma LookaheadValues(fixAnd: bool)
    ensures Abstract(StartBody(), fixAnd) == Some(Name("A"))
    ensures Abstract(ABody(), fixAnd) == Some(AValue(fixAnd))
  {
    IdentifierName("A", fixAnd);
    SequenceBranches(fixAnd);
    WrapperKeeps("SingleSequence", Unary(IdTree("A")), fixAnd);
    WrapperKeeps("Sequence", Inner("SingleSequence", [Unary(IdTree("A"))]), fixAnd);
    AndXAbstract(fixAnd);
    KidValuesPair(AndX(), Unary(IdTree("A")), fixAnd);
    SequenceNode([AndX(), Unary(IdTree("A"))], fixAnd);
    assert [AndXValue(fixAnd)] + [Name("A")] == AValue(fixAnd).items;
    WrapperKeeps("Sequence", Inner("MultiSequence", [AndX(), Unary(IdTree("A"))]), fixAnd);
  }

  lemma LookaheadUses()
    ensures Search(StartBody(), "Identifier", false) == [IdTree("A")]
    ensures Search(ABody(), "Identifier", false) == [IdTree("A")]
  {
    IdentifierFound("A");
    SearchWrap("SingleSequence", Unary(IdTree("A")), "Identifier");
    SearchWrap("Sequence", Inner("SingleSequence", [Unary(IdTree("A"))]), "Identifier");
    SuffixedLiteralHasNoIdentifier("x");
    var amp := Inner("AMPERSAND", [Leaf("&")]);
    assert Search(amp, "Identifier", false) == [] by { assert [Leaf("&")][1..] == []; }
    var suffix := Inner("Suffix", [Inner("Primary", [LitTree("x")])]);
    SearchPairKids(amp, suffix, "Identifier");
    assert Search(Inner("AndPrefix", [amp, suffix]), "Identifier", false) == [];
    SearchWrap("Prefix", Inner("AndPrefix", [amp, suffix]), "Identifier");
    SearchPairKids(AndX(), Unary(IdTree("A")), "Identifier");
    assert Search(Inner("MultiSequence", [AndX(), Unary(IdTree("A"))]), "Identifier", false) == [IdTree("A")];
    SearchWrap("Sequence", Inner("MultiSequence", [AndX(), Unary(IdTree("A"))]), "Identifier");
  }

  lemma LookaheadDeclaredOnce()
    ensures Duplicates(["Start", "A"], {"_eof"}) == []
    ensures LowerSet(["Start", "A"]) == {"start", "a"}
  {
    assert Lower("Start") == "start" && Lower("A") == "a";
    assert Duplicates(["A"], {"_eof", "start"}) == [];
    var names := ["Start", "A"];
    assert LowerSet(names) == {"start", "a"} by {
      assert Lower(names[0]) == "start" && Lower(names[1]) == "a";
    }
  }

  lemma LookaheadUsesDefined()
    ensures UndefinedAll([[IdTree("A")], [IdTree("A")]], {"_eof"} + {"start", "a"}) == []
  {
    assert Lower("A") == "a";
    UsesTwoDefined("A", "A", {"_eof"} + {"start", "a"});
  }

  lemma LookaheadDefinitionsSound()
    ensures CheckDefinition(LookaheadTree()) == Ok([])
  {
    GrammarDefinitions("Start", StartBody(), "A", ABody());
    TwoNames("Start", StartBody(), "A", ABody());
    LookaheadUses();
    TwoUses("Start", StartBody(), [IdTree("A")], "A", ABody(), [IdTree("A")]);
    LookaheadDeclaredOnce();
    LookaheadUsesDefined();
    DefinitionsClean(LookaheadTree(), ["Start", "A"], [[IdTree("A")], [IdTree("A")]]);
  }

  /** As written `A <- &'x' A` resolves to "always consumes" at once. */
  lemma LookaheadResolvesAsWritten()
    ensures LeftRecursionLoop([("A", AValue(false))], map[], 0, []) == Ok([])
  {
    var d := [("A", AValue(false))];
    assert EvalDef(AValue(false)) == Some(1);
    ResolvedOne(("A", AValue(false)), map[]);
    var c := map["A" := 1];
    UncheckedOne(("A", AValue(false)), c);
    assert Changed(d) by { assert EvalDef(d[0].1).Some?; }
    assert Round(d, map[]) == ([], c);
    assert !Changed([]);
    assert Settle([], c) == ([], c);
  }

  lemma LookaheadMissed()
    ensures LeftRecursion(LookaheadTree(), false, false) == Ok([])
  {
    GrammarDefinitionsAsWritten("Start", StartBody(), "A", ABody());
    LookaheadValues(false);
    DefValue("A", ABody(), AValue(false), false, [], []);
    assert [DefTree("A", ABody())] + [] == [DefTree("A", ABody())];
    assert Put([], "A", AValue(false)) == [("A", AValue(false))];
    LookaheadResolvesAsWritten();
  }

  /** The left-recursive grammar passes the check as written. */
  lemma LookaheadPasses()
    ensures CheckTree(LookaheadTree(), false, false) == Passed
  {
    LookaheadMissed();
    LookaheadDefinitionsSound();
  }

  const LookaheadReport := "!Left Recursive Found! : A->A"

  /** The first settle resolves nothing: Start waits on A, A on itself. */
  lemma LookaheadFirstSettle()
    ensures Settle([("Start", Name("A")), ("A", AValue(true))], map[]) == ([("Start", Name("A")), ("A", AValue(true))], map[])
  {
    var x, y := ("Start", Name("A")), ("A", AValue(true));
    var d := [x, y];
    assert EvalDef(Any([Len(1), Len(0)])) == Some(0);
    assert EvalDef(AValue(true)).None?;
    assert !Changed(d) by {
      forall i | 0 <= i < |d| ensures EvalDef(d[i].1).None? {
        assert i == 0 || i == 1;
      }
    }
    ResolvedOne(x, map[]);
    ResolvedTwo(x, y, map[]);
    assert Resolved(d, map[]) == map[];
    UncheckedOne(x, map[]);
    UncheckedTwo(x, y, map[]);
    assert Unchecked(d, map[]) == d by { assert [x] + [y] == d; }
    assert Assign(x.1, map[]) == x.1;
    assert Assign(y.1, map[]) == y.1 by {
      assert AssignAll([Len(0)], map[]) == [Len(0)];
      assert AssignAll([Len(1), Len(0)], map[]) == [Len(1), Len(0)];
      assert AssignAll([Name("A")], map[]) == [Name("A")];
      assert AssignAll([AndXValue(true), Name("A")], map[]) == [AndXValue(true), Name("A")];
    }
    var sd := Substituted(d, map[]);
    assert sd[0] == x && sd[1] == y;
    assert sd == d;
    assert Round(d, map[]) == (d, map[]);
  }

  /** The search starts at A, the smaller name, and finds A calling itself first. */
  lemma LookaheadLoop()
    ensures FindLoopSpec([("Start", Name("A")), ("A", AValue(true))]) == Ok(["A", "A"])
  {
    var d := [("Start", Name("A")), ("A", AValue(true))];
    var ks := Keys(d);
    assert ks == ["Start", "A"] by { assert ks[0] == "Start" && ks[1] == "A"; }
    assert !StrLe("Start", "A") by { assert "Start"[0] == 'S' && "A"[0] == 'A'; }
    assert Smallest(ks) == "A" by { assert ks[1..] == ["A"]; }
    assert Lookup(d, "A") == Some(AValue(true)) by { assert d[1..] == [("A", AValue(true))]; }
    assert SearchItems([Len(1), Len(0)]) == None by { assert [Len(1), Len(0)][1..] == [Len(0)]; }
    assert SearchUnresolve(AValue(true)) == Some("A") by { assert AValue(true).items[1..] == [Name("A")]; }
    assert "A" !in [];
    assert Walk(d, "A", []) == Walk(d, "A", ["A"]) by { assert [] + ["A"] == ["A"]; }
    assert "A" in ["A"];
    var loop := ["A"] + ["A"];
    assert loop == ["A", "A"];
    assert IndexOf(loop, "A") == 0;
    assert loop[0..] == loop;
  }

  lemma LookaheadPut()
    ensures Put([("Start", Name("A")), ("A", AValue(true))], "A", Len(1)) == [("Start", Name("A")), ("A", Len(1))]
  {
    var d := [("Start", Name("A")), ("A", AValue(true))];
    assert d[1..] == [("A", AValue(true))];
    assert Put(d[1..], "A", Len(1)) == [("A", Len(1))] by { assert d[1..][1..] == []; }
  }

  /** After A is forced to 1, A and then Start resolve. */
  lemma LookaheadSecondSettle()
    ensures Settle([("Start", Name("A")), ("A", Len(1))], map[]).0 == []
  {
    var x, y := ("Start", Name("A")), ("A", Len(1));
    var d := [x, y];
    ResolvedOne(x, map[]);
    ResolvedTwo(x, y, map[]);
    var c := map["A" := 1];
    assert Resolved(d, map[]) == c;
    UncheckedOne(x, c);
    UncheckedTwo(x, y, c);
    assert Unchecked(d, c) == [x] by { assert [x] + [] == [x]; }
    var d1 := [("Start", Len(1))];
    assert Assign(x.1, c) == Len(1);
    var sd := Substituted([x], c);
    assert sd[0] == ("Start", Len(1));
    assert sd == d1;
    assert Changed(d) by { assert EvalDef(d[1].1).Some?; }
    assert Round(d, map[]) == (d1, c);
    assert Settle(d, map[]) == Settle(d1, c);
    ResolvedOne(("Start", Len(1)), c);
    var c2 := c["Start" := 1];
    UncheckedOne(("Start", Len(1)), c2);
    assert Changed(d1) by { assert EvalDef(d1[0].1).Some?; }
    assert Round(d1, c) == ([], c2);
    assert Settle([], c2) == ([], c2);
  }

  lemma LookaheadMessage()
    ensures LoopMessage(["A", "A"]) == LookaheadReport
  {
    assert Join(["A", "A"], "->") == "A->A" by { assert ["A", "A"][1..] == ["A"]; }
  }

  lemma LookaheadLastRound()
    ensures LeftRecursionLoop([("Start", Name("A")), ("A", Len(1))], map[], 2, [LookaheadReport]) == Ok([LookaheadReport])
  {
    LookaheadSecondSettle();
  }

  lemma LookaheadReported()
    ensures LeftRecursionLoop([("Start", Name("A")), ("A", AValue(true))], map[], 0, []) == Ok([LookaheadReport])
  {
    var d := [("Start", Name("A")), ("A", AValue(true))];
    LookaheadFirstSettle();
    LookaheadLoop();
    LookaheadMessage();
    LookaheadPut();
    var d2 := [("Start", Name("A")), ("A", Len(1))];
    assert ForcedFirst(d, ["A", "A"]) == d2;
    LookaheadLastRound();
    assert [] + [LoopMessage(["A", "A"])] == [LookaheadReport];
  }

  lemma LookaheadFound()
    ensures LeftRecursion(LookaheadTree(), true, true) == Ok([LookaheadReport])
  {
    GrammarDefinitions("Start", StartBody(), "A", ABody());
    LookaheadValues(true);
    IdentifierName("A", true);
    TwoRegistered("Start", StartBody(), Name("A"), "A", ABody(), AValue(true), true);
    LookaheadReported();
  }

  /** With the grammar's type name the loop is reported. */
  lemma LookaheadRejected()
    ensures CheckTree(LookaheadTree(), true, true) == CheckFailed([LookaheadReport])
  {
    LookaheadFound();
    LookaheadDefinitionsSound();
  }
}
