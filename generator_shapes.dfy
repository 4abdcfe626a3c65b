/**
 * What `travel_generate_file` emits for each construct of the grammar
 * language, stated over the trees the ExPeg parser builds for it (the
 * repeated or wrapped expression left arbitrary), and the repeat count of
 * a repeat whose expression holds another repeat.
 */
module GeneratorShapes {
  import opened Text
  import opened Nodes
  import opened Generator

  // ---------------------------------------------------------------------------
  // Subtrees the walk passes over without output

  /** Only fallback-branch nodes and terminals: the operator marks, the spacing, the counts. */
  predicate Silent(n: Node)
  {
    !IsNonTerminal(n) || (GenBranchOf(n.typ).Other? && forall i :: 0 <= i < |n.children| ==> Silent(n.children[i]))
  }

  lemma {:induction false} SilentTravel(n: Node, level: nat, st: GenState)
    requires Silent(n)
    ensures Travel(n, level, st) == Ok(("", st))
    decreases n, 0
  {
    if IsNonTerminal(n) {
      SilentTravelAll(n.children, level, st);
    }
  }

  lemma {:induction false} SilentTravelAll(ns: seq<Node>, level: nat, st: GenState)
    requires forall i :: 0 <= i < |ns| ==> Silent(ns[i])
    ensures TravelAll(ns, level, st).Ok? && TravelAll(ns, level, st).value.1 == st
    ensures Concat(TravelAll(ns, level, st).value.0) == ""
    decreases ns
  {
    if ns != [] {
      SilentTravel(ns[0], level, st);
      SilentTravelAll(ns[1..], level, st);
      var t := TravelAll(ns[1..], level, st).value.0;
      assert TravelAll(ns, level, st).value.0 == [""] + t;
      assert ([""] + t)[1..] == t;
    }
  }

  /** An operator or bracket node. */
  function Mark(t: string, s: string): Node
  {
    Inner(t, [Leaf(s)])
  }

  lemma SilentMark(t: string, s: string)
    requires GenBranchOf(t).Other?
    ensures Silent(Mark(t, s))
  {
  }

  lemma TravelOne(a: Node, level: nat, st: GenState)
    requires Travel(a, level, st).Ok?
    ensures TravelAll([a], level, st) == Ok(([Travel(a, level, st).value.0], Travel(a, level, st).value.1))
  {
    var h := Travel(a, level, st).value;
    assert [a][0] == a && [a][1..] == [];
    assert TravelAll([], level, h.1) == Ok(([], h.1));
    assert [h.0] + [] == [h.0];
  }

  lemma TravelTwo(a: Node, b: Node, level: nat, st: GenState)
    requires Travel(a, level, st).Ok? && Travel(b, level, Travel(a, level, st).value.1).Ok?
    ensures var ra := Travel(a, level, st).value;
            var rb := Travel(b, level, ra.1).value;
            TravelAll([a, b], level, st) == Ok(([ra.0, rb.0], rb.1))
  {
    var ra := Travel(a, level, st).value;
    var rb := Travel(b, level, ra.1).value;
    assert [a, b][0] == a && [a, b][1..] == [b];
    TravelOne(b, level, ra.1);
    assert [ra.0] + [rb.0] == [ra.0, rb.0];
  }

  lemma ConcatEmptyRight(x: string)
    ensures Concat([x, ""]) == x && Concat(["", x]) == x
  {
    assert [x, ""][1..] == [""] && [""][1..] == [];
    assert ["", x][1..] == [x] && [x][1..] == [];
  }

  // ---------------------------------------------------------------------------
  // Prefixes and suffixes

  /**
   * A prefix or suffix node, its operand and its silent operator mark in
   * either order, becomes the branch's call around the operand's text, the
   * operand walked ten columns further in.
   */
  lemma WrappedCall(t: string, p: Node, m: Node, level: nat, st: GenState)
    requires GenBranchOf(t).Wrapped? && Silent(m) && Travel(p, level + 10, st).Ok?
    ensures var r := Travel(p, level + 10, st).value;
            var b := GenBranchOf(t);
            && Travel(Inner(t, [p, m]), level, st) == Ok((b.open + r.0 + b.close, r.1))
            && Travel(Inner(t, [m, p]), level, st) == Ok((b.open + r.0 + b.close, r.1))
  {
    var r := Travel(p, level + 10, st).value;
    SilentTravel(m, level + 10, st);
    SilentTravel(m, level + 10, r.1);
    TravelTwo(p, m, level + 10, st);
    TravelTwo(m, p, level + 10, st);
    ConcatEmptyRight(r.0);
    WrappedStep(t, [p, m], level, st);
    WrappedStep(t, [m, p], level, st);
  }

  /** A wrapped node's text is its children's, ten columns further in, inside the call. */
  lemma WrappedStep(t: string, kids: seq<Node>, level: nat, st: GenState)
    requires GenBranchOf(t).Wrapped? && TravelAll(kids, level + 10, st).Ok?
    ensures var r := TravelAll(kids, level + 10, st).value;
            var b := GenBranchOf(t);
            Travel(Inner(t, kids), level, st) == Ok((b.open + Concat(r.0) + b.close, r.1))
  {
  }

  /** `X*` becomes `self._rpt(X, 0)`. */
  lemma StarBranch()
    ensures GenBranchOf("StarSuffix") == Wrapped("self._rpt(", ", 0)")
    ensures GenBranchOf("MacroStarSuffix") == Wrapped("self._rpt(", ", 0)")
  {
  }

  /** `X+` becomes `self._rpt(X, 1)`. */
  lemma PlusBranch()
    ensures GenBranchOf("PlusSuffix") == Wrapped("self._rpt(", ", 1)")
    ensures GenBranchOf("MacroPlusSuffix") == Wrapped("self._rpt(", ", 1)")
  {
  }

  /** `X?` becomes `self._opt(X)`. */
  lemma OptionalBranch()
    ensures GenBranchOf("QuestionSuffix") == Wrapped("self._opt(", ")")
    ensures GenBranchOf("MacroQuestionSuffix") == Wrapped("self._opt(", ")")
  {
  }

  /** `&X` becomes `self._and(X)` and `!X` becomes `self._not(X)`. */
  lemma LookaheadBranches()
    ensures GenBranchOf("AndPrefix") == Wrapped("self._and(", ")")
    ensures GenBranchOf("NotPrefix") == Wrapped("self._not(", ")")
  {
  }

  /** `>>X` becomes `self._skip(X)`. */
  lemma SkipBranch()
    ensures GenBranchOf("SkipPrefix") == Wrapped("self._skip(", ")")
  {
  }

  /** The operator marks print nothing. */
  lemma SuffixMarksSilent()
    ensures GenBranchOf("STAR").Other? && GenBranchOf("PLUS").Other?
  {
  }

  // ---------------------------------------------------------------------------
  // Reading and searching small trees, one child list at a time

  /** What the search finds below one child. */
  function Found(c: Node, x: string): seq<Node>
  {
    if IsNonTerminal(c) then Search(c, x, false) else []
  }

  lemma SearchInner(t: string, cs: seq<Node>, x: string)
    requires t != x
    ensures Search(Inner(t, cs), x, false) == SearchKids(cs, x, false)
  {
    assert Kids(Inner(t, cs)) == cs;
  }

  lemma SearchSelf(t: string, cs: seq<Node>)
    ensures Search(Inner(t, cs), t, false) == [Inner(t, cs)]
  {
  }

  lemma SearchKidsOne(a: Node, x: string)
    ensures SearchKids([a], x, false) == Found(a, x)
  {
    assert [a][0] == a && [a][1..] == [];
  }

  lemma SearchKidsCons(a: Node, cs: seq<Node>, x: string)
    ensures SearchKids([a] + cs, x, false) == Found(a, x) + SearchKids(cs, x, false)
  {
    assert ([a] + cs)[0] == a && ([a] + cs)[1..] == cs;
  }

  lemma SearchKidsTwo(a: Node, b: Node, x: string)
    ensures SearchKids([a, b], x, false) == Found(a, x) + Found(b, x)
  {
    assert [a, b] == [a] + [b];
    SearchKidsCons(a, [b], x);
    SearchKidsOne(b, x);
  }

  lemma SearchKidsThree(a: Node, b: Node, c: Node, x: string)
    ensures SearchKids([a, b, c], x, false) == Found(a, x) + Found(b, x) + Found(c, x)
  {
    assert [a, b, c] == [a] + [b, c];
    SearchKidsCons(a, [b, c], x);
    SearchKidsTwo(b, c, x);
    var fa, fb, fc := Found(a, x), Found(b, x), Found(c, x);
    assert fa + (fb + fc) == fa + fb + fc;
  }

  lemma SearchKidsSplit(cs: seq<Node>, x: string)
    requires cs != []
    ensures SearchKids(cs, x, false) == Found(cs[0], x) + SearchKids(cs[1..], x, false)
  {
  }

  lemma SearchKidsFive(a: Node, b: Node, c: Node, d: Node, e: Node, x: string)
    ensures SearchKids([a, b, c, d, e], x, false) == Found(a, x) + (Found(b, x) + (Found(c, x) + Found(d, x) + Found(e, x)))
  {
    var ks := [a, b, c, d, e];
    var tl := ks[1..];
    assert ks[0] == a && tl == [b, c, d, e];
    assert tl[0] == b && tl[1..] == [c, d, e];
    SearchKidsSplit(ks, x);
    SearchKidsSplit(tl, x);
    SearchKidsThree(c, d, e, x);
  }

  /** A mark holds nothing the search looks for. */
  lemma MarkSearch(t: string, s: string, x: string)
    requires x != t
    ensures Found(Mark(t, s), x) == []
  {
    SearchInner(t, [Leaf(s)], x);
    SearchKidsOne(Leaf(s), x);
  }

  /** A non-terminal's text with spacing dropped, for a type other than Spacing. */
  lemma TextInner(t: string, cs: seq<Node>)
    requires t != "Spacing"
    ensures GetStr(Inner(t, cs), NoSpacing) == GetStrs(cs, NoSpacing)
  {
    assert t !in NoSpacing;
  }

  lemma TextOne(c: Node, d: map<string, string>)
    ensures GetStrs([c], d) == GetStr(c, d)
  {
    assert [c][0] == c && [c][1..] == [];
    if GetStr(c, d).Ok? {
      assert GetStr(c, d).value + "" == GetStr(c, d).value;
    }
  }

  lemma TextTwo(a: Node, b: Node, d: map<string, string>)
    requires GetStr(a, d).Ok? && GetStr(b, d).Ok?
    ensures GetStrs([a, b], d) == Ok(GetStr(a, d).value + GetStr(b, d).value)
  {
    assert [a, b][0] == a && [a, b][1..] == [b];
    TextOne(b, d);
  }

  // ---------------------------------------------------------------------------
  // Repeats

  function NumberNode(k: string): Node { Inner("Number", [Leaf(k)]) }

  /** `{k}`. */
  function CountNum(k: string): Node
  {
    Inner("RepeatNum", [Mark("CURL_OPEN", "{"), Inner("RepeatCnt", [NumberNode(k)]), Mark("CURL_CLOSE", "}")])
  }

  /** `{lo,hi}`. */
  function RangeNum(lo: string, hi: string): Node
  {
    Inner("RepeatNum", [Mark("CURL_OPEN", "{"), Inner("MinRepeat", [NumberNode(lo)]), Mark("COMMA", ","),
                        Inner("MaxRepeat", [NumberNode(hi)]), Mark("CURL_CLOSE", "}")])
  }

  lemma NumberText(t: string, k: string)
    requires t != "Spacing"
    ensures TextOf(Inner(t, [NumberNode(k)]), NoSpacing) == Ok(k)
  {
    TextOne(Leaf(k), NoSpacing);
    TextInner("Number", [Leaf(k)]);
    TextOne(NumberNode(k), NoSpacing);
    TextInner(t, [NumberNode(k)]);
  }

  /** A count or bound node, `t` around one number: found when searched for, empty otherwise. */
  lemma NumberSearch(t: string, k: string, x: string)
    requires x != "Number"
    ensures Found(Inner(t, [NumberNode(k)]), x) == if t == x then [Inner(t, [NumberNode(k)])] else []
  {
    if t != x {
      SearchInner(t, [NumberNode(k)], x);
      SearchKidsOne(NumberNode(k), x);
      MarkSearch("Number", k, x);
    }
  }

  /** The three searches of the repeat branch in `{k}`. */
  lemma CountSearch(k: string, x: string)
    requires x == "RepeatCnt" || x == "MinRepeat" || x == "MaxRepeat"
    ensures Search(CountNum(k), x, false) == if x == "RepeatCnt" then [Inner("RepeatCnt", [NumberNode(k)])] else []
  {
    var o, c, cl := Mark("CURL_OPEN", "{"), Inner("RepeatCnt", [NumberNode(k)]), Mark("CURL_CLOSE", "}");
    SearchInner("RepeatNum", [o, c, cl], x);
    SearchKidsThree(o, c, cl, x);
    MarkSearch("CURL_OPEN", "{", x);
    MarkSearch("CURL_CLOSE", "}", x);
    NumberSearch("RepeatCnt", k, x);
  }

  /** A search for `x` in `{lo,hi}` is what the two bound nodes give. */
  lemma RangeSearchParts(lo: string, hi: string, x: string)
    requires x != "RepeatNum" && x != "CURL_OPEN" && x != "COMMA" && x != "CURL_CLOSE" && x != "Number"
    ensures Search(RangeNum(lo, hi), x, false)
            == Found(Inner("MinRepeat", [NumberNode(lo)]), x) + Found(Inner("MaxRepeat", [NumberNode(hi)]), x)
  {
    var o, a, cm, b, cl := Mark("CURL_OPEN", "{"), Inner("MinRepeat", [NumberNode(lo)]), Mark("COMMA", ","),
                           Inner("MaxRepeat", [NumberNode(hi)]), Mark("CURL_CLOSE", "}");
    MarkSearch("CURL_OPEN", "{", x);
    MarkSearch("COMMA", ",", x);
    MarkSearch("CURL_CLOSE", "}", x);
    SearchBetweenMarks("RepeatNum", o, a, cm, b, cl, x);
  }

  /** Searching a node of five children, three of which hold nothing, finds what the other two hold. */
  lemma SearchBetweenMarks(t: string, o: Node, a: Node, cm: Node, b: Node, cl: Node, x: string)
    requires t != x && Found(o, x) == [] && Found(cm, x) == [] && Found(cl, x) == []
    ensures Search(Inner(t, [o, a, cm, b, cl]), x, false) == Found(a, x) + Found(b, x)
  {
    SearchInner(t, [o, a, cm, b, cl], x);
    SearchKidsFive(o, a, cm, b, cl, x);
    var e: seq<Node> := [];
    var fa, fb := Found(a, x), Found(b, x);
    assert e + fb + e == fb;
    assert e + (fa + fb) == fa + fb;
  }

  /** The three searches of the repeat branch in `{lo,hi}`. */
  lemma RangeSearch(lo: string, hi: string, x: string)
    requires x == "RepeatCnt" || x == "MinRepeat" || x == "MaxRepeat"
    ensures Search(RangeNum(lo, hi), x, false)
            == if x == "MinRepeat" then [Inner("MinRepeat", [NumberNode(lo)])]
               else if x == "MaxRepeat" then [Inner("MaxRepeat", [NumberNode(hi)])]
               else []
  {
    RangeSearchParts(lo, hi, x);
    NumberSearch("MinRepeat", lo, x);
    NumberSearch("MaxRepeat", hi, x);
    var e: seq<Node> := [];
    assert [Inner("MinRepeat", [NumberNode(lo)])] + e == [Inner("MinRepeat", [NumberNode(lo)])];
    assert e + [Inner("MaxRepeat", [NumberNode(hi)])] == [Inner("MaxRepeat", [NumberNode(hi)])];
    assert e + e == e;
  }

  /** The braces' bounds: `{k}` gives "k,k". */
  lemma CountBounds(k: string)
    ensures RepeatRangeBelow(CountNum(k)) == Ok(k + "," + k)
  {
    CountSearch(k, "RepeatCnt");
    NumberText("RepeatCnt", k);
  }

  /** `{lo,hi}` gives "lo,hi". */
  lemma RangeBounds(lo: string, hi: string)
    ensures RepeatRangeBelow(RangeNum(lo, hi)) == Ok(lo + "," + hi)
  {
    RangeSearch(lo, hi, "RepeatCnt");
    RangeSearch(lo, hi, "MinRepeat");
    RangeSearch(lo, hi, "MaxRepeat");
    NumberText("MinRepeat", lo);
    NumberText("MaxRepeat", hi);
  }

  /** The corrected reading takes the bounds from the repeat's own RepeatNum child. */
  lemma OwnRepeatRange(t: string, p: Node, num: Node)
    requires Type(p) != "RepeatNum" && Type(num) == "RepeatNum"
    ensures RepeatRange(Inner(t, [p, num])) == RepeatRangeBelow(num)
  {
    assert [p, num][1..] == [num] && [num][1..] == [];
    assert FilterType([p, num], "RepeatNum") == [num];
  }

  /** The bounds depend only on the repeat's own braces, not on what it repeats. */
  lemma RepeatRangeIgnoresBody(t: string, p: Node, q: Node, num: Node)
    requires Type(p) != "RepeatNum" && Type(q) != "RepeatNum" && Type(num) == "RepeatNum"
    ensures RepeatRange(Inner(t, [p, num])) == RepeatRange(Inner(t, [q, num]))
  {
    OwnRepeatRange(t, p, num);
    OwnRepeatRange(t, q, num);
  }

  /** The repeat branch: the bounds searched first, then the children walked ten columns further in. */
  lemma RepeatStep(t: string, cs: seq<Node>, level: nat, st: GenState)
    requires GenBranchOf(t) == Repeat
    requires RepeatRangeBelow(Inner(t, cs)).Ok? && TravelAll(cs, level + 10, st).Ok?
    ensures var r := TravelAll(cs, level + 10, st).value;
            Travel(Inner(t, cs), level, st)
              == Ok(("self._rpt(" + Concat(r.0) + ", " + RepeatRangeBelow(Inner(t, cs)).value + ")", r.1))
  {
  }

  /** An expression holding no repeat bounds leaves the search to the braces: the code as written reads them. */
  lemma BoundsFromBraces(t: string, p: Node, num: Node)
    requires (t == "RepeatSuffix" || t == "MacroRepeatSuffix") && IsNonTerminal(num)
    requires Found(p, "RepeatCnt") == [] && Found(p, "MinRepeat") == [] && Found(p, "MaxRepeat") == []
    ensures RepeatRangeBelow(Inner(t, [p, num])) == RepeatRangeBelow(num)
  {
    PairSearch(t, p, num, "RepeatCnt");
    PairSearch(t, p, num, "MinRepeat");
    PairSearch(t, p, num, "MaxRepeat");
    var e: seq<Node> := [];
    assert e + Search(num, "RepeatCnt", false) == Search(num, "RepeatCnt", false);
    assert e + Search(num, "MinRepeat", false) == Search(num, "MinRepeat", false);
    assert e + Search(num, "MaxRepeat", false) == Search(num, "MaxRepeat", false);
  }

  /** Where the repeated expression holds no bounds, the code as written and the corrected reading agree. */
  lemma AsWrittenAgreesUnnested(t: string, p: Node, num: Node)
    requires (t == "RepeatSuffix" || t == "MacroRepeatSuffix") && Type(p) != "RepeatNum" && Type(num) == "RepeatNum"
    requires Found(p, "RepeatCnt") == [] && Found(p, "MinRepeat") == [] && Found(p, "MaxRepeat") == []
    ensures RepeatRangeBelow(Inner(t, [p, num])) == RepeatRange(Inner(t, [p, num]))
  {
    BoundsFromBraces(t, p, num);
    OwnRepeatRange(t, p, num);
  }

  /**
   * `X{k}` and `X{lo,hi}` become `self._rpt(X, k,k)` and `self._rpt(X, lo,hi)`
   * when `X` holds no repeat bounds of its own.
   */
  lemma RepeatCall(t: string, p: Node, num: Node, level: nat, st: GenState)
    requires t == "RepeatSuffix" || t == "MacroRepeatSuffix"
    requires Type(num) == "RepeatNum" && Silent(num)
    requires Found(p, "RepeatCnt") == [] && Found(p, "MinRepeat") == [] && Found(p, "MaxRepeat") == []
    requires Travel(p, level + 10, st).Ok? && RepeatRangeBelow(num).Ok?
    ensures var r := Travel(p, level + 10, st).value;
            Travel(Inner(t, [p, num]), level, st)
              == Ok(("self._rpt(" + r.0 + ", " + RepeatRangeBelow(num).value + ")", r.1))
  {
    var r := Travel(p, level + 10, st).value;
    RepeatBranch();
    BoundsFromBraces(t, p, num);
    SilentTravel(num, level + 10, r.1);
    TravelTwo(p, num, level + 10, st);
    ConcatEmptyRight(r.0);
    RepeatStep(t, [p, num], level, st);
  }

  lemma RepeatBranch()
    ensures GenBranchOf("RepeatSuffix") == Repeat && GenBranchOf("MacroRepeatSuffix") == Repeat
  {
  }

  lemma OpenBraceSilent()
    ensures GenBranchOf("CURL_OPEN").Other?
  {
  }

  lemma CloseBraceSilent()
    ensures GenBranchOf("CURL_CLOSE").Other?
  {
  }

  lemma CountTypesSilent()
    ensures GenBranchOf("RepeatNum").Other? && GenBranchOf("RepeatCnt").Other?
  {
  }

  lemma NumberSilent()
    ensures GenBranchOf("Number").Other? && GenBranchOf("COMMA").Other?
  {
  }

  lemma RangeTypesSilent()
    ensures GenBranchOf("MinRepeat").Other? && GenBranchOf("MaxRepeat").Other?
  {
  }

  lemma SilentInner(t: string, cs: seq<Node>)
    requires GenBranchOf(t).Other? && forall i :: 0 <= i < |cs| ==> Silent(cs[i])
    ensures Silent(Inner(t, cs))
  {
  }

  lemma SilentNumber(t: string, k: string)
    requires GenBranchOf(t).Other? && GenBranchOf("Number").Other?
    ensures Silent(Inner(t, [NumberNode(k)]))
  {
    SilentInner("Number", [Leaf(k)]);
    SilentInner(t, [NumberNode(k)]);
  }

  /** `{k}` prints nothing itself. */
  lemma SilentCount(k: string)
    ensures Silent(CountNum(k))
  {
    OpenBraceSilent();
    CloseBraceSilent();
    CountTypesSilent();
    NumberSilent();
    SilentMark("CURL_OPEN", "{");
    SilentMark("CURL_CLOSE", "}");
    SilentNumber("RepeatCnt", k);
    SilentInner("RepeatNum", [Mark("CURL_OPEN", "{"), Inner("RepeatCnt", [NumberNode(k)]), Mark("CURL_CLOSE", "}")]);
  }

  /** `{lo,hi}` prints nothing itself. */
  lemma SilentRange(lo: string, hi: string)
    ensures Silent(RangeNum(lo, hi))
  {
    OpenBraceSilent();
    CloseBraceSilent();
    CountTypesSilent();
    NumberSilent();
    RangeTypesSilent();
    SilentMark("CURL_OPEN", "{");
    SilentMark("COMMA", ",");
    SilentMark("CURL_CLOSE", "}");
    SilentNumber("MinRepeat", lo);
    SilentNumber("MaxRepeat", hi);
    SilentInner("RepeatNum", [Mark("CURL_OPEN", "{"), Inner("MinRepeat", [NumberNode(lo)]), Mark("COMMA", ","),
                              Inner("MaxRepeat", [NumberNode(hi)]), Mark("CURL_CLOSE", "}")]);
  }

  // ---------------------------------------------------------------------------
  // A repeat inside a repeat

  /** `A`, as the primary of a sequence item. */
  function IdPrimary(name: string): Node
  {
    Inner("Primary", [Inner("Identifier", [Leaf(name)])])
  }

  /** A one-item expression. */
  function Single(e: Node): Node
  {
    Inner("Expression", [Inner("Sequence", [Inner("SingleSequence", [Inner("Prefix", [Inner("Suffix", [e])])])])])
  }

  /** `( e )`: a parenthesised one-item expression. */
  function Group(e: Node): Node
  {
    Inner("Primary", [Mark("OPEN", "("), Single(e), Mark("CLOSE", ")")])
  }

  /** `(a{k})`. */
  function GroupedCount(a: string, k: string): Node
  {
    Group(Inner("RepeatSuffix", [IdPrimary(a), CountNum(k)]))
  }

  lemma WrapSearch(t: string, e: Node, x: string)
    requires t != x
    ensures Found(Inner(t, [e]), x) == Found(e, x)
  {
    SearchInner(t, [e], x);
    SearchKidsOne(e, x);
  }

  lemma PairSearch(t: string, a: Node, b: Node, x: string)
    requires t != x
    ensures Found(Inner(t, [a, b]), x) == Found(a, x) + Found(b, x)
  {
    SearchInner(t, [a, b], x);
    SearchKidsTwo(a, b, x);
  }

  lemma SingleSearch(e: Node, x: string)
    requires x == "RepeatCnt" || x == "MinRepeat" || x == "MaxRepeat"
    ensures Found(Single(e), x) == Found(e, x)
  {
    var suffix := Inner("Suffix", [e]);
    WrapSearch("Suffix", e, x);
    var prefix := Inner("Prefix", [suffix]);
    WrapSearch("Prefix", suffix, x);
    var single := Inner("SingleSequence", [prefix]);
    WrapSearch("SingleSequence", prefix, x);
    var sq := Inner("Sequence", [single]);
    WrapSearch("Sequence", single, x);
    WrapSearch("Expression", sq, x);
  }

  /** The brackets of a group hold nothing the repeat branch looks for. */
  lemma GroupSearch(e: Node, x: string)
    requires x == "RepeatCnt" || x == "MinRepeat" || x == "MaxRepeat"
    ensures Found(Group(e), x) == Found(e, x)
  {
    SingleSearch(e, x);
    MarkSearch("OPEN", "(", x);
    MarkSearch("CLOSE", ")", x);
    SearchInner("Primary", [Mark("OPEN", "("), Single(e), Mark("CLOSE", ")")], x);
    SearchKidsThree(Mark("OPEN", "("), Single(e), Mark("CLOSE", ")"), x);
  }

  /** What the three searches of the repeat branch find in `(a{k})`: the inner count only. */
  lemma GroupedCountSearch(a: string, k: string, x: string)
    requires x == "RepeatCnt" || x == "MinRepeat" || x == "MaxRepeat"
    ensures Found(GroupedCount(a, k), x) == Search(CountNum(k), x, false)
  {
    var inner := Inner("RepeatSuffix", [IdPrimary(a), CountNum(k)]);
    WrapSearch("Identifier", Leaf(a), x);
    WrapSearch("Primary", Inner("Identifier", [Leaf(a)]), x);
    PairSearch("RepeatSuffix", IdPrimary(a), CountNum(k), x);
    GroupSearch(inner, x);
  }

  /** The RepeatCnt search over `(a{k}){lo,hi}` finds only the inner count. */
  lemma NestedRangeSearch(t: string, a: string, k: string, lo: string, hi: string)
    requires t == "RepeatSuffix" || t == "MacroRepeatSuffix"
    ensures Search(Inner(t, [GroupedCount(a, k), RangeNum(lo, hi)]), "RepeatCnt", false) == [Inner("RepeatCnt", [NumberNode(k)])]
  {
    GroupedCountSearch(a, k, "RepeatCnt");
    CountSearch(k, "RepeatCnt");
    RangeSearch(lo, hi, "RepeatCnt");
    PairSearch(t, GroupedCount(a, k), RangeNum(lo, hi), "RepeatCnt");
  }

  /**
   * As written, `(a{k}){lo,hi}` is repeated k to k times: the search for
   * RepeatCnt finds the inner count and never looks at the outer bounds.
   */
  lemma NestedRangeTakesInnerCount(t: string, a: string, k: string, lo: string, hi: string)
    requires t == "RepeatSuffix" || t == "MacroRepeatSuffix"
    ensures RepeatRangeBelow(Inner(t, [GroupedCount(a, k), RangeNum(lo, hi)])) == Ok(k + "," + k)
    ensures RepeatRange(Inner(t, [GroupedCount(a, k), RangeNum(lo, hi)])) == Ok(lo + "," + hi)
  {
    NestedRangeSearch(t, a, k, lo, hi);
    NumberText("RepeatCnt", k);
    OwnRepeatRange(t, GroupedCount(a, k), RangeNum(lo, hi));
    RangeBounds(lo, hi);
  }

  /**
   * As written, `(a{k}){m}` raises the bare Exception: two RepeatCnt nodes
   * are found, and no MinRepeat.
   */
  lemma NestedCountRaises(t: string, a: string, k: string, m: string)
    requires t == "RepeatSuffix" || t == "MacroRepeatSuffix"
    ensures RepeatRangeBelow(Inner(t, [GroupedCount(a, k), CountNum(m)])) == Err(RepeatError)
    ensures RepeatRange(Inner(t, [GroupedCount(a, k), CountNum(m)])) == Ok(m + "," + m)
  {
    NestedCountSearch(t, a, k, m);
    OwnRepeatRange(t, GroupedCount(a, k), CountNum(m));
    CountBounds(m);
  }

  /** Below `(a{k}){m}` the search finds both RepeatCnt nodes and no MinRepeat. */
  lemma NestedCountSearch(t: string, a: string, k: string, m: string)
    requires t == "RepeatSuffix" || t == "MacroRepeatSuffix"
    ensures |Search(Inner(t, [GroupedCount(a, k), CountNum(m)]), "RepeatCnt", false)| == 2
    ensures Search(Inner(t, [GroupedCount(a, k), CountNum(m)]), "MinRepeat", false) == []
  {
    var g, c := GroupedCount(a, k), CountNum(m);
    GroupedCountSearch(a, k, "RepeatCnt");
    CountSearch(k, "RepeatCnt");
    CountSearch(m, "RepeatCnt");
    PairSearch(t, g, c, "RepeatCnt");
    GroupedCountSearch(a, k, "MinRepeat");
    CountSearch(k, "MinRepeat");
    CountSearch(m, "MinRepeat");
    PairSearch(t, g, c, "MinRepeat");
    var e: seq<Node> := [];
    assert e + e == e;
  }

  // ---------------------------------------------------------------------------
  // Calls and literals

  /** An identifier with its trailing spacing. */
  function IdNode(t: string, name: string): Node
  {
    Inner(t, [Leaf(name), Inner("Spacing", [Leaf(" ")])])
  }

  lemma IdText(t: string, name: string)
    requires t != "Spacing"
    ensures TextOf(IdNode(t, name), NoSpacing) == Ok(name)
  {
    var sp := Inner("Spacing", [Leaf(" ")]);
    assert "Spacing" in NoSpacing && NoSpacing["Spacing"] == "";
    assert GetStr(sp, NoSpacing) == Ok("");
    TextTwo(Leaf(name), sp, NoSpacing);
    assert name + "" == name;
    TextInner(t, [Leaf(name), sp]);
  }

  lemma IdentifierBranch()
    ensures GenBranchOf("Identifier") == Ident
  {
  }

  lemma MacroIdentifierBranch()
    ensures GenBranchOf("MacroIdentifier") == MacroIdent
  {
  }

  /** The `_` test of an Identifier looks at the name's first character. */
  lemma CallNamePrefix(name: string)
    ensures CallName(name) == if name != [] && name[0] == '_' then Lower(name) else RuleName("p_", name)
  {
    var f := Lower(name);
    if name != [] {
      assert StartsWith(f, "_") <==> f[0] == '_';
    } else {
      assert !StartsWith(f, "_");
    }
  }

  /**
   * A rule reference calls the method its definition becomes, `p_` and the
   * lower-cased name; a name starting with `_`, such as `_EOF`, calls the
   * built-in method of that name; the reference's spacing is dropped.
   */
  lemma IdentifierCalls(t: string, name: string, level: nat, st: GenState)
    requires GenBranchOf(t) == Ident
    ensures Travel(IdNode(t, name), level, st) == Ok((IdentifierCall(name), st))
    ensures CallName(name) == if name != [] && name[0] == '_' then Lower(name) else RuleName("p_", name)
  {
    assert t != "Spacing";
    IdText(t, name);
    CallNamePrefix(name);
  }

  /** A macro reference calls the `t_` method its macro definition becomes. */
  lemma MacroCalls(t: string, name: string, level: nat, st: GenState)
    requires GenBranchOf(t) == MacroIdent
    ensures Travel(IdNode(t, name), level, st) == Ok(("self._trm(self." + RuleName("t_", name) + ")", st))
  {
    assert t != "Spacing";
    IdText(t, name);
  }

  /** `'s'`. */
  function SingleQuoted(s: string): Node
  {
    Inner("SingleQuotesLiteral", [Leaf("'"), Inner("SingleQuotesLiteralContents", [Leaf(s)]), Leaf("'")])
  }

  /** `:I`. */
  function NoCase(): Node
  {
    Inner("LiteralOption", [Mark("COLON", ":"), Leaf("I")])
  }

  /** The contents node of `'s'` is found by the search for it. */
  lemma SingleQuotedContents(s: string)
    ensures Search(SingleQuoted(s), "SingleQuotesLiteralContents", false) == [Inner("SingleQuotesLiteralContents", [Leaf(s)])]
  {
    var c := Inner("SingleQuotesLiteralContents", [Leaf(s)]);
    SearchInner("SingleQuotesLiteral", [Leaf("'"), c, Leaf("'")], "SingleQuotesLiteralContents");
    SearchKidsThree(Leaf("'"), c, Leaf("'"), "SingleQuotesLiteralContents");
    SearchSelf("SingleQuotesLiteralContents", [Leaf(s)]);
  }

  /** Nothing of another type is found in `'s'`. */
  lemma SingleQuotedHolds(s: string, x: string)
    requires x != "SingleQuotesLiteral" && x != "SingleQuotesLiteralContents"
    ensures Found(SingleQuoted(s), x) == []
  {
    var c := Inner("SingleQuotesLiteralContents", [Leaf(s)]);
    SearchInner("SingleQuotesLiteral", [Leaf("'"), c, Leaf("'")], x);
    SearchKidsThree(Leaf("'"), c, Leaf("'"), x);
    MarkSearch("SingleQuotesLiteralContents", s, x);
  }

  lemma SingleQuotedValue(s: string)
    ensures LiteralValue(SingleQuoted(s)) == Ok("'" + Escape(s, '\'') + "'")
  {
    SingleQuotedContents(s);
    TextOne(Leaf(s), NoSpacing);
    TextInner("SingleQuotesLiteralContents", [Leaf(s)]);
    assert "" + ['\''] + Escape(s, '\'') + ['\''] == "'" + Escape(s, '\'') + "'";
  }

  /** The literal value of a node of another type: its children's values concatenated. */
  lemma OtherLiteralValue(t: string, cs: seq<Node>)
    requires t != "SingleQuotesLiteral" && t != "DoubleQuotesLiteral"
    ensures LiteralValue(Inner(t, cs)) == LiteralValues(cs)
  {
  }

  lemma LiteralValuesOne(a: Node)
    requires LiteralValue(a).Ok?
    ensures LiteralValues([a]) == LiteralValue(a)
  {
    assert [a][0] == a && [a][1..] == [];
    assert LiteralValue(a).value + "" == LiteralValue(a).value;
  }

  lemma LiteralValuesTwo(a: Node, b: Node)
    requires LiteralValue(a).Ok? && LiteralValue(b).Ok?
    ensures LiteralValues([a, b]) == Ok(LiteralValue(a).value + LiteralValue(b).value)
  {
    assert [a, b][0] == a && [a, b][1..] == [b];
    LiteralValuesOne(b);
  }

  /** `:I` adds nothing to the literal's value. */
  lemma NoCaseValue()
    ensures LiteralValue(NoCase()) == Ok("")
  {
    assert LiteralValue(Leaf(":")) == Ok("") && LiteralValue(Leaf("I")) == Ok("");
    LiteralValuesOne(Leaf(":"));
    OtherLiteralValue("COLON", [Leaf(":")]);
    LiteralValuesTwo(Mark("COLON", ":"), Leaf("I"));
    OtherLiteralValue("LiteralOption", [Mark("COLON", ":"), Leaf("I")]);
  }

  lemma LiteralBranch()
    ensures GenBranchOf("Literal") == Lit
  {
  }

  /** Only the Literal node takes the literal branch. */
  lemma LitIsLiteral(t: string)
    requires GenBranchOf(t) == Lit
    ensures t == "Literal"
  {
  }

  /** The literal branch: the value, and the `nocase` argument when an option is found below. */
  lemma LiteralLeaf(t: string, cs: seq<Node>, level: nat, st: GenState)
    requires GenBranchOf(t) == Lit && LiteralValue(Inner(t, cs)).Ok?
    ensures Travel(Inner(t, cs), level, st)
            == Ok(("self._l(" + LiteralValue(Inner(t, cs)).value
                   + (if Search(Inner(t, cs), "LiteralOption", false) == [] then ")" else ", nocase=True)"), st))
  {
  }

  lemma QuotedCallText(e: string)
    ensures "self._l(" + ("'" + e + "'") + ")" == "self._l('" + e + "')"
    ensures "self._l(" + ("'" + e + "'") + ", nocase=True)" == "self._l('" + e + "', nocase=True)"
  {
  }

  /** `'s':I` becomes `self._l('s', nocase=True)`, as in the generated parser under tests/testFiles. */
  lemma NoCaseLiteralCall(t: string, s: string, level: nat, st: GenState)
    requires GenBranchOf(t) == Lit
    ensures Travel(Inner(t, [SingleQuoted(s), NoCase()]), level, st)
            == Ok(("self._l('" + Escape(s, '\'') + "', nocase=True)", st))
  {
    LitIsLiteral(t);
    SingleQuotedValue(s);
    NoCaseValue();
    LiteralValuesTwo(SingleQuoted(s), NoCase());
    OtherLiteralValue(t, [SingleQuoted(s), NoCase()]);
    SingleQuotedHolds(s, "LiteralOption");
    SearchSelf("LiteralOption", [Mark("COLON", ":"), Leaf("I")]);
    PairSearch(t, SingleQuoted(s), NoCase(), "LiteralOption");
    LiteralLeaf(t, [SingleQuoted(s), NoCase()], level, st);
    assert "'" + Escape(s, '\'') + "'" + "" == "'" + Escape(s, '\'') + "'";
    QuotedCallText(Escape(s, '\''));
  }

  /** A literal without `:I` becomes `self._l(<quoted>)`. */
  lemma LiteralCall(t: string, s: string, level: nat, st: GenState)
    requires GenBranchOf(t) == Lit
    ensures Travel(Inner(t, [SingleQuoted(s)]), level, st) == Ok(("self._l('" + Escape(s, '\'') + "')", st))
  {
    LitIsLiteral(t);
    SingleQuotedValue(s);
    LiteralValuesOne(SingleQuoted(s));
    OtherLiteralValue(t, [SingleQuoted(s)]);
    SingleQuotedHolds(s, "LiteralOption");
    WrapSearch(t, SingleQuoted(s), "LiteralOption");
    LiteralLeaf(t, [SingleQuoted(s)], level, st);
    QuotedCallText(Escape(s, '\''));
  }
}
