/**
 * Properties of the generator helpers: what the quoted literals mean, and
 * which regular-expression flags are passed and in what order.
 */
module GeneratorFacts {
  import opened Text
  import opened Nodes
  import opened Generator

  // ---------------------------------------------------------------------------
  // Quoted literals read back to the grammar's text

  lemma QuotedReads(s: string, q: char)
    requires q != '\\'
    ensures ReadQuoted([q] + Escape(s, q) + [q], q) == Some(s)
  {
    var t := [q] + Escape(s, q) + [q];
    assert t[1..|t| - 1] == Escape(s, q);
    EscapeReadsBack(s, q);
  }

  /** The quoted text `QuotedContents` builds reads back to the text of the first contents node. */
  lemma QuotedContentsReads(n: Node, contents: string, q: char, prefix: string)
    requires IsNonTerminal(n) && q != '\\' && QuotedContents(n, contents, q, prefix).Ok?
    ensures Search(n, contents, false) != []
    ensures TextOf(Search(n, contents, false)[0], NoSpacing).Ok?
    ensures var t := QuotedContents(n, contents, q, prefix).value;
            |prefix| <= |t| && t[..|prefix|] == prefix
            && ReadQuoted(t[|prefix|..], q) == Some(TextOf(Search(n, contents, false)[0], NoSpacing).value)
  {
    var s := TextOf(Search(n, contents, false)[0], NoSpacing).value;
    var t := QuotedContents(n, contents, q, prefix).value;
    assert t == prefix + ([q] + Escape(s, q) + [q]);
    assert t[|prefix|..] == [q] + Escape(s, q) + [q];
    QuotedReads(s, q);
  }

  /**
   * `get_literal_value` on a quoted literal: Python reads the generated
   * literal back to the contents text exactly, whatever quotes and
   * backslashes it holds.
   */
  lemma LiteralReadsBack(n: Node)
    requires IsNonTerminal(n) && LiteralValue(n).Ok?
    requires Type(n) == "SingleQuotesLiteral" || Type(n) == "DoubleQuotesLiteral"
    ensures var q := if Type(n) == "SingleQuotesLiteral" then '\'' else '"';
            var cont := Search(n, if q == '\'' then "SingleQuotesLiteralContents" else "DoubleQuotesLiteralContents", false);
            cont != [] && TextOf(cont[0], NoSpacing).Ok?
            && ReadQuoted(LiteralValue(n).value, q) == Some(TextOf(cont[0], NoSpacing).value)
  {
    if Type(n) == "SingleQuotesLiteral" {
      QuotedContentsReads(n, "SingleQuotesLiteralContents", '\'', "");
    } else {
      QuotedContentsReads(n, "DoubleQuotesLiteralContents", '"', "");
    }
  }

  /** `get_reg_value` quotes the pattern the same way, a single-quoted one after a `u` prefix. */
  lemma PatternReadsBack(n: Node)
    requires IsNonTerminal(n) && RegValue(n).Ok? && Type(n) == "SingleQuotesLiteral"
    ensures var cont := Search(n, "SingleQuotesLiteralContents", false);
            var t := RegValue(n).value;
            cont != [] && TextOf(cont[0], NoSpacing).Ok? && |t| >= 1 && t[0] == 'u'
            && ReadQuoted(t[1..], '\'') == Some(TextOf(cont[0], NoSpacing).value)
  {
    QuotedContentsReads(n, "SingleQuotesLiteralContents", '\'', "u");
  }

  // ---------------------------------------------------------------------------
  // Regular-expression flags

  /** Whether `k` is passed for the options text `opt`. */
  predicate FlagPassed(k: char, opt: string)
  {
    k in opt || (k == 'M' && 'm' !in opt)
  }

  lemma WithDefaultHas(k: char, opt: string)
    requires k != 'm'
    ensures k in WithDefault(opt) <==> FlagPassed(k, opt)
  {
    if 'm' !in opt {
      assert WithDefault(opt) == opt + "M";
      assert k in opt + "M" <==> k in opt || k == 'M';
    }
  }

  predicate StrictlyIncreasing(keys: seq<char>)
  {
    forall i, j :: 0 <= i < j < |keys| ==> keys[i] < keys[j]
  }

  lemma FlagNameOrder(a: char, b: char)
    requires a < b
    ensures StrLe(FlagName(a), FlagName(b)) && FlagName(a) != FlagName(b)
  {
    StrLePrefix("regex.", [a], [b]);
    assert FlagName(a)[6] == a && FlagName(b)[6] == b;
  }

  /** The flags of later keys all follow the flag of the first key. */
  lemma FirstFlagBelow(keys: seq<char>, opt: string)
    requires StrictlyIncreasing(keys) && keys != []
    ensures forall y :: y in multiset(PresentFlags(keys[1..], opt)) ==> StrLe(FlagName(keys[0]), y) && FlagName(keys[0]) != y
  {
    var rest := PresentFlags(keys[1..], opt);
    forall y | y in multiset(rest) ensures StrLe(FlagName(keys[0]), y) && FlagName(keys[0]) != y {
      assert y in rest;
      var k :| k in keys[1..] && k in opt && y == FlagName(k);
      var m :| 0 <= m < |keys[1..]| && keys[1..][m] == k;
      assert keys[0] < keys[m + 1];
      FlagNameOrder(keys[0], k);
    }
  }

  lemma IncreasingTail(keys: seq<char>)
    requires StrictlyIncreasing(keys) && keys != []
    ensures StrictlyIncreasing(keys[1..])
  {
    forall i, j | 0 <= i < j < |keys[1..]| ensures keys[1..][i] < keys[1..][j] {
      assert keys[1..][i] == keys[i + 1] && keys[1..][j] == keys[j + 1];
    }
  }

  /** Flags picked in the order of increasing keys come out strictly sorted. */
  lemma {:induction false} PresentFlagsSorted(keys: seq<char>, opt: string)
    requires StrictlyIncreasing(keys)
    ensures SortedStrings(PresentFlags(keys, opt))
    ensures forall i, j :: 0 <= i < j < |PresentFlags(keys, opt)| ==> PresentFlags(keys, opt)[i] != PresentFlags(keys, opt)[j]
  {
    if keys != [] {
      var rest := PresentFlags(keys[1..], opt);
      IncreasingTail(keys);
      PresentFlagsSorted(keys[1..], opt);
      if keys[0] in opt {
        var h := FlagName(keys[0]);
        var r := [h] + rest;
        assert PresentFlags(keys, opt) == r;
        FirstFlagBelow(keys, opt);
        SortedCons(h, rest);
        forall i, j | 0 <= i < j < |r| ensures r[i] != r[j] {
          assert r[j] == rest[j - 1];
          if i > 0 {
            assert r[i] == rest[i - 1];
          } else {
            assert rest[j - 1] in multiset(rest);
          }
        }
      } else {
        assert PresentFlags(keys, opt) == rest;
      }
    }
  }

  /** One key's contribution. */
  function Piece(k: char, opt: string): seq<string>
  {
    if k in opt then [FlagName(k)] else []
  }

  lemma PresentFlagsCons(k: char, keys: seq<char>, opt: string)
    ensures PresentFlags([k] + keys, opt) == Piece(k, opt) + PresentFlags(keys, opt)
  {
    assert ([k] + keys)[0] == k && ([k] + keys)[1..] == keys;
  }

  lemma FlagsInDictionaryOrder(opt: string)
    ensures PresentFlags(FlagKeys, opt)
            == Piece('M', opt) + (Piece('X', opt) + (Piece('A', opt) + (Piece('I', opt) + Piece('S', opt))))
  {
    PresentFlagsCons('S', [], opt);
    PresentFlagsCons('I', ['S'], opt);
    PresentFlagsCons('A', ['I', 'S'], opt);
    PresentFlagsCons('X', ['A', 'I', 'S'], opt);
    PresentFlagsCons('M', ['X', 'A', 'I', 'S'], opt);
    assert Piece('S', opt) + [] == Piece('S', opt);
  }

  lemma FlagsInNameOrder(opt: string)
    ensures PresentFlags(SortedFlagKeys, opt)
            == Piece('A', opt) + (Piece('I', opt) + (Piece('M', opt) + (Piece('S', opt) + Piece('X', opt))))
  {
    PresentFlagsCons('X', [], opt);
    PresentFlagsCons('S', ['X'], opt);
    PresentFlagsCons('M', ['S', 'X'], opt);
    PresentFlagsCons('I', ['M', 'S', 'X'], opt);
    PresentFlagsCons('A', ['I', 'M', 'S', 'X'], opt);
    assert Piece('X', opt) + [] == Piece('X', opt);
  }

  /** Both key orders pick the same flags. */
  lemma FlagsSameElements(opt: string)
    ensures multiset(PresentFlags(FlagKeys, opt)) == multiset(PresentFlags(SortedFlagKeys, opt))
  {
    FlagsInDictionaryOrder(opt);
    FlagsInNameOrder(opt);
    var a, i, m, s, x := Piece('A', opt), Piece('I', opt), Piece('M', opt), Piece('S', opt), Piece('X', opt);
    calc {
      multiset(m + (x + (a + (i + s))));
      multiset(m) + (multiset(x) + (multiset(a) + (multiset(i) + multiset(s))));
      multiset(a) + (multiset(i) + (multiset(m) + (multiset(s) + multiset(x))));
      multiset(a + (i + (m + (s + x))));
    }
  }

  lemma SortedFlagKeysIncrease()
    ensures StrictlyIncreasing(SortedFlagKeys)
  {
    forall i, j | 0 <= i < j < 5 ensures SortedFlagKeys[i] < SortedFlagKeys[j] { }
  }

  /** `sorted` puts the flags of `reg_opt_dic` in the order of their names. */
  lemma SortedFlags(opt: string)
    ensures SortStrings(PresentFlags(FlagKeys, opt)) == PresentFlags(SortedFlagKeys, opt)
  {
    FlagsSameElements(opt);
    SortedFlagKeysIncrease();
    PresentFlagsSorted(SortedFlagKeys, opt);
    SortedUnique(SortStrings(PresentFlags(FlagKeys, opt)), PresentFlags(SortedFlagKeys, opt));
  }

  /** The rendered options: the flags in the order of their names, or nothing. */
  lemma RegOptionsRendering(opt: string)
    ensures var flags := PresentFlags(SortedFlagKeys, WithDefault(opt));
            RegOptions(opt) == (if flags == [] then "" else ", " + Join(flags, " | "))
  {
    var o := WithDefault(opt);
    SortedFlags(o);
    assert multiset(SortStrings(PresentFlags(FlagKeys, o))) == multiset(PresentFlags(FlagKeys, o));
    calc {
      |PresentFlags(FlagKeys, o)|;
      |multiset(PresentFlags(FlagKeys, o))|;
      |multiset(SortStrings(PresentFlags(FlagKeys, o)))|;
      |PresentFlags(SortedFlagKeys, o)|;
    }
  }

  /** Which flags are passed: those named in the options, and M unless `m` is. */
  lemma FlagsPassed(opt: string)
    ensures forall k :: FlagName(k) in PresentFlags(SortedFlagKeys, WithDefault(opt))
                        <==> k in SortedFlagKeys && FlagPassed(k, opt)
  {
    var o := WithDefault(opt);
    var flags := PresentFlags(SortedFlagKeys, o);
    forall k ensures FlagName(k) in flags <==> k in SortedFlagKeys && FlagPassed(k, opt) {
      if FlagName(k) in flags {
        var k' :| k' in SortedFlagKeys && k' in o && FlagName(k) == FlagName(k');
        assert FlagName(k)[6] == k && FlagName(k')[6] == k';
        WithDefaultHas(k, opt);
      }
      if k in SortedFlagKeys && FlagPassed(k, opt) {
        WithDefaultHas(k, opt);
      }
    }
  }

  /**
   * The options part of `get_reg_value`: the flags of M, X, A, I and S that
   * the options name, M also when `m` is absent, each once, sorted by name
   * and joined with " | "; nothing when no flag is passed.
   */
  lemma RegOptionsSpec(opt: string)
    ensures var flags := PresentFlags(SortedFlagKeys, WithDefault(opt));
            && RegOptions(opt) == (if flags == [] then "" else ", " + Join(flags, " | "))
            && SortedStrings(flags)
            && (forall i, j :: 0 <= i < j < |flags| ==> flags[i] != flags[j])
            && (forall k :: FlagName(k) in flags <==> k in SortedFlagKeys && FlagPassed(k, opt))
  {
    RegOptionsRendering(opt);
    SortedFlagKeysIncrease();
    PresentFlagsSorted(SortedFlagKeys, WithDefault(opt));
    FlagsPassed(opt);
  }

  lemma FlagNames()
    ensures FlagName('A') == "regex.A" && FlagName('I') == "regex.I" && FlagName('M') == "regex.M"
    ensures FlagName('S') == "regex.S" && FlagName('X') == "regex.X"
  {
    assert forall i | 0 <= i < 7 :: FlagName('A')[i] == "regex.A"[i];
    assert forall i | 0 <= i < 7 :: FlagName('I')[i] == "regex.I"[i];
    assert forall i | 0 <= i < 7 :: FlagName('M')[i] == "regex.M"[i];
    assert forall i | 0 <= i < 7 :: FlagName('S')[i] == "regex.S"[i];
    assert forall i | 0 <= i < 7 :: FlagName('X')[i] == "regex.X"[i];
  }

  // The cases of tests/test_parserGenerator.py, options part, for any
  // options text with the same letters.

  lemma FlagsDefault(opt: string)
    requires 'm' !in opt && 'M' !in opt && 'X' !in opt && 'A' !in opt && 'I' !in opt && 'S' !in opt
    ensures PresentFlags(SortedFlagKeys, WithDefault(opt)) == ["regex.M"]
  {
    var o := WithDefault(opt);
    WithDefaultHas('A', opt); WithDefaultHas('I', opt); WithDefaultHas('M', opt);
    WithDefaultHas('S', opt); WithDefaultHas('X', opt);
    FlagsInNameOrder(o);
    FlagNames();
    assert Piece('A', o) == [] && Piece('I', o) == [] && Piece('S', o) == [] && Piece('X', o) == [];
    assert Piece('M', o) == ["regex.M"];
  }

  /** No options (test case ""): only multi-line matching. */
  lemma RegOptionsDefault(opt: string)
    requires 'm' !in opt && 'M' !in opt && 'X' !in opt && 'A' !in opt && 'I' !in opt && 'S' !in opt
    ensures RegOptions(opt) == ", " + "regex.M"
  {
    RegOptionsRendering(opt);
    FlagsDefault(opt);
    assert Join(["regex.M"], " | ") == "regex.M";
  }

  lemma FlagsNoMultiline(opt: string)
    requires 'm' in opt && 'M' !in opt && 'X' in opt && 'A' in opt && 'I' !in opt && 'S' !in opt
    ensures PresentFlags(SortedFlagKeys, WithDefault(opt)) == ["regex.A", "regex.X"]
  {
    assert WithDefault(opt) == opt;
    FlagsInNameOrder(opt);
    FlagNames();
    assert Piece('I', opt) == [] && Piece('S', opt) == [] && Piece('M', opt) == [];
    assert Piece('A', opt) == ["regex.A"] && Piece('X', opt) == ["regex.X"];
  }

  /** Case "mXA": `m` turns multi-line matching off. */
  lemma RegOptionsNoMultiline(opt: string)
    requires 'm' in opt && 'M' !in opt && 'X' in opt && 'A' in opt && 'I' !in opt && 'S' !in opt
    ensures RegOptions(opt) == ", " + Join(["regex.A", "regex.X"], " | ")
  {
    RegOptionsRendering(opt);
    FlagsNoMultiline(opt);
  }

  lemma FlagsAddMultiline(opt: string)
    requires 'm' !in opt && 'X' in opt && 'A' in opt && 'I' !in opt && 'S' !in opt
    ensures PresentFlags(SortedFlagKeys, WithDefault(opt)) == ["regex.A", "regex.M", "regex.X"]
  {
    var o := WithDefault(opt);
    WithDefaultHas('A', opt); WithDefaultHas('I', opt); WithDefaultHas('M', opt);
    WithDefaultHas('S', opt); WithDefaultHas('X', opt);
    FlagsInNameOrder(o);
    FlagNames();
    assert Piece('I', o) == [] && Piece('S', o) == [];
    assert Piece('A', o) == ["regex.A"] && Piece('M', o) == ["regex.M"] && Piece('X', o) == ["regex.X"];
  }

  /** Case "XA": M is added and the flags are sorted. */
  lemma RegOptionsAddsMultiline(opt: string)
    requires 'm' !in opt && 'X' in opt && 'A' in opt && 'I' !in opt && 'S' !in opt
    ensures RegOptions(opt) == ", " + Join(["regex.A", "regex.M", "regex.X"], " | ")
  {
    RegOptionsRendering(opt);
    FlagsAddMultiline(opt);
  }

  lemma FlagsAll(opt: string)
    requires 'm' !in opt && 'X' in opt && 'A' in opt && 'I' in opt && 'S' in opt
    ensures PresentFlags(SortedFlagKeys, WithDefault(opt)) == ["regex.A", "regex.I", "regex.M", "regex.S", "regex.X"]
  {
    var o := WithDefault(opt);
    WithDefaultHas('A', opt); WithDefaultHas('I', opt); WithDefaultHas('M', opt);
    WithDefaultHas('S', opt); WithDefaultHas('X', opt);
    FlagsInNameOrder(o);
    FlagNames();
    assert Piece('A', o) == ["regex.A"] && Piece('I', o) == ["regex.I"] && Piece('M', o) == ["regex.M"];
    assert Piece('S', o) == ["regex.S"] && Piece('X', o) == ["regex.X"];
  }

  /** Cases "XAIS" and "XAISAIS": every flag once, repeated letters or not. */
  lemma RegOptionsAllFlags(opt: string)
    requires 'm' !in opt && 'X' in opt && 'A' in opt && 'I' in opt && 'S' in opt
    ensures RegOptions(opt) == ", " + Join(["regex.A", "regex.I", "regex.M", "regex.S", "regex.X"], " | ")
  {
    RegOptionsRendering(opt);
    FlagsAll(opt);
  }
}
