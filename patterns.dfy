/**
 * The regular expressions that the parsers hand to `Reader.match_regexp`.
 * Python's regex engine is not part of this model; a regular expression is a
 * small pattern datatype with a deterministic prefix matcher: alternatives
 * are tried in order, `Star` is greedy and never gives characters back.  For
 * the patterns that occur in the two bootstrap grammars (every repetition and
 * every alternation stands at the end of its pattern or is decided by its
 * first character) this is the prefix that `re.match` returns.
 */
module Patterns {
  import opened Text

  datatype CharRange = CharRange(lo: char, hi: char)

  datatype Pattern =
    | Dot                                        // `.`: any character except '\n'
    | Class(ranges: seq<CharRange>, negated: bool) // `[...]` or `[^...]`
    | Str(s: string)                             // literal characters
    | Cat(first: Pattern, rest: Pattern)         // concatenation
    | Alt(left: Pattern, right: Pattern)         // `left|right`, left first
    | Star(body: Pattern)                        // `body*`, greedy

  predicate InRanges(c: char, rs: seq<CharRange>)
  {
    exists i :: 0 <= i < |rs| && rs[i].lo <= c <= rs[i].hi
  }

  predicate ClassHas(p: Pattern, c: char)
    requires p.Class?
  {
    InRanges(c, p.ranges) != p.negated
  }

  /**
   * The length of the prefix of `s` that `p` matches, or None.  A star stops
   * at the first iteration that fails or matches nothing.
   */
  function Match(p: Pattern, s: string): (r: Option<nat>)
    ensures r.Some? ==> r.value <= |s|
    decreases |s|, p
  {
    match p
    case Dot => if |s| > 0 && s[0] != '\n' then Some(1) else None
    case Class(_, _) => if |s| > 0 && ClassHas(p, s[0]) then Some(1) else None
    case Str(t) => if |t| <= |s| && s[..|t|] == t then Some(|t|) else None
    case Cat(a, b) =>
      (match Match(a, s)
       case None => None
       case Some(k) =>
         (match Match(b, s[k..])
          case None => None
          case Some(j) => Some(k + j)))
    case Alt(a, b) => if Match(a, s).Some? then Match(a, s) else Match(b, s)
    case Star(q) =>
      (match Match(q, s)
       case None => Some(0)
       case Some(k) =>
         if k == 0 then Some(0)
         else
           var j := Match(p, s[k..]).value;
           Some(k + j))
  }

  /** `q+` written as `q q*`. */
  function Plus(q: Pattern): Pattern { Cat(q, Star(q)) }

  /** `q?` written as `q|` (the empty string). */
  function Optional(q: Pattern): Pattern { Alt(q, Str("")) }

  /** A star never fails. */
  lemma StarAlwaysMatches(q: Pattern, s: string)
    ensures Match(Star(q), s).Some?
  {
  }

  /** A one-character class matches exactly one character of the class. */
  lemma ClassMatch(p: Pattern, s: string)
    requires p.Class?
    ensures Match(p, s) == Some(1) <==> |s| > 0 && ClassHas(p, s[0])
    ensures Match(p, s) != Some(1) ==> Match(p, s) == None
  {
  }

  /** A class followed by a star matches exactly when the class takes the first character. */
  lemma ClassThenStar(first: Pattern, q: Pattern, s: string)
    requires first.Class?
    ensures Match(Cat(first, Star(q)), s).Some? <==> |s| > 0 && ClassHas(first, s[0])
  {
    ClassMatch(first, s);
    if |s| > 0 && ClassHas(first, s[0]) {
      StarAlwaysMatches(q, s[1..]);
    }
  }

  /** A literal whose first character is not the next one does not match. */
  lemma StrMisses(t: string, s: string)
    requires |t| > 0 && (s == [] || s[0] != t[0])
    ensures Match(Str(t), s) == None
  {
    if |t| <= |s| {
      assert s[..|t|][0] == s[0];
    }
  }

  /**
   * What a star of a one-character class consumes: the longest prefix whose
   * characters all belong to the class.
   */
  lemma {:induction false} StarClassSpan(p: Pattern, s: string)
    requires p.Class?
    ensures Match(Star(p), s).Some?
    ensures var k := Match(Star(p), s).value;
      (forall i :: 0 <= i < k ==> ClassHas(p, s[i])) && (k == |s| || !ClassHas(p, s[k]))
    decreases |s|
  {
    if |s| > 0 && ClassHas(p, s[0]) {
      StarClassSpan(p, s[1..]);
      var j := Match(Star(p), s[1..]).value;
      assert Match(Star(p), s).value == 1 + j;
      forall i | 0 <= i < 1 + j ensures ClassHas(p, s[i]) {
        if i > 0 { assert s[i] == s[1..][i - 1]; }
      }
      if 1 + j < |s| { assert s[1 + j] == s[1..][j]; }
    }
  }

  /**
   * What a one-or-more repetition of a one-character class consumes: the
   * longest non-empty prefix whose characters all belong to the class.
   */
  lemma PlusClassSpan(p: Pattern, s: string)
    requires p.Class?
    ensures Match(Plus(p), s).Some? <==> |s| > 0 && ClassHas(p, s[0])
    ensures Match(Plus(p), s).Some? ==> var k := Match(Plus(p), s).value;
      0 < k && (forall i :: 0 <= i < k ==> ClassHas(p, s[i])) && (k == |s| || !ClassHas(p, s[k]))
  {
    ClassMatch(p, s);
    if |s| > 0 && ClassHas(p, s[0]) {
      StarClassSpan(p, s[1..]);
      var j := Match(Star(p), s[1..]).value;
      assert Match(Plus(p), s) == Some(1 + j);
      forall i | 0 <= i < 1 + j ensures ClassHas(p, s[i]) {
        if i > 0 { assert s[i] == s[1..][i - 1]; }
      }
      if 1 + j < |s| { assert s[1 + j] == s[1..][j]; }
    }
  }
}
