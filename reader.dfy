/**
 * tacparser/reader.py: a cursor over an immutable text with a high-water
 * mark, an optional end limit used when a node's span is parsed again, and
 * a line-offset index built on first use.
 */
module Reading {
  import opened Text
  import opened Patterns

  /** The exceptions the reader raises. */
  datatype ReaderError = ValueError | IndexError

  datatype Outcome = Completed | Raised(error: ReaderError)

  /** What `pos2linecolumn` returns: line, column and the character at the position. */
  datatype LineColumn = LineColumn(line: nat, column: nat, ch: string)

  // ---------------------------------------------------------------------------
  // Lines, as `str.splitlines(True)` cuts them

  /** The line boundaries of Python's `str.splitlines`. */
  predicate IsLineBreak(c: char)
  {
    c == '\n' || c == '\r' || c as int == 0x0B || c as int == 0x0C || c as int == 0x1C
    || c as int == 0x1D || c as int == 0x1E || c as int == 0x85 || c as int == 0x2028 || c as int == 0x2029
  }

  /** The end of the line that contains position `j`: past its break, "\r\n" counting as one. */
  function LineEndFrom(s: string, j: nat): (e: nat)
    requires j <= |s|
    ensures j <= e <= |s| && (j < |s| ==> j < e)
    decreases |s| - j
  {
    if j == |s| then |s|
    else if IsLineBreak(s[j]) then (if s[j] == '\r' && j + 1 < |s| && s[j + 1] == '\n' then j + 2 else j + 1)
    else LineEndFrom(s, j + 1)
  }

  /** `s.splitlines(True)`: the lines, each with its terminator. */
  function SplitLines(s: string): (lines: seq<string>)
    decreases |s|
  {
    if s == [] then [] else var e := LineEndFrom(s, 0); [s[..e]] + SplitLines(s[e..])
  }

  /** Running totals of the line lengths, starting from `base`. */
  function CumulativeEnds(lines: seq<string>, base: nat): seq<nat>
  {
    if lines == [] then [] else [base + |lines[0]|] + CumulativeEnds(lines[1..], base + |lines[0]|)
  }

  /** The contents of `__linepos__` once built: the position just past each line. */
  function LineEnds(s: string): seq<nat>
  {
    CumulativeEnds(SplitLines(s), 0)
  }

  predicate Increasing(ends: seq<nat>)
  {
    forall i, j :: 0 <= i < j < |ends| ==> ends[i] < ends[j]
  }

  lemma {:induction false} SplitLinesConcat(s: string)
    ensures Concat(SplitLines(s)) == s
    ensures forall i :: 0 <= i < |SplitLines(s)| ==> SplitLines(s)[i] != []
    decreases |s|
  {
    if s != [] {
      var e := LineEndFrom(s, 0);
      SplitLinesConcat(s[e..]);
      assert SplitLines(s) == [s[..e]] + SplitLines(s[e..]);
      assert Concat(SplitLines(s)) == s[..e] + Concat(SplitLines(s[e..]));
      assert s[..e] + s[e..] == s;
    }
  }

  lemma {:induction false} CumulativeEndsShape(lines: seq<string>, base: nat)
    requires forall i :: 0 <= i < |lines| ==> lines[i] != []
    ensures var ends := CumulativeEnds(lines, base);
      |ends| == |lines| && Increasing(ends)
      && (forall i :: 0 <= i < |ends| ==> base < ends[i] <= base + |Concat(lines)|)
      && (lines != [] ==> ends[|ends| - 1] == base + |Concat(lines)|)
  {
    if lines != [] {
      var b := base + |lines[0]|;
      CumulativeEndsShape(lines[1..], b);
      var rest := CumulativeEnds(lines[1..], b);
      var ends := CumulativeEnds(lines, base);
      assert ends == [b] + rest;
      assert |Concat(lines)| == |lines[0]| + |Concat(lines[1..])|;
      forall i, j | 0 <= i < j < |ends| ensures ends[i] < ends[j] {
        if i > 0 { assert ends[i] == rest[i - 1] && ends[j] == rest[j - 1]; }
        else { assert ends[j] == rest[j - 1]; }
      }
      if lines[1..] == [] { assert |Concat(lines[1..])| == 0; }
    }
  }

  /** The line ends are increasing, positive, and the last one is the length of the text. */
  lemma LineEndsShape(s: string)
    ensures var ends := LineEnds(s);
      Increasing(ends) && (forall i :: 0 <= i < |ends| ==> 0 < ends[i] <= |s|)
      && (ends == [] <==> s == []) && (s != [] ==> ends[|ends| - 1] == |s|)
  {
    SplitLinesConcat(s);
    CumulativeEndsShape(SplitLines(s), 0);
    if s != [] { assert SplitLines(s) != []; }
    if s == [] { assert SplitLines(s) == []; }
  }

  lemma {:induction false} CumulativeEndsSnoc(lines: seq<string>, base: nat, l: string)
    ensures CumulativeEnds(lines + [l], base) == CumulativeEnds(lines, base) + [base + |Concat(lines)| + |l|]
  {
    if lines == [] {
      assert lines + [l] == [l];
      assert Concat(lines) == "";
    } else {
      var b := base + |lines[0]|;
      assert (lines + [l])[0] == lines[0];
      assert (lines + [l])[1..] == lines[1..] + [l];
      CumulativeEndsSnoc(lines[1..], b, l);
      assert CumulativeEnds(lines + [l], base) == [b] + CumulativeEnds(lines[1..] + [l], b);
      assert CumulativeEnds(lines, base) == [b] + CumulativeEnds(lines[1..], b);
      assert Concat(lines) == lines[0] + Concat(lines[1..]);
    }
  }

  // ---------------------------------------------------------------------------
  // pos2linecolumn

  /** The scan over the line ends from entry `k`, the previous end being `prev`. */
  function ScanLines(c: string, ends: seq<nat>, p: nat, k: nat, prev: nat): Result<LineColumn, ReaderError>
    requires k <= |ends| && Increasing(ends) && (forall i :: 0 <= i < |ends| ==> ends[i] <= |c|)
    requires k > 0 ==> prev == ends[k - 1]
    requires k == 0 ==> prev == 0
    decreases |ends| - k
  {
    if k == |ends| then
      if p == prev then
        if |ends| < 2 then Ok(LineColumn(|ends|, p, "")) else Ok(LineColumn(|ends|, p - ends[|ends| - 2], ""))
      else Err(IndexError)
    else if ends[k] > p >= prev then Ok(LineColumn(k + 1, p - prev, [c[p]]))
    else ScanLines(c, ends, p, k + 1, ends[k])
  }

  /** `pos2linecolumn(p)` on the text `c`. */
  function LineColumnAt(c: string, p: nat): Result<LineColumn, ReaderError>
  {
    LineEndsShape(c);
    ScanLines(c, LineEnds(c), p, 0, 0)
  }

  /** Where line `line` (1-based) starts, given the line ends. */
  function LineStart(ends: seq<nat>, line: nat): nat
    requires 1 <= line <= |ends| + 1
  {
    if line == 1 then 0 else ends[line - 2]
  }

  lemma {:induction false} ScanFinds(c: string, ends: seq<nat>, p: nat, k: nat, prev: nat)
    requires k <= |ends| && Increasing(ends) && (forall i :: 0 <= i < |ends| ==> ends[i] <= |c|)
    requires k > 0 ==> prev == ends[k - 1]
    requires k == 0 ==> prev == 0
    requires prev <= p
    ensures match ScanLines(c, ends, p, k, prev)
      case Ok(lc) =>
        if lc.ch != "" then
          1 <= lc.line <= |ends| && LineStart(ends, lc.line) <= p < ends[lc.line - 1]
          && lc.column == p - LineStart(ends, lc.line) && p < |c| && lc.ch == [c[p]]
        else
          p == (if ends == [] then 0 else ends[|ends| - 1]) && lc.line == |ends|
          && lc.column == (if |ends| < 2 then p else p - ends[|ends| - 2])
          && (forall i :: 0 <= i < |ends| ==> ends[i] <= p)
      case Err(e) => e == IndexError && (forall i :: 0 <= i < |ends| ==> ends[i] <= p) && p != (if ends == [] then 0 else ends[|ends| - 1])
    decreases |ends| - k
  {
    if k == |ends| {
      forall i | 0 <= i < |ends| ensures ends[i] <= p {
        if i < |ends| - 1 { assert ends[i] < ends[|ends| - 1]; }
      }
    } else if ends[k] > p {
    } else {
      assert ScanLines(c, ends, p, k, prev) == ScanLines(c, ends, p, k + 1, ends[k]);
      ScanFinds(c, ends, p, k + 1, ends[k]);
    }
  }

  /**
   * Inside the text, the line is 1-based, the column counts from the start of
   * that line and the character at the position comes along.  At the very
   * end there is no character: the line is the number of lines and the
   * column the length of the last line (the position itself for a text of
   * at most one line).  Beyond the end the reader raises IndexError.
   */
  lemma LineColumnMeaning(c: string, p: nat)
    ensures var ends := LineEnds(c); var r := LineColumnAt(c, p);
      (p < |c| ==> r.Ok? && 1 <= r.value.line <= |ends|
                   && LineStart(ends, r.value.line) <= p < ends[r.value.line - 1]
                   && r.value.column == p - LineStart(ends, r.value.line) && r.value.ch == [c[p]])
      && (p == |c| ==> r.Ok? && r.value.line == |ends| && r.value.ch == ""
                       && r.value.column == (if |ends| < 2 then p else p - ends[|ends| - 2]))
      && (p > |c| ==> r == Err(IndexError))
  {
    LineEndsShape(c);
    var ends := LineEnds(c);
    ScanFinds(c, ends, p, 0, 0);
  }

  /** The span fields `set_position` derives for a node from `startpos` to `endpos`. */
  function LineOf(c: string, p: nat): (r: (nat, nat))
    requires p <= |c|
  {
    LineColumnMeaning(c, p);
    var lc := LineColumnAt(c, p).value;
    (lc.line, lc.column)
  }

  // ---------------------------------------------------------------------------
  // Matching

  /** What `match_literal(lit, flg, nocase)` answers at cursor `pos`. */
  function LiteralMatch(c: string, pos: nat, endpos: int, lit: string, nocase: bool): Option<string>
    requires pos <= |c|
  {
    var next := c[pos..Min(pos + |lit|, |c|)];
    if 0 < endpos < pos + |lit| then None
    else if !nocase && next == lit then Some(lit)
    else if nocase && Lower(next) == Lower(lit) then Some(next)
    else None
  }

  /**
   * A literal matches iff the end limit (when positive) leaves room for it
   * and the next `|lit|` characters are the literal, compared after
   * lower-casing under `nocase`.  The answer is the literal itself, or the
   * text actually read under `nocase`.
   */
  lemma LiteralMatchIff(c: string, pos: nat, endpos: int, lit: string, nocase: bool)
    requires pos <= |c|
    ensures var m := LiteralMatch(c, pos, endpos, lit, nocase);
      (m.Some? <==> (endpos <= 0 || pos + |lit| <= endpos) && pos + |lit| <= |c|
                    && (if nocase then Lower(c[pos..pos + |lit|]) == Lower(lit) else c[pos..pos + |lit|] == lit))
      && (m.Some? ==> |m.value| == |lit| && m.value == (if nocase then c[pos..pos + |lit|] else lit))
  {
    var next := c[pos..Min(pos + |lit|, |c|)];
    if pos + |lit| > |c| {
      assert |next| < |lit|;
      assert |Lower(next)| != |Lower(lit)|;
    }
  }

  /** A limit of 0 or below does not restrict literals. */
  lemma LiteralLimitOff(c: string, pos: nat, endpos: int, lit: string, nocase: bool)
    requires pos <= |c| && endpos <= 0
    ensures LiteralMatch(c, pos, endpos, lit, nocase) == LiteralMatch(c, pos, -1, lit, nocase)
  {
  }

  /** The text a regular expression is matched against: `contents[pos:]`, or `contents[pos:endpos]` under a limit. */
  function Window(c: string, pos: nat, endpos: int): (w: string)
    requires pos <= |c| && endpos <= |c|
    ensures pos + |w| <= |c| && w == c[pos..pos + |w|]
  {
    if endpos < 0 then c[pos..] else c[pos..Max(pos, endpos)]
  }

  /** What `match_regexp(reg, flg)` answers at cursor `pos`. */
  function RegexpMatch(c: string, pos: nat, endpos: int, reg: Pattern): (m: Option<string>)
    requires pos <= |c| && endpos <= |c|
  {
    var w := Window(c, pos, endpos);
    match Match(reg, w)
    case None => None
    case Some(k) => Some(w[..k])
  }

  /**
   * A regular expression reads the text from the cursor on; under a limit
   * of 0 or more it never reads past the limit.
   */
  lemma RegexpSeesWindow(c: string, pos: nat, endpos: int, reg: Pattern)
    requires pos <= |c| && endpos <= |c|
    ensures var m := RegexpMatch(c, pos, endpos, reg);
      m.Some? ==> pos + |m.value| <= |c| && m.value == c[pos..pos + |m.value|]
                  && (endpos >= 0 ==> pos + |m.value| <= Max(pos, endpos))
  {
  }

  // ---------------------------------------------------------------------------
  // The reader object

  class Reader {
    const contents: string
    var pos: nat
    var maxpos: nat
    var length: nat
    var linepos: seq<nat>
    var endpos: int

    ghost predicate Valid()
      reads this
    {
      length == |contents| && pos <= length && maxpos <= length && endpos <= length
      && (linepos == [] || linepos == LineEnds(contents))
    }

    /** `StringReader(string)`. */
    constructor (s: string)
      ensures Valid() && contents == s && pos == 0 && maxpos == 0 && length == |s|
      ensures linepos == [] && endpos == -1
    {
      contents := s;
      pos := 0;
      maxpos := 0;
      length := |s|;
      linepos := [];
      endpos := -1;
    }

    method MatchLiteral(lit: string, flg: bool, nocase: bool) returns (m: Option<string>)
      requires Valid()
      modifies this`pos, this`maxpos
      ensures Valid()
      ensures m == LiteralMatch(contents, old(pos), endpos, lit, nocase)
      ensures pos == if m.Some? && flg then old(pos) + |lit| else old(pos)
      ensures maxpos == if m.Some? && flg then Max(old(maxpos), pos) else old(maxpos)
    {
      LiteralMatchIff(contents, pos, endpos, lit, nocase);
      var next := contents[pos..Min(pos + |lit|, |contents|)];
      if 0 < endpos < pos + |lit| {
        return None;
      }
      if !nocase && next == lit {
        if flg {
          pos := pos + |lit|;
          var _ := GetMaxPosition();
        }
        return Some(lit);
      } else if nocase && Lower(next) == Lower(lit) {
        if flg {
          pos := pos + |lit|;
          var _ := GetMaxPosition();
        }
        return Some(next);
      }
      return None;
    }

    method MatchRegexp(reg: Pattern, flg: bool) returns (m: Option<string>)
      requires Valid()
      modifies this`pos, this`maxpos
      ensures Valid()
      ensures m == RegexpMatch(contents, old(pos), endpos, reg)
      ensures pos == if m.Some? && flg then old(pos) + |m.value| else old(pos)
      ensures maxpos == if m.Some? then Max(old(maxpos), pos) else old(maxpos)
    {
      RegexpSeesWindow(contents, pos, endpos, reg);
      var w := if endpos < 0 then contents[pos..] else contents[pos..Max(pos, endpos)];
      var k := Match(reg, w);
      if k.Some? {
        var mg := w[..k.value];
        if flg {
          pos := pos + |mg|;
        }
        var _ := GetMaxPosition();
        return Some(mg);
      }
      return None;
    }

    method GetMaxPosition() returns (m: nat)
      requires Valid()
      modifies this`maxpos
      ensures Valid()
      ensures maxpos == Max(old(maxpos), pos) && m == maxpos
    {
      if pos > maxpos {
        maxpos := pos;
      }
      return maxpos;
    }

    method Pos2LineColumn(p: nat) returns (r: Result<LineColumn, ReaderError>)
      requires Valid()
      modifies this`linepos
      ensures Valid() && linepos == LineEnds(contents)
      ensures r == LineColumnAt(contents, p)
    {
      if |linepos| == 0 {
        var lines := SplitLines(contents);
        var linePos: nat := 0;
        var acc: seq<nat> := [];
        var i := 0;
        while i < |lines|
          invariant 0 <= i <= |lines|
          invariant linePos == |Concat(lines[..i])|
          invariant acc == CumulativeEnds(lines[..i], 0)
        {
          CumulativeEndsSnoc(lines[..i], 0, lines[i]);
          ConcatAppend(lines[..i], [lines[i]]);
          assert lines[..i + 1] == lines[..i] + [lines[i]];
          assert Concat([lines[i]]) == lines[i] + Concat([]);
          linePos := linePos + |lines[i]|;
          acc := acc + [linePos];
          i := i + 1;
        }
        assert lines[..i] == lines;
        linepos := acc;
      }
      LineEndsShape(contents);
      var prev: nat := 0;
      var k := 0;
      while k < |linepos|
        invariant 0 <= k <= |linepos|
        invariant k > 0 ==> prev == linepos[k - 1]
        invariant k == 0 ==> prev == 0
        invariant ScanLines(contents, linepos, p, k, prev) == LineColumnAt(contents, p)
      {
        if linepos[k] > p >= prev {
          return Ok(LineColumn(k + 1, p - prev, [contents[p]]));
        }
        prev := linepos[k];
        k := k + 1;
      }
      if p == prev {
        if k < 2 {
          return Ok(LineColumn(k, p, ""));
        }
        return Ok(LineColumn(k, p - linepos[|linepos| - 2], ""));
      }
      return Err(IndexError);
    }

    method GetMaxLineColumn() returns (r: Result<LineColumn, ReaderError>)
      requires Valid()
      modifies this`linepos
      ensures Valid() && linepos == LineEnds(contents)
      ensures r == LineColumnAt(contents, maxpos)
    {
      r := Pos2LineColumn(maxpos);
    }

    method GetPosition() returns (p: nat)
      ensures p == pos
    {
      return pos;
    }

    method SetPosition(n: nat) returns (r: Outcome)
      requires Valid()
      modifies this`pos, this`maxpos
      ensures Valid()
      ensures r == (if n > old(length) then Raised(ValueError) else Completed)
      ensures r.Completed? ==> pos == n && maxpos == Max(old(maxpos), n)
      ensures r.Raised? ==> pos == old(pos) && maxpos == old(maxpos)
    {
      if n > length {
        return Raised(ValueError);
      }
      pos := n;
      var _ := GetMaxPosition();
      return Completed;
    }

    method PartialReposition(start: nat, end: int) returns (r: Outcome)
      requires Valid()
      modifies this`pos, this`maxpos, this`endpos, this`length
      ensures Valid() && length == old(length)
      ensures r == (if start > old(length) || end > old(length) then Raised(ValueError) else Completed)
      ensures start > old(length) ==> pos == old(pos) && maxpos == old(maxpos) && endpos == old(endpos)
      ensures start <= old(length) ==> pos == start
      ensures start <= old(length) < end ==> maxpos == old(maxpos) && endpos == old(endpos)
      ensures r.Completed? ==> endpos == end && maxpos == start
    {
      if start > length {
        return Raised(ValueError);
      }
      pos := start;
      if end > length {
        return Raised(ValueError);
      }
      endpos := end;
      maxpos := start;
      length := |contents|;
      return Completed;
    }

    /** The end is the whole text's end; a partial limit does not count. */
    method IsEnd() returns (b: bool)
      requires Valid()
      ensures b <==> pos >= |contents|
    {
      return pos >= length;
    }
  }
}
