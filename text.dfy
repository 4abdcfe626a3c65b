/**
 * String and list helpers shared by the model: ASCII case folding, Python
 * slicing, prefix/suffix/substring tests, character replacement and the
 * decimal rendering of integers used in messages.
 */
module Text {

  datatype Option<T> = None | Some(value: T)

  /** A value or the exception that the Python code raises instead. */
  datatype Result<T, E> = Ok(value: T) | Err(error: E)
  {
    predicate IsFailure() { Err? }

    function PropagateFailure<U>(): Result<U, E>
      requires Err?
    {
      Err(error)
    }

    function Extract(): T
      requires Ok?
    {
      value
    }
  }

  function Min(a: int, b: int): int { if a <= b then a else b }
  function Max(a: int, b: int): int { if a >= b then a else b }

  /** Lower-casing of one character; only the ASCII letters are mapped. */
  function LowerChar(c: char): char
  {
    if 'A' <= c <= 'Z' then (c as int + 32) as char else c
  }

  /** `str.lower()` restricted to ASCII letters; keeps the length. */
  function Lower(s: string): (r: string)
    ensures |r| == |s|
    ensures forall i :: 0 <= i < |s| ==> r[i] == LowerChar(s[i])
  {
    if s == [] then [] else [LowerChar(s[0])] + Lower(s[1..])
  }

  lemma {:induction false} LowerIdempotent(s: string)
    ensures Lower(Lower(s)) == Lower(s)
  {
    var l := Lower(s);
    var ll := Lower(l);
    assert |ll| == |l|;
    forall i | 0 <= i < |s| ensures ll[i] == l[i] {
      assert ll[i] == LowerChar(l[i]);
      assert l[i] == LowerChar(s[i]);
    }
  }

  lemma {:induction false} LowerAppend(a: string, b: string)
    ensures Lower(a + b) == Lower(a) + Lower(b)
  {
    var l := Lower(a + b);
    assert |l| == |Lower(a) + Lower(b)|;
    forall i | 0 <= i < |a + b| ensures l[i] == (Lower(a) + Lower(b))[i] {
      if i < |a| { assert (a + b)[i] == a[i]; } else { assert (a + b)[i] == b[i - |a|]; }
    }
  }

  /** Python's `L[start:stop]` with step 1; `None` stands for an omitted bound. */
  function SliceIndex(bound: Option<int>, dflt: int, n: nat): (k: nat)
    ensures k <= n
  {
    var b := if bound.None? then dflt else bound.value;
    var b' := if b < 0 then b + n else b;
    if b' < 0 then 0 else if b' > n then n else b'
  }

  function PySlice<T>(s: seq<T>, start: Option<int>, stop: Option<int>): (r: seq<T>)
  {
    var i := SliceIndex(start, 0, |s|);
    var j := SliceIndex(stop, |s|, |s|);
    if i < j then s[i..j] else []
  }

  predicate StartsWith(s: string, p: string) { |p| <= |s| && s[..|p|] == p }
  predicate EndsWith(s: string, p: string) { |p| <= |s| && s[|s| - |p|..] == p }
  /** Python's `p in s` for strings. */
  predicate Contains(s: string, p: string)
  {
    exists i :: 0 <= i <= |s| - |p| && OccursAt(s, p, i)
  }

  predicate OccursAt(s: string, p: string, i: int)
  {
    0 <= i <= |s| - |p| && s[i..i + |p|] == p
  }

  // ---------------------------------------------------------------------------
  // Python's ordering of strings and `sorted`

  /** Python's ordering of strings: code point by code point, a prefix first. */
  predicate StrLe(a: string, b: string)
    decreases |a|
  {
    a == [] || (b != [] && (a[0] < b[0] || (a[0] == b[0] && StrLe(a[1..], b[1..]))))
  }

  lemma {:induction false} StrLeTotal(a: string, b: string)
    ensures StrLe(a, b) || StrLe(b, a)
    decreases |a|
  {
    if a != [] && b != [] && a[0] == b[0] {
      StrLeTotal(a[1..], b[1..]);
    }
  }

  lemma {:induction false} StrLeTrans(a: string, b: string, c: string)
    requires StrLe(a, b) && StrLe(b, c)
    ensures StrLe(a, c)
    decreases |a|
  {
    if a != [] && a[0] == b[0] && b[0] == c[0] {
      StrLeTrans(a[1..], b[1..], c[1..]);
    }
  }

  lemma {:induction false} StrLeAntisymmetric(a: string, b: string)
    requires StrLe(a, b) && StrLe(b, a)
    ensures a == b
    decreases |a|
  {
    if a != [] {
      StrLeAntisymmetric(a[1..], b[1..]);
      assert a == [a[0]] + a[1..] && b == [b[0]] + b[1..];
    }
  }

  /** A common prefix does not change the order. */
  lemma {:induction false} StrLePrefix(p: string, a: string, b: string)
    requires StrLe(a, b)
    ensures StrLe(p + a, p + b)
    decreases |p|
  {
    if p != [] {
      assert (p + a)[0] == p[0] == (p + b)[0];
      assert (p + a)[1..] == p[1..] + a && (p + b)[1..] == p[1..] + b;
      StrLePrefix(p[1..], a, b);
    } else {
      assert p + a == a && p + b == b;
    }
  }

  predicate SortedStrings(s: seq<string>)
  {
    forall i, j :: 0 <= i < j < |s| ==> StrLe(s[i], s[j])
  }

  lemma SortedTail(s: seq<string>)
    requires SortedStrings(s) && s != []
    ensures SortedStrings(s[1..]) && forall j :: 0 <= j < |s[1..]| ==> StrLe(s[0], s[1..][j])
  {
    forall i, j | 0 <= i < j < |s[1..]| ensures StrLe(s[1..][i], s[1..][j]) {
      assert s[1..][i] == s[i + 1] && s[1..][j] == s[j + 1];
    }
    forall j | 0 <= j < |s[1..]| ensures StrLe(s[0], s[1..][j]) {
      assert s[1..][j] == s[j + 1];
    }
  }

  /** A head below every element of a sorted list keeps it sorted. */
  lemma SortedCons(h: string, rest: seq<string>)
    requires SortedStrings(rest) && forall y :: y in multiset(rest) ==> StrLe(h, y)
    ensures SortedStrings([h] + rest)
  {
    var r := [h] + rest;
    forall i, j | 0 <= i < j < |r| ensures StrLe(r[i], r[j]) {
      assert r[j] == rest[j - 1];
      if i == 0 {
        assert rest[j - 1] in multiset(rest);
      } else {
        assert r[i] == rest[i - 1];
      }
    }
  }

  /** A lower bound of `s` and of `x` bounds `s` with `x` inserted. */
  lemma InsertBound(h: string, x: string, s: seq<string>, rest: seq<string>)
    requires multiset(rest) == multiset(s) + multiset{x} && StrLe(h, x)
    requires forall j :: 0 <= j < |s| ==> StrLe(h, s[j])
    ensures forall y :: y in multiset(rest) ==> StrLe(h, y)
  {
    forall y | y in multiset(rest) ensures StrLe(h, y) {
      if y != x {
        assert y in multiset(s);
        var j :| 0 <= j < |s| && s[j] == y;
      }
    }
  }

  /** `x` placed before the first element it does not follow. */
  function InsertString(x: string, s: seq<string>): (r: seq<string>)
    requires SortedStrings(s)
    ensures SortedStrings(r) && multiset(r) == multiset(s) + multiset{x}
  {
    if s == [] then [x]
    else if StrLe(x, s[0]) then
      SortedTail(s);
      assert forall j :: 0 <= j < |s| ==> StrLe(x, s[j]) by {
        forall j | 0 < j < |s| ensures StrLe(x, s[j]) {
          assert s[j] == s[1..][j - 1];
          StrLeTrans(x, s[0], s[j]);
        }
      }
      assert forall y :: y in multiset(s) ==> StrLe(x, y) by {
        forall y | y in multiset(s) ensures StrLe(x, y) {
          var j :| 0 <= j < |s| && s[j] == y;
        }
      }
      SortedCons(x, s);
      [x] + s
    else
      StrLeTotal(x, s[0]);
      SortedTail(s);
      var rest := InsertString(x, s[1..]);
      InsertBound(s[0], x, s[1..], rest);
      SortedCons(s[0], rest);
      assert s == [s[0]] + s[1..];
      [s[0]] + rest
  }

  /** `sorted(s)` on a list of strings: an insertion sort. */
  function SortStrings(s: seq<string>): (r: seq<string>)
    ensures SortedStrings(r) && multiset(r) == multiset(s)
  {
    if s == [] then []
    else
      assert s == [s[0]] + s[1..];
      InsertString(s[0], SortStrings(s[1..]))
  }

  /** Two sorted lists with the same elements start with the same one. */
  lemma SortedHeads(a: seq<string>, b: seq<string>)
    requires SortedStrings(a) && SortedStrings(b) && multiset(a) == multiset(b) && a != [] && b != []
    ensures a[0] == b[0]
  {
    assert a[0] in multiset(b) && b[0] in multiset(a);
    var i :| 0 <= i < |b| && b[i] == a[0];
    var j :| 0 <= j < |a| && a[j] == b[0];
    if i > 0 { assert StrLe(b[0], b[i]); } else { StrLeTotal(b[0], b[0]); }
    if j > 0 { assert StrLe(a[0], a[j]); } else { StrLeTotal(a[0], a[0]); }
    StrLeAntisymmetric(a[0], b[0]);
  }

  lemma TailsSameElements(a: seq<string>, b: seq<string>)
    requires multiset(a) == multiset(b) && a != [] && b != [] && a[0] == b[0]
    ensures multiset(a[1..]) == multiset(b[1..])
  {
    assert a == [a[0]] + a[1..] && b == [b[0]] + b[1..];
    forall x ensures multiset(a[1..])[x] == multiset(b[1..])[x] {
      assert multiset(a)[x] == multiset{a[0]}[x] + multiset(a[1..])[x];
      assert multiset(b)[x] == multiset{a[0]}[x] + multiset(b[1..])[x];
    }
  }

  /** A sorted list is determined by its elements: `sorted` has one answer. */
  lemma {:induction false} SortedUnique(a: seq<string>, b: seq<string>)
    requires SortedStrings(a) && SortedStrings(b) && multiset(a) == multiset(b)
    ensures a == b
    decreases |a|
  {
    assert |a| == |multiset(a)| == |b|;
    if a != [] {
      SortedHeads(a, b);
      TailsSameElements(a, b);
      SortedUnique(a[1..], b[1..]);
      assert a == [a[0]] + a[1..] && b == [b[0]] + b[1..];
    }
  }


  /** `s.replace(c, t)` for a one-character `c`. */
  function ReplaceChar(s: string, c: char, t: string): (r: string)
  {
    if s == [] then [] else (if s[0] == c then t else [s[0]]) + ReplaceChar(s[1..], c, t)
  }

  lemma ReplaceCharAppend(a: string, b: string, c: char, t: string)
    ensures ReplaceChar(a + b, c, t) == ReplaceChar(a, c, t) + ReplaceChar(b, c, t)
  {
    if a != [] {
      assert (a + b)[0] == a[0];
      assert (a + b)[1..] == a[1..] + b;
      ReplaceCharAppend(a[1..], b, c, t);
    } else {
      assert a + b == b;
    }
  }

  function DigitChar(d: nat): char
    requires d < 10
  {
    "0123456789"[d]
  }

  /** `str(n)` for an integer. */
  function IntToString(n: int): string
  {
    if n < 0 then "-" + NatToString(-n) else NatToString(n)
  }

  function NatToString(n: nat): (r: string)
    ensures |r| >= 1
    decreases n
  {
    if n < 10 then [DigitChar(n)] else NatToString(n / 10) + [DigitChar(n % 10)]
  }

  predicate IsDigit(c: char) { '0' <= c <= '9' }

  predicate AllDigits(s: string)
  {
    forall i :: 0 <= i < |s| ==> IsDigit(s[i])
  }

  /** The value of a string of decimal digits, most significant first; leading zeros are allowed. */
  function DigitsValue(s: string): nat
    requires AllDigits(s)
  {
    if s == [] then 0 else 10 * DigitsValue(s[..|s| - 1]) + (s[|s| - 1] as int - '0' as int)
  }

  /** The texts `int()` is given here: an optional minus sign and one or more digits. */
  predicate IsNumeral(s: string)
  {
    (|s| > 0 && AllDigits(s)) || (|s| > 1 && s[0] == '-' && AllDigits(s[1..]))
  }

  /**
   * `int(s)` on the texts the actions grammar's Number rule produces: an
   * optional minus and digits.  Any other text is `None` here; Python's `int`
   * also takes surrounding whitespace, a plus sign and `_` between digits.
   */
  function ParseInt(s: string): (r: Option<int>)
    ensures r.Some? <==> IsNumeral(s)
    ensures r.Some? ==> (r.value < 0 ==> s[0] == '-')
  {
    if |s| > 0 && AllDigits(s) then Some(DigitsValue(s))
    else if |s| > 1 && s[0] == '-' && AllDigits(s[1..]) then Some(-(DigitsValue(s[1..]) as int))
    else None
  }

  lemma DigitCharValue(d: nat)
    requires d < 10
    ensures IsDigit(DigitChar(d)) && DigitChar(d) as int - '0' as int == d
  {
    if d == 0 {} else if d == 1 {} else if d == 2 {} else if d == 3 {} else if d == 4 {}
    else if d == 5 {} else if d == 6 {} else if d == 7 {} else if d == 8 {} else {}
  }

  lemma {:induction false} NatToStringValue(n: nat)
    ensures AllDigits(NatToString(n)) && DigitsValue(NatToString(n)) == n
    decreases n
  {
    DigitCharValue(n % 10);
    if n >= 10 {
      NatToStringValue(n / 10);
      var s := NatToString(n);
      assert s == NatToString(n / 10) + [DigitChar(n % 10)];
      assert s[..|s| - 1] == NatToString(n / 10);
    }
  }

  /** `int(str(k)) == k`: parsing inverts the decimal rendering. */
  lemma ParseIntToString(k: int)
    ensures ParseInt(IntToString(k)) == Some(k)
  {
    if k < 0 {
      var d := NatToString(-k);
      NatToStringValue(-k);
      var s := "-" + d;
      assert s == IntToString(k);
      assert s[0] == '-' && s[1..] == d;
      assert !AllDigits(s) by { assert !IsDigit(s[0]); }
      assert ParseInt(s) == Some(-(DigitsValue(d) as int));
    } else {
      NatToStringValue(k);
    }
  }

  /** `sep.join(parts)`. */
  function Join(parts: seq<string>, sep: string): string
  {
    if parts == [] then ""
    else if |parts| == 1 then parts[0]
    else parts[0] + sep + Join(parts[1..], sep)
  }

  /** The concatenation of a sequence of strings. */
  function Concat(parts: seq<string>): string
  {
    if parts == [] then "" else parts[0] + Concat(parts[1..])
  }

  lemma ConcatAppend(a: seq<string>, b: seq<string>)
    ensures Concat(a + b) == Concat(a) + Concat(b)
  {
    if a == [] {
      assert a + b == b;
    } else {
      assert (a + b)[0] == a[0];
      assert (a + b)[1..] == a[1..] + b;
      ConcatAppend(a[1..], b);
    }
  }
}
