/** The string operations the components rely on: `trim`, ASCII
    `toLowerCase`/`toUpperCase`, `includes`, `split(' ')`, `charAt(0)`,
    number-to-decimal conversion in template strings, and the total order
    that stands in for `localeCompare`. */
module Text {

  // ---------------------------------------------------------------------
  // trim
  // ---------------------------------------------------------------------

  /** The characters `String.prototype.trim` removes: ECMAScript WhiteSpace
      and LineTerminator code points. */
  predicate IsSpace(c: char)
  {
    c == ' ' || c == '\t' || c == '\n' || c == '\r' || c == '\U{B}' || c == '\U{C}'
    || c == '\U{A0}' || c == '\U{1680}' || ('\U{2000}' <= c <= '\U{200A}')
    || c == '\U{2028}' || c == '\U{2029}' || c == '\U{202F}' || c == '\U{205F}'
    || c == '\U{3000}' || c == '\U{FEFF}'
  }

  /** A string that `trim` turns into the empty (falsy) string. */
  predicate IsBlank(s: string)
  {
    forall i :: 0 <= i < |s| ==> IsSpace(s[i])
  }

  /** Number of leading white-space characters. */
  function LeadCount(s: string): (k: nat)
    ensures k <= |s|
    ensures forall i :: 0 <= i < k ==> IsSpace(s[i])
    ensures k < |s| ==> !IsSpace(s[k])
  {
    if s != [] && IsSpace(s[0]) then 1 + LeadCount(s[1..]) else 0
  }

  /** Number of trailing white-space characters. */
  function TrailCount(s: string): (k: nat)
    ensures k <= |s|
    ensures forall i :: |s| - k <= i < |s| ==> IsSpace(s[i])
    ensures k < |s| ==> !IsSpace(s[|s| - 1 - k])
  {
    if s != [] && IsSpace(s[|s| - 1]) then 1 + TrailCount(s[..|s| - 1]) else 0
  }

  /** `s.trim()`: the infix of `s` left after removing white space at both ends. */
  function Trim(s: string): (r: string)
    ensures r == [] <==> IsBlank(s)
    ensures r != [] ==> !IsSpace(r[0]) && !IsSpace(r[|r| - 1])
    ensures LeadCount(s) + |r| <= |s| && r == s[LeadCount(s)..LeadCount(s) + |r|]
    ensures IsBlank(s[..LeadCount(s)]) && IsBlank(s[LeadCount(s) + |r|..])
  {
    var a := LeadCount(s);
    var rest := s[a..];
    var b := TrailCount(rest);
    var r := rest[..|rest| - b];
    assert s[a + |r|..] == rest[|rest| - b..];
    r
  }

  /** `trim` removes exactly the white space at both ends: any infix of `s`
      that has only white space around it and starts and ends with
      something else (or is empty, for a blank `s`) is the trimmed text. */
  lemma TrimUnique(s: string, a: nat, b: nat)
    requires a <= b <= |s| && IsBlank(s[..a]) && IsBlank(s[b..])
    requires a < b ==> !IsSpace(s[a]) && !IsSpace(s[b - 1])
    ensures Trim(s) == s[a..b]
  {
    var r := Trim(s);
    var k := LeadCount(s);
    assert forall i :: 0 <= i < a ==> IsSpace(s[i]) by {
      forall i | 0 <= i < a ensures IsSpace(s[i]) { assert s[..a][i] == s[i]; }
    }
    assert forall i :: b <= i < |s| ==> IsSpace(s[i]) by {
      forall i | b <= i < |s| ensures IsSpace(s[i]) { assert s[b..][i - b] == s[i]; }
    }
    if a < b {
      assert k == a;
      var e := k + |r|;
      assert forall i :: e <= i < |s| ==> IsSpace(s[i]) by {
        forall i | e <= i < |s| ensures IsSpace(s[i]) { assert s[e..][i - e] == s[i]; }
      }
      assert r[|r| - 1] == s[e - 1];
      assert e == b;
    }
  }

  // ---------------------------------------------------------------------
  // ASCII case mapping
  // ---------------------------------------------------------------------

  function LowerChar(c: char): char
  {
    if 'A' <= c <= 'Z' then (c as int + 32) as char else c
  }

  function UpperChar(c: char): char
  {
    if 'a' <= c <= 'z' then (c as int - 32) as char else c
  }

  /** `s.toLowerCase()`, restricted to ASCII letters. */
  function Lower(s: string): (r: string)
    ensures |r| == |s|
    ensures forall i :: 0 <= i < |s| ==> r[i] == LowerChar(s[i])
  {
    seq(|s|, i requires 0 <= i < |s| => LowerChar(s[i]))
  }

  /** `s.toUpperCase()`, restricted to ASCII letters. */
  function Upper(s: string): (r: string)
    ensures |r| == |s|
    ensures forall i :: 0 <= i < |s| ==> r[i] == UpperChar(s[i])
  {
    seq(|s|, i requires 0 <= i < |s| => UpperChar(s[i]))
  }

  /** Case-insensitive equality as the components test it:
      `a.toLowerCase() === b.toLowerCase()`. */
  predicate SameIgnoringCase(a: string, b: string)
  {
    Lower(a) == Lower(b)
  }

  // ---------------------------------------------------------------------
  // includes
  // ---------------------------------------------------------------------

  predicate IsPrefix(p: string, s: string)
  {
    |p| <= |s| && s[..|p|] == p
  }

  /** `s.includes(sub)`, computed by scanning the start positions. */
  predicate Contains(s: string, sub: string)
    decreases |s|
  {
    IsPrefix(sub, s) || (s != [] && Contains(s[1..], sub))
  }

  /** `sub` occurs in `s` starting at position `i`. */
  predicate OccursAt(s: string, sub: string, i: int)
  {
    0 <= i <= |s| - |sub| && s[i..i + |sub|] == sub
  }

  /** The scan agrees with the definition of a substring: `sub` occurs in `s`
      at some position. */
  lemma {:induction false} ContainsIff(s: string, sub: string)
    ensures Contains(s, sub) <==> exists i :: OccursAt(s, sub, i)
    decreases |s|
  {
    if IsPrefix(sub, s) {
      assert OccursAt(s, sub, 0);
    } else if s == [] {
      assert forall i :: !OccursAt(s, sub, i);
    } else {
      ContainsIff(s[1..], sub);
      if Contains(s[1..], sub) {
        var j :| OccursAt(s[1..], sub, j);
        assert s[j + 1..j + 1 + |sub|] == s[1..][j..j + |sub|];
        assert OccursAt(s, sub, j + 1);
      }
      if i :| OccursAt(s, sub, i) {
        assert i != 0;
        assert s[1..][i - 1..i - 1 + |sub|] == s[i..i + |sub|];
        assert OccursAt(s[1..], sub, i - 1);
      }
    }
  }

  /** Every string contains the empty string, as `includes('')` is true. */
  lemma ContainsEmpty(s: string)
    ensures Contains(s, [])
  {
    assert IsPrefix([], s);
  }

  // ---------------------------------------------------------------------
  // split(' ') and charAt(0)
  // ---------------------------------------------------------------------

  function FirstIndex(s: string, c: char): (i: nat)
    requires c in s
    ensures i < |s| && s[i] == c && c !in s[..i]
  {
    if s[0] == c then 0 else 1 + FirstIndex(s[1..], c)
  }

  function LastIndex(s: string, c: char): (i: nat)
    requires c in s
    ensures i < |s| && s[i] == c && c !in s[i + 1..]
  {
    if s[|s| - 1] == c then |s| - 1
    else
      assert c in s[..|s| - 1] by {
        var k :| 0 <= k < |s| && s[k] == c;
        assert s[..|s| - 1][k] == c;
      }
      LastIndex(s[..|s| - 1], c)
  }

  lemma LastIndexUnique(s: string, c: char, j: nat)
    requires j < |s| && s[j] == c && c !in s[j + 1..]
    ensures LastIndex(s, c) == j
  {
    var i := LastIndex(s, c);
    assert i >= j by {
      assert forall m :: i < m < |s| ==> s[m] == s[i + 1..][m - i - 1];
    }
    assert i <= j by {
      assert forall m :: j < m < |s| ==> s[m] == s[j + 1..][m - j - 1];
    }
  }

  /** `s.split(' ')`: the pieces between single spaces, empty pieces kept. */
  function Split(s: string): (parts: seq<string>)
    ensures |parts| >= 1
    ensures forall k :: 0 <= k < |parts| ==> ' ' !in parts[k]
    ensures ' ' !in s ==> parts == [s]
  {
    if s == [] then [""]
    else
      var rest := Split(s[1..]);
      assert s == [s[0]] + s[1..];
      if s[0] == ' ' then [""] + rest
      else [[s[0]] + rest[0]] + rest[1..]
  }

  /** `parts.join(' ')`. */
  function Join(parts: seq<string>): string
    requires |parts| >= 1
  {
    if |parts| == 1 then parts[0] else parts[0] + " " + Join(parts[1..])
  }

  /** Splitting loses nothing: joining the pieces with spaces gives `s` back. */
  lemma {:induction false} JoinSplit(s: string)
    ensures Join(Split(s)) == s
  {
    if s != [] {
      var rest := Split(s[1..]);
      JoinSplit(s[1..]);
      assert s == [s[0]] + s[1..];
      var parts := Split(s);
      if s[0] == ' ' {
        assert parts[1..] == rest;
      } else if |rest| > 1 {
        assert parts[1..] == rest[1..];
      }
    }
  }

  /** When `c` occurs after the first character, its last occurrence is
      the last occurrence in the tail, shifted by one, and so is everything
      after it. */
  lemma LastIndexTail(s: string, c: char)
    requires s != [] && c in s[1..]
    ensures LastIndex(s, c) == 1 + LastIndex(s[1..], c)
    ensures s[LastIndex(s, c) + 1..] == s[1..][LastIndex(s[1..], c) + 1..]
  {
    var t := s[1..];
    var jt := LastIndex(t, c);
    assert s[jt + 1] == t[jt];
    assert s[jt + 2..] == t[jt + 1..];
    LastIndexUnique(s, c, jt + 1);
  }

  /** With a space in `s`, the first piece runs up to the first space. */
  lemma {:induction false} SplitFirst(s: string)
    requires ' ' in s
    ensures |Split(s)| >= 2
    ensures Split(s)[0] == s[..FirstIndex(s, ' ')]
  {
    var t := s[1..];
    assert s == [s[0]] + t;
    if s[0] != ' ' {
      assert ' ' in t;
      SplitFirst(t);
      assert Split(s)[0] == [s[0]] + t[..FirstIndex(t, ' ')];
    }
  }

  /** Dropping a first character that is a space, or that joins a first
      piece with more pieces after it, keeps the last piece. */
  lemma SplitLastStep(s: string)
    requires s != [] && (s[0] == ' ' || |Split(s[1..])| >= 2)
    ensures Split(s)[|Split(s)| - 1] == Split(s[1..])[|Split(s[1..])| - 1]
  {
  }

  /** With a space in `s`, the last piece starts after the last space. */
  lemma {:induction false} SplitLast(s: string)
    requires ' ' in s
    ensures Split(s)[|Split(s)| - 1] == s[LastIndex(s, ' ') + 1..]
  {
    var t := s[1..];
    if ' ' in t {
      SplitFirst(t);
      SplitLastStep(s);
      SplitLast(t);
      LastIndexTail(s, ' ');
    } else {
      assert s == [s[0]] + t;
      SplitLastStep(s);
      LastIndexUnique(s, ' ', 0);
      assert s[LastIndex(s, ' ') + 1..] == t;
    }
  }

  /** `s.charAt(0)`: the first character, or the empty string. */
  function FirstChar(s: string): (r: string)
  {
    if s == [] then [] else [s[0]]
  }

  // ---------------------------------------------------------------------
  // numbers in template strings
  // ---------------------------------------------------------------------

  predicate IsDigit(c: char)
  {
    48 <= c as int <= 57
  }

  function DigitChar(d: nat): (c: char)
    requires d < 10
    ensures IsDigit(c)
  {
    (48 + d) as char
  }

  /** The decimal text `${n}` of a non-negative integer. */
  function NatToString(n: nat): (r: string)
    ensures |r| >= 1
    ensures forall i :: 0 <= i < |r| ==> IsDigit(r[i])
    decreases n
  {
    if n < 10 then [DigitChar(n)] else NatToString(n / 10) + [DigitChar(n % 10)]
  }

  /** The number a string of decimal digits denotes. */
  function DecimalValue(s: string): nat
    requires forall i :: 0 <= i < |s| ==> IsDigit(s[i])
  {
    if s == [] then 0
    else
      assert IsDigit(s[|s| - 1]);
      10 * DecimalValue(s[..|s| - 1]) + (s[|s| - 1] as int - 48)
  }

  /** Reading the decimal text back gives the number. */
  lemma {:induction false} DecimalRoundTrip(n: nat)
    ensures DecimalValue(NatToString(n)) == n
    decreases n
  {
    if n >= 10 {
      var r := NatToString(n);
      assert r[..|r| - 1] == NatToString(n / 10);
      DecimalRoundTrip(n / 10);
    }
  }

  // ---------------------------------------------------------------------
  // ordering of titles
  // ---------------------------------------------------------------------

  /** Lexicographic order on code points; stands in for `localeCompare(...) <= 0`. */
  predicate LexLe(a: string, b: string)
  {
    a == [] || (b != [] && (a[0] < b[0] || (a[0] == b[0] && LexLe(a[1..], b[1..]))))
  }

  lemma {:induction false} LexLeTotal(a: string, b: string)
    ensures LexLe(a, b) || LexLe(b, a)
  {
    if a != [] && b != [] && a[0] == b[0] {
      LexLeTotal(a[1..], b[1..]);
    }
  }

  lemma {:induction false} LexLeTransitive(a: string, b: string, c: string)
    requires LexLe(a, b) && LexLe(b, c)
    ensures LexLe(a, c)
  {
    if a != [] && b != [] && c != [] && a[0] == b[0] && b[0] == c[0] {
      LexLeTransitive(a[1..], b[1..], c[1..]);
    }
  }

  lemma {:induction false} LexLeAntisymmetric(a: string, b: string)
    requires LexLe(a, b) && LexLe(b, a)
    ensures a == b
  {
    if a != [] && b != [] {
      LexLeAntisymmetric(a[1..], b[1..]);
      assert a == [a[0]] + a[1..];
      assert b == [b[0]] + b[1..];
    }
  }
}
