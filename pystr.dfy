/**
 * The parts of Python's `str` that the Slack client relies on, over
 * `string` (a `seq<char>`): truthiness of an optional string,
 * non-overlapping left-to-right `str.replace`, `str(int)` for the decimal
 * form fields, and `str.split` on one separator character, which the
 * permalink proofs use to read a URL back.
 */
module PyStr {
  import opened Wrappers

  /** Python truthiness of an optional string argument: `None` and `""` are falsy. */
  predicate Truthy(s: Option<string>)
  {
    s.Some? && s.value != ""
  }

  /** `p` occurs in `s` starting at index `i`. */
  predicate MatchAt(s: string, p: string, i: nat)
  {
    i + |p| <= |s| && s[i..i + |p|] == p
  }

  /** `p` occurs somewhere in `s` (Python's `p in s`). */
  predicate Contains(s: string, p: string)
  {
    exists i: nat | i <= |s| :: MatchAt(s, p, i)
  }

  // ---------------------------------------------------------------------
  // str.replace
  // ---------------------------------------------------------------------

  /** `s.replace("", rep)`: Python puts `rep` before every character and at the end. */
  function InsertAround(s: string, rep: string): string
    decreases |s|
  {
    if s == [] then rep else rep + [s[0]] + InsertAround(s[1..], rep)
  }

  /**
   * `s.replace(pat, rep)` with no count: scan from the left, replace each
   * occurrence of `pat` and continue after it, so occurrences never overlap.
   */
  function ReplaceAll(s: string, pat: string, rep: string): string
    decreases |s|
  {
    if pat == [] then InsertAround(s, rep)
    else if |s| < |pat| then s
    else if MatchAt(s, pat, 0) then rep + ReplaceAll(s[|pat|..], pat, rep)
    else [s[0]] + ReplaceAll(s[1..], pat, rep)
  }

  /** Reference definition of deleting a character: `s` with every `c` dropped, order kept. */
  function Without(s: string, c: char): string
    decreases |s|
  {
    if s == [] then [] else (if s[0] == c then [] else [s[0]]) + Without(s[1..], c)
  }

  /**
   * `Without` drops exactly the copies of `c`: every other character keeps
   * its number of occurrences, and no `c` is left.
   */
  lemma {:induction false} WithoutCounts(s: string, c: char)
    ensures c !in Without(s, c)
    ensures multiset(Without(s, c)) == multiset(s)[c := 0]
    ensures forall x :: x in Without(s, c) <==> x in s && x != c
    ensures |Without(s, c)| == |s| - multiset(s)[c]
    decreases |s|
  {
    if s != [] {
      WithoutCounts(s[1..], c);
      assert s == [s[0]] + s[1..];
      assert multiset(s) == multiset{s[0]} + multiset(s[1..]);
    }
  }

  /** A prefix `a` in which no occurrence of `p` starts is copied through unchanged. */
  lemma {:induction false} ReplaceAllSkipsPrefix(a: string, b: string, p: string, rep: string)
    requires p != []
    requires forall i: nat :: i < |a| ==> !MatchAt(a + b, p, i)
    ensures ReplaceAll(a + b, p, rep) == a + ReplaceAll(b, p, rep)
    decreases |a|
  {
    if a == [] {
      assert a + b == b;
    } else if |a + b| < |p| {
      assert ReplaceAll(b, p, rep) == b;
    } else {
      assert !MatchAt(a + b, p, 0);
      assert (a + b)[1..] == a[1..] + b;
      forall i: nat | i < |a[1..]|
        ensures !MatchAt(a[1..] + b, p, i)
      {
        assert !MatchAt(a + b, p, i + 1);
        if i + |p| <= |a[1..] + b| {
          assert (a[1..] + b)[i..i + |p|] == (a + b)[i + 1..i + 1 + |p|];
        }
      }
      ReplaceAllSkipsPrefix(a[1..], b, p, rep);
      assert a == [a[0]] + a[1..];
    }
  }

  /** A string without an occurrence of `p` is left unchanged. */
  lemma ReplaceAllAbsent(s: string, p: string, rep: string)
    requires p != [] && !Contains(s, p)
    ensures ReplaceAll(s, p, rep) == s
  {
    assert s + [] == s;
    forall i: nat | i < |s|
      ensures !MatchAt(s + [], p, i)
    {
      assert !MatchAt(s, p, i);
    }
    ReplaceAllSkipsPrefix(s, [], p, rep);
  }

  /** An occurrence at the front is replaced and the scan goes on after it. */
  lemma ReplaceAllAtFront(p: string, b: string, rep: string)
    requires p != []
    ensures ReplaceAll(p + b, p, rep) == rep + ReplaceAll(b, p, rep)
  {
    assert (p + b)[0..|p|] == p;
    assert (p + b)[|p|..] == b;
  }

  /** Replacing a single character by nothing is the reference deletion `Without`. */
  lemma {:induction false} ReplaceCharByNothing(s: string, c: char)
    ensures ReplaceAll(s, [c], []) == Without(s, c)
    decreases |s|
  {
    if s != [] {
      ReplaceCharByNothing(s[1..], c);
      if s[0] == c {
        assert MatchAt(s, [c], 0);
      } else {
        assert !MatchAt(s, [c], 0);
      }
    }
  }

  /** Deleting a character distributes over concatenation. */
  lemma {:induction false} WithoutAppend(a: string, b: string, c: char)
    ensures Without(a + b, c) == Without(a, c) + Without(b, c)
    decreases |a|
  {
    if a == [] {
      assert a + b == b;
    } else {
      assert (a + b)[1..] == a[1..] + b;
      WithoutAppend(a[1..], b, c);
    }
  }

  /** Deleting a character that does not occur changes nothing. */
  lemma {:induction false} WithoutAbsent(s: string, c: char)
    requires c !in s
    ensures Without(s, c) == s
    decreases |s|
  {
    if s != [] {
      WithoutAbsent(s[1..], c);
      assert s == [s[0]] + s[1..];
    }
  }

  // ---------------------------------------------------------------------
  // str(int) and its inverse
  // ---------------------------------------------------------------------

  predicate IsDigit(c: char)
  {
    '0' <= c <= '9'
  }

  predicate AllDigits(s: string)
  {
    forall i | 0 <= i < |s| :: IsDigit(s[i])
  }

  function DigitChar(d: nat): (c: char)
    requires d < 10
    ensures IsDigit(c)
  {
    (('0' as int) + d) as char
  }

  function DigitValue(c: char): (d: nat)
    requires IsDigit(c)
    ensures d < 10
  {
    (c as int) - ('0' as int)
  }

  /** Decimal digits of `n` with no leading zero (`str(n)` for `n >= 0`). */
  function NatToString(n: nat): (r: string)
    ensures |r| >= 1 && AllDigits(r)
    ensures r[0] == '0' ==> n == 0
    decreases n
  {
    if n < 10 then [DigitChar(n)] else NatToString(n / 10) + [DigitChar(n % 10)]
  }

  /** Python's `str(i)` for an `int`: a `-` sign for negatives, then the digits. */
  function IntToString(i: int): string
  {
    if i < 0 then "-" + NatToString(-i) else NatToString(i)
  }

  /** The number a run of decimal digits denotes; the empty run denotes 0. */
  function DigitsValue(s: string): nat
    requires AllDigits(s)
    decreases |s|
  {
    if s == [] then 0 else 10 * DigitsValue(s[..|s| - 1]) + DigitValue(s[|s| - 1])
  }

  /** Reads a decimal integer with an optional `-` sign; `None` for anything else. */
  function ParseInt(s: string): Option<int>
  {
    if |s| >= 2 && s[0] == '-' && AllDigits(s[1..]) then Some(-(DigitsValue(s[1..]) as int))
    else if |s| >= 1 && AllDigits(s) then Some(DigitsValue(s))
    else None
  }

  lemma {:induction false} DigitsOfNatToString(n: nat)
    ensures DigitsValue(NatToString(n)) == n
    decreases n
  {
    var r := NatToString(n);
    if n >= 10 {
      DigitsOfNatToString(n / 10);
      assert r[..|r| - 1] == NatToString(n / 10);
      assert DigitValue(r[|r| - 1]) == n % 10;
    }
  }

  lemma ParseIntOfNatToString(n: nat)
    ensures ParseInt(NatToString(n)) == Some(n as int)
  {
    var r := NatToString(n);
    assert IsDigit(r[0]);
    DigitsOfNatToString(n);
  }

  lemma ParseIntOfSignedNatToString(n: nat)
    ensures ParseInt("-" + NatToString(n)) == Some(-(n as int))
  {
    var digits := NatToString(n);
    var r := "-" + digits;
    assert r[1..] == digits;
    DigitsOfNatToString(n);
  }

  /** `str(i)` is read back as `i`: the decimal form field loses nothing. */
  lemma ParseIntOfIntToString(i: int)
    ensures ParseInt(IntToString(i)) == Some(i)
  {
    if i < 0 {
      ParseIntOfSignedNatToString(-i);
    } else {
      ParseIntOfNatToString(i);
    }
  }

  // ---------------------------------------------------------------------
  // str.split on one character
  // ---------------------------------------------------------------------

  /** `s.split(sep)` for a one-character separator: always at least one part. */
  function Split(s: string, sep: char): (parts: seq<string>)
    ensures |parts| >= 1
    decreases |s|
  {
    if s == [] then [""]
    else
      var rest := Split(s[1..], sep);
      if s[0] == sep then [""] + rest else [[s[0]] + rest[0]] + rest[1..]
  }

  lemma {:induction false} SplitAbsent(s: string, sep: char)
    requires sep !in s
    ensures Split(s, sep) == [s]
    decreases |s|
  {
    if s != [] {
      SplitAbsent(s[1..], sep);
      assert s == [s[0]] + s[1..];
    }
  }

  lemma {:induction false} SplitAtFirst(a: string, b: string, sep: char)
    requires sep !in a
    ensures Split(a + [sep] + b, sep) == [a] + Split(b, sep)
    decreases |a|
  {
    var s := a + [sep] + b;
    if a == [] {
      assert s[1..] == b;
    } else {
      assert s[1..] == a[1..] + [sep] + b;
      SplitAtFirst(a[1..], b, sep);
      assert a == [a[0]] + a[1..];
    }
  }
}
