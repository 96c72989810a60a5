/**
 String operations of the JavaScript runtime that the pipeline relies on:
 `String.prototype.trim`, global literal `replace`, `Array.prototype.join`
 and the decimal rendering of a length inside a template literal.
 Strings are sequences of Unicode scalar values.
 */
module Strings {

  /** JavaScript's WhiteSpace and LineTerminator code points: what `trim` removes. */
  predicate IsSpace(c: char)
  {
    var n := c as int;
    n == 0x09 || n == 0x0A || n == 0x0B || n == 0x0C || n == 0x0D || n == 0x20
    || n == 0xA0 || n == 0x1680 || (0x2000 <= n <= 0x200A) || n == 0x2028 || n == 0x2029
    || n == 0x202F || n == 0x205F || n == 0x3000 || n == 0xFEFF
  }

  predicate AllSpace(s: string)
  {
    forall i :: 0 <= i < |s| ==> IsSpace(s[i])
  }

  /** `s[i..j]` is `s` with its leading and trailing white space cut off. */
  predicate TrimWindow(s: string, i: int, j: int)
  {
    && 0 <= i <= j <= |s|
    && (forall k :: 0 <= k < i ==> IsSpace(s[k]))
    && (forall k :: j <= k < |s| ==> IsSpace(s[k]))
    && (i == j || (!IsSpace(s[i]) && !IsSpace(s[j - 1])))
  }

  /** The independent description of what `trim` returns. */
  ghost predicate IsTrimOf(r: string, s: string)
  {
    exists i, j :: TrimWindow(s, i, j) && r == s[i..j]
  }

  /** The index of the first non-space character of `s` at or after `i`, or `|s|`. */
  function SkipSpaceFrom(s: string, i: nat): (k: nat)
    requires i <= |s|
    ensures i <= k <= |s|
    ensures forall m :: i <= m < k ==> IsSpace(s[m])
    ensures k == |s| || !IsSpace(s[k])
    decreases |s| - i
  {
    if i < |s| && IsSpace(s[i]) then SkipSpaceFrom(s, i + 1) else i
  }

  /** The end of `s[lo..j]` once its trailing white space is dropped. */
  function SkipSpaceBack(s: string, lo: nat, j: nat): (k: nat)
    requires lo <= j <= |s|
    ensures lo <= k <= j
    ensures forall m :: k <= m < j ==> IsSpace(s[m])
    ensures k == lo || !IsSpace(s[k - 1])
    decreases j
  {
    if lo < j && IsSpace(s[j - 1]) then SkipSpaceBack(s, lo, j - 1) else j
  }

  /** `String.prototype.trim`. */
  function Trim(s: string): (r: string)
    ensures IsTrimOf(r, s)
  {
    var i := SkipSpaceFrom(s, 0);
    var j := SkipSpaceBack(s, i, |s|);
    assert TrimWindow(s, i, j);
    s[i..j]
  }

  /** Inside a trim window lie all the non-space characters of `s`. */
  lemma NonSpaceInside(s: string, k: int, i: int, j: int)
    requires 0 <= k < |s| && !IsSpace(s[k])
    requires TrimWindow(s, i, j)
    ensures i <= k < j
  {
  }

  /** There is only one way to trim a string. */
  lemma TrimWindowUnique(s: string, i1: int, j1: int, i2: int, j2: int)
    requires TrimWindow(s, i1, j1) && TrimWindow(s, i2, j2)
    ensures s[i1..j1] == s[i2..j2]
  {
    if i1 < j1 {
      NonSpaceInside(s, i1, i2, j2);
      NonSpaceInside(s, j1 - 1, i2, j2);
    }
    if i2 < j2 {
      NonSpaceInside(s, i2, i1, j1);
      NonSpaceInside(s, j2 - 1, i1, j1);
    }
  }

  lemma TrimOfUnique(r1: string, r2: string, s: string)
    requires IsTrimOf(r1, s) && IsTrimOf(r2, s)
    ensures r1 == r2
  {
    var i1, j1 :| TrimWindow(s, i1, j1) && r1 == s[i1..j1];
    var i2, j2 :| TrimWindow(s, i2, j2) && r2 == s[i2..j2];
    TrimWindowUnique(s, i1, j1, i2, j2);
  }

  lemma TrimCharacterized(r: string, s: string)
    ensures Trim(s) == r <==> IsTrimOf(r, s)
  {
    if IsTrimOf(r, s) {
      TrimOfUnique(r, Trim(s), s);
    }
  }

  /** Trimming twice is trimming once. */
  lemma TrimIdempotent(s: string)
    ensures Trim(Trim(s)) == Trim(s)
  {
    var r := Trim(s);
    var i, j :| TrimWindow(s, i, j) && r == s[i..j];
    assert r[0..|r|] == r;
    assert TrimWindow(r, 0, |r|);
    TrimOfUnique(r, Trim(r), r);
  }

  /** White space added around a string disappears again under `trim`. */
  lemma TrimPadded(a: string, t: string, b: string)
    requires AllSpace(a) && AllSpace(b)
    ensures Trim(a + t + b) == Trim(t)
  {
    var r := Trim(t);
    var s := a + t + b;
    var i, j :| TrimWindow(t, i, j) && r == t[i..j];
    assert s[|a| + i..|a| + j] == r;
    assert forall k :: 0 <= k < |a| + i ==> IsSpace(s[k]) by {
      forall k | 0 <= k < |a| + i ensures IsSpace(s[k]) {
        if k >= |a| { assert s[k] == t[k - |a|]; }
      }
    }
    assert forall k :: |a| + j <= k < |s| ==> IsSpace(s[k]) by {
      forall k | |a| + j <= k < |s| ensures IsSpace(s[k]) {
        if k < |a| + |t| { assert s[k] == t[k - |a|]; }
        else { assert s[k] == b[k - |a| - |t|]; }
      }
    }
    assert TrimWindow(s, |a| + i, |a| + j);
    TrimOfUnique(r, Trim(s), s);
  }

  /** `pat` occurs in `s` at index `i`. */
  predicate OccursAt(s: string, pat: string, i: int)
  {
    0 <= i && i + |pat| <= |s| && s[i..i + |pat|] == pat
  }

  /** `s.replace(/pat/g, rep)` for a literal, non-empty pattern: scan from the left,
      replace each match and resume scanning after it. */
  function ReplaceAll(s: string, pat: string, rep: string): (r: string)
    requires |pat| > 0
    ensures (forall i :: 0 <= i < |s| ==> s[i] != pat[0]) ==> r == s
    decreases |s|
  {
    if |s| < |pat| then s
    else if s[..|pat|] == pat then rep + ReplaceAll(s[|pat|..], pat, rep)
    else [s[0]] + ReplaceAll(s[1..], pat, rep)
  }

  /** A global replace leaves a text in which the pattern never occurs unchanged. */
  lemma {:induction false} ReplaceAllNoMatch(s: string, pat: string, rep: string)
    requires |pat| > 0
    requires forall i :: !OccursAt(s, pat, i)
    ensures ReplaceAll(s, pat, rep) == s
    decreases |s|
  {
    if |s| >= |pat| {
      assert !OccursAt(s, pat, 0);
      assert s[..|pat|] == s[0..0 + |pat|];
      forall i ensures !OccursAt(s[1..], pat, i)
      {
        if OccursAt(s[1..], pat, i) {
          assert s[1..][i..i + |pat|] == s[i + 1..i + 1 + |pat|];
          assert OccursAt(s, pat, i + 1);
        }
      }
      ReplaceAllNoMatch(s[1..], pat, rep);
      assert [s[0]] + s[1..] == s;
    }
  }

  /** A prefix that cannot start a match passes through a global replace untouched. */
  lemma {:induction false} ReplaceAllSkips(x: string, y: string, pat: string, rep: string)
    requires |pat| > 0
    requires forall i :: 0 <= i < |x| ==> x[i] != pat[0]
    ensures ReplaceAll(x + y, pat, rep) == x + ReplaceAll(y, pat, rep)
    decreases |x|
  {
    if x != [] {
      var s := x + y;
      assert s[0] == x[0];
      assert s[1..] == x[1..] + y;
      ReplaceAllSkips(x[1..], y, pat, rep);
      if |s| < |pat| {
        assert ReplaceAll(y, pat, rep) == y;
      } else {
        assert s[..|pat|][0] != pat[0];
        calc {
          ReplaceAll(s, pat, rep);
          [x[0]] + ReplaceAll(x[1..] + y, pat, rep);
          [x[0]] + (x[1..] + ReplaceAll(y, pat, rep));
          { assert [x[0]] + x[1..] == x; }
          x + ReplaceAll(y, pat, rep);
        }
      }
    } else {
      assert x + y == y;
    }
  }

  /** A one-character pattern is replaced character by character, so the replace
      distributes over concatenation. */
  lemma {:induction false} ReplaceCharConcat(x: string, y: string, p: char, rep: string)
    ensures ReplaceAll(x + y, [p], rep) == ReplaceAll(x, [p], rep) + ReplaceAll(y, [p], rep)
    decreases |x|
  {
    if x != [] {
      var s := x + y;
      assert s[..1] == x[..1] == [x[0]];
      assert s[1..] == x[1..] + y;
      ReplaceCharConcat(x[1..], y, p, rep);
      var h := if x[0] == p then rep else [x[0]];
      calc {
        ReplaceAll(s, [p], rep);
        h + ReplaceAll(x[1..] + y, [p], rep);
        h + (ReplaceAll(x[1..], [p], rep) + ReplaceAll(y, [p], rep));
        (h + ReplaceAll(x[1..], [p], rep)) + ReplaceAll(y, [p], rep);
        ReplaceAll(x, [p], rep) + ReplaceAll(y, [p], rep);
      }
    } else {
      assert x + y == y;
    }
  }

  /** `suffix` closes `s`. */
  predicate EndsWith(s: string, suffix: string)
  {
    |suffix| <= |s| && s[|s| - |suffix|..] == suffix
  }

  /** `Array.prototype.join`. */
  function Join(xs: seq<string>, sep: string): (r: string)
    ensures |xs| == 0 ==> r == []
    ensures |xs| > 0 ==> xs[0] <= r
  {
    if |xs| == 0 then []
    else if |xs| == 1 then xs[0]
    else xs[0] + sep + Join(xs[1..], sep)
  }

  /** The last part closes the joined text. */
  lemma {:induction false} JoinEndsWithLast(xs: seq<string>, sep: string)
    requires |xs| > 0
    ensures EndsWith(Join(xs, sep), xs[|xs| - 1])
    decreases |xs|
  {
    var last := xs[|xs| - 1];
    if |xs| == 1 {
      assert xs[0][0..] == xs[0];
    } else {
      var rest := Join(xs[1..], sep);
      JoinEndsWithLast(xs[1..], sep);
      assert xs[1..][|xs[1..]| - 1] == last;
      var r := xs[0] + sep + rest;
      assert r[|r| - |last|..] == rest[|rest| - |last|..];
    }
  }

  /** One more part adds a separator and that part at the end. */
  lemma {:induction false} JoinSnoc(xs: seq<string>, x: string, sep: string)
    requires |xs| > 0
    ensures Join(xs + [x], sep) == Join(xs, sep) + sep + x
    decreases |xs|
  {
    assert (xs + [x])[0] == xs[0];
    assert (xs + [x])[1..] == xs[1..] + [x];
    if |xs| > 1 {
      JoinSnoc(xs[1..], x, sep);
    } else {
      assert xs[1..] + [x] == [x];
    }
  }

  /** No occurrence of `c` in `s`. */
  predicate Lacks(s: string, c: char)
  {
    forall i :: 0 <= i < |s| ==> s[i] != c
  }

  lemma LacksConcat(a: string, b: string, c: char)
    requires Lacks(a, c) && Lacks(b, c)
    ensures Lacks(a + b, c)
  {
    forall i | |a| <= i < |a + b| ensures (a + b)[i] != c {
      assert (a + b)[i] == b[i - |a|];
    }
  }

  /** Replacing a character by a non-empty text never shortens. */
  lemma {:induction false} ReplaceCharLonger(s: string, p: char, rep: string)
    requires |rep| >= 1
    ensures |ReplaceAll(s, [p], rep)| >= |s|
    decreases |s|
  {
    if |s| >= 1 {
      assert s[..1] == [s[0]];
      ReplaceCharLonger(s[1..], p, rep);
    }
  }

  /** A replace of `p` by text free of `c` leaves no `c` that `s` did not already lack:
      it removes `p` itself, and brings in no character `s` and `rep` both lack. */
  lemma {:induction false} ReplaceCharLacks(s: string, p: char, rep: string, c: char)
    requires Lacks(rep, c)
    requires c == p || Lacks(s, c)
    ensures Lacks(ReplaceAll(s, [p], rep), c)
    decreases |s|
  {
    if |s| >= 1 {
      assert s[..1] == [s[0]];
      if c != p {
        assert Lacks(s[1..], c);
      }
      ReplaceCharLacks(s[1..], p, rep, c);
      var tail := ReplaceAll(s[1..], [p], rep);
      if s[0] == p {
        LacksConcat(rep, tail, c);
      } else {
        assert s[0] != c;
        LacksConcat([s[0]], tail, c);
      }
    }
  }

  predicate IsDigit(c: char)
  {
    '0' <= c <= '9'
  }

  /** The number a string of decimal digits denotes. */
  function DecimalValue(s: string): nat
    requires forall i :: 0 <= i < |s| ==> IsDigit(s[i])
  {
    if s == [] then 0
    else DecimalValue(s[..|s| - 1]) * 10 + DigitValue(s[|s| - 1])
  }

  function DigitValue(c: char): nat
    requires IsDigit(c)
  {
    c as int - '0' as int
  }

  /** The decimal rendering of a non-negative integer, as `${n}` produces it. */
  function NatToString(n: nat): (r: string)
    ensures |r| > 0 && (forall i :: 0 <= i < |r| ==> IsDigit(r[i]))
    ensures DecimalValue(r) == n
    ensures r[0] == '0' ==> n == 0
  {
    var d := ['0' + (n % 10) as char];
    if n < 10 then d
    else
      var r := NatToString(n / 10) + d;
      assert r[..|r| - 1] == NatToString(n / 10);
      r
  }
}
