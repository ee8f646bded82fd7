/** The parts of Go's `strings` and `strconv` packages that the request layer of server.go relies on,
    stated on `string` (a `seq<char>`). */
module Strings {

  /** `p` occurs in `s` starting at index `i`. */
  predicate OccursAt(s: string, p: string, i: nat) {
    i + |p| <= |s| && s[i..i + |p|] == p
  }

  /** Go's `strings.Contains(s, p)`. */
  predicate Contains(s: string, p: string) {
    exists i: nat | i <= |s| :: OccursAt(s, p, i)
  }

  /** Go's `strings.HasPrefix(s, prefix)`. */
  predicate HasPrefix(s: string, prefix: string) {
    |prefix| <= |s| && s[..|prefix|] == prefix
  }

  /** Go's `strings.TrimPrefix`: one leading `prefix` is removed, if there is one. */
  function TrimPrefix(s: string, prefix: string): (r: string)
    ensures HasPrefix(s, prefix) ==> prefix + r == s
    ensures !HasPrefix(s, prefix) ==> r == s
  {
    if HasPrefix(s, prefix) then s[|prefix|..] else s
  }

  /** Trimming a prefix undoes prepending it, and only one copy is removed. */
  lemma TrimPrefixOfConcat(prefix: string, rest: string)
    ensures TrimPrefix(prefix + rest, prefix) == rest
  {
    assert (prefix + rest)[..|prefix|] == prefix;
  }

  /** A string without `p` has no occurrence of `p` at any index, in range or not. */
  lemma NotOccursAt(s: string, p: string, i: nat)
    requires !Contains(s, p)
    ensures !OccursAt(s, p, i)
  {
    if i <= |s| {
      assert !OccursAt(s, p, i);
    }
  }

  /** An occurrence in `x + y` that starts at or after the end of `x` is an occurrence in `y`. */
  lemma OccursAfter(x: string, y: string, p: string, i: nat)
    requires i >= |x|
    ensures OccursAt(x + y, p, i) <==> OccursAt(y, p, i - |x|)
  {
    if i + |p| <= |x + y| {
      var a, b := (x + y)[i..i + |p|], y[i - |x|..i - |x| + |p|];
      forall k | 0 <= k < |p| ensures a[k] == b[k] {
        assert a[k] == (x + y)[i + k];
      }
      assert a == b;
    }
  }

  /** An occurrence in `x + y` that starts inside `x` starts with a character of `x`. */
  lemma OccursWithin(x: string, y: string, p: string, i: nat)
    requires |p| > 0 && i < |x|
    ensures OccursAt(x + y, p, i) ==> x[i] == p[0]
  {
    if i + |p| <= |x + y| {
      assert (x + y)[i..i + |p|][0] == x[i];
    }
  }

  /** An occurrence in a suffix is an occurrence in the whole string, `k` places further on. */
  lemma OccursInSuffix(s: string, p: string, k: nat, i: nat)
    requires k <= |s|
    ensures OccursAt(s[k..], p, i) <==> OccursAt(s, p, k + i)
  {
    assert s == s[..k] + s[k..];
    OccursAfter(s[..k], s[k..], p, k + i);
  }

  /** `[c] + y` starts with `p` exactly when `c` is the first character of `p` and `y` starts with
      the rest of `p`. */
  lemma PrefixAtFront(c: char, y: string, p: string)
    requires |p| > 0
    ensures HasPrefix([c] + y, p) <==> c == p[0] && HasPrefix(y, p[1..])
  {
    var n := |p|;
    if n <= 1 + |y| {
      var head, tail := ([c] + y)[..n], y[..n - 1];
      forall k | 1 <= k < n ensures head[k] == tail[k - 1] {
        assert head[k] == ([c] + y)[k];
      }
      if head == p {
        assert c == p[0];
        forall k | 0 <= k < n - 1 ensures tail[k] == p[1..][k] {
          assert head[k + 1] == p[k + 1];
        }
        assert tail == p[1..];
      }
      if c == p[0] && tail == p[1..] {
        forall k | 0 <= k < n ensures head[k] == p[k] {
          if k > 0 {
            assert tail[k - 1] == p[1..][k - 1];
          }
        }
        assert head == p;
      }
    }
  }

  /** A string that does not contain `p` has no suffix that contains `p`. */
  lemma {:induction false} AbsentFromSuffix(s: string, p: string, k: nat)
    requires k <= |s|
    requires !Contains(s, p)
    ensures !Contains(s[k..], p)
  {
    forall i: nat ensures !OccursAt(s[k..], p, i) {
      OccursInSuffix(s, p, k, i);
      NotOccursAt(s, p, k + i);
    }
  }

  /** A character of `p` that `s` lacks keeps `p` out of `s`. */
  lemma {:induction false} AbsentByCharacter(s: string, p: string, c: char)
    requires c in p && c !in s
    ensures !Contains(s, p)
  {
    var k :| 0 <= k < |p| && p[k] == c;
    forall i: nat ensures !OccursAt(s, p, i) {
      if i + |p| <= |s| {
        assert s[i..i + |p|][k] == s[i + k];
        assert s[i + k] != c;
      }
    }
  }

  /** Go's `strings.Replace(s, pattern, replacement, -1)` for a non-empty pattern: scanning from the
      left, each occurrence of `pattern` that does not overlap an earlier replaced one is replaced. */
  function ReplaceAll(s: string, pattern: string, replacement: string): (r: string)
    requires |pattern| > 0
    ensures pattern == replacement ==> r == s
    decreases |s|
  {
    if |s| < |pattern| then s
    else if s[..|pattern|] == pattern then replacement + ReplaceAll(s[|pattern|..], pattern, replacement)
    else [s[0]] + ReplaceAll(s[1..], pattern, replacement)
  }

  /** A string that starts with the pattern: the replacement, then the rest replaced. */
  lemma ReplaceAtHead(s: string, pattern: string, replacement: string)
    requires |pattern| > 0 && HasPrefix(s, pattern)
    ensures ReplaceAll(s, pattern, replacement) == replacement + ReplaceAll(s[|pattern|..], pattern, replacement)
  {
  }

  /** A string long enough for the pattern but not starting with it keeps its first character. */
  lemma KeepsHead(s: string, pattern: string, replacement: string)
    requires |pattern| > 0 && |s| >= |pattern| && !HasPrefix(s, pattern)
    ensures ReplaceAll(s, pattern, replacement) == [s[0]] + ReplaceAll(s[1..], pattern, replacement)
  {
  }

  /** Whether `x + y` starts with a text no longer than `x` is decided by `x` alone. */
  lemma PrefixOfLonger(x: string, y: string, p: string)
    requires |p| <= |x|
    ensures HasPrefix(x + y, p) <==> HasPrefix(x, p)
  {
    assert (x + y)[..|p|] == x[..|p|];
  }

  /** A pattern at the very start is replaced, and the scan goes on after it. */
  lemma ReplaceLeadingPattern(pattern: string, b: string, replacement: string)
    requires |pattern| > 0
    ensures ReplaceAll(pattern + b, pattern, replacement) == replacement + ReplaceAll(b, pattern, replacement)
  {
    PrefixOfLonger(pattern, b, pattern);
    ReplaceAtHead(pattern + b, pattern, replacement);
    assert (pattern + b)[|pattern|..] == b;
  }

  /** A first character at which no occurrence starts is kept. */
  lemma KeepsFirstCharacter(a: string, pattern: string, b: string, replacement: string)
    requires |pattern| > 0 && |a| > 0
    requires !OccursAt(a + pattern, pattern, 0)
    ensures ReplaceAll(a + pattern + b, pattern, replacement)
         == [a[0]] + ReplaceAll(a[1..] + pattern + b, pattern, replacement)
  {
    var s := a + pattern + b;
    PrefixOfLonger(a + pattern, b, pattern);
    KeepsHead(s, pattern, replacement);
    assert s[1..] == a[1..] + pattern + b;
  }

  /** No occurrence before the pattern in `a + pattern` means none in `a[1..] + pattern` either. */
  lemma NoEarlierInTail(a: string, pattern: string)
    requires |a| > 0
    requires forall i :: 0 <= i < |a| ==> !OccursAt(a + pattern, pattern, i)
    ensures forall i :: 0 <= i < |a| - 1 ==> !OccursAt(a[1..] + pattern, pattern, i)
  {
    forall i | 0 <= i < |a| - 1 ensures !OccursAt(a[1..] + pattern, pattern, i) {
      assert [a[0]] + (a[1..] + pattern) == a + pattern;
      OccursAfter([a[0]], a[1..] + pattern, pattern, i + 1);
    }
  }

  /** The leftmost occurrence is the one replaced: text before the first occurrence is kept, the
      occurrence becomes the replacement, and the scan goes on after it. */
  lemma {:induction false} ReplaceAtFirst(a: string, pattern: string, b: string, replacement: string)
    requires |pattern| > 0
    requires forall i :: 0 <= i < |a| ==> !OccursAt(a + pattern, pattern, i)
    ensures ReplaceAll(a + pattern + b, pattern, replacement) == a + replacement + ReplaceAll(b, pattern, replacement)
    decreases |a|
  {
    if |a| == 0 {
      assert a + pattern + b == pattern + b;
      ReplaceLeadingPattern(pattern, b, replacement);
    } else {
      KeepsFirstCharacter(a, pattern, b, replacement);
      NoEarlierInTail(a, pattern);
      ReplaceAtFirst(a[1..], pattern, b, replacement);
      assert a == [a[0]] + a[1..];
    }
  }

  /** A string without the pattern is returned unchanged. */
  lemma {:induction false} ReplaceAbsent(s: string, pattern: string, replacement: string)
    requires |pattern| > 0
    requires !Contains(s, pattern)
    ensures ReplaceAll(s, pattern, replacement) == s
    decreases |s|
  {
    if |s| >= |pattern| {
      assert !OccursAt(s, pattern, 0);
      KeepsHead(s, pattern, replacement);
      AbsentFromSuffix(s, pattern, 1);
      ReplaceAbsent(s[1..], pattern, replacement);
      assert [s[0]] + s[1..] == s;
    }
  }

  /** A string that is exactly the pattern becomes exactly the replacement. */
  lemma ReplaceWhole(pattern: string, replacement: string)
    requires |pattern| > 0
    ensures ReplaceAll(pattern, pattern, replacement) == replacement
  {
    assert pattern[|pattern|..] == [];
  }

  /** A character that cannot start the pattern is kept, and the pattern after it is replaced. */
  lemma ReplaceAfterCharacter(c: char, pattern: string, replacement: string)
    requires |pattern| > 0 && c != pattern[0]
    ensures ReplaceAll([c] + pattern, pattern, replacement) == [c] + replacement
  {
    var s := [c] + pattern;
    assert s[..|pattern|][0] == c;
    KeepsHead(s, pattern, replacement);
    assert s[1..] == pattern;
    ReplaceWhole(pattern, replacement);
  }

  /** `rep` and `q` differ at some index both have. */
  predicate Clashes(rep: string, q: string) {
    exists m :: 0 <= m < |rep| && m < |q| && rep[m] != q[m]
  }

  /** When the replacement clashes with every non-empty suffix of `q`, a result that starts with
      `q` can only come from an input that starts with `q`. */
  lemma {:induction false} PrefixNotCreated(t: string, pattern: string, replacement: string, q: string)
    requires |pattern| > 0
    requires forall k :: 0 <= k < |q| ==> Clashes(replacement, q[k..])
    requires !HasPrefix(t, q)
    ensures !HasPrefix(ReplaceAll(t, pattern, replacement), q)
    decreases |t|
  {
    var r := ReplaceAll(t, pattern, replacement);
    if |t| < |pattern| {
    } else if HasPrefix(t, pattern) {
      ReplaceAtHead(t, pattern, replacement);
      assert Clashes(replacement, q[0..]);
      var m :| 0 <= m < |replacement| && m < |q| && replacement[m] != q[m];
      if |q| <= |r| {
        assert r[..|q|][m] == replacement[m];
      }
    } else {
      KeepsHead(t, pattern, replacement);
      var rest := ReplaceAll(t[1..], pattern, replacement);
      assert t == [t[0]] + t[1..];
      PrefixAtFront(t[0], t[1..], q);
      PrefixAtFront(t[0], rest, q);
      if t[0] == q[0] {
        var q' := q[1..];
        forall k | 0 <= k < |q'| ensures Clashes(replacement, q'[k..]) {
          assert q'[k..] == q[k + 1..];
        }
        PrefixNotCreated(t[1..], pattern, replacement, q');
      }
    }
  }

  /** A replacement that cannot recreate the pattern around itself: it is not empty, it holds neither
      the first nor the last character of the pattern, and it does not occur inside the pattern. */
  predicate SafeReplacement(pattern: string, replacement: string) {
    && |pattern| >= 2
    && |replacement| > 0
    && pattern[0] !in replacement
    && pattern[|pattern| - 1] !in replacement
    && !Contains(pattern[1..|pattern| - 1], replacement)
  }

  lemma SafeReplacementClashes(pattern: string, replacement: string, j: nat)
    requires SafeReplacement(pattern, replacement)
    requires 1 <= j < |pattern|
    ensures Clashes(replacement, pattern[j..])
  {
    var q := pattern[j..];
    if |replacement| >= |q| {
      assert q[|q| - 1] == pattern[|pattern| - 1];
      assert replacement[|q| - 1] != q[|q| - 1];
    } else {
      var inner := pattern[1..|pattern| - 1];
      assert !OccursAt(inner, replacement, j - 1);
      assert j - 1 + |replacement| <= |inner|;
      var a, b := inner[j - 1..j - 1 + |replacement|], pattern[j..j + |replacement|];
      forall x | 0 <= x < |replacement| ensures a[x] == b[x] {
        assert inner[j - 1 + x] == pattern[j + x];
      }
      assert a == b;
      assert pattern[j..j + |replacement|] != replacement;
      var m :| 0 <= m < |replacement| && pattern[j..j + |replacement|][m] != replacement[m];
      assert q[m] == pattern[j + m];
    }
  }

  /** With a safe replacement, no occurrence of the pattern is left in the result. */
  lemma {:induction false} ReplaceRemovesAll(s: string, pattern: string, replacement: string)
    requires SafeReplacement(pattern, replacement)
    ensures !Contains(ReplaceAll(s, pattern, replacement), pattern)
    decreases |s|
  {
    var r := ReplaceAll(s, pattern, replacement);
    var n := |pattern|;
    if |s| < n {
    } else if HasPrefix(s, pattern) {
      ReplaceAtHead(s, pattern, replacement);
      var rest := ReplaceAll(s[n..], pattern, replacement);
      ReplaceRemovesAll(s[n..], pattern, replacement);
      forall i: nat ensures !OccursAt(r, pattern, i) {
        if i < |replacement| {
          OccursWithin(replacement, rest, pattern, i);
        } else {
          OccursAfter(replacement, rest, pattern, i);
          NotOccursAt(rest, pattern, i - |replacement|);
        }
      }
    } else {
      KeepsHead(s, pattern, replacement);
      var rest := ReplaceAll(s[1..], pattern, replacement);
      ReplaceRemovesAll(s[1..], pattern, replacement);
      forall i: nat ensures !OccursAt(r, pattern, i) {
        if i == 0 {
          assert s == [s[0]] + s[1..];
          PrefixAtFront(s[0], s[1..], pattern);
          PrefixAtFront(s[0], rest, pattern);
          forall k | 0 <= k < |pattern[1..]| ensures Clashes(replacement, pattern[1..][k..]) {
            assert pattern[1..][k..] == pattern[k + 1..];
            SafeReplacementClashes(pattern, replacement, k + 1);
          }
          if s[0] == pattern[0] {
            PrefixNotCreated(s[1..], pattern, replacement, pattern[1..]);
          }
        } else {
          OccursAfter([s[0]], rest, pattern, i);
          NotOccursAt(rest, pattern, i - 1);
        }
      }
    }
  }

  /** Replacing with a text that shares no character with `other` cannot create `other`. */
  lemma {:induction false} ReplaceKeepsAbsent(s: string, pattern: string, replacement: string, other: string)
    requires |pattern| > 0 && |replacement| > 0 && |other| > 0
    requires forall k :: 0 <= k < |replacement| ==> replacement[k] !in other
    requires !Contains(s, other)
    ensures !Contains(ReplaceAll(s, pattern, replacement), other)
    decreases |s|
  {
    var r := ReplaceAll(s, pattern, replacement);
    var n := |pattern|;
    if |s| < n {
    } else if HasPrefix(s, pattern) {
      ReplaceAtHead(s, pattern, replacement);
      var rest := ReplaceAll(s[n..], pattern, replacement);
      AbsentFromSuffix(s, other, n);
      ReplaceKeepsAbsent(s[n..], pattern, replacement, other);
      forall i: nat ensures !OccursAt(r, other, i) {
        if i < |replacement| {
          OccursWithin(replacement, rest, other, i);
        } else {
          OccursAfter(replacement, rest, other, i);
          NotOccursAt(rest, other, i - |replacement|);
        }
      }
    } else {
      KeepsHead(s, pattern, replacement);
      var rest := ReplaceAll(s[1..], pattern, replacement);
      AbsentFromSuffix(s, other, 1);
      ReplaceKeepsAbsent(s[1..], pattern, replacement, other);
      forall i: nat ensures !OccursAt(r, other, i) {
        if i == 0 {
          var q := other[1..];
          forall k | 0 <= k < |q| ensures Clashes(replacement, q[k..]) {
            assert q[k..][0] == other[k + 1];
          }
          assert s == [s[0]] + s[1..];
          NotOccursAt(s, other, 0);
          PrefixAtFront(s[0], s[1..], other);
          PrefixAtFront(s[0], rest, other);
          if s[0] == other[0] {
            PrefixNotCreated(s[1..], pattern, replacement, q);
          }
        } else {
          OccursAfter([s[0]], rest, other, i);
          NotOccursAt(rest, other, i - 1);
        }
      }
    }
  }

  /** The character of decimal digit `d`. */
  function DigitChar(d: nat): (c: char)
    requires d < 10
    ensures '0' <= c <= '9'
  {
    ('0' as int + d) as char
  }

  /** The decimal digits of `n`, most significant first, without leading zeros. */
  function DecimalDigits(n: nat): (r: string)
    ensures |r| > 0
    ensures forall k :: 0 <= k < |r| ==> '0' <= r[k] <= '9'
    ensures |r| > 1 ==> r[0] != '0'
    decreases n
  {
    if n < 10 then [DigitChar(n)] else DecimalDigits(n / 10) + [DigitChar(n % 10)]
  }

  /** Go's `strconv.Itoa`: base-10 text of an integer, with a leading '-' when negative. */
  function Itoa(n: int): (r: string)
    ensures |r| > 0
    ensures r[0] == '-' <==> n < 0
  {
    if n < 0 then "-" + DecimalDigits(-n) else DecimalDigits(n)
  }

  /** The value of a text of decimal digits: the partner of `DecimalDigits`. */
  function ParseDecimal(s: string): nat
    requires forall k :: 0 <= k < |s| ==> '0' <= s[k] <= '9'
  {
    if |s| == 0 then 0 else ParseDecimal(s[..|s| - 1]) * 10 + (s[|s| - 1] as int - '0' as int)
  }

  lemma {:induction false} DecimalRoundTrip(n: nat)
    ensures ParseDecimal(DecimalDigits(n)) == n
    decreases n
  {
    if n >= 10 {
      var d := DecimalDigits(n);
      DecimalRoundTrip(n / 10);
      assert d[..|d| - 1] == DecimalDigits(n / 10);
    }
  }

  /** `Itoa` loses nothing: its sign and digits give back the integer. */
  lemma ItoaRoundTrip(n: int)
    ensures n >= 0 ==> ParseDecimal(Itoa(n)) == n
    ensures n < 0 ==> -(ParseDecimal(Itoa(n)[1..]) as int) == n
  {
    DecimalRoundTrip(if n < 0 then -n else n);
    if n < 0 {
      assert Itoa(n)[1..] == DecimalDigits(-n);
    }
  }
}
