/**
 * The PHP string built-ins the dispatcher relies on: `trim` with a one-character
 * list, `explode`, `strtolower`, `empty` on a string-or-null, and decimal
 * digit strings (used by PHP for array keys and string offsets).
 */
module PhpStrings {
  import opened Wrappers

  /** `c` repeated `n` times. */
  function Repeat(c: char, n: nat): (r: string)
    ensures |r| == n
    ensures forall k :: 0 <= k < n ==> r[k] == c
  {
    if n == 0 then [] else Repeat(c, n - 1) + [c]
  }

  /** `ltrim($s, c)`: drops every leading `c`. */
  function TrimLeft(s: string, c: char): (r: string)
    ensures |r| <= |s| && r == s[|s| - |r|..]
    ensures forall k :: 0 <= k < |s| - |r| ==> s[k] == c
    ensures r == [] || r[0] != c
  {
    if |s| > 0 && s[0] == c then TrimLeft(s[1..], c) else s
  }

  /** `rtrim($s, c)`: drops every trailing `c`. */
  function TrimRight(s: string, c: char): (r: string)
    ensures |r| <= |s| && r == s[..|r|]
    ensures forall k :: |r| <= k < |s| ==> s[k] == c
    ensures r == [] || r[|r| - 1] != c
  {
    if |s| > 0 && s[|s| - 1] == c then TrimRight(s[..|s| - 1], c) else s
  }

  /** `trim($s, c)`: what is left once every leading and trailing `c` is gone. */
  function Trim(s: string, c: char): (r: string)
    ensures |r| <= |s|
    ensures r == [] || (r[0] != c && r[|r| - 1] != c)
  {
    TrimRight(TrimLeft(s, c), c)
  }

  /** Index of the first `c` in `s`. */
  function IndexOf(s: string, c: char): (k: nat)
    requires c in s
    ensures k < |s| && s[k] == c && c !in s[..k]
  {
    if s[0] == c then 0 else 1 + IndexOf(s[1..], c)
  }

  /** `implode(c, xs)`, the inverse of `explode`. */
  function Join(xs: seq<string>, c: char): string
    requires |xs| >= 1
  {
    if |xs| == 1 then xs[0] else xs[0] + [c] + Join(xs[1..], c)
  }

  /** `explode(c, $s)`: the pieces of `s` between occurrences of `c`; never empty, as in PHP. */
  function Split(s: string, c: char): (r: seq<string>)
    ensures |r| >= 1
    ensures forall i :: 0 <= i < |r| ==> c !in r[i]
    ensures Join(r, c) == s
    decreases |s|
  {
    if c !in s then [s]
    else
      var k := IndexOf(s, c);
      assert s == s[..k] + [c] + s[k + 1..];
      [s[..k]] + Split(s[k + 1..], c)
  }

  lemma {:induction false} IndexOfAfter(a: string, c: char, b: string)
    requires c !in a
    ensures c in a + [c] + b && IndexOf(a + [c] + b, c) == |a|
  {
    var s := a + [c] + b;
    assert s[|a|] == c;
    if a != [] {
      assert s[1..] == a[1..] + [c] + b;
      IndexOfAfter(a[1..], c, b);
    }
  }

  /** `explode` undoes `implode` when no piece contains the separator. */
  lemma {:induction false} SplitJoin(xs: seq<string>, c: char)
    requires |xs| >= 1
    requires forall i :: 0 <= i < |xs| ==> c !in xs[i]
    ensures Split(Join(xs, c), c) == xs
  {
    if |xs| > 1 {
      var rest := Join(xs[1..], c);
      IndexOfAfter(xs[0], c, rest);
      var s := xs[0] + [c] + rest;
      assert s[..|xs[0]|] == xs[0];
      assert s[|xs[0]| + 1..] == rest;
      SplitJoin(xs[1..], c);
    }
  }

  lemma TrimLeftPadded(a: nat, u: string, c: char)
    requires u == [] || u[0] != c
    ensures TrimLeft(Repeat(c, a) + u, c) == u
  {
    var s := Repeat(c, a) + u;
    var r := TrimLeft(s, c);
    var m := |s| - |r|;
    // a shorter cut would leave a leading `c`; a longer one would cut into `u`
    assert r != [] ==> r[0] == s[m];
    assert u != [] ==> s[a] == u[0];
    assert r == s[a..];
  }

  lemma {:induction false} TrimRightPadded(u: string, b: nat, c: char)
    requires u == [] || u[|u| - 1] != c
    ensures TrimRight(u + Repeat(c, b), c) == u
  {
    if b > 0 {
      var s := u + Repeat(c, b);
      assert s[|s| - 1] == c;
      assert s[..|s| - 1] == u + Repeat(c, b - 1);
      TrimRightPadded(u, b - 1, c);
    }
  }

  /** `trim` removes exactly the padding around a string that neither starts nor ends with `c`. */
  lemma {:induction false} TrimPadded(a: nat, t: string, b: nat, c: char)
    requires t == [] || (t[0] != c && t[|t| - 1] != c)
    ensures Trim(Repeat(c, a) + t + Repeat(c, b), c) == t
  {
    var s := Repeat(c, a) + t + Repeat(c, b);
    if t == [] {
      assert s == Repeat(c, a + b) + [] by {
        assert |s| == a + b;
        forall k | 0 <= k < |s| ensures s[k] == Repeat(c, a + b)[k] {
          if k < a { assert s[k] == Repeat(c, a)[k]; } else { assert s[k] == Repeat(c, b)[k - a]; }
        }
      }
      TrimLeftPadded(a + b, [], c);
      TrimRightPadded([], 0, c);
      assert [] + Repeat(c, 0) == [];
    } else {
      assert s == Repeat(c, a) + (t + Repeat(c, b));
      TrimLeftPadded(a, t + Repeat(c, b), c);
      TrimRightPadded(t, b, c);
    }
  }

  /** PHP `strtolower` on one character (ASCII; the locale is the "C" locale). */
  function LowerChar(ch: char): char
  {
    if 'A' <= ch <= 'Z' then (ch as int - 'A' as int + 'a' as int) as char else ch
  }

  /** PHP `strtolower`: same length, ASCII capitals become small letters, nothing else changes. */
  function Lower(s: string): (r: string)
    ensures |r| == |s|
    ensures forall i :: 0 <= i < |s| ==> (if 'A' <= s[i] <= 'Z' then r[i] as int == s[i] as int + 32 else r[i] == s[i])
    ensures forall i :: 0 <= i < |r| ==> !('A' <= r[i] <= 'Z')
  {
    seq(|s|, i requires 0 <= i < |s| => LowerChar(s[i]))
  }

  /** Lower-casing commutes with dropping the first character. */
  lemma LowerDrop(s: string)
    requires |s| > 0
    ensures Lower(s[1..]) == Lower(s)[1..]
  {
    assert forall i :: 0 <= i < |s| - 1 ==> Lower(s[1..])[i] == Lower(s)[i + 1];
  }

  /** PHP `empty()` applied to a string or null: null, "" and "0" are empty. */
  predicate Empty(s: Option<string>)
  {
    s.None? || s.value == "" || s.value == "0"
  }

  predicate IsDigit(ch: char)
  {
    '0' <= ch <= '9'
  }

  /** A non-empty string of decimal digits (leading zeros allowed). */
  predicate IsDigits(s: string)
  {
    |s| > 0 && forall i :: 0 <= i < |s| ==> IsDigit(s[i])
  }

  /**
   * A string PHP turns into an integer array key that is not negative:
   * decimal digits without a leading zero, or "0" itself.
   */
  predicate IsIndexKey(s: string)
  {
    IsDigits(s) && (s[0] != '0' || |s| == 1)
  }

  /** The number a digit string denotes. */
  function DecimalValue(s: string): nat
    requires forall i :: 0 <= i < |s| ==> IsDigit(s[i])
  {
    if s == [] then 0
    else
      assert IsDigit(s[|s| - 1]);
      10 * DecimalValue(s[..|s| - 1]) + (s[|s| - 1] as int - '0' as int)
  }

  /** The decimal rendering of `n`, as PHP converts an integer key to a string. */
  function Decimal(n: nat): (r: string)
    ensures IsIndexKey(r)
    ensures DecimalValue(r) == n
  {
    var d := [('0' as int + n % 10) as char];
    if n < 10 then
      d
    else
      var r := Decimal(n / 10) + d;
      assert r[..|r| - 1] == Decimal(n / 10);
      r
  }
}
