/**
 * String operations the query layer relies on: lower-casing, Python's `in`
 * test on strings, `str.startswith`, `", ".join(...)` and the decimal
 * rendering of a list index.
 */
module Strings {

  /** Lower-case form of one character: Latin A-Z and the basic Cyrillic capitals. */
  function LowerChar(c: char): (r: char)
    ensures ('A' <= c <= 'Z') ==> r == (c as int + 32) as char
    ensures !('A' <= c <= 'Z') && !('Ѐ' <= c <= 'Я') ==> r == c
  {
    if 'A' <= c <= 'Z' then (c as int + 32) as char
    else if 'А' <= c <= 'Я' then (c as int + 32) as char
    else if 'Ѐ' <= c <= 'Џ' then (c as int + 80) as char
    else c
  }

  /** Characterwise lower-casing of a string. */
  function Lower(s: string): (r: string)
    ensures |r| == |s|
  {
    seq(|s|, i requires 0 <= i < |s| => LowerChar(s[i]))
  }

  /** `k` occurs in `s` at position `i`. */
  predicate OccursAt(k: string, s: string, i: nat) {
    i + |k| <= |s| && s[i..i + |k|] == k
  }

  /** Python's `k in s` for two strings: `k` is a prefix of `s` or of one of its suffixes. */
  predicate Occurs(k: string, s: string)
    decreases |s|
  {
    (|k| <= |s| && s[..|k|] == k) || (|s| > 0 && Occurs(k, s[1..]))
  }

  /** The recursive scan finds `k` exactly when `k` sits at some position of `s`. */
  lemma {:induction false} OccursIff(k: string, s: string)
    ensures Occurs(k, s) <==> exists i: nat :: OccursAt(k, s, i)
    decreases |s|
  {
    if |k| <= |s| && s[..|k|] == k {
      assert OccursAt(k, s, 0);
    } else if |s| > 0 {
      OccursIff(k, s[1..]);
      if Occurs(k, s[1..]) {
        var i: nat :| OccursAt(k, s[1..], i);
        assert s[1..][i..i + |k|] == s[i + 1..i + 1 + |k|];
        assert OccursAt(k, s, i + 1);
      }
      if i: nat :| OccursAt(k, s, i) {
        assert i != 0;
        assert s[1..][i - 1..i - 1 + |k|] == s[i..i + |k|];
        assert OccursAt(k, s[1..], i - 1);
      }
    }
  }

  /** The empty string occurs in every string, as `"" in s` holds in Python. */
  lemma EmptyOccurs(s: string)
    ensures Occurs("", s)
  {
    assert s[..0] == "";
  }

  /** A string occurs in any string built around it. */
  lemma OccursInMiddle(a: string, x: string, b: string)
    ensures Occurs(x, a + x + b)
  {
    var s := a + x + b;
    assert s[|a|..|a| + |x|] == x;
    assert OccursAt(x, s, |a|);
    OccursIff(x, s);
  }

  /** Prepending text keeps an occurrence. */
  lemma OccursInSuffix(k: string, p: string, s: string)
    requires Occurs(k, s)
    ensures Occurs(k, p + s)
  {
    OccursIff(k, s);
    var i: nat :| OccursAt(k, s, i);
    assert (p + s)[|p| + i..|p| + i + |k|] == s[i..i + |k|];
    assert OccursAt(k, p + s, |p| + i);
    OccursIff(k, p + s);
  }

  /** Python's `s.startswith(p)`. */
  predicate StartsWith(s: string, p: string) {
    |p| <= |s| && s[..|p|] == p
  }

  /** Python's `sep.join(xs)`. */
  function Join(sep: string, xs: seq<string>): string
    decreases |xs|
  {
    if |xs| == 0 then ""
    else if |xs| == 1 then xs[0]
    else xs[0] + sep + Join(sep, xs[1..])
  }

  /** Every joined item occurs in the joined string. */
  lemma {:induction false} JoinContainsEach(sep: string, xs: seq<string>, i: nat)
    requires i < |xs|
    ensures Occurs(xs[i], Join(sep, xs))
    decreases |xs|
  {
    if |xs| == 1 {
      assert Join(sep, xs) == "" + xs[0] + "";
      OccursInMiddle("", xs[0], "");
    } else if i == 0 {
      assert Join(sep, xs) == "" + xs[0] + (sep + Join(sep, xs[1..]));
      OccursInMiddle("", xs[0], sep + Join(sep, xs[1..]));
    } else {
      JoinContainsEach(sep, xs[1..], i - 1);
      assert Join(sep, xs) == (xs[0] + sep) + Join(sep, xs[1..]);
      OccursInSuffix(xs[i], xs[0] + sep, Join(sep, xs[1..]));
    }
  }

  /** One decimal digit. */
  function DigitChar(d: nat): (c: char)
    requires d < 10
    ensures '0' <= c <= '9'
  {
    ('0' as int + d) as char
  }

  predicate IsDigits(s: string) {
    forall i | 0 <= i < |s| :: '0' <= s[i] <= '9'
  }

  /** Python's `str(n)` for a non-negative integer: decimal, no leading zeros. */
  function NatToString(n: nat): (s: string)
    ensures |s| > 0 && IsDigits(s)
    ensures n >= 10 ==> |s| >= 2
    decreases n
  {
    if n < 10 then [DigitChar(n)] else NatToString(n / 10) + [DigitChar(n % 10)]
  }

  /** Different numbers have different decimal renderings. */
  lemma {:induction false} NatToStringInjective(a: nat, b: nat)
    requires NatToString(a) == NatToString(b)
    ensures a == b
    decreases a
  {
    var s := NatToString(a);
    if a < 10 && b < 10 {
      assert s[0] == DigitChar(a) == DigitChar(b);
    } else if a >= 10 && b >= 10 {
      assert s[|s| - 1] == DigitChar(a % 10) == DigitChar(b % 10);
      assert NatToString(a / 10) == s[..|s| - 1] == NatToString(b / 10);
      NatToStringInjective(a / 10, b / 10);
    }
  }
}
