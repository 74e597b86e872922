/** Facts about sequence slicing, stated generically so that they are proved apart from any recursive function. */
module Sequences {

  lemma SplitAt<T>(s: seq<T>, f: nat)
    requires f < |s|
    ensures s == (s[..f] + [s[f]]) + s[f + 1..]
  {
  }

  /** Extending a prefix by one element. */
  lemma TakeSnoc<T>(s: seq<T>, i: nat)
    requires i < |s|
    ensures s[..i + 1] == s[..i] + [s[i]]
    ensures s[..i + 1][..i] == s[..i]
  {
  }

  /** Dropping the last element of a concatenation drops it from the second part. */
  lemma DropLastOfAppend<T>(a: seq<T>, b: seq<T>)
    requires |b| > 0
    ensures (a + b)[..|a + b| - 1] == a + b[..|b| - 1]
    ensures (a + b)[|a + b| - 1] == b[|b| - 1]
  {
  }

  /** The concatenation of `f(x)` over the elements `x` of `s`, in order. */
  function FlatMap<A, B>(s: seq<A>, f: A -> seq<B>): seq<B>
    decreases |s|
  {
    if |s| == 0 then [] else FlatMap(s[..|s| - 1], f) + f(s[|s| - 1])
  }

  lemma {:induction false} FlatMapAppend<A, B>(a: seq<A>, b: seq<A>, f: A -> seq<B>)
    ensures FlatMap(a + b, f) == FlatMap(a, f) + FlatMap(b, f)
    decreases |b|
  {
    if |b| == 0 {
      assert a + b == a;
    } else {
      DropLastOfAppend(a, b);
      FlatMapAppend(a, b[..|b| - 1], f);
    }
  }

  lemma {:induction false} FlatMapMembership<A, B>(s: seq<A>, f: A -> seq<B>, y: B)
    ensures y in FlatMap(s, f) <==> exists i | 0 <= i < |s| :: y in f(s[i])
    decreases |s|
  {
    if |s| > 0 {
      var n := |s| - 1;
      FlatMapMembership(s[..n], f, y);
      if y in FlatMap(s, f) && y !in f(s[n]) {
        var i :| 0 <= i < n && y in f(s[..n][i]);
        assert s[..n][i] == s[i];
      }
      if i :| 0 <= i < n && y in f(s[i]) {
        assert s[..n][i] == s[i];
      }
    }
  }
}
