/** Cutting a sequence at a separator, for characters and bytes alike. */
module Pieces {

  /** Everything before the first `c`. */
  function Until<T(==)>(s: seq<T>, c: T): (p: seq<T>)
    ensures |p| <= |s| && p == s[..|p|] && c !in p
    ensures |p| < |s| ==> s[|p|] == c
    ensures |p| == |s| <==> c !in s
  {
    if s == [] || s[0] == c then [] else [s[0]] + Until(s[1..], c)
  }

  /** The pieces between separators; there is always at least one. */
  function SplitOn<T(==)>(s: seq<T>, c: T): (r: seq<seq<T>>)
    ensures |r| >= 1
  {
    if s == [] then [[]]
    else if s[0] == c then [[]] + SplitOn(s[1..], c)
    else var r := SplitOn(s[1..], c); [[s[0]] + r[0]] + r[1..]
  }

  lemma {:induction false} UntilFirst<T>(a: seq<T>, b: seq<T>, c: T)
    requires c !in a
    ensures Until(a + [c] + b, c) == a && Until(a, c) == a
    decreases |a|
  {
    var all := a + [c] + b;
    if a != [] {
      UntilFirst(a[1..], b, c);
      assert all[1..] == a[1..] + [c] + b;
      assert a == [a[0]] + a[1..];
    }
  }

  lemma {:induction false} SplitPlain<T>(t: seq<T>, c: T)
    requires c !in t
    ensures SplitOn(t, c) == [t]
  {
    if t != [] {
      SplitPlain(t[1..], c);
      assert t == [t[0]] + t[1..];
    }
  }

  lemma {:induction false} SplitFirst<T>(t: seq<T>, s: seq<T>, c: T)
    requires c !in t
    ensures SplitOn(t + [c] + s, c) == [t] + SplitOn(s, c)
  {
    var all := t + [c] + s;
    if t == [] {
      assert all[1..] == s;
    } else {
      SplitFirst(t[1..], s, c);
      assert all[1..] == t[1..] + [c] + s;
      assert t == [t[0]] + t[1..];
    }
  }
}
