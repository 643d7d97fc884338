/** Telling joined texts apart. */
module Texts {
  function Repeated(c: char, n: nat): (s: string)
    ensures |s| == n && forall x | x in s :: x == c
  {
    if n == 0 then "" else [c] + Repeated(c, n - 1)
  }

  /** Two texts joined by a separator that the first does not contain can be told apart. */
  lemma {:induction false} SplitUnique(a: string, b: string, a': string, b': string, separator: char)
    requires separator !in a && separator !in a'
    requires a + [separator] + b == a' + [separator] + b'
    ensures a == a' && b == b'
  {
    var whole := a + [separator] + b;
    assert whole[|a|] == separator && whole[|a'|] == separator;
    assert forall i | 0 <= i < |a| :: whole[i] == a[i];
    assert forall i | 0 <= i < |a'| :: whole[i] == a'[i];
    assert a == whole[..|a|] && a' == whole[..|a'|];
    assert b == whole[|a| + 1..] && b' == whole[|a'| + 1..];
  }

  lemma {:induction false} PrefixCancels(prefix: string, a: string, b: string)
    requires prefix + a == prefix + b
    ensures a == b
  {
    assert a == (prefix + a)[|prefix|..] && b == (prefix + b)[|prefix|..];
  }
}
