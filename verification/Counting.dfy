/** How many elements of a sequence satisfy a predicate. */
module Counting {
  import opened Reals

  function Count<T>(s: seq<T>, p: T -> bool): (n: nat)
    ensures n <= |s|
  {
    if |s| == 0 then 0 else Count(s[..|s| - 1], p) + (if p(s[|s| - 1]) then 1 else 0)
  }

  lemma {:induction false} CountConcat<T>(a: seq<T>, b: seq<T>, p: T -> bool)
    ensures Count(a + b, p) == Count(a, p) + Count(b, p)
  {
    if |b| == 0 {
      assert a + b == a;
    } else {
      assert (a + b)[..|a + b| - 1] == a + b[..|b| - 1];
      CountConcat(a, b[..|b| - 1], p);
    }
  }

  lemma CountOne<T>(x: T, p: T -> bool)
    ensures Count([x], p) == if p(x) then 1 else 0
  {
    assert Count([x][..0], p) == 0;
  }

  lemma CountHead<T>(s: seq<T>, i: nat, p: T -> bool)
    requires i < |s|
    ensures Count(s[i..], p) == (if p(s[i]) then 1 else 0) + Count(s[i + 1..], p)
  {
    assert s[i..] == [s[i]] + s[i + 1..];
    CountConcat([s[i]], s[i + 1..], p);
    CountOne(s[i], p);
  }

  lemma CountFrom<T>(s: seq<T>, more: seq<T>, i: nat, p: T -> bool)
    requires i <= |s|
    ensures Count((s + more)[i..], p) == Count(s[i..], p) + Count(more, p)
  {
    assert (s + more)[i..] == s[i..] + more;
    CountConcat(s[i..], more, p);
  }

  /** The count does not depend on the order. */
  lemma {:induction false} CountPermutation<T>(s: seq<T>, t: seq<T>, p: T -> bool)
    requires multiset(s) == multiset(t)
    ensures Count(s, p) == Count(t, p)
    decreases |s|
  {
    if |s| == 0 {
      assert |t| == |multiset(t)| == 0;
    } else {
      var k := RemoveCommon(s, t);
      CountPermutation(s[..|s| - 1], t[..k] + t[k + 1..], p);
      CountConcat(t[..k], t[k..], p);
      CountHead(t, k, p);
      CountConcat(t[..k], t[k + 1..], p);
      assert t == t[..k] + t[k..];
    }
  }
}
