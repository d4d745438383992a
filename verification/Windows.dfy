/** The last n elements of a stream, and how a deque bounded to n elements follows them. */
module Windows {
  function Window<T>(s: seq<T>, n: nat): (w: seq<T>)
    ensures |w| == if |s| < n then |s| else n
  {
    if |s| < n then s else s[|s| - n..]
  }

  /** push_back, then pop_front when longer than n. */
  lemma Slide<T>(s: seq<T>, x: T, n: nat)
    requires n > 0
    ensures var longer := Window(s, n) + [x];
      Window(s + [x], n) == if |longer| > n then longer[1..] else longer
  {
  }
}
