/** Sequence helpers: minimum, suffixes and Python's negative-start slice `s[-n:]`. */
module Seqs {

  function Min(a: int, b: int): int
  {
    if a <= b then a else b
  }

  /** `r` is a suffix of `s`: the last |r| elements of `s`, in order. */
  ghost predicate IsSuffix<T>(r: seq<T>, s: seq<T>)
  {
    |r| <= |s| && forall i :: 0 <= i < |r| ==> r[i] == s[|s| - |r| + i]
  }

  /** Python's `s[-n:]` for a positive `n`: the most recent `n` elements,
      or all of `s` when it is shorter. */
  function LastN<T>(s: seq<T>, n: nat): (r: seq<T>)
    ensures |r| == Min(n, |s|)
    ensures IsSuffix(r, s)
  {
    if |s| <= n then s else s[|s| - n..]
  }

  /** Keeping the last `n` before appending loses nothing that keeping the
      last `n` after appending would have kept. */
  lemma LastNAppend<T>(s: seq<T>, x: T, n: nat)
    ensures LastN(LastN(s, n) + [x], n) == LastN(s + [x], n)
  {
    if 0 < n < |s| {
      var t := s[|s| - n..];
      assert LastN(s, n) == t;
      assert LastN(t + [x], n) == (t + [x])[1..];
      assert LastN(s + [x], n) == (s + [x])[|s| + 1 - n..];
      assert (t + [x])[1..] == s[|s| + 1 - n..] + [x];
      assert (s + [x])[|s| + 1 - n..] == s[|s| + 1 - n..] + [x];
    }
  }
}
