/** The source of randomness: every draw may come out as any value in range. */
module Random {

  class Rand {
    constructor () {}

    method Intn(n: int) returns (r: int)
      requires n > 0
      ensures 0 <= r < n
    {
      r :| 0 <= r < n;
    }

    /** A random permutation, by swapping each element with one before it. */
    method Shuffle<T>(s: seq<T>) returns (r: seq<T>)
      ensures multiset(r) == multiset(s) && |r| == |s|
    {
      r := s;
      var i := |s| - 1;
      while i > 0
        invariant |r| == |s| && i < |s|
        invariant multiset(r) == multiset(s)
      {
        var j := Intn(i + 1);
        r := r[i := r[j]][j := r[i]];
        i := i - 1;
      }
    }
  }
}
