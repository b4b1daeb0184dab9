/** The input records of the aggregator and the reference sum over them. */
module Records {

  /** One input record: the two integer fields `a` and `b`. */
  datatype Data = Data(a: int, b: int)

  /** What one record contributes to every sum in the system. */
  function Value(d: Data): int
  {
    d.a + d.b
  }

  /** Reference sum of `a + b` over a run of records, peeled from the back
      so that it follows a left-to-right loop step by step. */
  function Sum(s: seq<Data>): int
  {
    if |s| == 0 then 0 else Sum(s[..|s| - 1]) + Value(s[|s| - 1])
  }

  /** The sum splits over concatenation: a run may be cut anywhere. */
  lemma {:induction false} SumAppend(s: seq<Data>, t: seq<Data>)
    ensures Sum(s + t) == Sum(s) + Sum(t)
    decreases |t|
  {
    if |t| == 0 {
      assert s + t == s;
    } else {
      assert (s + t)[..|s + t| - 1] == s + t[..|t| - 1];
      SumAppend(s, t[..|t| - 1]);
    }
  }

  /** Cutting the slice `s[lo..hi]` at `mid` splits its sum. */
  lemma SumSplit(s: seq<Data>, lo: nat, mid: nat, hi: nat)
    requires lo <= mid <= hi <= |s|
    ensures Sum(s[lo..hi]) == Sum(s[lo..mid]) + Sum(s[mid..hi])
  {
    assert s[lo..hi] == s[lo..mid] + s[mid..hi];
    SumAppend(s[lo..mid], s[mid..hi]);
  }
}
