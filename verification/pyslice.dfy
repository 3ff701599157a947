/** Python's slice semantics on sequences: a negative bound counts from the
    end, and every bound is clamped to the length of the sequence. */
module PySlice {

  /** The position that the slice bound `k` denotes in a sequence of length `n`. */
  function Bound(k: int, n: nat): (i: nat)
    ensures i <= n
  {
    if k < 0 then (if n + k >= 0 then n + k else 0)
    else if k <= n then k else n
  }

  /** `s[:k]`: always a prefix of `s`. */
  function Take<T>(s: seq<T>, k: int): (r: seq<T>)
    ensures |r| <= |s| && r == s[..|r|]
  {
    s[..Bound(k, |s|)]
  }

  /** `s[k:]`: always a suffix of `s`. */
  function Drop<T>(s: seq<T>, k: int): (r: seq<T>)
    ensures |r| <= |s| && r == s[|s| - |r|..]
  {
    s[Bound(k, |s|)..]
  }
}
