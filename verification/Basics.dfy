/** Small things the other modules share. */
module Basics {

  datatype Option<+T> = None | Some(value: T)

  function Flag(b: bool): nat {
    if b then 1 else 0
  }

  /** s without its k-th element. */
  function Without<T>(s: seq<T>, k: nat): (r: seq<T>)
    requires k < |s|
    ensures |r| == |s| - 1
  {
    s[..k] + s[k + 1..]
  }

  /** The beginning of a slice. */
  lemma SliceOfSlice<T>(s: seq<T>, a: nat, b: nat, n: nat)
    requires a + n <= b <= |s|
    ensures s[a..b][..n] == s[a..a + n]
    ensures s[a..b][n..] == s[a + n..b]
  {
  }

  lemma FirstApart<T>(a: seq<T>, b: seq<T>)
    requires b != []
    ensures a + b == a + [b[0]] + b[1..]
  {
  }

  /** A slice up to the end. */
  lemma SliceToEnd<T>(s: seq<T>, a: nat)
    requires a <= |s|
    ensures s[a..|s|] == s[a..]
    ensures s[..a] + s[a..] == s
  {
  }
}
