/** Selecting the elements of a sequence whose positions pass a test, in order. */
module Seqs {

  /** The indices `j < n` with `keep(s[j])`, in increasing order. */
  function Where<T>(s: seq<T>, n: nat, keep: T -> bool): (idx: seq<nat>)
    requires n <= |s|
    ensures |idx| <= n
    ensures forall k :: 0 <= k < |idx| ==> idx[k] < n && keep(s[idx[k]])
    ensures forall k, l :: 0 <= k < l < |idx| ==> idx[k] < idx[l]
  {
    if n == 0 then []
    else Where(s, n - 1, keep) + (if keep(s[n - 1]) then [n - 1] else [])
  }

  /** Every index below `n` that passes the test is selected. */
  lemma {:induction false} WhereComplete<T>(s: seq<T>, n: nat, keep: T -> bool, j: nat)
    requires n <= |s| && j < n && keep(s[j])
    ensures j in Where(s, n, keep)
  {
    if j < n - 1 {
      WhereComplete(s, n - 1, keep, j);
    }
  }

  /** When everything passes the test, all indices below `n` are selected, in order. */
  lemma {:induction false} WhereAll<T>(s: seq<T>, n: nat, keep: T -> bool)
    requires n <= |s|
    requires forall k :: 0 <= k < n ==> keep(s[k])
    ensures |Where(s, n, keep)| == n
    ensures forall k :: 0 <= k < n ==> Where(s, n, keep)[k] == k
  {
    if n > 0 {
      WhereAll(s, n - 1, keep);
    }
  }

  /** The elements of `s` at the positions `idx`, in that order. */
  function Select<T>(s: seq<T>, idx: seq<nat>): (r: seq<T>)
    requires forall k :: 0 <= k < |idx| ==> idx[k] < |s|
    ensures |r| == |idx|
    ensures forall k :: 0 <= k < |idx| ==> r[k] == s[idx[k]]
  {
    seq(|idx|, k requires 0 <= k < |idx| => s[idx[k]])
  }
}
