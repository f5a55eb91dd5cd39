/** Small vocabulary shared by every module of the model. */
module Common {

  datatype Option<+T> = None | Some(value: T)

  lemma Associate<T>(a: seq<T>, b: seq<T>, c: seq<T>)
    ensures a + b + c == a + (b + c)
  {
  }

  lemma Regroup<T>(o: seq<T>, a: seq<T>, b: seq<T>, c: seq<T>, d: seq<T>)
    ensures o + a + b + c + d == o + (a + b + c + d)
  {
  }

  lemma EmptyPrefix<T>(s: seq<T>)
    ensures [] + s == s
  {
  }

  lemma SplitAt<T>(s: seq<T>, i: nat)
    requires i < |s|
    ensures s[..i + 1] == s[..i] + [s[i]] && s == s[..i + 1] + s[i + 1..]
  {
  }

  lemma SliceOfSlice<T>(s: seq<T>, n: nat, m: nat)
    requires n <= m <= |s|
    ensures s[n..][..m - n] == s[n..m] && s[n..][m - n..] == s[m..]
  {
  }

  lemma DropHead<T>(s: seq<T>, n: nat)
    requires 0 < n <= |s|
    ensures s[1..][..n - 1] == s[..n][1..] && s[1..][n - 1..] == s[n..] && s[0] == s[..n][0]
  {
  }

  /** The largest value of std::uint64_t; generation counters stop there instead of wrapping. */
  const MAX_U64: nat := 0xffff_ffff_ffff_ffff

  /** An executor may refuse a task; the environment picks the outcome of every post. */
  datatype Post = Accepted | Refused
}
