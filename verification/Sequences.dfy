/** Facts about sequences that the recursive functions of the other modules lean on. */
module Sequences {

  lemma SplitLast<T>(s: seq<T>)
    requires s != []
    ensures s == s[..|s| - 1] + [s[|s| - 1]]
  {
  }

  lemma FrontOfPush<T>(s: seq<T>, x: T)
    ensures (s + [x])[..|s + [x]| - 1] == s && (s + [x])[..|s|] == s
  {
  }

  lemma PrefixPush<T>(s: seq<T>, k: nat)
    requires k < |s|
    ensures s[..k + 1] == s[..k] + [s[k]]
  {
  }

  lemma FrontOfPrefix<T>(s: seq<T>, k: nat)
    requires k < |s|
    ensures s[..k + 1][..k] == s[..k]
  {
  }

  lemma SplitAt<T>(s: seq<T>, k: nat)
    requires k <= |s|
    ensures s == s[..k] + s[k..]
  {
  }

  /** What stands first in the second part stands right after the first. */
  lemma PrefixIntoSecond<T>(a: seq<T>, b: seq<T>)
    requires b != []
    ensures (a + b)[..|a| + 1] == a + [b[0]]
  {
  }

  lemma WholePrefix<T>(s: seq<T>)
    ensures s[..|s|] == s
  {
  }

  /** Prefix and suffix of a sequence, from those of its front. */
  lemma FrontSplits<T>(s: seq<T>, n: nat)
    requires n < |s|
    ensures s[..|s| - 1][..n] == s[..n]
    ensures s[..|s| - 1][n..] + [s[|s| - 1]] == s[n..]
  {
  }

  /** Dropping the first element as well drops one more. */
  lemma DropAfterFirst<T>(x: T, s: seq<T>, k: nat)
    requires k <= |s|
    ensures ([x] + s)[k + 1..] == s[k..]
  {
  }

  lemma PrefixAgrees<T>(s: seq<T>, t: seq<T>, k: nat)
    requires s <= t && k <= |s|
    ensures s[..k] == t[..k]
  {
  }
}
