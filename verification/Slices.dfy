/** Facts about slices of a log, kept apart from the proofs that use them. */
module Slices {

  lemma SliceGrows<T>(log: seq<T>, from: nat, to: nat)
    requires from <= to < |log|
    ensures log[from..to + 1] == log[from..to] + [log[to]]
  {
  }

  lemma PrefixGrows<T>(log: seq<T>, n: nat)
    requires n < |log|
    ensures log[..n + 1] == log[..n] + [log[n]]
  {
  }

  lemma Associates<T>(a: seq<T>, b: seq<T>, c: seq<T>)
    ensures a + b + c == a + (b + c)
  {
  }

  lemma SliceOfPrefix<T>(s: seq<T>, s': seq<T>, from: nat, to: nat)
    requires s <= s' && from <= to <= |s|
    ensures s'[from..to] == s[from..to]
  {
  }

  /** `map`. */
  function Each<A, B>(f: A -> B, s: seq<A>): seq<B> {
    seq(|s|, i requires 0 <= i < |s| => f(s[i]))
  }

  lemma EachOfConcat<A, B>(f: A -> B, a: seq<A>, b: seq<A>)
    ensures Each(f, a + b) == Each(f, a) + Each(f, b)
  {
  }

  /** Sequences one after the other. */
  function Flat<T>(parts: seq<seq<T>>): seq<T> {
    if parts == [] then [] else Flat(parts[..|parts| - 1]) + parts[|parts| - 1]
  }

  lemma FlatAdds<T>(parts: seq<seq<T>>, part: seq<T>)
    ensures Flat(parts + [part]) == Flat(parts) + part
  {
    assert (parts + [part])[..|parts|] == parts;
  }

  lemma {:induction false} FlatSplits<T>(a: seq<seq<T>>, b: seq<seq<T>>)
    ensures Flat(a + b) == Flat(a) + Flat(b)
  {
    if b == [] {
      assert a + b == a;
    } else {
      var n := |b| - 1;
      FlatSplits(a, b[..n]);
      FlatAdds(a + b[..n], b[n]);
      assert a + b == a + b[..n] + [b[n]];
      Associates(Flat(a), Flat(b[..n]), b[n]);
    }
  }

  lemma TailOfConcat<T>(a: seq<T>, b: seq<T>)
    ensures (a + b)[|a|..|a| + |b|] == b
  {
  }

  lemma SliceOfTail<T>(log: seq<T>, from: nat, to: nat)
    requires from <= to <= |log|
    ensures log[from..][..to - from] == log[from..to]
    ensures log[from..][to - from..] == log[to..]
  {
  }
}
