/** Optional values, fallible results and element-wise maps, shared by every module. */
module Wrappers {
  datatype Option<+T> = None | Some(value: T)

  datatype Result<+T, +E> = Ok(value: T) | Err(error: E)

  /** Applies `f` to every element. */
  function Map<A, B>(f: A -> B, s: seq<A>): (r: seq<B>)
    ensures |r| == |s|
    ensures forall i :: 0 <= i < |s| ==> r[i] == f(s[i])
  {
    seq(|s|, i requires 0 <= i < |s| => f(s[i]))
  }

  lemma MapCons<A, B>(f: A -> B, x: A, s: seq<A>)
    ensures Map(f, [x] + s) == [f(x)] + Map(f, s)
  {
  }

  lemma MapConcat<A, B>(f: A -> B, a: seq<A>, b: seq<A>)
    ensures Map(f, a + b) == Map(f, a) + Map(f, b)
  {
  }

  /** Taking one occurrence of the first element out of a permutation. */
  lemma RemoveOne<T>(a: seq<T>, b: seq<T>, j: nat)
    requires a != [] && j < |b| && b[j] == a[0] && multiset(a) == multiset(b)
    ensures multiset(a[1..]) == multiset(b[..j] + b[j + 1..])
  {
    assert a == [a[0]] + a[1..];
    assert b == b[..j] + [a[0]] + b[j + 1..];
    var x := multiset{a[0]};
    assert multiset(a[1..]) == multiset(a) - x;
    assert multiset(b) == multiset(b[..j]) + x + multiset(b[j + 1..]);
  }

  lemma MapAt<A, B>(f: A -> B, s: seq<A>, j: nat)
    requires j < |s|
    ensures multiset(Map(f, s)) == multiset{f(s[j])} + multiset(Map(f, s[..j] + s[j + 1..]))
  {
    var pre, post := s[..j], s[j + 1..];
    assert s == pre + ([s[j]] + post);
    MapConcat(f, pre, [s[j]] + post);
    MapCons(f, s[j], post);
    MapConcat(f, pre, post);
  }

  lemma SameSize<T>(a: seq<T>, b: seq<T>)
    requires multiset(a) == multiset(b)
    ensures |a| == |b|
  {
    assert |multiset(a)| == |a| && |multiset(b)| == |b|;
  }

  lemma MapSwapped<A, B>(f: A -> B, a: seq<A>, b: seq<A>, j: nat)
    requires a != [] && j < |b| && a[0] == b[j]
    requires multiset(Map(f, a[1..])) == multiset(Map(f, b[..j] + b[j + 1..]))
    ensures multiset(Map(f, a)) == multiset(Map(f, b))
  {
    MapAt(f, b, j);
    MapCons(f, a[0], a[1..]);
    assert a == [a[0]] + a[1..];
  }

  lemma Occurrence<T>(a: seq<T>, b: seq<T>) returns (j: nat)
    requires a != [] && multiset(a) == multiset(b)
    ensures j < |b| && b[j] == a[0]
  {
    assert a[0] in multiset(a);
    j :| j < |b| && b[j] == a[0];
  }

  /** Mapping keeps a permutation one. */
  lemma {:induction false} MapPermuted<A, B>(f: A -> B, a: seq<A>, b: seq<A>)
    requires multiset(a) == multiset(b)
    ensures multiset(Map(f, a)) == multiset(Map(f, b))
    decreases |a|
  {
    SameSize(a, b);
    if a == [] {
      assert b == [];
    } else {
      var j := Occurrence(a, b);
      RemoveOne(a, b, j);
      MapPermuted(f, a[1..], b[..j] + b[j + 1..]);
      MapSwapped(f, a, b, j);
    }
  }

  /** A prefix grows by the next element. */
  lemma TakeNext<T>(s: seq<T>, i: nat)
    requires i < |s|
    ensures s[..i + 1] == s[..i] + [s[i]]
  {
  }
}
