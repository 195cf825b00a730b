/** Small shared vocabulary: options, opaque identifiers, sequences read as sets, and filters. */
module Prelude {
  datatype Option<+T> = None | Some(value: T)

  /** A uuid is opaque to everything modelled here: only equality matters. */
  datatype UUID = UUID(bits: int)

  const NIL_UUID := UUID(0)

  ghost predicate NoDup<T>(s: seq<T>) {
    forall i, j :: 0 <= i < j < |s| ==> s[i] != s[j]
  }

  function ToSet<T(!new)>(s: seq<T>): (r: set<T>)
    ensures forall x :: x in r <==> x in s
  {
    set x | x in s
  }

  lemma {:induction false} SizeWithoutDuplicates<T(!new)>(s: seq<T>)
    requires NoDup(s)
    ensures |ToSet(s)| == |s|
  {
    if s != [] {
      var init, last := s[..|s| - 1], s[|s| - 1];
      SizeWithoutDuplicates(init);
      assert ToSet(s) == ToSet(init) + {last};
      assert last !in init;
    }
  }

  lemma SubsetOfEqualSize<T>(a: set<T>, b: set<T>)
    requires b <= a && |a| == |b|
    ensures a == b
  {
    assert a == b + (a - b);
    assert |a| == |b| + |a - b|;
  }

  /** Each value once, in order of first occurrence. */
  function Firsts<T(==)>(s: seq<T>): seq<T> {
    if s == [] then []
    else
      var rest := Firsts(s[..|s| - 1]);
      if s[|s| - 1] in rest then rest else rest + [s[|s| - 1]]
  }

  lemma {:induction false} FirstsKeepEachOnce<T>(s: seq<T>)
    ensures NoDup(Firsts(s)) && forall x :: x in Firsts(s) <==> x in s
  {
    if s != [] {
      FirstsKeepEachOnce(s[..|s| - 1]);
      assert s == s[..|s| - 1] + [s[|s| - 1]];
    }
  }

  function Filter<T>(p: T -> bool, s: seq<T>): seq<T> {
    if s == [] then []
    else
      var rest, last := Filter(p, s[..|s| - 1]), s[|s| - 1];
      if p(last) then rest + [last] else rest
  }

  lemma FilterOneMore<T>(p: T -> bool, s: seq<T>, x: T)
    ensures Filter(p, s + [x]) == if p(x) then Filter(p, s) + [x] else Filter(p, s)
  {
    assert (s + [x])[..|s|] == s;
  }

  lemma {:induction false} FilterMembers<T>(p: T -> bool, s: seq<T>)
    ensures forall x :: x in s && p(x) ==> x in Filter(p, s)
    ensures forall k :: 0 <= k < |Filter(p, s)| ==> Filter(p, s)[k] in s && p(Filter(p, s)[k])
  {
    if s != [] {
      FilterMembers(p, s[..|s| - 1]);
      assert s == s[..|s| - 1] + [s[|s| - 1]];
    }
  }

  lemma {:induction false} FilterOfFilter<T>(p: T -> bool, q: T -> bool, s: seq<T>)
    requires forall x :: x in s && p(x) ==> q(x)
    ensures Filter(p, Filter(q, s)) == Filter(p, s)
  {
    if s != [] {
      var init, last := s[..|s| - 1], s[|s| - 1];
      FilterOfFilter(p, q, init);
      FilterOneMore(p, Filter(q, init), last);
    }
  }

  lemma {:induction false} FilterOfPrefix<T>(p: T -> bool, s: seq<T>, n: nat)
    requires n <= |s|
    ensures Filter(p, s[..n]) <= Filter(p, s)
    decreases |s| - n
  {
    if n < |s| {
      FilterOfPrefix(p, s, n + 1);
      assert s[..n + 1][..n] == s[..n];
    } else {
      assert s[..n] == s;
    }
  }
}
