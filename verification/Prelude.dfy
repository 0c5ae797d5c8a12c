/** Vocabulary shared by every component: optional values, player names, instants
    and the "find it, cut it out" operation on slices. */
module Prelude {

  datatype Option<+T> = None | Some(value: T)

  type PlayerId = string

  /** Nanoseconds since Go's zero time; 0 is the zero time itself. */
  type Time = nat

  const SECOND: nat := 1_000_000_000

  ghost predicate NoDuplicates<T>(s: seq<T>) {
    forall i, j :: 0 <= i < j < |s| ==> s[i] != s[j]
  }

  /** Position of the first `x`, or `|s|` when there is none. */
  function IndexOf<T(==)>(s: seq<T>, x: T): (i: nat)
    ensures i <= |s|
    ensures i < |s| ==> s[i] == x
    ensures x !in s[..i]
    ensures x in s <==> i < |s|
  {
    if s == [] then 0
    else if s[0] == x then 0
    else
      var k := IndexOf(s[1..], x);
      assert s[..k + 1] == [s[0]] + s[1..][..k];
      assert s == [s[0]] + s[1..];
      k + 1
  }

  function RemoveAt<T>(s: seq<T>, i: nat): (r: seq<T>)
    requires i < |s|
    ensures |r| == |s| - 1
    ensures forall j :: 0 <= j < |r| ==> r[j] == s[if j < i then j else j + 1]
    ensures multiset(r) == multiset(s) - multiset{s[i]}
  {
    assert s == s[..i] + [s[i]] + s[i + 1..];
    s[..i] + s[i + 1..]
  }

  /** The slice without its first `x`; unchanged when `x` does not occur. */
  function RemoveFirst<T(==)>(s: seq<T>, x: T): (r: seq<T>)
    ensures x !in s ==> r == s
    ensures multiset(r) == multiset(s) - multiset{x}
  {
    var i := IndexOf(s, x);
    if i < |s| then RemoveAt(s, i) else s
  }

  /** The sequence without its last `x`. */
  ghost function RemoveLast<T>(s: seq<T>, x: T): seq<T> {
    if s == [] then []
    else if s[|s| - 1] == x then s[..|s| - 1]
    else RemoveLast(s[..|s| - 1], x) + [s[|s| - 1]]
  }

  lemma RemoveLastOfSnoc<T>(s: seq<T>, y: T, x: T)
    ensures RemoveLast(s + [y], x) == if y == x then s else RemoveLast(s, x) + [y]
  {
  }

  lemma FirstIs<T>(s: seq<T>, x: T, i: nat)
    requires i < |s| && s[i] == x && x !in s[..i]
    ensures IndexOf(s, x) == i
  {
  }

  lemma {:induction false} RemoveFirstOfSnoc<T>(s: seq<T>, y: T, x: T)
    requires x in s || y == x
    ensures RemoveFirst(s + [y], x) == if x in s then RemoveFirst(s, x) + [y] else s
  {
    var i := IndexOf(s, x);
    var t := s + [y];
    assert t[..i] == s[..i];
    FirstIs(t, x, i);
  }

  lemma LastIsNew<T>(s: seq<T>, y: T)
    requires NoDuplicates(s + [y])
    ensures NoDuplicates(s) && y !in s
  {
    var t := s + [y];
    assert t[|s|] == y;
    assert forall i :: 0 <= i < |s| ==> t[i] == s[i];
  }

  lemma Regroup<T>(a: seq<T>, b: seq<T>, y: T)
    ensures a + (b + [y]) == a + b + [y]
  {
  }

  /** Where a suffix has no duplicates, its first `x` is the last `x` of the whole. */
  lemma {:induction false} RemoveLastInSuffix<T>(a: seq<T>, b: seq<T>, x: T)
    requires x in b && NoDuplicates(b)
    ensures RemoveLast(a + b, x) == a + RemoveFirst(b, x)
    decreases |b|
  {
    var init, y := b[..|b| - 1], b[|b| - 1];
    assert b == init + [y];
    LastIsNew(init, y);
    Regroup(a, init, y);
    RemoveLastOfSnoc(a + init, y, x);
    RemoveFirstOfSnoc(init, y, x);
    if y != x {
      RemoveLastInSuffix(a, init, x);
      Regroup(a, RemoveFirst(init, x), y);
    }
  }

  lemma DistinctAfterRemoval<T>(b: seq<T>, x: T)
    requires NoDuplicates(b)
    ensures NoDuplicates(RemoveFirst(b, x)) && |RemoveFirst(b, x)| <= |b|
  {
  }

  lemma DistinctSnoc<T>(s: seq<T>, x: T, n: nat)
    requires NoDuplicates(s) && x !in s && n <= |s| + 1
    ensures NoDuplicates((s + [x])[..n]) && NoDuplicates((s + [x])[n..])
  {
  }

  /** The in-place search used by the queue and by the seat list: stop at the first hit. */
  method Find<T(==)>(s: seq<T>, x: T) returns (i: nat)
    ensures i == IndexOf(s, x)
  {
    i := 0;
    while i < |s| && s[i] != x
      invariant i <= |s| && x !in s[..i]
    {
      i := i + 1;
    }
  }
}
