/** Types and sequence facts shared by every component of the controller model. */
module Core {

  datatype Option<+T> = None | Some(value: T)

  datatype Result<+T, +E> = Ok(value: T) | Err(error: E)

  type NodeId = string

  /** A point in time or a span, in nanoseconds. */
  type Time = int

  const NANOS_PER_SECOND := 1_000_000_000
  const NANOS_PER_MILLI := 1_000_000

  /** One more than the largest `u64`; `u64` sums wrap modulo this value. */
  const U64: int := 0x1_0000_0000_0000_0000

  ghost predicate NoDup<T(!new)>(s: seq<T>) {
    forall i, j :: 0 <= i < j < |s| ==> s[i] != s[j]
  }

  ghost function Elems<T(!new)>(s: seq<T>): set<T> {
    set x | x in s
  }

  lemma ElemsAppend<T(!new)>(a: seq<T>, b: seq<T>)
    ensures Elems(a + b) == Elems(a) + Elems(b)
  {
  }

  /** Push `x` unless it is already there. */
  function AddNew<T(==)>(s: seq<T>, x: T): seq<T> {
    if x in s then s else s + [x]
  }

  function AddAllNew<T(==)>(s: seq<T>, xs: seq<T>): seq<T>
    decreases |xs|
  {
    if xs == [] then s else AddAllNew(AddNew(s, xs[0]), xs[1..])
  }

  lemma {:induction false} AddAllNewElems<T(!new)>(s: seq<T>, xs: seq<T>)
    ensures Elems(AddAllNew(s, xs)) == Elems(s) + Elems(xs)
    ensures NoDup(s) ==> NoDup(AddAllNew(s, xs))
    ensures s <= AddAllNew(s, xs)
    decreases |xs|
  {
    if xs != [] {
      AddAllNewElems(AddNew(s, xs[0]), xs[1..]);
      assert xs == [xs[0]] + xs[1..];
      assert Elems(xs) == {xs[0]} + Elems(xs[1..]);
      assert Elems(AddNew(s, xs[0])) == Elems(s) + {xs[0]};
    }
  }

  lemma AddAllNewSnoc<T>(s: seq<T>, xs: seq<T>, x: T)
    ensures AddAllNew(s, xs + [x]) == AddNew(AddAllNew(s, xs), x)
    decreases |xs|
  {
    if xs == [] {
      assert xs + [x] == [x];
      assert [x][1..] == [];
    } else {
      assert (xs + [x])[1..] == xs[1..] + [x];
      AddAllNewSnoc(AddNew(s, xs[0]), xs[1..], x);
    }
  }

  /** A duplicate-free sequence has as many elements as its set of elements. */
  lemma {:induction false} NoDupSize<T(!new)>(s: seq<T>)
    requires NoDup(s)
    ensures |Elems(s)| == |s|
    decreases |s|
  {
    if s != [] {
      var n := |s| - 1;
      NoDupSize(s[..n]);
      assert s == s[..n] + [s[n]];
      assert s[n] !in s[..n];
      assert Elems(s) == Elems(s[..n]) + {s[n]};
    }
  }

  lemma SubsetSize<T>(a: set<T>, b: set<T>)
    requires a <= b
    ensures |a| <= |b|
  {
    assert b == a + (b - a);
    assert a !! (b - a);
  }

  /** Pigeonhole: a duplicate-free sequence drawn from a finite set is no longer than the set. */
  lemma Pigeonhole<T(!new)>(s: seq<T>, dom: set<T>)
    requires NoDup(s)
    requires forall x :: x in s ==> x in dom
    ensures |s| <= |dom|
  {
    NoDupSize(s);
    SubsetSize(Elems(s), dom);
  }
}
