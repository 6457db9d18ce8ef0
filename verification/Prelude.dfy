/** Shared vocabulary: optional values, results, and a few facts about sequences. */
module Prelude {

  datatype Option<+T> = None | Some(value: T)

  datatype Result<+T, +E> = Success(value: T) | Failure(error: E)

  ghost predicate Distinct<T>(xs: seq<T>) {
    forall i, j :: 0 <= i < j < |xs| ==> xs[i] != xs[j]
  }

  function Max(x: int, y: int): int {
    if x < y then y else x
  }

  /** `kept` are the elements of `xs` at these positions, in the order of `xs`. */
  ghost predicate Selects<T>(xs: seq<T>, positions: seq<nat>, kept: seq<T>) {
    && |positions| == |kept|
    && (forall k :: 0 <= k < |kept| ==> positions[k] < |xs| && kept[k] == xs[positions[k]])
    && (forall k, m :: 0 <= k < m < |kept| ==> positions[k] < positions[m])
  }

  /** One element more in front, which is kept or not; the other positions move by one. */
  lemma SelectsCons<T>(xs: seq<T>, positions: seq<nat>, kept: seq<T>, keep: bool) returns (moved: seq<nat>)
    requires xs != [] && Selects(xs[1..], positions, kept)
    ensures Selects(xs, moved, (if keep then [xs[0]] else []) + kept)
    ensures forall i: nat :: i < |xs| ==> (i in moved <==> if i == 0 then keep else i - 1 in positions)
  {
    var later := seq(|positions|, k requires 0 <= k < |positions| => positions[k] + 1);
    moved := (if keep then [0] else []) + later;
    forall i: nat | 0 < i < |xs| ensures i in later <==> i - 1 in positions {
      if i - 1 in positions {
        var k :| 0 <= k < |positions| && positions[k] == i - 1;
        assert later[k] == i;
      }
    }
  }

  lemma Member<T>(s: set<T>) returns (x: T)
    requires s != {}
    ensures x in s
  {
    x :| x in s;
  }

  /** Two sequences that list the same set without repetition have the same length. */
  lemma {:induction false} DistinctSameSetSameLength<T>(xs: seq<T>, s: set<T>)
    requires Distinct(xs)
    requires forall x :: x in xs <==> x in s
    ensures |xs| == |s|
  {
    if xs == [] {
      assert s == {};
    } else {
      var x := xs[0];
      assert x in xs && x in s;
      forall y ensures y in xs[1..] <==> y in s - {x} {
        if y in xs[1..] {
          var k :| 0 <= k < |xs| - 1 && xs[1..][k] == y;
          assert xs[k + 1] == y && xs[0] != xs[k + 1];
        }
        if y in s - {x} {
          assert y in xs;
          var k :| 0 <= k < |xs| && xs[k] == y;
          assert xs[1..][k - 1] == y;
        }
      }
      DistinctSameSetSameLength(xs[1..], s - {x});
    }
  }

  /** A set and its image under a map that identifies no two members have the same size. */
  lemma {:induction false} ImageSize<A, B>(xs: set<A>, ys: set<B>, f: map<A, B>)
    requires forall x :: x in xs ==> x in f && f[x] in ys
    requires forall x, x' :: x in xs && x' in xs && f[x] == f[x'] ==> x == x'
    requires forall y :: y in ys ==> exists x :: x in xs && f[x] == y
    ensures |xs| == |ys|
    decreases |xs|
  {
    if xs == {} {
      assert ys == {};
    } else {
      var x := Member(xs);
      forall y | y in ys - {f[x]} ensures exists x' :: x' in xs - {x} && f[x'] == y {
        var x' :| x' in xs && f[x'] == y;
        assert x' in xs - {x};
      }
      ImageSize(xs - {x}, ys - {f[x]}, f);
    }
  }
}
