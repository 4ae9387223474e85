/** The split of rows or heads over the workers of the pool. */
module Partition {
  import opened Machine

  /** `(worker * units) / workers`: the first row (or head) of a worker. */
  function Boundary(units: nat, workers: nat, worker: nat): nat
    requires workers > 0
  {
    (worker * units) / workers
  }

  lemma BoundaryEnds(units: nat, workers: nat)
    requires workers > 0
    ensures Boundary(units, workers, 0) == 0 && Boundary(units, workers, workers) == units
  {
    MulDiv(units, workers);
  }

  lemma MulDiv(a: nat, b: nat)
    requires b > 0
    ensures (b * a) / b == a
  {
    DivModUnique(b * a, a, 0, b);
  }

  lemma {:induction false} BoundaryMonotone(units: nat, workers: nat, v: nat, w: nat)
    requires workers > 0 && v <= w
    ensures Boundary(units, workers, v) <= Boundary(units, workers, w)
    decreases w - v
  {
    if v < w {
      BoundaryMonotone(units, workers, v, w - 1);
      assert w * units == (w - 1) * units + units;
      DivMonotone((w - 1) * units, w * units, workers);
    }
  }

  lemma DivMonotone(x: nat, y: nat, d: nat)
    requires d > 0 && x <= y
    ensures x / d <= y / d
  {
    var p, q := x / d, y / d;
    assert x == p * d + x % d && y == q * d + y % d;
    if q < p {
      var k := p - q;
      assert p * d == q * d + k * d;
      NonzeroMultiple(k, d);
      assert false;
    }
  }

  ghost predicate Owns(units: nat, workers: nat, worker: nat, r: nat)
    requires workers > 0
  {
    worker < workers && Boundary(units, workers, worker) <= r < Boundary(units, workers, worker + 1)
  }

  /** The worker ranges cover every row exactly once, for any number of rows and workers. */
  lemma UniqueOwner(units: nat, workers: nat, r: nat)
    requires workers > 0 && r < units
    ensures exists w: nat :: Owns(units, workers, w, r)
    ensures forall v: nat, w: nat :: Owns(units, workers, v, r) && Owns(units, workers, w, r) ==> v == w
  {
    BoundaryEnds(units, workers);
    var w := FindOwner(units, workers, r, workers);
    forall v: nat, w: nat | Owns(units, workers, v, r) && Owns(units, workers, w, r)
      ensures v == w
    {
      if v < w {
        BoundaryMonotone(units, workers, v + 1, w);
      } else if w < v {
        BoundaryMonotone(units, workers, w + 1, v);
      }
    }
  }

  lemma {:induction false} FindOwner(units: nat, workers: nat, r: nat, top: nat) returns (w: nat)
    requires workers > 0 && top <= workers && r < Boundary(units, workers, top)
    ensures Owns(units, workers, w, r)
    decreases top
  {
    BoundaryEnds(units, workers);
    if Boundary(units, workers, top - 1) <= r {
      w := top - 1;
    } else {
      w := FindOwner(units, workers, r, top - 1);
    }
  }

  /** No worker reaches past the last row, so the clamp in the worker loop never acts. */
  lemma RangeWithin(units: nat, workers: nat, worker: nat)
    requires workers > 0 && worker < workers
    ensures Boundary(units, workers, worker) <= Boundary(units, workers, worker + 1) <= units
  {
    BoundaryMonotone(units, workers, worker, worker + 1);
    BoundaryMonotone(units, workers, worker + 1, workers);
    BoundaryEnds(units, workers);
  }

  // ----- workers in any order -----

  ghost predicate IsSchedule(order: seq<nat>, n: nat) {
    (forall w: nat :: w < n ==> w in order) && (forall w :: w in order ==> w < n)
  }

  /** Some order in which all workers get to run. Callers know no more about it than that. */
  method Schedule(n: nat) returns (order: seq<nat>)
    ensures IsSchedule(order, n)
  {
    order := seq(n, i requires 0 <= i < n => i);
    forall w: nat | w < n
      ensures w in order
    {
      assert order[w] == w;
    }
  }

  /** Units owned by the workers that have run, in whatever order they do. */
  ghost predicate Covered(units: nat, n: nat, order: seq<nat>, h: nat)
    requires n > 0
  {
    exists i :: 0 <= i < |order| && Owns(units, n, order[i], h)
  }

  lemma AllCovered(units: nat, n: nat, order: seq<nat>, h: nat)
    requires n > 0 && h < units && IsSchedule(order, n)
    ensures Covered(units, n, order, h)
  {
    UniqueOwner(units, n, h);
    var w: nat :| Owns(units, n, w, h);
    assert w in order;
    var i :| 0 <= i < |order| && order[i] == w;
  }
}
