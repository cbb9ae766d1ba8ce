/** The vector-clock algebra: a fixed-length vector of event counters, one per
    node, with the local-event rule (Increment) and the receive rule (Merge). */
module Clocks {

  /** A vector timestamp: entry i counts the events of node i this clock knows of. */
  type Clock = seq<nat>

  function Max(a: nat, b: nat): nat
  {
    if a >= b then a else b
  }

  /** `a` happened no later than `b`, entry by entry. */
  predicate Leq(a: Clock, b: Clock)
  {
    |a| == |b| && forall i :: 0 <= i < |a| ==> a[i] <= b[i]
  }

  /** Causal precedence: `a` is dominated by `b` and differs from it. */
  predicate Precedes(a: Clock, b: Clock)
  {
    Leq(a, b) && a != b
  }

  /** Two distinct clocks of equal length, neither of which precedes the other. */
  predicate Concurrent(a: Clock, b: Clock)
  {
    |a| == |b| && !Leq(a, b) && !Leq(b, a)
  }

  /** A freshly constructed clock for a system of `size` nodes. */
  function New(size: nat): (c: Clock)
    ensures |c| == size
    ensures forall i :: 0 <= i < size ==> c[i] == 0
    ensures forall d: Clock :: |d| == size ==> Leq(c, d)
  {
    seq(size, _ => 0)
  }

  /** A local event at node `k`. */
  function Increment(c: Clock, k: int): (r: Clock)
    requires 0 <= k < |c|
    ensures |r| == |c|
    ensures r[k] == c[k] + 1
    ensures forall i :: 0 <= i < |c| && i != k ==> r[i] == c[i]
    ensures Precedes(c, r)
  {
    c[k := c[k] + 1]
  }

  /** The receive rule, applied by node `self` to a message carrying `other`:
      the receiver's own entry advances by one, whatever `other` says about it,
      and every other entry becomes the larger of the two. When `self` is not an
      index of the clock, no entry is advanced. */
  function Merge(c: Clock, other: Clock, self: int): (r: Clock)
    requires |other| >= |c|
    ensures |r| == |c|
    ensures 0 <= self < |c| ==> r[self] == c[self] + 1
    ensures forall i :: 0 <= i < |c| && i != self ==> r[i] == Max(c[i], other[i])
    ensures Leq(c, r)
    ensures 0 <= self < |c| ==> Precedes(c, r)
    ensures forall i :: 0 <= i < |c| && i != self ==> other[i] <= r[i]
  {
    seq(|c|, i requires 0 <= i < |c| => if i == self then c[i] + 1 else Max(other[i], c[i]))
  }

  /** The receive loop as the class runs it, one index at a time, in place. */
  method MergeInPlace(c: Clock, other: Clock, self: int) returns (r: Clock)
    requires |other| >= |c|
    ensures r == Merge(c, other, self)
  {
    r := c;
    var i := 0;
    while i < |r|
      invariant 0 <= i <= |r| == |c|
      invariant forall j :: 0 <= j < i ==> r[j] == Merge(c, other, self)[j]
      invariant forall j :: i <= j < |r| ==> r[j] == c[j]
    {
      if i == self {
        r := Increment(r, self);
      } else {
        r := r[i := Max(other[i], r[i])];
      }
      i := i + 1;
    }
  }

  /** Merge yields the least clock that advances `self` and absorbs every
      other entry of both inputs. */
  lemma MergeIsLeast(c: Clock, other: Clock, self: int, d: Clock)
    requires |other| >= |c| && 0 <= self < |c|
    requires Leq(c, d) && d[self] > c[self]
    requires forall i :: 0 <= i < |c| && i != self ==> other[i] <= d[i]
    ensures Leq(Merge(c, other, self), d)
  {
  }

  /** A message that carries nothing the receiver does not already know makes
      the receive an ordinary local event. */
  lemma MergeOfKnownIsIncrement(c: Clock, other: Clock, self: int)
    requires |other| >= |c| && 0 <= self < |c|
    requires forall i :: 0 <= i < |c| && i != self ==> other[i] <= c[i]
    ensures Merge(c, other, self) == Increment(c, self)
  {
    var m, n := Merge(c, other, self), Increment(c, self);
    assert forall i :: 0 <= i < |c| ==> m[i] == n[i];
  }

  /** Local events at different nodes commute. */
  lemma IncrementsCommute(c: Clock, a: int, b: int)
    requires 0 <= a < |c| && 0 <= b < |c|
    ensures Increment(Increment(c, a), b) == Increment(Increment(c, b), a)
  {
  }

  /** Dominance both ways means equality. */
  lemma LeqAntisymmetric(a: Clock, b: Clock)
    requires Leq(a, b) && Leq(b, a)
    ensures a == b
  {
    assert forall i :: 0 <= i < |a| ==> a[i] == b[i];
  }

  /** Precedence is a strict partial order on clocks. */
  lemma PrecedesIsStrictOrder(a: Clock, b: Clock, d: Clock)
    ensures !Precedes(a, a)
    ensures Precedes(a, b) ==> !Precedes(b, a)
    ensures Precedes(a, b) && Precedes(b, d) ==> Precedes(a, d)
  {
    if Leq(a, b) && Leq(b, a) {
      LeqAntisymmetric(a, b);
    }
    if Leq(a, b) && Leq(b, d) && Leq(d, a) {
      LeqAntisymmetric(a, b);
    }
  }

  /** The clocks of a three-node run (A = 0, B = 1, C = 2): A works, A sends
      to B, C works, B sends to C. C's own work survives the merge, so C ends
      at [2,2,2]. */
  lemma ThreeNodeScenario()
    ensures Increment([0, 0, 0], 0) == [1, 0, 0]
    ensures Increment([1, 0, 0], 0) == [2, 0, 0]
    ensures Merge([0, 0, 0], [2, 0, 0], 1) == [2, 1, 0]
    ensures Increment([0, 0, 0], 2) == [0, 0, 1]
    ensures Increment([2, 1, 0], 1) == [2, 2, 0]
    ensures Merge([0, 0, 1], [2, 2, 0], 2) == [2, 2, 2]
  {
    assert Merge([0, 0, 0], [2, 0, 0], 1)[0] == 2;
    assert Merge([0, 0, 1], [2, 2, 0], 2)[1] == 2;
  }
}
