/** Queues without duplicates and the order of what stays on them. */
module Fifo {
  function Without(q: seq<nat>, k: nat): seq<nat>
    requires k < |q|
  {
    q[..k] + q[k + 1..]
  }

  function IndexOf(q: seq<nat>, x: nat, i: nat): (k: int)
    requires i <= |q|
    ensures k >= 0 ==> i <= k < |q| && q[k] == x
    ensures k < 0 ==> k == -1 && forall j: nat :: i <= j < |q| ==> q[j] != x
    decreases |q| - i
  {
    if i == |q| then -1 else if q[i] == x then i else IndexOf(q, x, i + 1)
  }

  ghost predicate Distinct(q: seq<nat>) { forall i: nat, j: nat :: i < j < |q| ==> q[i] != q[j] }

  lemma WithoutOne(q: seq<nat>, k: nat)
    requires k < |q| && Distinct(q)
    ensures Distinct(Without(q, k))
    ensures forall x :: x in Without(q, k) <==> x in q && x != q[k]
  {
    var w := Without(q, k);
    forall x | x in q && x != q[k] ensures x in w {
      var i: nat :| i < |q| && q[i] == x;
      assert w[if i < k then i else i - 1] == x;
    }
  }

  ghost predicate Before(q: seq<nat>, x: nat, y: nat) {
    exists i: nat, j: nat :: i < j < |q| && q[i] == x && q[j] == y
  }

  /** Some of q has left and newcomers have joined behind the rest. */
  ghost predicate InOrder(q: seq<nat>, q': seq<nat>) {
    forall x: nat, y: nat :: y in q && Before(q', x, y) ==> Before(q, x, y)
  }

  lemma WithoutInOrder(q: seq<nat>, k: nat)
    requires k < |q|
    ensures InOrder(q, Without(q, k))
  {
    var w := Without(q, k);
    forall x: nat, y: nat | Before(w, x, y) ensures Before(q, x, y) {
      var i: nat, j: nat :| i < j < |w| && w[i] == x && w[j] == y;
      var i', j' := if i < k then i else i + 1, if j < k then j else j + 1;
      assert q[i'] == x && q[j'] == y;
    }
  }

  lemma AppendInOrder(q: seq<nat>, c: nat)
    requires c !in q
    ensures InOrder(q, q + [c])
  {
    var w := q + [c];
    forall x: nat, y: nat | y in q && Before(w, x, y) ensures Before(q, x, y) {
      var i: nat, j: nat :| i < j < |w| && w[i] == x && w[j] == y;
      assert q[i] == x && q[j] == y;
    }
  }

  lemma SelfInOrder(q: seq<nat>)
    ensures InOrder(q, q)
  {
  }

  lemma BeforeWithout(q: seq<nat>, k: nat, x: nat, y: nat)
    requires k < |q| && q[k] != x && q[k] != y && Before(q, x, y)
    ensures Before(Without(q, k), x, y)
  {
    var w := Without(q, k);
    var i: nat, j: nat :| i < j < |q| && q[i] == x && q[j] == y;
    assert w[if i < k then i else i - 1] == x && w[if j < k then j else j - 1] == y;
  }
}
