/**
 Queues as the kernel keeps them: a head points at the first process of a queue (p_caller_q,
 run_q_head) and a link in each process at the next one (p_q_link, p_nextready); -1 is the
 null pointer.
 */
module QueueLinks {
  import opened Fifo

  /** A pointer to a pointer: the head of a queue or the link of a process. */
  datatype Cell = Head(d: nat) | Link(p: nat)

  function At(q: seq<nat>, k: nat): int { if k < |q| then q[k] else -1 }

  /** The pointer that leads to the k-th process on d's queue q. */
  function CellAt(q: seq<nat>, d: nat, k: nat): Cell
    requires k <= |q|
  {
    if k == 0 then Head(d) else Link(q[k - 1])
  }

  ghost predicate OnQueue(qs: seq<seq<nat>>, p: nat) { exists d: nat :: d < |qs| && p in qs[d] }

  ghost predicate QueueLinked(head: int, next: seq<int>, q: seq<nat>) {
    && head == At(q, 0)
    && (forall k: nat :: k < |q| ==> q[k] < |next|)
    && forall k: nat {:trigger next[q[k]]} :: k < |q| ==> next[q[k]] == At(q, k + 1)
  }

  /** No process is on two queues or twice on one. */
  ghost predicate Apart(qs: seq<seq<nat>>) {
    forall d: nat, e: nat, i: nat, j: nat ::
      d < |qs| && e < |qs| && i < |qs[d]| && j < |qs[e]| && qs[d][i] == qs[e][j] ==> d == e && i == j
  }

  ghost predicate Linked(heads: seq<int>, next: seq<int>, qs: seq<seq<nat>>) {
    && |heads| == |qs|
    && (forall d: nat :: d < |qs| ==> QueueLinked(heads[d], next, qs[d]))
    && Apart(qs)
    && forall p: nat :: p < |next| ==> -1 <= next[p] < |next|
  }

  /** Which processes have a link left over from a queue they are no longer on. */
  ghost function Stales(next: seq<int>, qs: seq<seq<nat>>): (r: seq<bool>)
    ensures |r| == |next| && forall p: nat :: p < |next| ==> (r[p] <==> next[p] != -1 && !OnQueue(qs, p))
  {
    seq(|next|, p requires 0 <= p < |next| => next[p] != -1 && !OnQueue(qs, p))
  }

  // ---- A process joins at the end ----

  lemma OnQueueAppend(qs: seq<seq<nat>>, d: nat, c: nat, p: nat)
    requires d < |qs|
    ensures OnQueue(qs[d := qs[d] + [c]], p) <==> OnQueue(qs, p) || p == c
  {
    var qs' := qs[d := qs[d] + [c]];
    if OnQueue(qs, p) {
      var e: nat :| e < |qs| && p in qs[e];
      assert p in qs'[e];
    }
    if p == c { assert qs'[d][|qs[d]|] == c; }
    if OnQueue(qs', p) {
      var e: nat :| e < |qs'| && p in qs'[e];
      assert p != c ==> p in qs[e];
    }
  }

  lemma ApartAppend(qs: seq<seq<nat>>, d: nat, c: nat)
    requires Apart(qs) && d < |qs| && !OnQueue(qs, c)
    ensures Apart(qs[d := qs[d] + [c]])
  {
    var qs' := qs[d := qs[d] + [c]];
    forall e: nat, f: nat, i: nat, j: nat | e < |qs| && f < |qs| && i < |qs'[e]| && j < |qs'[f]|
        && qs'[e][i] == qs'[f][j]
      ensures e == f && i == j
    {
      assert i < |qs[e]| ==> qs[e][i] in qs[e];
      assert j < |qs[f]| ==> qs[f][j] in qs[f];
    }
  }

  lemma NotAgain(qs: seq<seq<nat>>, d: nat, k: nat, e: nat, i: nat)
    requires Apart(qs) && d < |qs| && k < |qs[d]| && e < |qs| && i < |qs[e]| && (e != d || i != k)
    ensures qs[e][i] != qs[d][k]
  {
  }

  /** The links after c has been stored in the last pointer of d's queue. */
  function JoinHeads(heads: seq<int>, qs: seq<seq<nat>>, d: nat, c: nat): seq<int>
    requires d < |qs| == |heads|
  {
    if qs[d] == [] then heads[d := c] else heads
  }

  ghost function JoinNext(heads: seq<int>, next: seq<int>, qs: seq<seq<nat>>, d: nat, c: nat): seq<int>
    requires Linked(heads, next, qs) && d < |qs|
  {
    assert QueueLinked(heads[d], next, qs[d]);
    if qs[d] == [] then next else next[qs[d][|qs[d]| - 1] := c]
  }

  lemma JoinQueue(heads: seq<int>, next: seq<int>, qs: seq<seq<nat>>, d: nat, c: nat, e: nat)
    requires Linked(heads, next, qs) && d < |qs| && c < |next| && next[c] == -1 && c !in qs[d] && e < |qs|
    ensures QueueLinked(JoinHeads(heads, qs, d, c)[e], JoinNext(heads, next, qs, d, c), qs[d := qs[d] + [c]][e])
  {
    var q := qs[d];
    var next' := JoinNext(heads, next, qs, d, c);
    var qs' := qs[d := q + [c]];
    assert QueueLinked(heads[e], next, qs[e]);
    assert QueueLinked(heads[d], next, q);
    hide QueueLinked;
    forall k: nat | k < |qs'[e]| ensures qs'[e][k] < |next'| && next'[qs'[e][k]] == At(qs'[e], k + 1) {
      if k < |qs[e]| {
        if q != [] && (e != d || k != |q| - 1) { NotAgain(qs, d, |q| - 1, e, k); }
      } else if q != [] {
        assert q[|q| - 1] in qs[d];
      }
    }
    IsLinked(JoinHeads(heads, qs, d, c)[e], next', qs'[e]);
  }

  lemma IsLinked(head: int, next: seq<int>, q: seq<nat>)
    requires head == At(q, 0) && (forall k: nat :: k < |q| ==> q[k] < |next|)
    requires forall k: nat {:trigger next[q[k]]} :: k < |q| ==> next[q[k]] == At(q, k + 1)
    ensures QueueLinked(head, next, q)
  {
  }

  lemma JoinStales(heads: seq<int>, next: seq<int>, qs: seq<seq<nat>>, d: nat, c: nat)
    requires Linked(heads, next, qs) && d < |qs| && c < |next| && next[c] == -1 && !OnQueue(qs, c)
    ensures Stales(JoinNext(heads, next, qs, d, c), qs[d := qs[d] + [c]]) == Stales(next, qs)
  {
    var q, next', qs' := qs[d], JoinNext(heads, next, qs, d, c), qs[d := qs[d] + [c]];
    hide Linked, OnQueue;
    forall p: nat | p < |next| ensures Stales(next', qs')[p] == Stales(next, qs)[p] {
      OnQueueAppend(qs, d, c, p);
      if q != [] && p == q[|q| - 1] { Queued(qs, d, |q| - 1); }
    }
  }

  lemma Queued(qs: seq<seq<nat>>, d: nat, k: nat)
    requires d < |qs| && k < |qs[d]|
    ensures OnQueue(qs, qs[d][k])
  {
    assert qs[d][k] in qs[d];
  }

  lemma JoinLinked(heads: seq<int>, next: seq<int>, qs: seq<seq<nat>>, d: nat, c: nat)
    requires Linked(heads, next, qs) && d < |qs| && c < |next| && next[c] == -1 && !OnQueue(qs, c)
    ensures Linked(JoinHeads(heads, qs, d, c), JoinNext(heads, next, qs, d, c), qs[d := qs[d] + [c]])
  {
    QueueRangeOk(heads, next, qs, d);
    hide QueueLinked, Apart;
    ApartAppend(qs, d, c);
    forall e: nat | e < |qs|
      ensures QueueLinked(JoinHeads(heads, qs, d, c)[e], JoinNext(heads, next, qs, d, c), qs[d := qs[d] + [c]][e])
    {
      JoinQueue(heads, next, qs, d, c, e);
    }
  }

  // ---- A process leaves ----

  lemma OnQueueWithout(qs: seq<seq<nat>>, d: nat, k: nat, p: nat)
    requires Apart(qs) && d < |qs| && k < |qs[d]|
    ensures OnQueue(qs[d := Without(qs[d], k)], p) <==> OnQueue(qs, p) && p != qs[d][k]
  {
    var w := Without(qs[d], k);
    var qs' := qs[d := w];
    if OnQueue(qs, p) && p != qs[d][k] {
      var e: nat :| e < |qs| && p in qs[e];
      var i: nat :| i < |qs[e]| && qs[e][i] == p;
      assert e == d ==> w[if i < k then i else i - 1] == p;
      assert p in qs'[e];
    }
    if OnQueue(qs', p) {
      var e: nat :| e < |qs'| && p in qs'[e];
      var i: nat :| i < |qs'[e]| && qs'[e][i] == p;
      var i' := if e == d && i >= k then i + 1 else i;
      assert qs[e][i'] == p;
      NotAgain(qs, d, k, e, i');
    }
  }

  lemma ApartWithout(qs: seq<seq<nat>>, d: nat, k: nat)
    requires Apart(qs) && d < |qs| && k < |qs[d]|
    ensures Apart(qs[d := Without(qs[d], k)])
  {
    var qs' := qs[d := Without(qs[d], k)];
    forall e: nat, f: nat, i: nat, j: nat | e < |qs| && f < |qs| && i < |qs'[e]| && j < |qs'[f]|
        && qs'[e][i] == qs'[f][j]
      ensures e == f && i == j
    {
      var i', j' := if e == d && i >= k then i + 1 else i, if f == d && j >= k then j + 1 else j;
      assert qs[e][i'] == qs[f][j'];
    }
  }

  lemma QueueRangeOk(heads: seq<int>, next: seq<int>, qs: seq<seq<nat>>, d: nat)
    requires Linked(heads, next, qs) && d < |qs|
    ensures forall i: nat :: i < |qs[d]| ==> qs[d][i] < |next|
    ensures forall i: nat {:trigger next[qs[d][i]]} :: i < |qs[d]| ==> next[qs[d][i]] == At(qs[d], i + 1)
    ensures heads[d] == At(qs[d], 0)
  {
    assert QueueLinked(heads[d], next, qs[d]);
  }

  /** The links after the pointer to the k-th process of d's queue has been set to the one
      behind it; own is what becomes of that process's own link. */
  function LeaveHeads(heads: seq<int>, qs: seq<seq<nat>>, d: nat, k: nat): seq<int>
    requires d < |qs| == |heads|
  {
    if k == 0 then heads[d := At(qs[d], 1)] else heads
  }

  ghost function LeaveNext(heads: seq<int>, next: seq<int>, qs: seq<seq<nat>>, d: nat, k: nat, own: int): seq<int>
    requires Linked(heads, next, qs) && d < |qs| && k < |qs[d]|
  {
    QueueRangeOk(heads, next, qs, d);
    (if k == 0 then next else next[qs[d][k - 1] := At(qs[d], k + 1)])[qs[d][k] := own]
  }

  lemma LeaveQueue(heads: seq<int>, next: seq<int>, qs: seq<seq<nat>>, d: nat, k: nat, own: int, e: nat)
    requires Linked(heads, next, qs) && d < |qs| && k < |qs[d]| && e < |qs|
    ensures QueueLinked(LeaveHeads(heads, qs, d, k)[e], LeaveNext(heads, next, qs, d, k, own),
            qs[d := Without(qs[d], k)][e])
  {
    var q, next' := qs[d], LeaveNext(heads, next, qs, d, k, own);
    QueueRangeOk(heads, next, qs, d);
    QueueRangeOk(heads, next, qs, e);
    hide QueueLinked, Linked;
    assert Apart(qs) by { ApartOf(heads, next, qs); }
    if e == d {
      forall i: nat, j: nat | i < j < |q| ensures q[i] != q[j] { NotAgain(qs, d, i, d, j); }
      hide Apart;
      LeaveSame(next, q, k, own);
      IsLinked(LeaveHeads(heads, qs, d, k)[d], next', Without(q, k));
    } else {
      forall i: nat | i < |qs[e]| ensures qs[e][i] != q[k] && (k > 0 ==> qs[e][i] != q[k - 1]) {
        NotAgain(qs, d, k, e, i);
        if k > 0 { NotAgain(qs, d, k - 1, e, i); }
      }
      hide Apart;
      IsLinked(heads[e], next', qs[e]);
    }
  }

  lemma LeaveSame(next: seq<int>, q: seq<nat>, k: nat, own: int)
    requires k < |q| && forall i: nat, j: nat :: i < j < |q| ==> q[i] != q[j]
    requires forall i: nat :: i < |q| ==> q[i] < |next|
    requires forall i: nat {:trigger next[q[i]]} :: i < |q| ==> next[q[i]] == At(q, i + 1)
    ensures var next' := (if k == 0 then next else next[q[k - 1] := At(q, k + 1)])[q[k] := own];
            var w := Without(q, k);
            && |next'| == |next| && (forall i: nat :: i < |w| ==> w[i] < |next'|)
            && forall i: nat {:trigger next'[w[i]]} :: i < |w| ==> next'[w[i]] == At(w, i + 1)
  {
    var next' := (if k == 0 then next else next[q[k - 1] := At(q, k + 1)])[q[k] := own];
    var w := Without(q, k);
    forall i: nat | i < |w| ensures w[i] < |next'| && next'[w[i]] == At(w, i + 1) {
      var i' := if i < k then i else i + 1;
      assert w[i] == q[i'] && q[i'] != q[k] && next[q[i']] == At(q, i' + 1);
      assert i + 1 < |w| ==> w[i + 1] == q[if i + 1 < k then i + 1 else i + 2];
      if k > 0 && i' == k - 1 {
        assert next'[q[i']] == At(q, k + 1);
      } else {
        assert k > 0 ==> q[i'] != q[k - 1];
        assert next'[q[i']] == At(q, i' + 1);
      }
    }
  }

  lemma LeaveFacts(heads: seq<int>, next: seq<int>, qs: seq<seq<nat>>, d: nat, k: nat)
    requires Linked(heads, next, qs) && d < |qs| && k < |qs[d]|
    ensures var q := qs[d];
            && q[k] < |next| && next[q[k]] == At(q, k + 1) && -1 <= At(q, k + 1) < |next|
            && (At(q, k + 1) == -1 <==> k + 1 >= |q|)
            && if k == 0 then heads[d] == q[k] else q[k - 1] < |next| && next[q[k - 1]] == q[k]
  {
    QueueRangeOk(heads, next, qs, d);
  }

  lemma ApartOf(heads: seq<int>, next: seq<int>, qs: seq<seq<nat>>)
    requires Linked(heads, next, qs)
    ensures Apart(qs)
  {
  }

  lemma LeaveStales(heads: seq<int>, next: seq<int>, qs: seq<seq<nat>>, d: nat, k: nat, own: int)
    requires Linked(heads, next, qs) && d < |qs| && k < |qs[d]|
    ensures qs[d][k] < |next|
    ensures Stales(LeaveNext(heads, next, qs, d, k, own), qs[d := Without(qs[d], k)]) ==
            Stales(next, qs)[qs[d][k] := own != -1]
  {
    var q, next', qs' := qs[d], LeaveNext(heads, next, qs, d, k, own), qs[d := Without(qs[d], k)];
    QueueRangeOk(heads, next, qs, d);
    assert Apart(qs);
    hide Linked, OnQueue, Apart;
    forall p: nat | p < |next| ensures Stales(next', qs')[p] == Stales(next, qs)[q[k] := own != -1][p] {
      OnQueueWithout(qs, d, k, p);
      if k > 0 && p == q[k - 1] { Queued(qs, d, k - 1); NotAgain(qs, d, k, d, k - 1); }
    }
  }

  lemma LeaveLinked(heads: seq<int>, next: seq<int>, qs: seq<seq<nat>>, d: nat, k: nat, own: int)
    requires Linked(heads, next, qs) && d < |qs| && k < |qs[d]| && -1 <= own < |next|
    ensures Linked(LeaveHeads(heads, qs, d, k), LeaveNext(heads, next, qs, d, k, own), qs[d := Without(qs[d], k)])
  {
    QueueRangeOk(heads, next, qs, d);
    hide QueueLinked, Apart;
    ApartWithout(qs, d, k);
    assert forall p: nat :: p < |next| ==> -1 <= LeaveNext(heads, next, qs, d, k, own)[p] < |next|;
    forall e: nat | e < |qs|
      ensures QueueLinked(LeaveHeads(heads, qs, d, k)[e], LeaveNext(heads, next, qs, d, k, own),
              qs[d := Without(qs[d], k)][e])
    {
      LeaveQueue(heads, next, qs, d, k, own, e);
    }
  }

  // ---- A process joins in front ----

  /** The link of a process on no queue may be anything. */
  lemma FreeLink(heads: seq<int>, next: seq<int>, qs: seq<seq<nat>>, c: nat, v: int)
    requires Linked(heads, next, qs) && c < |next| && !OnQueue(qs, c) && -1 <= v < |next|
    ensures Linked(heads, next[c := v], qs)
  {
    var next' := next[c := v];
    forall d: nat | d < |qs| ensures QueueLinked(heads[d], next', qs[d]) {
      assert QueueLinked(heads[d], next, qs[d]);
      forall k: nat | k < |qs[d]| ensures qs[d][k] != c { assert qs[d][k] in qs[d]; }
    }
  }

  lemma ApartPrepend(qs: seq<seq<nat>>, d: nat, c: nat)
    requires Apart(qs) && d < |qs| && !OnQueue(qs, c)
    ensures Apart(qs[d := [c] + qs[d]])
  {
    var qs' := qs[d := [c] + qs[d]];
    forall e: nat, f: nat, i: nat, j: nat | e < |qs| && f < |qs| && i < |qs'[e]| && j < |qs'[f]|
        && qs'[e][i] == qs'[f][j]
      ensures e == f && i == j
    {
      var i', j' := if e == d then i - 1 else i, if f == d then j - 1 else j;
      assert i' >= 0 ==> qs'[e][i] == qs[e][i'] && qs[e][i'] in qs[e];
      assert j' >= 0 ==> qs'[f][j] == qs[f][j'] && qs[f][j'] in qs[f];
    }
  }

  lemma PrependLinked(heads: seq<int>, next: seq<int>, qs: seq<seq<nat>>, d: nat, c: nat)
    requires Linked(heads, next, qs) && d < |qs| && c < |next| && !OnQueue(qs, c)
    ensures Linked(heads[d := c], next[c := heads[d]], qs[d := [c] + qs[d]])
  {
    QueueRangeOk(heads, next, qs, d);
    FreeLink(heads, next, qs, c, heads[d]);
    ApartPrepend(qs, d, c);
    var heads', next', q := heads[d := c], next[c := heads[d]], [c] + qs[d];
    var qs' := qs[d := q];
    hide Apart;
    forall e: nat | e < |qs| ensures QueueLinked(heads'[e], next', qs'[e]) {
      assert QueueLinked(heads[e], next', qs[e]);
      if e == d {
        forall k: nat | k < |q| ensures q[k] < |next'| && next'[q[k]] == At(q, k + 1) {
          if k > 0 { assert q[k] == qs[d][k - 1] && next'[qs[d][k - 1]] == At(qs[d], k); }
        }
        IsLinked(c, next', q);
      }
    }
  }
}
