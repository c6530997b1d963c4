/**
 The kernel's own check of its run queues, and that it finds out exactly whether the links
 represent proper queues.
 */
module RunQueueCheck {
  import opened Fifo
  import opened QueueLinks
  import opened RunQueue
  import opened RunQueueSched

  /** What the check looks at. A pointer is -1 for null, a slot of the process table, or any other
      number; the tails are followed before they are looked at, so they must be slots or null. */
  datatype Links = Links(flags: seq<set<Flag>>, prio: seq<int>, head: seq<int>, tail: seq<int>, next: seq<int>) {
    ghost predicate Pointers() {
      && |flags| == |prio| == |next| && |head| == |tail| == NR_SCHED_QUEUES
      && forall q: nat :: q < NR_SCHED_QUEUES ==> -1 <= tail[q] < |flags|
    }

    predicate Ready(p: nat, q: nat)
      requires |prio| == |flags|
    {
      p < |flags| && flags[p] == {} && prio[p] == q
    }

    /** Queue q is w: the links say so and all of w belong there. */
    ghost predicate QueueIs(q: nat, w: seq<nat>)
      requires Pointers() && q < NR_SCHED_QUEUES
    {
      && QueueLinked(head[q], next, w) && Distinct(w)
      && tail[q] == (if w == [] then -1 else w[|w| - 1])
      && forall k: nat :: k < |w| ==> Ready(w[k], q)
    }

    /** The links represent these queues, and every runnable process is on one. */
    ghost predicate Represents(qs: seq<seq<nat>>)
      requires Pointers()
    {
      && |qs| == NR_SCHED_QUEUES
      && (forall q: nat :: q < NR_SCHED_QUEUES ==> QueueIs(q, qs[q]))
      && forall p: nat :: p < |flags| && flags[p] == {} ==> OnQueue(qs, p)
    }
  }

  /** The marked processes are those on the first n queues. */
  ghost predicate FoundIs(found: seq<bool>, qs: seq<seq<nat>>, n: nat) {
    n <= |qs| && forall p: nat :: p < |found| ==> (found[p] <==> OnQueue(qs[..n], p))
  }

  ghost function Marks(found: seq<bool>): (r: set<nat>)
    ensures forall p: nat :: p in r <==> p < |found| && found[p]
    ensures |r| <= |found|
  {
    if found == [] then {} else
    var n := |found| - 1;
    if found[n] then Marks(found[..n]) + {n} else Marks(found[..n])
  }

  lemma MarkOne(found: seq<bool>, p: nat)
    requires p < |found| && !found[p]
    ensures |Marks(found[p := true])| == |Marks(found)| + 1
  {
    assert Marks(found[p := true]) == Marks(found) + {p};
  }

  /** The first part of a queue, up to but not including x. */
  ghost predicate Walked(k: Links, q: nat, w: seq<nat>, x: int)
    requires k.Pointers() && q < NR_SCHED_QUEUES
  {
    && Distinct(w) && (forall i: nat :: i < |w| ==> k.Ready(w[i], q))
    && k.head[q] == (if w == [] then x else w[0])
    && (forall i: nat {:trigger k.next[w[i]]} :: i < |w| ==> k.next[w[i]] == if i + 1 < |w| then w[i + 1] else x)
    && (w != [] && x == -1 ==> k.tail[q] == w[|w| - 1])
  }

  /** w is how queue q begins, if the links represent proper queues at all. */
  ghost predicate Begins(k: Links, found0: seq<bool>, q: nat, w: seq<nat>, x: int)
    requires k.Pointers() && q < NR_SCHED_QUEUES
  {
    forall qs: seq<seq<nat>> :: k.Represents(qs) && FoundIs(found0, qs, q) ==>
        |w| <= |qs[q]| && w == qs[q][..|w|] && x == At(qs[q], |w|)
  }

  lemma BeginsFirst(k: Links, found0: seq<bool>, q: nat)
    requires k.Pointers() && q < NR_SCHED_QUEUES
    ensures Begins(k, found0, q, [], k.head[q])
  {
    forall qs: seq<seq<nat>> | k.Represents(qs) && FoundIs(found0, qs, q) ensures k.head[q] == At(qs[q], 0) {
      assert k.QueueIs(q, qs[q]);
    }
  }

  lemma BeginsNext(k: Links, found0: seq<bool>, q: nat, w: seq<nat>, x: nat)
    requires k.Pointers() && q < NR_SCHED_QUEUES && x < |k.next| && Begins(k, found0, q, w, x)
    ensures Begins(k, found0, q, w + [x], k.next[x])
  {
    hide Links.QueueIs, FoundIs;
    forall qs: seq<seq<nat>> | k.Represents(qs) && FoundIs(found0, qs, q)
      ensures |w| + 1 <= |qs[q]| && w + [x] == qs[q][..|w| + 1] && k.next[x] == At(qs[q], |w| + 1)
    {
      QueueNext(k, q, qs[q], |w|);
    }
  }

  lemma QueueNext(k: Links, q: nat, w: seq<nat>, i: nat)
    requires k.Pointers() && q < NR_SCHED_QUEUES && k.QueueIs(q, w) && i < |w|
    ensures w[i] < |k.next| && k.next[w[i]] == At(w, i + 1)
  {
    assert k.Ready(w[i], q);
  }

  /** A process the walk comes to belongs on queue q, and was not met before. */
  lemma MustBeReady(k: Links, found0: seq<bool>, q: nat, w: seq<nat>, x: int, qs: seq<seq<nat>>)
    requires k.Pointers() && q < NR_SCHED_QUEUES && x != -1 && Begins(k, found0, q, w, x)
    requires k.Represents(qs) && FoundIs(found0, qs, q) && |found0| == |k.flags|
    ensures x >= 0 && k.Ready(x, q) && !found0[x] && x !in w
    ensures k.next[x] == -1 ==> k.tail[q] == x
  {
    assert k.QueueIs(q, qs[q]) && qs[q][|w|] == x && k.Ready(qs[q][|w|], q);
    assert k.next[qs[q][|w|]] == At(qs[q], |w| + 1);
    forall i: nat | i < |w| ensures w[i] != x { assert w[i] == qs[q][i]; }
    if found0[x] { EarlierPrio(k, qs, q, x); }
  }

  lemma EarlierPrio(k: Links, qs: seq<seq<nat>>, q: nat, x: nat)
    requires k.Pointers() && q < NR_SCHED_QUEUES && k.Represents(qs) && OnQueue(qs[..q], x)
    ensures x < |k.flags| && k.prio[x] < q
  {
    var d: nat :| d < |qs[..q]| && x in qs[..q][d];
    assert k.QueueIs(d, qs[d]);
    var i: nat :| i < |qs[d]| && qs[d][i] == x;
    assert k.Ready(qs[d][i], d);
  }

  lemma EndsRight(k: Links, q: nat, w: seq<nat>, qs: seq<seq<nat>>)
    requires k.Pointers() && q < NR_SCHED_QUEUES && k.Represents(qs)
    ensures (k.head[q] == -1 <==> k.tail[q] == -1) && (k.tail[q] != -1 ==> k.next[k.tail[q]] == -1)
  {
    assert k.QueueIs(q, qs[q]);
    if qs[q] != [] { assert k.Ready(qs[q][|qs[q]| - 1], q) && k.next[qs[q][|qs[q]| - 1]] == At(qs[q], |qs[q]|); }
  }

  lemma WalkedIs(k: Links, q: nat, w: seq<nat>)
    requires k.Pointers() && q < NR_SCHED_QUEUES && Walked(k, q, w, -1) && (k.head[q] == -1 ==> k.tail[q] == -1)
    ensures k.QueueIs(q, w)
  {
    assert forall i: nat :: i < |w| ==> k.Ready(w[i], q);
    IsLinked(k.head[q], k.next, w);
  }

  lemma WalkOn(k: Links, q: nat, w: seq<nat>, x: nat)
    requires k.Pointers() && q < NR_SCHED_QUEUES && Walked(k, q, w, x) && k.Ready(x, q) && x !in w
    requires k.next[x] == -1 ==> k.tail[q] == x
    ensures Walked(k, q, w + [x], k.next[x])
  {
    var v := w + [x];
    forall i: nat | i < |v| ensures k.Ready(v[i], q) { if i < |w| { assert v[i] == w[i] && k.Ready(w[i], q); } }
    forall i: nat {:trigger k.next[v[i]]} | i < |v|
      ensures k.next[v[i]] == if i + 1 < |v| then v[i + 1] else k.next[x]
    {
      if i < |w| { assert v[i] == w[i] && k.next[w[i]] == if i + 1 < |w| then w[i + 1] else x; }
    }
  }

  /** If the links represent proper queues, the check of queue q succeeds and finds w. */
  ghost predicate Forced(k: Links, found0: seq<bool>, q: nat, ok: bool, w: seq<nat>)
    requires k.Pointers() && q < NR_SCHED_QUEUES
  {
    forall qs: seq<seq<nat>> {:trigger k.Represents(qs)} :: k.Represents(qs) && FoundIs(found0, qs, q) ==>
        ok && w == qs[q]
  }

  /** The check of queue q: if it succeeds queue q is w; if the links represent proper queues
      it succeeds. */
  method CheckQueue(k: Links, q: nat, found0: seq<bool>, l0: nat)
    returns (ok: bool, found: seq<bool>, l: nat, ghost w: seq<nat>)
    requires k.Pointers() && q < NR_SCHED_QUEUES && |found0| == |k.flags| && l0 == |Marks(found0)|
    ensures |found| == |found0| && (ok ==> k.QueueIs(q, w) && l == |Marks(found)|)
    ensures ok ==> forall p: nat :: p < |found| ==> (found[p] <==> found0[p] || p in w)
    ensures ok ==> forall p :: p in w ==> p < |found0| && !found0[p]
    ensures Forced(k, found0, q, ok, w)
  {
    hide Links.Represents, FoundIs, Walked, Begins;
    ok, found, l, w := false, found0, l0, [];
    forall qs: seq<seq<nat>> | k.Represents(qs) && FoundIs(found0, qs, q)
      ensures (k.head[q] == -1 <==> k.tail[q] == -1) && (k.tail[q] != -1 ==> k.next[k.tail[q]] == -1)
    {
      EndsRight(k, q, w, qs);
    }
    if k.head[q] != -1 && k.tail[q] == -1 { return; }
    if k.head[q] == -1 && k.tail[q] != -1 { return; }
    if k.tail[q] != -1 && k.next[k.tail[q]] != -1 { return; }
    var xp := k.head[q];
    BeginsFirst(k, found0, q);
    WalkStart(k, q);
    while xp != -1
      invariant |found| == |found0| && l == |Marks(found)|
      invariant Walked(k, q, w, xp) && Begins(k, found0, q, w, xp)
      invariant forall p: nat :: p < |found| ==> (found[p] <==> found0[p] || p in w)
      invariant forall p :: p in w ==> p < |found0| && !found0[p]
      decreases |found| - l
    {
      forall qs: seq<seq<nat>> | k.Represents(qs) && FoundIs(found0, qs, q)
        ensures xp >= 0 && k.Ready(xp, q) && !found[xp] && (k.next[xp] == -1 ==> k.tail[q] == xp)
      {
        MustBeReady(k, found0, q, w, xp, qs);
      }
      if xp < 0 || xp >= |k.flags| { return; }
      if k.flags[xp] != {} { return; }
      if k.prio[xp] != q { return; }
      if found[xp] { return; }
      MarkOne(found, xp);
      found := found[xp := true];
      if k.next[xp] == -1 && k.tail[q] != xp { return; }
      if l > |k.flags| { return; }
      WalkOn(k, q, w, xp);
      BeginsNext(k, found0, q, w, xp);
      l := l + 1;
      w := w + [xp];
      xp := k.next[xp];
    }
    WalkedIs(k, q, w);
    EndIs(k, found0, q, w);
    ok := true;
  }

  lemma WalkStart(k: Links, q: nat)
    requires k.Pointers() && q < NR_SCHED_QUEUES
    ensures Walked(k, q, [], k.head[q])
  {
  }

  lemma EndIs(k: Links, found0: seq<bool>, q: nat, w: seq<nat>)
    requires k.Pointers() && q < NR_SCHED_QUEUES && Begins(k, found0, q, w, -1)
    ensures forall qs: seq<seq<nat>> :: k.Represents(qs) && FoundIs(found0, qs, q) ==> w == qs[q]
  {
    forall qs: seq<seq<nat>> | k.Represents(qs) && FoundIs(found0, qs, q) ensures w == qs[q] {}
  }

  lemma OnSnoc(qs: seq<seq<nat>>, w: seq<nat>, p: nat)
    ensures OnQueue(qs + [w], p) <==> OnQueue(qs, p) || p in w
  {
    var v := qs + [w];
    if OnQueue(qs, p) {
      var d: nat :| d < |qs| && p in qs[d];
      assert p in v[d];
    }
    if p in w { assert p in v[|qs|]; }
    if OnQueue(v, p) {
      var d: nat :| d < |v| && p in v[d];
      assert d < |qs| ==> p in qs[d];
    }
  }

  /** The first queues are these, and can be no others. */
  ghost predicate Built(k: Links, built: seq<seq<nat>>, found: seq<bool>)
    requires k.Pointers()
  {
    && |built| <= NR_SCHED_QUEUES && |found| == |k.flags|
    && (forall d: nat :: d < |built| ==> k.QueueIs(d, built[d]))
    && (forall p: nat :: p < |found| ==> (found[p] <==> OnQueue(built, p)))
    && (forall qs: seq<seq<nat>> :: k.Represents(qs) ==> qs[..|built|] == built)
  }

  lemma BuiltFound(k: Links, built: seq<seq<nat>>, found: seq<bool>, qs: seq<seq<nat>>)
    requires k.Pointers() && Built(k, built, found) && k.Represents(qs)
    ensures FoundIs(found, qs, |built|)
  {
  }

  lemma BuildNext(k: Links, built: seq<seq<nat>>, found: seq<bool>, w: seq<nat>, found': seq<bool>)
    requires k.Pointers() && Built(k, built, found) && |built| < NR_SCHED_QUEUES && k.QueueIs(|built|, w)
    requires |found'| == |found| && forall p: nat :: p < |found| ==> (found'[p] <==> found[p] || p in w)
    requires Forced(k, found, |built|, true, w)
    ensures Built(k, built + [w], found')
  {
    var v := built + [w];
    forall p: nat | p < |found'| ensures found'[p] <==> OnQueue(v, p) { OnSnoc(built, w, p); }
    hide OnQueue, Links.QueueIs, FoundIs;
    forall qs: seq<seq<nat>> | k.Represents(qs) ensures qs[..|v|] == v {
      BuiltFound(k, built, found, qs);
      assert qs[..|v|] == qs[..|built|] + [qs[|built|]];
    }
  }

  lemma ForcedFail(k: Links, built: seq<seq<nat>>, found: seq<bool>, w: seq<nat>)
    requires k.Pointers() && Built(k, built, found) && |built| < NR_SCHED_QUEUES && Forced(k, found, |built|, false, w)
    ensures !exists qs :: k.Represents(qs)
  {
    forall qs: seq<seq<nat>> ensures !k.Represents(qs) {
      if k.Represents(qs) { BuiltFound(k, built, found, qs); }
    }
  }

  lemma BuiltAll(k: Links, built: seq<seq<nat>>, found: seq<bool>)
    requires k.Pointers() && Built(k, built, found) && |built| == NR_SCHED_QUEUES
    ensures (forall p: nat :: p < |k.flags| && k.flags[p] == {} ==> found[p]) <==> exists qs :: k.Represents(qs)
  {
    if forall p: nat :: p < |k.flags| && k.flags[p] == {} ==> found[p] {
      assert k.Represents(built);
    }
    if qs: seq<seq<nat>> :| k.Represents(qs) {
      assert qs[..|built|] == qs;
    }
  }

  lemma BuiltNone(k: Links, found: seq<bool>)
    requires k.Pointers() && |found| == |k.flags| && forall p: nat :: p < |found| ==> !found[p]
    ensures Built(k, [], found) && |Marks(found)| == 0
  {
    assert Marks(found) == {};
  }

  /** The last loop: every runnable process has been met. */
  method AllFound(k: Links, found: seq<bool>) returns (ok: bool)
    requires |found| == |k.flags|
    ensures ok <==> forall p: nat :: p < |k.flags| && k.flags[p] == {} ==> found[p]
  {
    var p := 0;
    while p < |k.flags|
      invariant p <= |k.flags| && forall x: nat :: x < p && k.flags[x] == {} ==> found[x]
    {
      if k.flags[p] == {} && !found[p] { return false; }
      p := p + 1;
    }
    return true;
  }

  /** runqueues_ok_cpu: the kernel's check succeeds exactly when the links represent queues
      on which every runnable process stands once, under its priority. */
  method RunqueuesOk(k: Links) returns (ok: bool)
    requires k.Pointers()
    ensures ok <==> exists qs :: k.Represents(qs)
  {
    hide Links.QueueIs, FoundIs, Built, Links.Represents, Forced, Marks;
    var found := seq(|k.flags|, _ => false);
    var q, l := 0, 0;
    ghost var built: seq<seq<nat>> := [];
    BuiltNone(k, found);
    while q < NR_SCHED_QUEUES
      invariant q <= NR_SCHED_QUEUES && |built| == q && |found| == |k.flags|
      invariant l == |Marks(found)| && Built(k, built, found)
    {
      ghost var w;
      ghost var found0 := found;
      ok, found, l, w := CheckQueue(k, q, found, l);
      if !ok {
        ForcedFail(k, built, found0, w);
        return;
      }
      BuildNext(k, built, found0, w, found);
      built, q := built + [w], q + 1;
    }
    BuiltAll(k, built, found);
    ok := AllFound(k, found);
  }

  /** The scheduler's own queues pass the check. */
  lemma ValidPasses(k: Links, s: Rq, qs: seq<seq<nat>>)
    requires k.Pointers() && RqOk(s) && k.flags == s.flags && k.prio == s.prio && qs == s.queues
    requires Linked(k.head, k.next, qs) && TailsOk(k.tail, qs)
    ensures k.Represents(qs)
  {
    forall q: nat | q < NR_SCHED_QUEUES ensures k.QueueIs(q, qs[q]) {
      assert QueueOk(s, q) && QueueLinked(k.head[q], k.next, qs[q]);
      forall i: nat | i < |qs[q]| ensures k.Ready(qs[q][i], q) { assert qs[q][i] in qs[q]; }
    }
    forall p: nat | p < |k.flags| && k.flags[p] == {} ensures OnQueue(qs, p) {
      assert Runnable(s, p);
    }
  }

  /** Links that pass the check are those of run queues in which a process stands once, on the
      queue of its priority, exactly when it is runnable. */
  lemma PassesValid(k: Links, qs: seq<seq<nat>>)
    requires k.Pointers() && k.Represents(qs)
    ensures (forall q: nat :: q < |qs| ==> QueueLinked(k.head[q], k.next, qs[q])) && Apart(qs) && TailsOk(k.tail, qs)
    ensures (forall p: nat :: p < |k.next| ==> -1 <= k.next[p] < |k.next|) ==> Linked(k.head, k.next, qs)
    ensures forall p: nat :: p < |k.flags| ==> (k.flags[p] == {} <==> OnQueue(qs, p))
    ensures forall q: nat, p :: q < |qs| && p in qs[q] ==> k.Ready(p, q)
  {
    forall q: nat, p | q < |qs| && p in qs[q] ensures k.Ready(p, q) {
      assert k.QueueIs(q, qs[q]);
      var i: nat :| i < |qs[q]| && qs[q][i] == p;
      assert k.Ready(qs[q][i], q);
    }
    forall q: nat | q < |qs| ensures QueueLinked(k.head[q], k.next, qs[q]) && Distinct(qs[q]) {
      assert k.QueueIs(q, qs[q]);
    }
    forall d: nat, e: nat, i: nat, j: nat | d < |qs| && e < |qs| && i < |qs[d]| && j < |qs[e]| && qs[d][i] == qs[e][j]
      ensures d == e && i == j
    {
      assert k.QueueIs(d, qs[d]) && k.QueueIs(e, qs[e]) && k.Ready(qs[d][i], d) && k.Ready(qs[e][j], e);
    }
    forall q: nat | q < |qs| ensures k.tail[q] == if qs[q] == [] then -1 else qs[q][|qs[q]| - 1] {
      assert k.QueueIs(q, qs[q]);
    }
  }
}
