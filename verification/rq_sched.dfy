/**
 The run queues as linked lists with heads and tails, and the kernel's operations on them.
 */
module RunQueueSched {
  import opened Fifo
  import opened QueueLinks
  import opened RunQueue

  ghost predicate TailsOk(tail: seq<int>, qs: seq<seq<nat>>) {
    |tail| == |qs| && forall q: nat :: q < |qs| ==> tail[q] == if qs[q] == [] then -1 else qs[q][|qs[q]| - 1]
  }

  lemma NotQueued(s: Rq, p: nat)
    requires RqOk(s) && p < |s.flags| && !Runnable(s, p)
    ensures !OnQueue(s.queues, p)
  {
    forall q: nat | q < |s.queues| ensures p !in s.queues[q] { assert QueueOk(s, q); }
  }

  class Scheduler {
    var flags: seq<set<Flag>>
    var prio: seq<int>
    var preemptible: seq<bool>
    var timeLeft: seq<nat>
    /** proc_ptr; -1 is the idle process */
    var cur: int
    /** run_q_head, run_q_tail and p_nextready; -1 is the null pointer */
    var head: seq<int>
    var tail: seq<int>
    var next: seq<int>
    ghost var queues: seq<seq<nat>>

    ghost function Abs(): Rq
      reads this
    {
      Rq(flags, prio, preemptible, timeLeft, queues, cur)
    }

    /** The links represent the queues. */
    ghost predicate Links()
      reads this
    {
      && Abs().Shape() && |next| == |flags| && |head| == NR_SCHED_QUEUES
      && Linked(head, next, queues) && TailsOk(tail, queues)
    }

    ghost predicate Valid()
      reads this
    {
      Links() && RqOk(Abs())
    }

    /** No process is runnable yet. */
    constructor (flags: seq<set<Flag>>, prio: seq<int>, preemptible: seq<bool>)
      requires |flags| == |prio| == |preemptible|
      requires forall p: nat :: p < |flags| ==>
               flags[p] != {} && Preempted !in flags[p] && 0 <= prio[p] < NR_SCHED_QUEUES
      ensures Valid() && Fresh(Abs()) && this.flags == flags && this.prio == prio && this.preemptible == preemptible
    {
      this.flags, this.prio, this.preemptible := flags, prio, preemptible;
      timeLeft := seq(|flags|, _ => 0);
      cur := -1;
      head := seq(NR_SCHED_QUEUES, _ => -1);
      tail := seq(NR_SCHED_QUEUES, _ => -1);
      next := seq(|flags|, _ => -1);
      queues := seq(NR_SCHED_QUEUES, _ => []);
      new;
      forall q: nat | q < NR_SCHED_QUEUES ensures QueueOk(Abs(), q) {}
      forall q: nat | q < NR_SCHED_QUEUES ensures QueueLinked(head[q], next, queues[q]) {}
    }

    // ---- dequeue ----

    method Dequeue(p: nat)
      requires Links() && p < |flags| && HasQueue(Abs(), p)
      modifies this`head, this`tail, this`next, this`queues
      ensures Links() && Abs() == RunQueue.Dequeue(old(Abs()), p)
    {
      var q := prio[p];
      var xpp, prev, k := FindReady(q, p);
      if Get(xpp) == -1 { return; }
      Remove(xpp, prev, q, p, k);
    }

    function Get(cell: Cell): int
      requires if cell.Head? then cell.d < |head| else cell.p < |next|
      reads this
    {
      if cell.Head? then head[cell.d] else next[cell.p]
    }

    /** The pointer to p on queue q, or to its end, and the process before it. */
    method FindReady(q: nat, p: nat) returns (xpp: Cell, prev: int, ghost k: nat)
      requires Links() && q < NR_SCHED_QUEUES
      ensures k <= |queues[q]| && xpp == CellAt(queues[q], q, k) && prev == if k == 0 then -1 else queues[q][k - 1]
      ensures if k < |queues[q]| then IndexOf(queues[q], p, 0) == k else IndexOf(queues[q], p, 0) == -1
      ensures k > 0 ==> queues[q][k - 1] < |next|
      ensures Get(xpp) == At(queues[q], k)
    {
      QueueRangeOk(head, next, queues, q);
      hide Linked;
      ghost var w := queues[q];
      k := 0;
      xpp, prev := Head(q), -1;
      while Get(xpp) != -1
        invariant k <= |w| && xpp == CellAt(w, q, k) && IndexOf(w, p, k) == IndexOf(w, p, 0)
        invariant prev == if k == 0 then -1 else w[k - 1]
        decreases |w| - k
      {
        if Get(xpp) == p { return; }
        prev := Get(xpp);
        xpp := Link(prev);
        k := k + 1;
      }
    }

    method Remove(xpp: Cell, prev: int, q: nat, p: nat, ghost k: nat)
      requires Links() && q < NR_SCHED_QUEUES && k < |queues[q]| && queues[q][k] == p && p < |next|
      requires xpp == CellAt(queues[q], q, k) && prev == if k == 0 then -1 else queues[q][k - 1]
      requires k > 0 ==> queues[q][k - 1] < |next|
      modifies this`head, this`tail, this`next, this`queues
      ensures Links() && queues == old(queues)[q := Without(old(queues)[q], k)]
    {
      hide Linked, OnQueue, At;
      ghost var w, qs := queues[q], queues;
      LeaveFacts(head, next, queues, q, k);
      LeaveLinked(head, next, queues, q, k, next[p]);
      ghost var heads', next' := LeaveHeads(head, queues, q, k), LeaveNext(head, next, queues, q, k, next[p]);
      assert p == tail[q] <==> k == |w| - 1 by { LastOnce(head, next, queues, q, k); }
      if xpp.Head? { head := head[q := next[p]]; } else { next := next[xpp.p := next[p]]; }
      assert head == heads' && next == next';
      if p == tail[q] { tail := tail[q := prev]; }
      queues := queues[q := Without(w, k)];
      TailLeaves(w, k);
    }

    // ---- RTS_SET, enqueue, RTS_UNSET ----

    method RtsSet(p: nat, f: set<Flag>)
      requires Links() && p < |flags| && HasQueue(Abs(), p)
      modifies this`flags, this`head, this`tail, this`next, this`queues
      ensures Links() && Abs() == Set(old(Abs()), p, f)
    {
      var rts := flags[p];
      flags := flags[p := flags[p] + f];
      if rts == {} && flags[p] != {} { Dequeue(p); }
    }

    method Append(p: nat)
      requires Links() && p < |flags| && HasQueue(Abs(), p) && !OnQueue(queues, p)
      modifies this`head, this`tail, this`next, this`queues
      ensures Links() && Abs() == RunQueue.Append(old(Abs()), p)
    {
      hide Linked, OnQueue;
      var q := prio[p];
      ghost var next1 := next[p := -1];
      FreeLink(head, next, queues, p, -1);
      JoinLinked(head, next1, queues, q, p);
      LeastRange(head, next, queues, q);
      ghost var heads', next' := JoinHeads(head, queues, q, p), JoinNext(head, next1, queues, q, p);
      if head[q] == -1 {
        head, tail := head[q := p], tail[q := p];
        next := next[p := -1];
      } else {
        assert tail[q] != p by { TailOnQueue(queues, q, p); }
        next := next[tail[q] := p];
        tail := tail[q := p];
        next := next[p := -1];
      }
      assert head == heads' && next == next';
      queues := queues[q := queues[q] + [p]];
    }

    method Enqueue(p: nat)
      requires Links() && p < |flags| && flags[p] == {} && !OnQueue(queues, p)
      requires forall x: nat :: x < |flags| ==> HasQueue(Abs(), x)
      modifies this`flags, this`head, this`tail, this`next, this`queues
      ensures Links() && Abs() == RunQueue.Enqueue(old(Abs()), p)
    {
      assert HasQueue(Abs(), p) && (cur >= 0 ==> HasQueue(Abs(), cur));
      Append(p);
      if cur >= 0 && prio[cur] > prio[p] && preemptible[cur] { RtsSet(cur, {Preempted}); }
    }

    method EnqueueHead(p: nat)
      requires Links() && p < |flags| && HasQueue(Abs(), p) && flags[p] == {} && timeLeft[p] != 0 && !OnQueue(queues, p)
      modifies this`head, this`tail, this`next, this`queues
      ensures Links() && Abs() == Prepend(old(Abs()), p)
    {
      hide Linked, OnQueue;
      var q := prio[p];
      PrependLinked(head, next, queues, q, p);
      LeastRange(head, next, queues, q);
      if head[q] == -1 {
        tail := tail[q := p];
      }
      next := next[p := head[q]];
      head := head[q := p];
      queues := queues[q := [p] + queues[q]];
    }

    method RtsUnset(p: nat, f: set<Flag>)
      requires Valid() && p < |flags|
      modifies this`flags, this`head, this`tail, this`next, this`queues
      ensures Valid() && Abs() == Unset(old(Abs()), p, f)
    {
      UnsetOk(Abs(), p, f);
      if flags[p] != {} { NotQueued(Abs(), p); }
      var rts := flags[p];
      assert forall x: nat :: x < |flags| ==> HasQueue(Abs(), x);
      flags := flags[p := flags[p] - f];
      assert forall x: nat :: x < |flags| ==> HasQueue(Abs(), x) by { SamePrio(old(Abs()), Abs()); }
      if rts != {} && flags[p] == {} { Enqueue(p); }
    }

    // ---- sched_proc ----

    method SchedProc(p: nat, priority: int, quantum: int) returns (r: Err)
      requires Valid() && p < |flags| && priority != NR_SCHED_QUEUES
      modifies this
      ensures Valid() && (Abs(), r) == Sched(old(Abs()), p, priority, quantum)
    {
      hide Linked;
      if (priority < 0 && priority != -1) || priority > NR_SCHED_QUEUES { return EINVAL; }
      if quantum < 1 && quantum != -1 { return EINVAL; }
      ghost var s := Abs();
      if flags[p] == {} {
        SetOk(s, p, {NoQuantum});
        assert HasQueue(s, p);
        RtsSet(p, {NoQuantum});
      }
      ghost var s1 := Abs();
      assert s1 == (if Runnable(s, p) then Set(s, p, {NoQuantum}) else s) && RqOk(s1) && !Runnable(s1, p);
      ReprioritisedOk(s1, p, priority, quantum);
      if priority != -1 { prio := prio[p := priority]; }
      if quantum != -1 { timeLeft := timeLeft[p := quantum]; }
      assert Abs() == Reprioritised(s1, p, priority, quantum);
      hide RqOk, Unset, Set;
      RtsUnset(p, {NoQuantum});
      return OK;
    }

    // ---- pick_proc and switch_to_user ----

    method PickProc() returns (r: int)
      requires Links()
      ensures r == Pick(queues, 0)
    {
      var q := 0;
      while q < NR_SCHED_QUEUES
        invariant q <= NR_SCHED_QUEUES && Pick(queues, 0) == Pick(queues, q)
      {
        LeastRange(head, next, queues, q);
        if head[q] != -1 { return head[q]; }
        q := q + 1;
      }
      return -1;
    }

    /** Choose the process to run.  When there is none the idle process becomes current and
        the choice is repeated after the next interrupt. */
    method SwitchToUser()
      requires Valid()
      modifies this
      ensures Valid() && Abs() == Switch(old(Abs()))
    {
      SwitchOk(Abs());
      if cur >= 0 && flags[cur] == {} { return; }
      if cur >= 0 && Preempted in flags[cur] { RequeueCurrent(); }
      cur := PickProc();
    }

    method RequeueCurrent()
      requires Valid() && cur >= 0 && Preempted in flags[cur]
      modifies this
      ensures Links() && Abs() == Requeue(old(Abs()))
    {
      NotQueued(Abs(), cur);
      assert forall x: nat :: x < |flags| ==> HasQueue(Abs(), x);
      flags := flags[cur := flags[cur] - {Preempted}];
      assert forall x: nat :: x < |flags| ==> HasQueue(Abs(), x) by { SamePrio(old(Abs()), Abs()); }
      if flags[cur] == {} {
        if timeLeft[cur] != 0 { EnqueueHead(cur); } else { Enqueue(cur); }
      }
    }
  }

  lemma SamePrio(s: Rq, s': Rq)
    requires |s.flags| == |s'.flags| <= |s.prio| && s'.prio == s.prio
    requires forall x: nat :: x < |s.flags| ==> HasQueue(s, x)
    ensures forall x: nat :: x < |s.flags| ==> HasQueue(s', x)
  {
    forall x: nat | x < |s.flags| ensures HasQueue(s', x) { assert HasQueue(s, x); }
  }

  lemma LastOnce(heads: seq<int>, next: seq<int>, qs: seq<seq<nat>>, q: nat, k: nat)
    requires Linked(heads, next, qs) && q < |qs| && k < |qs[q]|
    ensures qs[q][k] == qs[q][|qs[q]| - 1] <==> k == |qs[q]| - 1
  {
    if k < |qs[q]| - 1 { NotAgain(qs, q, k, q, |qs[q]| - 1); }
  }

  lemma TailLeaves(w: seq<nat>, k: nat)
    requires k < |w|
    ensures var v := Without(w, k);
            && (v == [] <==> |w| == 1)
            && (v != [] ==> v[|v| - 1] == if k == |w| - 1 then w[k - 1] else w[|w| - 1])
  {
  }

  lemma TailOnQueue(qs: seq<seq<nat>>, q: nat, p: nat)
    requires q < |qs| && qs[q] != [] && !OnQueue(qs, p)
    ensures qs[q][|qs[q]| - 1] != p
  {
    Queued(qs, q, |qs[q]| - 1);
  }

  lemma LeastRange(heads: seq<int>, next: seq<int>, qs: seq<seq<nat>>, q: nat)
    requires Linked(heads, next, qs) && q < |qs|
    ensures heads[q] == (if qs[q] == [] then -1 else qs[q][0])
    ensures forall i: nat :: i < |qs[q]| ==> qs[q][i] < |next|
  {
    QueueRangeOk(heads, next, qs, q);
  }
}
