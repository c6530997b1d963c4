/**
 The scheduler's run queues: what RTS_SET, RTS_UNSET, sched_proc and the requeueing in
 switch_to_user do to them, and what pick_proc finds there.
 */
module RunQueue {
  import opened Fifo

  const NR_SCHED_QUEUES: nat := 16

  /** The bits of p_rts_flags; a process is runnable when none is set. */
  datatype Flag = SlotFree | ProcStop | Sending | Receiving | Signaled | SigPending | PStop | NoPriv | NoEndpoint
                | VmInhibit | PageFault | VmRequest | VmReqTarget | Preempted | NoQuantum | BootInhibit

  datatype Err = OK | EINVAL

  /** queues[q]: the processes on run queue q, next to run first.  cur: the current process,
      or -1 for the idle process, which is on no queue and is never preempted. */
  datatype Rq = Rq(flags: seq<set<Flag>>, prio: seq<int>, preemptible: seq<bool>, timeLeft: seq<nat>,
                   queues: seq<seq<nat>>, cur: int) {
    ghost predicate Shape() {
      |flags| == |prio| == |preemptible| == |timeLeft| && |queues| == NR_SCHED_QUEUES && -1 <= cur < |flags|
    }
  }

  predicate Runnable(s: Rq, p: nat)
    requires p < |s.flags|
  {
    s.flags[p] == {}
  }

  ghost predicate HasQueue(s: Rq, p: nat)
    requires p < |s.prio|
  {
    0 <= s.prio[p] < NR_SCHED_QUEUES
  }

  ghost predicate QueueOk(s: Rq, q: nat)
    requires s.Shape() && q < NR_SCHED_QUEUES
  {
    && Distinct(s.queues[q])
    && forall p :: p in s.queues[q] ==> p < |s.flags| && Runnable(s, p) && s.prio[p] == q
  }

  /** A process is on a run queue, once, exactly when it is runnable, and then on that of its
      priority; only the current process is ever marked preempted. */
  ghost predicate RqOk(s: Rq) {
    && s.Shape()
    && (forall p: nat :: p < |s.flags| ==> HasQueue(s, p))
    && (forall q: nat :: q < NR_SCHED_QUEUES ==> QueueOk(s, q))
    && (forall p: nat :: p < |s.flags| && Runnable(s, p) ==> HasQueue(s, p) && p in s.queues[s.prio[p]])
    && (forall p: nat :: p < |s.flags| && Preempted in s.flags[p] ==> p == s.cur)
  }

  // ---- enqueue, enqueue_head, dequeue ----

  function Append(s: Rq, p: nat): Rq
    requires p < |s.prio|
  {
    if 0 <= s.prio[p] < |s.queues| then s.(queues := s.queues[s.prio[p] := s.queues[s.prio[p]] + [p]]) else s
  }

  function Prepend(s: Rq, p: nat): Rq
    requires p < |s.prio|
  {
    if 0 <= s.prio[p] < |s.queues| then s.(queues := s.queues[s.prio[p] := [p] + s.queues[s.prio[p]]]) else s
  }

  function Dequeue(s: Rq, p: nat): Rq
    requires p < |s.prio|
  {
    if 0 <= s.prio[p] < |s.queues| then
      var q := s.queues[s.prio[p]];
      var k := IndexOf(q, p, 0);
      if k < 0 then s else s.(queues := s.queues[s.prio[p] := Without(q, k)])
    else s
  }

  /** RTS_SET */
  function Set(s: Rq, p: nat, f: set<Flag>): Rq
    requires p < |s.flags| == |s.prio|
  {
    var s1 := s.(flags := s.flags[p := s.flags[p] + f]);
    if Runnable(s, p) && !Runnable(s1, p) then Dequeue(s1, p) else s1
  }

  /** enqueue: the current process is preempted if the new one has a better priority. */
  function Enqueue(s: Rq, p: nat): Rq
    requires p < |s.flags| && s.Shape()
  {
    var s1 := Append(s, p);
    if s.cur >= 0 && s.prio[s.cur] > s.prio[p] && s.preemptible[s.cur] then Set(s1, s.cur, {Preempted}) else s1
  }

  /** RTS_UNSET */
  function Unset(s: Rq, p: nat, f: set<Flag>): Rq
    requires p < |s.flags| && s.Shape()
  {
    var s1 := s.(flags := s.flags[p := s.flags[p] - f]);
    if !Runnable(s, p) && Runnable(s1, p) then Enqueue(s1, p) else s1
  }

  // ---- sched_proc ----

  function Reprioritised(s: Rq, p: nat, priority: int, quantum: int): Rq
    requires p < |s.flags| && s.Shape() && (quantum >= 1 || quantum == -1)
  {
    s.(prio := if priority != -1 then s.prio[p := priority] else s.prio,
       timeLeft := if quantum != -1 then s.timeLeft[p := quantum] else s.timeLeft)
  }

  /** The range test of sched_proc, which lets the number of queues itself through. */
  predicate InRange(priority: int, quantum: int) {
    && !((priority < 0 && priority != -1) || priority > NR_SCHED_QUEUES)
    && !(quantum < 1 && quantum != -1)
  }

  function Sched(s: Rq, p: nat, priority: int, quantum: int): (Rq, Err)
    requires p < |s.flags| && s.Shape()
  {
    if !InRange(priority, quantum) then (s, EINVAL) else
    var s1 := if Runnable(s, p) then Set(s, p, {NoQuantum}) else s;
    (Unset(Reprioritised(s1, p, priority, quantum), p, {NoQuantum}), OK)
  }

  // ---- switch_to_user ----

  /** A preempted current process goes back to the front of its queue, or to the end if its
      quantum is used up. */
  function Requeue(s: Rq): Rq
    requires s.Shape()
  {
    if s.cur < 0 || Preempted !in s.flags[s.cur] then s else
    var s1 := s.(flags := s.flags[s.cur := s.flags[s.cur] - {Preempted}]);
    if !Runnable(s1, s.cur) then s1
    else if s.timeLeft[s.cur] != 0 then Prepend(s1, s.cur) else Enqueue(s1, s.cur)
  }

  /** pick_proc: the first process on the first queue that is not empty. */
  function Pick(queues: seq<seq<nat>>, q: nat): (r: int)
    requires q <= |queues|
    ensures r >= 0 ==> exists i: nat :: q <= i < |queues| && queues[i] != [] && queues[i][0] == r
                                        && forall j: nat :: q <= j < i ==> queues[j] == []
    ensures r < 0 ==> r == -1 && forall j: nat :: q <= j < |queues| ==> queues[j] == []
    decreases |queues| - q
  {
    if q == |queues| then -1 else if queues[q] != [] then queues[q][0] else Pick(queues, q + 1)
  }

  function Switch(s: Rq): Rq
    requires s.Shape()
  {
    if s.cur >= 0 && Runnable(s, s.cur) then s
    else var s1 := Requeue(s); s1.(cur := Pick(s1.queues, 0))
  }

  // ---- Every step keeps the invariant ----

  /** s' differs from s only in p's flags and in p having joined or left queue prio[p]. */
  ghost predicate Moved(s: Rq, s': Rq, p: nat) {
    && s.Shape() && s'.Shape() && |s'.flags| == |s.flags| && p < |s.flags|
    && s'.prio == s.prio && HasQueue(s, p)
    && (forall x: nat :: x < |s.flags| && x != p ==> s'.flags[x] == s.flags[x])
    && (forall q: nat :: q < NR_SCHED_QUEUES && q != s.prio[p] ==> s'.queues[q] == s.queues[q])
    && Distinct(s'.queues[s.prio[p]])
    && (forall x :: x in s'.queues[s.prio[p]] <==> if x == p then Runnable(s', p) else x in s.queues[s.prio[p]])
  }

  lemma MovedOk(s: Rq, s': Rq, p: nat)
    requires Moved(s, s', p)
    requires forall x: nat :: x < |s.flags| ==> HasQueue(s, x)
    requires forall q: nat :: q < NR_SCHED_QUEUES && q != s.prio[p] ==> QueueOk(s, q) && p !in s.queues[q]
    requires forall x :: x in s.queues[s.prio[p]] && x != p ==>
             x < |s.flags| && Runnable(s, x) && s.prio[x] == s.prio[p]
    requires forall x: nat :: x < |s.flags| && x != p && Runnable(s, x) ==> HasQueue(s, x) && x in s.queues[s.prio[x]]
    requires forall x: nat :: x < |s.flags| && Preempted in s'.flags[x] ==> x == s'.cur
    ensures RqOk(s')
  {
    forall q: nat | q < NR_SCHED_QUEUES ensures QueueOk(s', q) {
      if q != s.prio[p] { assert QueueOk(s, q); }
    }
    forall x: nat | x < |s.flags| ensures HasQueue(s', x) && (Runnable(s', x) ==> x in s'.queues[s'.prio[x]]) {
      assert HasQueue(s, x);
    }
  }

  /** A process is on no queue but that of its priority. */
  lemma ElsewhereNot(s: Rq, p: nat)
    requires RqOk(s) && p < |s.flags|
    ensures forall q: nat :: q < NR_SCHED_QUEUES && q != s.prio[p] ==> QueueOk(s, q) && p !in s.queues[q]
    ensures HasQueue(s, p) && QueueOk(s, s.prio[p])
  {
    assert HasQueue(s, p);
    forall q: nat | q < NR_SCHED_QUEUES ensures QueueOk(s, q) && (q != s.prio[p] ==> p !in s.queues[q]) {
      assert QueueOk(s, q);
    }
  }

  lemma SetOk(s: Rq, p: nat, f: set<Flag>)
    requires RqOk(s) && p < |s.flags| && (Preempted in f ==> p == s.cur)
    ensures RqOk(Set(s, p, f)) && Moved(s, Set(s, p, f), p)
  {
    ElsewhereNot(s, p);
    if Runnable(s, p) && f != {} { SetStops(s, p, f); } else { SetStays(s, p, f); }
    hide Set, Moved;
    SetCur(s, p, f);
    MovedOk(s, Set(s, p, f), p);
  }

  /** A runnable process is taken off its queue. */
  lemma SetStops(s: Rq, p: nat, f: set<Flag>)
    requires RqOk(s) && p < |s.flags| && Runnable(s, p) && f != {}
    ensures Moved(s, Set(s, p, f), p)
  {
    ElsewhereNot(s, p);
    assert s.flags[p] + f == f;
    WithoutOne(s.queues[s.prio[p]], IndexOf(s.queues[s.prio[p]], p, 0));
  }

  lemma SetStays(s: Rq, p: nat, f: set<Flag>)
    requires RqOk(s) && p < |s.flags| && (!Runnable(s, p) || f == {})
    ensures Moved(s, Set(s, p, f), p)
  {
    ElsewhereNot(s, p);
    if Runnable(s, p) { assert s.flags[p] + f == {}; }
  }

  lemma SetCur(s: Rq, p: nat, f: set<Flag>)
    requires RqOk(s) && p < |s.flags| && (Preempted in f ==> p == s.cur)
    ensures var r := Set(s, p, f);
            && |r.flags| == |s.flags| && r.cur == s.cur
            && forall x: nat :: x < |s.flags| && Preempted in r.flags[x] ==> x == r.cur
  {
    hide QueueOk;
  }

  lemma EnqueueOk(s: Rq, s0: Rq, p: nat)
    requires RqOk(s0) && p < |s0.flags| && !Runnable(s0, p)
    requires s == s0.(flags := s0.flags[p := {}])
    ensures RqOk(Append(s, p)) && Moved(s0, Append(s, p), p) && RqOk(Prepend(s, p)) && Moved(s0, Prepend(s, p), p)
    ensures RqOk(Enqueue(s, p))
  {
    ElsewhereNot(s0, p);
    var q := s.queues[s.prio[p]];
    assert p !in q;
    MovedOk(s0, Append(s, p), p);
    MovedOk(s0, Prepend(s, p), p);
    if s.cur >= 0 { SetOk(Append(s, p), s.cur, {Preempted}); }
  }

  lemma UnsetOk(s: Rq, p: nat, f: set<Flag>)
    requires RqOk(s) && p < |s.flags|
    ensures RqOk(Unset(s, p, f))
  {
    var s1 := s.(flags := s.flags[p := s.flags[p] - f]);
    if !Runnable(s, p) && Runnable(s1, p) {
      EnqueueOk(s1, s, p);
    } else {
      ElsewhereNot(s, p);
      MovedOk(s, s1, p);
    }
  }

  lemma ReprioritisedOk(s: Rq, p: nat, priority: int, quantum: int)
    requires RqOk(s) && p < |s.flags| && !Runnable(s, p) && InRange(priority, quantum)
    ensures RqOk(Reprioritised(s, p, priority, quantum)) <==> priority != NR_SCHED_QUEUES
  {
    var s' := Reprioritised(s, p, priority, quantum);
    if priority == NR_SCHED_QUEUES {
      assert !HasQueue(s', p);
    } else {
      forall x: nat | x < |s.flags| ensures HasQueue(s', x) { assert HasQueue(s, x); }
      forall q: nat | q < NR_SCHED_QUEUES ensures QueueOk(s', q) { assert QueueOk(s, q); }
    }
  }

  /** sched_proc keeps the invariant unless it is given the one priority its range test should
      refuse and does not. */
  lemma SchedOkIff(s: Rq, p: nat, priority: int, quantum: int)
    requires RqOk(s) && p < |s.flags|
    ensures RqOk(Sched(s, p, priority, quantum).0)
            <==> priority != NR_SCHED_QUEUES || (quantum < 1 && quantum != -1)
  {
    if InRange(priority, quantum) {
      if Runnable(s, p) { SetOk(s, p, {NoQuantum}); }
      var s1 := if Runnable(s, p) then Set(s, p, {NoQuantum}) else s;
      assert !Runnable(s1, p);
      ReprioritisedOk(s1, p, priority, quantum);
      var s2 := Reprioritised(s1, p, priority, quantum);
      if priority != NR_SCHED_QUEUES {
        UnsetOk(s2, p, {NoQuantum});
      } else {
        UnsetPrio(s2, p, {NoQuantum});
        assert !HasQueue(Unset(s2, p, {NoQuantum}), p);
      }
    }
  }

  /** With that priority the process is on no queue afterwards; it is lost to the scheduler, which
      takes it for runnable, exactly when nothing but its quantum kept it from running. */
  lemma SchedLoses(s: Rq, p: nat, quantum: int)
    requires RqOk(s) && p < |s.flags| && (quantum >= 1 || quantum == -1)
    ensures var r := Sched(s, p, NR_SCHED_QUEUES, quantum).0;
            && r.Shape() && |r.flags| == |s.flags| && (forall q: nat :: q < NR_SCHED_QUEUES ==> p !in r.queues[q])
            && (Runnable(r, p) <==> s.flags[p] <= {NoQuantum})
  {
    if Runnable(s, p) { SetOk(s, p, {NoQuantum}); }
    var s1 := if Runnable(s, p) then Set(s, p, {NoQuantum}) else s;
    ElsewhereNot(s1, p);
    OffQueue(s1, Reprioritised(s1, p, NR_SCHED_QUEUES, quantum), p);
  }

  lemma OffQueue(s: Rq, s2: Rq, p: nat)
    requires RqOk(s) && p < |s.flags| && !Runnable(s, p) && s2.Shape()
    requires s2.queues == s.queues && |s2.flags| == |s.flags|
    requires s2.flags == s.flags && s2.cur == s.cur && s2.prio == s.prio[p := NR_SCHED_QUEUES]
    ensures var r := Unset(s2, p, {NoQuantum});
            && r.queues == s.queues && r.flags == s.flags[p := s.flags[p] - {NoQuantum}]
            && forall q: nat :: q < NR_SCHED_QUEUES ==> p !in r.queues[q]
  {
    if s.cur >= 0 { assert HasQueue(s, s.cur); }
    forall q: nat | q < NR_SCHED_QUEUES ensures p !in s.queues[q] { assert QueueOk(s, q); }
  }

  lemma UnsetPrio(s: Rq, p: nat, f: set<Flag>)
    requires p < |s.flags| && s.Shape()
    ensures Unset(s, p, f).prio == s.prio
  {
  }

  lemma RequeueOk(s: Rq)
    requires RqOk(s)
    ensures RqOk(Requeue(s)) && (s.cur >= 0 ==> Preempted !in Requeue(s).flags[s.cur])
    ensures Requeue(s).cur == s.cur && |Requeue(s).flags| == |s.flags|
  {
    if s.cur >= 0 && Preempted in s.flags[s.cur] {
      var s1 := s.(flags := s.flags[s.cur := s.flags[s.cur] - {Preempted}]);
      if Runnable(s1, s.cur) {
        EnqueueOk(s1, s, s.cur);
      } else {
        ElsewhereNot(s, s.cur);
        MovedOk(s, s1, s.cur);
      }
    }
  }

  lemma SwitchOk(s: Rq)
    requires RqOk(s)
    ensures RqOk(Switch(s))
  {
    if !(s.cur >= 0 && Runnable(s, s.cur)) {
      RequeueOk(s);
      var s1 := Requeue(s);
      var r := Switch(s);
      PickRange(s1);
      forall q: nat | q < NR_SCHED_QUEUES ensures QueueOk(r, q) { assert QueueOk(s1, q); }
      forall x: nat | x < |s.flags| ensures HasQueue(r, x) { assert HasQueue(s1, x); }
    }
  }

  lemma PickRange(s: Rq)
    requires RqOk(s)
    ensures -1 <= Pick(s.queues, 0) < |s.flags|
  {
    var r := Pick(s.queues, 0);
    if r >= 0 {
      var i: nat :| i < |s.queues| && s.queues[i] != [] && s.queues[i][0] == r;
      assert QueueOk(s, i) && r in s.queues[i];
    }
  }

  // ---- pick_proc ----

  /** pick_proc finds a process exactly when one is runnable; it has the best priority of all
      runnable processes and is the first of its queue. */
  lemma PickBest(s: Rq)
    requires RqOk(s)
    ensures var r := Pick(s.queues, 0);
            && (r == -1 <==> forall p: nat :: p < |s.flags| ==> !Runnable(s, p))
            && (r != -1 ==>
                  && 0 <= r < |s.flags| && Runnable(s, r) && HasQueue(s, r)
                  && s.queues[s.prio[r]][..1] == [r]
                  && forall p: nat :: p < |s.flags| && Runnable(s, p) ==> s.prio[r] <= s.prio[p])
  {
    PickRange(s);
    var r := Pick(s.queues, 0);
    if r >= 0 {
      var i: nat :| i < |s.queues| && s.queues[i] != [] && s.queues[i][0] == r && forall j: nat :: j < i ==>
          s.queues[j] == [];
      assert QueueOk(s, i) && r in s.queues[i] && HasQueue(s, r);
      forall p: nat | p < |s.flags| && Runnable(s, p) ensures s.prio[r] <= s.prio[p] {
        assert HasQueue(s, p) && p in s.queues[s.prio[p]];
      }
    } else {
      forall p: nat | p < |s.flags| ensures !Runnable(s, p) { assert HasQueue(s, p); }
    }
  }

  // ---- The best process runs ----

  /** Unless the current process is about to be replaced or may not be preempted, nobody
      with a better priority is runnable. */
  ghost predicate BestRuns(s: Rq) {
    && s.Shape()
    && (s.cur >= 0 && s.preemptible[s.cur] && Preempted !in s.flags[s.cur] ==>
          forall p: nat :: p < |s.flags| && Runnable(s, p) ==> s.prio[s.cur] <= s.prio[p])
  }

  lemma SetBest(s: Rq, p: nat, f: set<Flag>)
    requires BestRuns(s) && p < |s.flags|
    ensures BestRuns(Set(s, p, f))
  {
  }

  lemma UnsetBest(s: Rq, p: nat, f: set<Flag>)
    requires BestRuns(s) && p < |s.flags| && Preempted !in f
    ensures BestRuns(Unset(s, p, f))
  {
  }

  lemma SwitchBest(s: Rq)
    requires RqOk(s) && BestRuns(s)
    ensures BestRuns(Switch(s))
  {
    if !(s.cur >= 0 && Runnable(s, s.cur)) {
      RequeueOk(s);
      PickBest(Requeue(s));
    }
  }

  lemma SchedBest(s: Rq, p: nat, priority: int, quantum: int)
    requires BestRuns(s) && p < |s.flags| && p != s.cur
    ensures BestRuns(Sched(s, p, priority, quantum).0)
  {
    if InRange(priority, quantum) {
      var s1 := if Runnable(s, p) then Set(s, p, {NoQuantum}) else s;
      UnsetBest(Reprioritised(s1, p, priority, quantum), p, {NoQuantum});
    }
  }

  /** sched_proc on the running process itself does not compare it with the waiting ones. */
  lemma SchedCurrentIff(s: Rq, priority: int, quantum: int)
    requires RqOk(s) && s.cur >= 0 && Runnable(s, s.cur) && s.preemptible[s.cur]
    requires InRange(priority, quantum) && priority != -1
    ensures BestRuns(Sched(s, s.cur, priority, quantum).0)
            <==> forall p: nat :: p < |s.flags| && Runnable(s, p) && p != s.cur ==> priority <= s.prio[p]
  {
    var s1 := Set(s, s.cur, {NoQuantum});
    var r := Sched(s, s.cur, priority, quantum).0;
    assert r.flags[s.cur] == {};
    assert forall p: nat :: p < |s.flags| && p != s.cur ==> r.flags[p] == s.flags[p] && r.prio[p] == s.prio[p];
    assert r.prio[s.cur] == priority;
  }

  // ---- Runs ----

  /** Steps of the kernel; only enqueue marks a process preempted and only switch_to_user
      takes the mark away.  Tick: the current process uses up some of its quantum. */
  datatype Event =
    | SetFlags(p: nat, f: set<Flag>)
    | UnsetFlags(p: nat, f: set<Flag>)
    | SchedProc(p: nat, priority: int, quantum: int)
    | SwitchToUser
    | Tick(left: nat)

  ghost predicate Enabled(s: Rq, ev: Event) {
    match ev
    case SetFlags(p, f) => p < |s.flags| && Preempted !in f
    case UnsetFlags(p, f) => p < |s.flags| && Preempted !in f
    case SchedProc(p, priority, quantum) => p < |s.flags| && priority != NR_SCHED_QUEUES
    case SwitchToUser => true
    case Tick(left) => s.cur >= 0
  }

  function Apply(s: Rq, ev: Event): Rq
    requires s.Shape() && Enabled(s, ev)
  {
    match ev
    case SetFlags(p, f) => Set(s, p, f)
    case UnsetFlags(p, f) => Unset(s, p, f)
    case SchedProc(p, priority, quantum) => Sched(s, p, priority, quantum).0
    case SwitchToUser => Switch(s)
    case Tick(left) => s.(timeLeft := s.timeLeft[s.cur := left])
  }

  lemma StepOk(s: Rq, ev: Event)
    requires RqOk(s) && Enabled(s, ev)
    ensures RqOk(Apply(s, ev))
  {
    match ev
    case SetFlags(p, f) => SetOk(s, p, f);
    case UnsetFlags(p, f) => UnsetOk(s, p, f);
    case SchedProc(p, priority, quantum) => SchedOkIff(s, p, priority, quantum);
    case SwitchToUser => SwitchOk(s);
    case Tick(left) =>
      var r := Apply(s, ev);
      forall q: nat | q < NR_SCHED_QUEUES ensures QueueOk(r, q) { assert QueueOk(s, q); }
      forall x: nat | x < |s.flags| ensures HasQueue(r, x) { assert HasQueue(s, x); }
  }

  /** Before the first process is made runnable every slot has some flag set. */
  ghost predicate Fresh(s: Rq) {
    && s.Shape() && s.cur == -1 && s.queues == seq(NR_SCHED_QUEUES, _ => [])
    && forall p: nat :: p < |s.flags| ==> s.flags[p] != {} && Preempted !in s.flags[p] && HasQueue(s, p)
  }

  ghost predicate Run(states: seq<Rq>, events: seq<Event>) {
    && |states| == |events| + 1 && Fresh(states[0])
    && forall i: nat :: i < |events| ==>
         states[i].Shape() && Enabled(states[i], events[i]) && states[i + 1] == Apply(states[i], events[i])
  }

  /** Every reachable state has proper run queues. */
  lemma {:induction false} RunOk(states: seq<Rq>, events: seq<Event>, i: nat)
    requires Run(states, events) && i <= |events|
    ensures RqOk(states[i])
  {
    if i > 0 {
      RunOk(states, events, i - 1);
      StepOk(states[i - 1], events[i - 1]);
    }
  }

  /** In a run in which sched_proc is not applied to the current process, a preemptible
      process that goes on to run in user mode has the best priority there is. */
  lemma {:induction false} RunBest(states: seq<Rq>, events: seq<Event>, i: nat)
    requires Run(states, events) && i <= |events|
    requires forall k: nat :: k < i && events[k].SchedProc? ==> events[k].p != states[k].cur
    ensures BestRuns(states[i])
  {
    hide BestRuns, Apply, Fresh, RqOk;
    if i == 0 {
      FreshBest(states[0]);
    } else {
      RunBest(states, events, i - 1);
      RunOk(states, events, i - 1);
      StepBest(states[i - 1], events[i - 1]);
    }
  }

  lemma FreshBest(s: Rq)
    requires Fresh(s)
    ensures BestRuns(s)
  {
  }

  lemma StepBest(s: Rq, ev: Event)
    requires RqOk(s) && BestRuns(s) && Enabled(s, ev) && (ev.SchedProc? ==> ev.p != s.cur)
    ensures BestRuns(Apply(s, ev))
  {
    match ev
    case SetFlags(p, f) => SetBest(s, p, f);
    case UnsetFlags(p, f) => UnsetBest(s, p, f);
    case SchedProc(p, priority, quantum) => SchedBest(s, p, priority, quantum);
    case SwitchToUser => SwitchBest(s);
    case Tick(left) =>
  }

  // ---- A run that ends badly ----

  function Lined(five: seq<nat>, ten: seq<nat>): seq<seq<nat>> {
    seq(NR_SCHED_QUEUES, _ => [])[5 := five][10 := ten]
  }

  lemma LinedMore(five: seq<nat>, p: nat)
    ensures Lined(five, [])[5] == five && Lined(five, [])[5 := five + [p]] == Lined(five + [p], [])
  {
    var a, b := Lined(five, [])[5 := five + [p]], Lined(five + [p], []);
    forall i: nat | i < NR_SCHED_QUEUES ensures a[i] == b[i] { }
  }

  /** Two processes of priority 5 become runnable and the first is chosen. */
  function Two(k: nat): Rq
    requires k <= 3
  {
    var flags := if k == 0 then [{SlotFree}, {SlotFree}] else if k == 1 then [{}, {SlotFree}] else [{}, {}];
    var five := if k == 0 then [] else if k == 1 then [0] else [0, 1];
    Rq(flags, [5, 5], [true, true], [1, 1], Lined(five, []), if k == 3 then 0 else -1)
  }

  lemma FirstRunnable()
    ensures Apply(Two(0), UnsetFlags(0, {SlotFree})) == Two(1)
  {
    var s, r := Two(0), Apply(Two(0), UnsetFlags(0, {SlotFree}));
    assert s.flags[0] - {SlotFree} == {};
    LinedMore([], 0);
    assert [] + [0] == [0] && r.flags == Two(1).flags && r.queues == s.queues[5 := s.queues[5] + [0]];
  }

  lemma SecondRunnable()
    ensures Apply(Two(1), UnsetFlags(1, {SlotFree})) == Two(2)
  {
    var s, r := Two(1), Apply(Two(1), UnsetFlags(1, {SlotFree}));
    assert s.flags[1] - {SlotFree} == {};
    LinedMore([0], 1);
    assert [0] + [1] == [0, 1] && r.flags == Two(2).flags && r.queues == s.queues[5 := s.queues[5] + [1]];
  }

  lemma FirstChosen()
    ensures Apply(Two(2), SwitchToUser) == Two(3)
  {
    assert forall j: nat :: j < 5 ==> Two(2).queues[j] == [];
    assert Two(2).queues[5][0] == 0;
  }

  lemma TwoReached()
    ensures Run([Two(0), Two(1), Two(2), Two(3)], [UnsetFlags(0, {SlotFree}), UnsetFlags(1, {SlotFree}), SwitchToUser])
  {
    hide Two, Apply, Fresh;
    assert Fresh(Two(0)) by { TwoFresh(); }
    FirstRunnable();
    SecondRunnable();
    FirstChosen();
    TwoShapes();
  }

  lemma TwoShapes()
    ensures forall k: nat :: k <= 3 ==> Two(k).Shape() && |Two(k).flags| == 2
  {
  }

  lemma TwoFresh()
    ensures Fresh(Two(0))
  {
    assert Lined([], []) == seq(NR_SCHED_QUEUES, _ => []);
  }

  /** From there sched_proc can leave the running process running although a better one waits. */
  lemma WaitingReached()
    ensures var r := Sched(Two(3), 0, 10, -1).0;
            && r.cur == 0 && Runnable(r, 0) && Switch(r) == r && r.preemptible[0]
            && Runnable(r, 1) && r.prio[1] < r.prio[0] && !BestRuns(r)
  {
    var s := Two(3);
    var s1 := s.(flags := s.flags[0 := {} + {NoQuantum}]);
    assert {} + {NoQuantum} == {NoQuantum} && !Runnable(s1, 0);
    assert Set(s, 0, {NoQuantum}) == Dequeue(s1, 0);
    assert {NoQuantum} - {NoQuantum} == {};
  }

  /** And with the number of queues as a priority it loses a process. */
  lemma LostReached()
    ensures var r := Sched(Two(3), 1, NR_SCHED_QUEUES, -1).0;
            r.Shape() && Runnable(r, 1) && forall q: nat :: q < NR_SCHED_QUEUES ==> 1 !in r.queues[q]
  {
    TwoReached();
    var events := [UnsetFlags(0, {SlotFree}), UnsetFlags(1, {SlotFree}), SwitchToUser];
    RunOk([Two(0), Two(1), Two(2), Two(3)], events, 3);
    SchedLoses(Two(3), 1, -1);
  }

  // ---- Order within a queue ----

  lemma BeforeJoined(q: seq<nat>, p: nat, x: nat, y: nat)
    requires Before(q, x, y)
    ensures Before(q + [p], x, y) && Before([p] + q, x, y)
  {
    var i: nat, j: nat :| i < j < |q| && q[i] == x && q[j] == y;
    assert (q + [p])[i] == x && (q + [p])[j] == y;
    assert ([p] + q)[i + 1] == x && ([p] + q)[j + 1] == y;
  }

  /** x is ahead of y on queue n. */
  ghost predicate Ahead(s: Rq, n: nat, x: nat, y: nat) {
    n < |s.queues| && Before(s.queues[n], x, y)
  }

  lemma SetOrder(s: Rq, p: nat, f: set<Flag>, n: nat, x: nat, y: nat)
    requires RqOk(s) && p < |s.flags| && Ahead(s, n, x, y) && (Preempted in f ==> p == s.cur)
    requires p == x || p == y ==> p in Set(s, p, f).queues[n]
    ensures Ahead(Set(s, p, f), n, x, y)
  {
    SetOk(s, p, f);
    ElsewhereNot(s, p);
    assert QueueOk(s, n) && QueueOk(Set(s, p, f), n);
    if Runnable(s, p) && f != {} {
      assert s.flags[p] + f == f;
      var k := IndexOf(s.queues[s.prio[p]], p, 0);
      if n == s.prio[p] && p != x && p != y { BeforeWithout(s.queues[n], k, x, y); }
    } else if Runnable(s, p) {
      assert s.flags[p] + f == {};
    }
  }

  lemma EnqueueOrder(s: Rq, s0: Rq, p: nat, n: nat, x: nat, y: nat)
    requires RqOk(s0) && p < |s0.flags| && !Runnable(s0, p) && s == s0.(flags := s0.flags[p := {}])
    requires Ahead(s, n, x, y) && x in Enqueue(s, p).queues[n] && y in Enqueue(s, p).queues[n]
    ensures Ahead(Enqueue(s, p), n, x, y)
  {
    EnqueueOk(s, s0, p);
    var s1 := Append(s, p);
    BeforeJoined(s.queues[n], p, x, y);
    if s.cur >= 0 && s.prio[s.cur] > s.prio[p] && s.preemptible[s.cur] { SetOrder(s1, s.cur, {Preempted}, n, x, y); }
  }

  lemma UnsetOrder(s: Rq, p: nat, f: set<Flag>, n: nat, x: nat, y: nat)
    requires RqOk(s) && p < |s.flags| && Ahead(s, n, x, y)
    requires x in Unset(s, p, f).queues[n] && y in Unset(s, p, f).queues[n]
    ensures Ahead(Unset(s, p, f), n, x, y)
  {
    var s1 := s.(flags := s.flags[p := s.flags[p] - f]);
    if !Runnable(s, p) && Runnable(s1, p) { EnqueueOrder(s1, s, p, n, x, y); }
  }

  lemma SchedOrder(s: Rq, p: nat, priority: int, quantum: int, n: nat, x: nat, y: nat)
    requires RqOk(s) && p < |s.flags| && Ahead(s, n, x, y) && p != x && p != y && priority != NR_SCHED_QUEUES
    requires var r := Sched(s, p, priority, quantum).0; n < |r.queues| && x in r.queues[n] && y in r.queues[n]
    ensures Ahead(Sched(s, p, priority, quantum).0, n, x, y)
  {
    if InRange(priority, quantum) {
      var s1 := if Runnable(s, p) then Set(s, p, {NoQuantum}) else s;
      if Runnable(s, p) { SetOk(s, p, {NoQuantum}); SetOrder(s, p, {NoQuantum}, n, x, y); }
      var s2 := Reprioritised(s1, p, priority, quantum);
      ReprioritisedOk(s1, p, priority, quantum);
      hide Unset, Set;
      UnsetOrder(s2, p, {NoQuantum}, n, x, y);
    }
  }

  /** A process that is ahead of another stays ahead for as long as both are on the queue,
      unless one of them is rescheduled. */
  lemma StepOrder(s: Rq, ev: Event, n: nat, x: nat, y: nat)
    requires RqOk(s) && Enabled(s, ev) && Ahead(s, n, x, y) && !(ev.SchedProc? && (ev.p == x || ev.p == y))
    requires var r := Apply(s, ev); n < |r.queues| && x in r.queues[n] && y in r.queues[n]
    ensures Ahead(Apply(s, ev), n, x, y)
  {
    match ev
    case SetFlags(p, f) => SetOrder(s, p, f, n, x, y);
    case UnsetFlags(p, f) => UnsetOrder(s, p, f, n, x, y);
    case SchedProc(p, priority, quantum) => SchedOrder(s, p, priority, quantum, n, x, y);
    case SwitchToUser => RequeueOrder(s, n, x, y);
    case Tick(left) =>
  }

  lemma RequeueOrder(s: Rq, n: nat, x: nat, y: nat)
    requires RqOk(s) && Ahead(s, n, x, y)
    requires n < |Requeue(s).queues| && x in Requeue(s).queues[n] && y in Requeue(s).queues[n]
    ensures Ahead(Requeue(s), n, x, y)
  {
    if s.cur >= 0 && Preempted in s.flags[s.cur] {
      BeforeJoined(s.queues[n], s.cur, x, y);
    }
  }

  /** A process that joins a queue joins at the end, except that a process preempted with
      time left goes back to the front. */
  lemma StepJoins(s: Rq, ev: Event, n: nat, p: nat)
    requires RqOk(s) && Enabled(s, ev) && n < NR_SCHED_QUEUES && p !in s.queues[n]
    requires var r := Apply(s, ev); n < |r.queues| && p in r.queues[n]
    ensures var q := Apply(s, ev).queues[n];
            q[|q| - 1] == p
            || (ev.SwitchToUser? && p == s.cur && Preempted in s.flags[p] && s.timeLeft[p] != 0 && q[0] == p)
  {
    hide Set, Unset, Sched, RqOk, Switch;
    match ev
    case SetFlags(x, f) => SetJoins(s, x, f, n, p);
    case UnsetFlags(x, f) => UnsetJoins(s, x, f, n, p);
    case SchedProc(x, priority, quantum) => SchedJoins(s, x, priority, quantum, n, p);
    case SwitchToUser => SwitchJoins(s, n, p);
    case Tick(left) =>
  }

  /** Nobody joins when flags are set. */
  lemma SetJoins(s: Rq, x: nat, f: set<Flag>, n: nat, p: nat)
    requires RqOk(s) && x < |s.flags| && Preempted !in f && n < NR_SCHED_QUEUES && p !in s.queues[n]
    ensures n < |Set(s, x, f).queues| && p !in Set(s, x, f).queues[n]
  {
    SetOk(s, x, f);
    assert QueueOk(Set(s, x, f), n);
  }

  lemma SwitchJoins(s: Rq, n: nat, p: nat)
    requires RqOk(s) && n < NR_SCHED_QUEUES && p !in s.queues[n]
    requires var r := Switch(s); n < |r.queues| && p in r.queues[n]
    ensures var q := Switch(s).queues[n];
            q[|q| - 1] == p || (p == s.cur && Preempted in s.flags[p] && s.timeLeft[p] != 0 && q[0] == p)
  {
    hide RqOk, Pick;
  }

  lemma EnqueueJoins(s: Rq, s0: Rq, x: nat, n: nat, p: nat)
    requires RqOk(s0) && x < |s0.flags| && !Runnable(s0, x) && s == s0.(flags := s0.flags[x := {}])
    requires n < NR_SCHED_QUEUES && p !in s.queues[n] && p in Enqueue(s, x).queues[n]
    ensures var q := Enqueue(s, x).queues[n]; p == x && q[|q| - 1] == p
  {
    EnqueueOk(s, s0, x);
    var s1 := Append(s, x);
    if s.cur >= 0 && s.prio[s.cur] > s.prio[x] && s.preemptible[s.cur] {
      SetOk(s1, s.cur, {Preempted});
      assert n == s.prio[x] ==> Set(s1, s.cur, {Preempted}).queues[n] == s1.queues[n];
    }
  }

  lemma UnsetJoins(s: Rq, x: nat, f: set<Flag>, n: nat, p: nat)
    requires RqOk(s) && x < |s.flags| && n < NR_SCHED_QUEUES && p !in s.queues[n] && p in Unset(s, x, f).queues[n]
    ensures var q := Unset(s, x, f).queues[n]; p == x && q[|q| - 1] == p
  {
    var s1 := s.(flags := s.flags[x := s.flags[x] - f]);
    if !Runnable(s, x) && Runnable(s1, x) { EnqueueJoins(s1, s, x, n, p); }
  }

  lemma SchedJoins(s: Rq, x: nat, priority: int, quantum: int, n: nat, p: nat)
    requires RqOk(s) && x < |s.flags| && priority != NR_SCHED_QUEUES && n < NR_SCHED_QUEUES && p !in s.queues[n]
    requires var r := Sched(s, x, priority, quantum).0; n < |r.queues| && p in r.queues[n]
    ensures var q := Sched(s, x, priority, quantum).0.queues[n]; q[|q| - 1] == p
  {
    hide Unset, Set, Runnable, Reprioritised, QueueOk, HasQueue;
    if InRange(priority, quantum) {
      StopOk(s, x, n, p);
      RestartJoins(if Runnable(s, x) then Set(s, x, {NoQuantum}) else s, x, priority, quantum, n, p);
    }
  }

  lemma RestartJoins(s: Rq, x: nat, priority: int, quantum: int, n: nat, p: nat)
    requires RqOk(s) && x < |s.flags| && !Runnable(s, x) && InRange(priority, quantum) && priority != NR_SCHED_QUEUES
    requires n < NR_SCHED_QUEUES && p !in s.queues[n]
    requires var r := Unset(Reprioritised(s, x, priority, quantum), x, {NoQuantum}); n < |r.queues| && p in r.queues[n]
    ensures var q := Unset(Reprioritised(s, x, priority, quantum), x, {NoQuantum}).queues[n]; q[|q| - 1] == p
  {
    hide Unset, Runnable;
    ReprioritisedOk(s, x, priority, quantum);
    UnsetJoins(Reprioritised(s, x, priority, quantum), x, {NoQuantum}, n, p);
  }

  lemma StopOk(s: Rq, x: nat, n: nat, p: nat)
    requires RqOk(s) && x < |s.flags| && n < NR_SCHED_QUEUES && p !in s.queues[n]
    ensures var r := if Runnable(s, x) then Set(s, x, {NoQuantum}) else s;
            RqOk(r) && r.Shape() && |r.flags| == |s.flags| && n < |r.queues| && p !in r.queues[n] && !Runnable(r, x)
  {
    if Runnable(s, x) { SetOk(s, x, {NoQuantum}); }
  }

  /** First come, first served over a run. */
  lemma {:induction false} RunOrder(states: seq<Rq>, events: seq<Event>, i: nat, j: nat, n: nat, x: nat, y: nat)
    requires Run(states, events) && i <= j <= |events| && Ahead(states[i], n, x, y)
    requires forall k: nat :: i <= k <= j ==>
             n < |states[k].queues| && x in states[k].queues[n] && y in states[k].queues[n]
    requires forall k: nat :: i <= k < j && events[k].SchedProc? ==> events[k].p != x && events[k].p != y
    ensures Ahead(states[j], n, x, y)
  {
    hide RqOk, Ahead, Apply, Fresh, Enabled;
    if i < j {
      RunOrder(states, events, i, j - 1, n, x, y);
      RunOk(states, events, j - 1);
      assert states[j] == Apply(states[j - 1], events[j - 1]);
      StepOrder(states[j - 1], events[j - 1], n, x, y);
    }
  }
}
