/**
 What the invariant says about every run, in terms of processes and messages: no deadlock
 cycle, no missed rendezvous, every message in one place, first come first served; and
 where the kernel falls short of it.
 */
module IpcLaws {
  import opened Fifo
  import opened WaitGraph
  import opened Ipc
  import opened IpcInv
  import opened IpcClear
  import opened IpcAsync
  import opened IpcRun

  // ---- Every reachable state ----

  /** No process waits for itself, directly or through others. */
  lemma NoCycle(states: seq<State>, events: seq<Event>, i: nat, x: nat, n: nat)
    requires Run(states, events) && i <= |events| && x < |states[i].procs| && n > 0
    ensures Nth(Graph(states[i]), x, n) != x
  {
    RunInv(states, events, i);
  }

  /** A process that waits has no acceptable blocked sender and, unless it waits for a reply,
      no acceptable notification. */
  lemma NoMissedRendezvous(states: seq<State>, events: seq<Event>, i: nat, p: nat, q: nat)
    requires Run(states, events) && i <= |events|
    requires var s := states[i]; p < |s.procs| && q < |s.procs| && WillReceive(s.procs[p], q)
    ensures var s := states[i];
            && !(s.procs[q].sending && s.procs[q].sendTo == P(p))
            && (q in s.procs[p].notify ==> s.procs[p].replyPend)
  {
    RunInv(states, events, i);
    var s := states[i];
    assert ReceiverOk(s, p) && SenderOk(s, q);
  }

  /** A process is sending exactly when it is on a queue: once, on that of its target. */
  lemma SendingIffQueued(states: seq<State>, events: seq<Event>, i: nat, p: nat)
    requires Run(states, events) && i <= |events| && p < |states[i].procs|
    ensures var s := states[i];
            && |s.queues| == |s.procs|
            && (s.procs[p].sending <==> exists d: nat :: d < |s.procs| && p in s.queues[d])
            && (forall d: nat :: d < |s.procs| && p in s.queues[d] ==> s.procs[p].sendTo == P(d))
            && (forall d: nat, j: nat, k: nat ::
                  d < |s.procs| && j < k < |s.queues[d]| && s.queues[d][j] == p ==> s.queues[d][k] != p)
  {
    RunInv(states, events, i);
    hide Run, Asy;
    SendingQueued(states[i], p);
  }

  lemma SendingQueued(s: State, p: nat)
    requires Rdv(s) && p < |s.procs|
    ensures s.procs[p].sending <==> exists d: nat :: d < |s.procs| && p in s.queues[d]
    ensures forall d: nat :: d < |s.procs| && p in s.queues[d] ==> s.procs[p].sendTo == P(d)
    ensures forall d: nat, j: nat, k: nat ::
              d < |s.procs| && j < k < |s.queues[d]| && s.queues[d][j] == p ==> s.queues[d][k] != p
  {
    assert SenderOk(s, p);
    forall d: nat | d < |s.procs| && p in s.queues[d] ensures s.procs[p].sending && s.procs[p].sendTo == P(d) {
      assert QueueOk(s, d);
    }
    forall d: nat, j: nat, k: nat | d < |s.procs| && j < k < |s.queues[d]| && s.queues[d][j] == p
      ensures s.queues[d][k] != p
    {
      assert QueueOk(s, d);
    }
  }

  predicate Holds(p: Proc, id: nat) { p.sending && p.sendMsg.body == Sync(id) }

  predicate Carries(p: Proc, id: nat) { p.deliver && p.deliverMsg.body == Sync(id) }

  /** Message id is with its sender, with its receiver, or nowhere any more, as recorded. */
  ghost predicate InOnePlace(s: State, id: nat)
    requires id < |s.mail|
  {
    var m := s.mail[id];
    && m.from < |s.procs| && m.to < |s.procs|
    && (forall p: nat :: p < |s.procs| ==> (Holds(s.procs[p], id) <==> p == m.from && m.place == WithSender))
    && (forall p: nat :: p < |s.procs| ==> (Carries(s.procs[p], id) <==> p == m.to && m.place == WithReceiver))
  }

  lemma OnePlace(states: seq<State>, events: seq<Event>, i: nat, id: nat)
    requires Run(states, events) && i <= |events| && id < |states[i].mail|
    ensures InOnePlace(states[i], id)
  {
    RunInv(states, events, i);
    var s := states[i];
    assert MailOk(s, id);
    forall p: nat | p < |s.procs|
      ensures Holds(s.procs[p], id) <==> p == s.mail[id].from && s.mail[id].place == WithSender
    {
      assert SenderOk(s, p);
    }
    forall p: nat | p < |s.procs|
      ensures Carries(s.procs[p], id) <==> p == s.mail[id].to && s.mail[id].place == WithReceiver
    {
      assert DeliveryOk(s, p);
    }
  }

  /** An entry of a live sender that is not done is registered, its destination is alive, and
      the sender's bit is set there. */
  lemma NotLost(states: seq<State>, events: seq<Event>, i: nat, src: nat, k: nat)
    requires Run(states, events) && i <= |events|
    requires var s := states[i];
             && src < |s.procs| && !s.procs[src].free && !s.procs[src].noEndpoint
             && k < |s.procs[src].table| && Undone(s.procs[src].table[k])
    ensures var s := states[i]; var e := s.procs[src].table[k];
            && s.procs[src].reg && Live(s, e.dst) && !s.procs[e.dst.nr].noEndpoint
            && src in s.procs[e.dst.nr].asyn
  {
    RunInv(states, events, i);
    assert TableOk(states[i], src, -1) && EntryOk(states[i], src, k, -1);
  }

  /** No entry of a submission is delivered twice, and a delivered one is marked done. */
  lemma AtMostOnce(states: seq<State>, events: seq<Event>, i: nat, j: nat, k: nat)
    requires Run(states, events) && i <= |events| && j < |states[i].log| && k < |states[i].log|
    ensures j != k ==> states[i].log[j] != states[i].log[k]
    ensures var (q, e, x) := states[i].log[j]; Past(states[i], q, e, x)
  {
    RunInv(states, events, i);
  }

  // ---- What a step does to messages ----

  ghost predicate Drops(ev: Event) { ev.Clear? || ev.Free? }

  /** Mail only moves forward, only clearing an endpoint drops any, and p_delivermsg is emptied
      only by its delivery. */
  ghost predicate Conserves(s: State, r: State, ev: Event) {
    && |r.procs| == |s.procs| && MailOnward(s.mail, r.mail, Drops(ev))
    && forall p: nat :: p < |s.procs| && s.procs[p].deliver && ev != Deliver(p) ==>
         r.procs[p].deliver && r.procs[p].deliverMsg == s.procs[p].deliverMsg
  }

  lemma StepConserves(s: State, ev: Event)
    requires Inv(s) && Enabled(s, ev)
    ensures Conserves(s, Apply(s, ev), ev)
  {
    AlwaysDefined(s, ev);
    ShapeOf(s);
    hide Rdv, Asy, AsyBut, Masks, DoSyncIpc, MiniSenda, MiniSend, MiniNotify, ClearEndpoint, HandOver, Onward, Checks,
         MailOnward, Conserves;
    match ev
    case SyncCall(c, call, e) =>
      SyncOnward(s, c, call, e);
      OnwardConserves(s, Apply(s, ev), ev);
    case Submit(c, table) =>
      SendaKeeps(s, c, table);
      OnwardConserves(s, Apply(s, ev), ev);
    case KernelSend(c, d) => KernelConserves(s, ev);
    case KernelNotify(src, d) => KernelConserves(s, ev);
    case Deliver(p) => HandConserves(s, p);
    case Clear(p) => ClearConserves(s, p, ev);
    case Free(p) => ClearConserves(s, p, ev);
  }

  lemma ClearConserves(s: State, p: nat, ev: Event)
    requires Inv(s) && Enabled(s, ev) && (ev == Clear(p) || ev == Free(p))
    ensures Conserves(s, Apply(s, ev), ev)
  {
    AlwaysDefined(s, ev);
    ShapeOf(s);
    hide Rdv, Asy, AsyBut, Masks, ClearEndpoint, MailOnward;
    ClearKept(s, p);
  }

  lemma KernelConserves(s: State, ev: Event)
    requires Inv(s) && Enabled(s, ev) && (ev.KernelSend? || ev.KernelNotify?)
    ensures Conserves(s, Apply(s, ev), ev)
  {
    AlwaysDefined(s, ev);
    ShapeOf(s);
    hide Rdv, Asy, Masks, MiniSend, MiniNotify, Onward, Conserves;
    if ev.KernelSend? {
      SendStepKeeps(s, ev.c, ev.d, false, true);
    } else {
      NotifyKeeps(s, ev.src, ev.d);
    }
    OnwardConserves(s, Apply(s, ev), ev);
  }

  lemma OnwardConserves(s: State, r: State, ev: Event)
    requires Onward(s, r)
    ensures Conserves(s, r, ev)
  {
  }

  lemma HandConserves(s: State, p: nat)
    requires Rdv(s) && p < |s.procs| && s.procs[p].deliver
    ensures Conserves(s, HandOver(s, p), Deliver(p))
  {
    assert DeliveryOk(s, p);
  }

  lemma SyncOnward(s: State, c: nat, call: Call, e: Ep)
    requires Inv(s) && QueueRange(s) && CanCall(s, c) && call != SENDA && !(call == RECEIVE && e == P(c))
    ensures Onward(s, DoSyncIpc(s, c, call, e).0)
  {
    hide Rdv, AsyBut, MiniSend, MiniReceive, Onward;
    assert s.Shape() by { ShapeOf(s); }
    OnwardSelf(s);
    if Checks(s, c, call, e) == OK {
      match call
      case SEND => SendStepKeeps(s, c, e.nr, false, false);
      case SENDNB => SendStepKeeps(s, c, e.nr, true, false);
      case NOTIFY => NotifyKeeps(s, c, e.nr);
      case RECEIVE =>
        var s0 := WithReplyPend(s, c, false);
        ReplyPendKeeps(s, c, false);
        ReplyInv(s, c, false);
        ReceiveKeeps(s0, c, e);
        OnwardTrans(s, s0, MiniReceive(s0, c, e).0);
      case SENDREC => SendRecOnward(s, c, e.nr);
    }
  }

  lemma SendRecOnward(s: State, c: nat, d: nat)
    requires Inv(s) && QueueRange(s) && CanCall(s, c) && Live(s, P(d)) && d != c
    ensures var (s1, r) := MiniSend(WithReplyPend(s, c, true), c, d, false, false);
            Onward(s, s1) && (r == OK ==> QueueRange(s1) && Onward(s, MiniReceive(s1, c, P(d)).0))
  {
    hide Rdv, AsyBut, MiniSend, MiniReceive, Onward;
    assert s.Shape() by { ShapeOf(s); }
    ReplyInv(s, c, true);
    ReplyPendKeeps(s, c, true);
    var s0 := WithReplyPend(s, c, true);
    SendStepKeeps(s0, c, d, false, false);
    var (s1, r) := MiniSend(s0, c, d, false, false);
    OnwardTrans(s, s0, s1);
    InvRange(s1);
    if r == OK {
      OnwardSetup(s0, s1);
      ReceiveKeeps(s1, c, P(d));
      OnwardTrans(s, s1, MiniReceive(s1, c, P(d)).0);
    }
  }

  lemma ClearKept(s: State, rc: nat)
    requires Inv(s) && rc < |s.procs| && !s.procs[rc].free
    ensures AsynOk(s, rc) && Kept(s, ClearEndpoint(s, rc), true)
  {
    hide Rdv, AsyBut, ClearRefs, CancelAll, ClearIpc;
    assert s.Shape() by { ShapeOf(s); }
    InvAsyn(s, rc);
    MarkedOk(s, rc);
    MarkedKept(s, rc);
    var s2 := Marked1(s, rc);
    CancelAllKeeps(s2, rc);
    var s3 := CancelAll(s2, rc);
    ClearRefsKeeps(s3, rc, 0);
    var r := ClearRefs(s3, rc, 0);
    hide Kept;
    KeptTrans(s, s2, s3, true);
    KeptTrans(s, s3, r, true);
  }

  lemma MarkedKept(s: State, rc: nat)
    requires Rdv(s) && rc < |s.procs|
    ensures Kept(s, Marked1(s, rc), true)
  {
    var s1 := s.Put(rc, s.procs[rc].(noEndpoint := true, reg := s.procs[rc].reg && !s.procs[rc].sys));
    hide Rdv, ClearIpc;
    assert s.Shape() by { ShapeOf(s); }
    SameRdvKeeps(s, s1);
    ClearIpcOnward(s1, rc);
  }

  lemma KeptTrans(a: State, b: State, c: State, drop: bool)
    requires Kept(a, b, drop) && (Kept(b, c, drop) || Kept(b, c, false))
    ensures Kept(a, c, drop)
  {
  }

  lemma AfterStep(states: seq<State>, events: seq<Event>, k: nat)
    requires Run(states, events) && k < |events|
    ensures Conserves(states[k], states[k + 1], events[k])
  {
    RunInv(states, events, k);
    assert Enabled(states[k], events[k]) && states[k + 1] == Apply(states[k], events[k]);
    hide Inv, Apply, Conserves, Enabled;
    StepConserves(states[k], events[k]);
  }

  /** Over a run messages go from sender to receiver to delivered and never back; none is
      dropped unless an endpoint is cleared. */
  lemma {:induction false} MailMovesForward(states: seq<State>, events: seq<Event>, i: nat, j: nat, drop: bool)
    requires Run(states, events) && i <= j <= |events|
    requires drop || forall k: nat :: i <= k < j ==> !Drops(events[k])
    ensures MailOnward(states[i].mail, states[j].mail, drop)
  {
    hide Apply, Enabled, Fresh;
    if i < j {
      MailMovesForward(states, events, i, j - 1, drop);
      AfterStep(states, events, j - 1);
    }
  }

  /** A message in p_delivermsg stays there until it is delivered. */
  lemma {:induction false} NeverOverwritten(states: seq<State>, events: seq<Event>, i: nat, j: nat, p: nat)
    requires Run(states, events) && i <= j <= |events|
    requires p < |states[i].procs| && states[i].procs[p].deliver
    requires forall k: nat :: i <= k < j ==> events[k] != Deliver(p)
    ensures p < |states[j].procs| && states[j].procs[p].deliver
    ensures states[j].procs[p].deliverMsg == states[i].procs[p].deliverMsg
  {
    hide Apply, Enabled, Fresh;
    if i < j {
      NeverOverwritten(states, events, i, j - 1, p);
      AfterStep(states, events, j - 1);
    }
  }

  /** A send that is accepted enters one message, for its target, with its sender or its
      receiver; any other result enters none. */
  lemma SendEntersOne(s: State, c: nat, d: nat, nonBlocking: bool, fromKernel: bool)
    requires Rdv(s) && Idle(s, c) && Live(s, P(d)) && d != c
    ensures var (r, e) := MiniSend(s, c, d, nonBlocking, fromKernel);
            if e == OK then
              && |r.mail| == |s.mail| + 1 && s.mail <= r.mail
              && r.mail[|s.mail|] == Mail(c, d, if r.procs[c].sending then WithSender else WithReceiver)
              && (nonBlocking ==> !r.procs[c].sending)
            else r == s
  {
  }

  // ---- Where deadlock() and clear_ipc stand ----

  /** A blocking send is refused exactly when it would close a cycle. */
  lemma SendRefusedIffCycle(s: State, c: nat, d: nat, fromKernel: bool)
    requires Rdv(s) && Idle(s, c) && Live(s, P(d)) && d != c
    requires !s.procs[d].noEndpoint && !WillReceive(s.procs[d], c)
    ensures MiniSend(s, c, d, false, fromKernel).1 == ELOCKED <==> !Acyclic(Graph(Enqueued(s, c, d, fromKernel)))
  {
    DeadlockExact(s, c, d);
    NewEdge(s, Enqueued(s, c, d, fromKernel), c, d);
  }

  /** A receive that finds nothing is refused exactly when waiting would close a cycle. */
  lemma ReceiveRefusedIffCycle(s: State, c: nat, src: Ep)
    requires Rdv(s) && Masks(s) && QueueRange(s) && MayReceive(s, c, src) && !s.procs[c].sending
    requires src.P? ==> !s.procs[src.nr].noEndpoint
    requires !Arrived(s, c, src).1
    ensures var s1 := Arrived(s, c, src).0;
            && c < |s1.procs|
            && (MiniReceive(s, c, src).1 == ELOCKED
                <==> !Acyclic(Graph(s1.Put(c, s1.procs[c].(getFrom := src, receiving := true)))))
  {
    hide Arrived;
    ArrivedKeeps(s, c, src);
    var s1 := Arrived(s, c, src).0;
    var s' := s1.Put(c, s1.procs[c].(getFrom := src, receiving := true));
    if src.P? {
      DeadlockExact(s1, c, src.nr);
      NewEdge(s1, s', c, src.nr);
    } else {
      FewerEdges(s1, s');
    }
  }

  /** A receive keeps the graph acyclic exactly when it is not a process waiting for itself:
      that is the one cycle deadlock() does not look for. */
  lemma ReceiveAcyclicIff(s: State, c: nat, e: Ep)
    requires Inv(s) && QueueRange(s) && CanCall(s, c)
    ensures Acyclic(Graph(DoSyncIpc(s, c, RECEIVE, e).0))
            <==> !(e == P(c) && RECEIVE in s.procs[c].traps && c !in s.procs[c].notify)
  {
    if e != P(c) {
      SyncCallInv(s, c, RECEIVE, e);
    } else if RECEIVE in s.procs[c].traps {
      SelfReceive(s, c);
    }
  }

  lemma SelfReceive(s: State, c: nat)
    requires Inv(s) && QueueRange(s) && CanCall(s, c) && RECEIVE in s.procs[c].traps
    ensures Acyclic(Graph(DoSyncIpc(s, c, RECEIVE, P(c)).0)) <==> c in s.procs[c].notify
  {
    ShapeOf(s);
    var s0 := WithReplyPend(s, c, false);
    ReplyInv(s, c, false);
    SelfCall(s, c);
    if c in s.procs[c].notify { SelfNoted(s0, c); } else { SelfWaits(s0, c); }
  }

  lemma SelfCall(s: State, c: nat)
    requires QueueRange(s) && CanCall(s, c) && RECEIVE in s.procs[c].traps
    ensures var s0 := WithReplyPend(s, c, false);
            && QueueRange(s0) && CanCall(s0, c) && !s0.procs[c].replyPend && s0.procs[c].notify == s.procs[c].notify
            && DoSyncIpc(s, c, RECEIVE, P(c)).0 == MiniReceive(s0, c, P(c)).0
  {
    hide MiniReceive;
  }

  /** A notification from itself is taken. */
  lemma SelfNoted(s: State, c: nat)
    requires Inv(s) && QueueRange(s) && CanCall(s, c) && !s.procs[c].replyPend && c in s.procs[c].notify
    ensures Acyclic(Graph(MiniReceive(s, c, P(c)).0))
  {
    hide FromTables, Deadlock;
    var r := MiniReceive(s, c, P(c)).0;
    assert r == ReceiveDone(NoteTaken(s, c, c), c);
    SameGraph(s, r);
  }

  /** Otherwise c has nothing pending from itself, is not found on the way, and waits for itself. */
  lemma SelfWaits(s: State, c: nat)
    requires Inv(s) && QueueRange(s) && CanCall(s, c) && !s.procs[c].replyPend && c !in s.procs[c].notify
    ensures !Acyclic(Graph(MiniReceive(s, c, P(c)).0))
  {
    var r := MiniReceive(s, c, P(c)).0;
    assert r == s.Put(c, s.procs[c].(getFrom := P(c), receiving := true)) by { SelfNothing(s, c); }
    hide MiniReceive;
    assert Graph(r)[c] == Edge(r, c) == c;
    assert Nth(Graph(r), c, 1) == Nth(Graph(r), c, 0) == c;
  }

  lemma SelfNothing(s: State, c: nat)
    requires Inv(s) && QueueRange(s) && CanCall(s, c) && !s.procs[c].replyPend && c !in s.procs[c].notify
    ensures Arrived(s, c, P(c)) == (s, false) && !Deadlock(s, c, P(c))
  {
    assert BitsOk(s, c, -1);
    NoSelfSender(s, c);
    assert Graph(s)[c] == Edge(s, c) == -1;
    forall n: nat | n > 0 ensures Nth(Graph(s), c, n) != c { assert Nth(Graph(s), c, n) == Nth(Graph(s), -1, n - 1); }
  }

  lemma NoSelfSender(s: State, c: nat)
    requires Rdv(s) && c < |s.procs| && !s.procs[c].sending
    ensures FirstFrom(s.queues[c], P(c), 0) == -1
  {
    assert QueueOk(s, c);
    assert forall q :: q in s.queues[c] ==> q != c;
  }

  /** clear_ipc leaves the link of the process it takes off a queue set exactly when some
      other process was queued behind it. */
  lemma StaleIffNotLast(s: State, p: nat)
    requires Rdv(s) && p < |s.procs| && s.procs[p].sending
    ensures Live(s, s.procs[p].sendTo)
    ensures var q := s.queues[s.procs[p].sendTo.nr];
            p in q && (ClearIpc(s, p).stale[p] <==> q[|q| - 1] != p)
  {
    assert SenderOk(s, p);
    assert QueueOk(s, s.procs[p].sendTo.nr);
  }

  lemma OtherStale(s: State, p: nat, x: nat)
    requires s.Shape() && p < |s.procs| && x < |s.procs| && x != p
    ensures ClearIpc(s, p).stale[x] == s.stale[x]
  {
  }

  /** The rest of clear_ipc_refs does not touch the link of a process it is past. */
  lemma {:induction false} StaleStays(s: State, rc: nat, i: nat, p: nat)
    requires s.Shape() && rc < |s.procs| && p < i <= |s.procs|
    ensures ClearRefs(s, rc, i).stale[p] == s.stale[p]
    decreases |s.procs| - i
  {
    hide ClearIpc;
    if i < |s.procs| {
      var pr := s.procs[i];
      if pr.free {
        StaleStays(s, rc, i + 1, p);
      } else {
        var s1 := s.Put(i, pr.(notify := pr.notify - {rc}, asyn := pr.asyn - {rc}));
        OtherStale(s1, i, p);
        StaleStays(if BlockedOn(pr) == P(rc) then ClearIpc(s1, i) else s1, rc, i + 1, p);
      }
    }
  }

  /** p waits to send to rc and q, later in the process table, is queued behind it. */
  ghost predicate Ahead(s: State, rc: nat, p: nat, q: nat) {
    && s.Shape() && rc < |s.procs| && p < q < |s.procs| && Before(s.queues[rc], p, q)
    && s.procs[p].sending && s.procs[p].sendTo == P(rc) && !s.procs[p].free
  }

  lemma {:induction false} ClearRefsStale(s: State, rc: nat, i: nat, p: nat, q: nat)
    requires Rdv(s) && Ahead(s, rc, p, q) && i <= p
    ensures var r := ClearRefs(s, rc, i); r.stale[p] && Idle(r, p)
    decreases p - i
  {
    hide Rdv, ClearIpc, Onward, Dropping, Before;
    var pr := s.procs[i];
    DropNoteKeeps(s, i, rc);
    var s1 := s.Put(i, pr.(notify := pr.notify - {rc}, asyn := pr.asyn - {rc}));
    var s2 := if BlockedOn(pr) == P(rc) then ClearIpc(s1, i) else s1;
    if i == p {
      LeftStale(s1, rc, p, q);
    } else if pr.free {
      ClearRefsStale(s, rc, i + 1, p, q);
    } else {
      ClearIpcKeeps(s1, i);
      StillAhead(s1, rc, i, p, q);
      ClearRefsStale(s2, rc, i + 1, p, q);
    }
  }

  /** p is taken off the queue and its link stays set. */
  lemma LeftStale(s: State, rc: nat, p: nat, q: nat)
    requires Rdv(s) && Ahead(s, rc, p, q)
    ensures var r := ClearRefs(ClearIpc(s, p), rc, p + 1); r.stale[p] && Idle(r, p)
  {
    hide Rdv, ClearIpc, Onward, Dropping, Before, ClearRefs;
    var s2 := ClearIpc(s, p);
    NotLast(s, rc, p, q);
    StaleIffNotLast(s, p);
    StaleStays(s2, rc, p + 1, p);
    ClearIpcKeeps(s, p);
    ClearIpcBits(s, p);
    ClearRefsKeeps(s2, rc, p + 1);
  }

  lemma NotLast(s: State, rc: nat, p: nat, q: nat)
    requires Rdv(s) && rc < |s.procs| && Before(s.queues[rc], p, q)
    ensures var w := s.queues[rc]; |w| > 0 && w[|w| - 1] != p
  {
    assert QueueOk(s, rc);
  }

  lemma StillAhead(s: State, rc: nat, i: nat, p: nat, q: nat)
    requires Rdv(s) && Ahead(s, rc, p, q) && i < p
    ensures Ahead(ClearIpc(s, i), rc, p, q)
  {
    hide Rdv, Before, Without;
    var pr, r := s.procs[i], ClearIpc(s, i);
    assert r.procs[p] == s.procs[p];
    if pr.sending && pr.sendTo == P(rc) {
      var k := IndexOf(s.queues[rc], i, 0);
      if k >= 0 { BeforeWithout(s.queues[rc], k, p, q); }
    }
  }

  // ---- Otherwise the link is clear ----

  ghost predicate Waits(s: State, rc: nat, p: nat) {
    s.Shape() && rc < |s.procs| && p < |s.procs| && s.procs[p].sending && s.procs[p].sendTo == P(rc) && !s.procs[p].free
  }

  /** Nobody later in the table is queued behind p. */
  ghost predicate NoneBehind(w: seq<nat>, p: nat) { forall q: nat :: q > p ==> !Before(w, p, q) }

  /** Everybody before i has left the queue. */
  ghost predicate From(w: seq<nat>, i: nat) { forall x :: x in w ==> x >= i }

  lemma IsLast(s: State, rc: nat, p: nat)
    requires Rdv(s) && Waits(s, rc, p) && From(s.queues[rc], p) && NoneBehind(s.queues[rc], p)
    ensures !ClearIpc(s, p).stale[p]
  {
    StaleIffNotLast(s, p);
    var w := s.queues[rc];
    var k: nat :| k < |w| && w[k] == p;
    if k < |w| - 1 {
      assert w[|w| - 1] in w;
      assert QueueOk(s, rc);
      assert Before(w, p, w[|w| - 1]);
    }
  }

  lemma FromNext(s: State, rc: nat, i: nat)
    requires Rdv(s) && rc < |s.procs| && i < |s.procs| && From(s.queues[rc], i)
    requires s.procs[i].free || BlockedOn(s.procs[i]) != P(rc)
    ensures From(s.queues[rc], i + 1)
  {
    assert QueueOk(s, rc) && SenderOk(s, i);
  }

  lemma FromCleared(s: State, rc: nat, i: nat, p: nat)
    requires Rdv(s) && Waits(s, rc, p) && i < p && From(s.queues[rc], i) && NoneBehind(s.queues[rc], p)
    requires BlockedOn(s.procs[i]) == P(rc)
    ensures var r := ClearIpc(s, i); Waits(r, rc, p) && From(r.queues[rc], i + 1) && NoneBehind(r.queues[rc], p)
  {
    assert QueueOk(s, rc) && SenderOk(s, i);
    var w := s.queues[rc];
    if s.procs[i].sending {
      var k := IndexOf(w, i, 0);
      WithoutOne(w, k);
      WithoutInOrder(w, k);
      assert p in w by { assert SenderOk(s, p); }
      StillNone(w, k, p);
    }
  }

  lemma StillNone(w: seq<nat>, k: nat, p: nat)
    requires k < |w| && NoneBehind(w, p) && InOrder(w, Without(w, k))
    ensures NoneBehind(Without(w, k), p)
  {
    var v := Without(w, k);
    forall q: nat | q > p ensures !Before(v, p, q) { }
  }

  lemma {:induction false} ClearRefsClean(s: State, rc: nat, i: nat, p: nat)
    requires Rdv(s) && Waits(s, rc, p) && i <= p && From(s.queues[rc], i) && NoneBehind(s.queues[rc], p)
    ensures !ClearRefs(s, rc, i).stale[p]
    decreases p - i
  {
    hide Rdv, ClearIpc, Onward, Dropping, From, NoneBehind;
    var pr := s.procs[i];
    DropNoteKeeps(s, i, rc);
    var s1 := s.Put(i, pr.(notify := pr.notify - {rc}, asyn := pr.asyn - {rc}));
    var s2 := if BlockedOn(pr) == P(rc) then ClearIpc(s1, i) else s1;
    if i == p {
      IsLast(s1, rc, p);
      StaleStays(s2, rc, i + 1, p);
    } else if pr.free {
      FromNext(s, rc, i);
      ClearRefsClean(s, rc, i + 1, p);
    } else if BlockedOn(pr) == P(rc) {
      ClearIpcKeeps(s1, i);
      FromCleared(s1, rc, i, p);
      ClearRefsClean(s2, rc, i + 1, p);
    } else {
      FromNext(s1, rc, i);
      ClearRefsClean(s1, rc, i + 1, p);
    }
  }

  lemma CancelAllQueues(s: State, rc: nat, p: nat)
    requires Rdv(s) && Waits(s, rc, p) && AsynOk(s, rc)
    ensures Waits(CancelAll(s, rc), rc, p) && CancelAll(s, rc).queues[rc] == s.queues[rc]
  {
    hide Rdv, CancelAll;
    CancelAllKeeps(s, rc);
    CancelAllSenders(s, rc);
  }

  /** clear_endpoint leaves the link of a process that waits to send to rc set exactly when one
      later in the process table is queued behind it. */
  lemma StaleLinkIff(s: State, rc: nat, p: nat)
    requires Inv(s) && Waits(s, rc, p) && !s.procs[rc].free
    ensures AsynOk(s, rc)
    ensures ClearEndpoint(s, rc).stale[p] <==> exists q: nat :: Ahead(s, rc, p, q)
  {
    hide Rdv, AsyBut, ClearRefs, CancelAll, ClearIpc, Before, Onward, Dropping;
    InvAsyn(s, rc);
    if q: nat :| Ahead(s, rc, p, q) {
      StaleLinkPanics(s, rc, p, q, p);
    } else {
      NoneAhead(s, rc, p);
      MarkedOk(s, rc);
      var s2 := Marked1(s, rc);
      MarkedWaits(s, rc, p);
      CancelAllKeeps(s2, rc);
      CancelAllQueues(s2, rc, p);
      ClearRefsClean(CancelAll(s2, rc), rc, 0, p);
    }
  }

  lemma AheadIf(s: State, rc: nat, p: nat, q: nat)
    requires Rdv(s) && Waits(s, rc, p) && q > p && Before(s.queues[rc], p, q)
    ensures Ahead(s, rc, p, q)
  {
    assert QueueOk(s, rc) && q in s.queues[rc];
  }

  lemma NoneAhead(s: State, rc: nat, p: nat)
    requires Rdv(s) && Waits(s, rc, p) && !exists q: nat :: Ahead(s, rc, p, q)
    ensures NoneBehind(s.queues[rc], p)
  {
    hide Rdv, Before, Ahead;
    forall q: nat | q > p ensures !Before(s.queues[rc], p, q) {
      if Before(s.queues[rc], p, q) { AheadIf(s, rc, p, q); }
    }
  }

  lemma MarkedWaits(s: State, rc: nat, p: nat)
    requires Rdv(s) && Waits(s, rc, p)
    ensures Waits(Marked1(s, rc), rc, p) && Marked1(s, rc).queues[rc] == s.queues[rc]
  {
    assert SenderOk(s, rc) && SenderOk(s, p);
  }

  /** When rc's endpoint is cleared while p, and behind it a process later in the table, wait
      to send to it, p's next blocking send fails the assertion that its queue link is clear. */
  lemma StaleLinkPanics(s: State, rc: nat, p: nat, q: nat, d: nat)
    requires Inv(s) && Ahead(s, rc, p, q) && !s.procs[rc].free && d < |s.procs|
    ensures AsynOk(s, rc)
    ensures var r := ClearEndpoint(s, rc);
            && r.stale[p] && Idle(r, p)
            && (!r.procs[d].noEndpoint && !WillReceive(r.procs[d], p) && !Deadlock(r, p, P(d)) ==>
                  MiniSend(r, p, d, false, false) == (r, PANIC))
  {
    hide Rdv, AsyBut, ClearRefs, CancelAll, ClearIpc, Before, Onward, Dropping;
    assert p != rc && q != rc by { AheadOther(s, rc, p, q); }
    InvAsyn(s, rc);
    MarkedOk(s, rc);
    var s2 := Marked1(s, rc);
    MarkedAhead(s, rc, p, q);
    CancelAllKeeps(s2, rc);
    CancelAllAhead(s2, rc, p, q);
    ClearRefsStale(CancelAll(s2, rc), rc, 0, p, q);
  }

  lemma AheadOther(s: State, rc: nat, p: nat, q: nat)
    requires Rdv(s) && Ahead(s, rc, p, q)
    ensures p != rc && q != rc
  {
    assert QueueOk(s, rc) && SenderOk(s, p) && q in s.queues[rc];
    assert SenderOk(s, q);
  }

  lemma MarkedAhead(s: State, rc: nat, p: nat, q: nat)
    requires Rdv(s) && Ahead(s, rc, p, q) && p != rc
    ensures Ahead(Marked1(s, rc), rc, p, q)
  {
    assert SenderOk(s, rc);
  }

  ghost predicate SameSenders(s: State, r: State) {
    |r.procs| == |s.procs|
    && forall x: nat :: x < |s.procs| ==>
       r.procs[x].sending == s.procs[x].sending && r.procs[x].sendTo == s.procs[x].sendTo
  }

  lemma CancelTableSenders(s: State, src: nat, d: nat)
    requires s.Shape() && src < |s.procs| && d < |s.procs|
    ensures SameSenders(s, CancelTable(s, src, d))
  {
    hide CancelFrom, MiniNotify;
    var a := CancelFrom(Cancel(s.procs[src].table, true, false), 0, d);
    NotifySenders(s.Put(src, s.procs[src].(table := a.table)), ASYNCM, src);
  }

  lemma NotifySenders(s: State, src: nat, d: nat)
    requires d < |s.procs|
    ensures SameSenders(s, MiniNotify(s, src, d))
  {
  }

  lemma CancelAsyncSenders(s: State, src: nat, d: nat)
    requires s.Shape() && src < |s.procs| && d < |s.procs|
    ensures SameSenders(s, CancelAsync(s, src, d))
  {
    hide CancelTable;
    var s1 := UnsetAsyn(s.Put(src, s.procs[src].(reg := false)), d, src);
    assert SameSenders(s, s1);
    CancelTableSenders(s1, src, d);
  }

  lemma {:induction false} CancelAllSenders(s: State, d: nat)
    requires s.Shape() && d < |s.procs| && AsynOk(s, d)
    ensures SameSenders(s, CancelAll(s, d))
    decreases s.procs[d].asyn
  {
    hide CancelAsync;
    var src := Lowest(s.procs[d].asyn, 0, |s.procs|);
    if src >= 0 {
      CancelClearsBit(s, src, d);
      CancelAsyncSenders(s, src, d);
      CancelAllSenders(CancelAsync(s, src, d), d);
    }
  }

  lemma CancelAllAhead(s: State, rc: nat, p: nat, q: nat)
    requires Rdv(s) && Ahead(s, rc, p, q) && AsynOk(s, rc)
    ensures Ahead(CancelAll(s, rc), rc, p, q)
  {
    hide Rdv, CancelAll, Before;
    CancelAllKeeps(s, rc);
    CancelAllSenders(s, rc);
  }

  // ---- A run that gets there ----

  /** A SEND to a process that is neither waiting nor blocked. */
  lemma SendBlocks(s: State, c: nat, d: nat)
    requires QueueRange(s) && c < |s.procs| && NR_TASKS <= d < |s.procs| && !s.procs[d].free && !s.procs[d].noEndpoint
    requires BlockedOn(s.procs[d]) == Nobody && d in s.procs[c].ipcTo && SEND in s.procs[c].traps && !s.stale[c]
    requires !s.procs[d].receiving
    ensures DoSyncIpc(s, c, SEND, P(d)).0 == Enqueued(s, c, d, false)
  {
    assert Graph(s)[d] == Edge(s, d) == -1;
    forall n: nat | n > 0 ensures Nth(Graph(s), d, n) != c { assert Nth(Graph(s), d, n) == Nth(Graph(s), -1, n - 1); }
  }

  function Plain(p: nat): Proc {
    Proc(false, false, false, false, Nobody, Nobody, Msg(0, Notification), false, Msg(0, Notification),
         false, false, {}, {}, {7, 8} - {p}, {SEND, RECEIVE}, false, [], false, 0)
  }

  /** Five tasks and four user processes. */
  function Table(): (s: State)
    ensures s.Shape() && |s.procs| == 9
    ensures forall p: nat :: p < 9 ==> s.procs[p] == Plain(p) && s.queues[p] == [] && !s.stale[p]
    ensures s.mail == [] && s.log == []
  {
    State(seq(9, p requires 0 <= p => Plain(p)), seq(9, _ => []), seq(9, _ => false), [], [])
  }

  /** Processes 5 and 6 send to 7: a reachable state from which StaleLinkPanics follows. */
  lemma AheadReached()
    ensures var s := Table(); var s1 := Enqueued(s, 5, 7, false); var s2 := Enqueued(s1, 6, 7, false);
            Run([s, s1, s2], [SyncCall(5, SEND, P(7)), SyncCall(6, SEND, P(7))]) && Ahead(s2, 7, 5, 6)
  {
    hide Table, DoSyncIpc;
    var s := Table();
    var s1 := Enqueued(s, 5, 7, false);
    var s2 := Enqueued(s1, 6, 7, false);
    SendBlocks(s, 5, 7);
    SendBlocks(s1, 6, 7);
    assert s2.queues[7][0] == 5 && s2.queues[7][1] == 6;
    var states, events := [s, s1, s2], [SyncCall(5, SEND, P(7)), SyncCall(6, SEND, P(7))];
    forall i: nat | i < 2 ensures Enabled(states[i], events[i]) && states[i + 1] == Apply(states[i], events[i]) {
      assert i == 0 || i == 1;
    }
  }

  /** What clearing references leaves alone: it wakes processes and does no more to them. */
  ghost predicate OnlyWakes(s: State, r: State) {
    |r.procs| == |s.procs| && forall x: nat :: x < |s.procs| ==>
      var a, b := s.procs[x], r.procs[x];
      && b.free == a.free && b.noEndpoint == a.noEndpoint && b.deliver == a.deliver && b.ipcTo == a.ipcTo
      && b.traps == a.traps && (b.sending ==> a.sending) && (b.receiving ==> a.receiving)
  }

  lemma ClearIpcWakes(s: State, p: nat)
    requires s.Shape() && p < |s.procs|
    ensures OnlyWakes(s, ClearIpc(s, p))
  {
    hide IndexOf, Without, Moved;
  }

  lemma OnlyWakesTrans(a: State, b: State, c: State)
    requires OnlyWakes(a, b) && OnlyWakes(b, c)
    ensures OnlyWakes(a, c)
  {
  }

  lemma {:induction false} ClearRefsWakes(s: State, rc: nat, i: nat)
    requires s.Shape() && rc < |s.procs| && i <= |s.procs|
    ensures OnlyWakes(s, ClearRefs(s, rc, i))
    decreases |s.procs| - i
  {
    hide ClearIpc;
    if i < |s.procs| {
      var p := s.procs[i];
      if p.free {
        ClearRefsWakes(s, rc, i + 1);
      } else {
        var s1 := s.Put(i, p.(notify := p.notify - {rc}, asyn := p.asyn - {rc}));
        var s2 := if BlockedOn(p) == P(rc) then ClearIpc(s1, i) else s1;
        ClearRefWakes(s, rc, i);
        hide OnlyWakes;
        ClearRefsWakes(s2, rc, i + 1);
        OnlyWakesTrans(s, s2, ClearRefs(s2, rc, i + 1));
      }
    }
  }

  lemma ClearRefWakes(s: State, rc: nat, i: nat)
    requires s.Shape() && i < |s.procs|
    ensures var p := s.procs[i];
            var s1 := s.Put(i, p.(notify := p.notify - {rc}, asyn := p.asyn - {rc}));
            OnlyWakes(s, if BlockedOn(p) == P(rc) then ClearIpc(s1, i) else s1)
  {
    var p := s.procs[i];
    var s1 := s.Put(i, p.(notify := p.notify - {rc}, asyn := p.asyn - {rc}));
    assert OnlyWakes(s, s1);
    hide ClearIpc, OnlyWakes;
    ClearIpcWakes(s1, i);
    OnlyWakesTrans(s, s1, ClearIpc(s1, i));
  }

  /** Nobody has sent rc asynchronous messages, so nobody is told that it is gone. */
  lemma ClearWakes(s: State, rc: nat)
    requires s.Shape() && rc < |s.procs| && s.procs[rc].asyn == {}
    ensures AsynOk(s, rc) && |ClearEndpoint(s, rc).procs| == |s.procs|
    ensures forall x: nat :: x < |s.procs| && x != rc ==>
              var a, b := s.procs[x], ClearEndpoint(s, rc).procs[x];
              && b.free == a.free && b.noEndpoint == a.noEndpoint && b.deliver == a.deliver && b.ipcTo == a.ipcTo
              && b.traps == a.traps && (b.sending ==> a.sending) && (b.receiving ==> a.receiving)
  {
    hide ClearIpc, ClearRefs;
    var p := s.procs[rc];
    var s1 := s.Put(rc, p.(noEndpoint := true, reg := p.reg && !p.sys));
    ClearIpcKeepsBits(s1, rc);
    ClearIpcWakes(s1, rc);
    var s2 := ClearIpc(s1, rc);
    assert CancelAll(s2, rc) == s2;
    ClearRefsWakes(s2, rc, 0);
  }

  /** When then 7 is cleared, 5 is woken, and its next send, to 8, fails the assertion. */
  lemma PanicReached()
    ensures var s := Table(); var s1 := Enqueued(s, 5, 7, false); var s2 := Enqueued(s1, 6, 7, false);
            && AsynOk(s2, 7)
            && var s3 := ClearEndpoint(s2, 7);
               && Run([s, s1, s2, s3], [SyncCall(5, SEND, P(7)), SyncCall(6, SEND, P(7)), Clear(7)])
               && CanCall(s3, 5) && QueueRange(s3) && DoSyncIpc(s3, 5, SEND, P(8)) == (s3, PANIC)
  {
    hide Table, DoSyncIpc, ClearEndpoint;
    var s := Table();
    var s1 := Enqueued(s, 5, 7, false);
    var s2 := Enqueued(s1, 6, 7, false);
    var events := [SyncCall(5, SEND, P(7)), SyncCall(6, SEND, P(7))];
    AheadReached();
    RunInv([s, s1, s2], events, 2);
    TwoQueued(s);
    var s3 := ClearEndpoint(s2, 7);
    InvRange(s2);
    RunOn([s, s1, s2], events, Clear(7));
    var all := [s, s1, s2] + [Apply(s2, Clear(7))];
    assert all == [s, s1, s2, s3];
    assert events + [Clear(7)] == [SyncCall(5, SEND, P(7)), SyncCall(6, SEND, P(7)), Clear(7)];
    RunInv(all, events + [Clear(7)], 3);
    InvRange(s3);
    StaleLinkPanics(s2, 7, 5, 6, 8);
    Unblocked(s3, 5, 8);
    SendIs(s3, 5, 8);
  }

  lemma RunOn(states: seq<State>, events: seq<Event>, ev: Event)
    requires Run(states, events) && Enabled(states[|events|], ev)
    ensures Run(states + [Apply(states[|events|], ev)], events + [ev])
  {
    var n := |events|;
    var st, es := states + [Apply(states[n], ev)], events + [ev];
    forall i: nat | i < n + 1 ensures Enabled(st[i], es[i]) && st[i + 1] == Apply(st[i], es[i]) {
      if i < n { assert st[i] == states[i] && st[i + 1] == states[i + 1] && es[i] == events[i]; }
    }
  }

  lemma TwoQueued(s: State)
    requires s == Table()
    ensures var s2 := Enqueued(Enqueued(s, 5, 7, false), 6, 7, false);
            && s2.Shape() && |s2.procs| == 9 && s2.procs[7].asyn == {} && !s2.procs[7].free && AsynOk(s2, 7)
            && var r := ClearEndpoint(s2, 7);
               && |r.procs| == 9 && !r.procs[5].noEndpoint && !r.procs[5].deliver && SEND in r.procs[5].traps
               && 8 in r.procs[5].ipcTo && !r.procs[8].free && !r.procs[8].noEndpoint
               && !r.procs[8].sending && !r.procs[8].receiving
  {
    hide ClearEndpoint;
    ClearWakes(Enqueued(Enqueued(s, 5, 7, false), 6, 7, false), 7);
  }

  lemma Unblocked(s: State, c: nat, d: nat)
    requires d < |s.procs| && !s.procs[d].sending && !s.procs[d].receiving
    ensures !Deadlock(s, c, P(d))
  {
    assert Graph(s)[d] == Edge(s, d) == -1;
    forall n: nat | n > 0 ensures Nth(Graph(s), d, n) != c { assert Nth(Graph(s), d, n) == Nth(Graph(s), -1, n - 1); }
  }

  lemma SendIs(s: State, c: nat, d: nat)
    requires QueueRange(s) && c < |s.procs| && NR_TASKS <= d < |s.procs| && !s.procs[d].free
    requires d in s.procs[c].ipcTo && SEND in s.procs[c].traps
    ensures DoSyncIpc(s, c, SEND, P(d)) == MiniSend(s, c, d, false, false)
  {
    hide MiniSend;
  }

  /** At the start of a run a process can receive from itself, and then waits for itself. */
  lemma SelfReached()
    ensures var s := Table();
            && Run([s], []) && CanCall(s, 5) && QueueRange(s) && !Acyclic(Graph(DoSyncIpc(s, 5, RECEIVE, P(5)).0))
  {
    hide Table, DoSyncIpc, Graph;
    var s := Table();
    RunInv([s], [], 0);
    ReceiveAcyclicIff(s, 5, P(5));
  }
}
