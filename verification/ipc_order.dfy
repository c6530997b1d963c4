/**
 First come, first served: queues keep their order in every step, and a receive takes the
 first acceptable sender.
 */
module IpcOrder {
  import opened Fifo
  import opened Ipc
  import opened IpcInv
  import opened IpcClear
  import opened IpcAsync
  import opened IpcRun

  /** No queue changes the order of those who stay. */
  ghost predicate QueuesInOrder(s: State, s': State) {
    |s'.queues| == |s.queues| && forall d: nat :: d < |s.queues| ==> InOrder(s.queues[d], s'.queues[d])
  }

  lemma InOrderTrans(a: State, b: State, c: State)
    requires QueuesInOrder(a, b) && QueuesInOrder(b, c) && Shrunk(b, c)
    ensures QueuesInOrder(a, c)
  {
    forall d: nat | d < |a.queues| ensures InOrder(a.queues[d], c.queues[d]) {
      assert InOrder(a.queues[d], b.queues[d]) && InOrder(b.queues[d], c.queues[d]);
      forall x: nat, y: nat | y in a.queues[d] && Before(c.queues[d], x, y) ensures Before(a.queues[d], x, y) {
        assert y in c.queues[d];
      }
    }
  }

  lemma SameOrder(s: State, s': State)
    requires s'.queues == s.queues
    ensures QueuesInOrder(s, s') && Shrunk(s, s')
  {
  }

  lemma SendInOrder(s: State, c: nat, d: nat, nonBlocking: bool, fromKernel: bool)
    requires Rdv(s) && Idle(s, c) && d < |s.procs|
    ensures QueuesInOrder(s, MiniSend(s, c, d, nonBlocking, fromKernel).0)
  {
    hide Deadlock, InOrder;
    assert QueueOk(s, d);
    AppendInOrder(s.queues[d], c);
    forall x: nat | x < |s.queues| ensures InOrder(s.queues[x], s.queues[x]) { SelfInOrder(s.queues[x]); }
  }

  lemma TakenInOrder(s: State, c: nat, k: nat)
    requires s.Shape() && c < |s.procs| && k < |s.queues[c]| && s.queues[c][k] < |s.procs|
    ensures QueuesInOrder(s, Taken(s, c, k)) && Shrunk(s, Taken(s, c, k))
  {
    hide InOrder;
    WithoutInOrder(s.queues[c], k);
    forall x: nat | x < |s.queues| ensures InOrder(s.queues[x], s.queues[x]) { SelfInOrder(s.queues[x]); }
  }

  lemma ReceiveInOrder(s: State, c: nat, src: Ep)
    requires Rdv(s) && Masks(s) && QueueRange(s) && MayReceive(s, c, src)
    ensures var r := MiniReceive(s, c, src).0; QueuesInOrder(s, r) && Shrunk(s, r)
  {
    hide Rdv, FromTables, Deadlock, QueuesInOrder, Shrunk, Taken, NoteTaken;
    assert s.Shape() by { ShapeOf(s); }
    SameOrder(s, s);
    if !(src.P? && s.procs[src.nr].noEndpoint) && !s.procs[c].sending {
      var p := s.procs[c];
      var note := if p.replyPend then -1 else HasPending(p.notify, src, |s.procs|);
      if note >= 0 {
        SameOrder(s, MiniReceive(s, c, src).0) by { assert NoteTaken(s, c, note).queues ==
            s.queues by { NoteQueues(s, c, note); } }
      } else {
        FromTablesKeeps(s, c, src);
        var (s1, r) := FromTables(s, c, src);
        var k := FirstFrom(s1.queues[c], src, 0);
        if r != OK && k >= 0 {
          TakenInOrder(s1, c, k);
          SameOrder(Taken(s1, c, k), MiniReceive(s, c, src).0);
          OrderEq(s, s1, Taken(s1, c, k), MiniReceive(s, c, src).0);
        } else {
          SameOrder(s, MiniReceive(s, c, src).0);
        }
      }
    } else {
      SameOrder(s, MiniReceive(s, c, src).0);
    }
  }

  lemma NoteQueues(s: State, c: nat, n: nat)
    requires c < |s.procs|
    ensures NoteTaken(s, c, n).queues == s.queues
  {
  }

  lemma OrderEq(s: State, s1: State, t: State, t1: State)
    requires s1.queues == s.queues && t1.queues == t.queues && QueuesInOrder(s1, t) && Shrunk(s1, t)
    ensures QueuesInOrder(s, t1) && Shrunk(s, t1)
  {
  }

  lemma ClearIpcInOrder(s: State, p: nat)
    requires s.Shape() && p < |s.procs|
    ensures QueuesInOrder(s, ClearIpc(s, p))
  {
    hide InOrder;
    var pr := s.procs[p];
    forall x: nat | x < |s.queues| ensures InOrder(s.queues[x], s.queues[x]) { SelfInOrder(s.queues[x]); }
    if pr.sending && pr.sendTo.P? && pr.sendTo.nr < |s.procs| {
      var d := pr.sendTo.nr;
      var k := IndexOf(s.queues[d], p, 0);
      if k >= 0 { WithoutInOrder(s.queues[d], k); }
    }
  }

  lemma {:induction false} ClearRefsInOrder(s: State, rc: nat, i: nat)
    requires Rdv(s) && rc < |s.procs| && i <= |s.procs|
    ensures var r := ClearRefs(s, rc, i); QueuesInOrder(s, r) && Shrunk(s, r)
    decreases |s.procs| - i
  {
    hide Rdv, ClearIpc, QueuesInOrder, Onward, Dropping;
    assert s.Shape() by { ShapeOf(s); }
    SameOrder(s, s);
    if i < |s.procs| {
      var p := s.procs[i];
      if p.free {
        ClearRefsInOrder(s, rc, i + 1);
      } else {
        DropNoteKeeps(s, i, rc);
        var s1 := s.Put(i, p.(notify := p.notify - {rc}, asyn := p.asyn - {rc}));
        SameOrder(s, s1);
        ClearIpcKeeps(s1, i);
        ClearIpcInOrder(s1, i);
        OrderEq(s, s1, ClearIpc(s1, i), ClearIpc(s1, i));
        var s2 := if BlockedOn(p) == P(rc) then ClearIpc(s1, i) else s1;
        ClearRefsInOrder(s2, rc, i + 1);
        ClearRefsKeeps(s2, rc, i + 1);
        InOrderTrans(s, s2, ClearRefs(s2, rc, i + 1));
      }
    }
  }

  lemma ClearInOrder(s: State, rc: nat)
    requires Inv(s) && rc < |s.procs| && !s.procs[rc].free
    ensures AsynOk(s, rc) && QueuesInOrder(s, ClearEndpoint(s, rc))
  {
    hide Rdv, AsyBut, ClearRefs, CancelAll, ClearIpc, QueuesInOrder, Onward, Dropping;
    assert s.Shape() by { ShapeOf(s); }
    InvAsyn(s, rc);
    MarkedOk(s, rc);
    var s1 := s.Put(rc, s.procs[rc].(noEndpoint := true, reg := s.procs[rc].reg && !s.procs[rc].sys));
    SameRdvKeeps(s, s1);
    ClearIpcInOrder(s1, rc);
    ClearIpcKeeps(s1, rc);
    var s2 := Marked1(s, rc);
    OrderEq(s, s1, s2, s2);
    CancelAllKeeps(s2, rc);
    var s3 := CancelAll(s2, rc);
    ClearRefsInOrder(s3, rc, 0);
    OrderEq(s2, s3, ClearRefs(s3, rc, 0), ClearRefs(s3, rc, 0));
    InOrderTrans(s, s2, ClearRefs(s3, rc, 0));
  }

  lemma SyncInOrder(s: State, c: nat, call: Call, e: Ep)
    requires Inv(s) && QueueRange(s) && CanCall(s, c) && call != SENDA && !(call == RECEIVE && e == P(c))
    ensures QueuesInOrder(s, DoSyncIpc(s, c, call, e).0)
  {
    hide Rdv, AsyBut, MiniSend, MiniReceive, QueuesInOrder;
    assert s.Shape() by { ShapeOf(s); }
    SameOrder(s, s);
    if Checks(s, c, call, e) == OK {
      match call
      case SEND => SendInOrder(s, c, e.nr, false, false);
      case SENDNB => SendInOrder(s, c, e.nr, true, false);
      case NOTIFY => SameOrder(s, MiniNotify(s, c, e.nr));
      case RECEIVE =>
        var s0 := WithReplyPend(s, c, false);
        ReplyInv(s, c, false);
        ReceiveInOrder(s0, c, e);
        OrderEq(s, s0, MiniReceive(s0, c, e).0, MiniReceive(s0, c, e).0);
      case SENDREC => SendRecInOrder(s, c, e.nr);
    }
  }

  lemma SendRecInOrder(s: State, c: nat, d: nat)
    requires Inv(s) && QueueRange(s) && CanCall(s, c) && Live(s, P(d)) && d != c
    ensures var (s1, r) := MiniSend(WithReplyPend(s, c, true), c, d, false, false);
            QueuesInOrder(s, s1) && (r == OK ==> QueueRange(s1) && QueuesInOrder(s, MiniReceive(s1, c, P(d)).0))
  {
    hide Rdv, AsyBut, MiniSend, MiniReceive, QueuesInOrder, Onward;
    assert s.Shape() by { ShapeOf(s); }
    ReplyInv(s, c, true);
    var s0 := WithReplyPend(s, c, true);
    SendInOrder(s0, c, d, false, false);
    SendStepKeeps(s0, c, d, false, false);
    var (s1, r) := MiniSend(s0, c, d, false, false);
    OrderEqTo(s, s0, s1);
    InvRange(s1);
    if r == OK {
      OnwardSetup(s0, s1);
      ReceiveInOrder(s1, c, P(d));
      InOrderTrans(s, s1, MiniReceive(s1, c, P(d)).0);
    }
  }

  lemma OrderEqTo(s: State, s0: State, t: State)
    requires s0.queues == s.queues && QueuesInOrder(s0, t)
    ensures QueuesInOrder(s, t)
  {
  }

  lemma {:induction false} SendaQueues(a: Senda, c: nat, i: nat)
    requires a.s.Shape() && c < |a.s.procs| && i <= |a.s.procs[c].table|
    ensures SendaFrom(a, c, i).s.queues == a.s.queues
    decreases |a.s.procs[c].table| - i
  {
    if i < |a.s.procs[c].table| { SendaQueues(SendaEntry(a, c, i), c, i + 1); }
  }

  lemma StepInOrder(s: State, ev: Event)
    requires Inv(s) && Enabled(s, ev)
    ensures QueuesInOrder(s, Apply(s, ev))
  {
    AlwaysDefined(s, ev);
    ShapeOf(s);
    hide Rdv, Asy, DoSyncIpc, MiniSend, ClearEndpoint, QueuesInOrder, SendaFrom;
    match ev
    case SyncCall(c, call, e) => SyncInOrder(s, c, call, e);
    case Submit(c, table) => SubmitInOrder(s, c, table);
    case KernelSend(c, d) => SendInOrder(s, c, d, false, true);
    case KernelNotify(src, d) => SameOrder(s, Apply(s, ev));
    case Deliver(p) => SameOrder(s, Apply(s, ev));
    case Clear(p) => ClearInOrder(s, p);
    case Free(p) =>
      ClearInOrder(s, p);
      QueuesOf(s, ClearEndpoint(s, p), FreeSlot(s, p));
  }

  lemma QueuesOf(s: State, t: State, t1: State)
    requires QueuesInOrder(s, t) && t1.queues == t.queues
    ensures QueuesInOrder(s, t1)
  {
  }

  lemma SubmitInOrder(s: State, c: nat, table: seq<Entry>)
    requires s.Shape() && c < |s.procs|
    ensures QueuesInOrder(s, MiniSenda(s, c, table).0)
  {
    hide SendaFrom, QueuesInOrder;
    var p := s.procs[c];
    SendaQueues(Senda(s.Put(c, p.(table := table, reg := false, epoch := p.epoch + 1)), true, false), c, 0);
    SameOrder(s, MiniSenda(s, c, table).0);
  }

  lemma OrderAfterStep(states: seq<State>, events: seq<Event>, k: nat)
    requires Run(states, events) && k < |events|
    ensures Rdv(states[k]) && QueuesInOrder(states[k], states[k + 1])
  {
    RunInv(states, events, k);
    assert Enabled(states[k], events[k]) && states[k + 1] == Apply(states[k], events[k]);
    hide Apply, Enabled, QueuesInOrder, Rdv, Asy;
    StepInOrder(states[k], events[k]);
  }

  /** Whoever was first to queue stays ahead for as long as both wait. */
  lemma {:induction false} QueueOrderKept(states: seq<State>, events: seq<Event>, i: nat, j: nat, d: nat, x: nat,
      y: nat)
    requires Run(states, events) && i <= j <= |events|
    requires forall k: nat :: i <= k <= j ==>
             d < |states[k].queues| && x in states[k].queues[d] && y in states[k].queues[d]
    requires Before(states[i].queues[d], x, y)
    ensures Before(states[j].queues[d], x, y)
  {
    hide Apply, Enabled, Fresh;
    if i < j {
      QueueOrderKept(states, events, i, j - 1, d, x, y);
      OrderAfterStep(states, events, j - 1);
      hide Run, Rdv, InOrder;
      StillBefore(states[j - 1], states[j], d, x, y);
    }
  }

  lemma StillBefore(s: State, r: State, d: nat, x: nat, y: nat)
    requires Rdv(s) && d < |s.queues| == |r.queues| && InOrder(s.queues[d], r.queues[d])
    requires Before(s.queues[d], x, y) && x in r.queues[d] && y in r.queues[d]
    ensures Before(r.queues[d], x, y)
  {
    assert QueueOk(s, d);
    var q := r.queues[d];
    var i: nat, j: nat :| i < |q| && j < |q| && q[i] == x && q[j] == y;
    assert x in s.queues[d] && x != y;
    if j < i { assert Before(q, y, x); }
  }

  /** Going from s to r, c took the message of the sender at place k of its queue, and nobody
      ahead of place k was acceptable. */
  ghost predicate ServedAt(s: State, r: State, c: nat, src: Ep, k: nat) {
    && s.Shape() && r.Shape() && |r.procs| == |s.procs| && c < |s.procs| && k < |s.queues[c]|
    && var p := s.queues[c][k];
       && p < |s.procs| && Accepts(src, p) && (forall j: nat :: j < k ==> !Accepts(src, s.queues[c][j]))
       && r.queues == s.queues[c := Without(s.queues[c], k)] && !r.procs[p].sending && r.procs[c].deliver
       && r.procs[c].deliverMsg.source == p && r.procs[c].deliverMsg.body == s.procs[p].sendMsg.body
  }

  /** A receive that takes a message from the queue takes that of the first sender in the
      queue that is acceptable. */
  lemma FirstServed(s: State, c: nat, src: Ep)
    requires Rdv(s) && Masks(s) && QueueRange(s) && MayReceive(s, c, src)
    requires var q := MiniReceive(s, c, src).0.queues; |q| == |s.procs| && q[c] != s.queues[c]
    ensures exists k: nat :: ServedAt(s, MiniReceive(s, c, src).0, c, src, k)
  {
    var p := s.procs[c];
    assert s.Shape() by { ShapeOf(s); }
    hide FromTables, Deadlock, Rdv, Onward, Taken, NoteTaken, ServedAt, HasPending, Masks;
    if !p.sending && !(src.P? && s.procs[src.nr].noEndpoint) {
      var note := if p.replyPend then -1 else HasPending(p.notify, src, |s.procs|);
      if note >= 0 { NoteQueues(s, c, note); }
      var (s1, r) := FromTables(s, c, src);
      var k := FirstFrom(s1.queues[c], src, 0);
      assert k >= 0;
      assert MiniReceive(s, c, src).0 == ReceiveDone(Taken(s1, c, k), c);
      hide MiniReceive, FirstFrom;
      ServesFirst(s, c, src, k);
    }
  }

  lemma ServesFirst(s: State, c: nat, src: Ep, k: nat)
    requires Rdv(s) && Masks(s) && QueueRange(s) && MayReceive(s, c, src) && FromTables(s, c, src).1 != OK
    requires !s.procs[c].sending && k < |s.queues[c]| && k == FirstFrom(s.queues[c], src, 0)
    ensures var s1 := FromTables(s, c, src).0;
            && s1.Shape() && |s1.procs| == |s.procs| && s1.queues == s.queues && s1.queues[c][k] < |s1.procs|
            && ServedAt(s, ReceiveDone(Taken(s1, c, k), c), c, src, k)
  {
    hide FromTables, Rdv, Onward, Taken, ServedAt, Masks;
    FromTablesKeeps(s, c, src);
    SendersKept(s, c, src, s.queues[c][k]);
    TakenServes(s, FromTables(s, c, src).0, c, src, k);
  }

  lemma TakenServes(s: State, s1: State, c: nat, src: Ep, k: nat)
    requires s.Shape() && Rdv(s1) && |s1.procs| == |s.procs| && s1.queues == s.queues
    requires c < |s.procs| && !s1.procs[c].sending && k < |s.queues[c]| && k == FirstFrom(s.queues[c], src, 0)
    requires s.queues[c][k] < |s.procs| && s1.procs[s.queues[c][k]].sendMsg == s.procs[s.queues[c][k]].sendMsg
    ensures ServedAt(s, ReceiveDone(Taken(s1, c, k), c), c, src, k)
  {
    TakenFacts(s1, c, k);
    hide Taken;
  }

  lemma TakenFacts(s: State, c: nat, k: nat)
    requires Rdv(s) && c < |s.procs| && !s.procs[c].sending && k < |s.queues[c]|
    ensures s.queues[c][k] < |s.procs|
    ensures var r, q := Taken(s, c, k), s.queues[c][k];
            && |r.procs| == |s.procs| && r.queues == s.queues[c := Without(s.queues[c], k)] && q != c
            && !r.procs[q].sending && r.procs[c].deliver && r.procs[c].deliverMsg == s.procs[q].sendMsg
            && r.procs[c].deliverMsg.source == q
  {
    assert s.queues[c][k] in s.queues[c] && QueueOk(s, c);
    assert SenderOk(s, s.queues[c][k]);
  }

  /** Looking through asynchronous tables leaves blocked senders alone. */
  lemma SendersKept(s: State, c: nat, src: Ep, q: nat)
    requires s.Shape() && c < |s.procs| && (src.P? ==> src.nr < |s.procs|) && q < |s.procs|
    ensures FromTables(s, c, src).0.procs[q].sendMsg == s.procs[q].sendMsg
  {
    hide TryOne, TryAsync;
    if src.P? { TryOneSenders(s, src.nr, c, q); } else { TryAsyncSenders(s, 0, c, q); }
  }

  lemma TryOneSenders(s: State, src: nat, d: nat, q: nat)
    requires s.Shape() && src < |s.procs| && d < |s.procs| && q < |s.procs|
    ensures TryOne(s, src, d).0.procs[q].sendMsg == s.procs[q].sendMsg
  {
    hide Scan, PickedEntry;
    var s1 := UnsetAsyn(s, d, src);
    if s.procs[src].sys && s.procs[src].reg && d in s.procs[src].ipcTo {
      match Scan(s1.procs[src].table, 0, d, s1.procs[d].replyPend, true)
      case Nothing(_) =>
      case Picked(i, bad) => PickedSenders(s1, src, d, i, bad, q);
    }
  }

  lemma PickedSenders(s: State, src: nat, d: nat, i: nat, bad: bool, q: nat)
    requires s.Shape() && src < |s.procs| && d < |s.procs| && q < |s.procs|
    requires i < |s.procs[src].table| && s.procs[src].table[i].Entry?
    ensures PickedEntry(s, src, d, i, bad).procs[q].sendMsg == s.procs[q].sendMsg
  {
    hide MiniNotify, Store, AsyncDelivered;
    var s2 := if bad then s else AsyncDelivered(s, src, d, i);
    GivenSenders(s, src, d, i, q);
    StoredSenders(s2, src, i, if bad then EINVAL else OK, q);
    NotifiedSenders(Store(s2, src, i, if bad then EINVAL else OK), ASYNCM, src, q);
  }

  lemma GivenSenders(s: State, src: nat, d: nat, i: nat, q: nat)
    requires src < |s.procs| && d < |s.procs| && q < |s.procs|
    ensures var r := AsyncDelivered(s, src, d, i);
            && |r.procs| == |s.procs| && r.procs[q].sendMsg == s.procs[q].sendMsg
            && r.procs[src].table == s.procs[src].table
  {
  }

  lemma StoredSenders(s: State, src: nat, i: nat, e: Err, q: nat)
    requires src < |s.procs| && q < |s.procs| && i < |s.procs[src].table| && s.procs[src].table[i].Entry?
    ensures |Store(s, src, i, e).procs| == |s.procs| && Store(s, src, i, e).procs[q].sendMsg == s.procs[q].sendMsg
  {
  }

  lemma NotifiedSenders(s: State, src: nat, d: nat, q: nat)
    requires d < |s.procs| && q < |s.procs|
    ensures |MiniNotify(s, src, d).procs| == |s.procs| && MiniNotify(s, src, d).procs[q].sendMsg == s.procs[q].sendMsg
  {
  }

  lemma {:induction false} TryAsyncSenders(s: State, i: nat, d: nat, q: nat)
    requires s.Shape() && i <= |s.procs| && d < |s.procs| && q < |s.procs|
    ensures TryAsync(s, i, d).0.procs[q].sendMsg == s.procs[q].sendMsg
    decreases |s.procs| - i
  {
    hide TryOne;
    if i < |s.procs| {
      if s.procs[i].free || i !in s.procs[d].asyn {
        TryAsyncSenders(s, i + 1, d, q);
      } else {
        TryOneSenders(s, i, d, q);
        var r := TryOne(s, i, d);
        if r.1 != OK { TryAsyncSenders(r.0, i + 1, d, q); }
      }
    }
  }
}
