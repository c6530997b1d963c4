/**
 Whole runs of the kernel's message passing: every reachable state satisfies the
 invariant, and what follows from it.
 */
module IpcRun {
  import opened WaitGraph
  import opened Ipc
  import opened IpcInv
  import opened IpcClear
  import opened IpcAsync

  ghost predicate Inv(s: State) { Rdv(s) && Asy(s) && Masks(s) }

  /** c is running in user mode and makes a system call.  A process with an undelivered
      message is not: the message is copied to it before it runs. */
  ghost predicate CanCall(s: State, c: nat) {
    Idle(s, c) && !s.procs[c].noEndpoint && !s.procs[c].deliver
  }

  /** Steps of the kernel.  KernelSend is notify_scheduler's send on behalf of a process;
      KernelNotify comes from a kernel task. */
  datatype Event =
    | SyncCall(c: nat, call: Call, e: Ep)
    | Submit(c: nat, table: seq<Entry>)
    | KernelSend(c: nat, d: nat)
    | KernelNotify(src: nat, d: nat)
    | Deliver(p: nat)
    | Clear(p: nat)
    | Free(p: nat)

  /** No process receives from itself: deadlock() does not see such a cycle. */
  ghost predicate Enabled(s: State, ev: Event) {
    match ev
    case SyncCall(c, call, e) => CanCall(s, c) && call != SENDA && !(call == RECEIVE && e == P(c))
    case Submit(c, table) => CanCall(s, c)
    case KernelSend(c, d) => Idle(s, c) && Live(s, P(d)) && d != c
    case KernelNotify(src, d) => src < |s.procs| && Live(s, P(d))
    case Deliver(p) => p < |s.procs| && s.procs[p].deliver
    case Clear(p) => p < |s.procs| && !s.procs[p].free
    case Free(p) => p < |s.procs| && !s.procs[p].free
  }

  /** When no asynchronous message has been taken the queue can be looked at. */
  lemma AfterTables(s: State, c: nat, src: Ep)
    requires Rdv(s) && Masks(s) && Idle(s, c) && !s.procs[c].deliver && (src == Any || Live(s, src))
    ensures var r := FromTables(s, c, src);
            r.1 != OK ==> Rdv(r.0) && QueueRange(r.0) && Idle(r.0, c) && !r.0.procs[c].deliver
  {
    hide Rdv, Masks, QueueRange, FromTables, Onward;
    assert s.Shape() by { ShapeOf(s); }
    FromTablesKeeps(s, c, src);
    InvRange(FromTables(s, c, src).0);
  }

  lemma InvRange(s: State)
    requires Rdv(s)
    ensures QueueRange(s)
  {
    forall d: nat, k: nat | d < |s.queues| && k < |s.queues[d]| ensures s.queues[d][k] < |s.procs| {
      assert QueueOk(s, d) && s.queues[d][k] in s.queues[d];
    }
  }

  lemma InvAsyn(s: State, d: nat)
    requires Asy(s) && d < |s.procs| && !s.procs[d].free
    ensures AsynOk(s, d)
  {
    assert BitsOk(s, d, -1);
  }

  /** The process table is well formed enough for the event; in reachable states it always is. */
  ghost predicate Defined(s: State, ev: Event) {
    QueueRange(s) && (ev.Clear? || ev.Free? ==> ev.p < |s.procs| && AsynOk(s, ev.p))
  }

  ghost function Apply(s: State, ev: Event): State
    requires Enabled(s, ev)
  {
    if !Defined(s, ev) then s else
    match ev
    case SyncCall(c, call, e) => DoSyncIpc(s, c, call, e).0
    case Submit(c, table) => MiniSenda(s, c, table).0
    case KernelSend(c, d) => MiniSend(s, c, d, false, true).0
    case KernelNotify(src, d) => MiniNotify(s, src, d)
    case Deliver(p) => HandOver(s, p)
    case Clear(p) => ClearEndpoint(s, p)
    case Free(p) => FreeSlot(s, p)
  }

  lemma AlwaysDefined(s: State, ev: Event)
    requires Inv(s) && Enabled(s, ev)
    ensures Defined(s, ev)
  {
    InvRange(s);
    if ev.Clear? || ev.Free? { InvAsyn(s, ev.p); }
  }

  // ---- Every event keeps the invariant ----

  lemma SendInv(s: State, c: nat, d: nat, nonBlocking: bool, fromKernel: bool)
    requires Inv(s) && Idle(s, c) && Live(s, P(d)) && d != c
    ensures Inv(MiniSend(s, c, d, nonBlocking, fromKernel).0)
  {
    hide Rdv, Asy;
    assert s.Shape() by { ShapeOf(s); }
    SendStepKeeps(s, c, d, nonBlocking, fromKernel);
    SendSame(s, c, d, nonBlocking, fromKernel);
    assert AsyBut(s, -1) by { AsyIs(s); }
    var r := MiniSend(s, c, d, nonBlocking, fromKernel).0;
    SameAsyncKeeps(s, r, -1);
    AsyIs(r);
  }

  lemma AsyIs(s: State)
    ensures Asy(s) <==> AsyBut(s, -1)
  {
  }

  lemma SendSame(s: State, c: nat, d: nat, nonBlocking: bool, fromKernel: bool)
    requires s.Shape() && c < |s.procs| && d < |s.procs|
    ensures SameAsync(s, MiniSend(s, c, d, nonBlocking, fromKernel).0)
  {
    hide Deadlock;
  }

  lemma ReceiveInv(s: State, c: nat, src: Ep)
    requires Inv(s) && QueueRange(s) && MayReceive(s, c, src)
    ensures Inv(MiniReceive(s, c, src).0)
  {
    hide Rdv, AsyBut, Arrived, Deadlock;
    assert s.Shape() by { ShapeOf(s); }
    ReceiveKeeps(s, c, src);
    if !(src.P? && s.procs[src.nr].noEndpoint) {
      var s1 := s;
      if !s.procs[c].sending { ArrivedAsync(s, c, src); s1 := Arrived(s, c, src).0; ArrivedKeeps(s, c, src); }
      SameAsyncKeeps(s1, MiniReceive(s, c, src).0, -1);
    }
  }

  lemma ArrivedAsync(s: State, c: nat, src: Ep)
    requires Inv(s) && QueueRange(s) && MayReceive(s, c, src) && !s.procs[c].sending
    requires src.P? ==> !s.procs[src.nr].noEndpoint
    ensures Asy(Arrived(s, c, src).0)
  {
    hide Rdv, AsyBut, FromTables, Taken, NoteTaken, Onward;
    assert s.Shape() by { ShapeOf(s); }
    var p := s.procs[c];
    var note := if p.replyPend then -1 else HasPending(p.notify, src, |s.procs|);
    if note >= 0 {
      NoteAsync(s, c, note);
    } else {
      FromTablesAsync(s, c, src);
      FromTablesKeeps(s, c, src);
      var (s1, r) := FromTables(s, c, src);
      if r != OK {
        var k := FirstFrom(s1.queues[c], src, 0);
        if k >= 0 { TakenAsync(s1, c, k); }
      }
    }
  }

  lemma NoteAsync(s: State, c: nat, n: nat)
    requires Asy(s) && c < |s.procs|
    ensures Asy(NoteTaken(s, c, n))
  {
    hide AsyBut;
    SameAsyncKeeps(s, NoteTaken(s, c, n), -1);
  }

  lemma TakenAsync(s: State, c: nat, k: nat)
    requires Asy(s) && s.Shape() && c < |s.procs| && k < |s.queues[c]| && s.queues[c][k] < |s.procs|
    ensures Asy(Taken(s, c, k))
  {
    hide AsyBut;
    SameAsyncKeeps(s, Taken(s, c, k), -1);
  }

  lemma FromTablesAsync(s: State, c: nat, src: Ep)
    requires Inv(s) && Idle(s, c) && !s.procs[c].deliver
    requires (src == Any || (Live(s, src) && !s.procs[src.nr].noEndpoint))
    ensures Asy(FromTables(s, c, src).0)
  {
    hide Rdv, AsyBut, TryOne, TryAsync;
    assert s.Shape() by { ShapeOf(s); }
    if src.P? { TryOneAsync(s, src.nr, c); } else { TryAsyncAsync(s, 0, c); }
  }

  lemma SyncCallInv(s: State, c: nat, call: Call, e: Ep)
    requires Inv(s) && QueueRange(s) && CanCall(s, c) && call != SENDA && !(call == RECEIVE && e == P(c))
    ensures Inv(DoSyncIpc(s, c, call, e).0)
  {
    hide Rdv, AsyBut, MiniSend, MiniReceive;
    assert s.Shape() by { ShapeOf(s); }
    if Checks(s, c, call, e) == OK {
      match call
      case SEND => SendInv(s, c, e.nr, false, false);
      case SENDNB => SendInv(s, c, e.nr, true, false);
      case NOTIFY => NotifyInv(s, c, e.nr);
      case RECEIVE =>
        ReplyInv(s, c, false);
        ReceiveInv(WithReplyPend(s, c, false), c, e);
      case SENDREC => SendRecInv(s, c, e.nr);
    }
  }

  lemma NotifyInv(s: State, src: nat, d: nat)
    requires Inv(s) && src < |s.procs| && d < |s.procs|
    ensures Inv(MiniNotify(s, src, d))
  {
    hide Rdv, AsyBut;
    NotifyKeeps(s, src, d);
    NotifySame(s, src, d);
    SameAsyncKeeps(s, MiniNotify(s, src, d), -1);
  }

  lemma ReplyInv(s: State, c: nat, on: bool)
    requires Inv(s) && Idle(s, c)
    ensures Inv(WithReplyPend(s, c, on)) && QueueRange(WithReplyPend(s, c, on))
  {
    hide AsyBut;
    ReplyPendKeeps(s, c, on);
    SameAsyncKeeps(s, WithReplyPend(s, c, on), -1);
    InvRange(WithReplyPend(s, c, on));
  }

  lemma SendRecInv(s: State, c: nat, d: nat)
    requires Inv(s) && QueueRange(s) && CanCall(s, c) && Live(s, P(d)) && d != c
    ensures var (s1, r) := MiniSend(WithReplyPend(s, c, true), c, d, false, false);
            Inv(s1) && (r == OK ==> QueueRange(s1) && Inv(MiniReceive(s1, c, P(d)).0))
  {
    hide Rdv, AsyBut, MiniSend, MiniReceive;
    assert s.Shape() by { ShapeOf(s); }
    ReplyInv(s, c, true);
    var s0 := WithReplyPend(s, c, true);
    SendInv(s0, c, d, false, false);
    SendStepKeeps(s0, c, d, false, false);
    var (s1, r) := MiniSend(s0, c, d, false, false);
    InvRange(s1);
    if r == OK { ReceiveInv(s1, c, P(d)); }
  }

  lemma SubmitInv(s: State, c: nat, table: seq<Entry>)
    requires Inv(s) && CanCall(s, c)
    ensures Inv(MiniSenda(s, c, table).0)
  {
    hide Rdv, AsyBut, MiniSenda;
    assert s.Shape() by { ShapeOf(s); }
    SendaKeeps(s, c, table);
    SendaAsync(s, c, table);
  }

  lemma DeliverInv(s: State, p: nat)
    requires Inv(s) && p < |s.procs| && s.procs[p].deliver
    ensures Inv(HandOver(s, p))
  {
    hide AsyBut;
    HandOverKeeps(s, p);
    SameAsyncKeeps(s, HandOver(s, p), -1);
  }

  // ---- clear_endpoint ----

  /** The state after clear_endpoint has marked rc and taken it off the queue it was on. */
  function Marked1(s: State, rc: nat): State
    requires s.Shape() && rc < |s.procs|
  {
    var p := s.procs[rc];
    ClearIpc(s.Put(rc, p.(noEndpoint := true, reg := p.reg && !p.sys)), rc)
  }

  lemma MarkedOk(s: State, rc: nat)
    requires Inv(s) && rc < |s.procs| && !s.procs[rc].free
    ensures var r := Marked1(s, rc);
            && Rdv(r) && AsyBut(r, rc) && Masks(r) && AsynOk(r, rc)
            && r.procs[rc].noEndpoint && !r.procs[rc].sending && !r.procs[rc].receiving
            && (forall d: nat :: d < |s.procs| ==> rc !in r.queues[d])
            && (forall x: nat :: x < |s.procs| && x != rc ==> r.procs[x] == s.procs[x])
            && r.procs[rc].asyn == s.procs[rc].asyn
            && (forall q :: q in r.procs[rc].asyn ==> rc in r.procs[q].ipcTo)
            && (forall x: nat :: x < |s.procs| ==> r.procs[x].free == s.procs[x].free)
  {
    hide Rdv, AsyBut, ClearIpc, Masks;
    ShapeOf(s);
    MarkedRdv(s, rc);
    MarkedBits(s, rc);
  }

  lemma MarkedRdv(s: State, rc: nat)
    requires Inv(s) && rc < |s.procs| && !s.procs[rc].free
    ensures s.Shape()
    ensures var r := Marked1(s, rc);
            && Rdv(r) && AsyBut(r, rc) && !r.procs[rc].sending && !r.procs[rc].receiving
            && (forall d: nat :: d < |s.procs| ==> rc !in r.queues[d])
            && (forall x: nat :: x < |s.procs| && x != rc ==> r.procs[x] == s.procs[x])
  {
    hide Rdv, AsyBut, ClearIpc, SameAsync;
    ShapeOf(s);
    var p := s.procs[rc];
    var s1 := s.Put(rc, p.(noEndpoint := true, reg := p.reg && !p.sys));
    SameRdvKeeps(s, s1);
    DyingKeeps(s, s1, rc);
    hide SameRdv;
    ClearIpcKeeps(s1, rc);
    ClearIpcSame(s1, rc);
    SameAsyncKeeps(s1, ClearIpc(s1, rc), rc);
  }

  lemma MarkedBits(s: State, rc: nat)
    requires Inv(s) && s.Shape() && rc < |s.procs| && !s.procs[rc].free
    requires forall x: nat :: x < |s.procs| && x != rc ==> Marked1(s, rc).procs[x] == s.procs[x]
    ensures var r := Marked1(s, rc);
            && Masks(r) && AsynOk(r, rc) && r.procs[rc].noEndpoint && r.procs[rc].asyn == s.procs[rc].asyn
            && (forall q :: q in r.procs[rc].asyn ==> rc in r.procs[q].ipcTo)
            && (forall x: nat :: x < |s.procs| ==> r.procs[x].free == s.procs[x].free)
  {
    hide Rdv, AsyBut, ClearIpc;
    BitsAre(s, rc);
    var p := s.procs[rc];
    ClearIpcSame(s.Put(rc, p.(noEndpoint := true, reg := p.reg && !p.sys)), rc);
  }

  lemma BitsAre(s: State, d: nat)
    requires Asy(s) && d < |s.procs| && !s.procs[d].free
    ensures forall q :: q in s.procs[d].asyn ==> q < |s.procs| && s.procs[q].sys && d in s.procs[q].ipcTo
  {
    assert BitsOk(s, d, -1);
  }

  lemma DyingKeeps(s: State, s1: State, rc: nat)
    requires Asy(s) && rc < |s.procs| && |s1.procs| == |s.procs|
    requires s1 == s.Put(rc, s.procs[rc].(noEndpoint := true, reg := s1.procs[rc].reg))
    ensures AsyBut(s1, rc)
  {
    forall p: nat | p < |s.procs| ensures TableOk(s1, p, rc) {
      assert TableOk(s, p, -1);
      if !s1.procs[p].free && !s1.procs[p].noEndpoint {
        forall j: nat | j < |s1.procs[p].table| ensures EntryOk(s1, p, j, rc) { assert EntryOk(s, p, j, -1); }
      }
    }
    forall d: nat | d < |s.procs| ensures BitsOk(s1, d, rc) { assert BitsOk(s, d, -1); }
    forall k: nat | k < |s.log| ensures Past(s1, s.log[k].0, s.log[k].1, s.log[k].2) {
      assert Past(s, s.log[k].0, s.log[k].1, s.log[k].2);
    }
  }

  /** After clear_endpoint nothing refers to rc: no process is blocked on it, it is on no queue
      and its own queue is empty, and its bits are clear in every live process. */
  lemma EndpointCleared(s: State, rc: nat)
    requires Inv(s) && rc < |s.procs| && !s.procs[rc].free
    ensures AsynOk(s, rc)
    ensures var r := ClearEndpoint(s, rc);
            && Inv(r)
            && r.procs[rc].noEndpoint && !r.procs[rc].free && !r.procs[rc].sending && !r.procs[rc].receiving
            && (forall p: nat :: p < |s.procs| ==> r.procs[p].free == s.procs[p].free)
            && (forall p: nat :: p < |s.procs| && !s.procs[p].free ==> Cleared(r.procs[p], rc))
            && (forall d: nat :: d < |s.procs| ==> rc !in r.queues[d])
            && r.queues[rc] == []
  {
    hide Rdv, AsyBut, ClearRefs, CancelAll, ClearIpc;
    assert s.Shape() by { ShapeOf(s); }
    InvAsyn(s, rc);
    MarkedOk(s, rc);
    var s2 := Marked1(s, rc);
    assert s2.Shape() by { ShapeOf(s2); }
    CancelAllKeeps(s2, rc);
    CancelAllAsync(s2, rc);
    CancelAllRc(s2, rc);
    var s3 := CancelAll(s2, rc);
    ClearRefsKeeps(s3, rc, 0);
    ClearRefsAsync(s3, rc, 0);
    ClearRefsRc(s3, rc, 0);
    var r := ClearRefs(s3, rc, 0);
    NoException(r, rc);
    QueueEmpty(r, rc);
  }

  /** Cancelling asynchronous sends leaves d's own rendezvous state alone. */
  lemma {:induction false} CancelAllRc(s: State, d: nat)
    requires s.Shape() && d < |s.procs| && AsynOk(s, d) && Masks(s)
    requires forall q :: q in s.procs[d].asyn ==> d in s.procs[q].ipcTo
    ensures var r := CancelAll(s, d).procs[d]; r.sending == s.procs[d].sending && r.receiving == s.procs[d].receiving
    decreases s.procs[d].asyn
  {
    hide CancelTable;
    var src := Lowest(s.procs[d].asyn, 0, |s.procs|);
    if src >= 0 {
      CancelClearsBit(s, src, d);
      CancelSetup(s, src, d);
      var s1 := UnsetAsyn(s.Put(src, s.procs[src].(reg := false)), d, src);
      assert CancelTable(s1, src, d).procs[d] == s1.procs[d] by { CancelTableOnly(s1, src, d); }
      CancelAllRc(CancelAsync(s, src, d), d);
    }
  }

  lemma CancelTableOnly(s: State, src: nat, d: nat)
    requires s.Shape() && src < |s.procs| && d < |s.procs|
    ensures OnlyAt(s, CancelTable(s, src, d), src)
  {
  }

  lemma ClearIpcRc(s: State, i: nat, rc: nat)
    requires s.Shape() && rc < |s.procs| && i < |s.procs|
    ensures var a, r := s.procs[rc], ClearIpc(s, i).procs[rc];
            (!a.sending ==> !r.sending) && (!a.receiving ==> !r.receiving)
  {
    hide Moved;
  }

  lemma {:induction false} ClearRefsRc(s: State, rc: nat, i: nat)
    requires s.Shape() && rc < |s.procs| && i <= |s.procs|
    ensures var a, r := s.procs[rc], ClearRefs(s, rc, i).procs[rc];
            (!a.sending ==> !r.sending) && (!a.receiving ==> !r.receiving)
    decreases |s.procs| - i
  {
    hide ClearIpc;
    if i < |s.procs| && !s.procs[i].free {
      var p := s.procs[i];
      var s1 := s.Put(i, p.(notify := p.notify - {rc}, asyn := p.asyn - {rc}));
      ClearIpcRc(s1, i, rc);
      ClearRefsRc(if BlockedOn(p) == P(rc) then ClearIpc(s1, i) else s1, rc, i + 1);
    } else if i < |s.procs| {
      ClearRefsRc(s, rc, i + 1);
    }
  }

  lemma QueueEmpty(s: State, rc: nat)
    requires Rdv(s) && rc < |s.procs|
    requires forall p: nat :: p < |s.procs| && !s.procs[p].free ==> BlockedOn(s.procs[p]) != P(rc)
    ensures s.queues[rc] == []
  {
    if s.queues[rc] != [] { QueuedBlocked(s, rc, 0); }
  }

  lemma QueuedBlocked(s: State, d: nat, k: nat)
    requires Rdv(s) && d < |s.procs| && k < |s.queues[d]|
    ensures var q := s.queues[d][k]; q < |s.procs| && !s.procs[q].free && BlockedOn(s.procs[q]) == P(d)
  {
    assert QueueOk(s, d) && s.queues[d][k] in s.queues[d];
    assert SenderOk(s, s.queues[d][k]);
  }

  lemma FreeInv(s: State, rc: nat)
    requires Inv(s) && rc < |s.procs| && !s.procs[rc].free
    ensures AsynOk(s, rc) && Inv(FreeSlot(s, rc))
  {
    hide Acyclic, SenderOk, ReceiverOk, DeliveryOk, QueueOk, MailOk, LogOk, TableOk, BitsOk, ClearEndpoint;
    EndpointCleared(s, rc);
    var s1 := ClearEndpoint(s, rc);
    forall x: nat | x < |s1.procs| && s1.procs[x].free ensures BlockedOn(s1.procs[x]) == Nobody { FreeIdle(s1, x); }
    RetireKeeps(s1, rc, s1.procs[rc].(free := true, noEndpoint := false));
    DeadKeeps(s1, FreeSlot(s, rc), rc);
  }

  lemma FreeIdle(s: State, x: nat)
    requires Rdv(s) && x < |s.procs| && s.procs[x].free
    ensures BlockedOn(s.procs[x]) == Nobody
  {
    assert SenderOk(s, x) && ReceiverOk(s, x);
  }

  /** A slot that nothing refers to may be freed. */
  lemma DeadKeeps(s: State, s': State, rc: nat)
    requires Asy(s) && rc < |s.procs| == |s'.procs| && s.procs[rc].noEndpoint && s'.log == s.log
    requires forall p: nat :: p < |s.procs| && p != rc ==> s'.procs[p] == s.procs[p]
    requires forall p: nat :: p < |s.procs| && !s.procs[p].free ==> rc !in s.procs[p].asyn
    requires s'.procs[rc].free && s'.procs[rc].epoch == s.procs[rc].epoch && s'.procs[rc].table == s.procs[rc].table
    ensures Asy(s')
  {
    forall p: nat | p < |s.procs| ensures TableOk(s', p, -1) {
      assert TableOk(s, p, -1);
      if !s'.procs[p].free && !s'.procs[p].noEndpoint {
        forall j: nat | j < |s'.procs[p].table| ensures EntryOk(s', p, j, -1) { assert EntryOk(s, p, j, -1); }
      }
    }
    forall d: nat | d < |s.procs| ensures BitsOk(s', d, -1) { assert BitsOk(s, d, -1); }
    forall k: nat | k < |s.log| ensures Past(s', s.log[k].0, s.log[k].1, s.log[k].2) {
      assert Past(s, s.log[k].0, s.log[k].1, s.log[k].2);
    }
  }

  /** Undone entries of live senders aimed at rc are marked done with an error. */
  lemma EntriesCancelled(s: State, rc: nat, src: nat, i: nat)
    requires Inv(s) && rc < |s.procs| && !s.procs[rc].free && src < |s.procs| && src != rc
    requires !s.procs[src].free && !s.procs[src].noEndpoint && i < |s.procs[src].table|
    requires Undone(s.procs[src].table[i]) && s.procs[src].table[i].dst == P(rc)
    ensures AsynOk(s, rc)
    ensures var r := ClearEndpoint(s, rc);
            && i < |r.procs[src].table| && r.procs[src].table[i].Entry?
            && r.procs[src].table[i].done && r.procs[src].table[i].result == EDEADSRCDST
  {
    assert TableOk(s, src, -1) && EntryOk(s, src, i, -1);
    hide Rdv, AsyBut, ClearRefs, CancelAll, ClearIpc;
    assert s.Shape() by { ShapeOf(s); }
    InvAsyn(s, rc);
    MarkedOk(s, rc);
    var s2 := Marked1(s, rc);
    assert s2.Shape() by { ShapeOf(s2); }
    CancelAllMarks(s2, rc, src, i);
    CancelAllKeeps(s2, rc);
    CancelAllAsync(s2, rc);
    ClearRefsAsync(CancelAll(s2, rc), rc, 0);
  }

  // ---- Runs ----

  lemma StepInv(s: State, ev: Event)
    requires Inv(s) && Enabled(s, ev)
    ensures Inv(Apply(s, ev))
  {
    AlwaysDefined(s, ev);
    hide Inv, DoSyncIpc, MiniSenda, MiniSend, MiniNotify, HandOver, ClearEndpoint, FreeSlot;
    match ev
    case SyncCall(c, call, e) => SyncCallInv(s, c, call, e);
    case Submit(c, table) => SubmitInv(s, c, table);
    case KernelSend(c, d) => SendInv(s, c, d, false, true);
    case KernelNotify(src, d) => NotifyInv(s, src, d);
    case Deliver(p) => DeliverInv(s, p);
    case Clear(p) => EndpointCleared(s, p);
    case Free(p) => FreeInv(s, p);
  }

  /** A process table before any message passing. */
  ghost predicate Fresh(s: State) {
    && s.Shape() && Masks(s) && s.mail == [] && s.log == []
    && forall p: nat :: p < |s.procs| ==>
         && !s.procs[p].sending && !s.procs[p].receiving && !s.procs[p].deliver
         && s.procs[p].notify == {} && s.procs[p].asyn == {} && s.procs[p].table == [] && s.queues[p] == []
  }

  lemma FreshInv(s: State)
    requires Fresh(s)
    ensures Inv(s)
  {
    forall x: nat, n: nat | x < |s.procs| && n > 0 ensures Nth(Graph(s), x, n) != x {
      assert Graph(s)[x] == Edge(s, x) == -1;
      assert Nth(Graph(s), x, n) == Nth(Graph(s), -1, n - 1);
    }
    forall p: nat | p < |s.procs| ensures SenderOk(s, p) && ReceiverOk(s, p) && DeliveryOk(s, p) && QueueOk(s, p) {}
    forall p: nat | p < |s.procs| ensures TableOk(s, p, -1) && BitsOk(s, p, -1) {}
  }

  /** States reached from a fresh table by enabled events. */
  ghost predicate Run(states: seq<State>, events: seq<Event>) {
    && |states| == |events| + 1 && Fresh(states[0])
    && forall i: nat :: i < |events| ==> Enabled(states[i], events[i]) && states[i + 1] == Apply(states[i], events[i])
  }

  /** The invariant holds in every reachable state. */
  lemma {:induction false} RunInv(states: seq<State>, events: seq<Event>, i: nat)
    requires Run(states, events) && i <= |events|
    ensures Inv(states[i])
  {
    if i == 0 {
      FreshInv(states[0]);
    } else {
      RunInv(states, events, i - 1);
      assert Enabled(states[i - 1], events[i - 1]) && states[i] == Apply(states[i - 1], events[i - 1]);
      StepInv(states[i - 1], events[i - 1]);
    }
  }
}
