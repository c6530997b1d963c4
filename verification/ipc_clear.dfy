/**
 Asynchronous submission and the clearing of an endpoint keep the rendezvous invariant,
 and what is left when an endpoint has been cleared.
 */
module IpcClear {
  import opened Ipc
  import opened IpcInv

  // ---- try_deliver_senda ----

  lemma AsyncReachesKeeps(s: State, c: nat, d: nat, i: nat)
    requires Rdv(s) && c < |s.procs| && d < |s.procs| && s.procs[d].receiving && !s.procs[d].sending
    ensures var r := AsyncDelivered(s, c, d, i); Rdv(r) && Onward(s, r)
  {
    var m := Msg(c, Async(s.procs[c].epoch, i));
    DeliverKeeps(s, d, m);
    SameRdvKeeps(Delivered(s, d, m), AsyncDelivered(s, c, d, i));
  }

  lemma StoreKeeps(s: State, c: nat, i: nat, r: Err)
    requires Rdv(s) && c < |s.procs| && i < |s.procs[c].table| && s.procs[c].table[i].Entry?
    ensures var r := Store(s, c, i, r); Rdv(r) && Onward(s, r)
  {
    BitsKeep(s, c, Store(s, c, i, r).procs[c]);
  }

  lemma SendaEntryKeeps(a: Senda, c: nat, i: nat)
    requires Rdv(a.s) && c < |a.s.procs| && i < |a.s.procs[c].table|
    ensures var r := SendaEntry(a, c, i).s; Rdv(r) && Onward(a.s, r)
  {
    hide Rdv, Onward;
    assert a.s.Shape() by { ShapeOf(a.s); }
    var s := a.s;
    var e := s.procs[c].table[i];
    OnwardSelf(s);
    if Undone(e) {
      var r := DstError(s.procs, c, e.dst);
      if r == OK && WillReceive(s.procs[e.dst.nr], c) && !(e.noReply && s.procs[e.dst.nr].replyPend) {
        AsyncReachesKeeps(s, c, e.dst.nr, i);
        var s1 := AsyncDelivered(s, c, e.dst.nr, i);
        StoreKeeps(s1, c, i, OK);
        OnwardTrans(s, s1, Store(s1, c, i, OK));
      } else if r == OK {
        SetAsynKeeps(s, e.dst.nr, c);
      } else {
        StoreKeeps(s, c, i, r);
      }
    }
  }

  lemma {:induction false} SendaFromKeeps(a: Senda, c: nat, i: nat)
    requires Rdv(a.s) && c < |a.s.procs| && i <= |a.s.procs[c].table|
    ensures var r := SendaFrom(a, c, i).s; Rdv(r) && Onward(a.s, r)
    decreases |a.s.procs[c].table| - i
  {
    hide Rdv, Onward, SendaEntry;
    assert a.s.Shape() by { ShapeOf(a.s); }
    OnwardSelf(a.s);
    if i < |a.s.procs[c].table| {
      SendaEntryKeeps(a, c, i);
      var b := SendaEntry(a, c, i);
      SendaFromKeeps(b, c, i + 1);
      OnwardTrans(a.s, b.s, SendaFrom(b, c, i + 1).s);
    }
  }

  lemma SendaKeeps(s: State, c: nat, table: seq<Entry>)
    requires Rdv(s) && c < |s.procs|
    ensures var r := MiniSenda(s, c, table).0; Rdv(r) && Onward(s, r)
  {
    hide Rdv, Onward, SendaFrom, MiniNotify;
    assert s.Shape() by { ShapeOf(s); }
    OnwardSelf(s);
    var p := s.procs[c];
    BitsKeep(s, c, p.(table := [], reg := false, epoch := p.epoch + 1));
    var s1 := s.Put(c, p.(table := table, reg := false, epoch := p.epoch + 1));
    BitsKeep(s, c, s1.procs[c]);
    if p.sys && 0 < |table| <= MAX_ASYNC {
      SendaFromKeeps(Senda(s1, true, false), c, 0);
      var a := SendaFrom(Senda(s1, true, false), c, 0);
      OnwardTrans(s, s1, a.s);
      RegisterKeeps(s, a.s, c, a.note, a.done);
    }
  }

  /** The end of try_deliver_senda and cancel_async: notify and register. */
  lemma RegisterKeeps(s0: State, s: State, c: nat, note: bool, done: bool)
    requires Rdv(s) && c < |s.procs| && Onward(s0, s)
    ensures var s2 := if note then MiniNotify(s, ASYNCM, c) else s;
            var r := if done then s2 else s2.Put(c, s2.procs[c].(reg := true));
            Rdv(r) && Onward(s0, r)
  {
    hide Rdv, Onward, MiniNotify;
    assert s.Shape() by { ShapeOf(s); }
    NotifyKeeps(s, ASYNCM, c);
    OnwardTrans(s0, s, MiniNotify(s, ASYNCM, c));
    var s2 := if note then MiniNotify(s, ASYNCM, c) else s;
    BitsKeep(s2, c, s2.procs[c].(reg := true));
    OnwardTrans(s0, s2, s2.Put(c, s2.procs[c].(reg := true)));
  }

  // ---- clear_endpoint ----

  lemma CancelTableKeeps(s: State, src: nat, d: nat)
    requires Rdv(s) && src < |s.procs| && d < |s.procs|
    ensures var r := CancelTable(s, src, d); Rdv(r) && Onward(s, r)
  {
    hide Rdv, Onward, CancelFrom, MiniNotify;
    assert s.Shape() by { ShapeOf(s); }
    var a := CancelFrom(Cancel(s.procs[src].table, true, false), 0, d);
    var s2 := s.Put(src, s.procs[src].(table := a.table));
    BitsKeep(s, src, s2.procs[src]);
    RegisterKeeps(s, s2, src, a.note, a.done);
  }

  lemma CancelAsyncKeeps(s: State, src: nat, d: nat)
    requires Rdv(s) && src < |s.procs| && d < |s.procs|
    ensures var r := CancelAsync(s, src, d); Rdv(r) && Onward(s, r)
  {
    hide Rdv, Onward, CancelTable;
    assert s.Shape() by { ShapeOf(s); }
    OnwardSelf(s);
    var s0 := s.Put(src, s.procs[src].(reg := false));
    BitsKeep(s, src, s0.procs[src]);
    var s1 := UnsetAsyn(s0, d, src);
    BitsKeep(s0, d, s1.procs[d]);
    OnwardTrans(s, s0, s1);
    CancelTableKeeps(s1, src, d);
    OnwardTrans(s, s1, CancelTable(s1, src, d));
  }

  lemma {:induction false} CancelAllKeeps(s: State, d: nat)
    requires Rdv(s) && d < |s.procs| && AsynOk(s, d)
    ensures var r := CancelAll(s, d); Rdv(r) && Onward(s, r)
    decreases s.procs[d].asyn
  {
    hide Rdv, CancelAsync;
    assert s.Shape() by { ShapeOf(s); }
    var src := Lowest(s.procs[d].asyn, 0, |s.procs|);
    if src >= 0 {
      CancelAsyncKeeps(s, src, d);
      CancelClearsBit(s, src, d);
      CancelAllKeeps(CancelAsync(s, src, d), d);
    }
  }

  /** rp has no reference to rc left. */
  ghost predicate Cleared(p: Proc, rc: nat) {
    BlockedOn(p) != P(rc) && rc !in p.notify && rc !in p.asyn
  }

  lemma DropNoteKeeps(s: State, i: nat, rc: nat)
    requires Rdv(s) && i < |s.procs|
    ensures var r := s.Put(i, s.procs[i].(notify := s.procs[i].notify - {rc}, asyn := s.procs[i].asyn - {rc}));
            Rdv(r) && Onward(s, r)
  {
    var r := s.Put(i, s.procs[i].(notify := s.procs[i].notify - {rc}, asyn := s.procs[i].asyn - {rc}));
    assert ReceiverOk(s, i) && DeliveryOk(s, i);
    SameGraph(s, r);
    LocalKeeps(s, r, i);
  }

  ghost predicate Shrunk(s: State, r: State) {
    |r.queues| == |s.queues| && forall d: nat, x :: d < |s.queues| && x in r.queues[d] ==> x in s.queues[d]
  }

  lemma {:induction false} ClearRefsKeeps(s: State, rc: nat, i: nat)
    requires Rdv(s) && rc < |s.procs| && i <= |s.procs|
    ensures var r := ClearRefs(s, rc, i);
            && Rdv(r) && Dropping(s, r) && Shrunk(s, r)
            && (forall j: nat :: j < i ==> r.procs[j] == s.procs[j])
            && (forall j: nat :: i <= j < |s.procs| && !s.procs[j].free ==> Cleared(r.procs[j], rc))
    decreases |s.procs| - i
  {
    hide Rdv, ClearIpc, Onward, Dropping, Shrunk, Cleared;
    ShapeOf(s);
    OnwardSelf(s);
    DroppingTrans(s, s, s);
    ShrunkTrans(s, s, s);
    if i < |s.procs| {
      var p := s.procs[i];
      if p.free {
        ClearRefsKeeps(s, rc, i + 1);
      } else {
        ClearOneKeeps(s, rc, i);
        var s1 := s.Put(i, p.(notify := p.notify - {rc}, asyn := p.asyn - {rc}));
        var s2 := if BlockedOn(p) == P(rc) then ClearIpc(s1, i) else s1;
        var r := ClearRefs(s2, rc, i + 1);
        ClearRefsKeeps(s2, rc, i + 1);
        DroppingTrans(s, s2, r);
        ShrunkTrans(s, s2, r);
      }
    }
  }

  lemma ShrunkTrans(a: State, b: State, c: State)
    requires |a.queues| == |b.queues| == |c.queues| && (a == b || Shrunk(a, b)) && (b == c || Shrunk(b, c))
    ensures Shrunk(a, c)
  {
  }

  /** One turn of the loop of clear_ipc_refs. */
  lemma ClearOneKeeps(s: State, rc: nat, i: nat)
    requires Rdv(s) && rc < |s.procs| && i < |s.procs|
    ensures s.Shape()
    ensures var p := s.procs[i];
            var s1 := s.Put(i, p.(notify := p.notify - {rc}, asyn := p.asyn - {rc}));
            var s2 := if BlockedOn(p) == P(rc) then ClearIpc(s1, i) else s1;
            && Rdv(s2) && Dropping(s, s2) && Shrunk(s, s2) && Cleared(s2.procs[i], rc)
            && |s2.procs| == |s.procs| && |s2.queues| == |s.queues|
            && (forall j: nat :: j < |s.procs| && j != i ==> s2.procs[j] == s.procs[j])
  {
    hide Rdv, ClearIpc, Onward, Dropping;
    ShapeOf(s);
    var p := s.procs[i];
    var s1 := s.Put(i, p.(notify := p.notify - {rc}, asyn := p.asyn - {rc}));
    DropNoteKeeps(s, i, rc);
    OnwardSelf(s1);
    DroppingTrans(s, s1, s1);
    ClearIpcKeeps(s1, i);
    ClearIpcOnward(s1, i);
    ClearIpcBits(s1, i);
    DroppingTrans(s, s1, ClearIpc(s1, i));
  }

  lemma ClearIpcBits(s: State, p: nat)
    requires s.Shape() && p < |s.procs|
    ensures SameSetup(s, ClearIpc(s, p))
    ensures var r := ClearIpc(s, p).procs[p]; r.notify == s.procs[p].notify && r.asyn == s.procs[p].asyn
  {
  }
}
