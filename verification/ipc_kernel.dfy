/**
 The kernel's message passing as it works on the process table, step by step; every
 operation does to the state what its specification function says.
 */
module IpcKernel {
  import opened Fifo
  import opened WaitGraph
  import opened Ipc
  import opened IpcInv
  import opened IpcClear
  import opened IpcAsync
  import opened IpcRun
  import opened QueueLinks

  /** deadlock() lets a group of two pass when one of them sends and the other receives: the
      function number becomes the flag RTS_SENDING for SEND and RTS_RECEIVING for RECEIVE. */
  predicate Exempt(procs: seq<Proc>, call: Call, c: nat, e: Ep) {
    e.P? && e.nr < |procs| && BlockedOn(procs[e.nr]) == P(c) && procs[e.nr].sending != (call == SEND)
  }

  ghost function Slots(n: nat): (r: set<nat>)
    ensures forall v: nat :: v in r <==> v < n
  {
    if n == 0 then {} else Slots(n - 1) + {n - 1}
  }

  /** A path that has ended stays ended. */
  lemma PathOver(g: seq<int>, x: int, m: nat, n: nat)
    requires IsGraph(g) && -1 <= x < |g| && Nth(g, x, m) == -1 && m <= n
    ensures Nth(g, x, n) == -1
  {
    NthAdd(g, x, m, n - m);
  }

  lemma NextOnPath(s: State, x: nat, n: nat)
    requires x < |s.procs| && Nth(Graph(s), x, n) != -1
    ensures Nth(Graph(s), x, n + 1) == Edge(s, Nth(Graph(s), x, n))
  {
    NthAdd(Graph(s), x, n, 1);
    var y := Nth(Graph(s), x, n);
    assert Nth(Graph(s), y, 1) == Nth(Graph(s), Graph(s)[y], 0);
  }

  lemma BlockedLive(s: State, x: nat)
    requires Rdv(s) && x < |s.procs| && BlockedOn(s.procs[x]).P?
    ensures Live(s, BlockedOn(s.procs[x]))
  {
    assert SenderOk(s, x) && ReceiverOk(s, x);
  }

  lemma NeverBack(s: State, x: nat, c: nat, n: nat)
    requires x < |s.procs| && Nth(Graph(s), x, n) == -1
    requires forall m: nat :: 0 < m < n ==> Nth(Graph(s), x, m) != c
    ensures !Deadlock(s, c, P(x))
  {
    forall m: nat | m > 0 ensures Nth(Graph(s), x, m) != c {
      if m >= n { PathOver(Graph(s), x, n, m); }
    }
  }

  class Kernel {
    var procs: seq<Proc>
    /** p_caller_q and p_q_link */
    var callerQ: seq<int>
    var qLink: seq<int>
    /** number of synchronous sends accepted; stands for the contents of the next message */
    var sent: nat
    ghost var queues: seq<seq<nat>>
    ghost var mail: seq<Mail>
    ghost var log: seq<(nat, nat, nat)>

    ghost function Abs(): State
      reads this
    {
      State(procs, queues, Stales(qLink, queues), mail, log)
    }

    ghost predicate Valid()
      reads this
    {
      && |procs| == |queues| == |callerQ| == |qLink| && ASYNCM < |procs| && sent == |mail|
      && Linked(callerQ, qLink, queues)
    }

    /** A process table in which nobody has sent anything yet. */
    constructor (setup: seq<Proc>)
      requires ASYNCM < |setup|
      ensures Valid() && procs == setup && mail == [] && log == []
      ensures forall d: nat :: d < |queues| ==> queues[d] == []
    {
      procs := setup;
      callerQ := seq(|setup|, _ => -1);
      qLink := seq(|setup|, _ => -1);
      sent, queues, mail, log := 0, seq(|setup|, _ => []), [], [];
    }

    // ---- deadlock ----

    method FindDeadlock(call: Call, c: nat, e: Ep) returns (group: nat)
      requires Valid() && Rdv(Abs()) && c < |procs| && (call == SEND || call == RECEIVE)
      requires e == Any || Live(Abs(), e)
      ensures group != 0 <==> Deadlock(Abs(), c, e) && !Exempt(procs, call, c, e)
      ensures group != 0 ==> Nth(Graph(Abs()), e.nr, group - 1) == c
    {
      hide Rdv;
      group := 1;
      var ep := e;
      if ep == Any { return 0; }
      ghost var s, n, seen := Abs(), 0, {};
      while ep != Any
        invariant s == Abs() && e.P? && e.nr < |procs| && group == n + 1
        invariant ep == Any || Live(s, ep)
        invariant Nth(Graph(s), e.nr, n) == if ep == Any then -1 else ep.nr
        invariant forall m: nat :: 0 < m <= n ==> Nth(Graph(s), e.nr, m) != c
        invariant forall v :: v in seen ==> exists m: nat :: m < n && Nth(Graph(s), e.nr, m) == v
        decreases Slots(|procs|) - seen
      {
        var x := ep.nr;
        assert !procs[x].free;
        group := group + 1;
        ep := BlockedOn(procs[x]);
        NextOnPath(s, e.nr, n);
        if ep == Nobody {
          NeverBack(s, e.nr, c, n + 1);
          return 0;
        }
        if ep.P? { BlockedLive(s, x); }
        if ep == P(c) {
          if group == 2 && (procs[x].sending != (call == SEND)) { return 0; }
          assert n > 0 ==> Edge(s, e.nr) == Nth(Graph(s), e.nr, 1) by { NextOnPath(s, e.nr, 0); }
          return;
        }
        if x in seen {
          var m: nat :| m < n && Nth(Graph(s), e.nr, m) == x;
          assert Acyclic(Graph(s)) by { GraphAcyclic(s); }
          PathDistinct(Graph(s), e.nr, m, n);
        }
        assert x in Slots(|procs|);
        n, seen := n + 1, seen + {x};
      }
      NeverBack(s, e.nr, c, n);
      return 0;
    }

    // ---- mini_send, mini_notify ----

    function Get(cell: Cell): int
      requires if cell.Head? then cell.d < |callerQ| else cell.p < |qLink|
      reads this
    {
      if cell.Head? then callerQ[cell.d] else qLink[cell.p]
    }

    method Put(cell: Cell, v: int)
      requires if cell.Head? then cell.d < |callerQ| else cell.p < |qLink|
      modifies this`callerQ, this`qLink
      ensures cell.Head? ==> callerQ == old(callerQ)[cell.d := v] && qLink == old(qLink)
      ensures cell.Link? ==> callerQ == old(callerQ) && qLink == old(qLink)[cell.p := v]
    {
      if cell.Head? { callerQ := callerQ[cell.d := v]; } else { qLink := qLink[cell.p := v]; }
    }

    /** Find the last pointer of d's queue. */
    method FindEnd(d: nat) returns (xpp: Cell)
      requires Valid() && d < |procs|
      ensures xpp == CellAt(queues[d], d, |queues[d]|)
    {
      QueueRangeOk(callerQ, qLink, queues, d);
      hide Linked;
      LinkSizes();
      ghost var q, k := queues[d], 0;
      xpp := Head(d);
      while Get(xpp) != -1
        invariant k <= |q| && xpp == CellAt(q, d, k)
        decreases |q| - k
      {
        xpp := Link(Get(xpp));
        k := k + 1;
      }
    }

    /** Store c in the last pointer of d's queue. */
    method Append(d: nat, c: nat)
      requires Valid() && d < |procs| && c < |procs| && qLink[c] == -1 && !OnQueue(queues, c)
      modifies this`callerQ, this`qLink, this`queues
      ensures Valid() && queues == old(queues)[d := old(queues)[d] + [c]]
      ensures Stales(qLink, queues) == old(Stales(qLink, queues))
    {
      hide Linked, Stales, OnQueue;
      JoinLinked(callerQ, qLink, queues, d, c);
      JoinStales(callerQ, qLink, queues, d, c);
      LinkSizes();
      InRange(callerQ, qLink, queues, d);
      var xpp := FindEnd(d);
      Put(xpp, c);
      assert callerQ == JoinHeads(old(callerQ), queues, d, c);
      assert qLink == JoinNext(old(callerQ), old(qLink), queues, d, c);
      queues := queues[d := queues[d] + [c]];
    }

    lemma LinkSizes()
      requires Valid()
      ensures |callerQ| == |qLink| == |queues| == |procs|
    {
    }

    method MiniSend(c: nat, d: nat, nonBlocking: bool, fromKernel: bool) returns (r: Err)
      requires Valid() && Rdv(Abs()) && Idle(Abs(), c) && Live(Abs(), P(d)) && d != c
      modifies this
      ensures Valid() && (Abs(), r) == Ipc.MiniSend(old(Abs()), c, d, nonBlocking, fromKernel)
    {
      hide Rdv, Deadlock, Linked, Stales;
      LinkSizes();
      if procs[d].noEndpoint { return EDEADSRCDST; }
      if WillReceive(procs[d], c) {
        assert !procs[d].deliver by { WaitsEmpty(Abs(), d); }
        Reach(c, d);
        return OK;
      }
      if nonBlocking { return ENOTREADY; }
      var group := FindDeadlock(SEND, c, P(d));
      if group != 0 { return ELOCKED; }
      r := Block(c, d, fromKernel);
    }

    /** The message goes to d, which waits for it. */
    method Reach(c: nat, d: nat)
      requires Valid() && c < |procs| && d < |procs| && !procs[d].deliver
      modifies this
      ensures Valid() && |procs| == |old(procs)|
      ensures Abs() == var s1 := Delivered(old(Abs()), d, Msg(c, Sync(|old(mail)|)));
                       s1.Put(d, s1.procs[d].(replyPend := false)).(mail := old(mail) + [Mail(c, d, WithReceiver)])
    {
      hide Linked, Stales;
      procs := procs[d := procs[d].(deliver := true, deliverMsg := Msg(c, Sync(sent)), receiving := false)];
      if procs[d].replyPend { procs := procs[d := procs[d].(replyPend := false)]; }
      sent, mail := sent + 1, mail + [Mail(c, d, WithReceiver)];
    }

    /** c is blocked and joins d's queue, unless its link is still set. */
    method Block(c: nat, d: nat, fromKernel: bool) returns (r: Err)
      requires Valid() && Rdv(Abs()) && Idle(Abs(), c) && d < |procs| && d != c
      modifies this
      ensures Valid()
      ensures var s := old(Abs());
              (Abs(), r) == if s.stale[c] then (s, PANIC) else (Enqueued(s, c, d, fromKernel), OK)
    {
      hide Rdv, Linked, Stales;
      LinkSizes();
      assert !OnQueue(queues, c) by { IdleOff(Abs(), c); }
      if qLink[c] != -1 { return PANIC; }
      procs := procs[c := procs[c].(sending := true, sendTo := P(d), sendMsg := Msg(c, Sync(sent)),
                                    fromKernel := fromKernel || procs[c].fromKernel)];
      sent, mail := sent + 1, mail + [Mail(c, d, WithSender)];
      Append(d, c);
      return OK;
    }

    method MiniNotify(src: nat, d: nat)
      requires Valid() && d < |procs| && (procs[d].receiving ==> !procs[d].deliver)
      modifies this`procs
      ensures Valid() && Abs() == Ipc.MiniNotify(old(Abs()), src, d)
    {
      if WillReceive(procs[d], src) && !procs[d].replyPend {
        assert !procs[d].deliver;
        procs := procs[d := procs[d].(deliver := true, deliverMsg := Msg(src, Notification), receiving := false)];
        return;
      }
      procs := procs[d := procs[d].(notify := procs[d].notify + {src})];
    }

    // ---- asynchronous sends ----

    /** The loop of try_one, up to the first entry that is malformed or that d may have. */
    static method FindEntry(tab: seq<Entry>, d: nat, replyPend: bool) returns (r: Err, i: nat, done: bool)
      ensures match Scan(tab, 0, d, replyPend, true)
              case Nothing(dn) => r == EAGAIN && done == dn
              case Picked(k, bad) => r == (if bad then EINVAL else OK) && i == k && !done
    {
      r, i, done := EAGAIN, 0, true;
      while i < |tab|
        invariant i <= |tab| && r == EAGAIN
        invariant Scan(tab, i, d, replyPend, done) == Scan(tab, 0, d, replyPend, true)
      {
        var e := tab[i];
        if e.Entry? {
          if e.bad { r := EINVAL; } else if !e.valid { r := EINVAL; }
          if r == EINVAL || !e.done {
            done := false;
            if r == EINVAL { return; }
            if e.dst == P(d) && !(e.noReply && replyPend) {
              r := OK;
              return;
            }
          }
        }
        i := i + 1;
      }
    }

    method TryOne(src: nat, d: nat) returns (r: Err)
      requires Valid() && Rdv(Abs()) && Masks(Abs()) && src < |procs| && Idle(Abs(), d) && !procs[d].deliver
      modifies this`procs, this`log
      ensures Valid() && (Abs(), r) == Ipc.TryOne(old(Abs()), src, d)
    {
      if !procs[src].sys { return EPERM; }
      assert procs[src].receiving ==> !procs[src].deliver by { if procs[src].receiving { WaitsEmpty(Abs(), src); } }
      hide Rdv, Linked, Stales, Ipc.TryTable;
      procs := procs[d := procs[d].(asyn := procs[d].asyn - {src})];
      if !procs[src].reg { return EAGAIN; }
      if d !in procs[src].ipcTo { return ECALLDENIED; }
      r := TryTable(src, d);
    }

    /** The rest of try_one. */
    method TryTable(src: nat, d: nat) returns (r: Err)
      requires Valid() && src < |procs| && d < |procs| && src != d && !procs[d].deliver
      requires procs[src].receiving ==> !procs[src].deliver
      modifies this`procs, this`log
      ensures Valid() && (Abs(), r) == Ipc.TryTable(old(Abs()), src, d)
    {
      hide Linked, Stales, Scan, PickedEntry;
      var i, done;
      r, i, done := FindEntry(procs[src].table, d, procs[d].replyPend);
      if r != EAGAIN { StoreEntry(src, d, i, r); }
      if done {
        procs := procs[src := procs[src].(reg := false)];
      } else {
        procs := procs[d := procs[d].(asyn := procs[d].asyn + {src})];
      }
    }

    method DeliverAsync(src: nat, d: nat, i: nat)
      requires Valid() && src < |procs| && d < |procs|
      modifies this`procs, this`log
      ensures Valid() && Abs() == AsyncDelivered(old(Abs()), src, d, i)
    {
      log := log + [(src, procs[src].epoch, i)];
      procs := procs[d := procs[d].(deliver := true, deliverMsg := Msg(src, Async(procs[src].epoch, i)), receiving :=
          false)];
    }

    method StoreResult(src: nat, i: nat, r: Err)
      requires Valid() && src < |procs| && i < |procs[src].table| && procs[src].table[i].Entry?
      modifies this`procs
      ensures Valid() && Abs() == Store(old(Abs()), src, i, r)
    {
      procs := procs[src := procs[src].(table :=
          procs[src].table[i := procs[src].table[i].(done := true, result := r)])];
    }

    /** Deliver entry i of src's table unless it is malformed, and store the result. */
    method StoreEntry(src: nat, d: nat, i: nat, r: Err)
      requires Valid() && src < |procs| && d < |procs| && src != d && !procs[d].deliver
      requires i < |procs[src].table| && procs[src].table[i].Entry? && (r == OK || r == EINVAL)
      requires procs[src].receiving ==> !procs[src].deliver
      modifies this`procs, this`log
      ensures Valid() && Abs() == PickedEntry(old(Abs()), src, d, i, r == EINVAL)
    {
      hide Linked, Stales, Ipc.MiniNotify;
      var e := procs[src].table[i];
      if r == OK { DeliverAsync(src, d, i); }
      StoreResult(src, i, r);
      if WantsNotify(e, r) { MiniNotify(ASYNCM, src); }
    }

    method TryAsync(d: nat) returns (r: Err)
      requires Valid() && Rdv(Abs()) && Masks(Abs()) && Idle(Abs(), d) && !procs[d].deliver
      modifies this`procs, this`log
      ensures Valid() && (Abs(), r) == Ipc.TryAsync(old(Abs()), 0, d)
    {
      hide Rdv, Linked, Stales, Ipc.TryOne;
      ghost var s := Abs();
      var q := 0;
      while q < |procs|
        invariant q <= |procs| == |s.procs| && Valid() && Rdv(Abs())
        invariant Masks(Abs()) && Idle(Abs(), d) && !procs[d].deliver
        invariant Ipc.TryAsync(s, 0, d) == Ipc.TryAsync(Abs(), q, d)
      {
        if !procs[q].free && q in procs[d].asyn {
          TryOneKeeps(Abs(), q, d);
          r := TryOne(q, d);
          if r == OK { return; }
        }
        q := q + 1;
      }
      return ESRCH;
    }

    /** try_deliver_senda, after mini_senda has checked that c is a system process. */
    method MiniSenda(c: nat, table: seq<Entry>) returns (r: Err)
      requires Valid() && c < |procs| && !procs[c].receiving
      modifies this`procs, this`log
      ensures Valid() && (Abs(), r) == Ipc.MiniSenda(old(Abs()), c, table)
    {
      hide Linked, Stales;
      if !procs[c].sys { return EPERM; }
      procs := procs[c := procs[c].(table := if |table| > MAX_ASYNC then [] else table, reg := false, epoch :=
          procs[c].epoch + 1)];
      if |table| == 0 { return OK; }
      if |table| > MAX_ASYNC { return EDOM; }
      ghost var s1 := Abs();
      var done, doNotify := SendEntries(c);
      if doNotify { MiniNotify(ASYNCM, c); }
      if !done { procs := procs[c := procs[c].(reg := true)]; }
      return OK;
    }

    /** The loop of try_deliver_senda. */
    method SendEntries(c: nat) returns (done: bool, doNotify: bool)
      requires Valid() && c < |procs| && !procs[c].receiving
      modifies this`procs, this`log
      ensures Valid() && |procs| == old(|procs|) && !procs[c].receiving
      ensures Senda(Abs(), done, doNotify) == SendaFrom(Senda(old(Abs()), true, false), c, 0)
    {
      hide Linked, Stales;
      done, doNotify := true, false;
      ghost var s := Abs();
      var i := 0;
      while i < |procs[c].table|
        invariant |procs| == |s.procs| && i <= |procs[c].table| && Valid() && !procs[c].receiving
        invariant SendaFrom(Senda(s, true, false), c, 0) == SendaFrom(Senda(Abs(), done, doNotify), c, i)
        decreases |procs[c].table| - i
      {
        ghost var a := Senda(Abs(), done, doNotify);
        done, doNotify := SendEntry(c, i, done, doNotify);
        assert Senda(Abs(), done, doNotify) == SendaEntry(a, c, i);
        i := i + 1;
      }
    }

    method SendEntry(c: nat, i: nat, done0: bool, doNotify0: bool) returns (done: bool, doNotify: bool)
      requires Valid() && c < |procs| && i < |procs[c].table| && !procs[c].receiving
      modifies this`procs, this`log
      ensures Valid() && |procs| == old(|procs|) && !procs[c].receiving && |procs[c].table| == old(|procs[c].table|)
      ensures Senda(Abs(), done, doNotify) == SendaEntry(Senda(old(Abs()), done0, doNotify0), c, i)
    {
      hide Linked, Stales, DstError, Store, AsyncDelivered;
      ghost var a0 := Senda(Abs(), done0, doNotify0);
      EntryKeeps(a0, c, i);
      done, doNotify := done0, doNotify0;
      var e := procs[c].table[i];
      if e.Empty? || Malformed(e) || e.done { return; }
      var r := DstError(procs, c, e.dst);
      assert r == OK ==> e.dst.P? && e.dst.nr < |procs| by { DstInRange(procs, c, e.dst); }
      if r == OK && WillReceive(procs[e.dst.nr], c) && (!e.noReply || !procs[e.dst.nr].replyPend) {
        TableKept(Abs(), c, e.dst.nr, i);
        DeliverAsync(c, e.dst.nr, i);
      } else if r == OK {
        done := false;
        procs := procs[e.dst.nr := procs[e.dst.nr].(asyn := procs[e.dst.nr].asyn + {c})];
        return;
      }
      StoreResult(c, i, r);
      if e.notify { doNotify := true; } else if r != OK && e.notifyErr { doNotify := true; }
    }

    /** One entry of cancel_async. */
    static method CancelEntry(tab: seq<Entry>, i: nat, d: nat, done: bool, doNotify: bool)
      returns (tab': seq<Entry>, done': bool, doNotify': bool)
      requires i < |tab|
      ensures Cancel(tab', done', doNotify') == CancelOne(Cancel(tab, done, doNotify), i, d)
    {
      tab', done', doNotify' := tab, done, doNotify;
      var e := tab[i];
      if e.Empty? { return; }
      var r := EDEADSRCDST;
      if e.bad { r := EINVAL; } else if !e.valid { r := EINVAL; } else if e.done { return; }
      if e.dst != P(d) {
        done' := false;
        return;
      }
      tab' := tab[i := e.(done := true, result := r)];
      if e.notify { doNotify' := true; } else if r != OK && e.notifyErr { doNotify' := true; }
    }

    /** The scan of cancel_async. */
    method CancelEntries(src: nat, d: nat) returns (done: bool, doNotify: bool)
      requires Valid() && src < |procs|
      modifies this`procs
      ensures Valid()
      ensures var s := old(Abs());
              var a := CancelFrom(Cancel(s.procs[src].table, true, false), 0, d);
              Abs() == s.Put(src, s.procs[src].(table := a.table)) && done == a.done && doNotify == a.note
    {
      hide Linked, Stales, CancelFrom, CancelOne;
      done, doNotify := true, false;
      var i, tab := 0, procs[src].table;
      ghost var a0 := Cancel(tab, true, false);
      while i < |tab|
        invariant i <= |tab| && procs == old(procs)
        invariant CancelFrom(a0, 0, d) == CancelFrom(Cancel(tab, done, doNotify), i, d)
        decreases |tab| - i
      {
        CancelStep(Cancel(tab, done, doNotify), i, d);
        tab, done, doNotify := CancelEntry(tab, i, d, done, doNotify);
        i := i + 1;
      }
      CancelEnd(Cancel(tab, done, doNotify), d);
      procs := procs[src := procs[src].(table := tab)];
    }

    method CancelAsync(src: nat, d: nat)
      requires Valid() && src < |procs| && d < |procs| && (procs[src].receiving ==> !procs[src].deliver)
      modifies this`procs
      ensures Valid() && Abs() == Ipc.CancelAsync(old(Abs()), src, d)
    {
      hide Linked, Stales, CancelFrom;
      if !procs[src].sys { return; }
      var size := procs[src].reg;
      procs := procs[src := procs[src].(reg := false)];
      procs := procs[d := procs[d].(asyn := procs[d].asyn - {src})];
      if !size { return; }
      if d !in procs[src].ipcTo { return; }
      ghost var s1 := Abs();
      var done, doNotify := CancelEntries(src, d);
      if doNotify { MiniNotify(ASYNCM, src); }
      if !done { procs := procs[src := procs[src].(reg := true)]; }
      assert Abs() == CancelTable(s1, src, d);
    }

    // ---- mini_receive ----

    static method HasPending(bits: set<nat>, src: Ep, n: nat) returns (r: int)
      ensures r == Ipc.HasPending(bits, src, n)
    {
      if src.Nobody? { return -1; }
      if src.P? { return if src.nr in bits then src.nr else -1; }
      var i := 0;
      while i < n
        invariant i <= n && Lowest(bits, 0, n) == Lowest(bits, i, n)
      {
        if i in bits { return i; }
        i := i + 1;
      }
      return -1;
    }

    /** The pointer to the first acceptable process on c's queue, or to its end. */
    method FindSender(c: nat, src: Ep) returns (xpp: Cell, ghost k: nat)
      requires Valid() && c < |procs|
      ensures k <= |queues[c]| && xpp == CellAt(queues[c], c, k)
      ensures if k < |queues[c]| then FirstFrom(queues[c], src, 0) == k else FirstFrom(queues[c], src, 0) == -1
      ensures k > 0 ==> queues[c][k - 1] < |qLink|
      ensures Get(xpp) == At(queues[c], k)
    {
      QueueRangeOk(callerQ, qLink, queues, c);
      hide Linked;
      ghost var q := queues[c];
      k := 0;
      xpp := Head(c);
      while Get(xpp) != -1
        invariant k <= |q| && xpp == CellAt(q, c, k) && FirstFrom(q, src, k) == FirstFrom(q, src, 0)
        decreases |q| - k
      {
        var sender := Get(xpp);
        if Accepts(src, sender) { return; }
        xpp := Link(sender);
        k := k + 1;
      }
    }

    /** Take the k-th process off d's queue; keep: its own link stays as it is. */
    method Unlink(xpp: Cell, d: nat, ghost k: nat, keep: bool) returns (q: nat)
      requires Valid() && d < |procs| && k < |queues[d]| && xpp == CellAt(queues[d], d, k)
      modifies this`callerQ, this`qLink, this`queues
      ensures Valid() && q == old(queues)[d][k] < |procs|
      ensures queues == old(queues)[d := Without(old(queues)[d], k)]
      ensures Stales(qLink, queues) == old(Stales(qLink, queues))[q := keep && k + 1 < |old(queues)[d]|]
    {
      hide Linked, Stales, OnQueue, At;
      LeaveFacts(callerQ, qLink, queues, d, k);
      ghost var own := if keep then At(queues[d], k + 1) else -1;
      LeaveLinked(callerQ, qLink, queues, d, k, own);
      LeaveStales(callerQ, qLink, queues, d, k, own);
      ghost var heads, next := LeaveHeads(callerQ, queues, d, k), LeaveNext(callerQ, qLink, queues, d, k, own);
      q := Get(xpp);
      Put(xpp, qLink[q]);
      if !keep { qLink := qLink[q := -1]; }
      assert callerQ == heads && qLink == next;
      queues := queues[d := Without(queues[d], k)];
    }

    /** The part of mini_receive that looks for a message that has already arrived. */
    method TakeArrived(c: nat, src: Ep) returns (got: bool)
      requires Valid() && Rdv(Abs()) && Masks(Abs()) && QueueRange(Abs()) && Idle(Abs(), c) && !procs[c].deliver
      requires src == Any || Live(Abs(), src)
      modifies this
      ensures Valid() && (Abs(), got) == Arrived(old(Abs()), c, src)
    {
      hide Rdv, Linked, Stales, FromTables, Ipc.HasPending, Taken, FirstFrom, QueueRange, Onward, Masks, NoteTaken;
      ghost var s := Abs();
      got := TakeNote(c, src);
      if got { return; }
      AfterTables(s, c, src);
      var r := TakeAsync(c, src);
      if r == OK { return true; }
      got := TakeQueued(c, src);
    }

    /** A pending notification, unless a reply is awaited. */
    method TakeNote(c: nat, src: Ep) returns (got: bool)
      requires Valid() && c < |procs| && !procs[c].deliver
      modifies this`procs
      ensures Valid()
      ensures var s := old(Abs());
              var n := if s.procs[c].replyPend then -1 else Ipc.HasPending(s.procs[c].notify, src, |s.procs|);
              (Abs(), got) == if n >= 0 then (NoteTaken(s, c, n), true) else (s, false)
    {
      hide Linked, Stales, Ipc.HasPending;
      if procs[c].replyPend { return false; }
      var n := HasPending(procs[c].notify, src, |procs|);
      if n < 0 { return false; }
      procs := procs[c := procs[c].(notify := procs[c].notify - {n}, deliver := true,
                                    deliverMsg := Msg(n, Notification))];
      return true;
    }

    method TakeAsync(c: nat, src: Ep) returns (r: Err)
      requires Valid() && Rdv(Abs()) && Masks(Abs()) && Idle(Abs(), c) && !procs[c].deliver
      requires src == Any || Live(Abs(), src)
      modifies this`procs, this`log
      ensures Valid() && (Abs(), r) == FromTables(old(Abs()), c, src)
    {
      hide Rdv, Linked, Stales, Ipc.TryOne, Ipc.TryAsync, Ipc.HasPending, Masks;
      var n := HasPending(procs[c].asyn, src, |procs|);
      if n < 0 { return EAGAIN; }
      if src.P? { r := TryOne(src.nr, c); } else { r := TryAsync(c); }
    }

    method TakeQueued(c: nat, src: Ep) returns (got: bool)
      requires Valid() && Rdv(Abs()) && QueueRange(Abs()) && Idle(Abs(), c) && !procs[c].deliver
      modifies this
      ensures Valid()
      ensures var s := old(Abs()); var k := FirstFrom(s.queues[c], src, 0);
              (Abs(), got) == if k >= 0 then (Taken(s, c, k), true) else (s, false)
    {
      hide Rdv, Linked, Stales, FirstFrom;
      ghost var s := Abs();
      var xpp;
      ghost var k;
      xpp, k := FindSender(c, src);
      if Get(xpp) == -1 { return false; }
      SenderFacts(s, c, k);
      var sender := Get(xpp);
      assert !procs[sender].free;
      procs := procs[c := procs[c].(deliver := true, deliverMsg := procs[sender].sendMsg)];
      procs := procs[sender := procs[sender].(sending := false, fromKernel := false)];
      mail := Moved(mail, s.procs[sender].sendMsg, WithReceiver);
      var _ := Unlink(xpp, c, k, false);
      assert Stales(qLink, queues) == s.stale by { SenderFacts(s, c, k); NotStale(s.stale, sender); }
      return true;
    }

    method MiniReceive(c: nat, src: Ep) returns (r: Err)
      requires Valid() && Rdv(Abs()) && Masks(Abs()) && QueueRange(Abs())
      requires c < |procs| && !procs[c].free && !procs[c].receiving && !procs[c].deliver
      requires src == Any || Live(Abs(), src)
      requires procs[c].sending ==> src == procs[c].sendTo
      modifies this
      ensures Valid() && (Abs(), r) == Ipc.MiniReceive(old(Abs()), c, src)
    {
      hide Rdv, Linked, Stales, Arrived, Deadlock, QueueRange, Onward, Masks;
      ghost var s := Abs();
      if src.P? && procs[src.nr].noEndpoint { return EDEADSRCDST; }
      if !procs[c].sending {
        ArrivedKeeps(s, c, src);
        var got := TakeArrived(c, src);
        if got {
          ghost var s1 := Abs();
          if procs[c].replyPend { procs := procs[c := procs[c].(replyPend := false)]; }
          assert procs == ReceiveDone(s1, c).procs;
          return OK;
        }
        assert Live(s, src) ==> Live(Abs(), src) by { OnwardSetup(s, Abs()); }
        NotExempt(Abs(), c, src);
      } else {
        NoSecondDeadlock(s, c);
      }
      var group := FindDeadlock(RECEIVE, c, src);
      if group != 0 { return ELOCKED; }
      procs := procs[c := procs[c].(getFrom := src, receiving := true)];
      return OK;
    }

    method DoSyncIpc(c: nat, call: Call, e: Ep) returns (r: Err)
      requires Valid() && Inv(Abs()) && QueueRange(Abs()) && CanCall(Abs(), c) && call != SENDA
      modifies this
      ensures Valid() && (Abs(), r) == Ipc.DoSyncIpc(old(Abs()), c, call, e)
    {
      hide Rdv, Asy, Linked, Stales, Ipc.MiniSend, Ipc.MiniReceive, Ipc.MiniNotify, QueueRange, Onward;
      ghost var s := Abs();
      if e == Any {
        if call != RECEIVE { return EINVAL; }
      } else {
        if !e.P? || e.nr >= |procs| || procs[e.nr].free { return EDEADSRCDST; }
        if call != RECEIVE && e.nr !in procs[c].ipcTo { return ECALLDENIED; }
      }
      if call !in procs[c].traps { return ETRAPDENIED; }
      if e != Any && call != SENDREC && call != RECEIVE && e.nr < NR_TASKS { return ETRAPDENIED; }
      match call
      case SENDREC =>
        ReplyPendKeeps(s, c, true);
        procs := procs[c := procs[c].(replyPend := true)];
        ghost var s0 := Abs();
        SendStepKeeps(s0, c, e.nr, false, false);
        r := MiniSend(c, e.nr, false, false);
        if r != OK { return; }
        OnwardSetup(s0, Abs());
        InvRange(Abs());
        r := MiniReceive(c, e);
      case SEND => r := MiniSend(c, e.nr, false, false);
      case RECEIVE =>
        ReplyPendKeeps(s, c, false);
        procs := procs[c := procs[c].(replyPend := false)];
        InvRange(Abs());
        r := MiniReceive(c, e);
      case NOTIFY =>
        if procs[e.nr].receiving { WaitsEmpty(s, e.nr); }
        MiniNotify(c, e.nr);
        r := OK;
      case SENDNB => r := MiniSend(c, e.nr, true, false);
    }

    // ---- clear_endpoint ----

    /** The pointer to p on d's queue, or to the end of the queue. */
    method FindProc(d: nat, p: nat) returns (xpp: Cell, ghost k: nat)
      requires Valid() && d < |procs|
      ensures k <= |queues[d]| && xpp == CellAt(queues[d], d, k)
      ensures if k < |queues[d]| then IndexOf(queues[d], p, 0) == k else IndexOf(queues[d], p, 0) == -1
      ensures k > 0 ==> queues[d][k - 1] < |qLink|
      ensures Get(xpp) == At(queues[d], k)
    {
      QueueRangeOk(callerQ, qLink, queues, d);
      hide Linked;
      ghost var q := queues[d];
      k := 0;
      xpp := Head(d);
      while Get(xpp) != -1
        invariant k <= |q| && xpp == CellAt(q, d, k) && IndexOf(q, p, k) == IndexOf(q, p, 0)
        decreases |q| - k
      {
        if Get(xpp) == p { return; }
        xpp := Link(Get(xpp));
        k := k + 1;
      }
    }

    /** Take p off d's queue if it is on it. */
    method Detach(d: nat, p: nat)
      requires Valid() && d < |procs| && p < |procs|
      modifies this`callerQ, this`qLink, this`queues
      ensures Valid()
      ensures var q := old(queues)[d]; var k := IndexOf(q, p, 0);
              if k < 0 then queues == old(queues) && Stales(qLink, queues) == old(Stales(qLink, queues))
              else
                && queues == old(queues)[d := Without(q, k)]
                && Stales(qLink, queues) == old(Stales(qLink, queues))[p := k + 1 < |q|]
    {
      hide Linked, Stales, IndexOf;
      var xpp;
      ghost var k;
      xpp, k := FindProc(d, p);
      if Get(xpp) != -1 { var _ := Unlink(xpp, d, k, true); }
    }

    method ClearIpc(p: nat)
      requires Valid() && Rdv(Abs()) && p < |procs|
      modifies this
      ensures Valid() && Abs() == Ipc.ClearIpc(old(Abs()), p)
    {
      hide Rdv, Linked, Stales, IndexOf;
      ghost var s := Abs();
      if procs[p].sending {
        assert procs[p].sendTo.P? && procs[p].sendTo.nr < |procs| by { SendingLive(s, p); }
        Detach(procs[p].sendTo.nr, p);
        mail := Moved(mail, procs[p].sendMsg, Dropped);
        procs := procs[p := procs[p].(sending := false)];
      }
      procs := procs[p := procs[p].(receiving := false)];
    }

    /** The first loop of clear_ipc_refs ends: each turn clears a bit. */
    method CancelAll(rc: nat)
      requires Valid() && Rdv(Abs()) && rc < |procs| && AsynOk(Abs(), rc)
      modifies this`procs
      ensures Valid() && Abs() == Ipc.CancelAll(old(Abs()), rc)
    {
      hide Rdv, Linked, Stales, Ipc.CancelAsync, Onward;
      ghost var s := Abs();
      var src := HasPending(procs[rc].asyn, Any, |procs|);
      while src >= 0
        invariant Valid() && |procs| == |s.procs| && Rdv(Abs()) && AsynOk(Abs(), rc)
        invariant Ipc.CancelAll(s, rc) == Ipc.CancelAll(Abs(), rc)
        invariant src == Lowest(procs[rc].asyn, 0, |procs|)
        decreases procs[rc].asyn
      {
        if procs[src].receiving { WaitsEmpty(Abs(), src); }
        CancelAsyncKeeps(Abs(), src, rc);
        CancelClearsBit(Abs(), src, rc);
        CancelAsync(src, rc);
        src := HasPending(procs[rc].asyn, Any, |procs|);
      }
    }

    method ClearIpcRefs(rc: nat)
      requires Valid() && Rdv(Abs()) && rc < |procs| && AsynOk(Abs(), rc)
      modifies this
      ensures Valid() && Abs() == ClearRefs(Ipc.CancelAll(old(Abs()), rc), rc, 0)
    {
      hide Rdv, Linked, Stales, Ipc.CancelAll, Ipc.ClearIpc, Onward, Dropping;
      CancelAllKeeps(Abs(), rc);
      CancelAll(rc);
      ghost var s := Abs();
      var i := 0;
      while i < |procs|
        invariant Valid() && i <= |procs| == |s.procs| && Rdv(Abs())
        invariant ClearRefs(s, rc, 0) == ClearRefs(Abs(), rc, i)
      {
        if !procs[i].free {
          var blocked := BlockedOn(procs[i]);
          DropNoteKeeps(Abs(), i, rc);
          procs := procs[i := procs[i].(notify := procs[i].notify - {rc}, asyn := procs[i].asyn - {rc})];
          ClearIpcKeeps(Abs(), i);
          if blocked == P(rc) { ClearIpc(i); }
        }
        i := i + 1;
      }
    }

    method ClearEndpoint(rc: nat)
      requires Valid() && Rdv(Abs()) && rc < |procs| && AsynOk(Abs(), rc)
      modifies this
      ensures Valid() && Abs() == Ipc.ClearEndpoint(old(Abs()), rc)
    {
      hide Rdv, Linked, Stales, Ipc.CancelAll, Ipc.ClearIpc, ClearRefs;
      ghost var s := Abs();
      procs := procs[rc := procs[rc].(noEndpoint := true, reg := procs[rc].reg && !procs[rc].sys)];
      SameRdvKeeps(s, Abs());
      ClearIpcKeeps(Abs(), rc);
      ClearIpcKeepsBits(Abs(), rc);
      ClearIpc(rc);
      ClearIpcRefs(rc);
    }

    /** The slot becomes free (do_clear). */
    method FreeSlot(rc: nat)
      requires Valid() && Rdv(Abs()) && rc < |procs| && AsynOk(Abs(), rc)
      modifies this
      ensures Valid() && Abs() == Ipc.FreeSlot(old(Abs()), rc)
    {
      hide Linked, Stales, Rdv, Ipc.ClearEndpoint;
      ClearEndpoint(rc);
      procs := procs[rc := procs[rc].(free := true, noEndpoint := false, sending := false, receiving := false)];
    }

    /** The message in p_delivermsg is copied to p (delivermsg). */
    method HandOver(p: nat)
      requires Valid() && p < |procs| && procs[p].deliver
      modifies this`procs, this`mail
      ensures Valid() && Abs() == Ipc.HandOver(old(Abs()), p)
    {
      mail := Moved(mail, procs[p].deliverMsg, Handed);
      procs := procs[p := procs[p].(deliver := false)];
    }
  }

  lemma SenderFacts(s: State, c: nat, k: nat)
    requires Rdv(s) && c < |s.procs| && !s.procs[c].sending && k < |s.queues[c]|
    ensures var q := s.queues[c][k]; q < |s.procs| && q != c && !s.procs[q].free && OnQueue(s.queues, q)
  {
    assert s.queues[c][k] in s.queues[c] && QueueOk(s, c);
    assert SenderOk(s, s.queues[c][k]);
  }

  lemma NotStale(stale: seq<bool>, p: nat)
    requires p < |stale| && !stale[p]
    ensures stale[p := false] == stale
  {
  }

  /** Where mini_receive looks for a deadlock, the source is not blocked sending to c: its
      message would have been taken. */
  lemma NotExempt(s: State, c: nat, src: Ep)
    requires Rdv(s) && c < |s.procs| && NothingFor(s, c, src)
    ensures !Exempt(s.procs, RECEIVE, c, src)
  {
    if src.P? && src.nr < |s.procs| { assert SenderOk(s, src.nr); }
  }

  lemma SendingLive(s: State, p: nat)
    requires Rdv(s) && p < |s.procs| && s.procs[p].sending
    ensures Live(s, s.procs[p].sendTo)
  {
    assert SenderOk(s, p);
  }

  lemma DstInRange(procs: seq<Proc>, c: nat, e: Ep)
    requires c < |procs|
    ensures DstError(procs, c, e) == OK ==> e.P? && e.nr < |procs|
  {
  }

  lemma CancelEnd(a: Cancel, d: nat)
    ensures CancelFrom(a, |a.table|, d) == a
  {
  }

  lemma CancelStep(a: Cancel, i: nat, d: nat)
    requires i < |a.table|
    ensures CancelFrom(a, i, d) == CancelFrom(CancelOne(a, i, d), i + 1, d)
  {
  }

  /** The kernel asserts that a waiting process has no undelivered message. */
  lemma WaitsEmpty(s: State, d: nat)
    requires Rdv(s) && d < |s.procs| && s.procs[d].receiving
    ensures !s.procs[d].deliver
  {
    assert ReceiverOk(s, d);
  }

  lemma IdleOff(s: State, c: nat)
    requires Rdv(s) && c < |s.procs| && !s.procs[c].sending
    ensures !OnQueue(s.queues, c)
  {
    forall d: nat | d < |s.queues| ensures c !in s.queues[d] { assert QueueOk(s, d); }
  }

  lemma InRange(heads: seq<int>, next: seq<int>, qs: seq<seq<nat>>, d: nat)
    requires Linked(heads, next, qs) && d < |qs|
    ensures forall i: nat :: i < |qs[d]| ==> qs[d][i] < |next|
  {
    QueueRangeOk(heads, next, qs, d);
  }

  lemma GraphAcyclic(s: State)
    requires Rdv(s)
    ensures Acyclic(Graph(s))
  {
  }

  /** A process that sends from its table stays one that does not receive. */
  lemma EntryKeeps(a: Senda, c: nat, i: nat)
    requires a.s.Shape() && c < |a.s.procs| && i < |a.s.procs[c].table| && !a.s.procs[c].receiving
    ensures !SendaEntry(a, c, i).s.procs[c].receiving
  {
  }

  lemma TableKept(s: State, c: nat, d: nat, i: nat)
    requires s.Shape() && c < |s.procs| && d < |s.procs|
    ensures var r := AsyncDelivered(s, c, d, i); |r.procs| == |s.procs| && r.procs[c].table == s.procs[c].table
  {
  }
}
