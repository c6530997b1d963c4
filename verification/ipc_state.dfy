/**
 The state of MINIX message passing and what each kernel operation does to it.

 Processes are slots of the process table.  A queue holds, for each slot, the
 processes blocked sending to it, oldest first.  Messages carry an identity instead of
 contents: synchronous sends are numbered in the order they are accepted, asynchronous
 ones by sender, submission and table index.
 */
module Ipc {
  import opened Fifo
  import opened WaitGraph

  const NR_TASKS: nat := 5
  /** proc_addr(ASYNCM): task number -5 */
  const ASYNCM: nat := 0
  /** 16 * (NR_TASKS + NR_PROCS) */
  const MAX_ASYNC: nat := 4176

  datatype Ep = Any | Nobody | P(nr: nat)

  datatype Body = Sync(id: nat) | Notification | Async(epoch: nat, index: nat)
  datatype Msg = Msg(source: nat, body: Body)

  datatype Call = SEND | RECEIVE | SENDREC | NOTIFY | SENDNB | SENDA

  datatype Err = OK | EDOM | EINVAL | EPERM | EAGAIN | ESRCH | EDEADSRCDST | ECALLDENIED
               | ETRAPDENIED | ELOCKED | ENOTREADY | PANIC

  /** An entry of an asynchronous send table.  bad: flag bits that are not defined. */
  datatype Entry = Empty
                 | Entry(valid: bool, done: bool, notify: bool, noReply: bool, notifyErr: bool, bad: bool,
                         dst: Ep, result: Err)

  predicate Malformed(e: Entry) { e.Entry? && (e.bad || !e.valid) }

  /** An entry the kernel still has to deal with. */
  predicate Undone(e: Entry) { e.Entry? && !e.bad && e.valid && !e.done }

  /** The fields of struct proc and struct priv that message passing uses; every process
      owns its privilege structure.  reg: the table is registered (s_asyntab, s_asynsize). */
  datatype Proc = Proc(
    free: bool, noEndpoint: bool, sending: bool, receiving: bool,
    sendTo: Ep, getFrom: Ep, sendMsg: Msg,
    deliver: bool, deliverMsg: Msg,
    replyPend: bool, fromKernel: bool,
    notify: set<nat>, asyn: set<nat>,
    ipcTo: set<nat>, traps: set<Call>, sys: bool,
    table: seq<Entry>, reg: bool, epoch: nat)

  /** Where an accepted synchronous message is: with its blocked sender, in the receiver's
      p_delivermsg, copied to the receiver, or gone because clear_ipc took its sender off a
      queue. */
  datatype Place = WithSender | WithReceiver | Handed | Dropped
  datatype Mail = Mail(from: nat, to: nat, place: Place)

  /** stale[p]: p's queue link is set although p is on no queue.
      mail: every synchronous send accepted so far; log: every asynchronous delivery. */
  datatype State = State(procs: seq<Proc>, queues: seq<seq<nat>>, stale: seq<bool>,
                         mail: seq<Mail>, log: seq<(nat, nat, nat)>) {
    ghost predicate Shape() {
      |queues| == |procs| == |stale| && ASYNCM < |procs|
    }

    function Put(p: nat, pr: Proc): State
      requires p < |procs|
    {
      this.(procs := procs[p := pr])
    }
  }

  function Moved(mail: seq<Mail>, m: Msg, place: Place): seq<Mail> {
    match m.body
    case Sync(id) => if id < |mail| then mail[id := mail[id].(place := place)] else mail
    case _ => mail
  }

  // ---- proc.h and ipc.h ----

  /** P_BLOCKEDON */
  function BlockedOn(p: Proc): Ep {
    if p.sending then p.sendTo else if p.receiving then p.getFrom else Nobody
  }

  predicate Accepts(getFrom: Ep, src: nat) { getFrom == Any || getFrom == P(src) }

  /** WILLRECEIVE */
  predicate WillReceive(p: Proc, src: nat) {
    p.receiving && !p.sending && Accepts(p.getFrom, src)
  }

  /** isokendpt, and the slot is in use */
  predicate Live(s: State, e: Ep) {
    e.P? && e.nr < |s.procs| && !s.procs[e.nr].free
  }

  ghost function Edge(s: State, x: nat): (y: int)
    requires x < |s.procs|
    ensures -1 <= y < |s.procs|
  {
    match BlockedOn(s.procs[x])
    case P(d) => if d < |s.procs| then d else -1
    case _ => -1
  }

  /** The graph of which process is blocked on which. */
  ghost function Graph(s: State): (g: seq<int>)
    ensures |g| == |s.procs| && IsGraph(g)
    ensures forall x: nat :: x < |s.procs| ==> g[x] == Edge(s, x)
  {
    seq(|s.procs|, x requires 0 <= x < |s.procs| => Edge(s, x))
  }

  /** What deadlock() looks for: following the blocked-on chain from e, some process on it
      is blocked on c.  It does not compare e itself with c. */
  ghost predicate Deadlock(s: State, c: nat, e: Ep) {
    e.P? && e.nr < |s.procs| && exists n: nat :: n > 0 && Nth(Graph(s), e.nr, n) == c
  }

  // ---- mini_send, mini_notify ----

  function Delivered(s: State, d: nat, m: Msg): State
    requires d < |s.procs|
  {
    s.Put(d, s.procs[d].(deliver := true, deliverMsg := m, receiving := false))
  }

  /** Block c on d and append it to d's queue. */
  function Enqueued(s: State, c: nat, d: nat, fromKernel: bool): State
    requires s.Shape() && c < |s.procs| && d < |s.procs|
  {
    var p := s.procs[c];
    s.(procs := s.procs[c := p.(sending := true, sendTo := P(d), sendMsg := Msg(c, Sync(|s.mail|)),
                                fromKernel := fromKernel || p.fromKernel)],
       queues := s.queues[d := s.queues[d] + [c]],
       mail := s.mail + [Mail(c, d, WithSender)])
  }

  ghost function MiniSend(s: State, c: nat, d: nat, nonBlocking: bool, fromKernel: bool): (State, Err)
    requires s.Shape() && c < |s.procs| && d < |s.procs|
  {
    if s.procs[d].noEndpoint then (s, EDEADSRCDST)
    else if WillReceive(s.procs[d], c) then
      var s1 := Delivered(s, d, Msg(c, Sync(|s.mail|)));
      (s1.Put(d, s1.procs[d].(replyPend := false)).(mail := s.mail + [Mail(c, d, WithReceiver)]), OK)
    else if nonBlocking then (s, ENOTREADY)
    else if Deadlock(s, c, P(d)) then (s, ELOCKED)
    else if s.stale[c] then (s, PANIC)
    else (Enqueued(s, c, d, fromKernel), OK)
  }

  function MiniNotify(s: State, src: nat, d: nat): State
    requires d < |s.procs|
  {
    var p := s.procs[d];
    if WillReceive(p, src) && !p.replyPend then Delivered(s, d, Msg(src, Notification))
    else s.Put(d, p.(notify := p.notify + {src}))
  }

  // ---- asynchronous sends ----

  /** What try_one's scan of a table finds: an entry to deliver or to refuse, or nothing,
      and then whether every entry is done. */
  datatype Pick = Picked(i: nat, bad: bool) | Nothing(done: bool)

  function Scan(table: seq<Entry>, i: nat, dst: nat, replyPend: bool, done: bool): (k: Pick)
    requires i <= |table|
    ensures k.Picked? ==> i <= k.i < |table| && table[k.i].Entry?
    decreases |table| - i
  {
    if i == |table| then Nothing(done)
    else
      var e := table[i];
      if e.Empty? then Scan(table, i + 1, dst, replyPend, done)
      else if Malformed(e) then Picked(i, true)
      else if e.done then Scan(table, i + 1, dst, replyPend, done)
      else if e.dst != P(dst) || (e.noReply && replyPend) then Scan(table, i + 1, dst, replyPend, false)
      else Picked(i, false)
  }

  /** Store a result in an entry of src's table. */
  function Store(s: State, src: nat, i: nat, r: Err): State
    requires src < |s.procs| && i < |s.procs[src].table| && s.procs[src].table[i].Entry?
  {
    var p := s.procs[src];
    s.Put(src, p.(table := p.table[i := p.table[i].(done := true, result := r)]))
  }

  predicate WantsNotify(e: Entry, r: Err)
    requires e.Entry?
  {
    e.notify || (r != OK && e.notifyErr)
  }

  function SetAsyn(s: State, d: nat, src: nat): State
    requires d < |s.procs|
  {
    s.Put(d, s.procs[d].(asyn := s.procs[d].asyn + {src}))
  }

  function UnsetAsyn(s: State, d: nat, src: nat): State
    requires d < |s.procs|
  {
    s.Put(d, s.procs[d].(asyn := s.procs[d].asyn - {src}))
  }

  function AsyncDelivered(s: State, src: nat, d: nat, i: nat): State
    requires src < |s.procs| && d < |s.procs|
  {
    var e := s.procs[src].epoch;
    Delivered(s, d, Msg(src, Async(e, i))).(log := s.log + [(src, e, i)])
  }

  /** try_one: d, which wants a message from src, takes one from src's table. */
  function TryOne(s: State, src: nat, d: nat): (r: (State, Err))
    requires s.Shape() && src < |s.procs| && d < |s.procs|
    ensures r.0.Shape() && |r.0.procs| == |s.procs| && r.0.queues == s.queues
  {
    var p := s.procs[src];
    if !p.sys then (s, EPERM) else
    var s1 := UnsetAsyn(s, d, src);
    if !p.reg then (s1, EAGAIN)
    else if d !in p.ipcTo then (s1, ECALLDENIED)
    else TryTable(s1, src, d)
  }

  /** The scan of try_one; the bit of src in d is clear and is set again unless every entry
      is done. */
  function TryTable(s: State, src: nat, d: nat): (r: (State, Err))
    requires s.Shape() && src < |s.procs| && d < |s.procs|
    ensures r.0.Shape() && |r.0.procs| == |s.procs| && r.0.queues == s.queues
  {
    match Scan(s.procs[src].table, 0, d, s.procs[d].replyPend, true)
    case Nothing(done) =>
      (if done then s.Put(src, s.procs[src].(reg := false)) else SetAsyn(s, d, src), EAGAIN)
    case Picked(i, bad) =>
      (SetAsyn(PickedEntry(s, src, d, i, bad), d, src), if bad then EINVAL else OK)
  }

  /** Entry i of src's table is delivered or refused, and marked done. */
  function PickedEntry(s: State, src: nat, d: nat, i: nat, bad: bool): (r: State)
    requires s.Shape() && src < |s.procs| && d < |s.procs| && i < |s.procs[src].table| && s.procs[src].table[i].Entry?
    ensures r.Shape() && |r.procs| == |s.procs| && r.queues == s.queues
  {
    var s2 := if bad then s else AsyncDelivered(s, src, d, i);
    var s3 := Store(s2, src, i, if bad then EINVAL else OK);
    if WantsNotify(s.procs[src].table[i], if bad then EINVAL else OK) then MiniNotify(s3, ASYNCM, src) else s3
  }

  /** try_async: try every sender whose bit is set, lowest first. */
  function TryAsync(s: State, q: nat, d: nat): (r: (State, Err))
    requires s.Shape() && q <= |s.procs| && d < |s.procs|
    ensures r.0.Shape() && |r.0.procs| == |s.procs| && r.0.queues == s.queues
    decreases |s.procs| - q
  {
    if q == |s.procs| then (s, ESRCH)
    else if s.procs[q].free || q !in s.procs[d].asyn then TryAsync(s, q + 1, d)
    else
      var (s1, r) := TryOne(s, q, d);
      if r == OK then (s1, OK) else TryAsync(s1, q + 1, d)
  }

  /** The verdict of try_deliver_senda on an entry's destination. */
  function DstError(procs: seq<Proc>, c: nat, e: Ep): Err
    requires c < |procs|
  {
    if !e.P? || e.nr >= |procs| || procs[e.nr].free then EDEADSRCDST
    else if e.nr < NR_TASKS then ECALLDENIED
    else if e.nr !in procs[c].ipcTo then ECALLDENIED
    else if procs[e.nr].noEndpoint then EDEADSRCDST
    else OK
  }

  /** One entry of try_deliver_senda; note: a notification is due, done: nothing is left. */
  datatype Senda = Senda(s: State, done: bool, note: bool)

  function SendaEntry(a: Senda, c: nat, i: nat): (r: Senda)
    requires a.s.Shape() && c < |a.s.procs| && i < |a.s.procs[c].table|
    ensures r.s.Shape() && |r.s.procs| == |a.s.procs| && |r.s.procs[c].table| == |a.s.procs[c].table|
  {
    var s := a.s;
    var e := s.procs[c].table[i];
    if !Undone(e) then a else
    var r := DstError(s.procs, c, e.dst);
    if r == OK && WillReceive(s.procs[e.dst.nr], c) && !(e.noReply && s.procs[e.dst.nr].replyPend) then
      Senda(Store(AsyncDelivered(s, c, e.dst.nr, i), c, i, OK), a.done, a.note || WantsNotify(e, OK))
    else if r == OK then
      Senda(SetAsyn(s, e.dst.nr, c), false, a.note)
    else
      Senda(Store(s, c, i, r), a.done, a.note || WantsNotify(e, r))
  }

  function SendaFrom(a: Senda, c: nat, i: nat): (r: Senda)
    requires a.s.Shape() && c < |a.s.procs| && i <= |a.s.procs[c].table|
    ensures r.s.Shape() && |r.s.procs| == |a.s.procs| && |r.s.procs[c].table| == |a.s.procs[c].table|
    decreases |a.s.procs[c].table| - i
  {
    if i == |a.s.procs[c].table| then a else SendaFrom(SendaEntry(a, c, i), c, i + 1)
  }

  /** try_deliver_senda: c submits a table. */
  function MiniSenda(s: State, c: nat, table: seq<Entry>): (State, Err)
    requires s.Shape() && c < |s.procs|
  {
    var p := s.procs[c];
    if !p.sys then (s, EPERM) else
    if |table| > MAX_ASYNC then (s.Put(c, p.(table := [], reg := false, epoch := p.epoch + 1)), EDOM) else
    var s1 := s.Put(c, p.(table := table, reg := false, epoch := p.epoch + 1));
    if |table| == 0 then (s1, OK)
    else
      var a := SendaFrom(Senda(s1, true, false), c, 0);
      var s2 := if a.note then MiniNotify(a.s, ASYNCM, c) else a.s;
      (if a.done then s2 else s2.Put(c, s2.procs[c].(reg := true)), OK)
  }

  // ---- mini_receive ----

  /** has_pending: the bit of a given source, or the lowest bit set. */
  function HasPending(bits: set<nat>, src: Ep, n: nat): (r: int)
    ensures r >= 0 ==> r in bits && (src == P(r) || src == Any)
    ensures r < 0 ==> r == -1
  {
    match src
    case P(q) => if q in bits then q else -1
    case Any => Lowest(bits, 0, n)
    case Nobody => -1
  }

  function Lowest(bits: set<nat>, i: nat, n: nat): (r: int)
    ensures r >= 0 ==> r in bits && i <= r < n && forall k: nat :: i <= k < r ==> k !in bits
    ensures r < 0 ==> r == -1 && forall k: nat :: i <= k < n ==> k !in bits
    decreases n - i
  {
    if i >= n then -1 else if i in bits then i else Lowest(bits, i + 1, n)
  }

  /** The first acceptable sender in a queue. */
  function FirstFrom(q: seq<nat>, src: Ep, i: nat): (k: int)
    requires i <= |q|
    ensures k >= 0 ==> i <= k < |q| && Accepts(src, q[k]) && forall j: nat :: i <= j < k ==> !Accepts(src, q[j])
    ensures k < 0 ==> k == -1 && forall j: nat :: i <= j < |q| ==> !Accepts(src, q[j])
    decreases |q| - i
  {
    if i == |q| then -1 else if Accepts(src, q[i]) then i else FirstFrom(q, src, i + 1)
  }

  /** c takes the message of the k-th process on its queue. */
  function Taken(s: State, c: nat, k: nat): State
    requires s.Shape() && c < |s.procs| && k < |s.queues[c]| && s.queues[c][k] < |s.procs|
  {
    var q := s.queues[c][k];
    var s1 := s.Put(c, s.procs[c].(deliver := true, deliverMsg := s.procs[q].sendMsg));
    s1.Put(q, s1.procs[q].(sending := false, fromKernel := false))
      .(queues := s.queues[c := Without(s.queues[c], k)], mail := Moved(s.mail, s.procs[q].sendMsg, WithReceiver))
  }

  function ReceiveDone(s: State, c: nat): State
    requires c < |s.procs|
  {
    s.Put(c, s.procs[c].(replyPend := false))
  }

  function NoteTaken(s: State, c: nat, n: nat): State
    requires c < |s.procs|
  {
    s.Put(c, s.procs[c].(notify := s.procs[c].notify - {n}, deliver := true, deliverMsg := Msg(n, Notification)))
  }

  /** The part of mini_receive that looks for a message that has already arrived.
      If there is none the state may change even so: asynchronous bits are brought up to date. */
  function Arrived(s: State, c: nat, src: Ep): (r: (State, bool))
    requires s.Shape() && c < |s.procs| && QueueRange(s)
    requires src.P? ==> src.nr < |s.procs|
  {
    var p := s.procs[c];
    var note := if p.replyPend then -1 else HasPending(p.notify, src, |s.procs|);
    if note >= 0 then (NoteTaken(s, c, note), true)
    else
      var (s1, r) := FromTables(s, c, src);
      if r == OK then (s1, true)
      else
        var k := FirstFrom(s1.queues[c], src, 0);
        if k >= 0 then (Taken(s1, c, k), true) else (s1, false)
  }

  /** Pending asynchronous messages. */
  function FromTables(s: State, c: nat, src: Ep): (r: (State, Err))
    requires s.Shape() && c < |s.procs| && (src.P? ==> src.nr < |s.procs|)
    ensures r.0.Shape() && |r.0.procs| == |s.procs| && r.0.queues == s.queues
  {
    if HasPending(s.procs[c].asyn, src, |s.procs|) < 0 then (s, EAGAIN)
    else if src.P? then TryOne(s, src.nr, c)
    else TryAsync(s, 0, c)
  }

  ghost predicate QueueRange(s: State) {
    s.Shape() && forall d: nat, k: nat :: d < |s.queues| && k < |s.queues[d]| ==> s.queues[d][k] < |s.procs|
  }

  ghost function MiniReceive(s: State, c: nat, src: Ep): (State, Err)
    requires c < |s.procs| && QueueRange(s)
    requires src.P? ==> src.nr < |s.procs|
  {
    if src.P? && s.procs[src.nr].noEndpoint then (s, EDEADSRCDST)
    else
      var (s1, got) := if s.procs[c].sending then (s, false) else Arrived(s, c, src);
      if got then (ReceiveDone(s1, c), OK)
      else if Deadlock(s1, c, src) then (s1, ELOCKED)
      else (s1.Put(c, s1.procs[c].(getFrom := src, receiving := true)), OK)
  }

  // ---- do_sync_ipc ----

  function Checks(s: State, c: nat, call: Call, e: Ep): Err
    requires c < |s.procs|
  {
    if e == Any && call != RECEIVE then EINVAL
    else if e != Any && !Live(s, e) then EDEADSRCDST
    else if e != Any && call != RECEIVE && e.nr !in s.procs[c].ipcTo then ECALLDENIED
    else if call !in s.procs[c].traps then ETRAPDENIED
    else if e != Any && call != SENDREC && call != RECEIVE && e.nr < NR_TASKS then ETRAPDENIED
    else OK
  }

  function WithReplyPend(s: State, c: nat, on: bool): State
    requires c < |s.procs|
  {
    s.Put(c, s.procs[c].(replyPend := on))
  }

  ghost function DoSyncIpc(s: State, c: nat, call: Call, e: Ep): (State, Err)
    requires c < |s.procs| && QueueRange(s) && call != SENDA
  {
    var err := Checks(s, c, call, e);
    if err != OK then (s, err)
    else
      match call
      case SEND => MiniSend(s, c, e.nr, false, false)
      case SENDNB => MiniSend(s, c, e.nr, true, false)
      case NOTIFY => (MiniNotify(s, c, e.nr), OK)
      case RECEIVE => MiniReceive(WithReplyPend(s, c, false), c, e)
      case SENDREC =>
        var (s1, r) := MiniSend(WithReplyPend(s, c, true), c, e.nr, false, false);
        if r != OK then (s1, r) else MiniReceive(s1, c, e)
  }

  // ---- clear_ipc, cancel_async, clear_endpoint ----

  /** clear_ipc: take p off the queue it is on and wake it.  Its queue link keeps pointing at
      the process that was behind it. */
  function ClearIpc(s: State, p: nat): (r: State)
    requires s.Shape() && p < |s.procs|
    ensures r.Shape() && |r.procs| == |s.procs|
  {
    var pr := s.procs[p];
    if pr.sending && pr.sendTo.P? && pr.sendTo.nr < |s.procs| then
      var d := pr.sendTo.nr;
      var k := IndexOf(s.queues[d], p, 0);
      var s1 := if k < 0 then s else
        s.(queues := s.queues[d := Without(s.queues[d], k)], stale := s.stale[p := k + 1 < |s.queues[d]|]);
      s1.Put(p, pr.(sending := false, receiving := false)).(mail := Moved(s.mail, pr.sendMsg, Dropped))
    else
      s.Put(p, pr.(receiving := false))
  }

  /** The scan of cancel_async: entries aimed at d are marked done. */
  datatype Cancel = Cancel(table: seq<Entry>, done: bool, note: bool)

  function CancelOne(a: Cancel, i: nat, d: nat): (r: Cancel)
    requires i < |a.table|
    ensures |r.table| == |a.table|
  {
    var e := a.table[i];
    if e.Empty? || (!Malformed(e) && e.done) then a
    else if e.dst != P(d) then a.(done := false)
    else
      var r := if Malformed(e) then EINVAL else EDEADSRCDST;
      Cancel(a.table[i := e.(done := true, result := r)], a.done, a.note || WantsNotify(e, r))
  }

  function CancelFrom(a: Cancel, i: nat, d: nat): (r: Cancel)
    requires i <= |a.table|
    ensures |r.table| == |a.table|
    decreases |a.table| - i
  {
    if i == |a.table| then a else CancelFrom(CancelOne(a, i, d), i + 1, d)
  }

  function CancelAsync(s: State, src: nat, d: nat): (r: State)
    requires s.Shape() && src < |s.procs| && d < |s.procs|
    ensures r.Shape() && |r.procs| == |s.procs| && r.queues == s.queues
  {
    var p := s.procs[src];
    if !p.sys then s else
    var s1 := UnsetAsyn(s.Put(src, p.(reg := false)), d, src);
    if !p.reg || d !in p.ipcTo then s1 else CancelTable(s1, src, d)
  }

  function CancelTable(s: State, src: nat, d: nat): (r: State)
    requires s.Shape() && src < |s.procs| && d < |s.procs|
    ensures r.Shape() && |r.procs| == |s.procs| && r.queues == s.queues
  {
    var a := CancelFrom(Cancel(s.procs[src].table, true, false), 0, d);
    var s2 := s.Put(src, s.procs[src].(table := a.table));
    var s3 := if a.note then MiniNotify(s2, ASYNCM, src) else s2;
    if a.done then s3 else s3.Put(src, s3.procs[src].(reg := true))
  }

  ghost predicate SameBits(s: State, s': State) {
    |s'.procs| == |s.procs|
    && forall q: nat :: q < |s.procs| ==> s'.procs[q].asyn == s.procs[q].asyn && s'.procs[q].sys == s.procs[q].sys
  }

  lemma NotifyKeepsBits(s: State, src: nat, d: nat)
    requires d < |s.procs|
    ensures SameBits(s, MiniNotify(s, src, d))
  {
  }

  lemma ClearIpcKeepsBits(s: State, p: nat)
    requires s.Shape() && p < |s.procs|
    ensures SameBits(s, ClearIpc(s, p))
  {
  }

  lemma CancelTableKeepsBits(s: State, src: nat, d: nat)
    requires s.Shape() && src < |s.procs| && d < |s.procs|
    ensures SameBits(s, CancelTable(s, src, d))
  {
    hide CancelFrom, MiniNotify;
    var a := CancelFrom(Cancel(s.procs[src].table, true, false), 0, d);
    NotifyKeepsBits(s.Put(src, s.procs[src].(table := a.table)), ASYNCM, src);
  }

  /** Cancelling touches no bit in d but the sender's. */
  lemma CancelClearsBit(s: State, src: nat, d: nat)
    requires s.Shape() && src < |s.procs| && d < |s.procs| && s.procs[src].sys
    ensures CancelAsync(s, src, d).procs[d].asyn == s.procs[d].asyn - {src}
    ensures forall q: nat :: q < |s.procs| ==> CancelAsync(s, src, d).procs[q].sys == s.procs[q].sys
  {
    hide CancelTable;
    var s1 := UnsetAsyn(s.Put(src, s.procs[src].(reg := false)), d, src);
    assert s1.procs[d].asyn == s.procs[d].asyn - {src};
    assert forall q: nat :: q < |s.procs| ==> s1.procs[q].sys == s.procs[q].sys;
    assert CancelAsync(s, src, d) == s1 || CancelAsync(s, src, d) == CancelTable(s1, src, d);
    hide CancelAsync, UnsetAsyn;
    CancelTableKeepsBits(s1, src, d);
  }

  /** Only system processes have their bit set in d. */
  predicate AsynOk(s: State, d: nat)
    requires d < |s.procs|
  {
    forall q :: q in s.procs[d].asyn ==> q < |s.procs| && s.procs[q].sys
  }

  /** Tell every sender with a bit set in d that its messages will not be delivered.  Each
      turn clears one bit, because the bits belong to system processes. */
  function CancelAll(s: State, d: nat): (r: State)
    requires s.Shape() && d < |s.procs| && AsynOk(s, d)
    ensures r.Shape() && |r.procs| == |s.procs| && r.queues == s.queues && r.procs[d].asyn == {}
    decreases s.procs[d].asyn
  {
    var src := Lowest(s.procs[d].asyn, 0, |s.procs|);
    if src < 0 then s else
    CancelClearsBit(s, src, d);
    CancelAll(CancelAsync(s, src, d), d)
  }

  /** The loop of clear_ipc_refs over the process table. */
  function ClearRefs(s: State, rc: nat, i: nat): (r: State)
    requires s.Shape() && rc < |s.procs| && i <= |s.procs|
    ensures r.Shape() && |r.procs| == |s.procs|
    decreases |s.procs| - i
  {
    if i == |s.procs| then s
    else
      var p := s.procs[i];
      if p.free then ClearRefs(s, rc, i + 1)
      else
        var s1 := s.Put(i, p.(notify := p.notify - {rc}, asyn := p.asyn - {rc}));
        ClearRefs(if BlockedOn(p) == P(rc) then ClearIpc(s1, i) else s1, rc, i + 1)
  }

  function ClearEndpoint(s: State, rc: nat): (r: State)
    requires s.Shape() && rc < |s.procs| && AsynOk(s, rc)
    ensures r.Shape() && |r.procs| == |s.procs|
  {
    var p := s.procs[rc];
    var s1 := s.Put(rc, p.(noEndpoint := true, reg := p.reg && !p.sys));
    ClearIpcKeepsBits(s1, rc);
    ClearRefs(CancelAll(ClearIpc(s1, rc), rc), rc, 0)
  }

  /** do_clear: the slot becomes free. */
  function FreeSlot(s: State, rc: nat): (r: State)
    requires s.Shape() && rc < |s.procs| && AsynOk(s, rc)
  {
    var s1 := ClearEndpoint(s, rc);
    s1.Put(rc, s1.procs[rc].(free := true, noEndpoint := false, sending := false, receiving := false))
  }

  /** delivermsg: the message is copied to the process. */
  function HandOver(s: State, p: nat): State
    requires p < |s.procs|
  {
    s.Put(p, s.procs[p].(deliver := false)).(mail := Moved(s.mail, s.procs[p].deliverMsg, Handed))
  }
}
