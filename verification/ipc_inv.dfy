/**
 The rendezvous invariant and its preservation by the elementary changes that the
 kernel operations are made of.
 */
module IpcInv {
  import opened Fifo
  import opened WaitGraph
  import opened Ipc

  /** A blocked sender is on the queue of its live target and its message is on record. */
  ghost predicate SenderOk(s: State, p: nat)
    requires s.Shape() && p < |s.procs|
  {
    var pr := s.procs[p];
    pr.sending ==>
      && !pr.free
      && Live(s, pr.sendTo) && pr.sendTo != P(p)
      && p in s.queues[pr.sendTo.nr]
      && pr.sendMsg.source == p && pr.sendMsg.body.Sync?
      && pr.sendMsg.body.id < |s.mail| && s.mail[pr.sendMsg.body.id] == Mail(p, pr.sendTo.nr, WithSender)
  }

  /** No missed rendezvous: a process that waits has nothing acceptable waiting for it. */
  ghost predicate ReceiverOk(s: State, p: nat)
    requires s.Shape() && p < |s.procs|
  {
    var pr := s.procs[p];
    pr.receiving ==>
      && !pr.free && !pr.deliver
      && (pr.getFrom == Any || Live(s, pr.getFrom))
      && (pr.sending ==> pr.getFrom == pr.sendTo && pr.replyPend)
      && (!pr.sending ==>
            && (forall q :: q in s.queues[p] ==> !Accepts(pr.getFrom, q))
            && (!pr.replyPend ==> forall q :: q in pr.notify ==> !Accepts(pr.getFrom, q)))
  }

  /** A message in p_delivermsg is the one that was sent to p. */
  ghost predicate DeliveryOk(s: State, p: nat)
    requires p < |s.procs|
  {
    var pr := s.procs[p];
    && (forall q :: q in pr.notify ==> q < |s.procs|)
    && (pr.deliver && pr.deliverMsg.body.Sync? ==>
          && pr.deliverMsg.body.id < |s.mail|
          && s.mail[pr.deliverMsg.body.id] == Mail(pr.deliverMsg.source, p, WithReceiver))
  }

  ghost predicate QueueOk(s: State, d: nat)
    requires s.Shape() && d < |s.procs|
  {
    && (forall q :: q in s.queues[d] ==> q < |s.procs| && s.procs[q].sending && s.procs[q].sendTo == P(d))
    && (forall i: nat, j: nat :: i < j < |s.queues[d]| ==> s.queues[d][i] != s.queues[d][j])
  }

  /** A message is where the record says. */
  ghost predicate MailOk(s: State, id: nat)
    requires id < |s.mail|
  {
    var m := s.mail[id];
    && m.from < |s.procs| && m.to < |s.procs|
    && (m.place == WithSender ==> s.procs[m.from].sending && s.procs[m.from].sendMsg == Msg(m.from, Sync(id)))
    && (m.place == WithReceiver ==> s.procs[m.to].deliver && s.procs[m.to].deliverMsg == Msg(m.from, Sync(id)))
  }

  ghost predicate Base(s: State) {
    && s.Shape()
    && (forall p: nat :: p < |s.procs| ==> SenderOk(s, p))
    && (forall p: nat :: p < |s.procs| ==> ReceiverOk(s, p))
    && (forall p: nat :: p < |s.procs| ==> DeliveryOk(s, p))
    && (forall d: nat :: d < |s.procs| ==> QueueOk(s, d))
    && (forall id: nat :: id < |s.mail| ==> MailOk(s, id))
  }

  ghost predicate Rdv(s: State) { Base(s) && Acyclic(Graph(s)) }

  ghost predicate Idle(s: State, c: nat) {
    c < |s.procs| && !s.procs[c].free && !s.procs[c].sending && !s.procs[c].receiving
  }

  // ---- Elementary changes ----

  /** No process is allowed to send to itself (set_sendto_bit). */
  ghost predicate Masks(s: State) { forall p: nat :: p < |s.procs| ==> p !in s.procs[p].ipcTo }

  /** Fixed parts of the process table. */
  ghost predicate SameSetup(s: State, s': State) {
    |s'.procs| == |s.procs|
    && forall p: nat :: p < |s.procs| ==>
         && s'.procs[p].ipcTo == s.procs[p].ipcTo && s'.procs[p].sys == s.procs[p].sys
         && s'.procs[p].traps == s.procs[p].traps
         && s'.procs[p].free == s.procs[p].free && s'.procs[p].noEndpoint == s.procs[p].noEndpoint
  }

  /** A message moves on from its sender to its receiver; drop: or it goes with its sender. */
  predicate Later(a: Place, b: Place, drop: bool) {
    || a == b || (a == WithReceiver && b == Handed)
    || (a == WithSender && (b == WithReceiver || b == Handed || (drop && b == Dropped)))
  }

  ghost predicate MailOnward(m: seq<Mail>, m': seq<Mail>, drop: bool) {
    |m| <= |m'| && forall id: nat :: id < |m| ==>
      m'[id].from == m[id].from && m'[id].to == m[id].to && Later(m[id].place, m'[id].place, drop)
  }

  /** No filled p_delivermsg is overwritten and no mail goes back. */
  ghost predicate Kept(s: State, s': State, drop: bool) {
    && |s'.procs| == |s.procs| && MailOnward(s.mail, s'.mail, drop)
    && forall p: nat :: p < |s.procs| && s.procs[p].deliver ==>
         s'.procs[p].deliver && s'.procs[p].deliverMsg == s.procs[p].deliverMsg
  }

  ghost predicate Onward(s: State, s': State) { SameSetup(s, s') && Kept(s, s', false) }

  /** As Onward, but messages of senders taken off a queue may be dropped. */
  ghost predicate Dropping(s: State, s': State) { SameSetup(s, s') && Kept(s, s', true) }

  /** Only process p differs. */
  ghost predicate OnlyAt(s: State, s': State, p: nat) {
    && p < |s.procs| == |s'.procs| && s'.queues == s.queues
    && forall x: nat :: x < |s.procs| && x != p ==> s'.procs[x] == s.procs[x]
  }

  /** Fields that the rendezvous invariant does not look at may change freely. */
  ghost predicate SameRdv(s: State, s': State) {
    && |s'.procs| == |s.procs| && s'.queues == s.queues && |s'.stale| == |s.stale| && s'.mail == s.mail
    && forall p: nat :: p < |s.procs| ==>
         var a, b := s.procs[p], s'.procs[p];
         && b.free == a.free && b.sending == a.sending && b.receiving == a.receiving
         && b.sendTo == a.sendTo && b.getFrom == a.getFrom && b.sendMsg == a.sendMsg
         && b.deliver == a.deliver && b.deliverMsg == a.deliverMsg && b.replyPend == a.replyPend && b.notify == a.notify
  }

  lemma SameGraph(s: State, s': State)
    requires |s'.procs| == |s.procs|
    requires forall p: nat :: p < |s.procs| ==> BlockedOn(s'.procs[p]) == BlockedOn(s.procs[p])
    ensures Graph(s') == Graph(s)
  {
  }

  lemma SameRdvKeeps(s: State, s': State)
    requires SameRdv(s, s') && Rdv(s)
    ensures Rdv(s')
  {
    SameGraph(s, s');
    forall p: nat | p < |s.procs| ensures SenderOk(s', p) && ReceiverOk(s', p) && DeliveryOk(s', p) && QueueOk(s', p) {
      assert SenderOk(s, p) && ReceiverOk(s, p) && DeliveryOk(s, p) && QueueOk(s, p);
    }
    forall id: nat | id < |s'.mail| ensures MailOk(s', id) { assert MailOk(s, id); }
  }

  /** Removing edges keeps the blocked-on graph acyclic. */
  lemma FewerEdges(s: State, s': State)
    requires |s'.procs| == |s.procs| && Acyclic(Graph(s))
    requires forall p: nat :: p < |s.procs| ==>
               BlockedOn(s'.procs[p]) == BlockedOn(s.procs[p]) || Edge(s', p) == -1
    ensures Acyclic(Graph(s'))
  {
    forall p: nat | p < |s.procs| ensures Graph(s')[p] == Graph(s)[p] || Graph(s')[p] == -1 {
      assert Graph(s')[p] == Edge(s', p) && Graph(s)[p] == Edge(s, p);
    }
    SubgraphAcyclic(Graph(s'), Graph(s));
  }

  /** A change to one process that leaves its sending side and any filled p_delivermsg alone,
      and at most adds mail. */
  lemma LocalKeeps(s: State, s': State, c: nat)
    requires Base(s) && c < |s.procs| == |s'.procs| && s'.queues == s.queues && |s'.stale| == |s.stale|
    requires forall p: nat :: p < |s.procs| && p != c ==> s'.procs[p] == s.procs[p]
    requires var a, b := s.procs[c], s'.procs[c];
             && b.free == a.free
             && b.sending == a.sending && b.sendTo == a.sendTo && b.sendMsg == a.sendMsg
             && (a.deliver ==> b.deliver && b.deliverMsg == a.deliverMsg)
    requires s.mail <= s'.mail && forall id: nat :: |s.mail| <= id < |s'.mail| ==> MailOk(s', id)
    requires ReceiverOk(s', c) && DeliveryOk(s', c)
    ensures Base(s')
  {
    forall p: nat | p < |s.procs| ensures SenderOk(s', p) { assert SenderOk(s, p); }
    forall p: nat | p < |s.procs| ensures ReceiverOk(s', p) { assert ReceiverOk(s, p); }
    forall p: nat | p < |s.procs| ensures DeliveryOk(s', p) { assert DeliveryOk(s, p); }
    forall p: nat | p < |s.procs| ensures QueueOk(s', p) { assert QueueOk(s, p); }
    forall id: nat | id < |s'.mail| ensures MailOk(s', id) { if id < |s.mail| { assert MailOk(s, id); } }
  }

  /** A message that is not a synchronous send reaches a waiting process. */
  lemma DeliverKeeps(s: State, d: nat, m: Msg)
    requires Rdv(s) && d < |s.procs| && s.procs[d].receiving && !s.procs[d].sending && !m.body.Sync?
    ensures Rdv(Delivered(s, d, m)) && Onward(s, Delivered(s, d, m))
  {
    var s' := Delivered(s, d, m);
    assert ReceiverOk(s, d) && DeliveryOk(s, d);
    FewerEdges(s, s');
    LocalKeeps(s, s', d);
  }

  /** A synchronous send reaches a waiting process at once. */
  lemma SendKeeps(s: State, c: nat, d: nat)
    requires Rdv(s) && c < |s.procs| && d < |s.procs| && s.procs[d].receiving && !s.procs[d].sending
    ensures var s1 := Delivered(s, d, Msg(c, Sync(|s.mail|)));
            var r := s1.Put(d, s1.procs[d].(replyPend := false)).(mail := s.mail + [Mail(c, d, WithReceiver)]);
            Rdv(r) && Onward(s, r)
  {
    var s1 := Delivered(s, d, Msg(c, Sync(|s.mail|)));
    var s' := s1.Put(d, s1.procs[d].(replyPend := false)).(mail := s.mail + [Mail(c, d, WithReceiver)]);
    assert ReceiverOk(s, d) && DeliveryOk(s, d);
    FewerEdges(s, s');
    hide Acyclic, Graph, Edge, SenderOk, QueueOk;
    LocalKeeps(s, s', d);
  }

  lemma NotifyKeeps(s: State, src: nat, d: nat)
    requires Rdv(s) && src < |s.procs| && d < |s.procs|
    ensures Rdv(MiniNotify(s, src, d)) && Onward(s, MiniNotify(s, src, d)) && OnlyAt(s, MiniNotify(s, src, d), d)
  {
    var pr := s.procs[d];
    if WillReceive(pr, src) && !pr.replyPend {
      DeliverKeeps(s, d, Msg(src, Notification));
    } else {
      var s' := s.Put(d, pr.(notify := pr.notify + {src}));
      assert ReceiverOk(s, d) && DeliveryOk(s, d);
      SameGraph(s, s');
      LocalKeeps(s, s', d);
    }
  }

  /** A process that is not waiting gets a message that is not a synchronous send. */
  lemma GiveKeeps(s: State, c: nat, pr: Proc)
    requires Rdv(s) && c < |s.procs| && !s.procs[c].receiving && !s.procs[c].deliver
    requires !pr.deliver || !pr.deliverMsg.body.Sync?
    requires pr.notify <= s.procs[c].notify
    requires var a := s.procs[c];
             && pr.free == a.free && pr.sending == a.sending && !pr.receiving
             && pr.sendTo == a.sendTo && pr.sendMsg == a.sendMsg
    ensures Rdv(s.Put(c, pr))
  {
    var s' := s.Put(c, pr);
    assert DeliveryOk(s, c);
    SameGraph(s, s');
    LocalKeeps(s, s', c);
  }

  /** The graph after c blocks on d. */
  lemma NewEdge(s: State, s': State, c: nat, d: nat)
    requires |s'.procs| == |s.procs| && c < |s.procs| && d < |s.procs| && Acyclic(Graph(s))
    requires Edge(s, c) == -1 && Edge(s', c) == d
    requires forall p: nat :: p < |s.procs| && p != c ==> s'.procs[p] == s.procs[p]
    ensures Acyclic(Graph(s')) <==> !Reaches(Graph(s), d, c)
  {
    forall x: nat | x < |s.procs| && x != c ensures Graph(s')[x] == Graph(s)[x] {
      assert Edge(s', x) == Edge(s, x);
    }
    assert Graph(s') == Graph(s)[c := d];
    AddEdge(Graph(s), c, d);
  }

  /** Where c and e differ, deadlock() finds out exactly whether blocking c on e would close
      a cycle. */
  lemma DeadlockExact(s: State, c: nat, d: nat)
    requires c < |s.procs| && d < |s.procs| && d != c
    ensures Deadlock(s, c, P(d)) <==> Reaches(Graph(s), d, c)
  {
    if Reaches(Graph(s), d, c) {
      var n: nat :| Nth(Graph(s), d, n) == c;
      assert n > 0;
    }
  }

  lemma EnqueueKeeps(s: State, c: nat, d: nat, fromKernel: bool)
    requires Rdv(s) && Idle(s, c) && Live(s, P(d)) && d != c
    requires !WillReceive(s.procs[d], c) && !Deadlock(s, c, P(d))
    ensures Rdv(Enqueued(s, c, d, fromKernel))
  {
    var s' := Enqueued(s, c, d, fromKernel);
    DeadlockExact(s, c, d);
    NewEdge(s, s', c, d);
    hide Deadlock, Acyclic, Graph, Edge;
    forall p: nat | p < |s.procs| ensures SenderOk(s', p) { assert SenderOk(s, p); }
    forall p: nat | p < |s.procs| ensures ReceiverOk(s', p) { assert ReceiverOk(s, p); }
    forall p: nat | p < |s.procs| ensures DeliveryOk(s', p) { assert DeliveryOk(s, p); }
    forall p: nat | p < |s.procs| ensures QueueOk(s', p) { assert QueueOk(s, p); }
    forall id: nat | id < |s'.mail| ensures MailOk(s', id) { if id < |s.mail| { assert MailOk(s, id); } }
  }

  /** c has nothing acceptable waiting, so it may block. */
  ghost predicate NothingFor(s: State, c: nat, src: Ep)
    requires s.Shape() && c < |s.procs|
  {
    && (forall q :: q in s.queues[c] ==> !Accepts(src, q))
    && (!s.procs[c].replyPend ==> forall q :: q in s.procs[c].notify ==> !Accepts(src, q))
  }

  /** Blocking c on src, which may be c's own target of a blocked send. */
  lemma WaitKeeps(s: State, c: nat, src: Ep)
    requires Rdv(s) && c < |s.procs| && !s.procs[c].free && !s.procs[c].receiving && !s.procs[c].deliver
    requires src == Any || (Live(s, src) && src != P(c))
    requires if s.procs[c].sending then src == s.procs[c].sendTo && s.procs[c].replyPend
             else NothingFor(s, c, src) && !Deadlock(s, c, src)
    ensures Rdv(s.Put(c, s.procs[c].(getFrom := src, receiving := true)))
  {
    var s' := s.Put(c, s.procs[c].(getFrom := src, receiving := true));
    if s.procs[c].sending || src == Any {
      FewerEdges(s, s');
    } else {
      DeadlockExact(s, c, src.nr);
      NewEdge(s, s', c, src.nr);
    }
    assert DeliveryOk(s, c);
    LocalKeeps(s, s', c);
  }

  /** s' is s after q has left the queue of d: it no longer sends and its mail is elsewhere. */
  ghost predicate Left(s: State, s': State, q: nat, d: nat, place: Place) {
    && s.Shape() && s'.Shape() && |s'.procs| == |s.procs| && q < |s.procs| && d < |s.procs|
    && s.procs[q].sending && s.procs[q].sendTo == P(d)
    && (exists k: nat ::
       k < |s.queues[d]| && s.queues[d][k] == q && s'.queues == s.queues[d := Without(s.queues[d], k)])
    && s'.mail == Moved(s.mail, s.procs[q].sendMsg, place)
    && !s'.procs[q].sending && s'.procs[q].sendMsg == s.procs[q].sendMsg && s'.procs[q].getFrom == s.procs[q].getFrom
    && forall p: nat :: p < |s.procs| ==>
         var a, b := s.procs[p], s'.procs[p];
         && b.free == a.free && b.notify == a.notify
         && (p != q ==> b.sending == a.sending && b.receiving == a.receiving && b.sendTo == a.sendTo
                        && b.getFrom == a.getFrom && b.sendMsg == a.sendMsg && b.replyPend == a.replyPend)
  }

  lemma LeftQueues(s: State, s': State, q: nat, d: nat, place: Place)
    requires Base(s) && Left(s, s', q, d, place)
    ensures forall p: nat :: p < |s.procs| ==> QueueOk(s', p) && SenderOk(s', p)
    ensures forall p: nat, x :: p < |s.procs| && x in s'.queues[p] ==> x in s.queues[p]
  {
    var k: nat :| k < |s.queues[d]| && s.queues[d][k] == q && s'.queues == s.queues[d := Without(s.queues[d], k)];
    assert QueueOk(s, d) && SenderOk(s, q);
    WithoutOne(s.queues[d], k);
    forall p: nat | p < |s.procs| ensures QueueOk(s', p) { assert QueueOk(s, p); }
    forall p: nat | p < |s.procs| ensures SenderOk(s', p) { assert SenderOk(s, p); }
  }

  lemma TakeKeeps(s: State, c: nat, k: nat)
    requires Rdv(s) && Idle(s, c) && !s.procs[c].deliver && k < |s.queues[c]|
    ensures s.queues[c][k] < |s.procs| && s.queues[c][k] != c && Rdv(Taken(s, c, k))
  {
    assert QueueOk(s, c);
    var q := s.queues[c][k];
    assert q in s.queues[c];
    assert SenderOk(s, q) && ReceiverOk(s, q) && QueueOk(s, q);
    var s' := Taken(s, c, k);
    assert Left(s, s', q, c, WithReceiver);
    LeftQueues(s, s', q, c, WithReceiver);
    FewerOrSame(s, s', q);
    TakenProcs(s, c, k);
    TakenMail(s, c, k);
    hide SenderOk, ReceiverOk, DeliveryOk, QueueOk, MailOk, Taken, Graph;
  }

  lemma TakenProcs(s: State, c: nat, k: nat)
    requires Base(s) && Idle(s, c) && !s.procs[c].deliver && k < |s.queues[c]| && s.queues[c][k] < |s.procs|
    requires Left(s, Taken(s, c, k), s.queues[c][k], c, WithReceiver) && s.queues[c][k] != c
    requires forall p: nat, x :: p < |s.procs| && x in Taken(s, c, k).queues[p] ==> x in s.queues[p]
    ensures forall p: nat :: p < |s.procs| ==> ReceiverOk(Taken(s, c, k), p) && DeliveryOk(Taken(s, c, k), p)
  {
    var s', q := Taken(s, c, k), s.queues[c][k];
    assert SenderOk(s, q) && QueueOk(s, q);
    forall p: nat | p < |s.procs| ensures ReceiverOk(s', p) { assert ReceiverOk(s, p); }
    forall p: nat | p < |s.procs| ensures DeliveryOk(s', p) { assert DeliveryOk(s, p); }
  }

  lemma TakenMail(s: State, c: nat, k: nat)
    requires Base(s) && Idle(s, c) && !s.procs[c].deliver && k < |s.queues[c]| && s.queues[c][k] < |s.procs|
    requires Left(s, Taken(s, c, k), s.queues[c][k], c, WithReceiver) && s.queues[c][k] != c
    ensures forall id: nat :: id < |Taken(s, c, k).mail| ==> MailOk(Taken(s, c, k), id)
  {
    var s', q := Taken(s, c, k), s.queues[c][k];
    assert SenderOk(s, q) && DeliveryOk(s, c);
    forall id: nat | id < |s'.mail| ensures MailOk(s', id) { assert MailOk(s, id); }
  }

  /** d has been given a message. */
  ghost predicate Served(s': State, d: nat) {
    d < |s'.procs| && !s'.procs[d].receiving && !s'.procs[d].sending && s'.procs[d].deliver
  }

  lemma TakeOnward(s: State, c: nat, k: nat)
    requires Rdv(s) && Idle(s, c) && !s.procs[c].deliver && k < |s.queues[c]| && s.queues[c][k] < |s.procs|
    ensures Onward(s, Taken(s, c, k)) && Served(Taken(s, c, k), c)
  {
    var q := s.queues[c][k];
    assert q in s.queues[c] && QueueOk(s, c) && SenderOk(s, q);
  }

  /** When the send of a SENDREC completes, the process waits for the same process as before;
      otherwise its edge goes away. */
  lemma FewerOrSame(s: State, s': State, q: nat)
    requires Base(s) && q < |s.procs| == |s'.procs| && Acyclic(Graph(s)) && s.procs[q].sending
    requires forall p: nat :: p < |s.procs| && p != q ==> BlockedOn(s'.procs[p]) == BlockedOn(s.procs[p])
    requires !s'.procs[q].sending && s'.procs[q].getFrom == s.procs[q].getFrom
    requires s'.procs[q].receiving ==> s.procs[q].receiving
    ensures Acyclic(Graph(s'))
  {
    assert ReceiverOk(s, q);
    FewerEdges(s, s');
  }

  /** clear_ipc. */
  lemma ClearIpcKeeps(s: State, p: nat)
    requires Rdv(s) && p < |s.procs|
    ensures Rdv(ClearIpc(s, p))
    ensures var r := ClearIpc(s, p).procs[p]; !r.sending && !r.receiving
    ensures forall x: nat :: x < |s.procs| && x != p ==> ClearIpc(s, p).procs[x] == s.procs[x]
    ensures forall d: nat :: d < |s.procs| ==> p !in ClearIpc(s, p).queues[d]
    ensures forall d: nat, x :: d < |s.procs| && x in ClearIpc(s, p).queues[d] ==> x in s.queues[d]
  {
    var s' := ClearIpc(s, p);
    assert SenderOk(s, p) && DeliveryOk(s, p) && ReceiverOk(s, p);
    if s.procs[p].sending {
      var d := s.procs[p].sendTo.nr;
      var k := IndexOf(s.queues[d], p, 0);
      assert k >= 0;
      assert Left(s, s', p, d, Dropped);
      LeftQueues(s, s', p, d, Dropped);
      FewerOrSame(s, s', p);
      forall x: nat | x < |s.procs| ensures ReceiverOk(s', x) { assert ReceiverOk(s, x); }
      forall x: nat | x < |s.procs| ensures DeliveryOk(s', x) { assert DeliveryOk(s, x); }
      forall id: nat | id < |s'.mail| ensures MailOk(s', id) { assert MailOk(s, id); }
    } else {
      FewerEdges(s, s');
      LocalKeeps(s, s', p);
    }
    forall d: nat | d < |s.procs| ensures p !in s'.queues[d] { assert QueueOk(s', d); }
  }

  lemma ClearIpcOnward(s: State, p: nat)
    requires Rdv(s) && p < |s.procs|
    ensures Dropping(s, ClearIpc(s, p))
  {
    assert SenderOk(s, p);
  }

  lemma HandOverKeeps(s: State, p: nat)
    requires Rdv(s) && p < |s.procs| && s.procs[p].deliver
    ensures Rdv(HandOver(s, p))
  {
    var s' := HandOver(s, p);
    SameGraph(s, s');
    forall x: nat | x < |s.procs| ensures SenderOk(s', x) { assert SenderOk(s, x) && DeliveryOk(s, p); }
    forall x: nat | x < |s.procs| ensures ReceiverOk(s', x) { assert ReceiverOk(s, x); }
    forall x: nat | x < |s.procs| ensures DeliveryOk(s', x) { assert DeliveryOk(s, x) && DeliveryOk(s, p); }
    forall x: nat | x < |s.procs| ensures QueueOk(s', x) { assert QueueOk(s, x); }
    forall id: nat | id < |s'.mail| ensures MailOk(s', id) { assert MailOk(s, id); }
  }

  /** A process that takes part in nothing may lose its slot. */
  lemma RetireKeeps(s: State, p: nat, pr: Proc)
    requires Rdv(s) && p < |s.procs| && !s.procs[p].sending && !s.procs[p].receiving
    requires forall x: nat :: x < |s.procs| ==> BlockedOn(s.procs[x]) != P(p)
    requires pr == s.procs[p].(free := pr.free, noEndpoint := pr.noEndpoint, reg := pr.reg, asyn := pr.asyn, notify :=
             pr.notify)
    requires pr.notify <= s.procs[p].notify
    ensures Rdv(s.Put(p, pr))
  {
    var s' := s.Put(p, pr);
    SameGraph(s, s');
    forall x: nat | x < |s.procs| ensures SenderOk(s', x) { assert SenderOk(s, x); }
    forall x: nat | x < |s.procs| ensures ReceiverOk(s', x) { assert ReceiverOk(s, x) && SenderOk(s, x); }
    forall x: nat | x < |s.procs| ensures DeliveryOk(s', x) { assert DeliveryOk(s, x); }
    forall x: nat | x < |s.procs| ensures QueueOk(s', x) { assert QueueOk(s, x); }
    forall id: nat | id < |s'.mail| ensures MailOk(s', id) { assert MailOk(s, id); }
  }

  // ---- The operations ----

  /** d itself has only had asynchronous bits changed. */
  ghost predicate Untouched(s: State, s': State, d: nat) {
    && d < |s.procs| == |s'.procs| && s'.queues == s.queues
    && s'.procs[d] == s.procs[d].(asyn := s'.procs[d].asyn)
  }

  /** Changing asynchronous bits and tables of one process. */
  lemma BitsKeep(s: State, p: nat, pr: Proc)
    requires Rdv(s) && p < |s.procs|
    requires pr == s.procs[p].(asyn := pr.asyn, table := pr.table, reg := pr.reg, epoch := pr.epoch)
    ensures Rdv(s.Put(p, pr)) && Onward(s, s.Put(p, pr)) && OnlyAt(s, s.Put(p, pr), p)
  {
    SameRdvKeeps(s, s.Put(p, pr));
  }

  lemma PickedKeeps(s: State, src: nat, d: nat, i: nat, bad: bool)
    requires Rdv(s) && src < |s.procs| && Idle(s, d) && !s.procs[d].deliver && src != d
    requires i < |s.procs[src].table| && s.procs[src].table[i].Entry?
    ensures var r := PickedEntry(s, src, d, i, bad);
            Rdv(r) && Onward(s, r) && if bad then r.procs[d] == s.procs[d] else Served(r, d)
  {
    hide Rdv, MiniNotify, Onward, Store, AsyncDelivered;
    ShapeOf(s);
    OnwardSelf(s);
    if !bad {
      AsyncGiveKeeps(s, src, d, i);
      GivenServed(s, src, d, i);
    }
    var s2 := if bad then s else AsyncDelivered(s, src, d, i);
    var s3 := Store(s2, src, i, if bad then EINVAL else OK);
    StoreKeeps(s2, src, i, if bad then EINVAL else OK);
    OnwardTrans(s, s2, s3);
    NotifyKeeps(s3, ASYNCM, src);
    NotifyOthers(s3, ASYNCM, src);
    OnwardTrans(s, s3, MiniNotify(s3, ASYNCM, src));
  }

  lemma GivenServed(s: State, src: nat, d: nat, i: nat)
    requires Idle(s, d) && src < |s.procs| && src != d
    ensures var r := AsyncDelivered(s, src, d, i); Served(r, d) && src < |r.procs| && r.procs[src] == s.procs[src]
  {
  }

  lemma StoreKeeps(s: State, src: nat, i: nat, e: Err)
    requires Rdv(s) && src < |s.procs| && i < |s.procs[src].table| && s.procs[src].table[i].Entry?
    ensures Rdv(Store(s, src, i, e)) && Onward(s, Store(s, src, i, e)) && |Store(s, src, i, e).procs| == |s.procs|
    ensures forall x: nat :: x < |s.procs| && x != src ==> Store(s, src, i, e).procs[x] == s.procs[x]
  {
    hide Rdv, Onward;
    BitsKeep(s, src, Store(s, src, i, e).procs[src]);
  }

  lemma NotifyOthers(s: State, src: nat, d: nat)
    requires d < |s.procs|
    ensures forall x: nat :: x < |s.procs| && x != d ==> MiniNotify(s, src, d).procs[x] == s.procs[x]
    ensures |MiniNotify(s, src, d).procs| == |s.procs|
  {
  }

  lemma DroppingTrans(a: State, b: State, c: State)
    requires (Onward(a, b) || Dropping(a, b)) && (Onward(b, c) || Dropping(b, c))
    ensures Dropping(a, c)
  {
  }

  lemma OnwardTrans(a: State, b: State, c: State)
    requires Onward(a, b) && Onward(b, c)
    ensures Onward(a, c)
  {
  }

  lemma SetAsynKeeps(s: State, d: nat, src: nat)
    requires Rdv(s) && d < |s.procs|
    ensures Rdv(SetAsyn(s, d, src)) && Onward(s, SetAsyn(s, d, src)) && Untouched(s, SetAsyn(s, d, src), d)
  {
    BitsKeep(s, d, s.procs[d].(asyn := s.procs[d].asyn + {src}));
  }

  lemma TryTableKeeps(s: State, src: nat, d: nat)
    requires Rdv(s) && src < |s.procs| && Idle(s, d) && !s.procs[d].deliver && src != d
    ensures var r := TryTable(s, src, d);
            Rdv(r.0) && Onward(s, r.0) && if r.1 == OK then Served(r.0, d) else Untouched(s, r.0, d)
  {
    hide Rdv, PickedEntry, Scan, SetAsyn, Onward;
    assert s.Shape() by { ShapeOf(s); }
    match Scan(s.procs[src].table, 0, d, s.procs[d].replyPend, true)
    case Nothing(done) =>
      if done { BitsKeep(s, src, s.procs[src].(reg := false)); } else { SetAsynKeeps(s, d, src); }
    case Picked(i, bad) =>
      PickedSetKeeps(s, src, d, i, bad);
  }

  lemma PickedSetKeeps(s: State, src: nat, d: nat, i: nat, bad: bool)
    requires Rdv(s) && src < |s.procs| && Idle(s, d) && !s.procs[d].deliver && src != d
    requires i < |s.procs[src].table| && s.procs[src].table[i].Entry?
    ensures var r := SetAsyn(PickedEntry(s, src, d, i, bad), d, src);
            Rdv(r) && Onward(s, r) && if bad then Untouched(s, r, d) else Served(r, d)
  {
    hide Rdv, PickedEntry, Onward;
    assert s.Shape() by { ShapeOf(s); }
    PickedKeeps(s, src, d, i, bad);
    var s4 := PickedEntry(s, src, d, i, bad);
    SetAsynKeeps(s4, d, src);
    OnwardTrans(s, s4, SetAsyn(s4, d, src));
  }

  lemma ShapeOf(s: State)
    requires Rdv(s)
    ensures s.Shape()
  {
  }

  lemma TryOneKeeps(s: State, src: nat, d: nat)
    requires Rdv(s) && Masks(s) && src < |s.procs| && Idle(s, d) && !s.procs[d].deliver
    ensures var r := TryOne(s, src, d);
            Rdv(r.0) && Onward(s, r.0) && if r.1 == OK then Served(r.0, d) else Untouched(s, r.0, d)
  {
    hide Rdv, TryTable, Onward;
    assert s.Shape() by { ShapeOf(s); }
    assert Onward(s, s) by { OnwardSelf(s); }
    var p := s.procs[src];
    var s1 := UnsetAsyn(s, d, src);
    BitsKeep(s, d, s1.procs[d]);
    if p.sys && p.reg && d in p.ipcTo {
      TryTableKeeps(s1, src, d);
      OnwardTrans(s, s1, TryTable(s1, src, d).0);
    }
  }

  lemma MasksOnward(s: State, s': State)
    requires Masks(s) && Onward(s, s')
    ensures Masks(s')
  {
  }

  lemma {:induction false} TryAsyncKeeps(s: State, q: nat, d: nat)
    requires Rdv(s) && Masks(s) && q <= |s.procs| && Idle(s, d) && !s.procs[d].deliver
    ensures var r := TryAsync(s, q, d);
            Rdv(r.0) && Onward(s, r.0) && if r.1 == OK then Served(r.0, d) else Untouched(s, r.0, d)
    decreases |s.procs| - q
  {
    hide Rdv, TryOne, Onward, Masks;
    ShapeOf(s);
    OnwardSelf(s);
    if q < |s.procs| {
      if s.procs[q].free || q !in s.procs[d].asyn {
        TryAsyncKeeps(s, q + 1, d);
      } else {
        TryOneKeeps(s, q, d);
        var r := TryOne(s, q, d);
        if r.1 != OK {
          MasksOnward(s, r.0);
          TryAsyncKeeps(r.0, q + 1, d);
          OnwardTrans(s, r.0, TryAsync(r.0, q + 1, d).0);
        }
      }
    }
  }

  lemma AsyncGiveKeeps(s: State, src: nat, d: nat, i: nat)
    requires Rdv(s) && src < |s.procs| && d < |s.procs| && !s.procs[d].receiving && !s.procs[d].deliver
    ensures Rdv(AsyncDelivered(s, src, d, i))
    ensures Onward(s, AsyncDelivered(s, src, d, i)) && OnlyAt(s, AsyncDelivered(s, src, d, i), d)
  {
    var m := Msg(src, Async(s.procs[src].epoch, i));
    var s' := Delivered(s, d, m);
    GiveKeeps(s, d, s.procs[d].(deliver := true, deliverMsg := m, receiving := false));
    SameRdvKeeps(s', AsyncDelivered(s, src, d, i));
  }

  lemma ReplyPendKeeps(s: State, c: nat, on: bool)
    requires Rdv(s) && c < |s.procs| && !s.procs[c].receiving
    ensures Rdv(WithReplyPend(s, c, on)) && Onward(s, WithReplyPend(s, c, on))
  {
    var s' := WithReplyPend(s, c, on);
    assert DeliveryOk(s, c);
    SameGraph(s, s');
    LocalKeeps(s, s', c);
  }

  lemma ArrivedKeeps(s: State, c: nat, src: Ep)
    requires Rdv(s) && Masks(s) && Idle(s, c) && !s.procs[c].deliver && QueueRange(s)
    requires src == Any || Live(s, src)
    ensures var r := Arrived(s, c, src);
            && Rdv(r.0) && Onward(s, r.0)
            && if r.1 then Served(r.0, c) else Untouched(s, r.0, c) && NothingFor(r.0, c, src)
  {
    hide Acyclic, SenderOk, ReceiverOk, QueueOk, MailOk, FromTables, Onward;
    var p := s.procs[c];
    assert DeliveryOk(s, c);
    var note := if p.replyPend then -1 else HasPending(p.notify, src, |s.procs|);
    if note >= 0 {
      NoteKeeps(s, c, note);
    } else {
      FromTablesKeeps(s, c, src);
      var (s1, r) := FromTables(s, c, src);
      if r != OK {
        var k := FirstFrom(s1.queues[c], src, 0);
        if k >= 0 { TakeKeeps(s1, c, k); TakeOnward(s1, c, k); OnwardTrans(s, s1, Taken(s1, c, k)); }
      }
    }
  }

  lemma NoteKeeps(s: State, c: nat, n: nat)
    requires Rdv(s) && Idle(s, c) && !s.procs[c].deliver
    ensures Rdv(NoteTaken(s, c, n)) && Onward(s, NoteTaken(s, c, n)) && Served(NoteTaken(s, c, n), c)
  {
    GiveKeeps(s, c, NoteTaken(s, c, n).procs[c]);
  }

  lemma FromTablesKeeps(s: State, c: nat, src: Ep)
    requires Rdv(s) && Masks(s) && Idle(s, c) && !s.procs[c].deliver && (src == Any || Live(s, src))
    ensures var r := FromTables(s, c, src);
            Rdv(r.0) && Onward(s, r.0) && if r.1 == OK then Served(r.0, c) else Untouched(s, r.0, c)
  {
    hide Acyclic, SenderOk, ReceiverOk, DeliveryOk, QueueOk, MailOk, TryOne, TryAsync;
    if src.P? { TryOneKeeps(s, src.nr, c); } else { TryAsyncKeeps(s, 0, c); }
  }

  /** The second half of a blocked SENDREC is never refused: c already waits for src. */
  lemma NoSecondDeadlock(s: State, c: nat)
    requires Rdv(s) && c < |s.procs| && s.procs[c].sending
    ensures !Deadlock(s, c, s.procs[c].sendTo)
  {
    assert SenderOk(s, c);
    var d := s.procs[c].sendTo.nr;
    if n: nat :| n > 0 && Nth(Graph(s), d, n) == c {
      assert Graph(s)[c] == Edge(s, c) == d;
      assert Nth(Graph(s), c, n + 1) == c;
    }
  }

  ghost predicate MayReceive(s: State, c: nat, src: Ep) {
    && c < |s.procs| && !s.procs[c].free && !s.procs[c].receiving && !s.procs[c].deliver
    && (src == Any || (Live(s, src) && src != P(c)))
    && (s.procs[c].sending ==> src == s.procs[c].sendTo && s.procs[c].replyPend)
  }

  lemma OnwardSelf(s: State)
    ensures Onward(s, s)
  {
  }

  lemma OnwardSetup(s: State, s': State)
    requires Onward(s, s')
    ensures SameSetup(s, s')
  {
  }

  lemma WaitOnward(s: State, c: nat, src: Ep)
    requires c < |s.procs|
    ensures Onward(s, s.Put(c, s.procs[c].(getFrom := src, receiving := true)))
  {
  }

  lemma ReceiveKeeps(s: State, c: nat, src: Ep)
    requires Rdv(s) && Masks(s) && QueueRange(s) && MayReceive(s, c, src)
    ensures var r := MiniReceive(s, c, src);
            Rdv(r.0) && Onward(s, r.0)
            && (s.procs[c].sending && src.P? && !s.procs[src.nr].noEndpoint ==> r.1 == OK && r.0.procs[c].sending)
  {
    hide Rdv, Arrived, Deadlock, Onward;
    assert s.Shape() by { ShapeOf(s); }
    assert Onward(s, s) by { OnwardSelf(s); }
    if !(src.P? && s.procs[src.nr].noEndpoint) {
      if s.procs[c].sending {
        NoSecondDeadlock(s, c);
        WaitKeeps(s, c, src);
        WaitOnward(s, c, src);
      } else {
        ArrivedKeeps(s, c, src);
        var (s1, got) := Arrived(s, c, src);
        if got {
          ReplyPendKeeps(s1, c, false);
          OnwardTrans(s, s1, ReceiveDone(s1, c));
        } else if !Deadlock(s1, c, src) {
          assert Live(s, src) ==> Live(s1, src) by { OnwardSetup(s, s1); }
          WaitKeeps(s1, c, src);
          WaitOnward(s1, c, src);
          OnwardTrans(s, s1, s1.Put(c, s1.procs[c].(getFrom := src, receiving := true)));
        }
      }
    }
  }

  lemma SendStepKeeps(s: State, c: nat, d: nat, nonBlocking: bool, fromKernel: bool)
    requires Rdv(s) && Idle(s, c) && Live(s, P(d)) && d != c
    ensures var r := MiniSend(s, c, d, nonBlocking, fromKernel);
            && Rdv(r.0) && Onward(s, r.0)
            && r.0.procs[c].deliver == s.procs[c].deliver && !r.0.procs[c].receiving
               && r.0.procs[c].replyPend == s.procs[c].replyPend
            && (r.0.procs[c].sending ==> r.0.procs[c].sendTo == P(d))
  {
    hide Acyclic, SenderOk, ReceiverOk, DeliveryOk, QueueOk, MailOk, Deadlock;
    if WillReceive(s.procs[d], c) {
      SendKeeps(s, c, d);
    } else if !Deadlock(s, c, P(d)) {
      EnqueueKeeps(s, c, d, fromKernel);
    }
  }
}
