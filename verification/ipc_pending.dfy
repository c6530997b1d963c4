/**
 Asynchronous messages and waiting processes: a process that waits has been given every entry it
 could take, except one that is in the table of the receiver when the blocked send of its own
 SENDREC is completed.
 */
module IpcPending {
  import opened Fifo
  import opened WaitGraph
  import opened Ipc
  import opened IpcInv
  import opened IpcAsync
  import opened IpcRun

  /** Entry i can be delivered to d: nothing malformed before it stops a scan of the table. */
  predicate First(table: seq<Entry>, d: nat, replyPend: bool, i: nat) {
    && i < |table| && Undone(table[i]) && table[i].dst == P(d) && !(table[i].noReply && replyPend)
    && forall j: nat :: j < i ==> !Malformed(table[j])
  }

  ghost predicate Offers(table: seq<Entry>, d: nat, replyPend: bool) { exists i: nat :: First(table, d, replyPend, i) }

  /** d waits for a message that src would send it, and src's table has one for it. */
  ghost predicate Missed(s: State, d: nat, src: nat) {
    && d < |s.procs| && src < |s.procs| && WillReceive(s.procs[d], src) && src in s.procs[d].asyn
    && Offers(s.procs[src].table, d, s.procs[d].replyPend)
  }

  /** d waits to send to src, which has its bit set in d and an entry for d. */
  ghost predicate Due(s: State, d: nat, src: nat) {
    && d < |s.procs| && src < |s.procs| && s.procs[d].sendTo == P(src) && src in s.procs[d].asyn
    && Offers(s.procs[src].table, d, s.procs[d].replyPend)
  }

  /** The blocked send of d's SENDREC is completed and d waits for the answer. */
  ghost predicate Released(s: State, s': State, d: nat) {
    && d < |s.procs| == |s'.procs| && s.procs[d].sending && s.procs[d].receiving
    && !s'.procs[d].sending && s'.procs[d].receiving
    && s'.procs[d].getFrom == s.procs[d].getFrom && s'.procs[d].replyPend == s.procs[d].replyPend
  }

  /** d missed it before and goes on waiting in the same way. */
  ghost predicate Still(s: State, s': State, d: nat, src: nat) {
    && Missed(s, d, src) && d < |s'.procs|
    && s'.procs[d].getFrom == s.procs[d].getFrom && s'.procs[d].replyPend == s.procs[d].replyPend
  }

  // ---- scans ----

  /** A scan finds a good entry exactly when there is one to offer. */
  lemma {:induction false} ScanOffers(table: seq<Entry>, k: nat, d: nat, rp: bool, done: bool)
    requires k <= |table| && forall j: nat :: j < k ==> !First(table, d, rp, j) && !Malformed(table[j])
    ensures var p := Scan(table, k, d, rp, done); Offers(table, d, rp) <==> p.Picked? && !p.bad
    decreases |table| - k
  {
    if k < |table| {
      var e := table[k];
      if !First(table, d, rp, k) && !Malformed(e) {
        ScanOffers(table, k + 1, d, rp, if e.Empty? || e.done then done else false);
      } else if Malformed(e) {
        assert forall i: nat :: First(table, d, rp, i) ==> i < k;
      }
    } else {
      assert forall i: nat :: First(table, d, rp, i) ==> i < k;
    }
  }

  /** table' has no entry undone that was not, and is malformed where table was. */
  ghost predicate Fewer(table: seq<Entry>, table': seq<Entry>) {
    |table'| == |table| && forall j: nat :: j < |table| ==>
      && (Undone(table'[j]) ==> table'[j] == table[j])
      && (Malformed(table[j]) ==> Malformed(table'[j]))
  }

  lemma FewerOffers(table: seq<Entry>, table': seq<Entry>, d: nat, rp: bool)
    requires Fewer(table, table') && Offers(table', d, rp)
    ensures Offers(table, d, rp)
  {
    var i: nat :| First(table', d, rp, i);
    assert First(table, d, rp, i);
  }

  // ---- steps that only calm things down ----

  ghost predicate Quieter(p: Proc, p': Proc) {
    && (p'.receiving && !p'.sending ==>
          p.receiving && !p.sending && p'.getFrom == p.getFrom && p'.replyPend == p.replyPend)
    && p'.asyn <= p.asyn && Fewer(p.table, p'.table)
  }

  ghost predicate Calm(s: State, s': State) {
    |s'.procs| == |s.procs| && forall p: nat :: p < |s.procs| ==> Quieter(s.procs[p], s'.procs[p])
  }

  lemma CalmMissed(s: State, s': State, d: nat, src: nat)
    requires Calm(s, s') && Missed(s', d, src)
    ensures Still(s, s', d, src)
  {
    assert Quieter(s.procs[d], s'.procs[d]) && Quieter(s.procs[src], s'.procs[src]);
    FewerOffers(s.procs[src].table, s'.procs[src].table, d, s.procs[d].replyPend);
  }

  lemma FewerSelf(table: seq<Entry>)
    ensures Fewer(table, table)
  {
  }

  lemma FewerTrans(a: seq<Entry>, b: seq<Entry>, c: seq<Entry>)
    requires Fewer(a, b) && Fewer(b, c)
    ensures Fewer(a, c)
  {
  }

  lemma CalmTrans(a: State, b: State, c: State)
    requires Calm(a, b) && Calm(b, c)
    ensures Calm(a, c)
  {
    hide Fewer;
    forall p: nat | p < |a.procs| ensures Quieter(a.procs[p], c.procs[p]) {
      assert Quieter(a.procs[p], b.procs[p]) && Quieter(b.procs[p], c.procs[p]);
      FewerTrans(a.procs[p].table, b.procs[p].table, c.procs[p].table);
    }
  }

  lemma CalmSame(s: State, s': State)
    requires s'.procs == s.procs
    ensures Calm(s, s')
  {
  }

  /** One process changes and becomes no more eager. */
  lemma CalmPut(s: State, s': State, p: nat)
    requires p < |s.procs| == |s'.procs| && Quieter(s.procs[p], s'.procs[p])
    requires forall x: nat :: x < |s.procs| && x != p ==> s'.procs[x] == s.procs[x]
    ensures Calm(s, s')
  {
    forall x: nat | x < |s.procs| ensures Quieter(s.procs[x], s'.procs[x]) { FewerSelf(s.procs[x].table); }
  }

  lemma CalmNotify(s: State, src: nat, d: nat)
    requires d < |s.procs|
    ensures Calm(s, MiniNotify(s, src, d))
  {
    FewerSelf(s.procs[d].table);
    CalmPut(s, MiniNotify(s, src, d), d);
  }

  lemma CalmSend(s: State, c: nat, d: nat, nonBlocking: bool, fromKernel: bool)
    requires s.Shape() && c < |s.procs| && d < |s.procs|
    ensures Calm(s, MiniSend(s, c, d, nonBlocking, fromKernel).0)
  {
    var s' := MiniSend(s, c, d, nonBlocking, fromKernel).0;
    FewerSelf(s.procs[c].table);
    FewerSelf(s.procs[d].table);
    if s'.procs == s.procs { CalmSame(s, s'); } else { CalmPut(s, s', if WillReceive(s.procs[d], c) then d else c); }
  }

  lemma CalmStore(s: State, src: nat, i: nat, r: Err)
    requires src < |s.procs| && i < |s.procs[src].table| && s.procs[src].table[i].Entry?
    ensures Calm(s, Store(s, src, i, r))
  {
    CalmPut(s, Store(s, src, i, r), src);
  }

  lemma CalmDelivered(s: State, src: nat, d: nat, i: nat)
    requires src < |s.procs| && d < |s.procs|
    ensures Calm(s, AsyncDelivered(s, src, d, i))
  {
    FewerSelf(s.procs[d].table);
    CalmPut(s, AsyncDelivered(s, src, d, i), d);
  }

  lemma ClearIpcProcs(s: State, p: nat)
    requires s.Shape() && p < |s.procs|
    ensures var s' := ClearIpc(s, p);
            && (forall x: nat :: x < |s.procs| && x != p ==> s'.procs[x] == s.procs[x])
            && !s'.procs[p].receiving && s'.procs[p].asyn == s.procs[p].asyn && s'.procs[p].table == s.procs[p].table
  {
    hide IndexOf, Without, Moved;
  }

  lemma CalmClearIpc(s: State, p: nat)
    requires s.Shape() && p < |s.procs|
    ensures Calm(s, ClearIpc(s, p))
  {
    hide ClearIpc, Fewer;
    ClearIpcProcs(s, p);
    FewerSelf(s.procs[p].table);
    CalmPut(s, ClearIpc(s, p), p);
  }

  lemma CalmPicked(s: State, src: nat, d: nat, i: nat, bad: bool)
    requires s.Shape() && src < |s.procs| && d < |s.procs| && i < |s.procs[src].table| && s.procs[src].table[i].Entry?
    ensures Calm(s, PickedEntry(s, src, d, i, bad))
  {
    hide Calm;
    var s2 := if bad then s else AsyncDelivered(s, src, d, i);
    var s3 := Store(s2, src, i, if bad then EINVAL else OK);
    if bad { CalmSame(s, s2); } else { CalmDelivered(s, src, d, i); }
    CalmStore(s2, src, i, if bad then EINVAL else OK);
    CalmTrans(s, s2, s3);
    CalmNotify(s3, ASYNCM, src);
    CalmTrans(s, s3, MiniNotify(s3, ASYNCM, src));
  }

  // ---- receiving from tables ----

  /** Bits are those of system processes in use. */
  ghost predicate BitsGood(s: State, d: nat) {
    d < |s.procs| && forall q :: q in s.procs[d].asyn ==> q < |s.procs| && s.procs[q].sys && !s.procs[q].free
  }

  /** Fields that a try leaves alone, but for bits. */
  ghost predicate SameKinds(s: State, s': State) {
    |s'.procs| == |s.procs| && forall x: nat :: x < |s.procs| ==>
      && s'.procs[x].sys == s.procs[x].sys && s'.procs[x].free == s.procs[x].free
      && s'.procs[x].replyPend == s.procs[x].replyPend && s'.procs[x].sending == s.procs[x].sending
      && s'.procs[x].getFrom == s.procs[x].getFrom
         && (s.procs[x].sending ==> s'.procs[x].receiving == s.procs[x].receiving)
  }

  ghost predicate SameBut(s: State, s': State) {
    SameKinds(s, s') && forall x: nat :: x < |s.procs| ==> s'.procs[x].asyn == s.procs[x].asyn
  }

  lemma NotifySame(s: State, src: nat, d: nat)
    requires d < |s.procs|
    ensures SameBut(s, MiniNotify(s, src, d))
    ensures forall x: nat :: x < |s.procs| ==> MiniNotify(s, src, d).procs[x].table == s.procs[x].table
  {
  }

  lemma StoreSame(s: State, src: nat, i: nat, r: Err)
    requires src < |s.procs| && i < |s.procs[src].table| && s.procs[src].table[i].Entry?
    ensures SameBut(s, Store(s, src, i, r))
  {
  }

  lemma DeliveredSame(s: State, src: nat, d: nat, i: nat)
    requires src < |s.procs| && d < |s.procs| && !s.procs[d].sending
    ensures SameBut(s, AsyncDelivered(s, src, d, i))
    ensures AsyncDelivered(s, src, d, i).procs[src].table == s.procs[src].table
  {
  }

  lemma PickedSame(s: State, src: nat, d: nat, i: nat, bad: bool)
    requires s.Shape() && src < |s.procs| && d < |s.procs| && i < |s.procs[src].table| && s.procs[src].table[i].Entry?
    requires !s.procs[d].sending
    ensures SameBut(s, PickedEntry(s, src, d, i, bad))
  {
    hide MiniNotify, Store, AsyncDelivered;
    DeliveredSame(s, src, d, i);
    var s2 := if bad then s else AsyncDelivered(s, src, d, i);
    StoreSame(s2, src, i, if bad then EINVAL else OK);
    NotifySame(Store(s2, src, i, if bad then EINVAL else OK), ASYNCM, src);
  }

  /** d does not miss anything of src: the bit is clear or the table has nothing for it. */
  ghost predicate Content(s: State, src: nat, d: nat) {
    d < |s.procs| && src < |s.procs|
        && (src in s.procs[d].asyn ==> !Offers(s.procs[src].table, d, s.procs[d].replyPend))
  }

  lemma CalmContent(s: State, s': State, src: nat, d: nat)
    requires Content(s, src, d) && Calm(s, s') && s'.procs[d].replyPend == s.procs[d].replyPend
    ensures Content(s', src, d)
  {
    assert Quieter(s.procs[d], s'.procs[d]) && Quieter(s.procs[src], s'.procs[src]);
    if Offers(s'.procs[src].table, d, s.procs[d].replyPend) {
      FewerOffers(s.procs[src].table, s'.procs[src].table, d, s.procs[d].replyPend);
    }
  }

  lemma CalmSetBack(s: State, s': State, src: nat, d: nat)
    requires d < |s.procs| && src in s.procs[d].asyn && Calm(s, s')
    ensures Calm(s, SetAsyn(s', d, src))
  {
    var r := SetAsyn(s', d, src);
    forall p: nat | p < |s.procs| ensures Quieter(s.procs[p], r.procs[p]) { assert Quieter(s.procs[p], s'.procs[p]); }
  }

  lemma CalmUnset(s: State, d: nat, src: nat)
    requires d < |s.procs|
    ensures Calm(s, UnsetAsyn(s, d, src))
  {
    FewerSelf(s.procs[d].table);
    CalmPut(s, UnsetAsyn(s, d, src), d);
  }

  lemma CalmReg(s: State, p: nat, reg: bool)
    requires p < |s.procs|
    ensures Calm(s, s.Put(p, s.procs[p].(reg := reg)))
  {
    FewerSelf(s.procs[p].table);
    CalmPut(s, s.Put(p, s.procs[p].(reg := reg)), p);
  }

  lemma KindsTrans(a: State, b: State, c: State)
    requires SameKinds(a, b) && SameKinds(b, c)
    ensures SameKinds(a, c)
  {
  }

  lemma KindsBits(s: State, p: nat, src: nat, reg: bool)
    requires p < |s.procs|
    ensures SameKinds(s, SetAsyn(s, p, src)) && SameKinds(s, s.Put(p, s.procs[p].(reg := reg)))
  {
  }

  lemma TableKinds(s: State, src: nat, d: nat)
    requires s.Shape() && src < |s.procs| && d < |s.procs| && !s.procs[d].sending
    ensures SameKinds(s, TryTable(s, src, d).0)
  {
    hide PickedEntry, Scan, SetAsyn;
    match Scan(s.procs[src].table, 0, d, s.procs[d].replyPend, true)
    case Nothing(done) =>
      KindsBits(s, d, src, true);
      KindsBits(s, src, src, false);
    case Picked(i, bad) =>
      PickedSame(s, src, d, i, bad);
      var s1 := PickedEntry(s, src, d, i, bad);
      hide SameKinds;
      KindsBits(s1, d, src, true);
      KindsTrans(s, s1, SetAsyn(s1, d, src));
  }

  lemma SetContent(s: State, src: nat, d: nat)
    requires src < |s.procs| && d < |s.procs| && !Offers(s.procs[src].table, d, s.procs[d].replyPend)
    ensures Content(SetAsyn(s, d, src), src, d)
  {
    hide Offers;
  }

  lemma TableTried(s: State, src: nat, d: nat)
    requires s.Shape() && src < |s.procs| && d < |s.procs| && src !in s.procs[d].asyn && TryTable(s, src, d).1 != OK
    requires !s.procs[d].sending
    ensures Content(TryTable(s, src, d).0, src, d)
  {
    hide PickedEntry, Offers, Scan, Calm, SetAsyn;
    ScanOffers(s.procs[src].table, 0, d, s.procs[d].replyPend, true);
    match Scan(s.procs[src].table, 0, d, s.procs[d].replyPend, true)
    case Nothing(done) =>
      if !done { SetContent(s, src, d); }
    case Picked(i, bad) =>
      PickedSame(s, src, d, i, bad);
      CalmPicked(s, src, d, i, bad);
      var s1 := PickedEntry(s, src, d, i, bad);
      NoOffer(s, s1, src, d);
      SetContent(s1, src, d);
  }

  lemma NoOffer(s: State, s1: State, src: nat, d: nat)
    requires src < |s.procs| && d < |s.procs| && Calm(s, s1) && s1.procs[d].replyPend == s.procs[d].replyPend
    requires !Offers(s.procs[src].table, d, s.procs[d].replyPend)
    ensures !Offers(s1.procs[src].table, d, s1.procs[d].replyPend)
  {
    assert Quieter(s.procs[src], s1.procs[src]);
    if Offers(s1.procs[src].table, d, s1.procs[d].replyPend) {
      FewerOffers(s.procs[src].table, s1.procs[src].table, d, s.procs[d].replyPend);
    }
  }

  lemma TableCalm(s0: State, s: State, src: nat, d: nat)
    requires s.Shape() && src < |s.procs| && d < |s.procs| == |s0.procs| && src in s0.procs[d].asyn && Calm(s0, s)
    ensures Calm(s0, TryTable(s, src, d).0)
  {
    hide Calm, PickedEntry, SetAsyn, Scan;
    match Scan(s.procs[src].table, 0, d, s.procs[d].replyPend, true)
    case Nothing(done) =>
      CalmReg(s, src, false);
      if done { CalmTrans(s0, s, s.Put(src, s.procs[src].(reg := false))); } else { CalmSetBack(s0, s, src, d); }
    case Picked(i, bad) =>
      CalmPicked(s, src, d, i, bad);
      CalmTrans(s0, s, PickedEntry(s, src, d, i, bad));
      CalmSetBack(s0, PickedEntry(s, src, d, i, bad), src, d);
  }

  /** A try whose bit is set only calms things down, and if it fails src has nothing for d. */
  lemma OneTried(s: State, src: nat, d: nat)
    requires s.Shape() && src < |s.procs| && d < |s.procs|
    requires src in s.procs[d].asyn && s.procs[src].sys && !s.procs[d].sending
    ensures var (s', r) := TryOne(s, src, d);
            Calm(s, s') && SameKinds(s, s') && (r != OK ==> Content(s', src, d))
  {
    hide TryTable, Calm, Offers;
    var s1 := UnsetAsyn(s, d, src);
    CalmUnset(s, d, src);
    TableCalm(s, s1, src, d);
    TableKinds(s1, src, d);
    if TryTable(s1, src, d).1 != OK { TableTried(s1, src, d); }
  }

  /** If no try succeeds, nobody has anything for d. */
  lemma {:induction false} AllTried(s: State, q: nat, d: nat)
    requires s.Shape() && q <= |s.procs| && BitsGood(s, d) && !s.procs[d].sending
    ensures var (s', r) := TryAsync(s, q, d);
            && Calm(s, s') && SameKinds(s, s')
            && (r != OK ==> forall x: nat :: q <= x < |s.procs| ==> Content(s', x, d))
    decreases |s.procs| - q
  {
    hide TryOne, Calm, Offers;
    var (s', r) := TryAsync(s, q, d);
    if q == |s.procs| {
      CalmSame(s, s);
    } else if s.procs[q].free || q !in s.procs[d].asyn {
      AllTried(s, q + 1, d);
      CalmContent(s, s', q, d);
    } else {
      var (s1, r1) := TryOne(s, q, d);
      OneTried(s, q, d);
      if r1 != OK {
        StillGood(s, s1, d);
        AllTried(s1, q + 1, d);
        CalmTrans(s, s1, s');
        CalmContent(s1, s', q, d);
      }
    }
  }

  lemma StillGood(s: State, s': State, d: nat)
    requires BitsGood(s, d) && Calm(s, s') && SameKinds(s, s')
    ensures BitsGood(s', d)
  {
    assert Quieter(s.procs[d], s'.procs[d]);
  }

  lemma TablesTried(s: State, c: nat, src: Ep)
    requires s.Shape() && (src.P? ==> src.nr < |s.procs|) && BitsGood(s, c) && !s.procs[c].sending
    ensures var (s', r) := FromTables(s, c, src);
            && Calm(s, s') && SameKinds(s, s')
            && (r != OK ==> forall x: nat :: x < |s.procs| && Accepts(src, x) ==> Content(s', x, c))
  {
    hide TryOne, TryAsync, Calm, Offers;
    if HasPending(s.procs[c].asyn, src, |s.procs|) < 0 {
      CalmSame(s, s);
    } else if src.P? {
      OneTried(s, src.nr, c);
    } else {
      AllTried(s, 0, c);
    }
  }

  // ---- mini_receive ----

  /** What d misses after a step it missed before, or its SENDREC has just been released. */
  ghost predicate Explained(s: State, s': State) {
    |s'.procs| == |s.procs| && forall d: nat, src: nat :: Missed(s', d, src) ==>
        Still(s, s', d, src) || Released(s, s', d)
  }

  lemma CalmExplained(s: State, s': State)
    requires Calm(s, s')
    ensures Explained(s, s')
  {
    hide Missed, Calm;
    forall d: nat, src: nat | Missed(s', d, src) ensures Still(s, s', d, src) { CalmMissed(s, s', d, src); }
    assert |s'.procs| == |s.procs| by { CalmSize(s, s'); }
  }

  lemma CalmSize(s: State, s': State)
    requires Calm(s, s')
    ensures |s'.procs| == |s.procs|
  {
  }

  /** Nobody who waits is disturbed between s and s1, and then some process is released. */
  lemma ThenReleased(s: State, s1: State, s': State, q: nat)
    requires Calm(s, s1) && q < |s.procs| && |s'.procs| == |s.procs|
    requires forall x: nat :: x < |s.procs| && x != q ==> Quieter(s1.procs[x], s'.procs[x])
    requires s'.procs[q].asyn <= s1.procs[q].asyn && Fewer(s1.procs[q].table, s'.procs[q].table)
    requires s'.procs[q].receiving ==> Released(s, s', q)
    ensures Explained(s, s')
  {
    forall d: nat, src: nat | Missed(s', d, src) ensures Still(s, s', d, src) || Released(s, s', d) {
      if d != q {
        assert Quieter(s1.procs[d], s'.procs[d]);
        if src != q { assert Quieter(s1.procs[src], s'.procs[src]); }
        FewerOffers(s1.procs[src].table, s'.procs[src].table, d, s1.procs[d].replyPend);
        CalmMissed(s, s1, d, src);
      }
    }
  }

  /** A message is taken from the process at place k of c's queue. */
  lemma TakenExplained(s: State, s1: State, c: nat, k: nat)
    requires s1.Shape() && c < |s1.procs| && k < |s1.queues[c]| && s1.queues[c][k] < |s1.procs| && Calm(s, s1)
    requires !s1.procs[c].receiving && s1.queues[c][k] != c
    requires var q := s1.queues[c][k];
             && s.procs[q].sending && s.procs[q].receiving == s1.procs[q].receiving
             && s.procs[q].getFrom == s1.procs[q].getFrom && s.procs[q].replyPend == s1.procs[q].replyPend
    ensures Explained(s, ReceiveDone(Taken(s1, c, k), c))
  {
    var s', q := ReceiveDone(Taken(s1, c, k), c), s1.queues[c][k];
    assert forall x: nat :: x < |s.procs| && x != c && x != q ==> s'.procs[x] == s1.procs[x];
    forall x: nat | x < |s.procs| && x != q ensures Quieter(s1.procs[x], s'.procs[x]) { FewerSelf(s1.procs[x].table); }
    FewerSelf(s1.procs[q].table);
    ThenReleased(s, s1, s', q);
  }

  /** c begins to wait with nothing there for it. */
  lemma BeginsWaiting(s: State, s1: State, c: nat, src: Ep)
    requires Calm(s, s1) && c < |s.procs|
    requires s1.procs[c].sending || forall x: nat :: x < |s.procs| && Accepts(src, x) ==> Content(s1, x, c)
    ensures Explained(s, s1.Put(c, s1.procs[c].(getFrom := src, receiving := true)))
  {
    hide Offers;
    var s' := s1.Put(c, s1.procs[c].(getFrom := src, receiving := true));
    forall d: nat, x: nat | Missed(s', d, x) ensures Still(s, s', d, x) {
      if d != c { CalmMissed(s, s1, d, x); }
    }
  }

  /** The queue of c holds other processes, and they are sending. */
  ghost predicate SendersWait(s: State, c: nat) {
    c < |s.queues| && forall q :: q in s.queues[c] ==> q < |s.procs| && q != c && s.procs[q].sending
  }

  lemma ArrivedExplained(s: State, c: nat, src: Ep)
    requires QueueRange(s) && c < |s.procs| && (src.P? ==> src.nr < |s.procs|)
    requires !s.procs[c].receiving && !s.procs[c].sending && BitsGood(s, c) && SendersWait(s, c)
    ensures var (s1, got) := Arrived(s, c, src);
            && (got ==> Explained(s, ReceiveDone(s1, c)))
            && (!got ==> Calm(s, s1) && forall x: nat :: x < |s.procs| && Accepts(src, x) ==> Content(s1, x, c))
  {
    hide FromTables, Calm, Explained, Content, Taken, ReceiveDone;
    var p := s.procs[c];
    var note := if p.replyPend then -1 else HasPending(p.notify, src, |s.procs|);
    if note >= 0 {
      NoteExplained(s, c, note);
    } else {
      TablesTried(s, c, src);
      var (s1, r) := FromTables(s, c, src);
      StillIdle(s, s1, c);
      if r == OK {
        DoneCalm(s, s1, c);
        CalmExplained(s, ReceiveDone(s1, c));
      } else {
        var k := FirstFrom(s1.queues[c], src, 0);
        if k >= 0 {
          assert s1.queues[c][k] in s.queues[c];
          TakenExplained(s, s1, c, k);
        }
      }
    }
  }

  lemma StillIdle(s: State, s1: State, c: nat)
    requires Calm(s, s1) && SameKinds(s, s1) && c < |s.procs| && !s.procs[c].receiving && !s.procs[c].sending
    ensures |s1.procs| == |s.procs| && !s1.procs[c].receiving && !s1.procs[c].sending
  {
    assert Quieter(s.procs[c], s1.procs[c]);
  }

  lemma DoneCalm(s: State, s1: State, c: nat)
    requires Calm(s, s1) && c < |s1.procs| && !s1.procs[c].receiving
    ensures Calm(s, ReceiveDone(s1, c))
  {
    FewerSelf(s1.procs[c].table);
    CalmPut(s1, ReceiveDone(s1, c), c);
    CalmTrans(s, s1, ReceiveDone(s1, c));
  }

  lemma NoteExplained(s: State, c: nat, n: nat)
    requires c < |s.procs| && !s.procs[c].receiving
    ensures Explained(s, ReceiveDone(NoteTaken(s, c, n), c))
  {
    FewerSelf(s.procs[c].table);
    CalmPut(s, ReceiveDone(NoteTaken(s, c, n), c), c);
    CalmExplained(s, ReceiveDone(NoteTaken(s, c, n), c));
  }

  lemma ReceiveExplained(s: State, c: nat, src: Ep)
    requires QueueRange(s) && c < |s.procs| && (src.P? ==> src.nr < |s.procs|)
    requires !s.procs[c].receiving && BitsGood(s, c) && SendersWait(s, c)
    ensures Explained(s, MiniReceive(s, c, src).0)
  {
    hide Arrived, Calm, Explained, Content, ReceiveDone, Deadlock, QueueRange;
    CalmSame(s, s);
    CalmExplained(s, s);
    RangeShape(s);
    if s.procs[c].sending {
      BeginsWaiting(s, s, c, src);
    } else {
      ArrivedExplained(s, c, src);
      var (s1, got) := Arrived(s, c, src);
      if !got {
        CalmExplained(s, s1);
        BeginsWaiting(s, s1, c, src);
      }
    }
  }

  // ---- do_sync_ipc ----

  lemma ExplainedTrans(a: State, b: State, c: State)
    requires Explained(b, c) && Calm(a, b) && forall d: nat :: Released(b, c, d) ==> Released(a, c, d)
    ensures Explained(a, c)
  {
    forall d: nat, src: nat | Missed(c, d, src) ensures Still(a, c, d, src) || Released(a, c, d) {
      if Missed(b, d, src) { CalmMissed(a, b, d, src); }
    }
  }

  lemma PendCalm(s: State, c: nat, on: bool)
    requires c < |s.procs| && !s.procs[c].receiving
    ensures Calm(s, WithReplyPend(s, c, on))
  {
    FewerSelf(s.procs[c].table);
    CalmPut(s, WithReplyPend(s, c, on), c);
  }

  /** What a send leaves as it was. */
  ghost predicate Leaves(s: State, s': State, c: nat) {
    && QueueRange(s') && c < |s.procs| == |s'.procs| && !s'.procs[c].receiving && BitsGood(s', c) && SendersWait(s', c)
    && forall x: nat :: x < |s.procs| && s'.procs[x].sending && s'.procs[x].receiving ==>
         && s.procs[x].sending && s.procs[x].receiving
         && s'.procs[x].getFrom == s.procs[x].getFrom && s'.procs[x].replyPend == s.procs[x].replyPend
  }

  lemma EnqueueLeaves(s: State, c: nat, d: nat, fromKernel: bool)
    requires QueueRange(s) && d < |s.procs| && c != d && Leaves(s, s, c)
    ensures Leaves(s, Enqueued(s, c, d, fromKernel), c)
  {
    var s' := Enqueued(s, c, d, fromKernel);
    assert s'.queues[c] == s.queues[c];
    assert forall x: nat :: x < |s.procs| && x != c ==> s'.procs[x] == s.procs[x];
  }

  lemma ReachLeaves(s: State, s': State, c: nat, d: nat)
    requires QueueRange(s) && d < |s.procs| && c != d && Leaves(s, s, c) && s'.queues == s.queues && s'.Shape()
    requires |s'.procs| == |s.procs| && forall x: nat :: x < |s.procs| && x != d ==> s'.procs[x] == s.procs[x]
    requires var p, p' := s.procs[d], s'.procs[d];
             p'.sending == p.sending && p'.sys == p.sys && p'.free == p.free && !p'.receiving
    ensures Leaves(s, s', c)
  {
  }

  lemma SendLeaves(s: State, c: nat, d: nat, nonBlocking: bool, fromKernel: bool)
    requires QueueRange(s) && d < |s.procs| && c != d && Leaves(s, s, c)
    ensures Leaves(s, MiniSend(s, c, d, nonBlocking, fromKernel).0, c)
  {
    hide Deadlock, QueueRange, BitsGood, SendersWait;
    RangeShape(s);
    if !s.procs[d].noEndpoint && WillReceive(s.procs[d], c) {
      ReachLeaves(s, MiniSend(s, c, d, nonBlocking, fromKernel).0, c, d);
    } else {
      EnqueueLeaves(s, c, d, fromKernel);
    }
  }

  lemma SendExplained(s: State, c: nat, d: nat, nonBlocking: bool, fromKernel: bool)
    requires s.Shape() && c < |s.procs| && d < |s.procs|
    ensures Explained(s, MiniSend(s, c, d, nonBlocking, fromKernel).0)
  {
    hide MiniSend, Calm, Explained;
    CalmSend(s, c, d, nonBlocking, fromKernel);
    CalmExplained(s, MiniSend(s, c, d, nonBlocking, fromKernel).0);
  }

  lemma PendLeaves(s: State, c: nat, on: bool)
    requires QueueRange(s) && c < |s.procs| && BitsGood(s, c) && SendersWait(s, c)
    ensures var s' := WithReplyPend(s, c, on);
            && QueueRange(s') && BitsGood(s', c) && SendersWait(s', c) && |s'.procs| == |s.procs|
            && forall x: nat :: x < |s.procs| ==>
                 && s'.procs[x].sending == s.procs[x].sending && s'.procs[x].receiving == s.procs[x].receiving
                 && s'.procs[x].getFrom == s.procs[x].getFrom
                    && (x != c ==> s'.procs[x].replyPend == s.procs[x].replyPend)
  {
  }

  lemma PlainReceive(s: State, c: nat, e: Ep)
    requires QueueRange(s) && c < |s.procs| && (e.P? ==> e.nr < |s.procs|)
    requires !s.procs[c].receiving && BitsGood(s, c) && SendersWait(s, c)
    ensures Explained(s, MiniReceive(WithReplyPend(s, c, false), c, e).0)
  {
    hide Explained, Calm, MiniReceive, WithReplyPend, QueueRange, BitsGood, SendersWait;
    var s0 := WithReplyPend(s, c, false);
    PendCalm(s, c, false);
    PendLeaves(s, c, false);
    ReceiveExplained(s0, c, e);
    ExplainedTrans(s, s0, MiniReceive(s0, c, e).0);
  }

  lemma SendThenReceive(s: State, c: nat, d: nat)
    requires QueueRange(s) && c < |s.procs| && d < |s.procs| && c != d
    requires !s.procs[c].receiving && BitsGood(s, c) && SendersWait(s, c)
    ensures var (s1, r) := MiniSend(WithReplyPend(s, c, true), c, d, false, false);
            && (r != OK ==> Explained(s, s1))
            && (r == OK ==>
               QueueRange(s1) && c < |s1.procs| && d < |s1.procs| && Explained(s, MiniReceive(s1, c, P(d)).0))
  {
    hide Explained, Calm, MiniReceive, MiniSend, WithReplyPend, QueueRange, BitsGood, SendersWait;
    var s0 := WithReplyPend(s, c, true);
    PendCalm(s, c, true);
    PendLeaves(s, c, true);
    assert s0.Shape() by { RangeShape(s0); }
    SendLeaves(s0, c, d, false, false);
    CalmSend(s0, c, d, false, false);
    var s1 := MiniSend(s0, c, d, false, false).0;
    CalmTrans(s, s0, s1);
    CalmExplained(s, s1);
    ReceiveExplained(s1, c, P(d));
    ExplainedTrans(s, s1, MiniReceive(s1, c, P(d)).0);
  }

  lemma RangeShape(s: State)
    requires QueueRange(s)
    ensures s.Shape()
  {
  }

  lemma IdleFacts(s: State, c: nat)
    requires Inv(s) && Idle(s, c)
    ensures BitsGood(s, c) && SendersWait(s, c) && c !in s.procs[c].ipcTo
  {
    assert BitsOk(s, c, -1) && QueueOk(s, c);
  }

  lemma SyncExplained(s: State, c: nat, call: Call, e: Ep)
    requires Inv(s) && QueueRange(s) && CanCall(s, c) && call != SENDA
    ensures Explained(s, DoSyncIpc(s, c, call, e).0)
  {
    hide Inv, Explained, Calm, MiniSend, MiniReceive, MiniNotify, WithReplyPend, QueueRange;
    IdleFacts(s, c);
    RangeShape(s);
    CalmSame(s, s);
    CalmExplained(s, s);
    if Checks(s, c, call, e) == OK {
      match call
      case SEND => SendExplained(s, c, e.nr, false, false);
      case SENDNB => SendExplained(s, c, e.nr, true, false);
      case NOTIFY =>
        CalmNotify(s, c, e.nr);
        CalmExplained(s, MiniNotify(s, c, e.nr));
      case RECEIVE => PlainReceive(s, c, e);
      case SENDREC => SendThenReceive(s, c, e.nr);
    }
  }

  // ---- senda ----

  /** The entries before i that are still undone are for nobody who waits for c. */
  ghost predicate Settled(s: State, c: nat, i: nat) {
    c < |s.procs| && forall j: nat :: j < i && j < |s.procs[c].table| && Undone(s.procs[c].table[j]) ==>
      var e := s.procs[c].table[j].dst; e.P? ==> e.nr < |s.procs| && !WaitsNow(s, e.nr, c, s.procs[c].table[j].noReply)
  }

  ghost predicate WaitsNow(s: State, d: nat, c: nat, noReply: bool)
    requires d < |s.procs|
  {
    WillReceive(s.procs[d], c) && !(noReply && s.procs[d].replyPend)
  }

  /** Only bits of c are new, and only c's table changes. */
  ghost predicate CalmBut(s: State, s': State, c: nat) {
    |s'.procs| == |s.procs| && forall p: nat :: p < |s.procs| ==>
      && (s'.procs[p].receiving && !s'.procs[p].sending ==>
            && s.procs[p].receiving && !s.procs[p].sending
            && s'.procs[p].getFrom == s.procs[p].getFrom && s'.procs[p].replyPend == s.procs[p].replyPend)
      && s'.procs[p].asyn <= s.procs[p].asyn + {c}
      && (p != c ==> s'.procs[p].table == s.procs[p].table)
  }

  lemma CalmButTrans(a: State, b: State, s: State, c: nat)
    requires CalmBut(a, b, c) && CalmBut(b, s, c)
    ensures CalmBut(a, s, c)
  {
  }

  lemma DeliverBut(s: State, c: nat, d: nat, i: nat, r: Err)
    requires c < |s.procs| && d < |s.procs| && i < |s.procs[c].table| && s.procs[c].table[i].Entry?
    ensures CalmBut(s, AsyncDelivered(s, c, d, i), c)
    ensures CalmBut(s, Store(s, c, i, r), c) && CalmBut(s, SetAsyn(s, d, c), c)
    ensures AsyncDelivered(s, c, d, i).procs[c].table == s.procs[c].table == SetAsyn(s, d, c).procs[c].table
    ensures Store(s, c, i, r).procs[c].table == s.procs[c].table[i := s.procs[c].table[i].(done := true, result := r)]
    ensures !AsyncDelivered(s, c, d, i).procs[d].receiving
  {
  }

  /** Waiting can only stop. */
  lemma SettledStays(s: State, s': State, c: nat, i: nat)
    requires Settled(s, c, i) && CalmBut(s, s', c) && |s'.procs[c].table| == |s.procs[c].table|
    requires forall j: nat :: j < |s.procs[c].table| && Undone(s'.procs[c].table[j]) ==>
             s'.procs[c].table[j] == s.procs[c].table[j]
    ensures Settled(s', c, i)
  {
  }

  lemma BySelf(s: State, c: nat)
    ensures CalmBut(s, s, c)
  {
  }

  lemma DstOk(s: State, c: nat, e: Ep)
    requires c < |s.procs| && DstError(s.procs, c, e) == OK
    ensures e.P? && e.nr < |s.procs|
  {
  }

  lemma NotNow(s: State, s': State, c: nat, d: nat, noReply: bool)
    requires CalmBut(s, s', c) && d < |s.procs| && !WaitsNow(s, d, c, noReply)
    ensures !WaitsNow(s', d, c, noReply)
  {
  }

  lemma SettledMore(s: State, c: nat, i: nat)
    requires Settled(s, c, i) && i < |s.procs[c].table|
    requires var e := s.procs[c].table[i];
             Undone(e) && e.dst.P? ==> e.dst.nr < |s.procs| && !WaitsNow(s, e.dst.nr, c, e.noReply)
    ensures Settled(s, c, i + 1)
  {
  }

  lemma EntrySettled(a: Senda, c: nat, i: nat)
    requires a.s.Shape() && c < |a.s.procs| && i < |a.s.procs[c].table| && Settled(a.s, c, i)
    ensures CalmBut(a.s, SendaEntry(a, c, i).s, c) && Settled(SendaEntry(a, c, i).s, c, i + 1)
  {
    hide Settled, CalmBut, AsyncDelivered, Store, SetAsyn, DstError;
    var s := a.s;
    var e, s' := s.procs[c].table[i], SendaEntry(a, c, i).s;
    BySelf(s, c);
    if Undone(e) {
      var r := DstError(s.procs, c, e.dst);
      if r == OK {
        DstOk(s, c, e.dst);
        var d := e.dst.nr;
        DeliverBut(s, c, d, i, OK);
        if WaitsNow(s, d, c, e.noReply) {
          var s1 := AsyncDelivered(s, c, d, i);
          DeliverBut(s1, c, d, i, OK);
          CalmButTrans(s, s1, s', c);
        } else {
          NotNow(s, s', c, d, e.noReply);
        }
      } else {
        DeliverBut(s, c, c, i, r);
      }
    }
    SettledStays(s, s', c, i);
    SettledMore(s', c, i);
  }

  lemma {:induction false} FromSettled(a: Senda, c: nat, i: nat)
    requires a.s.Shape() && c < |a.s.procs| && i <= |a.s.procs[c].table| && Settled(a.s, c, i)
    ensures var r := SendaFrom(a, c, i).s; CalmBut(a.s, r, c) && Settled(r, c, |r.procs[c].table|)
    decreases |a.s.procs[c].table| - i
  {
    hide Settled, CalmBut, SendaEntry;
    BySelf(a.s, c);
    if i < |a.s.procs[c].table| {
      var b := SendaEntry(a, c, i);
      EntrySettled(a, c, i);
      FromSettled(b, c, i + 1);
      CalmButTrans(a.s, b.s, SendaFrom(b, c, i + 1).s, c);
    }
  }

  /** After all entries have been looked at nobody who waits misses one. */
  lemma SettledExplained(s: State, s1: State, s': State, c: nat)
    requires c < |s.procs| == |s1.procs| == |s'.procs| && s1.procs == s.procs[c := s1.procs[c]]
    requires CalmBut(s1, s', c) && Settled(s', c, |s'.procs[c].table|)
    requires s1.procs[c].receiving == s.procs[c].receiving && s1.procs[c].sending == s.procs[c].sending
    requires s1.procs[c].getFrom == s.procs[c].getFrom
    requires s1.procs[c].replyPend == s.procs[c].replyPend && s1.procs[c].asyn == s.procs[c].asyn
    ensures Explained(s, s') && forall d: nat :: !Released(s, s', d)
  {
    forall d: nat, src: nat ensures Missed(s', d, src) ==> Still(s, s', d, src) {
      if src == c { SettledNone(s', c, d); }
    }
  }

  lemma SettledNone(s: State, c: nat, d: nat)
    requires c < |s.procs| && Settled(s, c, |s.procs[c].table|)
    ensures !Missed(s, d, c)
  {
    if d < |s.procs| && WillReceive(s.procs[d], c) {
      forall i: nat ensures !First(s.procs[c].table, d, s.procs[d].replyPend, i) { }
    }
  }

  lemma SubmitExplained(s: State, c: nat, table: seq<Entry>)
    requires s.Shape() && c < |s.procs|
    ensures Explained(s, MiniSenda(s, c, table).0) && forall d: nat :: !Released(s, MiniSenda(s, c, table).0, d)
  {
    hide Explained, Released, CalmBut, Settled, SendaFrom, MiniNotify, Calm;
    var p := s.procs[c];
    CalmSame(s, s);
    CalmExplained(s, s);
    forall d: nat ensures !Released(s, s, d) { CalmReleases(s, s, d); }
    if p.sys {
      var s1 := s.Put(c, p.(table := if |table| > MAX_ASYNC then [] else table, reg := false, epoch := p.epoch + 1));
      BySelf(s1, c);
      assert Settled(s1, c, 0) by { NoneYet(s1, c); }
      FromSettled(Senda(s1, true, false), c, 0);
      var a := SendaFrom(Senda(s1, true, false), c, 0);
      if |table| > MAX_ASYNC || |table| == 0 {
        SettledExplained(s, s1, s1, c);
      } else {
        SettledExplained(s, s1, a.s, c);
        ThenCalm(s, a.s, c, a.note, a.done);
      }
    }
  }

  lemma NoneYet(s: State, c: nat)
    requires c < |s.procs|
    ensures Settled(s, c, 0)
  {
  }

  lemma ThenCalm(s: State, s1: State, c: nat, note: bool, done: bool)
    requires Explained(s, s1) && c < |s1.procs| && forall d: nat :: !Released(s, s1, d)
    ensures var s2 := if note then MiniNotify(s1, ASYNCM, c) else s1;
            var s3 := if done then s2 else s2.Put(c, s2.procs[c].(reg := true));
            Explained(s, s3) && forall d: nat :: !Released(s, s3, d)
  {
    hide Missed, Released, Calm;
    var s2 := if note then MiniNotify(s1, ASYNCM, c) else s1;
    CalmSame(s1, s1);
    CalmNotify(s1, ASYNCM, c);
    CalmSize(s1, s2);
    CalmReg(s2, c, true);
    var s3 := if done then s2 else s2.Put(c, s2.procs[c].(reg := true));
    if !done { CalmTrans(s1, s2, s3); }
    CalmAfter(s, s1, s3);
  }

  lemma CalmAfter(s: State, s1: State, s2: State)
    requires Explained(s, s1) && Calm(s1, s2) && forall d: nat :: !Released(s, s1, d)
    ensures Explained(s, s2) && forall d: nat :: !Released(s, s2, d)
  {
    forall d: nat ensures !Released(s, s2, d) {
      if d < |s1.procs| { assert Quieter(s1.procs[d], s2.procs[d]) && !Released(s, s1, d); }
    }
    forall d: nat, src: nat | Missed(s2, d, src) ensures Still(s, s2, d, src) { CalmMissed(s1, s2, d, src); }
  }

  // ---- clearing ----

  lemma {:induction false} CancelFewer(a: Cancel, i: nat, d: nat)
    requires i <= |a.table|
    ensures Fewer(a.table, CancelFrom(a, i, d).table)
    decreases |a.table| - i
  {
    FewerSelf(a.table);
    if i < |a.table| {
      var b := CancelOne(a, i, d);
      assert Fewer(a.table, b.table);
      CancelFewer(b, i + 1, d);
      FewerTrans(a.table, b.table, CancelFrom(b, i + 1, d).table);
    }
  }

  lemma CalmCancelTable(s: State, src: nat, d: nat)
    requires s.Shape() && src < |s.procs| && d < |s.procs|
    ensures Calm(s, CancelTable(s, src, d))
  {
    hide CancelFrom, MiniNotify, Fewer;
    var a := CancelFrom(Cancel(s.procs[src].table, true, false), 0, d);
    CancelFewer(Cancel(s.procs[src].table, true, false), 0, d);
    var s2 := s.Put(src, s.procs[src].(table := a.table));
    CalmPut(s, s2, src);
    hide Calm;
    CalmSame(s2, s2);
    CalmNotify(s2, ASYNCM, src);
    var s3 := if a.note then MiniNotify(s2, ASYNCM, src) else s2;
    CalmTrans(s, s2, s3);
    CalmSize(s, s3);
    CalmReg(s3, src, true);
    CalmTrans(s, s3, s3.Put(src, s3.procs[src].(reg := true)));
  }

  lemma CalmCancelAsync(s: State, src: nat, d: nat)
    requires s.Shape() && src < |s.procs| && d < |s.procs|
    ensures Calm(s, CancelAsync(s, src, d))
  {
    hide CancelTable, Calm;
    var s0 := s.Put(src, s.procs[src].(reg := false));
    var s1 := UnsetAsyn(s0, d, src);
    CalmSame(s, s);
    CalmReg(s, src, false);
    CalmUnset(s0, d, src);
    CalmTrans(s, s0, s1);
    CalmCancelTable(s1, src, d);
    CalmTrans(s, s1, CancelTable(s1, src, d));
  }

  lemma {:induction false} CalmCancelAll(s: State, d: nat)
    requires s.Shape() && d < |s.procs| && AsynOk(s, d)
    ensures Calm(s, CancelAll(s, d))
    decreases s.procs[d].asyn
  {
    hide CancelAsync, Calm;
    CalmSame(s, s);
    var src := Lowest(s.procs[d].asyn, 0, |s.procs|);
    if src >= 0 {
      CancelClearsBit(s, src, d);
      var s1 := CancelAsync(s, src, d);
      CalmCancelAsync(s, src, d);
      CalmCancelAll(s1, d);
      CalmTrans(s, s1, CancelAll(s1, d));
    }
  }

  lemma {:induction false} CalmClearRefs(s: State, rc: nat, i: nat)
    requires s.Shape() && rc < |s.procs| && i <= |s.procs|
    ensures Calm(s, ClearRefs(s, rc, i))
    decreases |s.procs| - i
  {
    hide ClearIpc, Calm;
    CalmSame(s, s);
    if i < |s.procs| {
      var p := s.procs[i];
      if p.free {
        CalmClearRefs(s, rc, i + 1);
      } else {
        var s1 := s.Put(i, p.(notify := p.notify - {rc}, asyn := p.asyn - {rc}));
        DropCalm(s, i, rc);
        var s2 := if BlockedOn(p) == P(rc) then ClearIpc(s1, i) else s1;
        CalmClearIpc(s1, i);
        CalmTrans(s, s1, ClearIpc(s1, i));
        CalmClearRefs(s2, rc, i + 1);
        CalmTrans(s, s2, ClearRefs(s2, rc, i + 1));
      }
    }
  }

  lemma DropCalm(s: State, i: nat, rc: nat)
    requires i < |s.procs|
    ensures Calm(s, s.Put(i, s.procs[i].(notify := s.procs[i].notify - {rc}, asyn := s.procs[i].asyn - {rc})))
  {
    FewerSelf(s.procs[i].table);
    CalmPut(s, s.Put(i, s.procs[i].(notify := s.procs[i].notify - {rc}, asyn := s.procs[i].asyn - {rc})), i);
  }

  lemma CalmClear(s: State, rc: nat)
    requires s.Shape() && rc < |s.procs| && AsynOk(s, rc)
    ensures Calm(s, ClearEndpoint(s, rc)) && Calm(s, FreeSlot(s, rc))
  {
    hide ClearIpc, ClearRefs, CancelAll, Calm, Fewer;
    var p := s.procs[rc];
    var s1 := s.Put(rc, p.(noEndpoint := true, reg := p.reg && !p.sys));
    MarkCalm(s, rc);
    ClearIpcKeepsBits(s1, rc);
    var s2 := ClearIpc(s1, rc);
    CalmClearIpc(s1, rc);
    CalmTrans(s, s1, s2);
    var s3 := CancelAll(s2, rc);
    CalmCancelAll(s2, rc);
    CalmTrans(s, s2, s3);
    var s4 := ClearRefs(s3, rc, 0);
    CalmClearRefs(s3, rc, 0);
    CalmTrans(s, s3, s4);
    FreeCalm(s4, rc);
    CalmTrans(s, s4, s4.Put(rc, s4.procs[rc].(free := true, noEndpoint := false, sending := false, receiving :=
        false)));
  }

  lemma MarkCalm(s: State, rc: nat)
    requires rc < |s.procs|
    ensures Calm(s, s.Put(rc, s.procs[rc].(noEndpoint := true, reg := s.procs[rc].reg && !s.procs[rc].sys)))
  {
    FewerSelf(s.procs[rc].table);
    CalmPut(s, s.Put(rc, s.procs[rc].(noEndpoint := true, reg := s.procs[rc].reg && !s.procs[rc].sys)), rc);
  }

  lemma FreeCalm(s: State, rc: nat)
    requires rc < |s.procs|
    ensures Calm(s, s.Put(rc, s.procs[rc].(free := true, noEndpoint := false, sending := false, receiving := false)))
  {
    FewerSelf(s.procs[rc].table);
    CalmPut(s, s.Put(rc, s.procs[rc].(free := true, noEndpoint := false, sending := false, receiving := false)), rc);
  }

  lemma HandCalm(s: State, p: nat)
    requires p < |s.procs|
    ensures Calm(s, HandOver(s, p))
  {
    FewerSelf(s.procs[p].table);
    CalmPut(s, HandOver(s, p), p);
  }

  // ---- every step ----

  lemma QuietEvents(s: State, ev: Event)
    requires s.Shape() && Enabled(s, ev) && Defined(s, ev) && (ev.KernelNotify? || ev.Deliver? || ev.Clear? || ev.Free?)
    ensures Calm(s, Apply(s, ev))
  {
    hide MiniNotify, HandOver, ClearEndpoint, FreeSlot, Calm, QueueRange;
    match ev
    case KernelNotify(src, d) => CalmNotify(s, src, d);
    case Deliver(p) => HandCalm(s, p);
    case Clear(p) => CalmClear(s, p);
    case Free(p) => CalmClear(s, p);
  }

  // ---- exactly when an answer is missed ----

  /** What a receive by c leaves alone: c's own table and the bits of the others; and only processes
      on c's queue stop sending. */
  ghost predicate Spares(s: State, s': State, c: nat) {
    && c < |s.procs| == |s'.procs| && c < |s.queues| && s'.procs[c].table == s.procs[c].table
    && (forall x: nat :: x < |s.procs| && x != c ==> s'.procs[x].asyn == s.procs[x].asyn)
    && (forall x: nat :: x < |s.procs| && s.procs[x].sending && !s'.procs[x].sending ==> x in s.queues[c])
  }

  lemma SparesTrans(a: State, b: State, r: State, c: nat)
    requires Spares(a, b, c) && Spares(b, r, c) && b.queues[c] == a.queues[c]
    ensures Spares(a, r, c)
  {
  }

  lemma SparesSelf(s: State, c: nat)
    requires c < |s.procs| && c < |s.queues|
    ensures Spares(s, s, c)
  {
  }

  lemma GiveSpares(s: State, src: nat, d: nat, i: nat, e: Err)
    requires s.Shape() && src < |s.procs| && d < |s.procs| && src != d
    requires i < |s.procs[src].table| && s.procs[src].table[i].Entry?
    ensures Spares(s, AsyncDelivered(s, src, d, i), d) && Spares(s, Store(s, src, i, e), d)
    ensures AsyncDelivered(s, src, d, i).procs[src].table == s.procs[src].table
    ensures AsyncDelivered(s, src, d, i).queues == s.queues == Store(s, src, i, e).queues
    ensures AsyncDelivered(s, src, d, i).Shape() && Store(s, src, i, e).Shape()
    ensures |AsyncDelivered(s, src, d, i).procs| == |s.procs| == |Store(s, src, i, e).procs|
  {
  }

  lemma NotifySpares(s: State, src: nat, d: nat, c: nat)
    requires d < |s.procs| && c < |s.procs| && c < |s.queues|
    ensures Spares(s, MiniNotify(s, src, d), c)
  {
  }

  lemma PickedSpares(s: State, src: nat, d: nat, i: nat, bad: bool)
    requires s.Shape() && src < |s.procs| && d < |s.procs| && src != d
    requires i < |s.procs[src].table| && s.procs[src].table[i].Entry?
    ensures Spares(s, PickedEntry(s, src, d, i, bad), d)
  {
    hide MiniNotify, Store, AsyncDelivered, Spares;
    var e := if bad then EINVAL else OK;
    SparesSelf(s, d);
    GiveSpares(s, src, d, i, e);
    var s2 := if bad then s else AsyncDelivered(s, src, d, i);
    GiveSpares(s2, src, d, i, e);
    var s3 := Store(s2, src, i, e);
    SparesTrans(s, s2, s3, d);
    NotifySpares(s3, ASYNCM, src, d);
    SparesTrans(s, s3, MiniNotify(s3, ASYNCM, src), d);
  }

  lemma BitSpares(s: State, d: nat, src: nat, p: nat, reg: bool)
    requires d < |s.procs| && d < |s.queues| && p < |s.procs|
    ensures Spares(s, SetAsyn(s, d, src), d) && Spares(s, UnsetAsyn(s, d, src), d)
    ensures Spares(s, s.Put(p, s.procs[p].(reg := reg)), d)
  {
  }

  lemma TableSpares(s: State, src: nat, d: nat)
    requires s.Shape() && src < |s.procs| && d < |s.procs| && src != d
    ensures Spares(s, TryTable(s, src, d).0, d)
  {
    hide PickedEntry, SetAsyn, Scan, Spares;
    BitSpares(s, d, src, src, false);
    match Scan(s.procs[src].table, 0, d, s.procs[d].replyPend, true)
    case Nothing(done) =>
    case Picked(i, bad) =>
      PickedSpares(s, src, d, i, bad);
      var s1 := PickedEntry(s, src, d, i, bad);
      BitSpares(s1, d, src, src, false);
      SparesTrans(s, s1, SetAsyn(s1, d, src), d);
  }

  lemma OneSpares(s: State, src: nat, d: nat)
    requires s.Shape() && src < |s.procs| && d < |s.procs| && src != d
    ensures Spares(s, TryOne(s, src, d).0, d)
  {
    hide TryTable, Spares;
    SparesSelf(s, d);
    var s1 := UnsetAsyn(s, d, src);
    BitSpares(s, d, src, src, false);
    TableSpares(s1, src, d);
    SparesTrans(s, s1, TryTable(s1, src, d).0, d);
  }

  lemma {:induction false} AllSpares(s: State, q: nat, d: nat)
    requires s.Shape() && q <= |s.procs| && d < |s.procs| && d !in s.procs[d].asyn
    ensures Spares(s, TryAsync(s, q, d).0, d)
    decreases |s.procs| - q
  {
    hide TryOne, Spares;
    SparesSelf(s, d);
    if q < |s.procs| {
      if s.procs[q].free || q !in s.procs[d].asyn {
        AllSpares(s, q + 1, d);
      } else {
        var (s1, r) := TryOne(s, q, d);
        OneSpares(s, q, d);
        OneBits(s, q, d);
        if r != OK {
          AllSpares(s1, q + 1, d);
          SparesTrans(s, s1, TryAsync(s1, q + 1, d).0, d);
        }
      }
    }
  }

  /** A try adds no bit but the sender's. */
  lemma OneBits(s: State, src: nat, d: nat)
    requires s.Shape() && src < |s.procs| && d < |s.procs|
    ensures TryOne(s, src, d).0.procs[d].asyn <= s.procs[d].asyn + {src}
  {
    hide PickedEntry, Scan;
    var s1 := UnsetAsyn(s, d, src);
    match Scan(s1.procs[src].table, 0, d, s1.procs[d].replyPend, true)
    case Nothing(done) =>
    case Picked(i, bad) => PickedBits(s1, src, d, i, bad);
  }

  lemma PickedBits(s: State, src: nat, d: nat, i: nat, bad: bool)
    requires s.Shape() && src < |s.procs| && d < |s.procs|
    requires i < |s.procs[src].table| && s.procs[src].table[i].Entry?
    ensures PickedEntry(s, src, d, i, bad).procs[d].asyn == s.procs[d].asyn
  {
    hide MiniNotify;
    NotifySame(Store(if bad then s else AsyncDelivered(s, src, d, i), src, i, if bad then EINVAL else OK), ASYNCM, src);
  }

  lemma TablesSpare(s: State, c: nat, src: Ep)
    requires s.Shape() && c < |s.procs| && (src.P? ==> src.nr < |s.procs|) && c !in s.procs[c].asyn
    ensures Spares(s, FromTables(s, c, src).0, c)
  {
    hide TryOne, TryAsync, Spares;
    SparesSelf(s, c);
    if HasPending(s.procs[c].asyn, src, |s.procs|) >= 0 {
      if src.P? { OneSpares(s, src.nr, c); } else { AllSpares(s, 0, c); }
    }
  }

  lemma TakenSpares(s: State, c: nat, k: nat)
    requires s.Shape() && c < |s.procs| && k < |s.queues[c]| && s.queues[c][k] < |s.procs|
    ensures Spares(s, Taken(s, c, k), c)
  {
    assert s.queues[c][k] in s.queues[c];
  }

  lemma LastSpares(s: State, c: nat, n: nat, src: Ep)
    requires c < |s.procs| && c < |s.queues|
    ensures Spares(s, NoteTaken(s, c, n), c) && Spares(s, ReceiveDone(s, c), c)
    ensures Spares(s, s.Put(c, s.procs[c].(getFrom := src, receiving := true)), c)
  {
  }

  lemma ArrivedSpares(s: State, c: nat, src: Ep)
    requires QueueRange(s) && c < |s.procs| && (src.P? ==> src.nr < |s.procs|) && c !in s.procs[c].asyn
    ensures Spares(s, Arrived(s, c, src).0, c)
  {
    hide FromTables, Taken, NoteTaken, Spares;
    var p := s.procs[c];
    var note := if p.replyPend then -1 else HasPending(p.notify, src, |s.procs|);
    if note >= 0 {
      LastSpares(s, c, note, src);
    } else {
      TablesSpare(s, c, src);
      var (s1, r) := FromTables(s, c, src);
      var k := FirstFrom(s1.queues[c], src, 0);
      if r != OK && k >= 0 {
        TakenSpares(s1, c, k);
        SparesTrans(s, s1, Taken(s1, c, k), c);
      }
    }
  }

  lemma SparesPut(s: State, s1: State, c: nat, pr: Proc)
    requires Spares(s, s1, c) && pr.table == s1.procs[c].table && pr.sending == s1.procs[c].sending
    ensures Spares(s, s1.Put(c, pr), c)
  {
  }

  lemma ReceiveSpares(s: State, c: nat, src: Ep)
    requires QueueRange(s) && c < |s.procs| && (src.P? ==> src.nr < |s.procs|) && c !in s.procs[c].asyn
    ensures Spares(s, MiniReceive(s, c, src).0, c)
  {
    hide Arrived, Deadlock, QueueRange;
    RangeShape(s);
    SparesSelf(s, c);
    ArrivedSpares(s, c, src);
    var s1 := if s.procs[c].sending then s else Arrived(s, c, src).0;
    SparesPut(s, s1, c, s1.procs[c].(replyPend := false));
    SparesPut(s, s1, c, s1.procs[c].(getFrom := src, receiving := true));
  }

  /** A receive by c makes a process that it releases miss an entry of c exactly if c's bit is set
      in it and c has an entry for it. */
  lemma ReceiveMissesIff(s: State, c: nat, src: Ep, d: nat)
    requires QueueRange(s) && c < |s.procs| && (src.P? ==> src.nr < |s.procs|) && c !in s.procs[c].asyn
    requires Released(s, MiniReceive(s, c, src).0, d) && s.procs[d].getFrom == P(c) && c != d
    ensures Missed(MiniReceive(s, c, src).0, d, c) <==>
            c in s.procs[d].asyn && Offers(s.procs[c].table, d, s.procs[d].replyPend)
  {
    ReceiveSpares(s, c, src);
    hide MiniReceive, Offers;
  }

  lemma SendSpares(s: State, c: nat, d: nat)
    requires s.Shape() && c < |s.procs| && d < |s.procs| && c != d
    ensures var s1 := MiniSend(s, c, d, false, false).0; Spares(s, s1, c) && s1.queues[c] == s.queues[c]
  {
    hide Deadlock;
  }

  lemma PendSpares(s: State, c: nat, on: bool)
    requires c < |s.procs| && c < |s.queues|
    ensures Spares(s, WithReplyPend(s, c, on), c) && WithReplyPend(s, c, on).queues == s.queues
    ensures WithReplyPend(s, c, on).procs[c].asyn == s.procs[c].asyn
  {
  }

  /** In a call that takes messages only the caller's queue is touched. */
  lemma SyncSpares(s: State, c: nat, call: Call, e: Ep)
    requires Inv(s) && QueueRange(s) && CanCall(s, c) && (call == RECEIVE || call == SENDREC)
    ensures Spares(s, DoSyncIpc(s, c, call, e).0, c)
  {
    IdleFacts(s, c);
    NoOwnBit(s, c);
    RangeShape(s);
    hide Inv, MiniSend, MiniReceive, WithReplyPend, QueueRange, Spares, BitsGood, SendersWait;
    SparesSelf(s, c);
    if Checks(s, c, call, e) == OK {
      var s0 := WithReplyPend(s, c, call == SENDREC);
      PendSpares(s, c, call == SENDREC);
      PendLeaves(s, c, call == SENDREC);
      if call == RECEIVE {
        ReceiveSpares(s0, c, e);
        SparesTrans(s, s0, MiniReceive(s0, c, e).0, c);
      } else {
        RangeShape(s0);
        SendSpares(s0, c, e.nr);
        SendLeaves(s0, c, e.nr, false, false);
        SendBits(s0, c, e.nr);
        var s1 := MiniSend(s0, c, e.nr, false, false).0;
        SparesTrans(s, s0, s1, c);
        ReceiveSpares(s1, c, e);
        SparesTrans(s, s1, MiniReceive(s1, c, e).0, c);
      }
    }
  }

  lemma NoOwnBit(s: State, c: nat)
    requires Inv(s) && Idle(s, c)
    ensures c !in s.procs[c].asyn
  {
    assert BitsOk(s, c, -1);
  }

  lemma SendBits(s: State, c: nat, d: nat)
    requires s.Shape() && c < |s.procs| && d < |s.procs|
    ensures |MiniSend(s, c, d, false, false).0.procs| == |s.procs|
    ensures MiniSend(s, c, d, false, false).0.procs[c].asyn == s.procs[c].asyn
  {
    hide Deadlock;
  }

  /** Every other step releases nobody. */
  lemma OthersRelease(s: State, ev: Event, d: nat)
    requires Inv(s) && Enabled(s, ev) && !(ev.SyncCall? && (ev.call == RECEIVE || ev.call == SENDREC))
    ensures !Released(s, Apply(s, ev), d)
  {
    AlwaysDefined(s, ev);
    ShapeOf(s);
    hide Inv, MiniSenda, MiniSend, MiniNotify, HandOver, ClearEndpoint, FreeSlot, Calm;
    match ev
    case SyncCall(c, call, e) =>
      CalmSame(s, s);
      if Checks(s, c, call, e) == OK {
        if call == NOTIFY { CalmNotify(s, c, e.nr); } else { CalmSend(s, c, e.nr, call == SENDNB, false); }
      }
      CalmReleases(s, Apply(s, ev), d);
    case Submit(c, table) => SubmitExplained(s, c, table);
    case KernelSend(c, x) =>
      CalmSend(s, c, x, false, true);
      CalmReleases(s, Apply(s, ev), d);
    case _ =>
      QuietEvents(s, ev);
      CalmReleases(s, Apply(s, ev), d);
  }

  lemma CalmReleases(s: State, s': State, d: nat)
    requires Calm(s, s')
    ensures !Released(s, s', d)
  {
  }

  /** A process released from its send waits for the one it sent to. */
  lemma ReleasedBy(s: State, ev: Event, d: nat)
    requires Inv(s) && Enabled(s, ev) && Released(s, Apply(s, ev), d)
    ensures ev.SyncCall? && s.procs[d].sendTo == P(ev.c) == s.procs[d].getFrom && ev.c != d
    ensures ev.c < |s.procs| && Spares(s, Apply(s, ev), ev.c)
  {
    hide DoSyncIpc, MiniSenda, MiniSend, MiniNotify, HandOver, ClearEndpoint, FreeSlot, Spares, Rdv, AsyBut, Masks;
    AlwaysDefined(s, ev);
    if !(ev.SyncCall? && (ev.call == RECEIVE || ev.call == SENDREC)) {
      OthersRelease(s, ev, d);
    } else {
      SyncSpares(s, ev.c, ev.call, ev.e);
      OnQueueOf(s, Apply(s, ev), ev.c, d);
    }
  }

  lemma OnQueueOf(s: State, s': State, c: nat, d: nat)
    requires Rdv(s) && Spares(s, s', c) && d < |s.procs| && s.procs[d].sending && s.procs[d].receiving
    requires !s'.procs[d].sending
    ensures s.procs[d].sendTo == P(c) == s.procs[d].getFrom && c != d
  {
    assert QueueOk(s, c) && SenderOk(s, d) && ReceiverOk(s, d);
  }

  /** A process that is released misses an entry exactly when the one it sent to has its bit set in
      it and an entry for it in its table. */
  lemma ReleasedMissesIff(s: State, ev: Event, d: nat, src: nat)
    requires Inv(s) && Enabled(s, ev) && Released(s, Apply(s, ev), d)
    ensures Missed(Apply(s, ev), d, src) <==> Due(s, d, src)
  {
    ReleasedBy(s, ev, d);
    hide Inv, Apply, Enabled, Offers;
  }

  /** A step leaves a process waiting for an entry it could take only if it did so before, or if
      the step releases the process from the send of its SENDREC; and then exactly if the entry was
      due. */
  lemma StepExplained(s: State, ev: Event)
    requires Inv(s) && Enabled(s, ev)
    ensures Explained(s, Apply(s, ev))
    ensures forall d: nat, src: nat :: Released(s, Apply(s, ev), d) ==>
              (Missed(Apply(s, ev), d, src) <==> Due(s, d, src))
  {
    forall d: nat, src: nat | Released(s, Apply(s, ev), d) ensures Missed(Apply(s, ev), d, src) <==> Due(s, d, src) {
      ReleasedMissesIff(s, ev, d, src);
    }
    EventExplained(s, ev);
  }

  lemma EventExplained(s: State, ev: Event)
    requires Inv(s) && Enabled(s, ev)
    ensures Explained(s, Apply(s, ev))
  {
    AlwaysDefined(s, ev);
    ShapeOf(s);
    hide Inv, DoSyncIpc, MiniSenda, MiniSend, MiniNotify, HandOver, ClearEndpoint, FreeSlot, Calm, Explained;
    match ev
    case SyncCall(c, call, e) => SyncExplained(s, c, call, e);
    case Submit(c, table) => SubmitExplained(s, c, table);
    case KernelSend(c, d) => SendExplained(s, c, d, false, true);
    case _ =>
      QuietEvents(s, ev);
      CalmExplained(s, Apply(s, ev));
  }

  /** So that is when a step makes a process miss an entry that it did not miss before. */
  lemma NewlyMissedIff(s: State, ev: Event, d: nat, src: nat)
    requires Inv(s) && Enabled(s, ev)
    ensures Missed(Apply(s, ev), d, src) && !Missed(s, d, src) <==>
            Released(s, Apply(s, ev), d) && Due(s, d, src)
  {
    StepExplained(s, ev);
    hide Inv, Apply, Enabled, Offers, Due;
  }

  /** In every run: a process misses an entry only since the send of its SENDREC, blocked until
      then, was completed, and then by a receiver that had an entry for it. */
  lemma {:induction false} RunExplained(states: seq<State>, events: seq<Event>, k: nat, d: nat, src: nat)
    returns (j: nat)
    requires Run(states, events) && k <= |events| && Missed(states[k], d, src)
    ensures j < k && Released(states[j], states[j + 1], d) && forall m: nat :: j < m <= k ==> Missed(states[m], d, src)
    ensures Due(states[j], d, src)
  {
    hide Missed, Due, Enabled, Apply, Fresh, Inv;
    assert k > 0 by { NoneAtFirst(states[0], d, src); }
    RunInv(states, events, k - 1);
    StepExplained(states[k - 1], events[k - 1]);
    if Released(states[k - 1], states[k], d) {
      j := k - 1;
      ReleasedMissesIff(states[j], events[j], d, src);
    } else {
      j := RunExplained(states, events, k - 1, d, src);
    }
  }

  lemma NoneAtFirst(s: State, d: nat, src: nat)
    requires Fresh(s)
    ensures !Missed(s, d, src)
  {
  }

  /** So it is waiting for the answer of src; a plain RECEIVE misses nothing. */
  lemma {:induction false} OnlyAnswers(states: seq<State>, events: seq<Event>, k: nat, d: nat, src: nat)
    requires Run(states, events) && k <= |events| && Missed(states[k], d, src)
    ensures states[k].procs[d].replyPend && states[k].procs[d].getFrom == P(src)
  {
    hide Enabled, Apply, Fresh, Inv, Offers;
    assert k > 0 by { NoneAtFirst(states[0], d, src); }
    RunInv(states, events, k - 1);
    StepExplained(states[k - 1], events[k - 1]);
    if Released(states[k - 1], states[k], d) {
      HeldBySend(states[k - 1], d);
    } else {
      OnlyAnswers(states, events, k - 1, d, src);
    }
  }

  lemma HeldBySend(s: State, d: nat)
    requires Inv(s) && d < |s.procs| && s.procs[d].sending && s.procs[d].receiving
    ensures s.procs[d].replyPend && s.procs[d].getFrom.P?
  {
    assert ReceiverOk(s, d) && SenderOk(s, d);
  }

  // ---- A run in which an answer is missed ----

  function Party(p: nat): Proc {
    Proc(false, false, false, false, Nobody, Nobody, Msg(0, Notification), false, Msg(0, Notification),
         false, false, {}, {}, if p == 5 then {7} else if p == 7 then {5}
             else {}, {SENDREC, RECEIVE}, true, [], false, 0)
  }

  /** Client 5 and server 7, and nobody blocked. */
  function Begin(): (s: State)
    ensures s.Shape() && |s.procs| == 8
    ensures forall p: nat :: p < 8 ==> s.procs[p] == Party(p) && s.queues[p] == [] && !s.stale[p]
    ensures s.mail == [] && s.log == []
  {
    State(seq(8, p requires 0 <= p => Party(p)), seq(8, _ => []), seq(8, _ => false), [], [])
  }

  const ANSWER := Entry(true, false, false, false, false, false, P(5), OK)

  /** 5 calls 7, which is busy. */
  function Asked(): State {
    var s := Enqueued(WithReplyPend(Begin(), 5, true), 5, 7, false);
    s.Put(5, s.procs[5].(getFrom := P(7), receiving := true))
  }

  /** 7 submits an answer for 5. */
  function Answered(): State {
    var s := Asked().Put(7, Asked().procs[7].(table := [ANSWER], reg := true, epoch := 1));
    SetAsyn(s, 5, 7)
  }

  /** 7 receives the question. */
  function Left(): State {
    var s := WithReplyPend(Answered(), 7, false);
    ReceiveDone(Taken(s, 7, 0), 7)
  }

  lemma NoChain(s: State, c: nat, d: nat)
    requires d < |s.procs| && BlockedOn(s.procs[d]) == Nobody
    ensures !Deadlock(s, c, P(d))
  {
    assert Graph(s)[d] == Edge(s, d) == -1;
    forall n: nat | n > 0 ensures Nth(Graph(s), d, n) != c { assert Nth(Graph(s), d, n) == Nth(Graph(s), -1, n - 1); }
  }

  lemma CallBlocks()
    ensures Enabled(Begin(), SyncCall(5, SENDREC, P(7))) && QueueRange(Begin())
    ensures DoSyncIpc(Begin(), 5, SENDREC, P(7)).0 == Asked()
  {
    hide Begin, Deadlock;
    var s0 := WithReplyPend(Begin(), 5, true);
    NoChain(s0, 5, 7);
    NoChain(Enqueued(s0, 5, 7, false), 5, 7);
  }

  lemma AnswerPends()
    ensures Enabled(Asked(), Submit(7, [ANSWER])) && MiniSenda(Asked(), 7, [ANSWER]).0 == Answered()
  {
    hide Begin;
    var s := Asked();
    var s1 := s.Put(7, s.procs[7].(table := [ANSWER], reg := false, epoch := 1));
    var a := Senda(s1, true, false);
    assert SendaFrom(a, 7, 0) == SendaFrom(SendaEntry(a, 7, 0), 7, 1) == SendaEntry(a, 7, 0);
    assert SendaEntry(a, 7, 0) == Senda(SetAsyn(s1, 5, 7), false, false);
  }

  lemma AnsweredFacts()
    ensures var s := WithReplyPend(Answered(), 7, false);
            && QueueRange(Answered()) && CanCall(Answered(), 7) && RECEIVE in Answered().procs[7].traps
            && QueueRange(s) && |s.procs| == 8 && s.queues[7] == [5] && !s.procs[7].sending && !s.procs[7].replyPend
            && s.procs[7].notify == {} && s.procs[7].asyn == {}
  {
    hide Begin;
  }

  lemma QuestionTaken()
    ensures Enabled(Answered(), SyncCall(7, RECEIVE, Any)) && QueueRange(Answered())
    ensures DoSyncIpc(Answered(), 7, RECEIVE, Any).0 == Left()
  {
    AnsweredFacts();
    hide Answered, Taken;
    var s := WithReplyPend(Answered(), 7, false);
    assert Lowest({}, 0, 8) == -1;
    assert FirstFrom(s.queues[7], Any, 0) == 0;
    assert Arrived(s, 7, Any) == (Taken(s, 7, 0), true);
  }

  /** 5 waits for an answer of 7 that is in 7's table, with 7's bit set. */
  lemma MissedReached()
    ensures Run([Begin(), Asked(), Answered(), Left()],
            [SyncCall(5, SENDREC, P(7)), Submit(7, [ANSWER]), SyncCall(7, RECEIVE, Any)])
    ensures Missed(Left(), 5, 7)
  {
    hide Begin, DoSyncIpc, MiniSenda;
    CallBlocks();
    AnswerPends();
    QuestionTaken();
    assert First(Left().procs[7].table, 5, true, 0);
    var states, events := [Begin(), Asked(), Answered(), Left()],
        [SyncCall(5, SENDREC, P(7)), Submit(7, [ANSWER]), SyncCall(7, RECEIVE, Any)];
    forall i: nat | i < 3 ensures Enabled(states[i], events[i]) && states[i + 1] == Apply(states[i], events[i]) {
      assert i == 0 || i == 1 || i == 2;
    }
  }

  /** 7 submits the answer before it is asked. */
  function Prepared(): State {
    var s := Begin().Put(7, Begin().procs[7].(table := [ANSWER], reg := true, epoch := 1));
    SetAsyn(s, 5, 7)
  }

  lemma AnswerAhead()
    ensures Enabled(Begin(), Submit(7, [ANSWER])) && MiniSenda(Begin(), 7, [ANSWER]).0 == Prepared()
  {
    hide Begin;
    var s := Begin();
    var s1 := s.Put(7, s.procs[7].(table := [ANSWER], reg := false, epoch := 1));
    var a := Senda(s1, true, false);
    assert SendaFrom(a, 7, 0) == SendaFrom(SendaEntry(a, 7, 0), 7, 1) == SendaEntry(a, 7, 0);
    assert SendaEntry(a, 7, 0) == Senda(SetAsyn(s1, 5, 7), false, false);
  }

  lemma CallBlocksToo()
    ensures Enabled(Prepared(), SyncCall(5, SENDREC, P(7))) && QueueRange(Prepared())
    ensures DoSyncIpc(Prepared(), 5, SENDREC, P(7)).0 == Answered()
  {
    hide Begin, Deadlock;
    var s0 := WithReplyPend(Prepared(), 5, true);
    NoChain(s0, 5, 7);
    NoChain(Enqueued(s0, 5, 7, false), 5, 7);
    var s1 := Enqueued(s0, 5, 7, false);
    var r := s1.Put(5, s1.procs[5].(getFrom := P(7), receiving := true));
    assert DoSyncIpc(Prepared(), 5, SENDREC, P(7)).0 == r;
    hide DoSyncIpc, MiniSend, MiniReceive;
    assert r.procs == Answered().procs;
  }

  /** The same happens when the entry is older than the SENDREC. */
  lemma EarlyAnswerMissed()
    ensures Run([Begin(), Prepared(), Answered(), Left()],
                [Submit(7, [ANSWER]), SyncCall(5, SENDREC, P(7)), SyncCall(7, RECEIVE, Any)])
    ensures Missed(Left(), 5, 7)
  {
    hide Begin, DoSyncIpc, MiniSenda;
    AnswerAhead();
    CallBlocksToo();
    QuestionTaken();
    assert First(Left().procs[7].table, 5, true, 0);
    var states := [Begin(), Prepared(), Answered(), Left()];
    var events := [Submit(7, [ANSWER]), SyncCall(5, SENDREC, P(7)), SyncCall(7, RECEIVE, Any)];
    forall i: nat | i < 3 ensures Enabled(states[i], events[i]) && states[i + 1] == Apply(states[i], events[i]) {
      assert i == 0 || i == 1 || i == 2;
    }
  }
}
