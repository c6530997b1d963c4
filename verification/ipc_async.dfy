/**
 The asynchronous invariant: an entry that is not done is registered and its sender's
 bit is set at its live destination, so it cannot be lost; and no entry is delivered twice.
 */
module IpcAsync {
  import opened Ipc
  import opened IpcInv

  /** While process x is being cleared, entries aimed at it may still be undone and its own
      bits may still be set; x is -1 otherwise. */
  ghost predicate EntryOk(s: State, src: nat, i: nat, x: int)
    requires src < |s.procs| && i < |s.procs[src].table|
  {
    var p := s.procs[src];
    Undone(p.table[i]) ==>
      && p.reg && p.sys
      && Live(s, p.table[i].dst) && (p.table[i].dst.nr == x || !s.procs[p.table[i].dst.nr].noEndpoint)
      && p.table[i].dst.nr in p.ipcTo
      && src in s.procs[p.table[i].dst.nr].asyn
  }

  ghost predicate TableOk(s: State, src: nat, x: int)
    requires src < |s.procs|
  {
    !s.procs[src].free && !s.procs[src].noEndpoint ==>
      forall i: nat :: i < |s.procs[src].table| ==> EntryOk(s, src, i, x)
  }

  ghost predicate BitsOk(s: State, d: nat, x: int)
    requires d < |s.procs|
  {
    !s.procs[d].free ==>
      forall q :: q in s.procs[d].asyn ==>
        q < |s.procs| && s.procs[q].sys && !s.procs[q].free && d in s.procs[q].ipcTo
        && (q == x || !s.procs[q].noEndpoint)
  }

  /** A delivery on record is of an older submission or of an entry now marked done. */
  ghost predicate Past(s: State, q: nat, e: nat, i: nat) {
    && q < |s.procs| && e <= s.procs[q].epoch
    && (e == s.procs[q].epoch ==>
          i < |s.procs[q].table| && s.procs[q].table[i].Entry? && s.procs[q].table[i].done)
  }

  ghost predicate LogOk(s: State) {
    && (forall k: nat :: k < |s.log| ==> Past(s, s.log[k].0, s.log[k].1, s.log[k].2))
    && (forall j: nat, k: nat :: j < k < |s.log| ==> s.log[j] != s.log[k])
  }

  ghost predicate AsyBut(s: State, x: int) {
    && (forall src: nat :: src < |s.procs| ==> TableOk(s, src, x))
    && (forall d: nat :: d < |s.procs| ==> BitsOk(s, d, x))
    && LogOk(s)
  }

  ghost predicate Asy(s: State) { AsyBut(s, -1) }

  /** Operations that leave the asynchronous side alone. */
  ghost predicate SameAsync(s: State, s': State) {
    && SameSetup(s, s') && s'.log == s.log
    && forall p: nat :: p < |s.procs| ==>
         && s'.procs[p].asyn == s.procs[p].asyn && s'.procs[p].table == s.procs[p].table
         && s'.procs[p].reg == s.procs[p].reg && s'.procs[p].epoch == s.procs[p].epoch
  }

  lemma SameAsyncKeeps(s: State, s': State, x: int)
    requires AsyBut(s, x) && SameAsync(s, s')
    ensures AsyBut(s', x)
  {
    forall p: nat | p < |s.procs| ensures TableOk(s', p, x) {
      assert TableOk(s, p, x);
      if !s.procs[p].free && !s.procs[p].noEndpoint {
        forall i: nat | i < |s'.procs[p].table| ensures EntryOk(s', p, i, x) { assert EntryOk(s, p, i, x); }
      }
    }
    forall d: nat | d < |s.procs| ensures BitsOk(s', d, x) { assert BitsOk(s, d, x); }
  }

  lemma NotifySame(s: State, src: nat, d: nat)
    requires d < |s.procs|
    ensures SameAsync(s, MiniNotify(s, src, d))
  {
  }

  // ---- try_one ----

  /** If the scan finds every entry done, no entry is undone. */
  lemma {:induction false} ScanDone(table: seq<Entry>, i: nat, d: nat, replyPend: bool, done: bool)
    requires i <= |table| && Scan(table, i, d, replyPend, done) == Nothing(true)
    ensures done && forall j: nat :: i <= j < |table| ==> !Undone(table[j])
    decreases |table| - i
  {
    if i < |table| { ScanDone(table, i + 1, d, replyPend, done && !Undone(table[i])); }
  }

  /** What the scan picks is undone unless it is malformed. */
  lemma {:induction false} ScanPicks(table: seq<Entry>, i: nat, d: nat, replyPend: bool, done: bool)
    requires i <= |table|
    ensures var k := Scan(table, i, d, replyPend, done);
            k.Picked? ==> if k.bad then Malformed(table[k.i]) else Undone(table[k.i]) && table[k.i].dst == P(d)
    decreases |table| - i
  {
    if i < |table| {
      ScanPicks(table, i + 1, d, replyPend, done);
      ScanPicks(table, i + 1, d, replyPend, false);
    }
  }

  /** Some entries of src have been marked done; otherwise tables are as before. */
  ghost predicate Marked(s: State, s': State, src: nat) {
    && SameSetup(s, s') && src < |s.procs|
    && (forall p: nat :: p < |s.procs| ==>
          && s'.procs[p].reg == s.procs[p].reg && s'.procs[p].epoch == s.procs[p].epoch
          && (p != src ==> s'.procs[p].table == s.procs[p].table))
    && |s'.procs[src].table| == |s.procs[src].table|
    && forall i: nat :: i < |s.procs[src].table| ==>
         var a, b := s.procs[src].table[i], s'.procs[src].table[i];
         b == a || (a.Entry? && b.Entry? && b.done)
  }

  lemma LogKept(s: State, s': State, src: nat)
    requires LogOk(s) && Marked(s, s', src) && s'.log == s.log
    ensures LogOk(s')
  {
    forall k: nat | k < |s.log| ensures Past(s', s.log[k].0, s.log[k].1, s.log[k].2) {
      assert Past(s, s.log[k].0, s.log[k].1, s.log[k].2);
    }
  }

  /** Delivering an entry that was not done, and marking it, records no delivery twice. */
  lemma LogGrows(s: State, s': State, src: nat, i: nat)
    requires LogOk(s) && Marked(s, s', src) && s'.log == s.log + [(src, s.procs[src].epoch, i)]
    requires i < |s.procs[src].table| && s.procs[src].table[i].Entry? && !s.procs[src].table[i].done
    requires s'.procs[src].table[i].Entry? && s'.procs[src].table[i].done
    ensures LogOk(s')
  {
    forall k: nat | k < |s.log|
      ensures Past(s', s.log[k].0, s.log[k].1, s.log[k].2) && s.log[k] != (src, s.procs[src].epoch, i)
    {
      assert Past(s, s.log[k].0, s.log[k].1, s.log[k].2);
    }
  }

  /** Marking entries done and setting src's bit somewhere it may send to. */
  lemma MarkKeeps(s: State, s': State, src: nat, x: int)
    requires AsyBut(s, x) && Marked(s, s', src) && LogOk(s')
    requires forall p: nat :: p < |s.procs| ==> s.procs[p].asyn <= s'.procs[p].asyn
    requires forall d: nat, q :: d < |s.procs| && q in s'.procs[d].asyn && q !in s.procs[d].asyn ==>
               q == src && s.procs[src].sys && !s.procs[src].free && !s.procs[src].noEndpoint && d in s.procs[src].ipcTo
    ensures AsyBut(s', x)
  {
    forall p: nat | p < |s.procs| ensures TableOk(s', p, x) {
      assert TableOk(s, p, x);
      if !s.procs[p].free && !s.procs[p].noEndpoint {
        forall i: nat | i < |s'.procs[p].table| ensures EntryOk(s', p, i, x) { assert EntryOk(s, p, i, x); }
      }
    }
    forall d: nat | d < |s.procs| ensures BitsOk(s', d, x) { assert BitsOk(s, d, x); }
  }

  ghost predicate SameAsyn(s: State, s': State) {
    |s'.procs| == |s.procs| && forall p: nat :: p < |s.procs| ==> s'.procs[p].asyn == s.procs[p].asyn
  }

  lemma PickedAsync(s: State, src: nat, d: nat, i: nat, bad: bool)
    requires s.Shape() && src < |s.procs| && d < |s.procs| && i < |s.procs[src].table| && LogOk(s)
    requires if bad then Malformed(s.procs[src].table[i]) else Undone(s.procs[src].table[i])
    ensures var r := PickedEntry(s, src, d, i, bad); Marked(s, r, src) && SameAsyn(s, r) && LogOk(r)
  {
    hide LogOk, MiniNotify, AsyncDelivered, Store;
    var s2 := if bad then s else AsyncDelivered(s, src, d, i);
    StoreMarks(s, src, d, i, bad);
    var s3 := Store(s2, src, i, if bad then EINVAL else OK);
    NotifySame(s3, ASYNCM, src);
    LogKept(s3, MiniNotify(s3, ASYNCM, src), src);
  }

  lemma StoreMarks(s: State, src: nat, d: nat, i: nat, bad: bool)
    requires s.Shape() && src < |s.procs| && d < |s.procs| && i < |s.procs[src].table| && LogOk(s)
    requires if bad then Malformed(s.procs[src].table[i]) else Undone(s.procs[src].table[i])
    ensures var s2 := if bad then s else AsyncDelivered(s, src, d, i);
            && |s2.procs| == |s.procs| && s2.procs[src].table == s.procs[src].table
            && var s3 := Store(s2, src, i, if bad then EINVAL else OK);
            && |s3.procs| == |s.procs| && Marked(s, s3, src) && SameAsyn(s, s3) && LogOk(s3)
  {
    hide LogOk;
    var s2 := if bad then s else AsyncDelivered(s, src, d, i);
    var s3 := Store(s2, src, i, if bad then EINVAL else OK);
    assert Marked(s, s3, src) && SameAsyn(s, s3);
    if bad { LogKept(s, s3, src); } else { LogGrows(s, s3, src, i); }
  }

  lemma BitMarked(s: State, d: nat, bits: set<nat>, src: nat)
    requires d < |s.procs| && src < |s.procs|
    ensures var r := s.Put(d, s.procs[d].(asyn := bits)); Marked(s, r, src) && r.log == s.log
  {
  }

  lemma MarkedTrans(a: State, b: State, c: State, src: nat)
    requires Marked(a, b, src) && Marked(b, c, src)
    ensures Marked(a, c, src)
  {
  }

  lemma PickAsync(s: State, s1: State, src: nat, d: nat, i: nat, bad: bool)
    requires Asy(s) && s.Shape() && src < |s.procs| && d < |s.procs| && s1 == UnsetAsyn(s, d, src)
    requires !s.procs[src].free && !s.procs[src].noEndpoint && s.procs[src].sys && d in s.procs[src].ipcTo
    requires i < |s1.procs[src].table| && if bad then Malformed(s1.procs[src].table[i])
             else Undone(s1.procs[src].table[i])
    ensures Asy(SetAsyn(PickedEntry(s1, src, d, i, bad), d, src))
  {
    hide PickedEntry, LogOk, TableOk, BitsOk, Marked;
    BitMarked(s, d, s1.procs[d].asyn, src);
    LogKept(s, s1, src);
    PickedAsync(s1, src, d, i, bad);
    var k := PickedEntry(s1, src, d, i, bad);
    var r := SetAsyn(k, d, src);
    BitMarked(k, d, r.procs[d].asyn, src);
    LogKept(k, r, src);
    MarkedTrans(s, s1, k, src);
    MarkedTrans(s, k, r, src);
    MarkKeeps(s, r, src, -1);
  }

  lemma TryTableAsync(s: State, s1: State, src: nat, d: nat)
    requires Asy(s) && s.Shape() && src < |s.procs| && d < |s.procs| && s1 == UnsetAsyn(s, d, src)
    requires !s.procs[src].free && !s.procs[src].noEndpoint && s.procs[src].sys && d in s.procs[src].ipcTo
    ensures Asy(TryTable(s1, src, d).0)
  {
    hide Scan, PickedEntry, Asy, SetAsyn, UnsetAsyn;
    var p := s.procs[src];
    assert s1.procs[src].table == p.table && s1.procs[d].replyPend == s.procs[d].replyPend
        && |s1.procs| == |s.procs| by {
      UnsetOnlyBits(s, d, src);
    }
    match Scan(p.table, 0, d, s.procs[d].replyPend, true)
    case Nothing(done) =>
      if done {
        ScanDone(p.table, 0, d, s.procs[d].replyPend, true);
        UnregisterAsync(s, s1, src, d);
      } else {
        BackAsync(s, s1, src, d);
      }
    case Picked(i, bad) =>
      ScanPicks(p.table, 0, d, s.procs[d].replyPend, true);
      PickAsync(s, s1, src, d, i, bad);
  }

  lemma UnsetOnlyBits(s: State, d: nat, src: nat)
    requires d < |s.procs|
    ensures var s1 := UnsetAsyn(s, d, src);
            |s1.procs| == |s.procs| && s1.procs[d].replyPend == s.procs[d].replyPend
            && forall p: nat :: p < |s.procs| ==> s1.procs[p].table == s.procs[p].table
  {
  }

  lemma UnregisterAsync(s: State, s1: State, src: nat, d: nat)
    requires Asy(s) && src < |s.procs| && d < |s.procs| && s1 == UnsetAsyn(s, d, src)
    requires forall i: nat :: i < |s.procs[src].table| ==> !Undone(s.procs[src].table[i])
    ensures Asy(s1.Put(src, s1.procs[src].(reg := false)))
  {
    hide LogOk, TableOk, BitsOk;
    QuietKeeps(s, s1.Put(src, s1.procs[src].(reg := false)), src, d, -1);
  }

  /** The bit is cleared and set again. */
  lemma BackAsync(s: State, s1: State, src: nat, d: nat)
    requires Asy(s) && src < |s.procs| && d < |s.procs| && s1 == UnsetAsyn(s, d, src)
    requires !s.procs[src].free && !s.procs[src].noEndpoint && s.procs[src].sys && d in s.procs[src].ipcTo
    ensures Asy(SetAsyn(s1, d, src))
  {
    hide LogOk, TableOk, BitsOk;
    var r := s.Put(d, s.procs[d].(asyn := s.procs[d].asyn + {src}));
    assert s.procs[d].asyn - {src} + {src} == s.procs[d].asyn + {src};
    assert SetAsyn(s1, d, src) == r;
    BitMarked(s, d, r.procs[d].asyn, src);
    LogKept(s, r, src);
    MarkKeeps(s, r, src, -1);
  }

  lemma TryOneAsync(s: State, src: nat, d: nat)
    requires Asy(s) && s.Shape() && src < |s.procs| && d < |s.procs|
    requires !s.procs[src].free && !s.procs[src].noEndpoint
    ensures Asy(TryOne(s, src, d).0)
  {
    hide TryTable, LogOk;
    var p, s1 := s.procs[src], UnsetAsyn(s, d, src);
    if p.sys {
      if p.reg && d in p.ipcTo {
        TryTableAsync(s, s1, src, d);
      } else {
        assert TableOk(s, src, -1);
        forall i: nat | i < |p.table| && Undone(p.table[i]) ensures p.table[i].dst != P(d) {
          assert EntryOk(s, src, i, -1);
        }
        QuietKeeps(s, s1, src, d, -1);
      }
    }
  }

  /** Dropping src's bit in d, and its registration, when it has no undone entry that needs them. */
  lemma QuietKeeps(s: State, s': State, src: nat, d: nat, x: int)
    requires AsyBut(s, x) && SameSetup(s, s') && src < |s.procs| && d < |s.procs| && s'.log == s.log
    requires forall p: nat :: p < |s.procs| ==>
               && s'.procs[p].table == s.procs[p].table && s'.procs[p].epoch == s.procs[p].epoch
               && (p != src ==> s'.procs[p].reg == s.procs[p].reg)
               && (p != d ==> s'.procs[p].asyn == s.procs[p].asyn)
    requires s'.procs[d].asyn == s.procs[d].asyn - {src}
    requires forall i: nat :: i < |s.procs[src].table| && Undone(s.procs[src].table[i]) ==>
               s'.procs[src].reg == s.procs[src].reg && s.procs[src].table[i].dst != P(d)
    ensures AsyBut(s', x)
  {
    forall p: nat | p < |s.procs| ensures TableOk(s', p, x) {
      assert TableOk(s, p, x);
      if !s.procs[p].free && !s.procs[p].noEndpoint {
        forall i: nat | i < |s'.procs[p].table| ensures EntryOk(s', p, i, x) { assert EntryOk(s, p, i, x); }
      }
    }
    forall y: nat | y < |s.procs| ensures BitsOk(s', y, x) { assert BitsOk(s, y, x); }
    forall k: nat | k < |s.log| ensures Past(s', s.log[k].0, s.log[k].1, s.log[k].2) {
      assert Past(s, s.log[k].0, s.log[k].1, s.log[k].2);
    }
  }

  lemma {:induction false} TryAsyncAsync(s: State, q: nat, d: nat)
    requires Rdv(s) && Masks(s) && Asy(s) && q <= |s.procs| && Idle(s, d) && !s.procs[d].deliver
    ensures Asy(TryAsync(s, q, d).0)
    decreases |s.procs| - q
  {
    hide Rdv, TryOne, LogOk, TableOk;
    assert s.Shape() by { ShapeOf(s); }
    if q < |s.procs| {
      if s.procs[q].free || q !in s.procs[d].asyn {
        TryAsyncAsync(s, q + 1, d);
      } else {
        assert BitsOk(s, d, -1);
        TryOneAsync(s, q, d);
        TryOneKeeps(s, q, d);
        var r := TryOne(s, q, d);
        if r.1 != OK { TryAsyncAsync(r.0, q + 1, d); }
      }
    }
  }

  // ---- try_deliver_senda ----

  /** Entry i of c's table is settled or its destination knows of it. */
  ghost predicate Offered(s: State, c: nat, i: nat)
    requires c < |s.procs| && i < |s.procs[c].table|
  {
    var e := s.procs[c].table[i];
    Undone(e) ==> DstError(s.procs, c, e.dst) == OK && c in s.procs[e.dst.nr].asyn
  }

  /** c is submitting its table and the first i entries have been dealt with. */
  ghost predicate Submitting(a: Senda, c: nat, i: nat) {
    var s := a.s;
    && s.Shape() && c < |s.procs| && i <= |s.procs[c].table|
    && s.procs[c].sys && !s.procs[c].free && !s.procs[c].noEndpoint
    && (forall src: nat :: src < |s.procs| && src != c ==> TableOk(s, src, -1))
    && (forall d: nat :: d < |s.procs| ==> BitsOk(s, d, -1))
    && LogOk(s)
    && (forall j: nat :: j < i ==> Offered(s, c, j))
    && (a.done ==> forall j: nat :: j < i ==> !Undone(s.procs[c].table[j]))
  }

  /** A change that marks entries of c or sets c's bit where c may send to. */
  lemma SubmittingKept(a: Senda, b: Senda, c: nat, i: nat)
    requires Submitting(a, c, i) && Marked(a.s, b.s, c) && b.s.Shape() && LogOk(b.s)
    requires forall d: nat :: d < |a.s.procs| ==> a.s.procs[d].asyn <= b.s.procs[d].asyn
    requires forall d: nat, q :: d < |a.s.procs| && q in b.s.procs[d].asyn && q !in a.s.procs[d].asyn ==>
               q == c && d in a.s.procs[c].ipcTo
    requires i < |a.s.procs[c].table| && Offered(b.s, c, i)
    requires b.done ==> a.done && !Undone(b.s.procs[c].table[i])
    ensures Submitting(b, c, i + 1)
  {
    var s, s' := a.s, b.s;
    forall p: nat | p < |s.procs| && p != c ensures TableOk(s', p, -1) {
      assert TableOk(s, p, -1);
      if !s.procs[p].free && !s.procs[p].noEndpoint {
        forall i: nat | i < |s'.procs[p].table| ensures EntryOk(s', p, i, -1) { assert EntryOk(s, p, i, -1); }
      }
    }
    forall d: nat | d < |s.procs| ensures BitsOk(s', d, -1) { assert BitsOk(s, d, -1); }
    forall j: nat | j < i ensures Offered(s', c, j) { assert Offered(s, c, j); }
  }

  lemma SendaDelivers(a: Senda, c: nat, i: nat, note: bool)
    requires Submitting(a, c, i) && i < |a.s.procs[c].table| && Undone(a.s.procs[c].table[i])
    requires DstError(a.s.procs, c, a.s.procs[c].table[i].dst) == OK
    ensures var d := a.s.procs[c].table[i].dst.nr;
            Submitting(Senda(Store(AsyncDelivered(a.s, c, d, i), c, i, OK), a.done, note), c, i + 1)
  {
    hide LogOk, TableOk, BitsOk;
    var d := a.s.procs[c].table[i].dst.nr;
    var r := Store(AsyncDelivered(a.s, c, d, i), c, i, OK);
    LogGrows(a.s, r, c, i);
    SubmittingKept(a, Senda(r, a.done, note), c, i);
  }

  lemma SendaOffers(a: Senda, c: nat, i: nat)
    requires Submitting(a, c, i) && i < |a.s.procs[c].table| && Undone(a.s.procs[c].table[i])
    requires DstError(a.s.procs, c, a.s.procs[c].table[i].dst) == OK
    ensures var d := a.s.procs[c].table[i].dst.nr;
            Submitting(Senda(SetAsyn(a.s, d, c), false, a.note), c, i + 1)
  {
    hide LogOk, TableOk, BitsOk;
    var r := SetAsyn(a.s, a.s.procs[c].table[i].dst.nr, c);
    LogKept(a.s, r, c);
    SubmittingKept(a, Senda(r, false, a.note), c, i);
  }

  lemma SendaRefuses(a: Senda, c: nat, i: nat, e: Err, note: bool)
    requires Submitting(a, c, i) && i < |a.s.procs[c].table| && Undone(a.s.procs[c].table[i])
    ensures Submitting(Senda(Store(a.s, c, i, e), a.done, note), c, i + 1)
  {
    hide LogOk, TableOk, BitsOk;
    LogKept(a.s, Store(a.s, c, i, e), c);
    SubmittingKept(a, Senda(Store(a.s, c, i, e), a.done, note), c, i);
  }

  lemma SendaEntryAsync(a: Senda, c: nat, i: nat)
    requires Submitting(a, c, i) && i < |a.s.procs[c].table|
    ensures Submitting(SendaEntry(a, c, i), c, i + 1)
  {
    var s := a.s;
    var e := s.procs[c].table[i];
    var b := SendaEntry(a, c, i);
    if !Undone(e) {
      LogKept(s, s, c);
      SubmittingKept(a, b, c, i);
    } else {
      hide Submitting, Store, SetAsyn, AsyncDelivered;
      var r := DstError(s.procs, c, e.dst);
      if r == OK && WillReceive(s.procs[e.dst.nr], c) && !(e.noReply && s.procs[e.dst.nr].replyPend) {
        SendaDelivers(a, c, i, b.note);
      } else if r == OK {
        SendaOffers(a, c, i);
      } else {
        SendaRefuses(a, c, i, r, b.note);
      }
    }
  }

  lemma {:induction false} SendaFromAsync(a: Senda, c: nat, i: nat)
    requires Submitting(a, c, i)
    ensures Submitting(SendaFrom(a, c, i), c, |a.s.procs[c].table|)
    decreases |a.s.procs[c].table| - i
  {
    hide LogOk, TableOk, BitsOk, SendaEntry;
    if i < |a.s.procs[c].table| {
      SendaEntryAsync(a, c, i);
      SendaFromAsync(SendaEntry(a, c, i), c, i + 1);
    }
  }

  lemma SendaAsync(s: State, c: nat, table: seq<Entry>)
    requires Asy(s) && s.Shape() && c < |s.procs| && !s.procs[c].free && !s.procs[c].noEndpoint
    ensures Asy(MiniSenda(s, c, table).0)
  {
    hide SendaFrom, MiniNotify, LogOk, TableOk, BitsOk;
    var p := s.procs[c];
    if p.sys {
      NewTable(s, c, if |table| > MAX_ASYNC then [] else table);
      if |table| == 0 || |table| > MAX_ASYNC {
        SubmittedAsync(Senda(s.Put(c, p.(table := [], reg := false, epoch := p.epoch + 1)), true, false), c);
      } else {
        var s1 := s.Put(c, p.(table := table, reg := false, epoch := p.epoch + 1));
        SendaFromAsync(Senda(s1, true, false), c, 0);
        SubmittedAsync(SendaFrom(Senda(s1, true, false), c, 0), c);
      }
    }
  }

  lemma NewTable(s: State, c: nat, table: seq<Entry>)
    requires Asy(s) && s.Shape() && c < |s.procs| && !s.procs[c].free && !s.procs[c].noEndpoint && s.procs[c].sys
    ensures var s1 := s.Put(c, s.procs[c].(table := table, reg := false, epoch := s.procs[c].epoch + 1));
            Submitting(Senda(s1, true, false), c, 0)
  {
    var s1 := s.Put(c, s.procs[c].(table := table, reg := false, epoch := s.procs[c].epoch + 1));
    forall p: nat | p < |s.procs| && p != c ensures TableOk(s1, p, -1) {
      assert TableOk(s, p, -1);
      if !s.procs[p].free && !s.procs[p].noEndpoint {
        forall i: nat | i < |s1.procs[p].table| ensures EntryOk(s1, p, i, -1) { assert EntryOk(s, p, i, -1); }
      }
    }
    forall d: nat | d < |s.procs| ensures BitsOk(s1, d, -1) { assert BitsOk(s, d, -1); }
    forall k: nat | k < |s.log| ensures Past(s1, s.log[k].0, s.log[k].1, s.log[k].2) {
      assert Past(s, s.log[k].0, s.log[k].1, s.log[k].2);
    }
  }

  /** When the whole table has been offered it is registered, unless nothing is left in it. */
  lemma SubmittedAsync(a: Senda, c: nat)
    requires c < |a.s.procs| && Submitting(a, c, |a.s.procs[c].table|)
    ensures var s2 := if a.note then MiniNotify(a.s, ASYNCM, c) else a.s;
            Asy(if a.done then s2 else s2.Put(c, s2.procs[c].(reg := true)))
  {
    hide MiniNotify;
    var s := if a.done then a.s else a.s.Put(c, a.s.procs[c].(reg := true));
    forall p: nat | p < |s.procs| ensures TableOk(s, p, -1) {
      if p != c { assert TableOk(a.s, p, -1); }
      if !s.procs[p].free && !s.procs[p].noEndpoint {
        forall i: nat | i < |s.procs[p].table| ensures EntryOk(s, p, i, -1) {
          if p == c { assert Offered(a.s, c, i); } else { assert EntryOk(a.s, p, i, -1); }
        }
      }
    }
    forall d: nat | d < |s.procs| ensures BitsOk(s, d, -1) { assert BitsOk(a.s, d, -1); }
    forall k: nat | k < |s.log| ensures Past(s, s.log[k].0, s.log[k].1, s.log[k].2) {
      assert Past(a.s, s.log[k].0, s.log[k].1, s.log[k].2);
    }
    assert Asy(s);
    NotifySame(a.s, ASYNCM, c);
    var s2 := if a.note then MiniNotify(a.s, ASYNCM, c) else a.s;
    SameAsyncKeeps(s, if a.done then s2 else s2.Put(c, s2.procs[c].(reg := true)), -1);
  }

  // ---- clear_endpoint ----

  lemma {:induction false} CancelDone(a: Cancel, i: nat, d: nat)
    requires i <= |a.table|
    ensures var r := CancelFrom(a, i, d);
            && |r.table| == |a.table|
            && (forall j: nat :: j < i ==> r.table[j] == a.table[j])
            && (forall j: nat :: i <= j < |a.table| ==>
                  && (r.table[j] == a.table[j] || (a.table[j].Entry? && r.table[j].Entry? && r.table[j].done))
                  && (Undone(r.table[j]) ==> r.table[j].dst != P(d))
                  && (Undone(a.table[j]) && a.table[j].dst == P(d) ==>
                        r.table[j] == a.table[j].(done := true, result := EDEADSRCDST))
                  && (r.done ==> !Undone(r.table[j])))
            && (r.done ==> a.done)
    decreases |a.table| - i
  {
    if i < |a.table| { CancelDone(CancelOne(a, i, d), i + 1, d); }
  }

  /** s' is s after the entries of src for d have been marked done. */
  lemma CancelKeeps(s: State, s': State, src: nat, d: nat)
    requires AsyBut(s, d) && SameSetup(s, s') && src < |s.procs| && d < |s.procs| && s'.log == s.log
    requires forall p: nat :: p < |s.procs| ==>
               && s'.procs[p].epoch == s.procs[p].epoch
               && (p != src ==> s'.procs[p].reg == s.procs[p].reg && s'.procs[p].table == s.procs[p].table)
               && (p != d ==> s'.procs[p].asyn == s.procs[p].asyn)
    requires s'.procs[d].asyn == s.procs[d].asyn - {src}
    requires |s'.procs[src].table| == |s.procs[src].table|
    requires forall i: nat :: i < |s.procs[src].table| ==>
               var a, b := s.procs[src].table[i], s'.procs[src].table[i];
               && (b == a || (a.Entry? && b.Entry? && b.done))
               && (Undone(b) ==> b.dst != P(d) && s'.procs[src].reg == s.procs[src].reg)
    ensures AsyBut(s', d)
  {
    forall p: nat | p < |s.procs| ensures TableOk(s', p, d) {
      assert TableOk(s, p, d);
      if !s.procs[p].free && !s.procs[p].noEndpoint {
        forall i: nat | i < |s'.procs[p].table| ensures EntryOk(s', p, i, d) { assert EntryOk(s, p, i, d); }
      }
    }
    forall y: nat | y < |s.procs| ensures BitsOk(s', y, d) { assert BitsOk(s, y, d); }
    forall k: nat | k < |s.log| ensures Past(s', s.log[k].0, s.log[k].1, s.log[k].2) {
      assert Past(s, s.log[k].0, s.log[k].1, s.log[k].2);
    }
  }

  lemma CancelTableFacts(s: State, src: nat, d: nat)
    requires s.Shape() && src < |s.procs| && d < |s.procs|
    ensures var r, a := CancelTable(s, src, d), CancelFrom(Cancel(s.procs[src].table, true, false), 0, d);
            && SameSetup(s, r) && SameAsyn(s, r) && r.log == s.log
            && r.procs[src].table == a.table && r.procs[src].reg == (s.procs[src].reg || !a.done)
            && forall p: nat :: p < |s.procs| ==>
                 && r.procs[p].epoch == s.procs[p].epoch
                 && (p != src ==> r.procs[p].reg == s.procs[p].reg && r.procs[p].table == s.procs[p].table)
  {
    hide MiniNotify, CancelFrom;
    var a := CancelFrom(Cancel(s.procs[src].table, true, false), 0, d);
    NotifySame(s.Put(src, s.procs[src].(table := a.table)), ASYNCM, src);
  }

  /** What cancel_async does for a sender that may send to d. */
  lemma CancelAsyncFacts(s: State, src: nat, d: nat)
    requires s.Shape() && src < |s.procs| && d < |s.procs| && src != d && s.procs[src].sys && d in s.procs[src].ipcTo
    ensures var r, a := CancelAsync(s, src, d), CancelFrom(Cancel(s.procs[src].table, true, false), 0, d);
            && SameSetup(s, r) && r.log == s.log
            && r.procs[src].table == (if s.procs[src].reg then a.table else s.procs[src].table)
            && r.procs[src].reg == (s.procs[src].reg && !a.done)
            && r.procs[d].asyn == s.procs[d].asyn - {src}
            && forall p: nat :: p < |s.procs| ==>
                 && r.procs[p].epoch == s.procs[p].epoch
                 && (p != src ==> r.procs[p].reg == s.procs[p].reg && r.procs[p].table == s.procs[p].table)
                 && (p != d ==> r.procs[p].asyn == s.procs[p].asyn)
  {
    hide CancelTable, CancelFrom, UnsetAsyn, State.Put;
    UnregisteredFacts(s, src, d);
    CancelTableFacts(UnsetAsyn(s.Put(src, s.procs[src].(reg := false)), d, src), src, d);
  }

  lemma UnregisteredFacts(s: State, src: nat, d: nat)
    requires s.Shape() && src < |s.procs| && d < |s.procs| && src != d
    ensures |s.Put(src, s.procs[src].(reg := false)).procs| == |s.procs|
    ensures var r := UnsetAsyn(s.Put(src, s.procs[src].(reg := false)), d, src);
            && r.Shape() && SameSetup(s, r) && r.log == s.log && !r.procs[src].reg
            && r.procs[d].asyn == s.procs[d].asyn - {src}
            && forall p: nat :: p < |s.procs| ==>
                 && r.procs[p].epoch == s.procs[p].epoch && r.procs[p].table == s.procs[p].table
                 && (p != src ==> r.procs[p].reg == s.procs[p].reg)
                 && (p != d ==> r.procs[p].asyn == s.procs[p].asyn)
  {
  }

  lemma CancelAsyncAsync(s: State, src: nat, d: nat)
    requires AsyBut(s, d) && s.Shape() && src < |s.procs| && d < |s.procs| && src != d
    requires !s.procs[d].free && src in s.procs[d].asyn
    ensures AsyBut(CancelAsync(s, src, d), d)
  {
    assert BitsOk(s, d, d) && TableOk(s, src, d);
    hide CancelAsync, CancelFrom, AsyBut, BitsOk;
    var p := s.procs[src];
    CancelAsyncFacts(s, src, d);
    if p.reg {
      CancelDone(Cancel(p.table, true, false), 0, d);
    } else {
      forall i: nat | i < |p.table| ensures !Undone(p.table[i]) { assert EntryOk(s, src, i, d); }
    }
    CancelKeeps(s, CancelAsync(s, src, d), src, d);
  }

  lemma {:induction false} CancelAllAsync(s: State, d: nat)
    requires AsyBut(s, d) && Masks(s) && s.Shape() && d < |s.procs| && !s.procs[d].free && AsynOk(s, d)
    ensures AsyBut(CancelAll(s, d), d)
    decreases s.procs[d].asyn
  {
    hide CancelAsync, LogOk, TableOk;
    var src := Lowest(s.procs[d].asyn, 0, |s.procs|);
    if src >= 0 {
      assert BitsOk(s, d, d);
      CancelAsyncAsync(s, src, d);
      CancelClearsBit(s, src, d);
      CancelSetup(s, src, d);
      CancelAllAsync(CancelAsync(s, src, d), d);
    }
  }

  lemma CancelSetup(s: State, src: nat, d: nat)
    requires s.Shape() && src < |s.procs| && d < |s.procs| && src != d
    ensures SameSetup(s, CancelAsync(s, src, d))
  {
    hide CancelTable, CancelFrom, UnsetAsyn, State.Put;
    UnregisteredFacts(s, src, d);
    CancelTableFacts(UnsetAsyn(s.Put(src, s.procs[src].(reg := false)), d, src), src, d);
  }

  /** Entry i of src, aimed at d, waits for the cancellation or has been through it. */
  ghost predicate Doomed(s: State, d: nat, src: nat, i: nat) {
    && d < |s.procs| && src < |s.procs| && i < |s.procs[src].table|
    && var e := s.procs[src].table[i];
       || (e.Entry? && e.done && e.result == EDEADSRCDST && src !in s.procs[d].asyn)
       || (Undone(e) && e.dst == P(d) && src in s.procs[d].asyn && s.procs[src].reg)
  }

  lemma CancelAsyncMarks(s: State, q: nat, d: nat, src: nat, i: nat)
    requires s.Shape() && q < |s.procs| && d < |s.procs| && q != d && s.procs[q].sys && d in s.procs[q].ipcTo
    requires Doomed(s, d, src, i) && q in s.procs[d].asyn
    ensures Doomed(CancelAsync(s, q, d), d, src, i)
  {
    hide CancelAsync, CancelFrom, SameSetup;
    CancelAsyncFacts(s, q, d);
    if q == src {
      CancelDone(Cancel(s.procs[q].table, true, false), 0, d);
    }
  }

  /** An entry aimed at d whose sender has its bit set ends up done, with an error. */
  lemma {:induction false} CancelAllMarks(s: State, d: nat, src: nat, i: nat)
    requires AsyBut(s, d) && Masks(s) && s.Shape() && d < |s.procs| && !s.procs[d].free && AsynOk(s, d)
    requires Doomed(s, d, src, i)
    ensures var r := CancelAll(s, d);
            && i < |r.procs[src].table| && r.procs[src].table[i].Entry?
            && r.procs[src].table[i].done && r.procs[src].table[i].result == EDEADSRCDST
    decreases s.procs[d].asyn
  {
    hide LogOk, TableOk, CancelAsync;
    var q := Lowest(s.procs[d].asyn, 0, |s.procs|);
    if q >= 0 {
      assert BitsOk(s, d, d);
      CancelAsyncMarks(s, q, d, src, i);
      CancelAsyncAsync(s, q, d);
      CancelClearsBit(s, q, d);
      CancelSetup(s, q, d);
      CancelAllMarks(CancelAsync(s, q, d), d, src, i);
    }
  }

  /** Bits have been cleared and nothing else that matters here has changed. */
  ghost predicate Pruned(s: State, r: State) {
    && SameSetup(s, r)
    && forall d: nat :: d < |s.procs| ==> r.procs[d].asyn <= s.procs[d].asyn && r.procs[d].table == s.procs[d].table
  }

  lemma PrunedTrans(a: State, b: State, c: State)
    requires Pruned(a, b) && Pruned(b, c)
    ensures Pruned(a, c)
  {
  }

  /** Removing the bits of rc, which has no endpoint any more. */
  lemma {:induction false} ClearRefsAsync(s: State, rc: nat, i: nat)
    requires AsyBut(s, rc) && s.Shape() && rc < |s.procs| && i <= |s.procs| && s.procs[rc].noEndpoint
    ensures var r := ClearRefs(s, rc, i); AsyBut(r, rc) && Pruned(s, r)
    decreases |s.procs| - i
  {
    hide AsyBut, ClearIpc;
    if i < |s.procs| {
      var p := s.procs[i];
      if p.free {
        ClearRefsAsync(s, rc, i + 1);
      } else {
        ClearRefAsync(s, rc, i);
        var s1 := s.Put(i, p.(notify := p.notify - {rc}, asyn := p.asyn - {rc}));
        var s2 := if BlockedOn(p) == P(rc) then ClearIpc(s1, i) else s1;
        assert s2.procs[rc].noEndpoint;
        ClearRefsAsync(s2, rc, i + 1);
        hide Pruned;
        PrunedTrans(s, s2, ClearRefs(s2, rc, i + 1));
      }
    }
  }

  lemma ClearRefAsync(s: State, rc: nat, i: nat)
    requires AsyBut(s, rc) && s.Shape() && rc < |s.procs| && i < |s.procs| && s.procs[rc].noEndpoint
    ensures var p := s.procs[i];
            var s1 := s.Put(i, p.(notify := p.notify - {rc}, asyn := p.asyn - {rc}));
            var s2 := if BlockedOn(p) == P(rc) then ClearIpc(s1, i) else s1;
            AsyBut(s2, rc) && Pruned(s, s2)
  {
    hide AsyBut, ClearIpc;
    var p := s.procs[i];
    var s1 := s.Put(i, p.(notify := p.notify - {rc}, asyn := p.asyn - {rc}));
    OwnBitKeeps(s, s1, rc, i);
    ClearIpcSame(s1, i);
    SameAsyncKeeps(s1, ClearIpc(s1, i), rc);
  }

  lemma ClearIpcSame(s: State, p: nat)
    requires s.Shape() && p < |s.procs|
    ensures SameAsync(s, ClearIpc(s, p))
  {
  }

  lemma OwnBitKeeps(s: State, s': State, rc: nat, i: nat)
    requires AsyBut(s, rc) && rc < |s.procs| && i < |s.procs| && s.procs[rc].noEndpoint
    requires |s'.procs| == |s.procs|
    requires s' == s.Put(i, s.procs[i].(notify := s'.procs[i].notify, asyn := s.procs[i].asyn - {rc}))
    ensures AsyBut(s', rc)
  {
    forall p: nat | p < |s.procs| ensures TableOk(s', p, rc) {
      assert TableOk(s, p, rc);
      if !s.procs[p].free && !s.procs[p].noEndpoint {
        forall j: nat | j < |s'.procs[p].table| ensures EntryOk(s', p, j, rc) { assert EntryOk(s, p, j, rc); }
      }
    }
    forall d: nat | d < |s.procs| ensures BitsOk(s', d, rc) { assert BitsOk(s, d, rc); }
    forall k: nat | k < |s.log| ensures Past(s', s.log[k].0, s.log[k].1, s.log[k].2) {
      assert Past(s, s.log[k].0, s.log[k].1, s.log[k].2);
    }
  }

  /** When nothing refers to rc any more the exception for it is not needed. */
  lemma NoException(s: State, rc: nat)
    requires AsyBut(s, rc) && rc < |s.procs| && s.procs[rc].asyn == {}
    requires forall d: nat :: d < |s.procs| && !s.procs[d].free ==> rc !in s.procs[d].asyn
    ensures Asy(s)
  {
    forall p: nat | p < |s.procs| ensures TableOk(s, p, -1) {
      assert TableOk(s, p, rc);
      if !s.procs[p].free && !s.procs[p].noEndpoint {
        forall j: nat | j < |s.procs[p].table| ensures EntryOk(s, p, j, -1) { assert EntryOk(s, p, j, rc); }
      }
    }
    forall d: nat | d < |s.procs| ensures BitsOk(s, d, -1) { assert BitsOk(s, d, rc); }
  }
}
