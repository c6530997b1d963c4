/**
 Shared interrupt lines: what registering, removing, enabling and disabling a hook and an
 interrupt do, and what every such step keeps. Identity bits are known by their numbers and
 words of bits are sets of these.
 */
module Irq {
  import opened Fifo
  import opened QueueLinks

  const ID_BITS: nat := 32

  datatype Hook = Hook(irq: int, id: nat)

  /** The hooks of each line in order, the hooks themselves, and for each line the bits of the
      hooks that are active and whether it is masked. */
  datatype Lines = Lines(lists: seq<seq<nat>>, hooks: seq<Hook>, act: seq<set<nat>>, masked: seq<bool>) {
    predicate Shape() { |lists| == |act| == |masked| }
  }

  ghost predicate HasId(s: Lines, l: nat, id: nat) {
    l < |s.lists| && exists k: nat :: k < |s.lists[l]| && s.lists[l][k] < |s.hooks| && s.hooks[s.lists[l][k]].id == id
  }

  ghost predicate IdsOk(hooks: seq<Hook>, list: seq<nat>, l: nat) {
    && (forall k: nat :: k < |list| ==> list[k] < |hooks| && hooks[list[k]].irq == l && hooks[list[k]].id < ID_BITS)
    && forall j: nat, k: nat :: j < k < |list| ==> hooks[list[j]].id != hooks[list[k]].id
  }

  /** The ids on a line differ, only registered hooks are active, and a line in use is masked
      exactly while one of its hooks is active. */
  ghost predicate LineOk(s: Lines, l: nat)
    requires s.Shape() && l < |s.lists|
  {
    && IdsOk(s.hooks, s.lists[l], l)
    && (forall id: nat :: id in s.act[l] ==> HasId(s, l, id))
    && (s.lists[l] != [] ==> (s.masked[l] <==> s.act[l] != {}))
  }

  ghost predicate IrqOk(s: Lines) {
    s.Shape() && Apart(s.lists) && forall l: nat :: l < |s.lists| ==> LineOk(s, l)
  }

  // ---- the operations ----

  /** The place of the first hook with this id on a list, or -1. */
  function FindId(hooks: seq<Hook>, list: seq<nat>, id: nat, i: nat): (k: int)
    requires i <= |list|
    ensures -1 <= k < |list| && (k >= 0 ==> i <= k && list[k] < |hooks| && hooks[list[k]].id == id)
    ensures forall j: nat :: i <= j < |list| && list[j] < |hooks| && (k < 0 || j < k) ==> hooks[list[j]].id != id
    decreases |list| - i
  {
    if i == |list| then -1 else if list[i] < |hooks| && hooks[list[i]].id == id then i
        else FindId(hooks, list, id, i + 1)
  }

  function FreeId(hooks: seq<Hook>, list: seq<nat>, id: nat): (r: nat)
    requires id <= ID_BITS
    ensures id <= r <= ID_BITS && (r < ID_BITS ==> FindId(hooks, list, r, 0) < 0)
    ensures forall j: nat :: id <= j < r ==> FindId(hooks, list, j, 0) >= 0
    decreases ID_BITS - id
  {
    if id == ID_BITS || FindId(hooks, list, id, 0) < 0 then id else FreeId(hooks, list, id + 1)
  }

  function Settle(s: Lines, l: nat): Lines
    requires s.Shape() && l < |s.lists|
  {
    if s.act[l] == {} then s.(masked := s.masked[l := false]) else s
  }

  /** What is left of a list when the link of h on it is cleared. */
  function Cut(list: seq<nat>, h: nat): seq<nat> {
    var k := IndexOf(list, h, 0);
    if k < 0 then list else list[..k + 1]
  }

  function Unlinked(lists: seq<seq<nat>>, h: nat): (r: seq<seq<nat>>)
    ensures |r| == |lists|
  {
    seq(|lists|, l requires 0 <= l < |lists| => Cut(lists[l], h))
  }

  /** Hook h with this id comes last on line l; its link is cleared, so that another list it is on
      ends there. */
  function Placed(s: Lines, h: nat, l: nat, id: nat): Lines
    requires s.Shape() && h < |s.hooks| && l < |s.lists|
  {
    Settle(s.(lists := Unlinked(s.lists, h)[l := s.lists[l] + [h]],
              hooks := s.hooks[h := Hook(l, id)], act := s.act[l := s.act[l] - {id}]), l)
  }

  /** put_irq_handler; false when the kernel panics. */
  function Put(s: Lines, h: nat, irq: int): (Lines, bool)
    requires s.Shape() && h < |s.hooks|
  {
    if irq < 0 || irq >= |s.lists| then (s, false)
    else if h in s.lists[irq] then (s, true)
    else
      var id := FreeId(s.hooks, s.lists[irq], 0);
      if id == ID_BITS then (s, false) else (Placed(s, h, irq, id), true)
  }

  /** The first hook with this id leaves the line. */
  function Unlisted(s: Lines, l: nat, id: nat): Lines
    requires s.Shape() && l < |s.lists|
  {
    var k := FindId(s.hooks, s.lists[l], id, 0);
    if k < 0 then s else s.(lists := s.lists[l := Without(s.lists[l], k)], act := s.act[l := s.act[l] - {id}])
  }

  /** A line without hooks is masked, one that nobody is active on is unmasked. */
  function Reconsidered(s: Lines, l: nat): Lines
    requires s.Shape() && l < |s.lists|
  {
    if s.lists[l] == [] then s.(masked := s.masked[l := true]) else Settle(s, l)
  }

  /** rm_irq_handler; it goes by the id the hook has. */
  function Remove(s: Lines, h: nat): (Lines, bool)
    requires s.Shape() && h < |s.hooks|
  {
    var irq, id := s.hooks[h].irq, s.hooks[h].id;
    if irq < 0 || irq >= |s.lists| then (s, false)
    else
      (Reconsidered(Unlisted(s, irq, id), irq), true)
  }

  predicate Bound(s: Lines, h: nat) { h < |s.hooks| && 0 <= s.hooks[h].irq < |s.lists| }

  /** enable_irq. */
  function Enable(s: Lines, h: nat): Lines
    requires s.Shape() && Bound(s, h)
  {
    Settle(s.(act := s.act[s.hooks[h].irq := s.act[s.hooks[h].irq] - {s.hooks[h].id}]), s.hooks[h].irq)
  }

  /** disable_irq, which tells whether the hook was enabled. */
  function Disable(s: Lines, h: nat): (Lines, bool)
    requires s.Shape() && Bound(s, h)
  {
    var irq, id := s.hooks[h].irq, s.hooks[h].id;
    if id in s.act[irq] then (s, false)
    else (s.(act := s.act[irq := s.act[irq] + {id}], masked := s.masked[irq := true]), true)
  }

  /** The active bits after the handlers from place k on have had a say; a handler that answers
      true is done. */
  function Handled(hooks: seq<Hook>, list: seq<nat>, answers: seq<bool>, k: nat, act: set<nat>): set<nat>
    requires |answers| == |list| && (forall j: nat :: j < |list| ==> list[j] < |hooks|)
    decreases |list| - k
  {
    if k >= |list| then act
    else Handled(hooks, list, answers, k + 1, if answers[k] then act + {hooks[list[k]].id} - {hooks[list[k]].id}
        else act + {hooks[list[k]].id})
  }

  /** irq_handle; a line without hooks stays masked. */
  function Interrupt(s: Lines, l: nat, answers: seq<bool>): Lines
    requires s.Shape() && l < |s.lists| && |answers| == |s.lists[l]|
    requires forall j: nat :: j < |s.lists[l]| ==> s.lists[l][j] < |s.hooks|
  {
    var s1 := s.(masked := s.masked[l := true]);
    if s.lists[l] == [] then s1
    else Settle(s1.(act := s1.act[l := Handled(s.hooks, s.lists[l], answers, 0, s.act[l])]), l)
  }

  // ---- what they keep ----

  /** A line that is not touched. */
  lemma OtherLine(s: Lines, t: Lines, l: nat)
    requires s.Shape() && t.Shape() && |t.lists| == |s.lists| && l < |s.lists| && LineOk(s, l) && |t.hooks| == |s.hooks|
    requires t.lists[l] == s.lists[l] && t.act[l] == s.act[l] && t.masked[l] == s.masked[l]
    requires forall k: nat :: k < |s.lists[l]| && s.lists[l][k] < |s.hooks| ==>
             t.hooks[s.lists[l][k]] == s.hooks[s.lists[l][k]]
    ensures LineOk(t, l)
  {
    forall id: nat | id in t.act[l] ensures HasId(t, l, id) {
      assert HasId(s, l, id);
      var k: nat :| k < |s.lists[l]| && s.hooks[s.lists[l][k]].id == id;
      assert t.hooks[t.lists[l][k]].id == id;
    }
  }

  /** The active bits of a line may change to any of its ids. */
  lemma ActLine(s: Lines, t: Lines, l: nat, a: set<nat>)
    requires s.Shape() && l < |s.lists| && LineOk(s, l) && t.Shape()
    requires t.lists == s.lists && t.hooks == s.hooks && t.act == s.act[l := a]
    requires forall id: nat :: id in a ==> HasId(s, l, id)
    requires s.lists[l] != [] ==> (t.masked[l] <==> a != {})
    ensures LineOk(t, l)
  {
    forall id: nat | id in t.act[l] ensures HasId(t, l, id) {
      assert HasId(s, l, id);
      var k: nat :| k < |s.lists[l]| && s.hooks[s.lists[l][k]].id == id;
      assert t.hooks[t.lists[l][k]].id == id;
    }
  }

  lemma EnableOk(s: Lines, h: nat)
    requires IrqOk(s) && Bound(s, h)
    ensures IrqOk(Enable(s, h))
  {
    var t, irq := Enable(s, h), s.hooks[h].irq;
    forall l: nat | l < |t.lists| ensures LineOk(t, l) {
      assert LineOk(s, l);
      if l == irq { ActLine(s, t, l, s.act[l] - {s.hooks[h].id}); } else { OtherLine(s, t, l); }
    }
  }

  /** Disabling keeps all this exactly for a hook whose id is in use on the line, be it its own or,
      if it is registered no more, that of another hook. */
  lemma DisableOkIff(s: Lines, h: nat)
    requires IrqOk(s) && Bound(s, h)
    ensures IrqOk(Disable(s, h).0) <==> HasId(s, s.hooks[h].irq, s.hooks[h].id)
  {
    var t, irq, id := Disable(s, h).0, s.hooks[h].irq, s.hooks[h].id;
    assert LineOk(s, irq);
    if id in s.act[irq] {
      assert HasId(s, irq, id);
    } else if HasId(s, irq, id) {
      forall l: nat | l < |t.lists| ensures LineOk(t, l) {
        assert LineOk(s, l);
        if l == irq { ActLine(s, t, l, s.act[l] + {id}); } else { OtherLine(s, t, l); }
      }
    } else if IrqOk(t) {
      ActiveHas(s, t, irq, id);
    }
  }

  lemma ActiveHas(s: Lines, t: Lines, l: nat, id: nat)
    requires IrqOk(t) && l < |t.lists| && id in t.act[l] && t.lists == s.lists && t.hooks == s.hooks
    ensures HasId(s, l, id)
  {
    assert LineOk(t, l);
  }

  lemma {:induction false} HandledIn(s: Lines, l: nat, answers: seq<bool>, k: nat, act: set<nat>)
    requires s.Shape() && l < |s.lists| && |answers| == |s.lists[l]|
    requires forall j: nat :: j < |s.lists[l]| ==> s.lists[l][j] < |s.hooks|
    requires forall id: nat :: id in act ==> HasId(s, l, id)
    ensures forall id: nat :: id in Handled(s.hooks, s.lists[l], answers, k, act) ==> HasId(s, l, id)
    decreases |s.lists[l]| - k
  {
    if k < |s.lists[l]| {
      var id := s.hooks[s.lists[l][k]].id;
      assert HasId(s, l, id);
      HandledIn(s, l, answers, k + 1, if answers[k] then act + {id} - {id} else act + {id});
    }
  }

  lemma InterruptOk(s: Lines, l: nat, answers: seq<bool>)
    requires IrqOk(s) && l < |s.lists| && |answers| == |s.lists[l]|
    ensures (forall j: nat :: j < |s.lists[l]| ==> s.lists[l][j] < |s.hooks|) && IrqOk(Interrupt(s, l, answers))
  {
    assert LineOk(s, l);
    var t := Interrupt(s, l, answers);
    HandledIn(s, l, answers, 0, s.act[l]);
    forall m: nat | m < |t.lists| ensures LineOk(t, m) {
      assert LineOk(s, m);
      if m != l { OtherLine(s, t, m); } else if s.lists[l] == [] { ActLine(s, t, l, s.act[l]); }
      else { ActLine(s, t, l, Handled(s.hooks, s.lists[l], answers, 0, s.act[l])); }
    }
  }

  lemma UnlinkedOff(lists: seq<seq<nat>>, h: nat)
    requires !OnQueue(lists, h)
    ensures Unlinked(lists, h) == lists
  {
    forall l: nat | l < |lists| ensures Cut(lists[l], h) == lists[l] { }
  }

  lemma NotThere(s: Lines, l: nat, h: nat, k: nat)
    requires l < |s.lists| && k < |s.lists[l]| && !OnQueue(s.lists, h)
    ensures s.lists[l][k] != h
  {
    assert s.lists[l][k] in s.lists[l];
  }

  /** The line a hook is put on. */
  lemma PutLine(s: Lines, h: nat, l: nat, id: nat)
    requires IrqOk(s) && l < |s.lists| && h < |s.hooks| && !OnQueue(s.lists, h)
    requires id < ID_BITS && FindId(s.hooks, s.lists[l], id, 0) < 0
    ensures LineOk(Placed(s, h, l, id), l)
  {
    assert LineOk(s, l);
    var t := Placed(s, h, l, id);
    forall k: nat | k < |s.lists[l]| ensures s.lists[l][k] != h && s.hooks[s.lists[l][k]].id != id {
      NotThere(s, l, h, k);
    }
    forall a: nat | a in t.act[l] ensures HasId(t, l, a) {
      assert HasId(s, l, a);
      var k: nat :| k < |s.lists[l]| && s.hooks[s.lists[l][k]].id == a;
      assert t.lists[l][k] == s.lists[l][k] && t.hooks[t.lists[l][k]].id == a;
    }
    PutIds(s.hooks, s.lists[l], h, l, id);
    hide IdsOk;
  }

  lemma PutIds(hooks: seq<Hook>, list: seq<nat>, h: nat, l: nat, id: nat)
    requires IdsOk(hooks, list, l) && h < |hooks| && id < ID_BITS
    requires forall k: nat :: k < |list| ==> list[k] != h && hooks[list[k]].id != id
    ensures IdsOk(hooks[h := Hook(l, id)], list + [h], l)
  {
    var hs, ls := hooks[h := Hook(l, id)], list + [h];
    assert forall k: nat :: k < |list| ==> hs[list[k]] == hooks[list[k]];
  }

  /** Another line than the one a hook is put on. */
  lemma PutElsewhere(s: Lines, h: nat, irq: nat, id: nat, l: nat)
    requires s.Shape() && irq < |s.lists| && h < |s.hooks| && l < |s.lists|
    requires l != irq && LineOk(s, l) && !OnQueue(s.lists, h)
    ensures LineOk(Placed(s, h, irq, id), l)
  {
    hide LineOk, OnQueue;
    UnlinkedOff(s.lists, h);
    forall k: nat | k < |s.lists[l]| ensures s.lists[l][k] != h { NotThere(s, l, h, k); }
    OtherLine(s, Placed(s, h, irq, id), l);
  }

  lemma PlacedLists(s: Lines, h: nat, l: nat, id: nat)
    requires s.Shape() && h < |s.hooks| && l < |s.lists| && !OnQueue(s.lists, h)
    ensures var t := Placed(s, h, l, id); t.Shape() && t.lists == s.lists[l := s.lists[l] + [h]]
  {
    UnlinkedOff(s.lists, h);
  }

  /** put_irq_handler goes through with it: the line exists, the hook is not on it, and it has a
      free id. */
  predicate Registers(s: Lines, h: nat, irq: int)
    requires s.Shape()
  {
    0 <= irq < |s.lists| && h !in s.lists[irq] && FreeId(s.hooks, s.lists[irq], 0) < ID_BITS
  }

  /** Registering a hook keeps all this exactly if the hook is on no other line, or is not
      registered after all. */
  lemma PutOkIff(s: Lines, h: nat, irq: int)
    requires IrqOk(s) && h < |s.hooks|
    ensures IrqOk(Put(s, h, irq).0) <==> !OnQueue(s.lists, h) || !Registers(s, h, irq)
  {
    hide LineOk, Apart, Placed, FindId, FreeId;
    if Registers(s, h, irq) {
      var id := FreeId(s.hooks, s.lists[irq], 0);
      if OnQueue(s.lists, h) {
        PutTwice(s, h, irq, id);
      } else {
        hide OnQueue;
        PlacedLists(s, h, irq, id);
        ApartAppend(s.lists, irq, h);
        forall l: nat | l < |s.lists| ensures LineOk(Placed(s, h, irq, id), l) {
          if l == irq { PutLine(s, h, irq, id); } else { PutElsewhere(s, h, irq, id, l); }
        }
      }
    }
  }

  lemma PutTwice(s: Lines, h: nat, irq: nat, id: nat)
    requires s.Shape() && h < |s.hooks| && irq < |s.lists| && OnQueue(s.lists, h) && h !in s.lists[irq]
    ensures !Apart(Placed(s, h, irq, id).lists)
  {
    var t := Placed(s, h, irq, id);
    var m: nat :| m < |s.lists| && h in s.lists[m];
    var k := IndexOf(s.lists[m], h, 0);
    assert t.lists[m] == s.lists[m][..k + 1] && t.lists[m][k] == h && t.lists[irq][|s.lists[irq]|] == h;
  }

  /** Otherwise the hooks behind it on the other line are on no line any more. */
  lemma PutLoses(s: Lines, h: nat, irq: int, m: nat, k: nat, j: nat)
    requires IrqOk(s) && h < |s.hooks| && Registers(s, h, irq)
    requires m < |s.lists| && k < j < |s.lists[m]| && s.lists[m][k] == h
    ensures !OnQueue(Put(s, h, irq).0.lists, s.lists[m][j])
  {
    hide LineOk, FindId, FreeId;
    var t, x := Put(s, h, irq).0, s.lists[m][j];
    assert x != h by { NotAgain(s.lists, m, k, m, j); }
    assert IndexOf(s.lists[m], h, 0) == k;
    forall l: nat, i: nat | l < |t.lists| && i < |t.lists[l]| ensures t.lists[l][i] != x {
      if i < |s.lists[l]| {
        assert t.lists[l][i] == s.lists[l][i];
        if l == m { assert i <= k; }
        NotAgain(s.lists, m, j, l, i);
      }
    }
  }

  /** A list without one of its hooks, and the bits of the others. */
  lemma RemovedLine(s: Lines, t: Lines, l: nat, k: nat)
    requires s.Shape() && t.Shape() && |t.lists| == |s.lists| && l < |s.lists|
    requires LineOk(s, l) && k < |s.lists[l]| && t.hooks == s.hooks
    requires t.lists[l] == Without(s.lists[l], k) && s.lists[l][k] < |s.hooks|
    requires t.act[l] == s.act[l] - {s.hooks[s.lists[l][k]].id}
    requires t.lists[l] != [] ==> (t.masked[l] <==> t.act[l] != {})
    ensures LineOk(t, l)
  {
    var w, q := t.lists[l], s.lists[l];
    assert forall i: nat :: i < |w| ==> w[i] == q[if i < k then i else i + 1];
    assert IdsOk(t.hooks, w, l);
    forall a: nat | a in t.act[l] ensures HasId(t, l, a) {
      assert HasId(s, l, a);
      var i: nat :| i < |q| && s.hooks[q[i]].id == a;
      assert w[if i < k then i else i - 1] == q[i];
    }
  }

  lemma ReconsideredFacts(s: Lines, l: nat)
    requires s.Shape() && l < |s.lists| && (s.lists[l] != [] && s.act[l] != {} ==> s.masked[l])
    ensures var t := Reconsidered(s, l);
            && t.Shape() && t.lists == s.lists && t.hooks == s.hooks && t.act == s.act
            && (t.lists[l] != [] ==> (t.masked[l] <==> t.act[l] != {}))
            && forall m: nat :: m < |s.lists| && m != l ==> t.masked[m] == s.masked[m]
  {
  }

  lemma UnlistedFacts(s: Lines, l: nat, id: nat)
    requires s.Shape() && l < |s.lists|
    ensures var t, k := Unlisted(s, l, id), FindId(s.hooks, s.lists[l], id, 0);
            && t.Shape() && t.hooks == s.hooks && t.masked == s.masked
            && (k < 0 ==> t == s)
            && (k >= 0 ==> t.lists == s.lists[l := Without(s.lists[l], k)] && t.act == s.act[l := s.act[l] - {id}])
  {
  }

  lemma RemoveLine(s: Lines, h: nat, l: nat)
    requires s.Shape() && Bound(s, h) && l < |s.lists| && LineOk(s, s.hooks[h].irq) && LineOk(s, l)
    ensures LineOk(Remove(s, h).0, l)
  {
    var irq, id, t := s.hooks[h].irq, s.hooks[h].id, Remove(s, h).0;
    var k := FindId(s.hooks, s.lists[irq], id, 0);
    var s1 := Unlisted(s, irq, id);
    hide LineOk, FindId, Unlisted, Reconsidered, Without;
    UnlistedFacts(s, irq, id);
    Unmasks(s, irq);
    assert s1.lists[irq] != [] && s1.act[irq] != {} ==> s1.masked[irq] by { StillActive(s, s1, irq, k, id); }
    ReconsideredFacts(s1, irq);
    if l != irq {
      OtherLine(s, t, l);
    } else if k >= 0 {
      RemovedLine(s, t, irq, k);
    } else {
      assert t.act == s.act[irq := s.act[irq]];
      ActLine(s, t, irq, s.act[irq]);
    }
  }

  lemma StillActive(s: Lines, s1: Lines, l: nat, k: int, id: nat)
    requires s.Shape() && l < |s.lists| && s1.Shape() && |s1.lists| == |s.lists|
    requires s1.masked == s.masked && k < |s.lists[l]|
    requires s.lists[l] != [] ==> (s.masked[l] <==> s.act[l] != {})
    requires k < 0 ==> s1 == s
    requires k >= 0 ==> s1.act == s.act[l := s.act[l] - {id}]
    ensures s1.lists[l] != [] && s1.act[l] != {} ==> s1.masked[l]
  {
    if s1.act[l] != {} {
      var a :| a in s1.act[l];
      assert a in s.act[l];
    }
  }

  /** What a line says of its mask and its active bits. */
  lemma Unmasks(s: Lines, l: nat)
    requires s.Shape() && l < |s.lists| && LineOk(s, l)
    ensures (forall id: nat :: id in s.act[l] ==> HasId(s, l, id))
    ensures (s.lists[l] != [] ==> (s.masked[l] <==> s.act[l] != {}))
  {
  }

  lemma RemoveOk(s: Lines, h: nat)
    requires IrqOk(s) && h < |s.hooks|
    ensures IrqOk(Remove(s, h).0)
  {
    hide LineOk, Apart, Unlisted, Reconsidered, FindId, Without;
    if Bound(s, h) {
      var irq, id := s.hooks[h].irq, s.hooks[h].id;
      var k := FindId(s.hooks, s.lists[irq], id, 0);
      UnlistedFacts(s, irq, id);
      SameLists(Unlisted(s, irq, id), irq);
      if k >= 0 { ApartWithout(s.lists, irq, k); }
      forall l: nat | l < |s.lists| ensures LineOk(Remove(s, h).0, l) { RemoveLine(s, h, l); }
    }
  }

  lemma SameLists(s: Lines, l: nat)
    requires s.Shape() && l < |s.lists|
    ensures Reconsidered(s, l).Shape() && Reconsidered(s, l).lists == s.lists
  {
  }

  /** Removing a registered hook takes that hook off its line, and no other. */
  lemma RemoveExact(s: Lines, h: nat, k: nat)
    requires IrqOk(s) && Bound(s, h) && k < |s.lists[s.hooks[h].irq]| && s.lists[s.hooks[h].irq][k] == h
    ensures var irq := s.hooks[h].irq; Remove(s, h).0.lists == s.lists[irq := Without(s.lists[irq], k)]
  {
    assert LineOk(s, s.hooks[h].irq);
  }

  // ---- hooks that are registered no more ----

  /** The hook has been taken off its line and its id has been given to another hook. */
  ghost predicate Outdated(s: Lines, h: nat)
    requires Bound(s, h)
  {
    h !in s.lists[s.hooks[h].irq] && HasId(s, s.hooks[h].irq, s.hooks[h].id)
  }

  /** Whether x is registered and active. */
  ghost predicate Active(s: Lines, x: nat) {
    x < |s.hooks| && OnQueue(s.lists, x) && 0 <= s.hooks[x].irq < |s.act| && s.hooks[x].id in s.act[s.hooks[x].irq]
  }

  /** The line of a registered hook is the one it is on. */
  lemma OnItsLine(s: Lines, x: nat)
    requires IrqOk(s) && OnQueue(s.lists, x)
    ensures Bound(s, x) && x in s.lists[s.hooks[x].irq]
  {
    var l: nat :| l < |s.lists| && x in s.lists[l];
    assert LineOk(s, l);
    var k: nat :| k < |s.lists[l]| && s.lists[l][k] == x;
  }

  /** The one hook on a line that has an id. */
  lemma Holder(s: Lines, l: nat, id: nat) returns (k: nat)
    requires IrqOk(s) && HasId(s, l, id)
    ensures k < |s.lists[l]| && Bound(s, s.lists[l][k]) && s.hooks[s.lists[l][k]] == Hook(l, id)
    ensures FindId(s.hooks, s.lists[l], id, 0) == k
    ensures forall j: nat :: j < |s.lists[l]| && j != k ==> s.lists[l][j] < |s.hooks| && s.hooks[s.lists[l][j]].id != id
  {
    assert LineOk(s, l);
    k :| k < |s.lists[l]| && s.lists[l][k] < |s.hooks| && s.hooks[s.lists[l][k]].id == id;
  }

  /** rm_irq_handler takes another hook than the one it is given off a line exactly if that one is
      outdated. */
  lemma RemoveOtherIff(s: Lines, h: nat)
    requires IrqOk(s) && Bound(s, h)
    ensures (exists x: nat :: x != h && OnQueue(s.lists, x) && !OnQueue(Remove(s, h).0.lists, x)) <==> Outdated(s, h)
  {
    hide LineOk;
    var irq, id, t := s.hooks[h].irq, s.hooks[h].id, Remove(s, h).0;
    RemovedLists(s, h);
    if HasId(s, irq, id) {
      var k := Holder(s, irq, id);
      var y := s.lists[irq][k];
      forall x: nat ensures OnQueue(t.lists, x) <==> OnQueue(s.lists, x) && x != y {
        OnQueueWithout(s.lists, irq, k, x);
      }
      assert y in s.lists[irq];
      if h in s.lists[irq] {
        var j: nat :| j < |s.lists[irq]| && s.lists[irq][j] == h;
        assert j == k;
      } else {
        assert y != h && OnQueue(s.lists, y) && !OnQueue(t.lists, y);
      }
    }
  }

  lemma RemovedLists(s: Lines, h: nat)
    requires IrqOk(s) && Bound(s, h)
    ensures var irq, id := s.hooks[h].irq, s.hooks[h].id;
            var k := FindId(s.hooks, s.lists[irq], id, 0);
            && Remove(s, h).0.lists == (if k < 0 then s.lists else s.lists[irq := Without(s.lists[irq], k)])
            && (k < 0 ==> !HasId(s, irq, id))
  {
    UnlistedFacts(s, s.hooks[h].irq, s.hooks[h].id);
    SameLists(Unlisted(s, s.hooks[h].irq, s.hooks[h].id), s.hooks[h].irq);
  }

  /** disable_irq makes another hook active exactly if the one it is given is outdated and the bit
      is clear. */
  lemma DisableOtherIff(s: Lines, h: nat)
    requires IrqOk(s) && Bound(s, h)
    ensures (exists x: nat :: x != h && !Active(s, x) && Active(Disable(s, h).0, x))
            <==> Outdated(s, h) && s.hooks[h].id !in s.act[s.hooks[h].irq]
  {
    OtherBit(s, Disable(s, h).0, h);
  }

  /** enable_irq makes another hook inactive exactly if the one it is given is outdated and the bit
      is set. */
  lemma EnableOtherIff(s: Lines, h: nat)
    requires IrqOk(s) && Bound(s, h)
    ensures (exists x: nat :: x != h && Active(s, x) && !Active(Enable(s, h), x))
            <==> Outdated(s, h) && s.hooks[h].id in s.act[s.hooks[h].irq]
  {
    OtherBit(s, Enable(s, h), h);
  }

  /** When only the bit of h's id may have changed, another hook is affected exactly if it has it. */
  lemma OtherBit(s: Lines, t: Lines, h: nat)
    requires IrqOk(s) && Bound(s, h) && t.lists == s.lists && t.hooks == s.hooks && |t.act| == |s.act|
    requires forall l: nat, id: nat :: l < |s.act| && !(l == s.hooks[h].irq && id == s.hooks[h].id) ==>
               (id in t.act[l] <==> id in s.act[l])
    ensures (exists x: nat :: x != h && (Active(s, x) != Active(t, x)))
            <==> Outdated(s, h) && (s.hooks[h].id in s.act[s.hooks[h].irq]) != (s.hooks[h].id in t.act[s.hooks[h].irq])
  {
    hide LineOk;
    var irq, id := s.hooks[h].irq, s.hooks[h].id;
    if x: nat :| x != h && (Active(s, x) != Active(t, x)) {
      OnItsLine(s, x);
      SharedId(s, h, x);
    }
    if Outdated(s, h) {
      var k := Holder(s, irq, id);
      var y := s.lists[irq][k];
      assert y in s.lists[irq] && y != h && OnQueue(s.lists, y);
      if (id in s.act[irq]) != (id in t.act[irq]) { assert Active(s, y) != Active(t, y); }
    }
  }

  /** Another registered hook with h's line and id means that h is not registered. */
  lemma SharedId(s: Lines, h: nat, x: nat)
    requires IrqOk(s) && Bound(s, h) && x != h && Bound(s, x) && x in s.lists[s.hooks[x].irq]
    requires s.hooks[x] == s.hooks[h]
    ensures Outdated(s, h)
  {
    hide LineOk;
    var l := s.hooks[h].irq;
    var i: nat :| i < |s.lists[l]| && s.lists[l][i] == x;
    assert HasId(s, l, s.hooks[h].id);
    var k := Holder(s, l, s.hooks[h].id);
    assert i == k;
    forall j: nat | j < |s.lists[l]| ensures s.lists[l][j] != h { }
  }

  // ---- runs ----

  datatype Event = DoPut(h: nat, irq: int) | DoRemove(h: nat) | DoEnable(h: nat) | DoDisable(h: nat)
      | DoInterrupt(l: nat, answers: seq<bool>)

  /** What callers see to: a hook is put on one line at a time, has been put on a line before
      it is enabled, and is registered when it is disabled. */
  ghost predicate Enabled(s: Lines, ev: Event) {
    s.Shape() &&
    match ev
    case DoPut(h, irq) => h < |s.hooks| && (!OnQueue(s.lists, h) || !Registers(s, h, irq))
    case DoRemove(h) => h < |s.hooks|
    case DoEnable(h) => Bound(s, h)
    case DoDisable(h) => Bound(s, h) && HasId(s, s.hooks[h].irq, s.hooks[h].id)
    case DoInterrupt(l, answers) =>
      l < |s.lists| && |answers| == |s.lists[l]| && forall j: nat :: j < |s.lists[l]| ==> s.lists[l][j] < |s.hooks|
  }

  ghost function Apply(s: Lines, ev: Event): Lines
    requires Enabled(s, ev)
  {
    match ev
    case DoPut(h, irq) => Put(s, h, irq).0
    case DoRemove(h) => Remove(s, h).0
    case DoEnable(h) => Enable(s, h)
    case DoDisable(h) => Disable(s, h).0
    case DoInterrupt(l, answers) => Interrupt(s, l, answers)
  }

  ghost predicate Run(states: seq<Lines>, events: seq<Event>) {
    && |states| == |events| + 1 && states[0].Shape()
    && (forall l: nat :: l < |states[0].lists| ==> states[0].lists[l] == [] && states[0].act[l] == {})
    && forall i: nat :: i < |events| ==> Enabled(states[i], events[i]) && states[i + 1] == Apply(states[i], events[i])
  }

  lemma StepOk(s: Lines, ev: Event)
    requires IrqOk(s) && Enabled(s, ev)
    ensures IrqOk(Apply(s, ev))
  {
    match ev
    case DoPut(h, irq) => PutOkIff(s, h, irq);
    case DoRemove(h) => RemoveOk(s, h);
    case DoEnable(h) => EnableOk(s, h);
    case DoDisable(h) => DisableOkIff(s, h);
    case DoInterrupt(l, answers) => InterruptOk(s, l, answers);
  }

  lemma {:induction false} RunOk(states: seq<Lines>, events: seq<Event>, i: nat)
    requires Run(states, events) && i < |states|
    ensures IrqOk(states[i])
  {
    hide Enabled, Apply;
    if i == 0 {
      assert Apart(states[0].lists);
    } else {
      RunOk(states, events, i - 1);
      hide IrqOk;
      assert states[i] == Apply(states[i - 1], events[i - 1]);
      StepOk(states[i - 1], events[i - 1]);
    }
  }

  /** In every reachable state the hooks of a line have different ids, whoever is active is
      registered, and a line with a hook is unmasked exactly when nobody is active. */
  lemma LineAlways(states: seq<Lines>, events: seq<Event>, i: nat, l: nat)
    requires Run(states, events) && i < |states| && l < |states[i].lists|
    ensures var s := states[i];
            && s.Shape() && IdsOk(s.hooks, s.lists[l], l) && (forall id: nat :: id in s.act[l] ==> HasId(s, l, id))
            && (s.lists[l] != [] ==> (!s.masked[l] <==> s.act[l] == {}))
  {
    hide Run;
    RunOk(states, events, i);
    assert LineOk(states[i], l);
  }

  // ---- runs that end badly ----

  /** Two lines and two hooks. */
  const BARE := Lines([[], []], [Hook(-1, 0), Hook(-1, 0)], [{}, {}], [true, true])
  const ONE_PUT := Lines([[0], []], [Hook(0, 0), Hook(-1, 0)], [{}, {}], [false, true])
  const TWO_PUT := Lines([[0, 1], []], [Hook(0, 0), Hook(0, 1)], [{}, {}], [false, true])
  const REMOVED := Lines([[], []], [Hook(0, 0), Hook(-1, 0)], [{}, {}], [true, true])

  lemma FirstPut()
    ensures Enabled(BARE, DoPut(0, 0)) && Apply(BARE, DoPut(0, 0)) == ONE_PUT
  {
    assert FreeId(BARE.hooks, [], 0) == 0;
    PlacedLists(BARE, 0, 0, 0);
    var t := Apply(BARE, DoPut(0, 0));
    assert t.lists[0] == [0] && t.lists[1] == [] && t.act[0] == {} && t.act[1] == {};
    assert t.lists == ONE_PUT.lists && t.act == ONE_PUT.act;
  }

  lemma SecondPut()
    ensures Enabled(ONE_PUT, DoPut(1, 0)) && Apply(ONE_PUT, DoPut(1, 0)) == TWO_PUT
  {
    assert FindId(ONE_PUT.hooks, [0], 0, 0) == 0 && FindId(ONE_PUT.hooks, [0], 1, 0) == -1;
    assert FreeId(ONE_PUT.hooks, [0], 0) == 1;
    PlacedLists(ONE_PUT, 1, 0, 1);
    var t := Apply(ONE_PUT, DoPut(1, 0));
    assert t.lists[0] == [0, 1] && t.lists[1] == [] && t.act[0] == {} && t.act[1] == {};
    assert t.lists == TWO_PUT.lists && t.act == TWO_PUT.act;
  }

  lemma FirstRemoved()
    ensures Enabled(ONE_PUT, DoRemove(0)) && Apply(ONE_PUT, DoRemove(0)) == REMOVED
  {
    assert FindId(ONE_PUT.hooks, [0], 0, 0) == 0 && Without([0], 0) == [];
    var t := Apply(ONE_PUT, DoRemove(0));
    assert t.lists[0] == [] && t.lists[1] == [] && t.act[0] == {} && t.act[1] == {};
    assert t.lists == REMOVED.lists && t.act == REMOVED.act;
  }

  /** A hook is put, removed and then disabled: its bit is active and no hook has it. */
  lemma DisabledReached()
    ensures Run([BARE, ONE_PUT, REMOVED], [DoPut(0, 0), DoRemove(0)])
    ensures Bound(REMOVED, 0) && 0 in Disable(REMOVED, 0).0.act[0] && !HasId(Disable(REMOVED, 0).0, 0, 0)
  {
    FirstPut();
    FirstRemoved();
  }

  /** Two hooks are put on line 0, then the first on line 1: the second is lost. */
  lemma LostReached()
    ensures Run([BARE, ONE_PUT, TWO_PUT], [DoPut(0, 0), DoPut(1, 0)])
    ensures Put(TWO_PUT, 0, 1).1 && !OnQueue(Put(TWO_PUT, 0, 1).0.lists, 1)
  {
    FirstPut();
    SecondPut();
    RunOk([BARE, ONE_PUT, TWO_PUT], [DoPut(0, 0), DoPut(1, 0)], 2);
    assert FreeId(TWO_PUT.hooks, [], 0) == 0;
    PutLoses(TWO_PUT, 0, 1, 0, 0, 1);
  }

  const REUSED := Lines([[1], []], [Hook(0, 0), Hook(0, 0)], [{}, {}], [false, true])

  lemma IdReused()
    ensures Enabled(REMOVED, DoPut(1, 0)) && Apply(REMOVED, DoPut(1, 0)) == REUSED
  {
    assert FreeId(REMOVED.hooks, [], 0) == 0;
    PlacedLists(REMOVED, 1, 0, 0);
    var t := Apply(REMOVED, DoPut(1, 0));
    assert t.lists[0] == [1] && t.lists[1] == [] && t.act[0] == {} && t.act[1] == {};
    assert t.lists == REUSED.lists && t.act == REUSED.act;
  }

  /** A hook is put and removed and another is put: the first, which is outdated, takes the other off
      the line when it is removed again, and masks the line when it is disabled. */
  lemma OutdatedReached()
    ensures Run([BARE, ONE_PUT, REMOVED, REUSED], [DoPut(0, 0), DoRemove(0), DoPut(1, 0)])
    ensures Bound(REUSED, 0) && Outdated(REUSED, 0) && !OnQueue(Remove(REUSED, 0).0.lists, 1)
    ensures Disable(REUSED, 0).1 && Active(Disable(REUSED, 0).0, 1) && Disable(REUSED, 0).0.masked[0]
  {
    hide *;
    OutdatedRun();
    OutdatedRemoves();
    OutdatedMasks();
  }

  lemma OutdatedRun()
    ensures Run([BARE, ONE_PUT, REMOVED, REUSED], [DoPut(0, 0), DoRemove(0), DoPut(1, 0)])
  {
    hide Enabled, Apply;
    FirstPut();
    FirstRemoved();
    IdReused();
    var states := [BARE, ONE_PUT, REMOVED, REUSED];
    var events := [DoPut(0, 0), DoRemove(0), DoPut(1, 0)];
    forall i: nat | i < 3 ensures Enabled(states[i], events[i]) && states[i + 1] == Apply(states[i], events[i]) {
      assert i == 0 || i == 1 || i == 2;
    }
  }

  lemma OutdatedRemoves()
    ensures Bound(REUSED, 0) && Outdated(REUSED, 0) && !OnQueue(Remove(REUSED, 0).0.lists, 1)
  {
    assert FindId(REUSED.hooks, [1], 0, 0) == 0 && Without([1], 0) == [];
    assert REUSED.lists[0][0] == 1 && HasId(REUSED, 0, 0);
    var t := Remove(REUSED, 0).0;
    assert t.lists[0] == [] && t.lists[1] == [];
  }

  lemma OutdatedMasks()
    ensures Disable(REUSED, 0).1 && Active(Disable(REUSED, 0).0, 1) && Disable(REUSED, 0).0.masked[0]
  {
    assert 1 in REUSED.lists[0];
  }
}
