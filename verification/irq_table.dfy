/**
 The interrupt handler table of the kernel: hooks linked into one list for each line.
 */
module IrqTable {
  import opened Fifo
  import opened QueueLinks
  import opened Irq

  class Table {
    var handlers: seq<int>
    var next: seq<int>
    var hooks: seq<Hook>
    var act: seq<set<nat>>
    var masked: seq<bool>
    ghost var lists: seq<seq<nat>>

    ghost function Abs(): Lines
      reads this
    {
      Lines(lists, hooks, act, masked)
    }

    ghost predicate Valid()
      reads this
    {
      IrqOk(Abs()) && Linked(handlers, next, lists) && |next| == |hooks|
    }

    /** Each list is what a walk along the links finds. */
    ghost predicate Walks()
      reads this
    {
      |handlers| == |lists| && forall l: nat :: l < |lists| ==> QueueLinked(handlers[l], next, lists[l])
    }

    constructor (lines: nat, hooks: seq<Hook>)
      ensures Valid() && this.hooks == hooks && |lists| == lines
      ensures forall l: nat :: l < lines ==> lists[l] == [] && act[l] == {} && masked[l]
    {
      handlers := seq(lines, _ => -1);
      next := seq(|hooks|, _ => -1);
      this.hooks := hooks;
      act := seq(lines, _ => {});
      masked := seq(lines, _ => true);
      lists := seq(lines, _ => []);
    }

    function Get(cell: Cell): int
      requires if cell.Head? then cell.d < |handlers| else cell.p < |next|
      reads this`handlers, this`next
    {
      if cell.Head? then handlers[cell.d] else next[cell.p]
    }

    method Set(cell: Cell, v: int)
      requires if cell.Head? then cell.d < |handlers| else cell.p < |next|
      modifies this`handlers, this`next
      ensures cell.Head? ==> handlers == old(handlers)[cell.d := v] && next == old(next)
      ensures cell.Link? ==> handlers == old(handlers) && next == old(next)[cell.p := v]
    {
      if cell.Head? { handlers := handlers[cell.d := v]; } else { next := next[cell.p := v]; }
    }

    lemma Sizes(l: nat)
      requires Valid() && l < |lists|
      ensures |handlers| == |act| == |masked| == |lists| && |next| == |hooks|
      ensures forall k: nat :: k < |lists[l]| ==> lists[l][k] < |hooks|
    {
      assert LineOk(Abs(), l);
    }

    /** The first loop of put_irq_handler: the end of the list and the ids in use, or that the
        hook is there already. */
    method FindEnd(h: nat, l: nat) returns (there: bool, line: Cell, used: set<nat>)
      requires Valid() && l < |lists| && h < |hooks|
      ensures there <==> h in lists[l]
      ensures !there ==> line == CellAt(lists[l], l, |lists[l]|)
      ensures !there ==> forall id: nat :: id in used <==> FindId(hooks, lists[l], id, 0) >= 0
    {
      Sizes(l);
      QueueRangeOk(handlers, next, lists, l);
      hide Linked, IrqOk;
      ghost var q, k := lists[l], 0;
      line, used := Head(l), {};
      while Get(line) != -1
        invariant k <= |q| && line == CellAt(q, l, k) && h !in q[..k]
        invariant forall id: nat :: id in used <==> exists j: nat :: j < k && hooks[q[j]].id == id
        decreases |q| - k
      {
        var x := Get(line);
        assert x == q[k];
        if h == x { return true, line, used; }
        used := used + {hooks[x].id};
        line := Link(x);
        k := k + 1;
      }
      assert q[..k] == q;
      there := false;
    }

    /** The second loop of put_irq_handler: the first id that no hook of the line has. */
    method LowestFree(used: set<nat>, ghost list: seq<nat>) returns (id: nat)
      requires forall i: nat :: i in used <==> FindId(hooks, list, i, 0) >= 0
      ensures id == FreeId(hooks, list, 0)
    {
      id := 0;
      while id < ID_BITS && id in used
        invariant id <= ID_BITS && FreeId(hooks, list, id) == FreeId(hooks, list, 0)
      {
        id := id + 1;
      }
    }

    method FindPlace(h: nat, l: nat) returns (there: bool, line: Cell, id: nat)
      requires Valid() && l < |lists| && h < |hooks|
      ensures there <==> h in lists[l]
      ensures !there ==> line == CellAt(lists[l], l, |lists[l]|) && id == FreeId(hooks, lists[l], 0)
    {
      hide Valid, FindId, FreeId;
      var used;
      there, line, used := FindEnd(h, l);
      id := 0;
      if !there { id := LowestFree(used, lists[l]); }
    }

    /** Add hook h, which is not on it, at the end of line l. */
    method Join(h: nat, l: nat, line: Cell)
      requires Linked(handlers, next, lists) && l < |lists| && h < |next| && h !in lists[l]
      requires line == CellAt(lists[l], l, |lists[l]|)
      modifies this`handlers, this`next, this`lists
      ensures Walks() && lists == Unlinked(old(lists), h)[l := old(lists)[l] + [h]] && |next| == old(|next|)
      ensures !OnQueue(old(lists), h) ==> Linked(handlers, next, lists)
    {
      hide OnQueue, QueueLinked;
      ghost var cut := Unlinked(lists, h);
      CutLinked(handlers, next, lists, h);
      CutSame(lists, h, l);
      QueueRangeOk(handlers, next, lists, l);
      next := next[h := -1];
      JoinCut(handlers, next, lists, l, h);
      ghost var heads, after := JoinHeads(handlers, cut, l, h), JoinNext(handlers, next, cut, l, h);
      hide Linked, Unlinked;
      Set(line, h);
      assert handlers == heads && next == after;
      lists := cut[l := cut[l] + [h]];
    }

    /** Unmask a line that nobody is active on. */
    method Settle(l: nat)
      requires l < |act| == |masked|
      modifies this`masked
      ensures masked == if act[l] == {} then old(masked)[l := false] else old(masked)
    {
      if act[l] == {} { masked := masked[l := false]; }
    }

    /** The lists are what put_irq_handler makes of them; they are proper lists again exactly if
        the hook was on no other line. */
    method PutIrqHandler(h: nat, irq: int) returns (ok: bool)
      requires Valid() && h < |hooks|
      modifies this
      ensures Walks() && (Abs(), ok) == Put(old(Abs()), h, irq)
      ensures Valid() <==> !OnQueue(old(lists), h) || !Registers(old(Abs()), h, irq)
    {
      PutOkIff(Abs(), h, irq);
      ValidWalks();
      hide IrqOk, Linked, FindId, FreeId, OnQueue, Irq.Placed, Walks;
      LineCount();
      if irq < 0 || irq >= |handlers| { return false; }
      var there, line, id := FindPlace(h, irq);
      if there { return true; }
      if id == ID_BITS { return false; }
      Place(h, irq, line, id);
      return true;
    }

    lemma ValidWalks()
      requires Valid()
      ensures Walks()
    {
    }

    /** Fill in the hook, link it and unmask the line if nobody is active. */
    method Place(h: nat, l: nat, line: Cell, id: nat)
      requires Linked(handlers, next, lists) && |next| == |hooks| && l < |lists| == |act| == |masked| && h < |hooks|
      requires h !in lists[l] && line == CellAt(lists[l], l, |lists[l]|)
      modifies this
      ensures Walks() && |next| == |hooks| && Abs() == Placed(old(Abs()), h, l, id)
      ensures !OnQueue(old(lists), h) ==> Linked(handlers, next, lists)
    {
      hide Linked, OnQueue, Unlinked, QueueLinked;
      Join(h, l, line);
      hooks := hooks[h := Hook(l, id)];
      act := act[l := act[l] - {id}];
      Settle(l);
    }

    lemma LineCount()
      requires Valid()
      ensures |handlers| == |act| == |masked| == |lists| && |next| == |hooks|
    {
    }

    /** Take the hook at place k off line l. */
    method Unhook(l: nat, line: Cell, ghost k: nat)
      requires Linked(handlers, next, lists) && l < |lists| && k < |lists[l]| && line == CellAt(lists[l], l, k)
      modifies this`handlers, this`next, this`lists
      ensures Linked(handlers, next, lists) && lists == old(lists)[l := Without(old(lists)[l], k)]
      ensures |next| == old(|next|) && |handlers| == old(|handlers|)
    {
      hide OnQueue, At;
      LeaveFacts(handlers, next, lists, l, k);
      ghost var own := At(lists[l], k + 1);
      LeaveLinked(handlers, next, lists, l, k, own);
      ghost var heads, after := LeaveHeads(handlers, lists, l, k), LeaveNext(handlers, next, lists, l, k, own);
      hide Linked;
      var x := Get(line);
      Set(line, next[x]);
      assert handlers == heads && next == after;
      lists := lists[l := Without(lists[l], k)];
    }

    /** Take the hook at place k, the first with this id, off line l. */
    method TakeOff(l: nat, line: Cell, id: nat, ghost k: nat)
      requires Linked(handlers, next, lists) && |next| == |hooks|
      requires |handlers| == |lists| == |act| == |masked| && l < |lists|
      requires IdsOk(hooks, lists[l], l) && NoneBefore(hooks, lists[l], k, id)
      requires k < |lists[l]| && lists[l][k] < |hooks| && hooks[lists[l][k]].id == id
      requires line == CellAt(lists[l], l, k)
      modifies this`handlers, this`next, this`lists, this`act
      ensures Linked(handlers, next, lists) && |next| == |hooks| && |handlers| == |lists| == |act|
      ensures Abs() == Unlisted(old(Abs()), l, id) == Unlisted(Abs(), l, id)
      ensures IdsOk(hooks, lists[l], l) && NoneBefore(hooks, lists[l], k, id)
      ensures k <= |lists[l]| && line == CellAt(lists[l], l, k)
      ensures |lists[l]| < |old(lists)[l]|
    {
      hide Linked, IdsOk, NoneBefore, FindId;
      UnlistedOnce(Abs(), l, id, k);
      Unhook(l, line, k);
      if id in act[l] { act := act[l := act[l] - {id}]; } else { assert act[l] - {id} == act[l]; }
      assert act == old(act)[l := old(act)[l] - {id}];
    }

    /** line is the k-th pointer of list l, and no hook before it has this id. */
    ghost predicate Scanning(l: nat, id: nat, line: Cell, k: nat)
      reads this
    {
      && Linked(handlers, next, lists) && |next| == |hooks| && |handlers| == |lists| == |act| == |masked| && l < |lists|
      && IdsOk(hooks, lists[l], l) && NoneBefore(hooks, lists[l], k, id) && k <= |lists[l]|
      && line == CellAt(lists[l], l, k)
    }

    lemma ScanAt(l: nat, id: nat, line: Cell, k: nat)
      requires Scanning(l, id, line, k)
      ensures l < |lists| && k <= |lists[l]| && if line.Head? then line.d < |handlers| else line.p < |next|
      ensures Get(line) == if k < |lists[l]| then lists[l][k] else -1
      ensures k < |lists[l]| ==> lists[l][k] < |hooks|
    {
      QueueRangeOk(handlers, next, lists, l);
    }

    /** One turn of the loop of rm_irq_handler. */
    method Visit(l: nat, id: nat, line: Cell, ghost k: nat) returns (line': Cell, ghost k': nat)
      requires Scanning(l, id, line, k) && l < |lists| && k < |lists[l]|
      modifies this`handlers, this`next, this`lists, this`act
      ensures Scanning(l, id, line', k') && Unlisted(Abs(), l, id) == Unlisted(old(Abs()), l, id)
      ensures |lists| == |old(lists)| && l < |lists| && |lists[l]| - k' < |old(lists)[l]| - k
    {
      ScanAt(l, id, line, k);
      hide Linked, IdsOk, NoneBefore, Unlisted;
      var x := Get(line);
      line', k' := line, k;
      if hooks[x].id == id {
        TakeOff(l, line, id, k);
      } else {
        NoneMore(hooks, lists[l], k, id);
        line', k' := Link(x), k + 1;
      }
    }

    /** The loop of rm_irq_handler. */
    method RemoveId(l: nat, id: nat)
      requires Valid() && l < |lists|
      modifies this`handlers, this`next, this`lists, this`act
      ensures Linked(handlers, next, lists) && |next| == |hooks| && Abs() == Unlisted(old(Abs()), l, id)
    {
      var line := Head(l);
      ghost var k: nat := 0;
      ScanFirst(l, id);
      hide Valid, Scanning, Unlisted;
      ScanAt(l, id, line, k);
      while Get(line) != -1
        invariant Scanning(l, id, line, k) && l < |lists| && k <= |lists[l]|
        invariant if line.Head? then line.d < |handlers| else line.p < |next|
        invariant Unlisted(Abs(), l, id) == Unlisted(old(Abs()), l, id)
        decreases |lists[l]| - k
      {
        ScanAt(l, id, line, k);
        line, k := Visit(l, id, line, k);
        ScanAt(l, id, line, k);
      }
      ScanAt(l, id, line, k);
      ScanLast(l, id, line);
    }

    lemma ScanFirst(l: nat, id: nat)
      requires Valid() && l < |lists|
      ensures Scanning(l, id, Head(l), 0)
    {
      Sizes(l);
      NoneFirst(hooks, lists[l], id);
      assert LineOk(Abs(), l);
    }

    lemma ScanLast(l: nat, id: nat, line: Cell)
      requires l < |lists| && Scanning(l, id, line, |lists[l]|)
      ensures Linked(handlers, next, lists) && |next| == |hooks| && Unlisted(Abs(), l, id) == Abs()
    {
      hide Linked, IdsOk;
      NoneLeft(Abs(), l, id);
    }

    method RmIrqHandler(h: nat) returns (ok: bool)
      requires Valid() && h < |hooks|
      modifies this
      ensures Valid() && (Abs(), ok) == Remove(old(Abs()), h)
    {
      RemoveOk(Abs(), h);
      hide IrqOk, Linked, FindId, Unlisted;
      LineCount();
      var irq, id := hooks[h].irq, hooks[h].id;
      if irq < 0 || irq >= |handlers| { return false; }
      RemoveId(irq, id);
      QueueRangeOk(handlers, next, lists, irq);
      if handlers[irq] == -1 {
        masked := masked[irq := true];
      } else {
        Settle(irq);
      }
      ok := true;
    }

    method EnableIrq(h: nat)
      requires Valid() && Bound(Abs(), h)
      modifies this`act, this`masked
      ensures Valid() && Abs() == Enable(old(Abs()), h)
    {
      EnableOk(Abs(), h);
      hide IrqOk, Linked;
      LineCount();
      act := act[hooks[h].irq := act[hooks[h].irq] - {hooks[h].id}];
      Settle(hooks[h].irq);
    }

    method DisableIrq(h: nat) returns (was: bool)
      requires Valid() && Bound(Abs(), h)
      modifies this`act, this`masked
      ensures Walks() && (Abs(), was) == Disable(old(Abs()), h)
      ensures Valid() <==> HasId(old(Abs()), hooks[h].irq, hooks[h].id)
    {
      DisableOkIff(Abs(), h);
      ValidWalks();
      hide IrqOk, Linked, QueueLinked;
      LineCount();
      if hooks[h].id in act[hooks[h].irq] { return false; }
      act := act[hooks[h].irq := act[hooks[h].irq] + {hooks[h].id}];
      masked := masked[hooks[h].irq := true];
      was := true;
    }

    /** The loop of irq_handle; the handlers give the answers. */
    method CallHandlers(l: nat, answers: seq<bool>)
      requires Linked(handlers, next, lists) && |next| == |hooks| && l < |lists| == |act| && |answers| == |lists[l]|
      requires forall k: nat :: k < |lists[l]| ==> lists[l][k] < |hooks| && hooks[lists[l][k]].irq == l
      modifies this`act
      ensures act == old(act)[l := Handled(hooks, lists[l], answers, 0, old(act)[l])]
    {
      QueueRangeOk(handlers, next, lists, l);
      hide Linked;
      var hook, k := handlers[l], 0;
      while hook != -1
        invariant k <= |lists[l]| && hook == At(lists[l], k) && |act| == |lists|
        invariant act == old(act)[l := act[l]]
        invariant Handled(hooks, lists[l], answers, k, act[l]) == Handled(hooks, lists[l], answers, 0, old(act)[l])
        decreases |lists[l]| - k
      {
        act := act[l := act[l] + {hooks[hook].id}];
        if answers[k] { act := act[hooks[hook].irq := act[hooks[hook].irq] - {hooks[hook].id}]; }
        hook := next[hook];
        k := k + 1;
      }
    }

    method IrqHandle(l: nat, answers: seq<bool>)
      requires Valid() && l < |lists| && |answers| == |lists[l]|
      modifies this`act, this`masked
      ensures (forall j: nat :: j < |old(lists)[l]| ==> old(lists)[l][j] < |hooks|)
      ensures Valid() && Abs() == Interrupt(old(Abs()), l, answers)
    {
      InterruptOk(Abs(), l, answers);
      Sizes(l);
      assert IdsOk(hooks, lists[l], l) by { assert LineOk(Abs(), l); }
      QueueRangeOk(handlers, next, lists, l);
      hide IrqOk, Linked, Handled;
      masked := masked[l := true];
      if handlers[l] == -1 { return; }
      CallHandlers(l, answers);
      Settle(l);
    }
  }

  /** With the link of h cleared, a list it is on ends there. */
  lemma CutLinked(heads: seq<int>, next: seq<int>, lists: seq<seq<nat>>, h: nat)
    requires Linked(heads, next, lists) && h < |next|
    ensures Linked(heads, next[h := -1], Unlinked(lists, h))
  {
    var cut := Unlinked(lists, h);
    forall l: nat | l < |lists| ensures QueueLinked(heads[l], next[h := -1], cut[l]) {
      CutQueue(heads, next, lists, h, l);
    }
    CutApart(lists, h);
    hide Apart, QueueLinked, Unlinked;
  }

  lemma CutQueue(heads: seq<int>, next: seq<int>, lists: seq<seq<nat>>, h: nat, l: nat)
    requires Linked(heads, next, lists) && h < |next| && l < |lists|
    ensures QueueLinked(heads[l], next[h := -1], Cut(lists[l], h))
  {
    QueueRangeOk(heads, next, lists, l);
    var q, c := lists[l], Cut(lists[l], h);
    forall k: nat {:trigger next[h := -1][c[k]]} | k < |c| ensures next[h := -1][c[k]] == At(c, k + 1) {
      if k + 1 < |c| || c == q { assert c[k] == q[k] && next[q[k]] == At(q, k + 1); }
    }
    IsLinked(heads[l], next[h := -1], c);
  }

  lemma CutApart(lists: seq<seq<nat>>, h: nat)
    requires Apart(lists)
    ensures Apart(Unlinked(lists, h))
  {
    var cut := Unlinked(lists, h);
    forall d: nat, e: nat, i: nat, j: nat | d < |cut| && e < |cut| && i < |cut[d]| && j < |cut[e]|
        && cut[d][i] == cut[e][j]
      ensures d == e && i == j
    {
      assert lists[d][i] == lists[e][j];
    }
  }

  lemma CutSame(lists: seq<seq<nat>>, h: nat, l: nat)
    requires l < |lists| && h !in lists[l]
    ensures Unlinked(lists, h)[l] == lists[l]
  {
  }

  lemma JoinCut(heads: seq<int>, next: seq<int>, lists: seq<seq<nat>>, l: nat, h: nat)
    requires l < |lists| && h < |next| && next[h] == -1 && h !in lists[l] && Linked(heads, next, Unlinked(lists, h))
    ensures var cut := Unlinked(lists, h);
            && (forall e: nat :: e < |cut| ==>
                  QueueLinked(JoinHeads(heads, cut, l, h)[e], JoinNext(heads, next, cut, l, h),
                      cut[l := cut[l] + [h]][e]))
            && (!OnQueue(lists, h) ==> Linked(JoinHeads(heads, cut, l, h), JoinNext(heads, next, cut, l, h),
               cut[l := cut[l] + [h]]))
  {
    CutSame(lists, h, l);
    if !OnQueue(lists, h) { UnlinkedOff(lists, h); }
    hide Unlinked, OnQueue, QueueLinked;
    var cut := Unlinked(lists, h);
    forall e: nat | e < |cut|
      ensures QueueLinked(JoinHeads(heads, cut, l, h)[e], JoinNext(heads, next, cut, l, h), cut[l := cut[l] + [h]][e])
    {
      JoinQueue(heads, next, cut, l, h, e);
    }
    if !OnQueue(lists, h) { JoinLinked(heads, next, cut, l, h); }
  }

  /** No hook before place k has this id. */
  ghost predicate NoneBefore(hooks: seq<Hook>, list: seq<nat>, k: nat, id: nat) {
    k <= |list| && forall j: nat :: j < k ==> list[j] < |hooks| && hooks[list[j]].id != id
  }

  lemma NoneFirst(hooks: seq<Hook>, list: seq<nat>, id: nat)
    ensures NoneBefore(hooks, list, 0, id)
  {
  }

  lemma NoneMore(hooks: seq<Hook>, list: seq<nat>, k: nat, id: nat)
    requires NoneBefore(hooks, list, k, id) && k < |list| && list[k] < |hooks| && hooks[list[k]].id != id
    ensures NoneBefore(hooks, list, k + 1, id)
  {
  }

  lemma NoneLeft(s: Lines, l: nat, id: nat)
    requires s.Shape() && l < |s.lists| && NoneBefore(s.hooks, s.lists[l], |s.lists[l]|, id)
    ensures Unlisted(s, l, id) == s
  {
    NotFound(s.hooks, s.lists[l], id, 0);
  }

  /** Once the hook with an id has left, no other has it. */
  lemma UnlistedOnce(s: Lines, l: nat, id: nat, k: nat)
    requires s.Shape() && l < |s.lists| && IdsOk(s.hooks, s.lists[l], l) && NoneBefore(s.hooks, s.lists[l], k, id)
    requires k < |s.lists[l]| && s.lists[l][k] < |s.hooks| && s.hooks[s.lists[l][k]].id == id
    ensures var t := s.(lists := s.lists[l := Without(s.lists[l], k)], act := s.act[l := s.act[l] - {id}]);
            && Unlisted(s, l, id) == t && Unlisted(t, l, id) == t && IdsOk(t.hooks, t.lists[l], l)
            && NoneBefore(t.hooks, t.lists[l], k, id)
  {
    var q, w := s.lists[l], Without(s.lists[l], k);
    assert forall i: nat :: i < |w| ==> w[i] == q[if i < k then i else i + 1];
    assert FindId(s.hooks, q, id, 0) == k;
    NotFound(s.hooks, w, id, 0);
  }

  lemma NotFound(hooks: seq<Hook>, list: seq<nat>, id: nat, i: nat)
    requires i <= |list| && forall j: nat :: j < |list| ==> list[j] < |hooks| && hooks[list[j]].id != id
    ensures FindId(hooks, list, id, i) == -1
  {
  }
}
