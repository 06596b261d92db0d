/** The folding side, internal/livelog/aria/client.go. */
module AriaClient {
  import opened Utf8
  import opened Aria
  import AriaServer

  datatype State = State(
    closed: seq<Message>, closedSeen: set<int>, closedFloor: int, closedLimit: int, lastCommittedLT: int,
    openLT: int, openRole: bytes, openV: int, openOrder: seq<bytes>, openBlock: map<bytes, Node>)

  /** NewClient, then SetClosedLimit. */
  function Fresh(limit: int): State { State([], {}, 0, limit, 0, 0, [], 0, [], map[]) }

  // ----- Sorting by LT, as sort.SliceStable does it

  function Insert(ms: seq<Message>, m: Message): (r: seq<Message>)
    ensures |r| == |ms| + 1
  {
    if ms == [] then [m]
    else if ms[|ms| - 1].lt <= m.lt then ms + [m]
    else Insert(ms[..|ms| - 1], m) + [ms[|ms| - 1]]
  }

  function SortByLT(ms: seq<Message>): (r: seq<Message>)
    ensures |r| == |ms|
  {
    if ms == [] then [] else Insert(SortByLT(ms[..|ms| - 1]), ms[|ms| - 1])
  }

  predicate Ordered(ms: seq<Message>) { forall i, j | 0 <= i < j < |ms| :: ms[i].lt <= ms[j].lt }

  /** The messages with this LT, in order. */
  function AtLT(ms: seq<Message>, lt: int): seq<Message> {
    if ms == [] then []
    else AtLT(ms[..|ms| - 1], lt) + if ms[|ms| - 1].lt == lt then [ms[|ms| - 1]] else []
  }

  /** sorted is ms in LT order, with ties as they were. */
  ghost predicate StablySorted(sorted: seq<Message>, ms: seq<Message>) {
    && Ordered(sorted) && multiset(sorted) == multiset(ms)
    && forall lt :: AtLT(sorted, lt) == AtLT(ms, lt)
  }

  lemma AtLTLast(ms: seq<Message>, m: Message, lt: int)
    ensures AtLT(ms + [m], lt) == AtLT(ms, lt) + if m.lt == lt then [m] else []
  {
    assert (ms + [m])[..|ms|] == ms;
  }

  /** Insertion passes only messages with a higher LT. */
  lemma {:induction false} InsertAtLT(ms: seq<Message>, m: Message, lt: int)
    ensures AtLT(Insert(ms, m), lt) == AtLT(ms, lt) + if m.lt == lt then [m] else []
  {
    hide AtLT;
    if ms == [] {
      AtLTLast([], m, lt);
      assert [] + [m] == [m];
    } else if ms[|ms| - 1].lt <= m.lt {
      AtLTLast(ms, m, lt);
    } else {
      var pre, last := ms[..|ms| - 1], ms[|ms| - 1];
      InsertAtLT(pre, m, lt);
      AtLTLast(Insert(pre, m), last, lt);
      AtLTLast(pre, last, lt);
      assert ms == pre + [last];
      if m.lt == lt {
        assert AtLT(ms, lt) == AtLT(pre, lt);
      }
    }
  }

  lemma {:induction false} InsertOrders(ms: seq<Message>, m: Message)
    requires Ordered(ms)
    ensures Ordered(Insert(ms, m)) && multiset(Insert(ms, m)) == multiset(ms) + multiset{m}
    ensures forall x :: x in Insert(ms, m) ==> x in ms || x == m
  {
    if ms != [] && ms[|ms| - 1].lt > m.lt {
      var pre, last := ms[..|ms| - 1], ms[|ms| - 1];
      assert ms == pre + [last];
      InsertOrders(pre, m);
      OrderedLast(Insert(pre, m), last);
    } else {
      OrderedLast(ms, m);
    }
  }

  lemma OrderedLast(ms: seq<Message>, last: Message)
    requires Ordered(ms) && (ms != [] ==> ms[|ms| - 1].lt <= last.lt)
    ensures Ordered(ms + [last])
  {
  }

  lemma {:induction false} SortIsStable(ms: seq<Message>)
    ensures StablySorted(SortByLT(ms), ms)
  {
    hide AtLT, Insert;
    if ms != [] {
      var pre, last := ms[..|ms| - 1], ms[|ms| - 1];
      assert ms == pre + [last];
      SortIsStable(pre);
      InsertOrders(SortByLT(pre), last);
      forall lt ensures AtLT(SortByLT(ms), lt) == AtLT(ms, lt) {
        InsertAtLT(SortByLT(pre), last, lt);
        AtLTLast(pre, last, lt);
      }
    }
  }

  // ----- Apply, as a function

  datatype Fold = Fold(c: State, finalized: seq<Message>, desync: int)

  predicate SeenClosed(c: State, lt: int) { lt < c.closedFloor || lt in c.closedSeen }

  function OpenReset(c: State): State {
    c.(openLT := 0, openRole := [], openV := 0, openOrder := [], openBlock := map[])
  }

  function AdvanceCommitted(c: State, lt: int): State {
    if lt > c.lastCommittedLT then c.(lastCommittedLT := lt) else c
  }

  function OpenMessage(c: State): Message {
    Message(c.openLT, c.openRole, AriaServer.Ordered(c.openOrder, c.openBlock))
  }

  function TakeCommitted(f: Fold, cm: Committed): Fold {
    var c := f.c;
    if cm.Full() then
      var fresh_ := !SeenClosed(c, cm.lt);
      var c1 := if fresh_ then c.(closedSeen := c.closedSeen + {cm.lt}) else c;
      var c2 := if cm.lt == c1.openLT then OpenReset(c1) else c1;
      Fold(AdvanceCommitted(c2, cm.lt),
           if fresh_ then f.finalized + [Message(cm.lt, cm.role, cm.nodes)] else f.finalized, f.desync)
    else if c.openLT == cm.lt && c.openV == cm.v then
      var fresh_ := cm.lt !in c.closedSeen;
      var c1 := if fresh_ then c.(closedSeen := c.closedSeen + {cm.lt}) else c;
      Fold(OpenReset(AdvanceCommitted(c1, cm.lt)),
           if fresh_ then f.finalized + [OpenMessage(c).(lt := cm.lt)] else f.finalized, f.desync)
    else
      f.(desync := c.lastCommittedLT)
  }

  function TakeAll(f: Fold, cms: seq<Committed>): Fold {
    if cms == [] then f else TakeCommitted(TakeAll(f, cms[..|cms| - 1]), cms[|cms| - 1])
  }

  function LTs(ms: seq<Message>): set<int> { set i | 0 <= i < |ms| :: ms[i].lt }

  function Max(x: int, y: int): int { if y > x then y else x }

  function Trim(c: State): State {
    if c.closedLimit <= 0 || |c.closed| <= c.closedLimit then c
    else
      var sorted := SortByLT(c.closed);
      var kept := sorted[|sorted| - c.closedLimit..];
      c.(closed := kept, closedSeen := LTs(kept), closedFloor := Max(c.closedFloor, kept[0].lt))
  }

  function FoldNode(c: State, d: NodeDelta): State {
    c.(openOrder := if d.id in c.openBlock then c.openOrder else c.openOrder + [d.id],
       openBlock := c.openBlock[d.id := Folded(if d.id in c.openBlock then c.openBlock[d.id] else BLANK, d)])
  }

  function FoldNodes(c: State, ds: seq<NodeDelta>): State {
    if ds == [] then c else FoldNode(FoldNodes(c, ds[..|ds| - 1]), ds[|ds| - 1])
  }

  lemma FoldNodesStep(c: State, ds: seq<NodeDelta>, i: nat)
    requires i < |ds|
    ensures FoldNodes(c, ds[..i + 1]) == FoldNode(FoldNodes(c, ds[..i]), ds[i])
  {
    assert ds[..i + 1][..i] == ds[..i];
  }

  function TakeLive(c: State, f: Live): State {
    var c1 :=
      if c.openLT != f.lt then c.(openLT := f.lt, openRole := f.role, openOrder := [], openBlock := map[])
      else c;
    var c2 := if f.role != [] then c1.(openRole := f.role) else c1;
    FoldNodes(c2, f.nodes).(openV := f.v)
  }

  /** The client after a page. */
  function Applied(c: State, r: AriaRead): State {
    var f := TakeAll(Fold(c, [], -1), r.committed);
    var c1 := Trim(f.c.(closed := f.c.closed + f.finalized));
    if r.live.Some? then TakeLive(c1, r.live.value) else c1
  }

  /** What the page reports: the messages it finalized, and the resume point if the
      client fell out of step (-1 if it did not). */
  function Finalized(c: State, r: AriaRead): seq<Message> { TakeAll(Fold(c, [], -1), r.committed).finalized }

  function Desync(c: State, r: AriaRead): int { TakeAll(Fold(c, [], -1), r.committed).desync }

  class Client {
    var closed: seq<Message>
    var closedSeen: set<int>
    var closedFloor: int
    var closedLimit: int
    var lastCommittedLT: int
    var openLT: int
    var openRole: bytes
    var openV: int
    var openOrder: seq<bytes>
    var openBlock: map<bytes, Node>

    function Now(): State reads this {
      State(closed, closedSeen, closedFloor, closedLimit, lastCommittedLT, openLT, openRole, openV, openOrder,
          openBlock)
    }

    constructor ()
      ensures Now() == Fresh(0)
    {
      closed, closedSeen, closedFloor, closedLimit, lastCommittedLT := [], {}, 0, 0, 0;
      openLT, openRole, openV, openOrder, openBlock := 0, [], 0, [], map[];
    }

    method SetClosedLimit(limit: int)
      modifies this
      ensures Now() == Trim(old(Now()).(closedLimit := limit))
    {
      closedLimit := limit;
      TrimClosed();
    }

    method TrimClosed()
      modifies this
      ensures Now() == Trim(old(Now()))
    {
      if closedLimit <= 0 || |closed| <= closedLimit {
        return;
      }
      var sorted := SortByLT(closed);
      var kept := sorted[|sorted| - closedLimit..];
      var seen: set<int> := {};
      for i := 0 to |kept|
        invariant seen == LTs(kept[..i]) && Now() == old(Now())
      {
        LTsAppend(kept[..i], [kept[i]]);
        assert kept[..i + 1] == kept[..i] + [kept[i]];
        seen := seen + {kept[i].lt};
      }
      assert kept[..|kept|] == kept && seen == LTs(kept);
      closed, closedSeen := kept, seen;
      if |kept| > 0 && kept[0].lt > closedFloor {
        closedFloor := kept[0].lt;
      }
    }

    method ResetOpen()
      modifies this
      ensures Now() == OpenReset(old(Now()))
    {
      openLT, openRole, openV := 0, [], 0;
      openOrder := [];
      openBlock := map[];
    }

    /** One entry of `committed`. */
    method Take(cm: Committed, finalized: seq<Message>, desync: int) returns (finalized': seq<Message>, desync': int)
      modifies this
      ensures Fold(Now(), finalized', desync') == TakeCommitted(Fold(old(Now()), finalized, desync), cm)
    {
      finalized', desync' := finalized, desync;
      if cm.Full() {
        if !(cm.lt < closedFloor || cm.lt in closedSeen) {
          closedSeen := closedSeen + {cm.lt};
          finalized' := finalized' + [Message(cm.lt, cm.role, cm.nodes)];
        }
        if cm.lt == openLT {
          ResetOpen();
        }
        if cm.lt > lastCommittedLT {
          lastCommittedLT := cm.lt;
        }
      } else if openLT == cm.lt && openV == cm.v {
        if cm.lt !in closedSeen {
          closedSeen := closedSeen + {cm.lt};
          finalized' := finalized' + [Message(cm.lt, openRole, AriaServer.Ordered(openOrder, openBlock))];
        }
        if cm.lt > lastCommittedLT {
          lastCommittedLT := cm.lt;
        }
        ResetOpen();
      } else {
        desync' := lastCommittedLT;
      }
    }

    /** One live frame. */
    method Stream(f: Live)
      modifies this
      ensures Now() == TakeLive(old(Now()), f)
    {
      if openLT != f.lt {
        openLT, openRole, openOrder, openBlock := f.lt, f.role, [], map[];
      }
      if f.role != [] {
        openRole := f.role;
      }
      StreamNodes(f.nodes);
      openV := f.v;
    }

    method StreamNodes(ds: seq<NodeDelta>)
      modifies this
      ensures Now() == FoldNodes(old(Now()), ds)
    {
      for i := 0 to |ds|
        invariant Now() == FoldNodes(old(Now()), ds[..i])
      {
        FoldNodesStep(old(Now()), ds, i);
        StreamNode(ds[i]);
      }
      assert ds[..|ds|] == ds;
    }

    method StreamNode(d: NodeDelta)
      modifies this
      ensures Now() == FoldNode(old(Now()), d)
    {
      var cur := if d.id in openBlock then openBlock[d.id] else BLANK;
      if d.id !in openBlock {
        openOrder := openOrder + [d.id];
      }
      var folded := FoldDelta(cur, d);
      openBlock := openBlock[d.id := folded];
    }

    method Apply(r: AriaRead) returns (finalized: seq<Message>, desync: int)
      modifies this
      ensures Now() == Applied(old(Now()), r)
      ensures finalized == Finalized(old(Now()), r) && desync == Desync(old(Now()), r)
    {
      finalized, desync := [], -1;
      for i := 0 to |r.committed|
        invariant Fold(Now(), finalized, desync) == TakeAll(Fold(old(Now()), [], -1), r.committed[..i])
      {
        assert r.committed[..i + 1][..i] == r.committed[..i];
        finalized, desync := Take(r.committed[i], finalized, desync);
      }
      assert r.committed[..|r.committed|] == r.committed;
      closed := closed + finalized;
      TrimClosed();
      if r.live.Some? {
        Stream(r.live.value);
      }
    }

    /** The reconstruction: the closed messages in LT order, ties in the order they came, and
        the open one, its blocks in theirs. */
    method View() returns (sorted: seq<Message>, open: Option<Message>)
      ensures StablySorted(sorted, closed)
      ensures open.Some? <==> openLT != 0
      ensures open.Some? ==> open.value.lt == openLT && open.value.role == openRole
      ensures open.Some? ==> |open.value.nodes| == |openOrder|
      ensures open.Some? ==> forall k :: 0 <= k < |openOrder| ==> open.value.nodes[k] == HeldAt(k)
    {
      sorted := SortByLT(closed);
      SortIsStable(closed);
      open := None;
      if openLT != 0 {
        var nodes: seq<Node> := [];
        for i := 0 to |openOrder|
          invariant |nodes| == i && forall k :: 0 <= k < i ==> nodes[k] == HeldAt(k)
        {
          nodes := nodes + [HeldAt(i)];
        }
        open := Some(Message(openLT, openRole, nodes));
      }
    }

    /** The block in place k; a missing one reads as the zero node. */
    function HeldAt(k: nat): Node
      reads this
      requires k < |openOrder|
    {
      if openOrder[k] in openBlock then openBlock[openOrder[k]] else BLANK
    }
  }

  lemma LTsAppend(ms: seq<Message>, more: seq<Message>)
    ensures LTs(ms + more) == LTs(ms) + LTs(more)
  {
    var all := ms + more;
    assert forall i :: 0 <= i < |ms| ==> all[i] == ms[i];
    assert forall i :: 0 <= i < |more| ==> all[|ms| + i] == more[i];
    assert forall i :: |ms| <= i < |all| ==> all[i] == more[i - |ms|];
  }
}
