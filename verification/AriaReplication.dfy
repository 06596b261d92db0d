/** Replication: what a client holds after any run of the server. */
module AriaReplication {
  import opened Utf8
  import opened Aria
  import S = AriaServer
  import C = AriaClient

  function StripAll(ns: seq<Node>): (r: seq<Node>)
    ensures |r| == |ns|
  {
    seq(|ns|, i requires 0 <= i < |ns| => Strip(ns[i]))
  }

  function WireMessage(m: Message): Message { m.(nodes := StripAll(m.nodes)) }

  /** The messages as far as the wire can tell. */
  function Wire(ms: seq<Message>): (r: seq<Message>)
    ensures |r| == |ms|
  {
    seq(|ms|, i requires 0 <= i < |ms| => WireMessage(ms[i]))
  }

  function StripBlock(b: map<bytes, Node>): map<bytes, Node> { map id | id in b :: Strip(b[id]) }

  predicate NoDup(ids: seq<bytes>) { forall i, j :: 0 <= i < j < |ids| ==> ids[i] != ids[j] }

  /** A block table lists each of its blocks once; it is empty until a frame is sent. */
  ghost predicate TableOk(order: seq<bytes>, block: map<bytes, Node>) {
    NoDup(order) && forall id :: id in order <==> id in block
  }

  /** What every operation of the server keeps, when LTs rise and hi is the last one used. */
  ghost predicate ServerOk(s: S.State, hi: int) {
    && hi >= 0
    && (forall m :: m in s.closed ==> 0 < m.lt <= hi && m.nodes != [])
    && (forall i, j :: 0 <= i < j < |s.closed| ==> s.closed[i].lt != s.closed[j].lt)
    && (s.open.Some? ==>
      var o := s.open.value;
      0 < o.lt <= hi && TableOk(o.order, o.block) && (o.order == [] <==> o.ver == 0)
      && forall m :: m in s.closed ==> m.lt != o.lt)
  }

  /** The client's copy of the open message, once a frame of it was sent. */
  ghost predicate OpenAgrees(o: S.OpenMsg, c: C.State) {
    if o.ver == 0 then c.openLT != o.lt
    else c.openLT == o.lt && c.openRole == o.role && c.openV == o.ver - 1
         && c.openOrder == o.order && c.openBlock == StripBlock(o.block)
  }

  /** Server and client in step. */
  ghost predicate Synced(s: S.State, c: C.State, hi: int) {
    && ServerOk(s, hi)
    && c.closedLimit == 0 && c.closedFloor == 0 && c.lastCommittedLT >= 0
    && Wire(c.closed) == Wire(s.closed)
    && (forall lt :: lt in c.closedSeen ==> 0 < lt <= hi && (s.open.Some? ==> lt != s.open.value.lt))
    && c.openLT <= hi
    && (s.open.Some? ==> OpenAgrees(s.open.value, c))
  }

  // ----- The open message

  ghost predicate TableSynced(order: seq<bytes>, block: map<bytes, Node>, c: C.State) {
    TableOk(order, block) && c.openOrder == order && c.openBlock == StripBlock(block)
  }

  lemma DeltaId(id: bytes, was: Option<Node>, n: Node)
    ensures DeltaOf(id, was, n).id == id
  {
  }

  lemma AbsorbTable(f: S.Fold, i: nat, n: Node)
    requires TableOk(f.order, f.block)
    ensures var g := S.Absorb(f, i, n); TableOk(g.order, g.block) && f.order <= g.order && g.order != []
  {
    hide DeltaOf, BlockId;
    assert BlockId(i, n) in S.Absorb(f, i, n).order;
  }

  /** One node of an update, on both sides. */
  lemma AbsorbSynced(f: S.Fold, i: nat, n: Node, c: C.State)
    requires TableSynced(f.order, f.block, c)
    ensures var g, d := S.Absorb(f, i, n), DeltaOf(BlockId(i, n), S.Lookup(f.block, BlockId(i, n)), n);
            && TableSynced(g.order, g.block, if d.Empty() then c else C.FoldNode(c, d))
            && f.order <= g.order && g.order != [] && (d.Empty() ==> g.order == f.order)
  {
    hide DeltaOf, Folded, BlockId, TableOk, NodeDelta.Empty;
    var id := BlockId(i, n);
    var was := S.Lookup(f.block, id);
    var d := DeltaOf(id, was, n);
    var g := S.Absorb(f, i, n);
    AbsorbTable(f, i, n);
    if d.Empty() {
      EmptyDeltaIsNoChange(id, was, n);
      assert StripBlock(g.block) == StripBlock(f.block);
    } else {
      DeltaId(id, was, n);
      FoldUndoesDelta(id, was, n);
      assert StripBlock(g.block) == StripBlock(f.block)[id := Strip(n)];
    }
  }

  /** The deltas of an update carry the client's copy along. */
  lemma {:induction false} AbsorbAllSynced(o: S.OpenMsg, nodes: seq<Node>, k: nat, c: C.State)
    requires k <= |nodes| && TableSynced(o.order, o.block, c)
    ensures var f := S.AbsorbAll(o, nodes, k);
            && TableSynced(f.order, f.block, C.FoldNodes(c, f.deltas))
            && o.order <= f.order && (if f.deltas == [] then f.order == o.order else f.order != [])
  {
    hide DeltaOf, C.FoldNode, BlockId, TableSynced;
    if k > 0 {
      AbsorbAllSynced(o, nodes, k - 1, c);
      var f := S.AbsorbAll(o, nodes, k - 1);
      AbsorbSynced(f, k - 1, nodes[k - 1], C.FoldNodes(c, f.deltas));
      var d := DeltaOf(BlockId(k - 1, nodes[k - 1]), S.Lookup(f.block, BlockId(k - 1, nodes[k - 1])), nodes[k - 1]);
      assert (f.deltas + [d])[..|f.deltas|] == f.deltas;
    }
  }

  /** Folding node deltas touches nothing but the table. */
  lemma {:induction false} FoldNodesFrame(c: C.State, ds: seq<NodeDelta>)
    ensures C.FoldNodes(c, ds).(openOrder := [], openBlock := map[]) == c.(openOrder := [], openBlock := map[])
    decreases |ds|
  {
    if ds != [] {
      FoldNodesFrame(c, ds[..|ds| - 1]);
    }
  }

  /** An unbounded client takes a page without closed messages as a plain frame. */
  lemma LiveOnly(c: C.State, f: Live)
    requires c.closedLimit <= 0
    ensures C.Applied(c, AriaRead([], Some(f))) == C.TakeLive(c, f)
    ensures C.Desync(c, AriaRead([], Some(f))) == -1
  {
    assert c.closed + [] == c.closed;
    assert c.(closed := c.closed) == c;
  }

  /** The table the client starts to fold a frame into. */
  function Base(o: S.OpenMsg, c: C.State): C.State {
    if o.ver == 0 then c.(openLT := o.lt, openRole := o.role, openOrder := [], openBlock := map[]) else c
  }

  lemma BaseSynced(o: S.OpenMsg, c: C.State)
    requires TableOk(o.order, o.block) && (o.order == [] <==> o.ver == 0)
    requires OpenAgrees(o, c)
    ensures TableSynced(o.order, o.block, Base(o, c))
    ensures Base(o, c).openLT == o.lt && Base(o, c).openRole == o.role
  {
    if o.ver == 0 {
      assert forall id :: id in o.block ==> id in o.order;
      assert o.block == map[];
    }
  }

  lemma FrameTaken(o: S.OpenMsg, c: C.State, ds: seq<NodeDelta>)
    requires OpenAgrees(o, c)
    ensures C.TakeLive(c, Live(o.lt, o.ver, if o.ver == 0 then o.role else [], ds))
            == C.FoldNodes(Base(o, c), ds).(openV := o.ver)
  {
    hide C.FoldNode;
    if o.ver == 0 {
      assert Base(o, c).(openRole := o.role) == Base(o, c);
    }
  }

  lemma {:induction false} UpdateStep(s: S.State, nodes: seq<Node>, c: C.State, hi: int)
    requires Synced(s, c, hi) && s.open.Some?
    ensures var s' := S.Next(s, S.Update(nodes));
            match S.Page(s, S.Update(nodes))
            case None => Synced(s', c, hi)
            case Some(p) => Synced(s', C.Applied(c, p), hi) && C.Desync(c, p) == -1
  {
    hide C.FoldNodes, S.AbsorbAll, C.Applied, C.Desync, C.TakeLive;
    var o := s.open.value;
    var f := S.AbsorbAll(o, nodes, |nodes|);
    BaseSynced(o, c);
    AbsorbAllSynced(o, nodes, |nodes|, Base(o, c));
    if f.deltas == [] {
      QuietUpdate(o, nodes, c);
    } else {
      LiveOnly(c, S.UpdatePage(o, nodes).value.live.value);
      FrameTaken(o, c, f.deltas);
      FoldNodesFrame(Base(o, c), f.deltas);
    }
  }

  /** An update without a frame leaves the wire fields as they were. */
  lemma QuietUpdate(o: S.OpenMsg, nodes: seq<Node>, c: C.State)
    requires TableOk(o.order, o.block) && (o.order == [] <==> o.ver == 0) && OpenAgrees(o, c)
    requires S.AbsorbAll(o, nodes, |nodes|).deltas == []
    ensures OpenAgrees(S.Updated(o, nodes), c) && TableOk(S.Updated(o, nodes).order, S.Updated(o, nodes).block)
    ensures S.Updated(o, nodes).order == o.order
  {
    hide S.AbsorbAll;
    BaseSynced(o, c);
    AbsorbAllSynced(o, nodes, |nodes|, Base(o, c));
  }

  // ----- Closed messages

  lemma WireAppend(ms: seq<Message>, more: seq<Message>)
    ensures Wire(ms + more) == Wire(ms) + Wire(more)
  {
  }

  lemma StrippedTable(order: seq<bytes>, block: map<bytes, Node>)
    requires TableOk(order, block)
    ensures StripAll(S.Ordered(order, StripBlock(block))) == StripAll(S.Ordered(order, block))
  {
  }

  lemma OneCommitted(c: C.State, cm: Committed)
    requires c.closedLimit <= 0
    ensures var f := C.TakeCommitted(C.Fold(c, [], -1), cm);
            && C.Applied(c, AriaRead([cm], None)) == f.c.(closed := f.c.closed + f.finalized)
            && C.Desync(c, AriaRead([cm], None)) == f.desync
  {
    hide C.TakeCommitted;
    assert [cm][..0] == [];
    assert C.TakeAll(C.Fold(c, [], -1), [cm]) == C.TakeCommitted(C.Fold(c, [], -1), cm);
    TakeKeepsLimit(C.Fold(c, [], -1), cm);
  }

  lemma TakeKeepsLimit(f: C.Fold, cm: Committed)
    ensures C.TakeCommitted(f, cm).c.closedLimit == f.c.closedLimit
    ensures C.TakeCommitted(f, cm).c.closed == f.c.closed
  {
  }

  /** Close promotes the client's copy exactly when a frame was sent; without one the
      marker names a message the client does not hold, and it asks to resume. */
  lemma {:induction false} CloseStep(s: S.State, c: C.State, hi: int)
    requires Synced(s, c, hi) && s.open.Some?
    ensures var p := S.Page(s, S.Close).value;
            if s.open.value.ver > 0 then Synced(S.Next(s, S.Close), C.Applied(c, p), hi) && C.Desync(c, p) == -1
            else C.Desync(c, p) >= 0
  {
    hide S.Ordered, C.Applied, C.Desync;
    var o := s.open.value;
    OneCommitted(c, S.Marker(o));
    if o.ver > 0 {
      WireAppend(s.closed, [S.Sealed(o)]);
      WireAppend(c.closed, [C.OpenMessage(c)]);
      StrippedTable(o.order, o.block);
      assert WireMessage(S.Sealed(o)) == WireMessage(C.OpenMessage(c));
    }
  }

  /** A committed message arrives whole exactly when it has nodes; an empty one reads as a
      marker for a message the client does not hold. */
  lemma {:induction false} CommitStep(s: S.State, m: Message, c: C.State, hi: int)
    requires Synced(s, c, hi) && m.lt > hi
    ensures var p := S.Page(s, S.Commit(m)).value;
            if m.nodes != [] then Synced(S.Next(s, S.Commit(m)), C.Applied(c, p), m.lt) && C.Desync(c, p) == -1
            else C.Desync(c, p) >= 0
  {
    hide C.Applied, C.Desync, OpenAgrees;
    OneCommitted(c, S.Snapshot(m));
    if m.nodes != [] {
      WireAppend(s.closed, [m]);
      WireAppend(c.closed, [m]);
      var c' := C.TakeCommitted(C.Fold(c, [], -1), S.Snapshot(m)).c.(closed := c.closed + [m]);
      if s.open.Some? {
        SameOpen(s.open.value, c, c');
      }
      assert C.Applied(c, S.Page(s, S.Commit(m)).value) == c';
      assert ServerOk(S.Next(s, S.Commit(m)), m.lt);
    }
  }

  lemma SameOpen(o: S.OpenMsg, c: C.State, c': C.State)
    requires OpenAgrees(o, c)
    requires c'.openLT == c.openLT && c'.openRole == c.openRole && c'.openV == c.openV
    requires c'.openOrder == c.openOrder && c'.openBlock == c.openBlock
    ensures OpenAgrees(o, c')
  {
  }

  // ----- Runs

  /** Operations that would close a message with no nodes. */
  predicate EmptyClose(s: S.State, op: S.Op) {
    match op
    case Close => s.open.Some? && s.open.value.order == []
    case Commit(m) => m.nodes == []
    case _ => false
  }

  /** New messages take a logical time above every earlier one. */
  predicate Rises(op: S.Op, hi: int) {
    match op
    case Open(lt, _) => lt > hi
    case Commit(m) => m.lt > hi
    case _ => true
  }

  function HighLT(op: S.Op, hi: int): int {
    match op
    case Open(lt, _) => lt
    case Commit(m) => m.lt
    case _ => hi
  }

  function Deliver(c: C.State, p: Option<AriaRead>): C.State {
    match p
    case None => c
    case Some(r) => C.Applied(c, r)
  }

  predicate InStep(c: C.State, p: Option<AriaRead>) {
    match p
    case None => true
    case Some(r) => C.Desync(c, r) == -1
  }

  /** One operation of the server, and its page applied by a client that was in step:
      the client stays in step, and asks to resume only for an empty close. */
  lemma {:induction false} StepSynced(s: S.State, op: S.Op, c: C.State, hi: int)
    requires Synced(s, c, hi) && Rises(op, hi)
    ensures InStep(c, S.Page(s, op)) <==> !EmptyClose(s, op)
    ensures !EmptyClose(s, op) ==> Synced(S.Next(s, op), Deliver(c, S.Page(s, op)), HighLT(op, hi))
  {
    hide C.Applied, C.Desync;
    match op {
      case Open(lt, role) =>
      case Update(nodes) =>
        if s.open.Some? {
          hide S.Updated;
          UpdateStep(s, nodes, c, hi);
        }
      case Close =>
        if s.open.Some? {
          CloseStep(s, c, hi);
        }
      case Abandon =>
      case Commit(m) => CommitStep(s, m, c, hi);
    }
  }

  /** A message that is opened and closed before anything streamed: the client is told to
      resume, for a message it never held. */
  lemma {:induction false} OpenThenCloseDesyncs(lt: int, role: bytes)
    requires lt > 0
    ensures var s := S.Next(S.EMPTY, S.Op.Open(lt, role));
            && EmptyClose(s, S.Close) && S.Page(s, S.Close).Some?
            && !InStep(C.Fresh(0), S.Page(s, S.Close)) && C.Desync(C.Fresh(0), S.Page(s, S.Close).value) == 0
  {
    var s := S.Next(S.EMPTY, S.Op.Open(lt, role));
    assert Synced(S.EMPTY, C.Fresh(0), 0);
    CloseStep(s, C.Fresh(0), lt);
    OneCommitted(C.Fresh(0), S.Page(s, S.Close).value.committed[0]);
  }

  /** The run ops from s, with rising LTs from hi and no empty close. */
  predicate Legal(s: S.State, ops: seq<S.Op>, hi: int)
    decreases |ops|
  {
    ops == [] || (Rises(ops[0], hi) && !EmptyClose(s, ops[0]) && Legal(S.Next(s, ops[0]), ops[1..], HighLT(ops[0], hi)))
  }

  function Run(s: S.State, ops: seq<S.Op>): S.State
    decreases |ops|
  {
    if ops == [] then s else Run(S.Next(s, ops[0]), ops[1..])
  }

  /** A subscriber that gets every page of the run, in order. */
  function Follow(s: S.State, ops: seq<S.Op>, c: C.State): C.State
    decreases |ops|
  {
    if ops == [] then c else Follow(S.Next(s, ops[0]), ops[1..], Deliver(c, S.Page(s, ops[0])))
  }

  predicate NeverDesyncs(s: S.State, ops: seq<S.Op>, c: C.State)
    decreases |ops|
  {
    ops == [] ||
    (InStep(c, S.Page(s, ops[0])) && NeverDesyncs(S.Next(s, ops[0]), ops[1..], Deliver(c, S.Page(s, ops[0]))))
  }

  function HighAfter(ops: seq<S.Op>, hi: int): int {
    if ops == [] then hi else HighAfter(ops[1..], HighLT(ops[0], hi))
  }

  lemma {:induction false} RunSynced(s: S.State, ops: seq<S.Op>, c: C.State, hi: int)
    requires Synced(s, c, hi) && Legal(s, ops, hi)
    ensures Synced(Run(s, ops), Follow(s, ops, c), HighAfter(ops, hi))
    ensures NeverDesyncs(s, ops, c)
    decreases |ops|
  {
    hide S.Next, S.Page, EmptyClose, Deliver, Synced;
    if ops != [] {
      StepSynced(s, ops[0], c, hi);
      RunSynced(S.Next(s, ops[0]), ops[1..], Deliver(c, S.Page(s, ops[0])), HighLT(ops[0], hi));
    }
  }

  // ----- Joining

  lemma SnapshotTaken(f: C.Fold, m: Message)
    requires f.c.openLT == 0 && f.c.closedFloor == 0 && m.lt > 0 && m.lt !in f.c.closedSeen && m.nodes != []
    ensures C.TakeCommitted(f, S.Snapshot(m))
            == C.Fold(f.c.(closedSeen := f.c.closedSeen + {m.lt}, lastCommittedLT := C.Max(f.c.lastCommittedLT, m.lt)),
                      f.finalized + [m], f.desync)
  {
  }

  lemma TakeLast(f: C.Fold, cms: seq<Committed>, cm: Committed)
    ensures C.TakeAll(f, cms + [cm]) == C.TakeCommitted(C.TakeAll(f, cms), cm)
  {
    assert (cms + [cm])[..|cms|] == cms;
  }

  lemma OneLT(m: Message)
    ensures C.LTs([m]) == {m.lt}
  {
    assert [m][0].lt in C.LTs([m]);
  }

  lemma NoLTs()
    ensures C.LTs([]) == {}
  {
  }

  lemma NotInLTs(ms: seq<Message>, lt: int)
    requires forall m :: m in ms ==> m.lt != lt
    ensures lt !in C.LTs(ms)
  {
  }

  /** A fresh client after the closed messages ms of a catch-up read. */
  predicate Adopted(f: C.Fold, ms: seq<Message>) {
    && f.finalized == ms && f.desync == -1
    && f.c == C.Fresh(0).(closedSeen := C.LTs(ms), lastCommittedLT := f.c.lastCommittedLT)
    && f.c.lastCommittedLT >= 0
  }

  /** A catch-up read adopts every closed message. */
  lemma {:induction false} SnapshotsTaken(ms: seq<Message>)
    requires forall m :: m in ms ==> 0 < m.lt && m.nodes != []
    requires forall i, j :: 0 <= i < j < |ms| ==> ms[i].lt != ms[j].lt
    ensures Adopted(C.TakeAll(C.Fold(C.Fresh(0), [], -1), S.Snapshots(ms, 0)), ms)
    decreases |ms|
  {
    hide C.TakeCommitted, C.LTs;
    if ms != [] {
      var pre, m := ms[..|ms| - 1], ms[|ms| - 1];
      SnapshotsTaken(pre);
      assert m in ms && ms == pre + [m];
      var f := C.TakeAll(C.Fold(C.Fresh(0), [], -1), S.Snapshots(pre, 0));
      TakeLast(C.Fold(C.Fresh(0), [], -1), S.Snapshots(pre, 0), S.Snapshot(m));
      NotInLTs(pre, m.lt);
      SnapshotTaken(f, m);
      C.LTsAppend(pre, [m]);
      OneLT(m);
    } else {
      NoLTs();
    }
  }

  /** The part of a table that the first k ids name. */
  function UpTo(order: seq<bytes>, block: map<bytes, Node>, k: nat): map<bytes, Node>
    requires k <= |order|
  {
    map id | id in block && id in order[..k] :: Strip(block[id])
  }

  lemma FoldNodesLast(c: C.State, ds: seq<NodeDelta>, d: NodeDelta)
    ensures C.FoldNodes(c, ds + [d]) == C.FoldNode(C.FoldNodes(c, ds), d)
  {
    assert (ds + [d])[..|ds|] == ds;
  }

  lemma FreshId(order: seq<bytes>, k: nat)
    requires NoDup(order) && k < |order|
    ensures order[k] !in order[..k]
  {
  }

  lemma FullSetTaken(c: C.State, id: bytes, n: Node)
    requires id !in c.openBlock
    ensures (C.FoldNode(c, FullSet(id, n)) ==
             c.(openOrder := c.openOrder + [id], openBlock := c.openBlock[id := Strip(n)]))
  {
    hide Folded;
    FoldUndoesDelta(id, None, n);
  }

  lemma {:induction false} FullSetsTaken(order: seq<bytes>, block: map<bytes, Node>, k: nat, c: C.State)
    requires TableOk(order, block) && k <= |order|
    requires c.openOrder == [] && c.openBlock == map[]
    ensures C.FoldNodes(c, S.FullSets(order, block, k))
            == c.(openOrder := order[..k], openBlock := UpTo(order, block, k))
  {
    hide FullSet, C.FoldNode, NoDup;
    if k > 0 {
      FullSetsTaken(order, block, k - 1, c);
      var id := order[k - 1];
      FreshId(order, k - 1);
      FoldNodesLast(c, S.FullSets(order, block, k - 1), FullSet(id, block[id]));
      FullSetTaken(c.(openOrder := order[..k - 1], openBlock := UpTo(order, block, k - 1)), id, block[id]);
      assert order[..k] == order[..k - 1] + [id];
      UpToLast(order, block, k);
    } else {
      assert UpTo(order, block, 0) == map[];
    }
  }

  lemma UpToLast(order: seq<bytes>, block: map<bytes, Node>, k: nat)
    requires TableOk(order, block) && 0 < k <= |order|
    ensures UpTo(order, block, k) == UpTo(order, block, k - 1)[order[k - 1] := Strip(block[order[k - 1]])]
  {
  }

  lemma LiveJoined(o: S.OpenMsg, c: C.State)
    requires TableOk(o.order, o.block) && o.ver > 0 && c.openLT != o.lt
    ensures var c' := C.TakeLive(c, Live(o.lt, S.LastVersion(o), o.role, S.FullSets(o.order, o.block, |o.order|)));
            && OpenAgrees(o, c') && c'.openLT == o.lt
            && c'.closed == c.closed && c'.closedSeen == c.closedSeen && c'.closedFloor == c.closedFloor
            && c'.closedLimit == c.closedLimit && c'.lastCommittedLT == c.lastCommittedLT
  {
    hide C.FoldNodes, S.FullSets;
    var c0 := c.(openLT := o.lt, openRole := o.role, openOrder := [], openBlock := map[]);
    FullSetsTaken(o.order, o.block, |o.order|, c0);
    assert o.order[..|o.order|] == o.order;
    assert UpTo(o.order, o.block, |o.order|) == StripBlock(o.block);
    assert c0.(openRole := o.role) == c0;
  }

  /** The committed half of a join. */
  lemma ClosedJoined(s: S.State, hi: int) returns (c: C.State)
    requires ServerOk(s, hi)
    ensures c == C.Fresh(0).(closed := s.closed, closedSeen := C.LTs(s.closed), lastCommittedLT := c.lastCommittedLT)
    ensures c.lastCommittedLT >= 0
    ensures var p := S.ReadPage(s, 0);
            C.Applied(C.Fresh(0), p) == (if p.live.Some? then C.TakeLive(c, p.live.value) else c)
            && C.Desync(C.Fresh(0), p) == -1
  {
    hide C.TakeLive, S.Snapshots, S.FullSets, C.TakeAll;
    SnapshotsTaken(s.closed);
    var f := C.TakeAll(C.Fold(C.Fresh(0), [], -1), S.Snapshots(s.closed, 0));
    c := f.c.(closed := f.c.closed + f.finalized);
    assert [] + s.closed == s.closed;
  }

  /** One Read(0), at any moment of a run, puts a fresh client in step. */
  lemma {:induction false} JoinSynced(s: S.State, hi: int)
    requires ServerOk(s, hi)
    ensures Synced(s, C.Applied(C.Fresh(0), S.ReadPage(s, 0)), hi)
    ensures C.Desync(C.Fresh(0), S.ReadPage(s, 0)) == -1
  {
    hide C.TakeLive, S.Snapshots, S.FullSets, C.Applied, C.Desync;
    var c := ClosedJoined(s, hi);
    forall lt | lt in C.LTs(s.closed) ensures 0 < lt <= hi && (s.open.Some? ==> lt != s.open.value.lt) {
      var i :| 0 <= i < |s.closed| && s.closed[i].lt == lt;
      assert s.closed[i] in s.closed;
    }
    if s.open.Some? && s.open.value.order != [] {
      LiveJoined(s.open.value, c);
    }
  }

  // ----- Resuming

  /** The messages closed after the cursor. */
  function After(ms: seq<Message>, since: int): seq<Message> {
    if ms == [] then []
    else After(ms[..|ms| - 1], since) + if ms[|ms| - 1].lt <= since then [] else [ms[|ms| - 1]]
  }

  /** The server as ServerOk has it, but for messages that were closed without nodes. */
  ghost predicate ServerOrdered(s: S.State, hi: int) {
    && hi >= 0
    && (forall m :: m in s.closed ==> 0 < m.lt <= hi)
    && (forall i, j :: 0 <= i < j < |s.closed| ==> s.closed[i].lt < s.closed[j].lt)
    && (s.open.Some? ==>
      var o := s.open.value;
      0 < o.lt <= hi && TableOk(o.order, o.block) && (o.order == [] <==> o.ver == 0)
      && forall m :: m in s.closed ==> m.lt != o.lt)
  }

  /** A client that holds the first k closed messages, up to its resume cursor, and has heard
      of none of the others; it does not hold the open message, nor one that was closed
      without nodes. */
  ghost predicate Behind(s: S.State, c: C.State, k: nat, hi: int) {
    && k <= |s.closed| && ServerOrdered(s, hi)
    && c.closedLimit == 0 && c.closedFloor == 0 && c.lastCommittedLT >= 0
    && Wire(c.closed) == Wire(s.closed[..k]) && (forall m :: m in s.closed[..k] ==> m.nodes != [])
    && (forall i :: 0 <= i < |s.closed| ==> (s.closed[i].lt <= c.lastCommittedLT <==> i < k))
    && (forall lt :: lt in c.closedSeen ==> 0 < lt <= hi && lt <= c.lastCommittedLT)
    && c.openLT <= hi
    && (s.open.Some? ==> c.openLT != s.open.value.lt && s.open.value.lt > c.lastCommittedLT)
    && (forall m :: m in s.closed && m.nodes == [] ==> c.openLT != m.lt)
  }

  lemma {:induction false} AfterIs(ms: seq<Message>, since: int, k: nat)
    requires k <= |ms| && forall i :: 0 <= i < |ms| ==> (ms[i].lt <= since <==> i < k)
    ensures After(ms, since) == ms[k..]
  {
    if ms != [] {
      var pre := ms[..|ms| - 1];
      if k < |ms| {
        AfterIs(pre, since, k);
        assert ms[k..] == pre[k..] + [ms[|ms| - 1]];
      } else {
        AfterIs(pre, since, k - 1);
      }
    }
  }

  lemma {:induction false} SnapshotsAfter(ms: seq<Message>, since: int)
    ensures |S.Snapshots(ms, since)| == |After(ms, since)|
    ensures forall i :: 0 <= i < |After(ms, since)| ==> S.Snapshots(ms, since)[i] == S.Snapshot(After(ms, since)[i])
  {
    if ms != [] {
      SnapshotsAfter(ms[..|ms| - 1], since);
    }
  }

  function Snapped(ms: seq<Message>): (cms: seq<Committed>)
    ensures |cms| == |ms|
  {
    seq(|ms|, i requires 0 <= i < |ms| => S.Snapshot(ms[i]))
  }

  /** A client after the closed messages ms of a later read: all of them taken and no desync, or
      a desync because one of them has no nodes. */
  ghost predicate Resumed(f: C.Fold, c: C.State, ms: seq<Message>) {
    && f.c.closed == c.closed && f.c.closedFloor == 0 && f.c.closedLimit == 0
    && (f.c.openLT == c.openLT || f.c.openLT == 0) && f.c.lastCommittedLT >= c.lastCommittedLT
    && f.c.closedSeen <= c.closedSeen + C.LTs(ms)
    && (f.desync == -1 <==> forall m :: m in ms ==> m.nodes != [])
    && (f.desync == -1 ==> f.finalized == ms)
  }

  /** One entry more of the read. */
  lemma {:induction false} ResumedOne(f: C.Fold, c: C.State, ms: seq<Message>, m: Message)
    requires Resumed(f, c, ms) && c.lastCommittedLT >= 0 && m.lt > 0 && f.desync >= -1
    requires m.lt !in c.closedSeen && (forall x :: x in ms ==> x.lt != m.lt) && (m.nodes == [] ==> c.openLT != m.lt)
    ensures Resumed(C.TakeCommitted(f, S.Snapshot(m)), c, ms + [m])
    ensures C.TakeCommitted(f, S.Snapshot(m)).desync >= -1
  {
    C.LTsAppend(ms, [m]);
    OneLT(m);
    NotInLTs(ms, m.lt);
    hide C.LTs;
    assert forall x :: x in ms + [m] <==> x in ms || x == m;
  }

  lemma {:induction false} ResumedAll(c: C.State, ms: seq<Message>)
    requires c.closedFloor == 0 && c.closedLimit == 0 && c.lastCommittedLT >= 0
    requires forall m :: m in ms ==> 0 < m.lt && m.lt !in c.closedSeen && (m.nodes == [] ==> c.openLT != m.lt)
    requires forall i, j :: 0 <= i < j < |ms| ==> ms[i].lt != ms[j].lt
    ensures Resumed(C.TakeAll(C.Fold(c, [], -1), Snapped(ms)), c, ms)
    ensures C.TakeAll(C.Fold(c, [], -1), Snapped(ms)).desync >= -1
    decreases |ms|
  {
    hide C.TakeCommitted, C.LTs, Resumed;
    if ms != [] {
      var pre, m := ms[..|ms| - 1], ms[|ms| - 1];
      assert ms == pre + [m] && m in ms;
      assert forall x :: x in pre ==> x in ms;
      ResumedAll(c, pre);
      assert Snapped(ms) == Snapped(pre) + [S.Snapshot(m)];
      TakeLast(C.Fold(c, [], -1), Snapped(pre), S.Snapshot(m));
      DistinctLast(pre, m);
      ResumedOne(C.TakeAll(C.Fold(c, [], -1), Snapped(pre)), c, pre, m);
    } else {
      ResumedNone(c);
    }
  }

  lemma ResumedNone(c: C.State)
    requires c.closedFloor == 0 && c.closedLimit == 0
    ensures Resumed(C.Fold(c, [], -1), c, [])
  {
  }

  lemma DistinctLast(pre: seq<Message>, m: Message)
    requires forall i, j :: 0 <= i < j < |pre + [m]| ==> (pre + [m])[i].lt != (pre + [m])[j].lt
    ensures forall x :: x in pre ==> x.lt != m.lt
  {
    forall x | x in pre ensures x.lt != m.lt {
      var i :| 0 <= i < |pre| && pre[i] == x;
      assert (pre + [m])[i] == x && (pre + [m])[|pre|] == m;
    }
  }

  /** The committed half of a resume. */
  lemma {:induction false} ClosedResumed(s: S.State, c: C.State, k: nat, hi: int) returns (f: C.Fold)
    requires Behind(s, c, k, hi)
    ensures Resumed(f, c, s.closed[k..])
    ensures var p := S.ReadPage(s, c.lastCommittedLT);
            var c1 := f.c.(closed := c.closed + f.finalized);
            C.Applied(c, p) == (if p.live.Some? then C.TakeLive(c1, p.live.value) else c1) && C.Desync(c, p) == f.desync
  {
    hide C.TakeLive, S.Snapshots, S.FullSets, C.TakeAll, C.LTs, C.Applied, C.Desync, Resumed, Wire;
    var ms, p := s.closed[k..], S.ReadPage(s, c.lastCommittedLT);
    AfterIs(s.closed, c.lastCommittedLT, k);
    SnapshotsAfter(s.closed, c.lastCommittedLT);
    assert p.committed == Snapped(ms);
    NotHeardOf(s, c, k, hi);
    ResumedAll(c, ms);
    f := C.TakeAll(C.Fold(c, [], -1), p.committed);
    AppliedPage(c, p, ms);
  }

  lemma {:induction false} NotHeardOf(s: S.State, c: C.State, k: nat, hi: int)
    requires Behind(s, c, k, hi)
    ensures var ms := s.closed[k..];
            && (forall m :: m in ms ==> 0 < m.lt && m.lt !in c.closedSeen && (m.nodes == [] ==> c.openLT != m.lt))
            && (forall i, j :: 0 <= i < j < |ms| ==> ms[i].lt != ms[j].lt)
  {
    var ms := s.closed[k..];
    forall m | m in ms ensures 0 < m.lt && m.lt !in c.closedSeen && (m.nodes == [] ==> c.openLT != m.lt) {
      var i :| k <= i < |s.closed| && s.closed[i] == m;
      assert m in s.closed;
    }
  }

  lemma AppliedPage(c: C.State, p: AriaRead, ms: seq<Message>)
    requires Resumed(C.TakeAll(C.Fold(c, [], -1), p.committed), c, ms)
    ensures var f := C.TakeAll(C.Fold(c, [], -1), p.committed);
            var c1 := f.c.(closed := c.closed + f.finalized);
            C.Applied(c, p) == (if p.live.Some? then C.TakeLive(c1, p.live.value) else c1) && C.Desync(c, p) == f.desync
  {
    hide C.TakeLive, C.TakeAll, C.LTs;
  }

  /** What the client does after a desync: it reads again from its resume cursor. If it does not
      hold the open message, that puts it in step again if and only if no message was closed
      without nodes in the meantime; otherwise it is told to resume from the same read again. */
  lemma {:induction false} ResumeSyncedIff(s: S.State, c: C.State, k: nat, hi: int)
    requires Behind(s, c, k, hi)
    ensures var p := S.ReadPage(s, c.lastCommittedLT);
            && (C.Desync(c, p) == -1 <==> forall m :: m in s.closed ==> m.nodes != [])
            && (C.Desync(c, p) == -1 <==> Synced(s, C.Applied(c, p), hi))
  {
    hide C.TakeLive, S.Snapshots, S.FullSets, C.Applied, C.Desync, C.LTs, TableOk;
    var f := ClosedResumed(s, c, k, hi);
    var ms := s.closed[k..];
    assert s.closed == s.closed[..k] + ms;
    assert forall m :: m in s.closed <==> m in s.closed[..k] || m in ms;
    if f.desync == -1 {
      var c1 := f.c.(closed := c.closed + ms);
      WireAppend(s.closed[..k], ms);
      WireAppend(c.closed, ms);
      SeenOk(s, c, ms, hi);
      if s.open.Some? && s.open.value.order != [] {
        LiveJoined(s.open.value, c1);
      }
    }
  }

  /** From there on it stays in step, whatever follows. */
  lemma {:induction false} ResumeConverges(s: S.State, c: C.State, k: nat, hi: int, ops: seq<S.Op>)
    requires Behind(s, c, k, hi) && (forall m :: m in s.closed ==> m.nodes != []) && Legal(s, ops, hi)
    ensures var c' := C.Applied(c, S.ReadPage(s, c.lastCommittedLT));
            Synced(Run(s, ops), Follow(s, ops, c'), HighAfter(ops, hi)) && NeverDesyncs(s, ops, c')
  {
    hide Behind, C.Applied, S.ReadPage;
    ResumeSyncedIff(s, c, k, hi);
    RunSynced(s, ops, C.Applied(c, S.ReadPage(s, c.lastCommittedLT)), hi);
  }

  /** Nothing the client has heard of is beyond hi, or is the open message. */
  lemma {:induction false} SeenOk(s: S.State, c: C.State, ms: seq<Message>, hi: int)
    requires ServerOrdered(s, hi) && forall m :: m in ms ==> m in s.closed
    ensures forall lt :: lt in C.LTs(ms) ==> 0 < lt <= hi && (s.open.Some? ==> lt != s.open.value.lt)
  {
    forall lt | lt in C.LTs(ms) ensures 0 < lt <= hi && (s.open.Some? ==> lt != s.open.value.lt) {
      var i :| 0 <= i < |ms| && ms[i].lt == lt;
      assert ms[i] in ms;
    }
  }

  lemma {:induction false} RunSplits(s: S.State, ops: seq<S.Op>, j: nat, hi: int)
    requires j <= |ops| && Legal(s, ops, hi)
    ensures Legal(s, ops[..j], hi)
    ensures Legal(Run(s, ops[..j]), ops[j..], HighAfter(ops[..j], hi))
    ensures Run(s, ops) == Run(Run(s, ops[..j]), ops[j..])
    decreases |ops|
  {
    hide S.Next, EmptyClose;
    if j > 0 {
      assert ops[..j][1..] == ops[1..][..j - 1];
      assert ops[1..][j - 1..] == ops[j..];
      RunSplits(S.Next(s, ops[0]), ops[1..], j - 1, HighLT(ops[0], hi));
    } else {
      assert ops[..0] == [] && ops[0..] == ops;
    }
  }

  /** Replication converges. Take any run of the server with rising LTs and no empty
      close; a client that reads once after the first j operations (nothing, if j is 0)
      and then applies every later page never falls out of step, and ends with the
      server's closed messages and, once a frame of it was sent, its open message. */
  lemma {:induction false} ReplicationConverges(ops: seq<S.Op>, j: nat)
    requires Legal(S.EMPTY, ops, 0) && j <= |ops|
    ensures var joined := Run(S.EMPTY, ops[..j]);
            var c := C.Applied(C.Fresh(0), S.ReadPage(joined, 0));
            && Synced(Run(S.EMPTY, ops), Follow(joined, ops[j..], c), HighAfter(ops[j..], HighAfter(ops[..j], 0)))
            && NeverDesyncs(joined, ops[j..], c)
  {
    hide S.ReadPage, C.Applied;
    assert Synced(S.EMPTY, C.Fresh(0), 0);
    RunSplits(S.EMPTY, ops, j, 0);
    RunSynced(S.EMPTY, ops[..j], C.Fresh(0), 0);
    var joined := Run(S.EMPTY, ops[..j]);
    JoinSynced(joined, HighAfter(ops[..j], 0));
    RunSynced(joined, ops[j..], C.Applied(C.Fresh(0), S.ReadPage(joined, 0)), HighAfter(ops[..j], 0));
  }
}
