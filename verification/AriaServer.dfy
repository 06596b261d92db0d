/** The authoritative side, internal/livelog/aria/server.go: closed messages plus at most
    one open message. A method returns the page it pushes to its subscribers. */
module AriaServer {
  import opened Utf8
  import opened Aria

  datatype OpenMsg = OpenMsg(lt: int, role: bytes, order: seq<bytes>, block: map<bytes, Node>, ver: nat)

  datatype State = State(closed: seq<Message>, open: Option<OpenMsg>)

  const EMPTY := State([], None)

  // ----- Update, as a function

  datatype Fold = Fold(order: seq<bytes>, block: map<bytes, Node>, deltas: seq<NodeDelta>)

  function Lookup(block: map<bytes, Node>, id: bytes): Option<Node> {
    if id in block then Some(block[id]) else None
  }

  function Absorb(f: Fold, i: nat, n: Node): Fold {
    var id := BlockId(i, n);
    var was := Lookup(f.block, id);
    var d := DeltaOf(id, was, n);
    Fold(if was.None? then f.order + [id] else f.order,
         f.block[id := n],
         if d.Empty() then f.deltas else f.deltas + [d])
  }

  /** The block table after the first k nodes of an update, and the deltas they gave. */
  function AbsorbAll(o: OpenMsg, nodes: seq<Node>, k: nat): Fold
    requires k <= |nodes|
  {
    if k == 0 then Fold(o.order, o.block, []) else Absorb(AbsorbAll(o, nodes, k - 1), k - 1, nodes[k - 1])
  }

  function Updated(o: OpenMsg, nodes: seq<Node>): OpenMsg {
    var f := AbsorbAll(o, nodes, |nodes|);
    o.(order := f.order, block := f.block, ver := if f.deltas == [] then o.ver else o.ver + 1)
  }

  function UpdatePage(o: OpenMsg, nodes: seq<Node>): Option<AriaRead> {
    var f := AbsorbAll(o, nodes, |nodes|);
    if f.deltas == [] then None
    else Some(AriaRead([], Some(Live(o.lt, o.ver, if o.ver == 0 then o.role else [], f.deltas))))
  }

  // ----- Close and Read, as functions

  /** The blocks in order; a missing block reads as the zero node. */
  function Ordered(order: seq<bytes>, block: map<bytes, Node>): (ns: seq<Node>)
    ensures |ns| == |order|
  {
    seq(|order|, i requires 0 <= i < |order| => if order[i] in block then block[order[i]] else BLANK)
  }

  function LastVersion(o: OpenMsg): nat { if o.ver == 0 then 0 else o.ver - 1 }

  function Sealed(o: OpenMsg): Message { Message(o.lt, o.role, Ordered(o.order, o.block)) }

  function Snapshot(m: Message): Committed { Committed(m.lt, 0, m.role, m.nodes) }

  function Marker(o: OpenMsg): Committed { Committed(o.lt, LastVersion(o), [], []) }

  function Snapshots(ms: seq<Message>, since: int): seq<Committed> {
    if ms == [] then []
    else Snapshots(ms[..|ms| - 1], since) + (if ms[|ms| - 1].lt <= since then [] else [Snapshot(ms[|ms| - 1])])
  }

  function FullSets(order: seq<bytes>, block: map<bytes, Node>, k: nat): seq<NodeDelta>
    requires k <= |order|
  {
    if k == 0 then []
    else FullSets(order, block, k - 1)
         + [FullSet(order[k - 1], if order[k - 1] in block then block[order[k - 1]] else BLANK)]
  }

  function ReadPage(s: State, since: int): AriaRead {
    AriaRead(Snapshots(s.closed, since),
             if s.open.Some? && s.open.value.order != [] then
               var o := s.open.value;
               Some(Live(o.lt, LastVersion(o), o.role, FullSets(o.order, o.block, |o.order|)))
             else None)
  }

  // ----- One step of the server

  datatype Op = Open(lt: int, role: bytes) | Update(nodes: seq<Node>) | Close | Abandon | Commit(m: Message)

  function Next(s: State, op: Op): State {
    match op
    case Open(lt, role) => s.(open := Some(OpenMsg(lt, role, [], map[], 0)))
    case Update(nodes) => if s.open.None? then s else s.(open := Some(Updated(s.open.value, nodes)))
    case Close => if s.open.None? then s else State(s.closed + [Sealed(s.open.value)], None)
    case Abandon => s.(open := None)
    case Commit(m) => s.(closed := s.closed + [m])
  }

  function Page(s: State, op: Op): Option<AriaRead> {
    match op
    case Open(_, _) => None
    case Update(nodes) => if s.open.None? then None else UpdatePage(s.open.value, nodes)
    case Close => if s.open.None? then None else Some(AriaRead([Marker(s.open.value)], None))
    case Abandon => None
    case Commit(m) => Some(AriaRead([Snapshot(m)], None))
  }

  class Server {
    var closed: seq<Message>
    var open: Option<OpenMsg>

    function Now(): State reads this { State(closed, open) }

    constructor ()
      ensures Now() == EMPTY
    {
      closed, open := [], None;
    }

    method Open(lt: int, role: bytes)
      modifies this
      ensures Now() == Next(old(Now()), Op.Open(lt, role))
    {
      open := Some(OpenMsg(lt, role, [], map[], 0));
    }

    method Update(nodes: seq<Node>) returns (page: Option<AriaRead>)
      modifies this
      ensures Now() == Next(old(Now()), Op.Update(nodes))
      ensures page == Page(old(Now()), Op.Update(nodes))
    {
      if open == None {
        return None;
      }
      var o := open.value;
      var order, block := o.order, o.block;
      var deltas: seq<NodeDelta> := [];
      for i := 0 to |nodes|
        invariant Fold(order, block, deltas) == AbsorbAll(o, nodes, i)
      {
        var n := nodes[i];
        var id := BlockId(i, n);
        var was := Lookup(block, id);
        var d := DeltaOf(id, was, n);
        if !d.Empty() {
          deltas := deltas + [d];
        }
        if was.None? {
          order := order + [id];
        }
        block := block[id := n];
      }
      if deltas == [] {
        open := Some(o.(order := order, block := block));
        return None;
      }
      var v := o.ver;
      var role := [];
      if v == 0 {
        role := o.role;
      }
      open := Some(o.(order := order, block := block, ver := v + 1));
      return Some(AriaRead([], Some(Live(o.lt, v, role, deltas))));
    }

    method Close() returns (page: Option<AriaRead>)
      modifies this
      ensures Now() == Next(old(Now()), Op.Close)
      ensures page == Page(old(Now()), Op.Close)
    {
      if open == None {
        return None;
      }
      var o := open.value;
      var nodes: seq<Node> := [];
      for i := 0 to |o.order|
        invariant nodes == Ordered(o.order, o.block)[..i]
      {
        nodes := nodes + [if o.order[i] in o.block then o.block[o.order[i]] else BLANK];
      }
      assert nodes == Ordered(o.order, o.block);
      var lastV := o.ver - 1;
      if lastV < 0 {
        lastV := 0;
      }
      closed := closed + [Message(o.lt, o.role, nodes)];
      open := None;
      return Some(AriaRead([Committed(o.lt, lastV, [], [])], None));
    }

    method Abandon()
      modifies this
      ensures Now() == Next(old(Now()), Op.Abandon)
    {
      open := None;
    }

    method Commit(m: Message) returns (page: Option<AriaRead>)
      modifies this
      ensures Now() == Next(old(Now()), Op.Commit(m))
      ensures page == Page(old(Now()), Op.Commit(m))
    {
      closed := closed + [m];
      return Some(AriaRead([Committed(m.lt, 0, m.role, m.nodes)], None));
    }

    method Read(since: int) returns (page: AriaRead)
      ensures page == ReadPage(Now(), since)
    {
      hide FullSet;
      var committed: seq<Committed> := [];
      for i := 0 to |closed|
        invariant committed == Snapshots(closed[..i], since)
      {
        assert closed[..i + 1][..i] == closed[..i];
        if closed[i].lt > since {
          committed := committed + [Committed(closed[i].lt, 0, closed[i].role, closed[i].nodes)];
        }
      }
      assert closed[..|closed|] == closed;
      if open != None && |open.value.order| > 0 {
        var o := open.value;
        var deltas: seq<NodeDelta> := [];
        for i := 0 to |o.order|
          invariant deltas == FullSets(o.order, o.block, i)
        {
          deltas := deltas + [FullSet(o.order[i], if o.order[i] in o.block then o.block[o.order[i]] else BLANK)];
        }
        var v := o.ver - 1;
        if v < 0 {
          v := 0;
        }
        return AriaRead(committed, Some(Live(o.lt, v, o.role, deltas)));
      }
      return AriaRead(committed, None);
    }
  }
}
