/** The live view of a turn, internal/compose/compose.go: one node for each visible block
    of the turn's messages, in order. */
module Compose {
  import opened Message
  import opened Utf8
  import Aria
  import AriaServer
  import Turn
  import ToolText
  import Governor

  /** A node is named by its place in the log, or by its tool call. */
  datatype NodeId = At(lt: nat, block: nat) | Call(id: string)

  datatype Timing = Timing(startedAt: int, finishedAt: int)

  datatype Kind =
    | ProseNode | ThinkingNode | SteeringNode
    | ToolNode(name: string, args: Option<Args>, summary: string, status: ToolStatus, output: string, timing: Timing)

  datatype ToolStatus = Running | Ok | Error

  datatype Node = Node(id: NodeId, kind: Kind, markdown: string)

  /** What is known about the tools beside their calls: results, output so far, timings, how a
      call is summed up, and what the arguments that are still streaming show of it. */
  datatype Known = Known(
    done: map<string, Content>, partials: map<string, string>, timings: map<string, Timing>,
    summary: (string, Option<Args>) -> string, preview: (string, string) -> string)

  const NOTHING := Known(map[], map[], map[], (_, _) => "", (_, _) => "")

  /** strings.TrimRight(s, newline). */
  function Trimmed(s: string): (t: string)
    ensures t <= s && (t != [] ==> t[|t| - 1] != '\n') && forall i :: |t| <= i < |s| ==> s[i] == '\n'
  {
    if s != [] && s[|s| - 1] == '\n' then Trimmed(s[..|s| - 1]) else s
  }

  predicate Blank(s: string) { forall c | c in s :: ToolText.IsSpace(c) }

  predicate HasToolResult(m: Message) { exists c | c in m.content :: c.Result? }

  /** indexResults: the last result for each call id. */
  function ResultsIn(cs: seq<Content>, before: map<string, Content>): map<string, Content> {
    if cs == [] then before
    else
      var rest := ResultsIn(cs[..|cs| - 1], before);
      var c := cs[|cs| - 1];
      if c.Result? && c.id != "" then rest[c.id := c] else rest
  }

  function ResultsOf(es: seq<Entry>): map<string, Content> {
    if es == [] then map[] else ResultsIn(es[|es| - 1].msg.content, ResultsOf(es[..|es| - 1]))
  }

  const BashCap := 200

  /** tailBound. */
  function TailBound(text: string): string { if text == "" then "" else ToolText.LastLines(Trimmed(text), BashCap) }

  /** A tool's status: running until there is a result. */
  function StatusOf(id: string, known: Known): ToolStatus {
    if id !in known.done then Running
    else if known.done[id].Result? && known.done[id].isErr then Error
    else Ok
  }

  /** Its output: the result, or what streamed, or what its arguments show as yet. */
  function OutputOf(id: string, name: string, known: Known): string {
    if id in known.done then (if known.done[id].Result? then TailBound(known.done[id].text) else "")
    else
      var streamed := TailBound(if id in known.partials then known.partials[id] else "");
      if streamed == "" then TailBound(known.preview(name, id)) else streamed
  }

  /** toolNode. */
  function ToolNodeOf(id: string, name: string, args: Option<Args>, known: Known): Node {
    var shown := if name == "" then "tool" else name;
    var timing := if id in known.timings then known.timings[id] else Timing(0, 0);
    Node(Call(id),
         ToolNode(shown, args, known.summary(shown, args), StatusOf(id, known), OutputOf(id, shown, known), timing),
         "")
  }

  /** A tool's output is bounded, whatever it wrote or returned. */
  lemma {:induction false} OutputIsBounded(id: string, name: string, known: Known)
    ensures Governor.Newlines(OutputOf(id, name, known)) < BashCap
  {
    hide Governor.Newlines, ToolText.LastLines, Trimmed;
    NoNewlines();
    forall text: string ensures Governor.Newlines(TailBound(text)) < BashCap {
      ToolText.LastLinesIs(Trimmed(text), BashCap);
    }
  }

  lemma NoNewlines()
    ensures Governor.Newlines("") == 0
  {
  }

  /** The nodes of block i of a message. */
  function BlockNode(m: Message, lt: nat, i: nat, c: Content, known: Known): seq<Node> {
    match m.role
    case Assistant =>
      (match c
       case Prose(text) => if Blank(text) then [] else [Node(At(lt, i), ProseNode, Trimmed(text))]
       case Thinking(text) => if Blank(text) then [] else [Node(At(lt, i), ThinkingNode, Trimmed(text))]
       case Invoke(id, name, args) => [ToolNodeOf(id, name, args, known)]
       case _ => [])
    case User =>
      if HasToolResult(m) && c.Prose? && !Blank(c.text) then [Node(At(lt, i), SteeringNode, Trimmed(c.text))] else []
    case _ => []
  }

  function MessageNodes(e: Entry, k: nat, known: Known): seq<Node>
    requires k <= |e.msg.content|
  {
    if k == 0 then []
    else MessageNodes(e, k - 1, known) + BlockNode(e.msg, e.lt, k - 1, e.msg.content[k - 1], known)
  }

  function NodesOf(es: seq<Entry>, known: Known): seq<Node> {
    if es == [] then []
    else NodesOf(es[..|es| - 1], known) + MessageNodes(es[|es| - 1], |es[|es| - 1].msg.content|, known)
  }

  method IndexResults(es: seq<Entry>) returns (out: map<string, Content>)
    ensures out == ResultsOf(es)
  {
    out := map[];
    for i := 0 to |es|
      invariant out == ResultsOf(es[..i])
    {
      var cs := es[i].msg.content;
      assert es[..i + 1][..i] == es[..i];
      for j := 0 to |cs|
        invariant out == ResultsIn(cs[..j], ResultsOf(es[..i]))
      {
        assert cs[..j + 1][..j] == cs[..j];
        if cs[j].Result? && cs[j].id != "" {
          out := out[cs[j].id := cs[j]];
        }
      }
      assert cs[..|cs|] == cs;
    }
    assert es[..|es|] == es;
  }

  method Nodes(es: seq<Entry>, about: Known) returns (nodes: seq<Node>)
    ensures nodes == NodesOf(es, about.(done := ResultsOf(es)))
  {
    hide Blank, Trimmed, ResultsOf, ToolNodeOf, HasToolResult;
    var results := IndexResults(es);
    var known := about.(done := results);
    nodes := [];
    for i := 0 to |es|
      invariant nodes == NodesOf(es[..i], known)
    {
      assert es[..i + 1][..i] == es[..i];
      var m := es[i].msg;
      ghost var before := nodes;
      for j := 0 to |m.content|
        invariant nodes == before + MessageNodes(es[i], j, known)
      {
        ghost var was := nodes;
        match m.content[j] {
          case Prose(text) =>
            if m.role.User? && HasToolResult(m) && !Blank(text) {
              nodes := nodes + [Node(At(es[i].lt, j), SteeringNode, Trimmed(text))];
            } else if m.role.Assistant? && !Blank(text) {
              nodes := nodes + [Node(At(es[i].lt, j), ProseNode, Trimmed(text))];
            }
          case Thinking(text) =>
            if m.role.Assistant? && !Blank(text) {
              nodes := nodes + [Node(At(es[i].lt, j), ThinkingNode, Trimmed(text))];
            }
          case Invoke(id, name, args) =>
            if m.role.Assistant? {
              nodes := nodes + [ToolNodeOf(id, name, args, known)];
            }
          case _ =>
        }
        assert nodes == was + BlockNode(m, es[i].lt, j, m.content[j], known);
      }
    }
    assert es[..|es|] == es;
  }

  // ----- The ids of the view

  function IdsOf(ns: seq<Node>): (ids: seq<NodeId>)
    ensures |ids| == |ns|
  {
    seq(|ns|, i requires 0 <= i < |ns| => ns[i].id)
  }

  lemma IdsOfAppend(a: seq<Node>, b: seq<Node>)
    ensures IdsOf(a + b) == IdsOf(a) + IdsOf(b)
  {
  }

  /** The ids do not depend on what the tools have returned. */
  lemma {:induction false} MessageIdsFixed(e: Entry, k: nat, r: Known, q: Known)
    requires k <= |e.msg.content|
    ensures IdsOf(MessageNodes(e, k, r)) == IdsOf(MessageNodes(e, k, q))
  {
    if k > 0 {
      MessageIdsFixed(e, k - 1, r, q);
      var c := e.msg.content[k - 1];
      IdsOfAppend(MessageNodes(e, k - 1, r), BlockNode(e.msg, e.lt, k - 1, c, r));
      IdsOfAppend(MessageNodes(e, k - 1, q), BlockNode(e.msg, e.lt, k - 1, c, q));
      assert IdsOf(BlockNode(e.msg, e.lt, k - 1, c, r)) == IdsOf(BlockNode(e.msg, e.lt, k - 1, c, q));
    }
  }

  lemma {:induction false} IdsFixed(es: seq<Entry>, r: Known, q: Known)
    ensures IdsOf(NodesOf(es, r)) == IdsOf(NodesOf(es, q))
  {
    if es != [] {
      var pre, e := es[..|es| - 1], es[|es| - 1];
      IdsFixed(pre, r, q);
      MessageIdsFixed(e, |e.msg.content|, r, q);
      IdsOfAppend(NodesOf(pre, r), MessageNodes(e, |e.msg.content|, r));
      IdsOfAppend(NodesOf(pre, q), MessageNodes(e, |e.msg.content|, q));
    }
  }

  function ViewIds(es: seq<Entry>): seq<NodeId> { IdsOf(NodesOf(es, NOTHING)) }

  lemma {:induction false} NodesHaveViewIds(es: seq<Entry>, about: Known)
    ensures IdsOf(NodesOf(es, about.(done := ResultsOf(es)))) == ViewIds(es)
  {
    IdsFixed(es, about.(done := ResultsOf(es)), NOTHING);
  }

  function MessageIds(e: Entry): seq<NodeId> { IdsOf(MessageNodes(e, |e.msg.content|, NOTHING)) }

  lemma ViewIdsLast(es: seq<Entry>, e: Entry)
    ensures ViewIds(es + [e]) == ViewIds(es) + MessageIds(e)
  {
    assert (es + [e])[..|es|] == es;
    IdsOfAppend(NodesOf(es, NOTHING), MessageNodes(e, |e.msg.content|, NOTHING));
  }

  // ----- Streaming only adds at the tail

  function Inflight(lt: nat, a: Asm): Entry { Entry(lt, Message(Assistant, a.content)) }

  /** The ids of block i. */
  function BlockIds(m: Message, lt: nat, i: nat, c: Content): seq<NodeId> { IdsOf(BlockNode(m, lt, i, c, NOTHING)) }

  function PrefixIds(e: Entry, k: nat): seq<NodeId>
    requires k <= |e.msg.content|
  {
    IdsOf(MessageNodes(e, k, NOTHING))
  }

  lemma PrefixIdsLast(e: Entry, k: nat)
    requires 0 < k <= |e.msg.content|
    ensures PrefixIds(e, k) == PrefixIds(e, k - 1) + BlockIds(e.msg, e.lt, k - 1, e.msg.content[k - 1])
  {
    IdsOfAppend(MessageNodes(e, k - 1, NOTHING), BlockNode(e.msg, e.lt, k - 1, e.msg.content[k - 1], NOTHING));
  }

  lemma {:induction false} SamePrefixIds(e: Entry, f: Entry, k: nat)
    requires e.lt == f.lt && k <= |e.msg.content| && k <= |f.msg.content|
    requires (forall i :: 0 <= i < k ==>
              BlockIds(e.msg, e.lt, i, e.msg.content[i]) == BlockIds(f.msg, f.lt, i, f.msg.content[i]))
    ensures PrefixIds(e, k) == PrefixIds(f, k)
  {
    hide PrefixIds, BlockIds;
    if k > 0 {
      SamePrefixIds(e, f, k - 1);
      PrefixIdsLast(e, k);
      PrefixIdsLast(f, k);
    } else {
      NoPrefixIds(e);
      NoPrefixIds(f);
    }
  }

  lemma NoPrefixIds(e: Entry)
    ensures PrefixIds(e, 0) == []
  {
  }

  /** One event changes at most what a block holds, never its place; a blank one may appear. */
  lemma {:induction false} BlockGrows(lt: nat, a: Asm, ev: BusEvent, i: nat)
    requires IndexOk(a) && i < |a.content|
    ensures |a.content| <= |Assemble(a, ev).content|
    ensures var b := Assemble(a, ev);
            var m, m' := Message(Assistant, a.content), Message(Assistant, b.content);
            && BlockIds(m, lt, i, a.content[i]) <= BlockIds(m', lt, i, b.content[i])
            && (i < |a.content| - 1 ==> BlockIds(m, lt, i, a.content[i]) == BlockIds(m', lt, i, b.content[i]))
  {
    hide Blank;
    if ev.Delta? && ev.text != "" && IsKind(a.content[i], ev.kind) {
      BlankGrows(a.content[i].text, ev.text);
    }
  }

  /** One stream event leaves the ids that are shown where they are; new ones go last. */
  lemma {:induction false} StreamGrowsAtTail(lt: nat, a: Asm, ev: BusEvent)
    requires IndexOk(a)
    ensures MessageIds(Inflight(lt, a)) <= MessageIds(Inflight(lt, Assemble(a, ev)))
  {
    hide BlockIds, PrefixIds, Assemble;
    var b := Assemble(a, ev);
    var e, f := Inflight(lt, a), Inflight(lt, b);
    var n := |a.content|;
    if n == 0 {
      NoPrefixIds(e);
      assert MessageIds(e) == PrefixIds(e, 0) by { MessageIdsArePrefix(e); }
      return;
    }
    BlockGrows(lt, a, ev, n - 1);
    forall i | 0 <= i < n - 1
      ensures BlockIds(e.msg, lt, i, e.msg.content[i]) == BlockIds(f.msg, lt, i, f.msg.content[i])
    {
      BlockGrows(lt, a, ev, i);
    }
    SamePrefixIds(e, f, n - 1);
    PrefixIdsLast(e, n);
    PrefixIdsLast(f, n);
    MorePrefix(f, n, |b.content|);
    MessageIdsArePrefix(e);
    MessageIdsArePrefix(f);
  }

  lemma MessageIdsArePrefix(e: Entry)
    ensures MessageIds(e) == PrefixIds(e, |e.msg.content|)
  {
  }

  lemma {:induction false} MorePrefix(e: Entry, k: nat, n: nat)
    requires k <= n <= |e.msg.content|
    ensures PrefixIds(e, k) <= PrefixIds(e, n)
    decreases n - k
  {
    hide PrefixIds, BlockIds;
    if k < n {
      MorePrefix(e, k, n - 1);
      PrefixIdsLast(e, n);
    }
  }

  lemma BlankGrows(s: string, t: string)
    ensures Blank(s + t) ==> Blank(s)
  {
    if Blank(s + t) {
      forall c | c in s ensures ToolText.IsSpace(c) {
        assert c in s + t;
      }
    }
  }

  // ----- The view of a turn

  /** The messages since the prompt at start, and the one that is still streaming. */
  datatype TurnView = TurnView(start: nat, es: seq<Entry>, inflight: Option<Asm>)

  predicate TailSealed(es: seq<Entry>) { es != [] && es[|es| - 1].msg.role.Assistant? }

  /** The log time the next message will get. */
  function NextLT(v: TurnView): nat { if v.es == [] then v.start + 1 else v.es[|v.es| - 1].lt + 1 }

  /** composeTurn: the in-flight message joins under the time it will be sealed at, unless
      its sealed copy is already there. */
  function Window(v: TurnView): seq<Entry> {
    if v.inflight.None? || TailSealed(v.es) then v.es
    else v.es + [Inflight(NextLT(v), v.inflight.value)]
  }

  function View(v: TurnView): seq<NodeId> { ViewIds(Window(v)) }

  /** Mark is a prompt without text: it is logged but shows nothing. */
  datatype ViewStep = Stream(ev: BusEvent) | Seal | Answer(results: seq<Content>) | Mark | NextRound

  predicate Enabled(v: TurnView, s: ViewStep) {
    match s
    case Stream(_) => v.inflight.Some? && IndexOk(v.inflight.value) && !TailSealed(v.es)
    case Seal => v.inflight.Some? && !TailSealed(v.es)
    case Answer(results) => TailSealed(v.es) && forall c | c in results :: c.Result?
    case Mark => !TailSealed(v.es) && v.inflight.None?
    case NextRound => !TailSealed(v.es) && v.inflight.None?
  }

  function Next(v: TurnView, s: ViewStep): TurnView
    requires Enabled(v, s)
  {
    match s
    case Stream(ev) => v.(inflight := Some(Assemble(v.inflight.value, ev)))
    case Seal => v.(es := v.es + [Inflight(NextLT(v), v.inflight.value)], inflight := None)
    case Answer(results) => v.(es := v.es + [Entry(NextLT(v), Message(User, results))], inflight := None)
    case Mark => v.(es := v.es + [Entry(NextLT(v), Message(User, []))])
    case NextRound => v.(inflight := Some(EMPTY))
  }

  lemma {:induction false} ResultsShowNothing(e: Entry, k: nat)
    requires k <= |e.msg.content| && e.msg.role.User? && forall c :: c in e.msg.content ==> c.Result?
    ensures MessageNodes(e, k, NOTHING) == []
  {
    hide Blank, Trimmed, ToolNodeOf, HasToolResult;
    if k > 0 {
      ResultsShowNothing(e, k - 1);
      assert e.msg.content[k - 1] in e.msg.content;
    }
  }

  /** Streaming grows the list at its tail; sealing at the predicted time, answering and
      starting the next round leave it as it is. */
  lemma {:induction false} ViewGrows(v: TurnView, s: ViewStep)
    requires Enabled(v, s)
    ensures View(v) <= View(Next(v, s))
    ensures !s.Stream? ==> View(v) == View(Next(v, s))
  {
    hide ViewIds, Assemble;
    match s {
      case Stream(ev) =>
        var a := v.inflight.value;
        StreamGrowsAtTail(NextLT(v), a, ev);
        ViewIdsLast(v.es, Inflight(NextLT(v), a));
        ViewIdsLast(v.es, Inflight(NextLT(v), Assemble(a, ev)));
      case Seal =>
      case Answer(results) =>
        var e := Entry(NextLT(v), Message(User, results));
        ViewIdsLast(v.es, e);
        ResultsShowNothing(e, |results|);
      case Mark =>
        var e := Entry(NextLT(v), Message(User, []));
        ViewIdsLast(v.es, e);
        ResultsShowNothing(e, 0);
      case NextRound =>
        ViewIdsLast(v.es, Inflight(NextLT(v), EMPTY));
    }
  }

  /** Composing the message again after its seal changes nothing: the sealed copy wins. */
  lemma SealedCopyWins(v: TurnView)
    requires Enabled(v, Seal)
    ensures View(Next(v, Seal).(inflight := v.inflight)) == View(v)
  {
  }

  function CallCount(ids: seq<NodeId>): nat {
    if ids == [] then 0 else CallCount(ids[..|ids| - 1]) + if ids[|ids| - 1].Call? then 1 else 0
  }

  lemma {:induction false} CallCountAppend(a: seq<NodeId>, b: seq<NodeId>)
    ensures CallCount(a + b) == CallCount(a) + CallCount(b)
  {
    if b == [] {
      assert a + b == a;
    } else {
      CallCountAppend(a, b[..|b| - 1]);
      assert (a + b)[..|a + b| - 1] == a + b[..|b| - 1];
    }
  }

  /** An assistant message shows every call that it holds. */
  lemma {:induction false} CallsShown(e: Entry, k: nat)
    requires k <= |e.msg.content| && e.msg.role.Assistant?
    ensures CallCount(PrefixIds(e, k)) == |Calls(e.msg.content[..k])|
  {
    hide PrefixIds, Blank;
    if k > 0 {
      CallsShown(e, k - 1);
      PrefixIdsLast(e, k);
      assert e.msg.content[..k][..k - 1] == e.msg.content[..k - 1];
      CallCountAppend(PrefixIds(e, k - 1), BlockIds(e.msg, e.lt, k - 1, e.msg.content[k - 1]));
    } else {
      NoPrefixIds(e);
    }
  }

  /** Sealing what streamed after an interrupt drops half-streamed calls: the composed list
      stays as it was shown if and only if there are none. */
  lemma {:induction false} InterruptedSealShowsIff(v: TurnView)
    requires Enabled(v, Seal)
    ensures var m := Message(Assistant, v.inflight.value.content);
            var sealed := Entry(NextLT(v), Turn.PartialAssistant(Some(m)));
            ViewIds(v.es + [sealed]) == View(v) <==> Turn.AllComplete(m.content)
  {
    hide ViewIds, Turn.PartialAssistant, MessageIds, PrefixIds, Turn.AllComplete;
    var m := Message(Assistant, v.inflight.value.content);
    var partial := Turn.PartialAssistant(Some(m));
    var sealed, shown := Entry(NextLT(v), partial), Inflight(NextLT(v), v.inflight.value);
    ViewIdsLast(v.es, sealed);
    ViewIdsLast(v.es, shown);
    PartialDrops(m);
    MessageIdsArePrefix(sealed);
    MessageIdsArePrefix(shown);
    CallsShown(sealed, |partial.content|);
    CallsShown(shown, |m.content|);
    assert partial.content[..|partial.content|] == partial.content && m.content[..|m.content|] == m.content;
    assert View(v) == ViewIds(v.es + [shown]);
    var pre, a, b := ViewIds(v.es), MessageIds(sealed), MessageIds(shown);
    assert (pre + a)[|pre|..] == a && (pre + b)[|pre|..] == b;
    if Turn.AllComplete(m.content) {
      assert sealed == shown;
    } else {
      assert CallCount(a) != CallCount(b);
    }
  }

  lemma {:induction false} PartialDrops(m: Message)
    ensures var partial := Turn.PartialAssistant(Some(m));
            && partial.role.Assistant?
            && (if Turn.AllComplete(m.content) then partial.content == m.content
                else |Calls(partial.content)| < |Calls(m.content)|)
  {
    var partial := Turn.PartialAssistant(Some(m));
    Turn.CallsLength(m.content);
    Turn.KeptComplete(m.content);
    Turn.ToolsMatchCalls(partial.content);
    assert |Turn.ToolIds(Turn.ToolsOf(partial.content))| == |Ids(Calls(partial.content))|;
    if Turn.AllComplete(m.content) {
      Turn.KeptAll(m.content);
    }
  }

  predicate RunOk(v: TurnView, ss: seq<ViewStep>)
    decreases |ss|
  {
    ss == [] || (Enabled(v, ss[0]) && RunOk(Next(v, ss[0]), ss[1..]))
  }

  function Run(v: TurnView, ss: seq<ViewStep>): TurnView
    requires RunOk(v, ss)
    decreases |ss|
  {
    if ss == [] then v else Run(Next(v, ss[0]), ss[1..])
  }

  /** Over a whole turn nothing that is shown is removed or moved. */
  lemma {:induction false} RunGrows(v: TurnView, ss: seq<ViewStep>)
    requires RunOk(v, ss)
    ensures View(v) <= View(Run(v, ss))
    decreases |ss|
  {
    hide View, Next;
    if ss != [] {
      ViewGrows(v, ss[0]);
      RunGrows(Next(v, ss[0]), ss[1..]);
    }
  }

  // ----- The server's copy of the list

  predicate Distinct<T(==)>(xs: seq<T>) { forall i, j | 0 <= i < j < |xs| :: xs[i] != xs[j] }

  /** Every call in the turn. */
  function CallsIn(es: seq<Entry>): seq<string> {
    if es == [] then [] else CallsIn(es[..|es| - 1]) + CallIds(es[|es| - 1].msg)
  }

  predicate Rising(es: seq<Entry>) { forall i, j | 0 <= i < j < |es| :: es[i].lt < es[j].lt }

  lemma DistinctAppend<T>(a: seq<T>, b: seq<T>)
    requires Distinct(a) && Distinct(b) && forall x :: x in a ==> x !in b
    ensures Distinct(a + b)
  {
    forall i, j | 0 <= i < j < |a + b| ensures (a + b)[i] != (a + b)[j] {
      if i < |a| <= j {
        assert a[i] in a && b[j - |a|] in b;
      }
    }
  }

  lemma DistinctSplit<T>(a: seq<T>, b: seq<T>)
    requires Distinct(a + b)
    ensures Distinct(a) && Distinct(b) && forall x :: x in a ==> x !in b
  {
    assert forall i :: 0 <= i < |a| ==> (a + b)[i] == a[i];
    assert forall j :: 0 <= j < |b| ==> (a + b)[|a| + j] == b[j];
  }

  lemma CallIdsLast(cs: seq<Content>, k: nat)
    requires 0 < k <= |cs|
    ensures Ids(Calls(cs[..k])) == Ids(Calls(cs[..k - 1])) + if cs[k - 1].Invoke? then [cs[k - 1].id] else []
  {
    assert cs[..k][..k - 1] == cs[..k - 1];
    if cs[k - 1].Invoke? {
      IdsAppend(Calls(cs[..k - 1]), [cs[k - 1]]);
    }
  }

  lemma BlockIdsAre(m: Message, lt: nat, i: nat, c: Content)
    ensures (var ids := BlockIds(m, lt, i, c);
             ids == [] || ids == [At(lt, i)] || (ids == [Call(c.id)] && m.role.Assistant? && c.Invoke?))
  {
    hide Blank;
  }

  /** The ids of a message: its own blocks, and its calls. */
  lemma {:induction false} MessageIdsDistinct(e: Entry, k: nat)
    requires k <= |e.msg.content|
    requires e.msg.role.Assistant? ==> Distinct(Ids(Calls(e.msg.content[..k])))
    ensures var ids := PrefixIds(e, k);
            && Distinct(ids)
            && (forall id :: id in ids && id.At? ==> id.lt == e.lt && id.block < k)
            && (forall id :: id in ids && id.Call? ==> e.msg.role.Assistant? && id.id in Ids(Calls(e.msg.content[..k])))
  {
    hide PrefixIds, BlockIds, Calls, Ids, Distinct;
    if k > 0 {
      var c := e.msg.content[k - 1];
      var calls, own := Ids(Calls(e.msg.content[..k - 1])), if c.Invoke? then [c.id] else [];
      CallIdsLast(e.msg.content, k);
      if e.msg.role.Assistant? {
        DistinctSplit(calls, own);
      }
      MessageIdsDistinct(e, k - 1);
      PrefixIdsLast(e, k);
      BlockIdsAre(e.msg, e.lt, k - 1, c);
      AtMostOne(BlockIds(e.msg, e.lt, k - 1, c));
      DistinctAppend(PrefixIds(e, k - 1), BlockIds(e.msg, e.lt, k - 1, c));
    } else {
      NoPrefixIds(e);
      AtMostOne(PrefixIds(e, 0));
    }
  }

  lemma AtMostOne<T>(s: seq<T>)
    requires |s| <= 1
    ensures Distinct(s)
  {
  }

  /** No two nodes of a turn share an id, if no two calls do. */
  lemma {:induction false} ViewDistinct(es: seq<Entry>)
    requires Rising(es) && Distinct(CallsIn(es))
    ensures Distinct(ViewIds(es))
    ensures forall id :: id in ViewIds(es) && id.At? ==> es != [] && id.lt <= es[|es| - 1].lt
    ensures forall id :: id in ViewIds(es) && id.Call? ==> id.id in CallsIn(es)
  {
    hide MessageNodes, ViewIds;
    if es != [] {
      var pre, e := es[..|es| - 1], es[|es| - 1];
      assert es == pre + [e];
      DistinctSplit(CallsIn(pre), CallIds(e.msg));
      ViewDistinct(pre);
      assert pre != [] ==> pre[|pre| - 1].lt < e.lt;
      assert e.msg.content[..|e.msg.content|] == e.msg.content;
      MessageIdsDistinct(e, |e.msg.content|);
      MessageIdsArePrefix(e);
      ViewIdsLast(pre, e);
      DistinctAppend(ViewIds(pre), MessageIds(e));
    } else {
      NoView();
    }
  }

  lemma NoView()
    ensures ViewIds([]) == []
  {
  }

  function WireIds(ns: seq<Aria.Node>): (ids: seq<bytes>)
    ensures |ids| == |ns|
  {
    seq(|ns|, i requires 0 <= i < |ns| => ns[i].id)
  }

  /** The server never drops or reorders a block, so if each list it is given extends the
      one before, its own list is always the last list it was given. */
  lemma {:induction false} ServerListIsLast(o: AriaServer.OpenMsg, nodes: seq<Aria.Node>, k: nat)
    requires k <= |nodes| && o.order <= WireIds(nodes) && Distinct(WireIds(nodes))
    requires forall n :: n in nodes ==> n.id != []
    requires forall id :: id in o.order <==> id in o.block
    ensures var f := AriaServer.AbsorbAll(o, nodes, k);
            && f.order == (if k <= |o.order| then o.order else WireIds(nodes)[..k])
            && forall id :: id in f.order <==> id in f.block
    ensures |o.order| <= |nodes| == k ==> AriaServer.Updated(o, nodes).order == WireIds(nodes)
  {
    hide AriaServer.Absorb, Distinct, WireIds;
    if k > 0 {
      var f := AriaServer.AbsorbAll(o, nodes, k - 1);
      ServerListIsLast(o, nodes, k - 1);
      WireIdAt(nodes, k - 1);
      AbsorbLists(f, k - 1, nodes[k - 1]);
      ListStep(o.order, WireIds(nodes), k, f.order);
    }
    if |o.order| <= |nodes| == k {
      assert WireIds(nodes)[..k] == WireIds(nodes);
    }
  }

  lemma WireIdAt(nodes: seq<Aria.Node>, i: nat)
    requires i < |nodes|
    ensures WireIds(nodes)[i] == nodes[i].id && nodes[i] in nodes
  {
  }

  /** The list after k names, each of them put last if it is new. */
  lemma {:induction false} ListStep(shown: seq<bytes>, ids: seq<bytes>, k: nat, list: seq<bytes>)
    requires shown <= ids && Distinct(ids) && 0 < k <= |ids|
    requires list == if k - 1 <= |shown| then shown else ids[..k - 1]
    ensures ((if ids[k - 1] in list then list else list + [ids[k - 1]])
             == if k <= |shown| then shown else ids[..k])
  {
    hide Distinct;
    NewOrShown(ids, |shown|, k);
    assert shown == ids[..|shown|];
  }

  /** One node on the server: a new block goes last, a known one keeps its place. */
  lemma {:induction false} AbsorbLists(f: AriaServer.Fold, i: nat, n: Aria.Node)
    requires n.id != [] && forall id :: id in f.order <==> id in f.block
    ensures var g := AriaServer.Absorb(f, i, n);
            && g.order == (if n.id in f.order then f.order else f.order + [n.id])
            && forall id :: id in g.order <==> id in g.block
  {
    hide Aria.DeltaOf;
  }

  lemma NewOrShown(ids: seq<bytes>, shown: nat, k: nat)
    requires Distinct(ids) && 0 < k <= |ids| && shown <= |ids|
    ensures k <= shown ==> ids[k - 1] in ids[..shown]
    ensures k > shown ==> ids[k - 1] !in ids[..k - 1] && ids[..k] == ids[..k - 1] + [ids[k - 1]]
  {
  }

  /** An update never drops or moves a block. */
  lemma {:induction false} OrderGrows(o: AriaServer.OpenMsg, nodes: seq<Aria.Node>, k: nat)
    requires k <= |nodes|
    ensures o.order <= AriaServer.AbsorbAll(o, nodes, k).order
  {
    hide Aria.DeltaOf;
    if k > 0 {
      OrderGrows(o, nodes, k - 1);
    }
  }

  // ----- Ids in print

  /** strconv, for naturals. */
  function Digits(n: nat): bytes { if n < 10 then [48 + n] else Digits(n / 10) + [48 + n % 10] }

  const DOT: byte := 46

  predicate AllDigits(s: bytes) { forall b :: b in s ==> 48 <= b <= 57 }

  /** nodeID. */
  function PlaceName(lt: nat, block: nat): bytes { Digits(lt) + [DOT] + Digits(block) }

  /** How a string is written in bytes; no two strings alike. */
  type Encoder = string -> bytes

  ghost predicate EncoderOk(enc: Encoder) { (forall x, y :: enc(x) == enc(y) ==> x == y) && enc("") == [] }

  function Name(enc: Encoder, id: NodeId): bytes {
    match id
    case At(lt, block) => PlaceName(lt, block)
    case Call(id) => enc(id)
  }

  function Names(enc: Encoder, ids: seq<NodeId>): (ns: seq<bytes>)
    ensures |ns| == |ids|
  {
    seq(|ids|, i requires 0 <= i < |ids| => Name(enc, ids[i]))
  }

  ghost predicate PlaceLike(s: bytes) { exists lt, block :: s == PlaceName(lt, block) }

  /** No call is without an id, and none is named like a place in the log. */
  ghost predicate WellNamed(enc: Encoder, calls: seq<string>) {
    forall id :: id in calls ==> id != "" && !PlaceLike(enc(id))
  }

  lemma {:induction false} DigitsOk(n: nat)
    ensures Digits(n) != [] && AllDigits(Digits(n))
  {
    if n >= 10 {
      DigitsOk(n / 10);
    }
  }

  lemma {:induction false} DigitsInjective(m: nat, n: nat)
    requires Digits(m) == Digits(n)
    ensures m == n
  {
    var s, t := Digits(m), Digits(n);
    assert s[|s| - 1] == t[|t| - 1] && s[..|s| - 1] == t[..|t| - 1];
    DigitsOk(m / 10);
    DigitsOk(n / 10);
    if m >= 10 && n >= 10 {
      DigitsInjective(m / 10, n / 10);
    }
  }

  lemma {:induction false} PlaceInjective(lt: nat, block: nat, lt': nat, block': nat)
    requires PlaceName(lt, block) == PlaceName(lt', block')
    ensures lt == lt' && block == block'
  {
    var a, b, a', b' := Digits(lt), Digits(block), Digits(lt'), Digits(block');
    DigitsOk(lt);
    DigitsOk(lt');
    SameDot(a, b, a', b');
    DigitsInjective(lt, lt');
    DigitsInjective(block, block');
  }

  lemma SameDot(a: bytes, b: bytes, a': bytes, b': bytes)
    requires AllDigits(a) && AllDigits(a') && a + [DOT] + b == a' + [DOT] + b'
    ensures a == a' && b == b'
  {
    var s, t := a + [DOT] + b, a' + [DOT] + b';
    assert forall i :: 0 <= i < |a| ==> s[i] in a;
    assert forall i :: 0 <= i < |a'| ==> t[i] in a';
    assert s[|a|] == DOT && t[|a'|] == DOT;
    assert a == s[..|a|] && a' == t[..|a'|] && b == s[|a| + 1..] && b' == t[|a'| + 1..];
  }

  /** Distinct ids are printed as distinct names, none of them empty. */
  lemma {:induction false} NamesDistinct(enc: Encoder, ids: seq<NodeId>, calls: seq<string>)
    requires EncoderOk(enc) && WellNamed(enc, calls) && Distinct(ids)
    requires forall id :: id in ids && id.Call? ==> id.id in calls
    ensures Distinct(Names(enc, ids)) && forall n :: n in Names(enc, ids) ==> n != []
  {
    hide PlaceName, EncoderOk;
    forall i, j | 0 <= i < j < |ids| ensures Names(enc, ids)[i] != Names(enc, ids)[j] {
      assert ids[i] in ids && ids[j] in ids;
      NameInjective(enc, ids[i], ids[j], calls);
    }
    forall i | 0 <= i < |ids| ensures Names(enc, ids)[i] != [] {
      assert ids[i] in ids;
      NameNotEmpty(enc, ids[i], calls);
    }
  }

  lemma NameNotEmpty(enc: Encoder, id: NodeId, calls: seq<string>)
    requires EncoderOk(enc) && WellNamed(enc, calls) && (id.Call? ==> id.id in calls)
    ensures Name(enc, id) != []
  {
  }

  lemma {:induction false} NameInjective(enc: Encoder, x: NodeId, y: NodeId, calls: seq<string>)
    requires EncoderOk(enc) && WellNamed(enc, calls)
    requires (x.Call? ==> x.id in calls) && (y.Call? ==> y.id in calls)
    ensures Name(enc, x) == Name(enc, y) ==> x == y
  {
    hide PlaceName;
    if x.At? && y.At? && Name(enc, x) == Name(enc, y) {
      PlaceInjective(x.lt, x.block, y.lt, y.block);
    }
  }

  // ----- A live turn

  /** A turn goes on; or what is shown of it then is composed and handed to the server, which
      the throttle may put off for as long as it likes. */
  datatype LiveStep = Do(step: ViewStep) | Emit(nodes: seq<Aria.Node>)

  /** The nodes that are emitted are the view's, whatever they hold. */
  predicate LiveOk(enc: Encoder, v: TurnView, ls: seq<LiveStep>)
    decreases |ls|
  {
    ls == [] ||
    match ls[0]
    case Do(s) => Enabled(v, s) && LiveOk(enc, Next(v, s), ls[1..])
    case Emit(nodes) => WireIds(nodes) == Names(enc, View(v)) && LiveOk(enc, v, ls[1..])
  }

  function LiveEnd(enc: Encoder, v: TurnView, ls: seq<LiveStep>): TurnView
    requires LiveOk(enc, v, ls)
    decreases |ls|
  {
    if ls == [] then v
    else if ls[0].Do? then LiveEnd(enc, Next(v, ls[0].step), ls[1..])
    else LiveEnd(enc, v, ls[1..])
  }

  function LiveServer(o: AriaServer.OpenMsg, ls: seq<LiveStep>): AriaServer.OpenMsg
    decreases |ls|
  {
    if ls == [] then o
    else LiveServer(if ls[0].Emit? then AriaServer.Updated(o, ls[0].nodes) else o, ls[1..])
  }

  /** The list that was emitted last. */
  function LastEmitted(enc: Encoder, v: TurnView, ls: seq<LiveStep>, before: seq<NodeId>): seq<NodeId>
    requires LiveOk(enc, v, ls)
    decreases |ls|
  {
    if ls == [] then before
    else if ls[0].Do? then LastEmitted(enc, Next(v, ls[0].step), ls[1..], before)
    else LastEmitted(enc, v, ls[1..], View(v))
  }

  lemma {:induction false} NextRises(v: TurnView, s: ViewStep)
    requires Enabled(v, s) && Rising(v.es)
    ensures Rising(Next(v, s).es)
  {
  }

  lemma {:induction false} LiveGrows(enc: Encoder, v: TurnView, ls: seq<LiveStep>)
    requires LiveOk(enc, v, ls) && Rising(v.es)
    ensures View(v) <= View(LiveEnd(enc, v, ls)) && Rising(Window(LiveEnd(enc, v, ls)))
    decreases |ls|
  {
    hide View, Next, Enabled;
    if ls != [] {
      if ls[0].Do? {
        ViewGrows(v, ls[0].step);
        NextRises(v, ls[0].step);
        LiveGrows(enc, Next(v, ls[0].step), ls[1..]);
      } else {
        LiveGrows(enc, v, ls[1..]);
      }
    }
  }

  /** The server's table lists its blocks. */
  ghost predicate Listed(o: AriaServer.OpenMsg) { forall id :: id in o.order <==> id in o.block }

  /** One emit, however many steps after the one before. */
  lemma {:induction false} EmitReachesServer(enc: Encoder, o: AriaServer.OpenMsg, before: seq<NodeId>,
      ids: seq<NodeId>, nodes: seq<Aria.Node>)
    requires before <= ids && o.order == Names(enc, before) && Listed(o)
    requires WireIds(nodes) == Names(enc, ids) && Distinct(Names(enc, ids))
    requires forall n :: n in Names(enc, ids) ==> n != []
    ensures AriaServer.Updated(o, nodes).order == Names(enc, ids) && Listed(AriaServer.Updated(o, nodes))
  {
    assert forall i :: 0 <= i < |before| ==> before[i] == ids[i];
    assert o.order == WireIds(nodes)[..|o.order|];
    forall n | n in nodes ensures n.id != [] {
      var i :| 0 <= i < |nodes| && nodes[i] == n;
      assert WireIds(nodes)[i] in WireIds(nodes);
    }
    ServerListIsLast(o, nodes, |nodes|);
  }

  /** The ids that a turn shows at any time are printed apart, if no two of its calls share
      an id and none is named like a place. */
  lemma {:induction false} ShownNamesDistinct(enc: Encoder, v: TurnView, ids: seq<NodeId>)
    requires EncoderOk(enc) && Rising(Window(v)) && ids <= View(v)
    requires Distinct(CallsIn(Window(v))) && WellNamed(enc, CallsIn(Window(v)))
    ensures Distinct(Names(enc, ids)) && forall n :: n in Names(enc, ids) ==> n != []
  {
    hide ViewIds, Window, CallsIn, Names, EncoderOk, WellNamed;
    ViewDistinct(Window(v));
    assert forall i :: 0 <= i < |ids| ==> ids[i] == View(v)[i];
    NamesDistinct(enc, ids, CallsIn(Window(v)));
  }

  /** Whatever is streamed, sealed and answered, and whichever emits are skipped: the server's
      block list, which never drops or moves anything, is always the list emitted last. */
  lemma {:induction false} LiveListReachesServer(enc: Encoder, v: TurnView, o: AriaServer.OpenMsg,
      ls: seq<LiveStep>, before: seq<NodeId>)
    requires EncoderOk(enc) && LiveOk(enc, v, ls) && Rising(v.es)
    requires var calls := CallsIn(Window(LiveEnd(enc, v, ls))); Distinct(calls) && WellNamed(enc, calls)
    requires before <= View(v) && o.order == Names(enc, before) && Listed(o)
    ensures LiveServer(o, ls).order == Names(enc, LastEmitted(enc, v, ls, before)) && Listed(LiveServer(o, ls))
    ensures LastEmitted(enc, v, ls, before) <= View(LiveEnd(enc, v, ls))
    decreases |ls|
  {
    hide View, Window, Names, CallsIn, EncoderOk, WellNamed, Rising, AriaServer.Updated, Listed, Next, Enabled;
    if ls != [] {
      if ls[0].Do? {
        ViewGrows(v, ls[0].step);
        NextRises(v, ls[0].step);
        LiveListReachesServer(enc, Next(v, ls[0].step), o, ls[1..], before);
      } else {
        LiveGrows(enc, v, ls);
        ShownNamesDistinct(enc, LiveEnd(enc, v, ls), View(v));
        EmitReachesServer(enc, o, before, View(v), ls[0].nodes);
        LiveListReachesServer(enc, v, AriaServer.Updated(o, ls[0].nodes), ls[1..], View(v));
      }
    }
  }

  /** From the start of a turn: right after an emit, the server's list is the composed list of
      that moment. */
  lemma {:induction false} ServerShowsTurn(enc: Encoder, v: TurnView, o: AriaServer.OpenMsg, ls: seq<LiveStep>,
      nodes: seq<Aria.Node>)
    requires EncoderOk(enc) && v.es == [] && v.inflight.None? && o.order == [] && o.block == map[]
    requires LiveOk(enc, v, ls + [Emit(nodes)])
    requires LiveOk(enc, v, ls)
    requires var calls := CallsIn(Window(LiveEnd(enc, v, ls))); Distinct(calls) && WellNamed(enc, calls)
    ensures LiveServer(o, ls + [Emit(nodes)]).order == Names(enc, View(LiveEnd(enc, v, ls)))
  {
    hide View, Names, CallsIn, EncoderOk, WellNamed, LiveServer;
    EmitLast(enc, v, ls, nodes, []);
    LiveListReachesServer(enc, v, o, ls + [Emit(nodes)], []) by {
      assert Names(enc, []) == [] by { NoNames(enc); }
    }
  }

  lemma NoNames(enc: Encoder)
    ensures Names(enc, []) == []
  {
  }

  lemma {:induction false} EmitLast(enc: Encoder, v: TurnView, ls: seq<LiveStep>, nodes: seq<Aria.Node>,
      before: seq<NodeId>)
    requires LiveOk(enc, v, ls + [Emit(nodes)])
    ensures LiveOk(enc, v, ls)
    ensures LiveEnd(enc, v, ls + [Emit(nodes)]) == LiveEnd(enc, v, ls)
    ensures LastEmitted(enc, v, ls + [Emit(nodes)], before) == View(LiveEnd(enc, v, ls))
    decreases |ls|
  {
    hide View, Next, Enabled, Names;
    var more := ls + [Emit(nodes)];
    if ls == [] {
      assert more[1..] == [];
    } else {
      assert more[0] == ls[0] && more[1..] == ls[1..] + [Emit(nodes)];
      if ls[0].Do? {
        EmitLast(enc, Next(v, ls[0].step), ls[1..], nodes, before);
      } else {
        EmitLast(enc, v, ls[1..], nodes, View(v));
      }
    }
  }
}
