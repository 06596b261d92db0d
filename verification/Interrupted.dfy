/** What is shown when a turn is interrupted while its message streams: sealTurn drops the calls
    that are half-streamed (internal/figaro/turn_seal.go), the server drops nothing. */
module Interrupted {
  import opened Utf8
  import opened Message
  import opened Compose
  import Aria
  import AriaServer
  import Turn

  /** The message that sealTurn logs. */
  function SealedPart(v: TurnView): Entry
    requires v.inflight.Some?
  {
    Entry(NextLT(v), Turn.PartialAssistant(Some(Message(Assistant, v.inflight.value.content))))
  }

  /** The turn after that seal. */
  function SealedView(v: TurnView): TurnView
    requires v.inflight.Some?
  {
    v.(es := v.es + [SealedPart(v)], inflight := None)
  }

  /** A call that the seal drops has this id. */
  ghost predicate Dropped(cs: seq<Content>, id: string) {
    exists c :: c in cs && c.Invoke? && !Turn.Complete(c) && c.id == id
  }

  // ----- What is kept of a message

  /** The place of the first call that is dropped. */
  function FirstDropped(cs: seq<Content>): (j: nat)
    ensures j <= |cs| && (forall i :: 0 <= i < j ==> Turn.Complete(cs[i])) && (j < |cs| ==> !Turn.Complete(cs[j]))
  {
    if cs == [] then 0
    else
      var j := FirstDropped(cs[..|cs| - 1]);
      if j < |cs| - 1 then j else if Turn.Complete(cs[|cs| - 1]) then |cs| else |cs| - 1
  }

  lemma {:induction false} KeptBegins(cs: seq<Content>, j: nat)
    requires j <= |cs| && forall i :: 0 <= i < j ==> Turn.Complete(cs[i])
    ensures cs[..j] <= Turn.Kept(cs)
  {
    hide Turn.Complete;
    if cs != [] {
      var pre := cs[..|cs| - 1];
      if j < |cs| {
        KeptBegins(pre, j);
        assert pre[..j] == cs[..j];
      } else {
        KeptBegins(pre, j - 1);
        assert cs == pre + [cs[|cs| - 1]];
        Turn.KeptComplete(pre);
      }
    }
  }

  lemma {:induction false} KeptAreHeld(cs: seq<Content>)
    ensures forall c :: c in Turn.Kept(cs) ==> c in cs && Turn.Complete(c)
  {
    hide Turn.Complete;
    if cs != [] {
      KeptAreHeld(cs[..|cs| - 1]);
    }
  }

  /** The ids of calls. */
  function IdsOfCalls(cs: seq<Content>): seq<string> { Ids(Calls(cs)) }

  lemma IdsOfCallsLast(cs: seq<Content>, c: Content)
    ensures IdsOfCalls(cs + [c]) == IdsOfCalls(cs) + if c.Invoke? then [c.id] else []
  {
    assert (cs + [c])[..|cs|] == cs;
    if c.Invoke? {
      IdsAppend(Calls(cs), [c]);
    }
  }

  lemma {:induction false} CallHasId(cs: seq<Content>, c: Content)
    requires c in cs && c.Invoke?
    ensures c.id in IdsOfCalls(cs)
  {
    hide IdsOfCalls;
    var pre, last := cs[..|cs| - 1], cs[|cs| - 1];
    assert cs == pre + [last];
    IdsOfCallsLast(pre, last);
    if c != last {
      CallHasId(pre, c);
    }
  }

  lemma {:induction false} IdHasCall(cs: seq<Content>, id: string) returns (c: Content)
    requires id in IdsOfCalls(cs)
    ensures c in cs && c.Invoke? && c.id == id
  {
    hide IdsOfCalls;
    if cs == [] {
      assert IdsOfCalls(cs) == [] by { NoCalls(); }
      c := Image;
    } else {
      var pre, last := cs[..|cs| - 1], cs[|cs| - 1];
      assert cs == pre + [last];
      IdsOfCallsLast(pre, last);
      if id in IdsOfCalls(pre) {
        c := IdHasCall(pre, id);
      } else {
        c := last;
      }
    }
  }

  lemma NoCalls()
    ensures IdsOfCalls([]) == []
  {
  }

  /** With distinct ids there is one call for each. */
  lemma {:induction false} OneCallPerId(cs: seq<Content>, c: Content, d: Content)
    requires Distinct(IdsOfCalls(cs)) && c in cs && d in cs && c.Invoke? && d.Invoke? && c.id == d.id
    ensures c == d
  {
    hide IdsOfCalls;
    var pre, last := cs[..|cs| - 1], cs[|cs| - 1];
    assert cs == pre + [last];
    IdsOfCallsLast(pre, last);
    DistinctSplit(IdsOfCalls(pre), if last.Invoke? then [last.id] else []);
    if c in pre && d in pre {
      OneCallPerId(pre, c, d);
    } else if c in pre {
      CallHasId(pre, c);
    } else if d in pre {
      CallHasId(pre, d);
    }
  }

  lemma {:induction false} KeptCallsDistinct(cs: seq<Content>)
    requires Distinct(IdsOfCalls(cs))
    ensures Distinct(IdsOfCalls(Turn.Kept(cs))) && forall id :: id in IdsOfCalls(Turn.Kept(cs)) ==> id in IdsOfCalls(cs)
  {
    hide IdsOfCalls, Turn.Complete;
    if cs == [] {
      NoCalls();
    } else {
      var pre, last := cs[..|cs| - 1], cs[|cs| - 1];
      var own := if last.Invoke? then [last.id] else [];
      assert cs == pre + [last];
      IdsOfCallsLast(pre, last);
      DistinctSplit(IdsOfCalls(pre), own);
      KeptCallsDistinct(pre);
      if Turn.Complete(last) {
        assert Turn.Kept(cs) == Turn.Kept(pre) + [last];
        IdsOfCallsLast(Turn.Kept(pre), last);
        DistinctAppend(IdsOfCalls(Turn.Kept(pre)), own);
      } else {
        assert Turn.Kept(cs) == Turn.Kept(pre);
      }
    }
  }

  // ----- What is shown of it

  /** Up to the first dropped call the sealed message shows what the streaming one did, and
      right there the streaming one showed that call. */
  lemma {:induction false} ShownUpTo(lt: nat, cs: seq<Content>, j: nat)
    requires j < |cs| && (forall i :: 0 <= i < j ==> Turn.Complete(cs[i])) && !Turn.Complete(cs[j])
    ensures var shown, part := Entry(lt, Message(Assistant, cs)), Entry(lt, Message(Assistant, Turn.Kept(cs)));
            var same := PrefixIds(shown, j);
            && same <= MessageIds(part)
            && same + [Call(cs[j].id)] <= MessageIds(shown)
  {
    hide Turn.Kept, Turn.Complete, PrefixIds, BlockIds, MessageIds;
    var shown, part := Entry(lt, Message(Assistant, cs)), Entry(lt, Message(Assistant, Turn.Kept(cs)));
    KeptBegins(cs, j);
    forall i | 0 <= i < j
      ensures BlockIds(shown.msg, lt, i, shown.msg.content[i]) == BlockIds(part.msg, lt, i, part.msg.content[i])
    {
      assert Turn.Kept(cs)[i] == cs[i];
      SameBlock(shown.msg, part.msg, lt, i, cs[i]);
    }
    SamePrefixIds(shown, part, j);
    MorePrefix(part, j, |Turn.Kept(cs)|);
    MessageIdsArePrefix(part);
    DroppedIsCall(cs[j]);
    PrefixIdsLast(shown, j + 1);
    CallShows(lt, cs, j);
    MorePrefix(shown, j + 1, |cs|);
    MessageIdsArePrefix(shown);
  }

  lemma SameBlock(m: Message, m': Message, lt: nat, i: nat, c: Content)
    requires m.role.Assistant? && m'.role.Assistant?
    ensures BlockIds(m, lt, i, c) == BlockIds(m', lt, i, c)
  {
  }

  lemma DroppedIsCall(c: Content)
    requires !Turn.Complete(c)
    ensures c.Invoke?
  {
  }

  lemma CallShows(lt: nat, cs: seq<Content>, j: nat)
    requires j < |cs| && cs[j].Invoke?
    ensures BlockIds(Message(Assistant, cs), lt, j, cs[j]) == [Call(cs[j].id)]
  {
  }

  /** The calls that the composed list holds after the seal are complete ones. */
  lemma {:induction false} NoDroppedCallShows(v: TurnView, id: string)
    requires v.inflight.Some? && Rising(v.es + [SealedPart(v)])
    requires Distinct(CallsIn(v.es) + IdsOfCalls(v.inflight.value.content))
    requires Dropped(v.inflight.value.content, id)
    ensures Call(id) !in View(SealedView(v))
  {
    hide ViewIds, MessageIds, IdsOfCalls, CallsIn, Turn.Complete, Turn.Kept;
    var cs, part := v.inflight.value.content, SealedPart(v);
    var c: Content :| c in cs && c.Invoke? && !Turn.Complete(c) && c.id == id;
    DistinctSplit(CallsIn(v.es), IdsOfCalls(cs));
    CallHasId(cs, c);
    KeptCallsDistinct(cs);
    KeptAreHeld(cs);
    if id in IdsOfCalls(Turn.Kept(cs)) {
      var d := IdHasCall(Turn.Kept(cs), id);
      OneCallPerId(cs, c, d);
    }
    RisingPrefix(v.es, part);
    ViewDistinct(v.es);
    ViewIdsLast(v.es, part);
    PartShows(part);
  }

  lemma RisingPrefix(es: seq<Entry>, e: Entry)
    requires Rising(es + [e])
    ensures Rising(es)
  {
    assert forall i :: 0 <= i < |es| ==> (es + [e])[i] == es[i];
  }

  /** A message shows no calls but its own. */
  lemma {:induction false} PartShows(e: Entry)
    requires e.msg.role.Assistant? && Distinct(IdsOfCalls(e.msg.content))
    ensures forall id :: id in MessageIds(e) && id.Call? ==> id.id in IdsOfCalls(e.msg.content)
  {
    assert e.msg.content[..|e.msg.content|] == e.msg.content;
    MessageIdsDistinct(e, |e.msg.content|);
    MessageIdsArePrefix(e);
  }

  /** What was shown before an interrupt is a beginning of what is composed after it, if and
      only if no dropped call had been shown. */
  lemma {:induction false} ShownStaysIff(v: TurnView, shown: seq<NodeId>)
    requires Enabled(v, Seal) && Rising(Window(v)) && Distinct(CallsIn(Window(v))) && shown <= View(v)
    ensures (shown <= View(SealedView(v)) <==>
             forall id :: Dropped(v.inflight.value.content, id) ==> Call(id) !in shown)
  {
    hide ViewIds, MessageIds, CallsIn, Turn.Kept, IdsOfCalls, Rising, PrefixIds, Distinct;
    var cs, part := v.inflight.value.content, SealedPart(v);
    var whole := Inflight(NextLT(v), v.inflight.value);
    SealedRises(v);
    CallsWithLast(v.es, whole);
    ViewIdsLast(v.es, whole);
    ViewIdsLast(v.es, part);
    if shown <= View(SealedView(v)) {
      forall id | Dropped(cs, id) ensures Call(id) !in shown {
        NoDroppedCallShows(v, id);
        NotInPrefix(shown, View(SealedView(v)), Call(id));
      }
    }
    if forall id :: Dropped(cs, id) ==> Call(id) !in shown {
      var j := FirstDropped(cs);
      if j < |cs| {
        ShownUpTo(NextLT(v), cs, j);
        DroppedIsCall(cs[j]);
        assert Dropped(cs, cs[j].id);
        CutBefore(shown, ViewIds(v.es), PrefixIds(whole, j), MessageIds(whole), MessageIds(part), Call(cs[j].id));
      } else {
        Turn.KeptAll(cs);
      }
    }
  }

  lemma NotInPrefix<T>(s: seq<T>, t: seq<T>, x: T)
    requires s <= t && x !in t
    ensures x !in s
  {
    assert forall i :: 0 <= i < |s| ==> s[i] == t[i] && t[i] in t;
  }

  /** A list that does not hold x ends before the place where x stands. */
  lemma {:induction false} CutBefore<T>(s: seq<T>, pre: seq<T>, same: seq<T>, whole: seq<T>, part: seq<T>, x: T)
    requires s <= pre + whole && same + [x] <= whole && same <= part && x !in s
    ensures s <= pre + part
  {
    var n := |pre| + |same|;
    assert (pre + whole)[n] == whole[|same|] == (same + [x])[|same|] == x;
    assert forall i :: 0 <= i < |s| ==> s[i] in s && s[i] == (pre + whole)[i];
    assert |s| <= n;
    forall i | 0 <= i < |s| ensures s[i] == (pre + part)[i] {
      assert i >= |pre| ==> whole[i - |pre|] == same[i - |pre|] == part[i - |pre|];
      assert s[i] == (pre + whole)[i];
    }
  }

  lemma SealedRises(v: TurnView)
    requires Enabled(v, Seal) && Rising(Window(v))
    ensures Rising(v.es) && Rising(v.es + [SealedPart(v)])
  {
    var w := v.es + [Inflight(NextLT(v), v.inflight.value)];
    assert forall i :: 0 <= i < |w| ==> (v.es + [SealedPart(v)])[i].lt == w[i].lt;
    RisingPrefix(v.es, SealedPart(v));
  }

  lemma CallsWithLast(es: seq<Entry>, e: Entry)
    ensures CallsIn(es + [e]) == CallsIn(es) + CallIds(e.msg)
    ensures e.msg.role.Assistant? ==> CallIds(e.msg) == IdsOfCalls(e.msg.content)
  {
    assert (es + [e])[..|es|] == es;
  }

  // ----- And on the server

  /** The emit after an interrupted seal, on a server that shows the list shown: it then holds
      the composed list if and only if no dropped call had been emitted. */
  lemma {:induction false} InterruptedEmitIff(enc: Encoder, v: TurnView, o: AriaServer.OpenMsg, shown: seq<NodeId>,
      nodes: seq<Aria.Node>)
    requires EncoderOk(enc) && Enabled(v, Seal) && Rising(Window(v)) && shown <= View(v)
    requires Distinct(CallsIn(Window(v))) && WellNamed(enc, CallsIn(Window(v)))
    requires o.order == Names(enc, shown) && Listed(o)
    requires WireIds(nodes) == Names(enc, View(SealedView(v)))
    ensures (AriaServer.Updated(o, nodes).order == Names(enc, View(SealedView(v))) <==>
             forall id :: Dropped(v.inflight.value.content, id) ==> Call(id) !in shown)
  {
    hide View, Window, CallsIn, EncoderOk, WellNamed, Rising, Dropped, Listed, Distinct, SealedView, Names;
    ShownStaysIff(v, shown);
    SealedNames(enc, v);
    var ids := View(SealedView(v));
    if shown <= ids {
      EmitReachesServer(enc, o, shown, ids, nodes);
    }
    if AriaServer.Updated(o, nodes).order == Names(enc, ids) {
      OrderGrows(o, nodes, |nodes|);
      ShownNames(enc, v);
      NamesPrefix(enc, shown, ids, CallsIn(Window(v)), View(v));
    }
  }

  /** The composed list after the seal is printed apart, and holds only calls of the turn. */
  lemma {:induction false} SealedNames(enc: Encoder, v: TurnView)
    requires EncoderOk(enc) && Enabled(v, Seal) && Rising(Window(v))
    requires Distinct(CallsIn(Window(v))) && WellNamed(enc, CallsIn(Window(v)))
    ensures var ids := View(SealedView(v));
            && Distinct(Names(enc, ids)) && (forall n :: n in Names(enc, ids) ==> n != [])
            && forall id :: id in ids && id.Call? ==> id.id in CallsIn(Window(v))
  {
    hide ViewIds, CallsIn, EncoderOk, WellNamed, Rising, Turn.Kept, IdsOfCalls, Names;
    var cs, part := v.inflight.value.content, SealedPart(v);
    SealedRises(v);
    CallsWithLast(v.es, Inflight(NextLT(v), v.inflight.value));
    CallsWithLast(v.es, part);
    DistinctSplit(CallsIn(v.es), IdsOfCalls(cs));
    KeptCallsDistinct(cs);
    DistinctAppend(CallsIn(v.es), IdsOfCalls(Turn.Kept(cs)));
    ViewDistinct(v.es + [part]);
    NamesDistinct(enc, View(SealedView(v)), CallsIn(Window(v)));
  }

  lemma {:induction false} ShownNames(enc: Encoder, v: TurnView)
    requires Rising(Window(v)) && Distinct(CallsIn(Window(v)))
    ensures forall id :: id in View(v) && id.Call? ==> id.id in CallsIn(Window(v))
  {
    hide ViewIds, CallsIn, Rising, Window, Distinct;
    ViewDistinct(Window(v));
  }

  /** Where the names begin alike, the ids do. */
  lemma {:induction false} NamesPrefix(enc: Encoder, shown: seq<NodeId>, ids: seq<NodeId>, calls: seq<string>,
      all: seq<NodeId>)
    requires EncoderOk(enc) && WellNamed(enc, calls) && Names(enc, shown) <= Names(enc, ids) && shown <= all
    requires forall id :: id in all && id.Call? ==> id.id in calls
    requires forall id :: id in ids && id.Call? ==> id.id in calls
    ensures shown <= ids
  {
    hide EncoderOk, WellNamed, Name;
    forall i | 0 <= i < |shown| ensures shown[i] == ids[i] {
      assert shown[i] == all[i] && all[i] in all && ids[i] in ids;
      assert Names(enc, shown)[i] == Names(enc, ids)[i];
      NameInjective(enc, shown[i], ids[i], calls);
    }
  }

  /** A whole turn, its emits skipped or not, and then an interrupt: the list that the server
      ends with is the composed one if and only if the last emit before it showed no call that
      was still half-streamed at the end. */
  lemma {:induction false} InterruptedTurnIff(enc: Encoder, v: TurnView, o: AriaServer.OpenMsg, ls: seq<LiveStep>,
      nodes: seq<Aria.Node>)
    requires EncoderOk(enc) && v.es == [] && v.inflight.None? && o.order == [] && o.block == map[]
    requires LiveOk(enc, v, ls)
    requires var end := LiveEnd(enc, v, ls);
             && Enabled(end, Seal) && Distinct(CallsIn(Window(end))) && WellNamed(enc, CallsIn(Window(end)))
             && WireIds(nodes) == Names(enc, View(SealedView(end)))
    ensures var end := LiveEnd(enc, v, ls);
            (AriaServer.Updated(LiveServer(o, ls), nodes).order == Names(enc, View(SealedView(end))) <==>
             forall id :: Dropped(end.inflight.value.content, id) ==> Call(id) !in LastEmitted(enc, v, ls, []))
  {
    hide View, Window, CallsIn, EncoderOk, WellNamed, Dropped, Distinct, SealedView, Names, Enabled, Next;
    assert Names(enc, []) == [] by { NoNames(enc); }
    LiveGrows(enc, v, ls);
    LiveListReachesServer(enc, v, o, ls, []);
    InterruptedEmitIff(enc, LiveEnd(enc, v, ls), LiveServer(o, ls), LastEmitted(enc, v, ls, []), nodes);
  }

  /** A call whose arguments had not come when the user interrupted: it was shown, and the
      composed list no longer holds it. */
  lemma {:induction false} HalfStreamedCallGoes(v: TurnView)
    requires v == TurnView(7, [], Some(Asm([Invoke("a", "read", None)], map["a" := 0])))
    ensures Enabled(v, Seal) && View(v) == [Call("a")] && View(SealedView(v)) == []
  {
    hide ViewIds, MessageIds, Turn.Kept;
    var c := v.inflight.value.content[0];
    OnlyCall(8, c);
    NoneKept(c);
    OnlyMessage(Inflight(8, v.inflight.value));
    OnlyMessage(Entry(8, Message(Assistant, [])));
    assert [] + [Inflight(8, v.inflight.value)] == [Inflight(8, v.inflight.value)];
    assert [] + [SealedPart(v)] == [SealedPart(v)];
  }

  lemma NoneKept(c: Content)
    requires !Turn.Complete(c)
    ensures Turn.Kept([c]) == []
  {
    assert [c][..0] == [];
  }

  lemma {:induction false} OnlyMessage(e: Entry)
    ensures ViewIds([e]) == MessageIds(e)
  {
    hide ViewIds, MessageIds;
    ViewIdsLast([], e);
    NoView();
    assert [] + [e] == [e];
  }

  lemma {:induction false} OnlyCall(lt: nat, c: Content)
    requires c.Invoke?
    ensures MessageIds(Entry(lt, Message(Assistant, [c]))) == [Call(c.id)]
    ensures MessageIds(Entry(lt, Message(Assistant, []))) == []
  {
    hide MessageIds, PrefixIds, BlockIds;
    var e, none := Entry(lt, Message(Assistant, [c])), Entry(lt, Message(Assistant, []));
    MessageIdsArePrefix(e);
    MessageIdsArePrefix(none);
    PrefixIdsLast(e, 1);
    NoPrefixIds(e);
    NoPrefixIds(none);
    CallShows(lt, [c], 0);
  }
}
