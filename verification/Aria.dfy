/** The wire of internal/livelog/aria: nodes, field deltas and pages. */
module Aria {
  import opened Utf8
  import opened Livedoc

  datatype Option<+T> = None | Some(value: T)

  /** Tool arguments: nil, or a map that is compared as a whole. */
  datatype Args = NoArgs | Args(m: map<bytes, bytes>)

  /** A livedoc.Node. The id and the version never travel in a delta. */
  datatype Node = Node(
    id: bytes, version: int,
    typ: bytes, name: bytes, summary: bytes, status: bytes,
    startedAt: int, finishedAt: int,
    markdown: bytes, output: bytes, args: Args)

  const BLANK := Node([], 0, [], [], [], [], 0, 0, [], [], NoArgs)

  /** The part of a node that the wire carries. */
  function Strip(n: Node): Node { n.(id := [], version := 0) }

  datatype Field = FType | FName | FSummary | FStatus | FMarkdown | FOutput | FId
                 | FStartedAt | FFinishedAt | FArgs | FOther(key: bytes)

  /** A value of a `set`; Null is what `unset` assigns. */
  datatype Value = Str(s: bytes) | Num(n: int) | ArgMap(m: map<bytes, bytes>) | Null

  datatype NodeDelta = NodeDelta(id: bytes, set_: map<Field, Value>, unset: seq<Field>, patch: map<Field, Delta>)
  {
    predicate Empty() { set_ == map[] && unset == [] && patch == map[] }
  }

  datatype Live = Live(lt: int, v: int, role: bytes, nodes: seq<NodeDelta>)

  /** An empty node list is omitted on the wire, so it arrives as no list at all. */
  datatype Committed = Committed(lt: int, v: int, role: bytes, nodes: seq<Node>)
  {
    predicate Full() { nodes != [] }
  }

  datatype AriaRead = AriaRead(committed: seq<Committed>, live: Option<Live>)

  datatype Message = Message(lt: int, role: bytes, nodes: seq<Node>)

  // ----- Folding a delta into a node

  function AsStr(v: Value): bytes { if v.Str? then v.s else [] }

  function AsInt(v: Value): int { if v.Num? then v.n else 0 }

  function AsArgs(was: Args, v: Value): Args {
    match v
    case Null => NoArgs
    case ArgMap(m) => Args(m)
    case _ => was
  }

  function SetField(n: Node, field: Field, v: Value): Node {
    match field
    case FType => n.(typ := AsStr(v))
    case FName => n.(name := AsStr(v))
    case FSummary => n.(summary := AsStr(v))
    case FStatus => n.(status := AsStr(v))
    case FMarkdown => n.(markdown := AsStr(v))
    case FOutput => n.(output := AsStr(v))
    case FId => n.(id := AsStr(v))
    case FStartedAt => n.(startedAt := AsInt(v))
    case FFinishedAt => n.(finishedAt := AsInt(v))
    case FArgs => n.(args := AsArgs(n.args, v))
    case FOther(_) => n
  }

  function StrIn(m: map<Field, Value>, f: Field, was: bytes): bytes {
    if f in m then AsStr(m[f]) else was
  }

  function IntIn(m: map<Field, Value>, f: Field, was: int): int {
    if f in m then AsInt(m[f]) else was
  }

  /** Field by field, what merging m into n leaves. */
  function Merged(n: Node, m: map<Field, Value>): Node {
    Node(StrIn(m, FId, n.id), n.version,
         StrIn(m, FType, n.typ), StrIn(m, FName, n.name), StrIn(m, FSummary, n.summary), StrIn(m, FStatus, n.status),
         IntIn(m, FStartedAt, n.startedAt), IntIn(m, FFinishedAt, n.finishedAt),
         StrIn(m, FMarkdown, n.markdown), StrIn(m, FOutput, n.output),
         if FArgs in m then AsArgs(n.args, m[FArgs]) else n.args)
  }

  function Nulls(fs: seq<Field>): map<Field, Value> { map f | f in fs :: Null }

  function Spliced(p: map<Field, Delta>, f: Field, was: bytes): bytes {
    if f in p then Splice(was, p[f]) else was
  }

  function Patched(n: Node, p: map<Field, Delta>): Node {
    n.(markdown := Spliced(p, FMarkdown, n.markdown), output := Spliced(p, FOutput, n.output))
  }

  /** What a delta means for a node: sets, then unsets, then patches. */
  function Folded(n: Node, d: NodeDelta): Node {
    Patched(Merged(Merged(n, d.set_), Nulls(d.unset)), d.patch)
  }

  function Only<T>(m: map<Field, T>, fs: set<Field>): map<Field, T> { map f | f in m && f in fs :: m[f] }

  lemma MergeOne(n: Node, m: map<Field, Value>, done: set<Field>, f: Field)
    requires f in m && f !in done
    ensures Merged(n, Only(m, done + {f})) == SetField(Merged(n, Only(m, done)), f, m[f])
  {
    hide Merged, SetField;
    assert Only(m, done + {f}) == Only(m, done)[f := m[f]];
    MergedPut(n, Only(m, done), f, m[f]);
  }

  /** One field more, or one cleared. */
  lemma MergedPut(n: Node, m: map<Field, Value>, f: Field, v: Value)
    requires f !in m || v == Null
    ensures Merged(n, m[f := v]) == SetField(Merged(n, m), f, v)
  {
  }

  /** Go ranges over a map in no fixed order: every order gives the same fold. */
  method FoldDelta(n: Node, d: NodeDelta) returns (r: Node)
    ensures r == Folded(n, d)
  {
    r := SetAll(n, d.set_);
    r := UnsetAll(r, d.unset);
    r := PatchAll(r, d.patch);
  }

  method SetAll(n: Node, m: map<Field, Value>) returns (r: Node)
    ensures r == Merged(n, m)
  {
    r := n;
    var todo := m.Keys;
    ghost var done := {};
    while todo != {}
      invariant todo <= m.Keys && done == m.Keys - todo
      invariant r == Merged(n, Only(m, done))
      decreases |todo|
    {
      var f :| f in todo;
      MergeOne(n, m, done, f);
      r := SetField(r, f, m[f]);
      todo, done := todo - {f}, done + {f};
    }
    assert Only(m, done) == m;
  }

  method UnsetAll(n: Node, unset: seq<Field>) returns (r: Node)
    ensures r == Merged(n, Nulls(unset))
  {
    r := n;
    for i := 0 to |unset|
      invariant r == Merged(n, Nulls(unset[..i]))
    {
      assert unset[..i + 1] == unset[..i] + [unset[i]];
      UnsetOne(n, unset[..i], unset[i]);
      r := SetField(r, unset[i], Null);
    }
    assert unset[..|unset|] == unset;
  }

  lemma UnsetOne(n: Node, fs: seq<Field>, f: Field)
    ensures Merged(n, Nulls(fs + [f])) == SetField(Merged(n, Nulls(fs)), f, Null)
  {
    hide Merged, SetField;
    assert Nulls(fs + [f]) == Nulls(fs)[f := Null];
    MergedPut(n, Nulls(fs), f, Null);
  }

  method PatchAll(n: Node, patch: map<Field, Delta>) returns (r: Node)
    ensures r == Patched(n, patch)
  {
    r := n;
    var todo := patch.Keys;
    ghost var done := {};
    while todo != {}
      invariant todo <= patch.Keys && done == patch.Keys - todo
      invariant r == Patched(n, Only(patch, done))
      decreases |todo|
    {
      var f :| f in todo;
      match f {
        case FMarkdown =>
          var s := Apply(r.markdown, patch[f]);
          r := r.(markdown := s);
        case FOutput =>
          var s := Apply(r.output, patch[f]);
          r := r.(output := s);
        case _ =>
      }
      todo, done := todo - {f}, done + {f};
    }
    assert Only(patch, done) == patch;
  }

  // ----- Computing a delta

  const FIELDS: set<Field> := {FType, FName, FSummary, FStatus, FStartedAt, FFinishedAt, FMarkdown, FOutput, FArgs}

  /** The order in which fields are looked at, which `unset` shows. */
  const ORDER: seq<Field> := [FName, FSummary, FStatus, FStartedAt, FFinishedAt, FMarkdown, FOutput, FArgs]

  function NonEmpty(was: bytes, now: bytes): Option<Value> {
    if now != was && now != [] then Some(Str(now)) else None
  }

  function NonZero(was: int, now: int): Option<Value> {
    if now != was && now != 0 then Some(Num(now)) else None
  }

  /** What `set` says of a field that changed from was to now. A growable string is set
      whole only at its first appearance. */
  function Sets(was: Node, now: Node, f: Field): Option<Value> {
    match f
    case FType => if now.typ != was.typ then Some(Str(now.typ)) else None
    case FName => NonEmpty(was.name, now.name)
    case FSummary => NonEmpty(was.summary, now.summary)
    case FStatus => NonEmpty(was.status, now.status)
    case FStartedAt => NonZero(was.startedAt, now.startedAt)
    case FFinishedAt => NonZero(was.finishedAt, now.finishedAt)
    case FMarkdown => if was.markdown == [] then NonEmpty(was.markdown, now.markdown) else None
    case FOutput => if was.output == [] then NonEmpty(was.output, now.output) else None
    case FArgs => if now.args != was.args && now.args.Args? then Some(ArgMap(now.args.m)) else None
    case _ => None
  }

  predicate Clears(was: Node, now: Node, f: Field) {
    match f
    case FName => now.name != was.name && now.name == []
    case FSummary => now.summary != was.summary && now.summary == []
    case FStatus => now.status != was.status && now.status == []
    case FStartedAt => now.startedAt != was.startedAt && now.startedAt == 0
    case FFinishedAt => now.finishedAt != was.finishedAt && now.finishedAt == 0
    case FMarkdown => now.markdown != was.markdown && now.markdown == []
    case FOutput => now.output != was.output && now.output == []
    case FArgs => now.args != was.args && now.args.NoArgs?
    case _ => false
  }

  function Patches(was: Node, now: Node, f: Field): Option<Delta> {
    match f
    case FMarkdown => Grown(was.markdown, now.markdown)
    case FOutput => Grown(was.output, now.output)
    case _ => None
  }

  function Grown(was: bytes, now: bytes): Option<Delta> {
    if now != was && now != [] && was != [] then Some(DiffOf(was, now)) else None
  }

  function Cleared(was: Node, now: Node, fs: seq<Field>): (r: seq<Field>)
    ensures forall f :: f in r <==> f in fs && Clears(was, now, f)
  {
    if fs == [] then [] else (if Clears(was, now, fs[0]) then [fs[0]] else []) + Cleared(was, now, fs[1..])
  }

  function FullSet(id: bytes, n: Node): NodeDelta {
    NodeDelta(id, map f | f in FIELDS && (f == FType || Sets(BLANK, n, f).Some?) ::
                    if f == FType then Str(n.typ) else Sets(BLANK, n, f).value, [], map[])
  }

  function DeltaOf(id: bytes, was: Option<Node>, now: Node): NodeDelta {
    match was
    case None => FullSet(id, now)
    case Some(w) =>
      NodeDelta(id, map f | f in FIELDS && Sets(w, now, f).Some? :: Sets(w, now, f).value,
                Cleared(w, now, ORDER),
                map f | f in FIELDS && Patches(w, now, f).Some? :: Patches(w, now, f).value)
  }

  function Decimal(i: nat): bytes {
    if i < 10 then [0x30 + i] else Decimal(i / 10) + [0x30 + i % 10]
  }

  /** A node's stable handle: its id, or "n" and its position. */
  function BlockId(i: nat, n: Node): bytes {
    if n.id != [] then n.id else [0x6E] + Decimal(i)
  }

  /** A node as the far side holds it before the first delta. */
  function Held(was: Option<Node>): Node {
    match was
    case None => BLANK
    case Some(w) => Strip(w)
  }

  lemma NothingMerged(n: Node)
    ensures Merged(n, Nulls([])) == n && Patched(n, map[]) == n
  {
  }

  lemma FullSetMerged(id: bytes, n: Node)
    ensures Merged(BLANK, FullSet(id, n).set_) == Strip(n)
  {
    hide FullSet, Merged;
    FullSetOver(id, BLANK, n);
  }

  lemma {:induction false} FullSetFills(id: bytes, n: Node)
    ensures Folded(BLANK, FullSet(id, n)) == Strip(n)
  {
    FullSetMerged(id, n);
    hide Merged, Patched, Nulls;
    NothingMerged(Strip(n));
  }

  /** Every field that the node has empty is empty in what is held. */
  predicate NothingToClear(held: Node, n: Node) {
    && (n.name == [] ==> held.name == []) && (n.summary == [] ==> held.summary == [])
    && (n.status == [] ==> held.status == []) && (n.startedAt == 0 ==> held.startedAt == 0)
    && (n.finishedAt == 0 ==> held.finishedAt == 0) && (n.markdown == [] ==> held.markdown == [])
    && (n.output == [] ==> held.output == []) && (n.args.NoArgs? ==> held.args.NoArgs?)
  }

  /** A full set sets and never clears: onto a node that is already held it gives the node if
      and only if no field has to be cleared. */
  lemma {:induction false} FullSetOntoHeldIff(id: bytes, held: Node, n: Node)
    ensures Folded(Strip(held), FullSet(id, n)) == Strip(n) <==> NothingToClear(held, n)
  {
    FullSetOver(id, held, n);
    NothingMerged(Merged(Strip(held), FullSet(id, n).set_));
  }

  lemma FullSetOver(id: bytes, held: Node, n: Node)
    ensures Merged(Strip(held), FullSet(id, n).set_) == Strip(n) <==> NothingToClear(held, n)
  {
    hide FullSet;
    FullSetTexts(id, n);
    FullSetRest(id, n);
  }

  predicate SetsText(m: map<Field, Value>, f: Field, text: bytes) {
    (f in m <==> text != []) && (f in m ==> m[f] == Str(text))
  }

  predicate SetsNumber(m: map<Field, Value>, f: Field, n: int) { (f in m <==> n != 0) && (f in m ==> m[f] == Num(n)) }

  lemma FullSetTexts(id: bytes, n: Node)
    ensures var m := FullSet(id, n).set_;
            && FType in m && m[FType] == Str(n.typ) && FId !in m
            && SetsText(m, FName, n.name) && SetsText(m, FSummary, n.summary) && SetsText(m, FStatus, n.status)
            && SetsText(m, FMarkdown, n.markdown) && SetsText(m, FOutput, n.output)
  {
  }

  lemma FullSetRest(id: bytes, n: Node)
    ensures var m := FullSet(id, n).set_;
            && SetsNumber(m, FStartedAt, n.startedAt) && SetsNumber(m, FFinishedAt, n.finishedAt)
            && (FArgs in m <==> n.args.Args?) && (FArgs in m ==> m[FArgs] == ArgMap(n.args.m))
  {
  }

  /** What the three parts of a delta say of one field. */
  ghost predicate Says(d: NodeDelta, w: Node, now: Node, f: Field) {
    && (f in d.set_ <==> Sets(w, now, f).Some?) && (f in d.set_ ==> d.set_[f] == Sets(w, now, f).value)
    && (f in d.unset <==> Clears(w, now, f))
    && (f in d.patch <==> Patches(w, now, f).Some?) && (f in d.patch ==> d.patch[f] == Patches(w, now, f).value)
  }

  lemma DeltaSays(id: bytes, w: Node, now: Node)
    ensures forall f :: Says(DeltaOf(id, Some(w), now), w, now, f)
  {
    hide DiffOf, Says, DeltaOf;
    forall f ensures Says(DeltaOf(id, Some(w), now), w, now, f) {
      DeltaSaysOf(id, w, now, f);
    }
  }

  lemma {:induction false} DeltaSaysOf(id: bytes, w: Node, now: Node, f: Field)
    ensures Says(DeltaOf(id, Some(w), now), w, now, f)
  {
    hide DeltaOf, Sets, Clears, Patches;
    SetPart(id, w, now, f);
    UnsetPart(id, w, now, f);
    PatchPart(id, w, now, f);
  }

  lemma {:induction false} SetPart(id: bytes, w: Node, now: Node, f: Field)
    ensures var m := DeltaOf(id, Some(w), now).set_;
            (f in m <==> Sets(w, now, f).Some?) && (f in m ==> m[f] == Sets(w, now, f).value)
  {
    hide Sets, Clears, Patches, Cleared;
    SaysNothingElse(w, now, f);
  }

  lemma {:induction false} UnsetPart(id: bytes, w: Node, now: Node, f: Field)
    ensures f in DeltaOf(id, Some(w), now).unset <==> Clears(w, now, f)
  {
    hide Sets, Clears, Patches, Cleared;
    SaysNothingElse(w, now, f);
  }

  lemma {:induction false} PatchPart(id: bytes, w: Node, now: Node, f: Field)
    ensures var m := DeltaOf(id, Some(w), now).patch;
            (f in m <==> Patches(w, now, f).Some?) && (f in m ==> m[f] == Patches(w, now, f).value)
  {
    hide Sets, Clears, Patches, Cleared;
    SaysNothingElse(w, now, f);
  }

  lemma SaysNothingElse(w: Node, now: Node, f: Field)
    ensures f !in FIELDS ==> Sets(w, now, f).None? && Patches(w, now, f).None?
    ensures f !in ORDER ==> !Clears(w, now, f)
  {
    hide DiffOf;
  }

  lemma TextsFold(d: NodeDelta, w: Node, now: Node)
    requires forall f :: Says(d, w, now, f)
    ensures var r := Folded(Strip(w), d);
            r.id == [] && r.typ == now.typ && r.name == now.name && r.summary == now.summary && r.status == now.status
  {
    assert Says(d, w, now, FId) && Says(d, w, now, FType) && Says(d, w, now, FName)
        && Says(d, w, now, FSummary) && Says(d, w, now, FStatus);
  }

  lemma NumbersFold(d: NodeDelta, w: Node, now: Node)
    requires forall f :: Says(d, w, now, f)
    ensures var r := Folded(Strip(w), d);
            && r.version == 0 && r.startedAt == now.startedAt && r.finishedAt == now.finishedAt
            && r.args == now.args
  {
    assert Says(d, w, now, FStartedAt) && Says(d, w, now, FFinishedAt) && Says(d, w, now, FArgs);
  }

  lemma MarkdownFolds(d: NodeDelta, w: Node, now: Node)
    requires Says(d, w, now, FMarkdown)
    ensures Folded(Strip(w), d).markdown == now.markdown
  {
    hide DiffOf, Splice;
    ApplyUndoesDiff(w.markdown, now.markdown);
  }

  lemma OutputFolds(d: NodeDelta, w: Node, now: Node)
    requires Says(d, w, now, FOutput)
    ensures Folded(Strip(w), d).output == now.output
  {
    hide DiffOf, Splice;
    ApplyUndoesDiff(w.output, now.output);
  }

  /** Field deltas undo: folding what the server computed into what the client held gives
      the new node, on every field the wire carries. */
  lemma {:induction false} FoldUndoesDelta(id: bytes, was: Option<Node>, now: Node)
    ensures Folded(Held(was), DeltaOf(id, was, now)) == Strip(now)
  {
    match was {
      case None => FullSetFills(id, now);
      case Some(w) =>
        var d := DeltaOf(id, was, now);
        DeltaSays(id, w, now);
        TextsFold(d, w, now);
        NumbersFold(d, w, now);
        MarkdownFolds(d, w, now);
        OutputFolds(d, w, now);
    }
  }

  /** A delta that changes nothing is not sent: then nothing on the wire changed. */
  lemma {:induction false} EmptyDeltaIsNoChange(id: bytes, was: Option<Node>, now: Node)
    requires DeltaOf(id, was, now).Empty()
    ensures was.Some? && Strip(was.value) == Strip(now)
  {
    assert was.None? ==> FType in FullSet(id, now).set_;
    FoldUndoesDelta(id, was, now);
    EmptyFoldsToItself(Held(was), DeltaOf(id, was, now));
  }

  lemma EmptyFoldsToItself(n: Node, d: NodeDelta)
    requires d.Empty()
    ensures Folded(n, d) == n
  {
    assert Nulls([]) == map[];
  }
}
