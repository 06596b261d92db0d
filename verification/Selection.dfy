/** Copying a range of nodes out of a history that is read by pages
    (internal/cli/transcript_selection.go). */
module Selection {
  import opened Utf8
  import opened Aria
  import opened Paging

  /** A selected node: its place, and the hash it had when it was selected. */
  datatype Point = Point(lt: int, index: int, hash: int)

  predicate PointLess(a: Point, b: Point) { a.lt < b.lt || (a.lt == b.lt && a.index < b.index) }

  datatype Plan = Plan(lo: Point, hi: Point, open: Option<Message>)

  /** What selectionPlan builds: ordered points, and the open message if its LT is in range. */
  ghost predicate PlanOk(p: Plan, h: History) {
    && !PointLess(p.hi, p.lo)
    && (p.open.Some? ==> p.lo.lt <= p.open.value.lt <= p.hi.lt)
    && (p.open.Some? && p.open.value.lt < p.hi.lt ==> forall m | m in h :: m.lt < p.open.value.lt)
  }

  /** How a node is hashed, and how its arguments are written. */
  datatype Codec = Codec(hash: Node -> int, marshal: Args -> Option<bytes>)

  const TOOL: bytes := [116, 111, 111, 108]

  function ClipboardText(n: Node, c: Codec): bytes {
    if n.typ != TOOL then n.markdown
    else if n.output != [] then n.output
    else if n.args.Args? && n.args.m != map[] && c.marshal(n.args).Some? then n.name + [32] + c.marshal(n.args).value
    else if n.summary != [] then n.summary
    else n.name
  }

  // ----- What is selected

  /** The nodes of a message from start to the end, without the silent ones. */
  function Spoken(nodes: seq<Node>, c: Codec): seq<bytes> {
    if nodes == [] then []
    else
      var text := ClipboardText(nodes[|nodes| - 1], c);
      Spoken(nodes[..|nodes| - 1], c) + if text == [] then [] else [text]
  }

  function Clamp(x: int, n: nat): nat { if x < 0 then 0 else if x > n then n else x }

  /** The stretch of a message that lies between the two points, the upper one included. */
  function Between(m: Message, p: Plan): seq<Node> {
    var from, to := From(m.lt, |m.nodes|, p), To(m.lt, |m.nodes|, p);
    if from <= to then m.nodes[from..to] else []
  }

  function From(lt: int, n: nat, p: Plan): (i: nat)
    ensures i <= n
  {
    if lt < p.lo.lt then n else if lt == p.lo.lt then Clamp(p.lo.index, n) else 0
  }

  function To(lt: int, n: nat, p: Plan): (i: nat)
    ensures i <= n
  {
    if lt > p.hi.lt then 0 else if lt == p.hi.lt then Clamp(p.hi.index + 1, n) else n
  }

  function Texts(ms: History, p: Plan, c: Codec): seq<bytes> {
    if ms == [] then [] else Spoken(Between(ms[0], p), c) + Texts(ms[1..], p, c)
  }

  predicate Has(m: Message, pt: Point) { m.lt == pt.lt && 0 <= pt.index < |m.nodes| }

  predicate Changed(m: Message, pt: Point, c: Codec) { Has(m, pt) && c.hash(m.nodes[pt.index]) != pt.hash }

  ghost predicate Found(ms: History, pt: Point) { exists m :: m in ms && Has(m, pt) }

  ghost predicate Stale(ms: History, pt: Point, c: Codec) { exists m :: m in ms && Changed(m, pt, c) }

  /** The selected node is still there and still what it was. */
  ghost predicate Intact(ms: History, pt: Point, c: Codec) { Found(ms, pt) && !Stale(ms, pt, c) }

  function OpenPart(p: Plan): History { if p.open.Some? then [p.open.value] else [] }

  /** Where the backward reading starts. */
  function Cursor(p: Plan): int {
    if p.open.Some? && p.open.value.lt == p.hi.lt then p.open.value.lt else p.hi.lt + 1
  }

  /** The history that the plan is about: up to the cursor, then the open message. */
  function Subject(h: History, p: Plan): History { h[..Below(h, Cursor(p))] + OpenPart(p) }

  function Silent(ms: History, i: nat): bool
    requires i < |ms|
  {
    ms[i].nodes == []
  }

  /** n messages in a row without nodes, somewhere in ms[a..b]. */
  ghost predicate SilentRun(ms: History, a: nat, b: nat, n: nat)
    requires b <= |ms|
  {
    exists i: nat :: a <= i && i + n <= b && RunAt(ms, i, n)
  }

  ghost predicate RunAt(ms: History, i: nat, n: nat) { i + n <= |ms| && AllSilent(ms, i, i + n) }

  ghost predicate AllSilent(ms: History, a: nat, b: nat)
    requires b <= |ms|
  {
    forall j :: a <= j < b ==> Silent(ms, j)
  }

  function Joined(parts: seq<bytes>): bytes {
    if parts == [] then []
    else if |parts| == 1 then parts[0]
    else Joined(parts[..|parts| - 1]) + [10, 10] + parts[|parts| - 1]
  }

  // ----- One message

  datatype Failure =
    | StartChanged | EndChanged | ReadFailed(before: int) | Unavailable(before: int) | EndpointsUnavailable

  datatype Outcome<+T> = Got(value: T) | Refused(failure: Failure)

  datatype Part = Part(texts: seq<bytes>, lo: bool, hi: bool)

  lemma {:induction false} SpokenLast(nodes: seq<Node>, n: Node, c: Codec)
    ensures (Spoken(nodes + [n], c) ==
             Spoken(nodes, c) + (if ClipboardText(n, c) == [] then [] else [ClipboardText(n, c)]))
  {
    assert (nodes + [n])[..|nodes|] == nodes;
  }

  predicate Chosen(m: Message, i: int, p: Plan) {
    !PointLess(Point(m.lt, i, 0), p.lo) && !PointLess(p.hi, Point(m.lt, i, 0))
  }

  lemma SliceGrows(nodes: seq<Node>, i: nat, from: nat)
    requires from <= i < |nodes|
    ensures nodes[..i + 1][from..i + 1] == nodes[..i][from..i] + [nodes[i]]
  {
    var s, t := nodes[..i + 1][from..i + 1], nodes[..i][from..i] + [nodes[i]];
    assert |s| == |t|;
    forall k | 0 <= k < |s| ensures s[k] == t[k] {
      assert s[k] == nodes[from + k];
    }
  }

  lemma SameSlice(nodes: seq<Node>, i: nat, from: nat, to: nat)
    requires i < |nodes| && from <= to <= i
    ensures nodes[..i + 1][from..to] == nodes[..i][from..to]
  {
  }

  /** Taking the chosen nodes one at a time gives the stretch between the points. */
  lemma {:induction false} BetweenGrows(m: Message, i: nat, p: Plan)
    requires i < |m.nodes| && !PointLess(p.hi, p.lo)
    ensures !Chosen(m, i, p) ==> Between(m.(nodes := m.nodes[..i + 1]), p) == Between(m.(nodes := m.nodes[..i]), p)
    ensures (Chosen(m, i, p) ==>
             Between(m.(nodes := m.nodes[..i + 1]), p) == Between(m.(nodes := m.nodes[..i]), p) + [m.nodes[i]])
  {
    EndsMove(m, i, p);
    hide From, To, Chosen;
    var from := From(m.lt, i, p);
    if Chosen(m, i, p) {
      SliceGrows(m.nodes, i, from);
    } else if From(m.lt, i + 1, p) < i + 1 && from <= To(m.lt, i, p) {
      SameSlice(m.nodes, i, from, To(m.lt, i, p));
    }
  }

  /** Where the stretch begins and ends, with one node more. */
  lemma EndsMove(m: Message, i: nat, p: Plan)
    requires !PointLess(p.hi, p.lo)
    ensures Chosen(m, i, p) ==> From(m.lt, i + 1, p) == From(m.lt, i, p) <= i && To(m.lt, i + 1, p) == i + 1
    ensures Chosen(m, i, p) ==> To(m.lt, i, p) == i
    ensures (!Chosen(m, i, p) && From(m.lt, i + 1, p) < i + 1 ==>
             From(m.lt, i + 1, p) == From(m.lt, i, p) && To(m.lt, i + 1, p) == To(m.lt, i, p) <= i)
    ensures !Chosen(m, i, p) && From(m.lt, i + 1, p) == i + 1 ==> From(m.lt, i, p) == i
  {
  }

  method SelectedMessageText(m: Message, p: Plan, c: Codec) returns (r: Outcome<Part>)
    requires !PointLess(p.hi, p.lo)
    ensures r.Refused? <==> Changed(m, p.lo, c) || Changed(m, p.hi, c)
    ensures r.Refused? ==> r.failure == StartChanged || r.failure == EndChanged
    ensures r.Got? ==> r.value == Part(Spoken(Between(m, p), c), Has(m, p.lo), Has(m, p.hi))
  {
    hide Between, Spoken, ClipboardText;
    var out, foundLo, foundHi := [], false, false;
    EmptyBetween(m, p, c);
    for i := 0 to |m.nodes|
      invariant foundLo <==> (m.lt == p.lo.lt && 0 <= p.lo.index < i)
      invariant foundHi <==> (m.lt == p.hi.lt && 0 <= p.hi.index < i)
      invariant foundLo ==> !Changed(m, p.lo, c)
      invariant foundHi ==> !Changed(m, p.hi, c)
      invariant out == Spoken(Between(m.(nodes := m.nodes[..i]), p), c)
    {
      BetweenGrows(m, i, p);
      SpokenLast(Between(m.(nodes := m.nodes[..i]), p), m.nodes[i], c);
      if m.lt == p.lo.lt && i == p.lo.index {
        if c.hash(m.nodes[i]) != p.lo.hash {
          return Refused(StartChanged);
        }
        foundLo := true;
      }
      if m.lt == p.hi.lt && i == p.hi.index {
        if c.hash(m.nodes[i]) != p.hi.hash {
          return Refused(EndChanged);
        }
        foundHi := true;
      }
      if Chosen(m, i, p) {
        var text := ClipboardText(m.nodes[i], c);
        if text != [] {
          out := out + [text];
        }
      }
    }
    assert m.nodes[..|m.nodes|] == m.nodes;
    return Got(Part(out, foundLo, foundHi));
  }

  lemma {:induction false} EmptyBetween(m: Message, p: Plan, c: Codec)
    ensures Spoken(Between(m.(nodes := m.nodes[..0]), p), c) == []
  {
  }

  // ----- One page

  /** A message without nodes looks like a close marker, and is skipped. */
  function FullOf(ms: History): History {
    if ms == [] then [] else (if ms[0].nodes == [] then [] else [ms[0]]) + FullOf(ms[1..])
  }

  lemma {:induction false} TextsConcat(ms: History, ns: History, p: Plan, c: Codec)
    ensures Texts(ms + ns, p, c) == Texts(ms, p, c) + Texts(ns, p, c)
  {
    hide Between, Spoken;
    if ms == [] {
      assert ms + ns == ns;
    } else {
      TextsConcat(ms[1..], ns, p, c);
      assert (ms + ns)[1..] == ms[1..] + ns;
    }
  }

  lemma {:induction false} FoundConcat(ms: History, ns: History, pt: Point, c: Codec)
    ensures Found(ms + ns, pt) <==> Found(ms, pt) || Found(ns, pt)
    ensures Stale(ms + ns, pt, c) <==> Stale(ms, pt, c) || Stale(ns, pt, c)
  {
  }

  /** Skipping the messages without nodes loses nothing. */
  lemma {:induction false} FullKeeps(ms: History, p: Plan, c: Codec)
    ensures Texts(FullOf(ms), p, c) == Texts(ms, p, c)
    ensures forall pt :: Found(FullOf(ms), pt) == Found(ms, pt)
    ensures forall pt :: Stale(FullOf(ms), pt, c) == Stale(ms, pt, c)
  {
    if ms != [] {
      FullKeeps(ms[1..], p, c);
      assert ms == ms[..1] + ms[1..];
      var first := if ms[0].nodes == [] then [] else [ms[0]];
      forall pt: Point ensures Found(FullOf(ms), pt) == Found(ms, pt) && Stale(FullOf(ms), pt, c) == Stale(ms, pt, c) {
        FoundConcat(first, FullOf(ms[1..]), pt, c);
        FoundConcat(ms[..1], ms[1..], pt, c);
      }
      TextsConcat(first, FullOf(ms[1..]), p, c);
      TextsConcat(ms[..1], ms[1..], p, c);
      assert ms[0].nodes == [] ==> Texts(ms[..1], p, c) == Spoken([], c);
    }
  }

  lemma {:induction false} FirstFull(ms: History) returns (f: nat)
    requires FullOf(ms) != []
    ensures f < |ms| && ms[f].nodes != [] && AllSilent(ms, 0, f)
    ensures FullOf(ms)[0] == ms[f] && FullOf(ms) == FullOf(ms[f..])
  {
    if ms[0].nodes != [] {
      f := 0;
      assert ms[0..] == ms;
    } else {
      f := FirstFull(ms[1..]);
      forall j | 0 <= j < f + 1 ensures Silent(ms, j) {
        assert j > 0 ==> Silent(ms[1..], j - 1);
      }
      assert ms[f + 1..] == ms[1..][f..];
      f := f + 1;
    }
  }

  lemma {:induction false} NoFull(ms: History)
    requires FullOf(ms) == []
    ensures AllSilent(ms, 0, |ms|)
  {
    if ms != [] {
      NoFull(ms[1..]);
      forall j | 0 <= j < |ms| ensures Silent(ms, j) {
        assert j > 0 ==> Silent(ms[1..], j - 1);
      }
    }
  }

  method CommittedMessages(ms: History) returns (out: History)
    ensures out == FullOf(ms)
  {
    out := [];
    for i := 0 to |ms|
      invariant out + FullOf(ms[i..]) == FullOf(ms)
    {
      assert ms[i..][1..] == ms[i + 1..];
      if ms[i].nodes != [] {
        out := out + [ms[i]];
      }
    }
  }

  method PageText(ms: History, p: Plan, c: Codec) returns (r: Outcome<Part>)
    requires !PointLess(p.hi, p.lo)
    ensures r.Refused? <==> Stale(ms, p.lo, c) || Stale(ms, p.hi, c)
    ensures r.Refused? ==> r.failure == StartChanged || r.failure == EndChanged
    ensures r.Got? ==> r.value == Part(Texts(ms, p, c), Found(ms, p.lo), Found(ms, p.hi))
  {
    hide Between, Spoken, ClipboardText;
    var page, foundLo, foundHi := [], false, false;
    for i := 0 to |ms|
      invariant page == Texts(ms[..i], p, c)
      invariant foundLo == Found(ms[..i], p.lo) && foundHi == Found(ms[..i], p.hi)
      invariant !Stale(ms[..i], p.lo, c) && !Stale(ms[..i], p.hi, c)
    {
      assert ms[..i + 1] == ms[..i] + [ms[i]];
      TextsConcat(ms[..i], [ms[i]], p, c);
      FoundConcat(ms[..i], [ms[i]], p.lo, c);
      FoundConcat(ms[..i], [ms[i]], p.hi, c);
      OneMessage(ms[i], p, c);
      var got := SelectedMessageText(ms[i], p, c);
      if got.Refused? {
        assert ms[i] in ms;
        return got;
      }
      page := page + got.value.texts;
      foundLo := foundLo || got.value.lo;
      foundHi := foundHi || got.value.hi;
    }
    assert ms[..|ms|] == ms;
    return Got(Part(page, foundLo, foundHi));
  }

  lemma {:induction false} OneMessage(m: Message, p: Plan, c: Codec)
    ensures Texts([m], p, c) == Spoken(Between(m, p), c)
    ensures Found([m], p.lo) == Has(m, p.lo) && Found([m], p.hi) == Has(m, p.hi)
    ensures Stale([m], p.lo, c) == Changed(m, p.lo, c) && Stale([m], p.hi, c) == Changed(m, p.hi, c)
  {
    hide Between, Spoken, Has, Changed;
    assert m in [m];
    assert Texts([m][1..], p, c) == [];
  }

  // ----- The walk back through the pages

  function Backwards(pages: seq<seq<bytes>>): seq<bytes> {
    if pages == [] then [] else Backwards(pages[1..]) + pages[0]
  }

  lemma {:induction false} OlderPage(pages: seq<seq<bytes>>, page: seq<bytes>)
    ensures Backwards(pages + [page]) == page + Backwards(pages)
  {
    if pages == [] {
      assert (pages + [page])[1..] == [];
    } else {
      OlderPage(pages[1..], page);
      assert (pages + [page])[1..] == pages[1..] + [page];
    }
  }

  /** h[k..b] and the open message have been looked at, and nothing in them had changed. */
  ghost predicate Walked(h: History, k: nat, b: nat, n: nat, p: Plan, c: Codec, pages: seq<seq<bytes>>, lo: bool,
      hi: bool) {
    && k <= b <= |h| && Backwards(pages) == Texts(h[k..b], p, c)
    && lo == (Found(h[k..b], p.lo) || Found(OpenPart(p), p.lo))
    && hi == (Found(h[k..b], p.hi) || Found(OpenPart(p), p.hi))
    && !Stale(h[k..b], p.lo, c) && !Stale(h[k..b], p.hi, c)
    && !Stale(OpenPart(p), p.lo, c) && !Stale(OpenPart(p), p.hi, c)
    && (k < b ==> h[k].nodes != []) && !SilentRun(h, k, b, n)
  }

  /** Below both points there is nothing to copy and nothing to find. */
  lemma {:induction false} NothingBelow(ms: History, p: Plan, c: Codec)
    requires forall m | m in ms :: m.lt < p.lo.lt
    requires !PointLess(p.hi, p.lo)
    ensures Texts(ms, p, c) == []
    ensures !Found(ms, p.lo) && !Found(ms, p.hi) && !Stale(ms, p.lo, c) && !Stale(ms, p.hi, c)
  {
    if ms != [] {
      NothingBelow(ms[1..], p, c);
      assert ms[0] in ms;
      assert Between(ms[0], p) == [];
    }
  }

  /** Once the walk has come to the lower point, it has seen all that matters. */
  lemma {:induction false} WalkedFar(h: History, k: nat, n: nat, p: Plan, c: Codec, pages: seq<seq<bytes>>,
      lo: bool, hi: bool)
    requires Ascending(h) && PlanOk(p, h) && n > 0
    requires Walked(h, k, Below(h, Cursor(p)), n, p, c, pages, lo, hi)
    requires (if k < Below(h, Cursor(p)) then h[k].lt else Cursor(p)) <= p.lo.lt
    ensures Texts(Subject(h, p), p, c) == Backwards(pages) + Texts(OpenPart(p), p, c)
    ensures Intact(Subject(h, p), p.lo, c) == lo && Intact(Subject(h, p), p.hi, c) == hi
    ensures !SilentRun(h, Below(h, p.lo.lt + 1), Below(h, Cursor(p)), n)
  {
    hide Texts, Below, Between, Found, Stale;
    var b := Below(h, Cursor(p));
    assert h[..b] == h[..k] + h[k..b];
    NothingBelow(h[..k], p, c);
    TextsConcat(h[..k], h[k..b], p, c);
    TextsConcat(h[..b], OpenPart(p), p, c);
    forall pt | pt == p.lo || pt == p.hi
      ensures Found(Subject(h, p), pt) <==> Found(h[k..b], pt) || Found(OpenPart(p), pt)
      ensures Stale(Subject(h, p), pt, c) <==> Stale(h[k..b], pt, c) || Stale(OpenPart(p), pt, c)
    {
      FoundConcat(h[..k], h[k..b], pt, c);
      FoundConcat(h[..b], OpenPart(p), pt, c);
    }
    BelowMonotone(h, p.lo.lt, p.lo.lt + 1);
    if k < b {
      BelowMonotone(h, h[k].lt, p.lo.lt + 1);
    } else {
      BelowMonotone(h, Cursor(p), p.lo.lt + 1);
    }
  }

  /** Where the page that ends before h[k] begins. */
  function PageStart(k: nat, n: nat): nat { if k < n then 0 else k - n }

  lemma {:induction false} NoLongRun(h: History, f: nat, k: nat, b: nat, n: nat)
    requires f < k <= b <= |h| && k <= f + n
    requires h[f].nodes != [] && (k < b ==> h[k].nodes != []) && !SilentRun(h, k, b, n)
    ensures !SilentRun(h, f, b, n)
  {
    forall i: nat | f <= i && i + n <= b ensures !RunAt(h, i, n) {
      assert !Silent(h, f) && (k < b ==> !Silent(h, k));
      assert i > f && k <= i ==> !RunAt(h, i, n);
    }
  }

  lemma {:induction false} FirstOfPage(h: History, s: nat, k: nat) returns (f: nat)
    requires s <= k <= |h| && FullOf(h[s..k]) != []
    ensures s <= f < k && h[f].nodes != []
    ensures FullOf(h[s..k])[0] == h[f] && FullOf(h[s..k]) == FullOf(h[f..k])
  {
    hide FullOf;
    f := FirstFull(h[s..k]);
    assert h[s..k][f..] == h[s + f..k];
    f := s + f;
  }

  lemma {:induction false} WalkOn(h: History, k: nat, b: nat, n: nat, p: Plan, c: Codec, pages: seq<seq<bytes>>,
      lo: bool, hi: bool) returns (f: nat)
    requires Ascending(h) && n > 0 && Walked(h, k, b, n, p, c, pages, lo, hi)
    requires FullOf(h[PageStart(k, n)..k]) != []
    requires var page := FullOf(h[PageStart(k, n)..k]); !Stale(page, p.lo, c) && !Stale(page, p.hi, c)
    ensures f < k && FullOf(h[PageStart(k, n)..k])[0] == h[f] && Below(h, h[f].lt) == f
    ensures var page := FullOf(h[PageStart(k, n)..k]);
            Walked(h, f, b, n, p, c, pages + [Texts(page, p, c)], lo || Found(page, p.lo), hi || Found(page, p.hi))
  {
    hide Texts, Below, Found, Stale, Backwards, SilentRun, FullOf;
    var ms := h[PageStart(k, n)..k];
    f := FirstOfPage(h, PageStart(k, n), k);
    FullKeeps(h[f..k], p, c);
    BelowIs(h, h[f].lt, f);
    assert h[f..b] == h[f..k] + h[k..b];
    TextsConcat(h[f..k], h[k..b], p, c);
    FoundConcat(h[f..k], h[k..b], p.lo, c);
    FoundConcat(h[f..k], h[k..b], p.hi, c);
    OlderPage(pages, Texts(FullOf(ms), p, c));
    NoLongRun(h, f, k, b, n);
  }

  lemma FoundAt(ms: History, pt: Point) returns (j: nat)
    requires Found(ms, pt)
    ensures j < |ms| && ms[j].lt == pt.lt && ms[j].nodes != []
  {
    var m: Message :| m in ms && Has(m, pt);
    j :| 0 <= j < |ms| && ms[j] == m;
  }

  /** Above the lower point the walk has not met it; if both points are there, it lies below. */
  lemma {:induction false} StillBelow(h: History, k: nat, p: Plan) returns (j: nat)
    requires Ascending(h) && PlanOk(p, h) && k <= Below(h, Cursor(p))
    requires (if k < Below(h, Cursor(p)) then h[k].lt else Cursor(p)) > p.lo.lt
    requires Found(Subject(h, p), p.lo) && Found(Subject(h, p), p.hi)
    ensures j < k && h[j].lt == p.lo.lt && h[j].nodes != []
  {
    hide Found;
    var b := Below(h, Cursor(p));
    j := FoundAt(Subject(h, p), p.lo);
    var i := FoundAt(Subject(h, p), p.hi);
    assert h[..b] + OpenPart(p) == Subject(h, p);
    assert i < b ==> h[i] in h;
  }

  /** A page without any full message: an endpoint is not there, or a run of silent messages
      as long as the page lies above the lower one. */
  lemma {:induction false} WalkStuck(h: History, k: nat, n: nat, p: Plan, c: Codec)
    requires Ascending(h) && PlanOk(p, h) && n > 0 && k <= Below(h, Cursor(p))
    requires (if k < Below(h, Cursor(p)) then h[k].lt else Cursor(p)) > p.lo.lt
    requires FullOf(h[PageStart(k, n)..k]) == []
    ensures (!Intact(Subject(h, p), p.lo, c) || !Intact(Subject(h, p), p.hi, c)
            || SilentRun(h, Below(h, p.lo.lt + 1), Below(h, Cursor(p)), n))
  {
    hide Stale, Found, Subject, FullOf, SilentRun, PlanOk;
    var b, s := Below(h, Cursor(p)), PageStart(k, n);
    NoFull(h[s..k]);
    if Found(Subject(h, p), p.lo) && Found(Subject(h, p), p.hi) {
      var j := StillBelow(h, k, p);
      assert j >= s ==> Silent(h[s..k], j - s);
      BelowIs(h, p.lo.lt + 1, j + 1);
      SilentPage(h, s, k, j + 1, b, n);
    }
  }

  lemma {:induction false} SilentPage(h: History, s: nat, k: nat, a: nat, b: nat, n: nat)
    requires a <= s && s + n == k <= b <= |h| && AllSilent(h[s..k], 0, n)
    ensures SilentRun(h, a, b, n)
  {
    forall i | s <= i < k ensures Silent(h, i) {
      assert Silent(h[s..k], i - s);
    }
    assert RunAt(h, s, n);
  }

  lemma {:induction false} ChangedThere(h: History, s: nat, k: nat, p: Plan, pt: Point, c: Codec)
    requires s <= k <= Below(h, Cursor(p)) && Stale(FullOf(h[s..k]), pt, c)
    ensures !Intact(Subject(h, p), pt, c)
  {
    hide Changed, FullOf, Below;
    var b := Below(h, Cursor(p));
    FullKeeps(h[s..k], p, c);
    FoundConcat(h[..b], OpenPart(p), pt, c);
    var m: Message :| m in h[s..k] && Changed(m, pt, c);
    assert m in h[..b];
  }

  lemma {:induction false} OpenChanged(h: History, p: Plan, pt: Point, c: Codec)
    requires Stale(OpenPart(p), pt, c)
    ensures !Intact(Subject(h, p), pt, c)
  {
    FoundConcat(h[..Below(h, Cursor(p))], OpenPart(p), pt, c);
  }

  lemma {:induction false} ReadIs(h: History, k: nat, before: int, n: nat)
    requires HistoryOk(h) && n > 0 && k == Below(h, before)
    ensures PageBefore(h, before, n) == h[PageStart(k, n)..k]
  {
    assert k > 0 ==> h[0] in h;
  }

  lemma {:induction false} NothingWalked(h: History, b: nat, n: nat, p: Plan, c: Codec, lo: bool, hi: bool)
    requires b <= |h| && n > 0 && lo == Found(OpenPart(p), p.lo) && hi == Found(OpenPart(p), p.hi)
    requires !Stale(OpenPart(p), p.lo, c) && !Stale(OpenPart(p), p.hi, c)
    ensures Walked(h, b, b, n, p, c, [], lo, hi)
  {
    assert h[b..b] == [];
  }

  /** What a copy by pages of pageSize gives, if every read goes through: the selected text of
      the whole history, if both endpoints are still what they were and no run of pageSize
      messages without nodes lies between; else nothing. */
  ghost function Copied(h: History, p: Plan, c: Codec, pageSize: nat): Option<bytes> {
    if && Intact(Subject(h, p), p.lo, c) && Intact(Subject(h, p), p.hi, c)
       && !SilentRun(h, Below(h, p.lo.lt + 1), Below(h, Cursor(p)), pageSize)
    then Some(Joined(Texts(Subject(h, p), p, c)))
    else None
  }

  /** selectionText; fails are the cursors at which a read fails. */
  method SelectionText(h: History, p: Plan, c: Codec, pageSize: nat, fails: set<int>) returns (r: Outcome<bytes>)
    requires HistoryOk(h) && PlanOk(p, h) && pageSize > 0
    ensures r.Got? ==> Copied(h, p, c, pageSize) == Some(r.value)
    ensures r.Refused? && r.failure.ReadFailed? ==> r.failure.before in fails
    ensures r.Refused? && !r.failure.ReadFailed? ==> Copied(h, p, c, pageSize) == None
  {
    hide Found, Stale, Changed, Below, Texts, Between, FullOf, Intact, Subject, Walked, SilentRun, Backwards,
        PageBefore, Joined;
    var newest, foundLo, foundHi := [], false, false;
    ghost var b := Below(h, Cursor(p));
    OpenText(p, c);
    if p.open.Some? {
      var got := SelectedMessageText(p.open.value, p, c);
      if got.Refused? {
        if Changed(p.open.value, p.lo, c) { OpenChanged(h, p, p.lo, c); } else { OpenChanged(h, p, p.hi, c); }
        return Refused(got.failure);
      }
      newest, foundLo, foundHi := got.value.texts, got.value.lo, got.value.hi;
    }
    NothingWalked(h, b, pageSize, p, c, foundLo, foundHi);
    if foundLo && foundHi {
      BothInOpen(p);
      WalkedFar(h, b, pageSize, p, c, [], true, true);
      EmptyBackwards(newest);
      return Got(Joined(newest));
    }
    var before := if p.open.Some? && p.open.value.lt == p.hi.lt then p.open.value.lt else p.hi.lt + 1;
    var pages := [];
    ghost var k := b;
    while before > p.lo.lt
      invariant k <= b && k == Below(h, before) && before == (if k < b then h[k].lt else Cursor(p))
      invariant Walked(h, k, b, pageSize, p, c, pages, foundLo, foundHi)
      decreases k, before
    {
      if before in fails {
        return Refused(ReadFailed(before));
      }
      var page := ReadBefore(h, before, pageSize);
      ReadIs(h, k, before, pageSize);
      var messages := CommittedMessages(page);
      if |messages| == 0 {
        WalkStuck(h, k, pageSize, p, c);
        return Refused(Unavailable(before));
      }
      var got := PageText(messages, p, c);
      if got.Refused? {
        if Stale(messages, p.lo, c) { ChangedThere(h, PageStart(k, pageSize), k, p, p.lo, c); }
        else { ChangedThere(h, PageStart(k, pageSize), k, p, p.hi, c); }
        return Refused(got.failure);
      }
      k := WalkOn(h, k, b, pageSize, p, c, pages, foundLo, foundHi);
      foundLo := foundLo || got.value.lo;
      foundHi := foundHi || got.value.hi;
      pages := pages + [got.value.texts];
      before := messages[0].lt;
    }
    WalkedFar(h, k, pageSize, p, c, pages, foundLo, foundHi);
    if !foundLo || !foundHi {
      return Refused(EndpointsUnavailable);
    }
    var out := InOrder(pages);
    return Got(Joined(out + newest));
  }

  method InOrder(pages: seq<seq<bytes>>) returns (out: seq<bytes>)
    ensures out == Backwards(pages)
  {
    out := [];
    for i := |pages| downto 0
      invariant out == Backwards(pages[i..])
    {
      assert pages[i..][1..] == pages[i + 1..];
      out := out + pages[i];
    }
  }

  lemma {:induction false} EmptyBackwards(texts: seq<bytes>)
    ensures Backwards([]) + texts == texts
  {
  }

  lemma {:induction false} OpenText(p: Plan, c: Codec)
    ensures p.open.Some? ==> Texts(OpenPart(p), p, c) == Spoken(Between(p.open.value, p), c)
    ensures p.open.Some? ==> Found(OpenPart(p), p.lo) == Has(p.open.value, p.lo)
    ensures p.open.Some? ==> Found(OpenPart(p), p.hi) == Has(p.open.value, p.hi)
    ensures p.open.Some? ==> Stale(OpenPart(p), p.lo, c) == Changed(p.open.value, p.lo, c)
    ensures p.open.Some? ==> Stale(OpenPart(p), p.hi, c) == Changed(p.open.value, p.hi, c)
    ensures p.open.None? ==> Texts(OpenPart(p), p, c) == [] && !Found(OpenPart(p), p.lo) && !Found(OpenPart(p), p.hi)
    ensures p.open.None? ==> !Stale(OpenPart(p), p.lo, c) && !Stale(OpenPart(p), p.hi, c)
  {
    hide Between, Spoken;
    if p.open.Some? {
      OneMessage(p.open.value, p, c);
    }
  }

  lemma {:induction false} BothInOpen(p: Plan)
    requires Found(OpenPart(p), p.lo) && Found(OpenPart(p), p.hi)
    ensures Cursor(p) == p.lo.lt
  {
  }

  /** The page size matters only through silent messages: without any, a copy gives the same
      for every page size. */
  lemma {:induction false} AnyPageSize(h: History, p: Plan, c: Codec, n: nat, n': nat)
    requires n > 0 && n' > 0 && forall m | m in h :: m.nodes != []
    ensures Copied(h, p, c, n) == Copied(h, p, c, n')
  {
    NoSilentRun(h, Below(h, p.lo.lt + 1), Below(h, Cursor(p)), n);
    NoSilentRun(h, Below(h, p.lo.lt + 1), Below(h, Cursor(p)), n');
  }

  lemma {:induction false} NoSilentRun(h: History, a: nat, b: nat, n: nat)
    requires b <= |h| && n > 0 && forall m | m in h :: m.nodes != []
    ensures !SilentRun(h, a, b, n)
  {
    forall i: nat | i + n <= b ensures !RunAt(h, i, n) {
      assert h[i] in h;
      assert !Silent(h, i);
    }
  }

  /** With silent messages it does matter: one of them, and a copy by pages of one fails where
      a copy by pages of two goes through. */
  lemma {:induction false} PageSizeCanMatter(h: History, p: Plan, c: Codec)
    requires h == [Message(1, [], [BLANK]), Message(2, [], []), Message(3, [], [BLANK])]
    requires p == Plan(Point(1, 0, 0), Point(3, 0, 0), None)
    requires c.hash(BLANK) == 0
    ensures Copied(h, p, c, 1).None? && Copied(h, p, c, 2).Some?
  {
    BelowIs(h, 2, 1);
    BelowIs(h, 4, 3);
    assert RunAt(h, 1, 1);
    assert !Silent(h, 2);
    assert Subject(h, p) == h;
    assert Has(h[0], p.lo) && Has(h[2], p.hi);
  }
}
