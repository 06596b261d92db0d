/** A client that keeps only its newest messages, against one that keeps them all, under
    any pages whatever: repeated, reordered or made up. */
module AriaBounded {
  import opened Aria
  import C = AriaClient

  predicate Distinct(ms: seq<Message>) {
    forall i, j :: 0 <= i < j < |ms| ==> ms[i].lt != ms[j].lt
  }

  predicate Ascending(ms: seq<Message>) {
    forall i, j :: 0 <= i < j < |ms| ==> ms[i].lt < ms[j].lt
  }

  /** kept are the limit messages of all with the highest LTs, or all of them. */
  ghost predicate Highest(all: seq<Message>, kept: seq<Message>, limit: nat) {
    && Distinct(all) && Distinct(kept)
    && |kept| == (if |all| < limit then |all| else limit)
    && (forall m :: m in kept ==> m in all)
    && (forall m, k :: m in all && m !in kept && k in kept ==> m.lt < k.lt)
  }

  // ----- Sorting and cutting

  lemma AppendAscends(ms: seq<Message>, last: Message)
    requires Ascending(ms) && forall x :: x in ms ==> x.lt < last.lt
    ensures Ascending(ms + [last])
  {
  }

  lemma {:induction false} InsertAscends(ms: seq<Message>, m: Message)
    requires Ascending(ms) && forall x :: x in ms ==> x.lt != m.lt
    ensures Ascending(C.Insert(ms, m))
    ensures forall x :: x in C.Insert(ms, m) <==> x in ms || x == m
  {
    if ms != [] && ms[|ms| - 1].lt > m.lt {
      var pre, last := ms[..|ms| - 1], ms[|ms| - 1];
      assert ms == pre + [last];
      InsertAscends(pre, m);
      AppendAscends(C.Insert(pre, m), last);
    }
  }

  lemma {:induction false} SortAscends(ms: seq<Message>)
    requires Distinct(ms)
    ensures Ascending(C.SortByLT(ms))
    ensures forall m :: m in C.SortByLT(ms) <==> m in ms
  {
    if ms != [] {
      var pre := ms[..|ms| - 1];
      assert ms == pre + [ms[|ms| - 1]];
      SortAscends(pre);
      InsertAscends(C.SortByLT(pre), ms[|ms| - 1]);
    }
  }

  /** What trimming keeps of too many messages. */
  lemma {:induction false} CutHighest(all: seq<Message>, limit: nat) returns (kept: seq<Message>)
    requires Distinct(all) && 0 < limit < |all|
    ensures kept == C.SortByLT(all)[|all| - limit..]
    ensures Highest(all, kept, limit) && Ascending(kept)
  {
    SortAscends(all);
    var sorted := C.SortByLT(all);
    kept := sorted[|all| - limit..];
    assert forall m :: m in all && m !in kept ==> m in sorted[..|all| - limit] by {
      assert sorted == sorted[..|all| - limit] + kept;
    }
  }

  lemma {:induction false} CountLTs(ms: seq<Message>)
    requires Distinct(ms)
    ensures |C.LTs(ms)| == |ms|
  {
    if ms == [] {
      assert C.LTs(ms) == {};
    } else {
      var pre, m := ms[..|ms| - 1], ms[|ms| - 1];
      CountLTs(pre);
      C.LTsAppend(pre, [m]);
      assert ms == pre + [m];
      assert [m][0].lt in C.LTs([m]);
      assert C.LTs([m]) == {m.lt};
      assert m.lt !in C.LTs(pre);
    }
  }

  lemma Subset(s: set<int>, t: set<int>)
    requires s <= t
    ensures |s| <= |t|
  {
    assert t == s + (t - s);
  }

  /** If limit messages lie at or above t, so do the limit highest. */
  lemma HighestAbove(all: seq<Message>, kept: seq<Message>, high: seq<Message>, limit: nat, t: int, k: Message)
    requires Highest(all, kept, limit) && Distinct(high) && |high| == limit
    requires forall m :: m in high ==> m in all && m.lt >= t
    requires k in kept
    ensures k.lt >= t
  {
    if k.lt < t {
      forall lt | lt in C.LTs(high) ensures lt in C.LTs(kept) {
        var i :| 0 <= i < |high| && high[i].lt == lt;
        assert high[i] in high;
        var j :| 0 <= j < |kept| && kept[j] == high[i];
      }
      var j :| 0 <= j < |kept| && kept[j] == k;
      assert k.lt in C.LTs(kept);
      CountLTs(kept);
      CountLTs(high);
      assert k.lt !in C.LTs(high);
      Subset(C.LTs(high) + {k.lt}, C.LTs(kept));
    }
  }

  // ----- The two clients

  predicate SameOpen(u: C.State, b: C.State) {
    && u.openLT == b.openLT && u.openRole == b.openRole && u.openV == b.openV
    && u.openOrder == b.openOrder && u.openBlock == b.openBlock
    && u.lastCommittedLT == b.lastCommittedLT
  }

  /** u keeps everything and b at most limit messages. */
  ghost predicate Refines(u: C.State, b: C.State, limit: int) {
    && 0 < limit && u.closedLimit == 0 && b.closedLimit == limit && u.closedFloor == 0
    && SameOpen(u, b)
    && u.closedSeen == C.LTs(u.closed) && b.closedSeen == C.LTs(b.closed)
    && Highest(u.closed, b.closed, limit)
    && (if |u.closed| <= limit then b.closed == u.closed && b.closedFloor == 0
        else Ascending(b.closed) && b.closedFloor == C.Max(0, b.closed[0].lt))
  }

  /** Within a page, above t: both have closed the same messages. */
  ghost predicate AgreeAbove(fu: C.Fold, fb: C.Fold, t: int) {
    && fu.desync == fb.desync && SameOpen(fu.c, fb.c)
    && fu.c.closedFloor == 0 && fb.c.closedFloor == C.Max(0, t)
    && Distinct(fu.c.closed + fu.finalized) && Distinct(fb.c.closed + fb.finalized)
    && fu.c.closedSeen == C.LTs(fu.c.closed + fu.finalized)
    && fb.c.closedSeen == C.LTs(fb.c.closed + fb.finalized)
    && forall m: Message :: m.lt >= t ==> (m in fu.c.closed + fu.finalized <==> m in fb.c.closed + fb.finalized)
  }

  /** The message an entry finalizes, if it is new. */
  function Offered(c: C.State, cm: Committed): Option<Message> {
    if cm.Full() then Some(Message(cm.lt, cm.role, cm.nodes))
    else if c.openLT == cm.lt && c.openV == cm.v then Some(C.OpenMessage(c))
    else None
  }

  predicate Fresh(c: C.State, cm: Committed) {
    if cm.Full() then !C.SeenClosed(c, cm.lt) else cm.lt !in c.closedSeen
  }

  /** What one entry does to the closed messages. */
  lemma TakeClosed(f: C.Fold, cm: Committed)
    ensures var g := C.TakeCommitted(f, cm);
            && g.c.closed == f.c.closed && g.c.closedFloor == f.c.closedFloor && g.c.closedLimit == f.c.closedLimit
            && (if Offered(f.c, cm).Some? && Fresh(f.c, cm)
                then g.finalized == f.finalized + [Offered(f.c, cm).value]
                     && g.c.closedSeen == f.c.closedSeen + {Offered(f.c, cm).value.lt}
                else g.finalized == f.finalized && g.c.closedSeen == f.c.closedSeen)
            && (Offered(f.c, cm).Some? ==> Offered(f.c, cm).value.lt == cm.lt)
  {
  }

  lemma TakeSameOpen(fu: C.Fold, fb: C.Fold, cm: Committed)
    requires SameOpen(fu.c, fb.c) && fu.desync == fb.desync
    ensures SameOpen(C.TakeCommitted(fu, cm).c, C.TakeCommitted(fb, cm).c)
    ensures C.TakeCommitted(fu, cm).desync == C.TakeCommitted(fb, cm).desync
    ensures Offered(fu.c, cm) == Offered(fb.c, cm)
  {
  }

  /** Appending a message with a new LT. */
  lemma AppendNew(ms: seq<Message>, m: Message)
    requires Distinct(ms) && m.lt !in C.LTs(ms)
    ensures Distinct(ms + [m]) && C.LTs(ms + [m]) == C.LTs(ms) + {m.lt}
  {
    forall i | 0 <= i < |ms| ensures ms[i].lt != m.lt {
      assert ms[i].lt in C.LTs(ms);
    }
    C.LTsAppend(ms, [m]);
    assert [m][0].lt in C.LTs([m]);
    assert C.LTs([m]) == {m.lt};
  }

  lemma SeenAlike(us: seq<Message>, bs: seq<Message>, t: int, lt: int)
    requires forall m: Message :: m.lt >= t ==> (m in us <==> m in bs)
    requires lt >= t
    ensures lt in C.LTs(us) <==> lt in C.LTs(bs)
  {
    if lt in C.LTs(us) {
      var i :| 0 <= i < |us| && us[i].lt == lt;
      var j :| 0 <= j < |bs| && bs[j] == us[i];
    }
    if lt in C.LTs(bs) {
      var i :| 0 <= i < |bs| && bs[i].lt == lt;
      var j :| 0 <= j < |us| && us[j] == bs[i];
    }
  }

  lemma TakeAgrees(fu: C.Fold, fb: C.Fold, cm: Committed, t: int)
    requires AgreeAbove(fu, fb, t)
    ensures AgreeAbove(C.TakeCommitted(fu, cm), C.TakeCommitted(fb, cm), t)
  {
    hide C.TakeCommitted, SameOpen, Offered, Distinct, C.LTs;
    TakeSameOpen(fu, fb, cm);
    TakeClosed(fu, cm);
    TakeClosed(fb, cm);
    var us, bs := fu.c.closed + fu.finalized, fb.c.closed + fb.finalized;
    var x := Offered(fu.c, cm);
    if x.Some? {
      if Fresh(fu.c, cm) {
        AppendNew(us, x.value);
        assert fu.c.closed + (fu.finalized + [x.value]) == us + [x.value];
      }
      if Fresh(fb.c, cm) {
        AppendNew(bs, x.value);
        assert fb.c.closed + (fb.finalized + [x.value]) == bs + [x.value];
      }
      if cm.lt >= t {
        SeenAlike(us, bs, t, cm.lt);
      }
    }
  }

  lemma {:induction false} TakeAllAgrees(fu: C.Fold, fb: C.Fold, cms: seq<Committed>, t: int)
    requires AgreeAbove(fu, fb, t)
    ensures AgreeAbove(C.TakeAll(fu, cms), C.TakeAll(fb, cms), t)
  {
    hide AgreeAbove, C.TakeCommitted;
    if cms != [] {
      TakeAllAgrees(fu, fb, cms[..|cms| - 1], t);
      TakeAgrees(C.TakeAll(fu, cms[..|cms| - 1]), C.TakeAll(fb, cms[..|cms| - 1]), cms[|cms| - 1], t);
    }
  }

  lemma {:induction false} TakeAllFrame(f: C.Fold, cms: seq<Committed>)
    ensures var g := C.TakeAll(f, cms);
            g.c.closed == f.c.closed && g.c.closedLimit == f.c.closedLimit && g.c.closedFloor == f.c.closedFloor
            && f.finalized <= g.finalized
  {
    hide C.TakeCommitted;
    if cms != [] {
      TakeAllFrame(f, cms[..|cms| - 1]);
      TakeClosed(C.TakeAll(f, cms[..|cms| - 1]), cms[|cms| - 1]);
    }
  }

  // ----- The end of a page

  /** The whole history an unbounded client has after the committed part of a page. */
  function All(f: C.Fold): seq<Message> { f.c.closed + f.finalized }

  function Landed(f: C.Fold): C.State { C.Trim(f.c.(closed := All(f))) }

  lemma LandSmall(fu: C.Fold, fb: C.Fold, limit: int)
    requires 0 < limit && fu.c.closedLimit == 0 && fu.c.closedFloor == 0
    requires fb == fu.(c := fu.c.(closedLimit := limit))
    requires Distinct(All(fu)) && fu.c.closedSeen == C.LTs(All(fu))
    ensures Refines(Landed(fu), Landed(fb), limit)
  {
    hide C.LTs, C.SortByLT, Distinct;
    if |All(fu)| > limit {
      var kept := CutHighest(All(fu), limit);
    }
  }

  /** The limit highest of bs are the limit highest of us, if the two agree from t on and
      bs has limit messages there. */
  lemma HighestOfBoth(us: seq<Message>, bs: seq<Message>, kept: seq<Message>, high: seq<Message>, limit: int, t: int)
    requires 0 < limit < |us| && Distinct(us) && Highest(bs, kept, limit)
    requires forall m: Message :: m.lt >= t ==> (m in us <==> m in bs)
    requires Distinct(high) && |high| == limit && forall m :: m in high ==> m in bs && m.lt >= t
    requires |bs| >= limit
    ensures Highest(us, kept, limit)
    ensures forall k :: k in kept ==> k.lt >= t
  {
    hide Distinct;
    forall k | k in kept ensures k.lt >= t {
      HighestAbove(bs, kept, high, limit, t, k);
    }
    forall m, k | m in us && m !in kept && k in kept ensures m.lt < k.lt {
      assert m.lt >= t ==> m in bs;
    }
  }

  lemma LandLarge(fu: C.Fold, fb: C.Fold, limit: int)
    requires 0 < limit && fu.c.closedLimit == 0 && fb.c.closedLimit == limit
    requires |fb.c.closed| == limit && Ascending(fb.c.closed) && |All(fu)| > limit
    requires AgreeAbove(fu, fb, fb.c.closed[0].lt)
    ensures Refines(Landed(fu), Landed(fb), limit)
  {
    hide C.LTs, C.SortByLT, Highest;
    var t, high := fb.c.closed[0].lt, fb.c.closed;
    assert Distinct(high);
    assert forall m :: m in high ==> m in All(fb) && m.lt >= t;
    if fb.finalized == [] {
      assert All(fb) == high;
      AllAreHighest(high, limit);
      HighestOfBoth(All(fu), All(fb), high, high, limit, t);
    } else {
      var kept := CutHighest(All(fb), limit);
      HighestOfBoth(All(fu), All(fb), kept, high, limit, t);
      KeptLimit(All(fb), kept, limit);
      assert kept[0] in kept;
    }
  }

  lemma AllAreHighest(ms: seq<Message>, limit: int)
    requires Distinct(ms) && |ms| == limit
    ensures Highest(ms, ms, limit)
  {
  }

  lemma KeptLimit(all: seq<Message>, kept: seq<Message>, limit: nat)
    requires Highest(all, kept, limit) && limit < |all|
    ensures |kept| == limit
  {
  }

  lemma {:induction false} TakeAllLimit(f: C.Fold, cms: seq<Committed>, limit: int)
    ensures C.TakeAll(f.(c := f.c.(closedLimit := limit)), cms)
            == C.TakeAll(f, cms).(c := C.TakeAll(f, cms).c.(closedLimit := limit))
  {
    if cms != [] {
      TakeAllLimit(f, cms[..|cms| - 1], limit);
    }
  }

  lemma CommittedRefines(u: C.State, b: C.State, limit: int, cms: seq<Committed>)
    requires Refines(u, b, limit)
    ensures var fu, fb := C.TakeAll(C.Fold(u, [], -1), cms), C.TakeAll(C.Fold(b, [], -1), cms);
            Refines(Landed(fu), Landed(fb), limit) && fu.desync == fb.desync
  {
    hide C.TakeAll, Landed, C.LTs;
    var f0, g0 := C.Fold(u, [], -1), C.Fold(b, [], -1);
    var fu, fb := C.TakeAll(f0, cms), C.TakeAll(g0, cms);
    assert u.closed + [] == u.closed && b.closed + [] == b.closed;
    TakeAllFrame(f0, cms);
    TakeAllFrame(g0, cms);
    if |u.closed| <= limit {
      TakeAllAgrees(f0, f0, cms, 0);
      assert b == u.(closedLimit := limit);
      TakeAllLimit(f0, cms, limit);
      LandSmall(fu, fb, limit);
    } else {
      TakeAllAgrees(f0, g0, cms, b.closed[0].lt);
      LandLarge(fu, fb, limit);
    }
  }

  lemma {:induction false} FoldNodesSame(u: C.State, b: C.State, ds: seq<NodeDelta>)
    requires SameOpen(u, b)
    ensures SameOpen(C.FoldNodes(u, ds), C.FoldNodes(b, ds))
    ensures (C.FoldNodes(u, ds) ==
             u.(openOrder := C.FoldNodes(u, ds).openOrder, openBlock := C.FoldNodes(u, ds).openBlock))
    ensures (C.FoldNodes(b, ds) ==
             b.(openOrder := C.FoldNodes(b, ds).openOrder, openBlock := C.FoldNodes(b, ds).openBlock))
  {
    hide Folded;
    if ds != [] {
      FoldNodesSame(u, b, ds[..|ds| - 1]);
    }
  }

  lemma LiveRefines(u: C.State, b: C.State, limit: int, f: Live)
    requires Refines(u, b, limit)
    ensures Refines(C.TakeLive(u, f), C.TakeLive(b, f), limit)
  {
    hide C.FoldNodes, Highest, Ascending, C.LTs;
    var u1 :=
      if u.openLT != f.lt then u.(openLT := f.lt, openRole := f.role, openOrder := [], openBlock := map[])
      else u;
    var b1 :=
      if b.openLT != f.lt then b.(openLT := f.lt, openRole := f.role, openOrder := [], openBlock := map[])
      else b;
    var u2 := if f.role != [] then u1.(openRole := f.role) else u1;
    var b2 := if f.role != [] then b1.(openRole := f.role) else b1;
    FoldNodesSame(u2, b2, f.nodes);
  }

  lemma {:induction false} PageRefines(u: C.State, b: C.State, limit: int, r: AriaRead)
    requires Refines(u, b, limit)
    ensures Refines(C.Applied(u, r), C.Applied(b, r), limit) && C.Desync(u, r) == C.Desync(b, r)
  {
    hide Refines, C.TakeAll, C.TakeLive, C.Trim;
    CommittedRefines(u, b, limit, r.committed);
    var fu, fb := C.TakeAll(C.Fold(u, [], -1), r.committed), C.TakeAll(C.Fold(b, [], -1), r.committed);
    if r.live.Some? {
      LiveRefines(Landed(fu), Landed(fb), limit, r.live.value);
    }
  }

  // ----- Runs

  function Play(c: C.State, pages: seq<AriaRead>): C.State {
    if pages == [] then c else C.Applied(Play(c, pages[..|pages| - 1]), pages[|pages| - 1])
  }

  /** What OnClosed is told, over all pages. */
  function Told(c: C.State, pages: seq<AriaRead>): seq<Message> {
    if pages == [] then []
    else Told(c, pages[..|pages| - 1]) + C.Finalized(Play(c, pages[..|pages| - 1]), pages[|pages| - 1])
  }

  lemma {:induction false} PlayRefines(pages: seq<AriaRead>, limit: int)
    requires limit > 0
    ensures Refines(Play(C.Fresh(0), pages), Play(C.Fresh(limit), pages), limit)
  {
    hide C.Applied;
    if pages == [] {
      assert C.LTs([]) == {};
    } else {
      PlayRefines(pages[..|pages| - 1], limit);
      PageRefines(Play(C.Fresh(0), pages[..|pages| - 1]), Play(C.Fresh(limit), pages[..|pages| - 1]), limit,
          pages[|pages| - 1]);
    }
  }

  /** After any pages at all, a client limited to limit messages holds exactly the limit
      highest of those the unlimited client holds, has the same open message and resume
      point, and signals the same desyncs on whatever page comes next. */
  lemma {:induction false} BoundedRefinesUnbounded(pages: seq<AriaRead>, limit: int, next: AriaRead)
    requires limit > 0
    ensures var u, b := Play(C.Fresh(0), pages), Play(C.Fresh(limit), pages);
            && Highest(u.closed, b.closed, limit)
            && SameOpen(u, b)
            && C.Desync(u, next) == C.Desync(b, next)
  {
    hide C.Applied, C.Desync;
    PlayRefines(pages, limit);
    PageRefines(Play(C.Fresh(0), pages), Play(C.Fresh(limit), pages), limit, next);
  }

  lemma AppliedClosed(c: C.State, r: AriaRead)
    requires c.closedLimit <= 0
    ensures C.Applied(c, r).closed == c.closed + C.Finalized(c, r)
  {
    hide C.TakeAll, C.FoldNodes;
    var f := C.TakeAll(C.Fold(c, [], -1), r.committed);
    TakeAllFrame(C.Fold(c, [], -1), r.committed);
    var c1 := C.Trim(f.c.(closed := f.c.closed + f.finalized));
    if r.live.Some? {
      TakeLiveClosed(c1, r.live.value);
    }
  }

  lemma TakeLiveClosed(c: C.State, f: Live)
    ensures C.TakeLive(c, f).closed == c.closed
  {
    hide C.FoldNodes;
    var c1 :=
      if c.openLT != f.lt then c.(openLT := f.lt, openRole := f.role, openOrder := [], openBlock := map[])
      else c;
    var c2 := if f.role != [] then c1.(openRole := f.role) else c1;
    FoldNodesSame(c2, c2, f.nodes);
  }

  /** The unlimited client finalizes each logical time at most once, under any pages, and
      holds exactly what it announced. */
  lemma {:induction false} FinalizesOnce(pages: seq<AriaRead>)
    ensures Told(C.Fresh(0), pages) == Play(C.Fresh(0), pages).closed
    ensures Distinct(Told(C.Fresh(0), pages))
  {
    hide C.Applied, C.Finalized, Distinct;
    PlayRefines(pages, 1);
    if pages != [] {
      var pre := pages[..|pages| - 1];
      FinalizesOnce(pre);
      PlayRefines(pre, 1);
      AppliedClosed(Play(C.Fresh(0), pre), pages[|pages| - 1]);
    }
  }
}
