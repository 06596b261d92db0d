/** The inline painter of internal/livelog/render/incipit.go: it repaints the changed span
    of the open message's rows and keeps its own account of how far they scrolled. */
module Incipit {
  import opened Terminal

  function RowAt(rows: seq<Row>, k: nat): Row { if k < |rows| then rows[k] else [] }

  function Max(x: int, y: int): int { if x > y then x else y }

  /** The two row lists look the same: a missing row is a blank one. */
  predicate LookSame(a: seq<Row>, b: seq<Row>) {
    forall k | 0 <= k < Max(|a|, |b|) :: RowAt(a, k) == RowAt(b, k)
  }

  method DiffRange(a: seq<Row>, b: seq<Row>) returns (first: int, last: int)
    ensures first < 0 <==> LookSame(a, b)
    ensures first >= 0 ==> first <= last < Max(|a|, |b|)
    ensures first >= 0 ==> RowAt(a, first) != RowAt(b, first) && RowAt(a, last) != RowAt(b, last)
    ensures first >= 0 ==> forall k: nat :: k < first || k > last ==> RowAt(a, k) == RowAt(b, k)
  {
    first, last := -1, -1;
    var n := |b|;
    if |a| > n {
      n := |a|;
    }
    for i := 0 to n
      invariant first < 0 ==> forall k :: 0 <= k < i ==> RowAt(a, k) == RowAt(b, k)
      invariant first >= 0 ==> first <= last < i && RowAt(a, first) != RowAt(b, first)
      invariant first >= 0 ==> RowAt(a, last) != RowAt(b, last)
      invariant first >= 0 ==> forall k :: 0 <= k < first || last < k < i ==> RowAt(a, k) == RowAt(b, k)
    {
      if RowAt(a, i) != RowAt(b, i) {
        if first == -1 {
          first := i;
        }
        last := i;
      }
    }
    if first >= 0 {
      assert RowAt(a, first) != RowAt(b, first);
    }
  }

  /** The terminal shows rows from line base on, nothing below them, and the region's first
      vt lines are above the viewport; the cursor is parked at the visible top. */
  ghost predicate Shows(t: VT, base: nat, rows: seq<Row>, vt: nat) {
    && Parked(t, base, vt)
    && (forall r: nat :: r >= base ==> t.Line(r) == RowAt(rows, r - base))
  }

  /** Moving the cursor from the visible top can reach row first of the region: it is not
      above the viewport, and it is inside it, or the region begins no lower than the
      viewport does. */
  predicate Reachable(t: VT, base: nat, vt: nat, first: nat) {
    vt <= first && (t.height == 0 || base <= t.top || base + first <= t.Bottom())
  }

  /** vmove: relative motion, computed from where the painter believes the cursor is. */
  function Vmove(cur: nat, target: nat): seq<TermOp> {
    if target > cur then [Down(target - cur)] else if target < cur then [Up(cur - target)] else []
  }

  function Feeds(n: nat): (ops: seq<TermOp>)
    ensures |ops| == 2 * n
  {
    if n == 0 then [] else Feeds(n - 1) + [CR, LF]
  }

  /** The motion to row first: down to it, or to the bottom row and then by line feeds. */
  function ToFirst(vt: nat, height: nat, first: nat): seq<TermOp> {
    if height > 0 && first > vt + height - 1 then
      Vmove(vt, vt + height - 1) + Feeds(first - (vt + height - 1))
    else
      Vmove(vt, first)
  }

  lemma {:induction false} RunConcat(t: VT, a: seq<TermOp>, b: seq<TermOp>)
    ensures Run(t, a + b) == Run(Run(t, a), b)
    decreases |b|
  {
    if b == [] {
      assert a + b == a;
    } else {
      var b' := b[..|b| - 1];
      assert (a + b)[..|a + b| - 1] == a + b';
      RunConcat(t, a, b');
    }
  }

  lemma RunOne(t: VT, op: TermOp)
    ensures Run(t, [op]) == Step(t, op)
  {
    assert [op][..0] == [];
  }

  lemma {:induction false} VmoveRuns(t: VT, cur: nat, target: nat)
    requires t.Ok()
    ensures var t' := Run(t, Vmove(cur, target));
            && SameLines(t, t') && t'.top == t.top && t'.Ok()
            && t'.row == (if target > cur then (if t.height > 0 && t.row + target - cur > t.Bottom() then t.Bottom()
                                                else t.row + target - cur)
                          else Max(t.top, t.row - (cur - target)))
  {
    if target > cur {
      RunOne(t, Down(target - cur));
      Motion(t, Down(target - cur));
    } else if target < cur {
      RunOne(t, Up(cur - target));
      Motion(t, Up(cur - target));
    }
  }

  lemma {:induction false} FeedsRun(t: VT, n: nat)
    requires t.Ok()
    ensures var t' := Run(t, Feeds(n));
            && SameLines(t, t') && t'.Ok() && t'.row == t.row + n && (n > 0 ==> t'.col == 0)
            && t'.top == (if t.height > 0 then Max(t.top, t.row + n - (t.height - 1)) else t.top)
  {
    if n > 0 {
      FeedsRun(t, n - 1);
      var t1 := Run(t, Feeds(n - 1));
      assert Feeds(n) == Feeds(n - 1) + [CR] + [LF];
      RunLast(t, Feeds(n - 1), CR);
      RunLast(t, Feeds(n - 1) + [CR], LF);
      Motion(t1, CR);
      LineFeed(Step(t1, CR));
    }
  }

  /** The cursor is parked at the visible top of the region at base. */
  predicate Parked(t: VT, base: nat, vt: nat) {
    t.Ok() && t.row == base + vt && vt == Max(0, t.top - base)
  }

  lemma DirectMove(t: VT, base: nat, vt: nat, first: nat)
    requires Parked(t, base, vt) && (t.height == 0 || first <= vt + t.height - 1)
    ensures var t' := Run(t, Vmove(vt, first));
            && (t'.row == base + first <==> Reachable(t, base, vt, first))
            && SameLines(t, t') && t'.Ok() && t'.top == t.top
  {
    hide Run, Vmove, SameLines;
    VmoveRuns(t, vt, first);
  }

  lemma FeedMove(t: VT, base: nat, vt: nat, first: nat)
    requires Parked(t, base, vt) && t.height > 0 && first > vt + t.height - 1
    ensures var t' := Run(t, Vmove(vt, vt + t.height - 1) + Feeds(first - (vt + t.height - 1)));
            && (t'.row == base + first <==> Reachable(t, base, vt, first))
            && SameLines(t, t') && t'.Ok()
            && (Reachable(t, base, vt, first) ==> t'.top == base + first - (t.height - 1))
  {
    hide Run, Vmove, Feeds;
    var bottom := vt + t.height - 1;
    VmoveRuns(t, vt, bottom);
    FeedsRun(Run(t, Vmove(vt, bottom)), first - bottom);
    RunConcat(t, Vmove(vt, bottom), Feeds(first - bottom));
  }

  /** The painter's motion lands on row first of the region exactly when it is reachable;
      then its scroll count is right as well. */
  lemma {:induction false} MoveLandsIff(t: VT, base: nat, vt: nat, first: nat)
    requires Parked(t, base, vt)
    ensures var t' := Run(t, ToFirst(vt, t.height, first));
            && (t'.row == base + first <==> Reachable(t, base, vt, first))
            && SameLines(t, t') && t'.Ok()
            && (Reachable(t, base, vt, first) ==>
                  Max(0, t'.top - base) == if t.height > 0 then Max(vt, first - (t.height - 1)) else vt)
  {
    hide Run, Vmove, Feeds, SameLines;
    if t.height > 0 && first > vt + t.height - 1 {
      FeedMove(t, base, vt, first);
    } else {
      DirectMove(t, base, vt, first);
    }
  }

  // ----- Painting

  /** The bytes of one row: erase, and the text if there is one. */
  function RowOps(next: seq<Row>, k: nat): seq<TermOp> {
    [EraseLine] + if k < |next| then [Text(next[k])] else []
  }

  /** The rows from first to last, each erased and rewritten. */
  function Body(next: seq<Row>, first: nat, last: nat): seq<TermOp>
    requires first <= last
  {
    if first == last then RowOps(next, first) else Body(next, first, last - 1) + [CR, LF] + RowOps(next, last)
  }

  /** Rows first to cur are written from line from on, every other line is as it was; the
      viewport has scrolled as far as the cursor made it. */
  ghost predicate Drawn(t0: VT, t: VT, from: nat, next: seq<Row>, first: nat, cur: nat) {
    && first <= cur && t.Ok() && t.height == t0.height && t.row == from + (cur - first)
    && t.top == (if t.height > 0 then Max(t0.top, t.row - (t.height - 1)) else t0.top)
    && (forall r: nat :: from <= r <= t.row ==> t.Line(r) == RowAt(next, first + (r - from)))
    && (forall r: nat :: !(from <= r <= t.row) ==> t.Line(r) == t0.Line(r))
  }

  /** One row at the cursor: that line becomes the row, no other line changes. */
  lemma RowDrawn(t: VT, next: seq<Row>, k: nat)
    requires t.Ok()
    ensures var t' := Run(t, RowOps(next, k));
            && t'.Ok() && t'.height == t.height && t'.row == t.row && t'.top == t.top
            && t'.Line(t.row) == RowAt(next, k) && forall r: nat :: r != t.row ==> t'.Line(r) == t.Line(r)
  {
    hide Step;
    RunOne(t, EraseLine);
    Erased(t);
    if k < |next| {
      RunLast(t, [EraseLine], Text(next[k]));
      Written(Step(t, EraseLine), next[k]);
    } else {
      assert RowOps(next, k) == [EraseLine];
    }
  }

  lemma NextLine(t: VT)
    requires t.Ok()
    ensures var t' := Run(t, [CR, LF]);
            && SameLines(t, t') && t'.Ok() && t'.row == t.row + 1
            && t'.top == (if t.height > 0 then Max(t.top, t.row + 1 - (t.height - 1)) else t.top)
  {
    hide Step;
    RunOne(t, CR);
    RunLast(t, [CR], LF);
    assert [CR] + [LF] == [CR, LF];
    Motion(t, CR);
    CursorKept(t);
    LineFeed(Step(t, CR));
  }

  /** The loop writes its rows from the line the cursor is on, wherever that is. */
  lemma {:induction false} BodyDrawn(t: VT, next: seq<Row>, first: nat, last: nat)
    requires t.Ok() && first <= last
    ensures Drawn(t, Run(t, Body(next, first, last)), t.row, next, first, last)
    decreases last - first
  {
    hide Run, RowOps, SameLines;
    if first == last {
      RowDrawn(t, next, first);
    } else {
      var b := Body(next, first, last - 1);
      BodyDrawn(t, next, first, last - 1);
      RunConcat(t, b, [CR, LF]);
      RunConcat(t, b + [CR, LF], RowOps(next, last));
      var t1 := Run(t, b);
      var t2 := Run(t1, [CR, LF]);
      NextLine(t1);
      RowDrawn(t2, next, last);
      SameEverywhere(t1, t2);
    }
  }

  lemma SameEverywhere(t: VT, t': VT)
    requires SameLines(t, t')
    ensures t'.height == t.height && forall r: nat :: t'.Line(r) == t.Line(r)
  {
  }

  function Scrolled(vt: nat, cur: nat, h: nat): nat { if h > 0 && cur > vt + h - 1 then cur - (h - 1) else vt }

  /** The head of a repaint: move to row first, and to its first column. */
  function Head(vt: nat, h: nat, first: nat): seq<TermOp> { [SyncOutput(true)] + ToFirst(vt, h, first) + [CR] }

  /** All the bytes of a repaint. */
  function Repaint(vt: nat, h: nat, next: seq<Row>, first: nat, last: nat): seq<TermOp>
    requires first <= last
  {
    Head(vt, h, first) + Body(next, first, last) + (Vmove(last, Scrolled(vt, last, h)) + [CR, SyncOutput(false)])
  }

  lemma CursorKept(t: VT)
    ensures Step(t, CR).row == t.row && forall on :: Step(t, SyncOutput(on)) == t
  {
  }

  lemma {:induction false} HeadRuns(t: VT, base: nat, vt: nat, first: nat)
    requires Parked(t, base, vt)
    ensures var t' := Run(t, Head(vt, t.height, first));
            && (t'.row == base + first <==> Reachable(t, base, vt, first))
            && SameLines(t, t') && t'.Ok()
            && (Reachable(t, base, vt, first) ==> Max(0, t'.top - base) == Scrolled(vt, first, t.height))
  {
    hide Run, ToFirst, Step;
    var t1 := Run(t, ToFirst(vt, t.height, first));
    RunOne(t, SyncOutput(true));
    CursorKept(t);
    RunConcat(t, [SyncOutput(true)], ToFirst(vt, t.height, first));
    RunLast(t, [SyncOutput(true)] + ToFirst(vt, t.height, first), CR);
    MoveLandsIff(t, base, vt, first);
    Motion(t1, CR);
    CursorKept(t1);
  }

  lemma {:induction false} TailRuns(t: VT, last: nat, vt: nat)
    requires t.Ok()
    ensures var t' := Run(t, Vmove(last, vt) + [CR, SyncOutput(false)]);
            && SameLines(t, t') && t'.Ok() && t'.top == t.top && t'.col == 0
            && t'.row == Run(t, Vmove(last, vt)).row
  {
    hide Run, Vmove;
    VmoveRuns(t, last, vt);
    var t1 := Run(t, Vmove(last, vt));
    Motion(t1, CR);
    RunLast(t, Vmove(last, vt), CR);
    RunLast(t, Vmove(last, vt) + [CR], SyncOutput(false));
    assert Vmove(last, vt) + [CR, SyncOutput(false)] == Vmove(last, vt) + [CR] + [SyncOutput(false)];
    CursorKept(t1);
    CursorKept(Step(t1, CR));
  }

  /** What a repaint leaves on the terminal: the changed span, written from the line that
      the motion reached. */
  lemma {:induction false} RepaintDraws(t: VT, base: nat, vt: nat, next: seq<Row>, first: nat, last: nat)
    returns (from: nat, mid: VT)
    requires Parked(t, base, vt) && first <= last
    ensures from == base + first <==> Reachable(t, base, vt, first)
    ensures from == Run(t, ToFirst(vt, t.height, first)).row
    ensures mid.Ok() && mid.height == t.height && mid.row == from + (last - first)
    ensures forall r: nat :: from <= r <= mid.row ==> mid.Line(r) == RowAt(next, first + (r - from))
    ensures forall r: nat :: !(from <= r <= mid.row) ==> mid.Line(r) == t.Line(r)
    ensures Reachable(t, base, vt, first) ==> Max(0, mid.top - base) == Scrolled(vt, last, t.height)
    ensures var t' := Run(t, Repaint(vt, t.height, next, first, last));
            && SameLines(mid, t') && t'.Ok() && t'.top == mid.top && t'.col == 0
            && t'.row == Run(mid, Vmove(last, Scrolled(vt, last, t.height))).row
  {
    hide Run, Head, Body, Vmove, ToFirst, Parked;
    var head, body := Head(vt, t.height, first), Body(next, first, last);
    var vt' := Scrolled(vt, last, t.height);
    HeadRuns(t, base, vt, first);
    HeadRow(t, vt, first);
    var t1 := Run(t, head);
    from := t1.row;
    BodyDrawn(t1, next, first, last);
    mid := Run(t1, body);
    RunConcat(t, head, body);
    RunConcat(t, head + body, Vmove(last, vt') + [CR, SyncOutput(false)]);
    TailRuns(mid, last, vt');
  }

  lemma {:induction false} HeadRow(t: VT, vt: nat, first: nat)
    ensures Run(t, Head(vt, t.height, first)).row == Run(t, ToFirst(vt, t.height, first)).row
  {
    hide Run, ToFirst, Step;
    RunOne(t, SyncOutput(true));
    CursorKept(t);
    RunConcat(t, [SyncOutput(true)], ToFirst(vt, t.height, first));
    RunLast(t, [SyncOutput(true)] + ToFirst(vt, t.height, first), CR);
    CursorKept(Run(t, ToFirst(vt, t.height, first)));
  }

  /** The heart of the painter. From a region that shows was, repainting the rows from first
      to last, where the two lists first and last differ, shows next if and only if row
      first is reachable: a motion that misses leaves a changed row unpainted. */
  lemma {:induction false} RepaintShowsIff(t: VT, base: nat, vt: nat, was: seq<Row>, next: seq<Row>, first: nat,
      last: nat)
    requires Shows(t, base, was, vt) && first <= last
    requires RowAt(was, first) != RowAt(next, first) && RowAt(was, last) != RowAt(next, last)
    requires forall k: nat :: k < first || k > last ==> RowAt(was, k) == RowAt(next, k)
    ensures var t' := Run(t, Repaint(vt, t.height, next, first, last));
            var vt' := Scrolled(vt, last, t.height);
            && t'.Ok() && t'.col == 0 && t'.height == t.height
            && (Reachable(t, base, vt, first) ==> Shows(t', base, next, vt') && Undisturbed(t, t', base))
            && (!Reachable(t, base, vt, first) ==> exists r: nat :: r >= base && t'.Line(r) != RowAt(next, r - base))
  {
    hide Run, Vmove, Repaint;
    var from, mid := RepaintDraws(t, base, vt, next, first, last);
    var t' := Run(t, Repaint(vt, t.height, next, first, last));
    SameEverywhere(mid, t');
    if Reachable(t, base, vt, first) {
      VmoveRuns(mid, last, Scrolled(vt, last, t.height));
      forall r: nat | r >= base ensures t'.Line(r) == RowAt(next, r - base) {
        var k: nat := r - base;
        assert k < first || k > last ==> RowAt(was, k) == RowAt(next, k);
      }
    } else if from < base + first {
      assert t'.Line(base + last) == RowAt(was, base + last - base);
    } else {
      assert t'.Line(base + first) == RowAt(was, base + first - base);
    }
  }

  /** The first row in which the lists differ. */
  function FirstDiff(a: seq<Row>, b: seq<Row>, i: nat): nat
    decreases Max(|a|, |b|) - i
  {
    if i < Max(|a|, |b|) && RowAt(a, i) == RowAt(b, i) then FirstDiff(a, b, i + 1) else i
  }

  lemma {:induction false} FirstDiffIs(a: seq<Row>, b: seq<Row>, i: nat, first: nat)
    requires i <= first < Max(|a|, |b|) && RowAt(a, first) != RowAt(b, first)
    requires forall k :: i <= k < first ==> RowAt(a, k) == RowAt(b, k)
    ensures FirstDiff(a, b, i) == first
    decreases first - i
  {
    if i < first {
      FirstDiffIs(a, b, i + 1, first);
    }
  }

  lemma ShowsAlike(t: VT, base: nat, a: seq<Row>, b: seq<Row>, vt: nat)
    requires Shows(t, base, a, vt) && LookSame(a, b)
    ensures Shows(t, base, b, vt)
  {
    assert forall k: nat :: RowAt(a, k) == RowAt(b, k);
  }

  class Painter {
    const term: FakeTerminal
    var liveLT: int
    var live: seq<Row>
    var vt: nat
    var cur: nat
    ghost var base: nat

    /** What the painter believes is what the terminal shows. */
    ghost predicate Valid()
      reads this, term
    {
      && cur == vt && Shows(term.Now(), base, live, vt)
      && (liveLT == 0 ==> live == [] && vt == 0) && (live != [] ==> term.col == 0)
    }

    constructor (term: FakeTerminal)
      requires term.Now().Ok() && forall r: nat :: r >= term.row ==> term.Now().Line(r) == []
      ensures Valid() && this.term == term && live == [] && liveLT == 0 && base == term.row
    {
      this.term := term;
      liveLT, live, vt, cur := 0, [], 0, 0;
      base := term.row;
    }

    /** The repaint will start on the right line. */
    ghost predicate CanPaint(next: seq<Row>)
      reads this, term
    {
      LookSame(live, next) || Reachable(term.Now(), base, vt, FirstDiff(live, next, 0))
    }

    /** The loop over the changed rows, with the painter's own scroll count. */
    method PaintRows(next: seq<Row>, first: nat, last: nat, h: nat) returns (b: seq<TermOp>)
      requires first <= last && cur == first
      modifies `vt, `cur
      ensures b == Body(next, first, last) && cur == last
      ensures vt == Scrolled(old(vt), last, h) || (last == first && vt == old(vt))
    {
      hide RowOps;
      b := RowOps(next, first);
      for k := first + 1 to last + 1
        invariant cur == k - 1 && b == Body(next, first, cur)
        invariant vt == if cur == first then old(vt) else Scrolled(old(vt), cur, h)
      {
        cur := cur + 1;
        if h > 0 && cur > vt + h - 1 {
          vt := cur - (h - 1);
        }
        b := b + [CR, LF] + RowOps(next, k);
      }
    }

    /** paint: repaint the changed span. The region shows the new rows, with nothing below
        them, the cursor parked at the visible top and the scroll count right, if and only
        if the first changed row could be reached; then no line above the region changed. */
    method Paint(next: seq<Row>)
      requires Valid() && liveLT != 0
      modifies this, term
      ensures base == old(base) && liveLT == old(liveLT) && term.Now().Ok() && term.height == old(term.height)
      ensures live == if LookSame(old(live), next) then old(live) else next
      ensures Valid() <==> old(CanPaint(next))
      ensures Shows(term.Now(), base, next, vt) <==> old(CanPaint(next))
      ensures old(CanPaint(next)) ==> Undisturbed(old(term.Now()), term.Now(), base)
    {
      hide LookSame, ToFirst, Vmove, Run, Body, Reachable;
      ghost var t0, was, vt0 := term.Now(), live, vt;
      ShowsParked(t0, base, live, vt);
      var first, last := DiffRange(live, next);
      if first < 0 {
        ShowsAlike(t0, base, live, next, vt);
        return;
      }
      FirstDiffIs(live, next, 0, first);
      var h := term.height;
      var head := [SyncOutput(true)] + ToFirst(vt, h, first) + [CR];
      if h > 0 && first > vt + h - 1 {
        vt := first - (h - 1);
      }
      cur := first;
      var body := PaintRows(next, first, last, h);
      var tail := Vmove(cur, vt) + [CR, SyncOutput(false)];
      assert head + body + tail == Repaint(vt0, h, next, first, last);
      RepaintShowsIff(t0, base, vt0, was, next, first, last);
      NotShown(Run(t0, Repaint(vt0, h, next, first, last)), base, next, vt);
      cur := vt;
      term.Write(head + body + tail);
      live := next;
    }

    /** Tick: the open message again, if there is one. */
    method Tick(rows: seq<Row>)
      requires Valid()
      modifies this, term
      ensures base == old(base) && liveLT == old(liveLT)
      ensures liveLT == 0 ==> live == old(live) && term.Now() == old(term.Now())
      ensures liveLT != 0 ==> (Shows(term.Now(), base, rows, vt) <==> old(CanPaint(rows)))
      ensures Valid() <==> liveLT == 0 || old(CanPaint(rows))
    {
      if liveLT == 0 {
        return;
      }
      Paint(rows);
    }

    /** Where a message that follows the live one would start. */
    ghost function Below(): nat
      reads this
    {
      base + Max(|live|, vt)
    }

    /** Leave the region: line feeds from the visible top to the line below it. */
    method DropBelow()
      requires Valid()
      modifies term
      ensures term.Now() == Run(old(term.Now()), Feeds(Max(0, |live| - vt)))
      ensures term.Now().Ok() && term.row == Below() && SameLines(old(term.Now()), term.Now())
    {
      var n := |live| - vt;
      FeedsRun(term.Now(), Max(0, n));
      if n > 0 {
        term.Write(Feeds(n));
      }
    }

    /** Release the region; a new one starts where the cursor is. */
    method Reset()
      requires term.Now().Ok() && forall r: nat :: r >= term.row ==> term.Now().Line(r) == []
      modifies this
      ensures Valid() && live == [] && liveLT == 0 && vt == 0 && base == term.row
    {
      liveLT, live, vt, cur := 0, [], 0, 0;
      base := term.row;
    }

    /** Seal of the message on screen: the cursor ends on the blank line below its rows,
        and from then on those rows are above every region. */
    method SealLive()
      requires Valid() && liveLT != 0
      modifies this, term
      ensures Valid() && live == [] && liveLT == 0
      ensures base == old(Below()) && SameLines(old(term.Now()), term.Now())
    {
      DropBelow();
      Reset();
    }

    /** Seal of a message that was never on screen: a blank line, its header, its rows, from
        the cursor on. With no message on screen they become scrollback. With another one
        on screen they go over its rows: these are left alone exactly when each printed row
        is a prefix of the row it lands on, and the cursor is in any case no longer where
        the painter believes it to be. */
    method SealUnseen(header: Row, rows: seq<Row>)
      requires Valid()
      modifies this, term
      ensures live == old(live) && liveLT == old(liveLT) && vt == old(vt)
      ensures term.row == old(term.row) + |Block(header, rows)|
      ensures forall r: nat :: term.Now().Line(r) == OverBlock(old(term.Now()), Block(header, rows), r)
      ensures old(liveLT) == 0 ==> Valid() && base == old(base) + |Block(header, rows)|
      ensures old(liveLT) == 0 ==> Undisturbed(old(term.Now()), term.Now(), old(base))
      ensures old(liveLT) == 0 ==> Holds(term.Now(), old(base), Block(header, rows))
      ensures old(liveLT) != 0 ==> !Valid() && base == old(base)
      ensures (old(liveLT) != 0 ==>
               (Undisturbed(old(term.Now()), term.Now(), old(Below())) <==> Passes(Block(header, rows), live, vt)))
    {
      hide Run, Printed, OverBlock, Shows, Passes, Undisturbed, Holds, Block;
      var b := BlockOps(header, rows);
      ghost var t := term.Now();
      ShowsParked(t, base, live, vt);
      BlockStarts(header, rows);
      PrintedOver(t, Block(header, rows));
      term.Write(b);
      if liveLT == 0 {
        SealedFresh(t, term.Now(), Block(header, rows));
        base := base + |Block(header, rows)|;
      } else {
        SealedOver(t, term.Now(), base, live, vt, Block(header, rows));
      }
    }

    /** Open(lt, ...) with these rows will paint on the right lines. */
    ghost predicate CanOpen(lt: int, rows: seq<Row>)
      reads this, term
    {
      if lt == liveLT then CanPaint(rows)
      else
        LookSame([], rows)
        || Reachable(if liveLT == 0 then term.Now() else Run(term.Now(), Feeds(Max(0, |live| - vt))),
                     Below(), 0, FirstDiff([], rows, 0))
    }

    /** Open: paint the rows of the open message. A message that another one overtakes
        unsealed stays on screen as it is. */
    method Open(lt: int, header: Row, body: seq<Row>, seal: seq<Row>)
      requires Valid() && lt != 0
      modifies this, term
      ensures liveLT == lt && term.Now().Ok()
      ensures base == if old(liveLT) == lt then old(base) else old(Below())
      ensures Valid() <==> old(CanOpen(lt, Composed(header, body, seal)))
      ensures (Shows(term.Now(), base, Composed(header, body, seal), vt) <==>
               old(CanOpen(lt, Composed(header, body, seal))))
      ensures old(CanOpen(lt, Composed(header, body, seal))) ==> Undisturbed(old(term.Now()), term.Now(), base)
    {
      hide Run, Reachable;
      if lt != liveLT {
        if liveLT != 0 {
          DropBelow();
        }
        Reset();
        liveLT := lt;
      }
      Paint(Composed(header, body, seal));
    }

    /** Resize: the terminal has a new height; what is visible of the message is erased and
        the message painted afresh from there. The scrollback is not touched. */
    method Resize(height: nat, rows: seq<Row>)
      requires Valid()
      modifies this, term
      ensures liveLT == old(liveLT) && term.Now().Ok()
      ensures liveLT == 0 ==> Valid()
      ensures liveLT != 0 ==> base == old(term.row)
      ensures liveLT != 0 ==> (Valid() <==> FreshOk(Resized(old(term.Now()), height), rows))
      ensures liveLT != 0 ==> (Shows(term.Now(), base, rows, vt) <==> FreshOk(Resized(old(term.Now()), height), rows))
      ensures (liveLT != 0 && FreshOk(Resized(old(term.Now()), height), rows) ==>
               Undisturbed(old(term.Now()), term.Now(), base))
    {
      hide Run;
      ResizeKeepsParked(term.Now(), base, vt, height);
      term.Resize(height);
      if liveLT == 0 {
        return;
      }
      ghost var t := term.Now();
      RegionErased(t, base, live, vt);
      RunOne(t, EraseBelow);
      term.Write([EraseBelow]);
      live, vt, cur := [], 0, 0;
      base := term.row;
      ghost var t1 := term.Now();
      Paint(rows);
      assert FreshOk(t, rows) <==> FreshOk(t1, rows);
    }
  }

  /** Rows can be painted as a fresh region at the cursor. */
  ghost predicate FreshOk(t: VT, rows: seq<Row>) {
    LookSame([], rows) || Reachable(t, t.row, 0, FirstDiff([], rows, 0))
  }

  lemma ResizeKeepsParked(t: VT, base: nat, vt: nat, height: nat)
    requires Parked(t, base, vt)
    ensures Parked(Resized(t, height), base, vt) && SameLinesAs(t, Resized(t, height))
  {
  }

  ghost predicate SameLinesAs(t: VT, t': VT) { forall r: nat :: t'.Line(r) == t.Line(r) }

  lemma RegionErased(t: VT, base: nat, live: seq<Row>, vt: nat)
    requires Parked(t, base, vt) && (live != [] ==> t.col == 0)
    requires forall r: nat :: r >= base ==> t.Line(r) == RowAt(live, r - base)
    ensures var t' := Step(t, EraseBelow);
            && Shows(t', t.row, [], 0) && t'.top == t.top && t'.row == t.row && t'.height == t.height
            && forall r: nat :: r < t.row ==> t'.Line(r) == t.Line(r)
  {
    assert t.Line(t.row) == RowAt(live, vt);
    BelowErased(t);
  }

  /** No line above base changed. */
  ghost predicate Undisturbed(t: VT, t': VT, base: nat) { forall r: nat :: r < base ==> t'.Line(r) == t.Line(r) }

  lemma ShowsParked(t: VT, base: nat, rows: seq<Row>, vt: nat)
    requires Shows(t, base, rows, vt)
    ensures Parked(t, base, vt)
  {
  }

  lemma NotShown(t: VT, base: nat, rows: seq<Row>, vt: nat)
    ensures Shows(t, base, rows, vt) ==> forall r: nat :: r >= base ==> t.Line(r) == RowAt(rows, r - base)
  {
  }

  // ----- Printing

  function LineOps(r: Row): seq<TermOp> { (if r == [] then [] else [Text(r)]) + [CR, LF] }

  function Printed(rows: seq<Row>): seq<TermOp> {
    if rows == [] then [] else Printed(rows[..|rows| - 1]) + LineOps(rows[|rows| - 1])
  }

  lemma PrintedNone()
    ensures Printed([]) == []
  {
  }

  lemma PrintedLast(rows: seq<Row>, r: Row)
    ensures Printed(rows + [r]) == Printed(rows) + LineOps(r)
  {
    assert (rows + [r])[..|rows|] == rows;
  }

  /** The rows of a message: a blank one, its header if it has one, its body, and the rows
      that close it. */
  function Composed(header: Row, body: seq<Row>, seal: seq<Row>): seq<Row> {
    [[]] + (if header != [] then [header, []] else []) + body + (if seal != [] then [[]] + seal else [])
  }

  /** The lines of a message printed whole. */
  function Block(header: Row, rows: seq<Row>): seq<Row> { Composed(header, rows, []) }

  /** A row printed over a line: what it does not reach of the line stays. */
  function Overlaid(line: Row, s: Row): Row { if |s| < |line| then s + line[|s|..] else s }

  /** Line r after rows were printed from the cursor on. */
  function OverBlock(t: VT, rows: seq<Row>, r: nat): Row {
    if t.row <= r < t.row + |rows| then Overlaid(t.Line(r), rows[r - t.row]) else t.Line(r)
  }

  /** rows stand on the lines from base on. */
  ghost predicate Holds(t: VT, base: nat, rows: seq<Row>) {
    forall k: nat :: k < |rows| ==> t.Line(base + k) == rows[k]
  }

  /** Each printed row is a prefix of the row of the region that it lands on. */
  predicate Passes(printed: seq<Row>, live: seq<Row>, vt: nat) {
    forall k :: 0 <= k < |printed| && vt + k < |live| ==> printed[k] <= live[vt + k]
  }

  lemma OverlaidIs(line: Row, s: Row)
    ensures Overlaid(line, s) == line <==> s <= line
    ensures Overlaid([], s) == s && Overlaid(line, []) == line
  {
  }

  lemma BlockStarts(header: Row, rows: seq<Row>)
    ensures Block(header, rows) != [] && Block(header, rows)[0] == []
  {
  }

  /** Printed below everything, the rows stand where they were printed. */
  lemma {:induction false} SealedFresh(t: VT, t': VT, rows: seq<Row>)
    requires Shows(t, t.row, [], 0) && t'.Ok() && t'.row == t.row + |rows|
    requires forall r: nat :: t'.Line(r) == OverBlock(t, rows, r)
    ensures Shows(t', t'.row, [], 0) && Undisturbed(t, t', t.row) && Holds(t', t.row, rows)
  {
    hide OverBlock;
    assert forall r: nat :: r >= t.row ==> t.Line(r) == RowAt([], r - t.row) == [];
    OverBlank(t, rows);
  }

  /** Printed over a region. */
  lemma {:induction false} SealedOver(t: VT, t': VT, base: nat, live: seq<Row>, vt: nat, rows: seq<Row>)
    requires Shows(t, base, live, vt) && t'.row == t.row + |rows| && rows != []
    requires forall r: nat :: t'.Line(r) == OverBlock(t, rows, r)
    ensures !Shows(t', base, live, vt)
    ensures Undisturbed(t, t', base + Max(|live|, vt)) <==> Passes(rows, live, vt)
  {
    hide OverBlock, Passes;
    OverLive(t, base, live, vt, rows);
    assert Unprinted(t, rows, base + Max(|live|, vt)) <==> Undisturbed(t, t', base + Max(|live|, vt));
  }

  lemma {:induction false} OverBlank(t: VT, rows: seq<Row>)
    requires forall r: nat :: r >= t.row ==> t.Line(r) == []
    ensures forall k: nat :: k < |rows| ==> OverBlock(t, rows, t.row + k) == rows[k]
    ensures forall r: nat :: r < t.row || r >= t.row + |rows| ==> OverBlock(t, rows, r) == t.Line(r)
  {
    forall k: nat | k < |rows| ensures OverBlock(t, rows, t.row + k) == rows[k] {
      OverlaidIs([], rows[k]);
    }
  }

  lemma {:induction false} OverLive(t: VT, base: nat, live: seq<Row>, vt: nat, rows: seq<Row>)
    requires Shows(t, base, live, vt)
    ensures Unprinted(t, rows, base + Max(|live|, vt)) <==> Passes(rows, live, vt)
  {
    hide Overlaid, Parked;
    assert t.row == base + vt by { ShowsParked(t, base, live, vt); }
    forall k: nat | k < |rows| && vt + k < |live|
      ensures OverBlock(t, rows, t.row + k) == t.Line(t.row + k) <==> rows[k] <= live[vt + k]
    {
      assert t.Line(t.row + k) == RowAt(live, t.row + k - base);
      OverlaidIs(t.Line(t.row + k), rows[k]);
    }
    if Passes(rows, live, vt) {
      forall r: nat | r < base + Max(|live|, vt) ensures OverBlock(t, rows, r) == t.Line(r) {
        assert r >= t.row ==> r == t.row + (r - t.row);
      }
    }
  }

  /** Printing leaves all lines above line end as they were. */
  ghost predicate Unprinted(t: VT, rows: seq<Row>, end: nat) {
    forall r: nat :: r < end ==> OverBlock(t, rows, r) == t.Line(r)
  }

  method BlockOps(header: Row, rows: seq<Row>) returns (b: seq<TermOp>)
    ensures b == Printed(Block(header, rows))
  {
    hide Printed;
    b := [CR, LF];
    ghost var front: seq<Row> := [[]];
    PrintedNone();
    PrintedLast([], []);
    assert [] + [[]] == front && Printed(front) == [] + LineOps([]);
    if header != [] {
      b := b + [Text(header), CR, LF] + [CR, LF];
      PrintedLast(front, header);
      PrintedLast(front + [header], []);
      front := front + [header] + [[]];
      assert b == [CR, LF] + LineOps(header) + LineOps([]);
    }
    assert front + rows[..0] == front;
    for i := 0 to |rows|
      invariant b == Printed(front + rows[..i])
    {
      PrintedLast(front + rows[..i], rows[i]);
      assert front + rows[..i + 1] == front + rows[..i] + [rows[i]];
      b := b + (if rows[i] == [] then [] else [Text(rows[i])]) + [CR, LF];
    }
    assert rows[..|rows|] == rows && front + rows == Block(header, rows);
  }

  lemma LineRun(t: VT, r: Row)
    requires t.Ok() && (r == [] || t.col == 0)
    ensures var t' := Run(t, LineOps(r));
            && t'.Ok() && t'.row == t.row + 1 && t'.col == 0
            && t'.Line(t.row) == Overlaid(t.Line(t.row), r) && forall k: nat :: k != t.row ==> t'.Line(k) == t.Line(k)
  {
    hide Step;
    var t1 := t;
    if r != [] {
      RunOne(t, Text(r));
      WrittenOver(t, r);
      t1 := Step(t, Text(r));
    }
    var pre := if r == [] then [] else [Text(r)];
    assert Run(t, pre) == t1;
    OverlaidIs(t.Line(t.row), r);
    RunLast(t, pre, CR);
    RunLast(t, pre + [CR], LF);
    assert LineOps(r) == pre + [CR] + [LF];
    Motion(t1, CR);
    CursorKept(t1);
    LineFeed(Step(t1, CR));
  }

  /** Printing rows from the cursor on, the first of them blank. */
  lemma {:induction false} PrintedOver(t: VT, rows: seq<Row>)
    requires t.Ok() && (rows != [] ==> rows[0] == [])
    ensures var t' := Run(t, Printed(rows));
            && t'.Ok() && t'.row == t.row + |rows| && (rows != [] ==> t'.col == 0)
            && forall r: nat :: t'.Line(r) == OverBlock(t, rows, r)
  {
    hide LineOps, Overlaid;
    if rows != [] {
      var pre := rows[..|rows| - 1];
      PrintedOver(t, pre);
      RunConcat(t, Printed(pre), LineOps(rows[|rows| - 1]));
      LineRun(Run(t, Printed(pre)), rows[|rows| - 1]);
    }
  }

  // ----- When painting goes wrong

  /** A fresh region whose row f is the first that is not blank: it is painted right if and
      only if that row is inside the viewport, or the region begins at its top. */
  lemma {:induction false} FreshRegionIff(t: VT, rows: seq<Row>, f: nat)
    requires Shows(t, t.row, [], 0) && f < |rows| && rows[f] != [] && forall k :: 0 <= k < f ==> rows[k] == []
    ensures FreshOk(t, rows) <==> t.height == 0 || t.row == t.top || t.row + f <= t.Bottom()
  {
    FirstDiffIs([], rows, 0, f);
    assert RowAt([], f) != RowAt(rows, f);
  }

  /** So a message with a header, on a fresh line, is painted right exactly when that is not
      the last line of a viewport of two lines or more. */
  lemma {:induction false} HeaderShownIff(t: VT, header: Row, body: seq<Row>, seal: seq<Row>)
    requires Shows(t, t.row, [], 0) && header != []
    ensures FreshOk(t, Composed(header, body, seal)) <==> t.height <= 1 || t.row < t.Bottom()
  {
    var rows := Composed(header, body, seal);
    assert rows[0] == [] && rows[1] == header;
    FreshRegionIff(t, rows, 1);
  }

  /** What is seen instead: on the last line the header takes the place of the blank row. */
  lemma {:induction false} BottomLineLosesBlank(t: VT, rows: seq<Row>, last: nat)
    requires Shows(t, t.row, [], 0) && t.height > 1 && t.row == t.Bottom()
    requires |rows| > 1 && rows[0] == [] && rows[1] != [] && 1 <= last
    ensures FirstDiff([], rows, 0) == 1 && !Reachable(t, t.row, 0, 1)
    ensures Run(t, Repaint(0, t.height, rows, 1, last)).Line(t.row) == rows[1] != rows[0]
  {
    hide Run, Repaint;
    FirstDiffIs([], rows, 0, 1);
    var from, mid := RepaintDraws(t, t.row, 0, rows, 1, last);
    VmoveRuns(t, 0, 1);
    SameEverywhere(mid, Run(t, Repaint(0, t.height, rows, 1, last)));
  }

  /** A row appended to a region is shown if and only if the region begins at or above the top
      of the viewport, or ends above its last line. */
  lemma {:induction false} AppendedRowShownIff(t: VT, base: nat, live: seq<Row>, vt: nat, row: Row)
    requires Shows(t, base, live, vt) && vt <= |live| && row != []
    ensures var t' := Run(t, Repaint(vt, t.height, live + [row], |live|, |live|));
            var vt' := Scrolled(vt, |live|, t.height);
            (Shows(t', base, live + [row], vt') <==>
             t.height == 0 || base <= t.top || base + |live| <= t.Bottom())
  {
    hide Run, Repaint, Parked;
    var next := live + [row];
    assert RowAt(next, |live|) == row && RowAt(live, |live|) == [];
    RepaintShowsIff(t, base, vt, live, next, |live|, |live|);
    NotShown(Run(t, Repaint(vt, t.height, next, |live|, |live|)), base, next, Scrolled(vt, |live|, t.height));
  }

  /** What is seen otherwise: the appended row takes the place of the one before it. */
  lemma {:induction false} GrowthAtBottomOverwrites(t: VT, base: nat, live: seq<Row>, vt: nat, row: Row)
    requires Shows(t, base, live, vt) && live != [] && row != live[|live| - 1]
    requires t.height > 0 && base > t.top && base + |live| == t.Bottom() + 1
    ensures (Run(t, Repaint(vt, t.height, live + [row], |live|, |live|)).Line(base + |live| - 1)
             == row != (live + [row])[|live| - 1])
  {
    hide Run, Repaint;
    var from, mid := RepaintDraws(t, base, vt, live + [row], |live|, |live|);
    VmoveRuns(t, vt, |live|);
    SameEverywhere(mid, Run(t, Repaint(vt, t.height, live + [row], |live|, |live|)));
  }

  /** A message sealed beside a live one: its header goes over the live message's row. */
  lemma {:induction false} HeaderGoesOverLive(t: VT, base: nat, live: seq<Row>, header: Row, rows: seq<Row>)
    requires live == [[], ['r', 'e', 'p', 'l', 'y']] && header == ['y', 'o', 'u'] && Shows(t, base, live, 0)
    ensures !Passes(Block(header, rows), live, 0)
    ensures OverBlock(t, Block(header, rows), base + 1) == ['y', 'o', 'u', 'l', 'y']
  {
    var b := Block(header, rows);
    assert b[1] == header && t.row == base && t.Line(base + 1) == RowAt(live, 1);
    assert live[1][3..] == ['l', 'y'];
    assert header[0] != live[1][0];
  }
}
