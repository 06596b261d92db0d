/** The terminal of internal/livelog/render/fake.go: a growing grid of lines, a cursor, and
    a viewport that scrolls. Cursor motion clamps as in sections 8.3.19 (CUD) and 8.3.22
    (CUU) of ECMA-48; erasing a line is section 8.3.41 (EL). */
module Terminal {
  type Row = seq<char>

  /** EraseLine is EL 2, EraseToEnd is EL 0, EraseBelow is ED 0, Clear is ED 2; Position (CUP)
      counts from 1. */
  datatype TermOp =
    | Up(n: nat) | Down(n: nat) | CR | LF | EraseLine | Text(s: Row) | SyncOutput(on: bool)
    | EraseToEnd | EraseBelow | Clear | Position(row: nat, col: nat)

  /** height 0 is a terminal without a known height: it never scrolls. */
  datatype VT = VT(lines: seq<Row>, row: nat, col: nat, top: nat, height: nat)
  {
    function Bottom(): int { top + height - 1 }

    /** The cursor is inside the viewport. */
    predicate Ok() { top <= row && (height > 0 ==> row <= Bottom()) }

    /** A line never written reads as blank. */
    function Line(r: nat): Row { if r < |lines| then lines[r] else [] }
  }

  function Ensure(lines: seq<Row>, r: nat): (e: seq<Row>)
    ensures |e| > r && lines <= e
    ensures forall k :: |lines| <= k < |e| ==> e[k] == []
    decreases r + 1 - |lines|
  {
    if |lines| > r then lines else Ensure(lines + [[]], r)
  }

  function Blanks(n: nat): (s: Row)
    ensures |s| == n
  {
    seq(n, _ => ' ')
  }

  function PutAt(line: Row, col: nat, c: char): (l: Row)
    ensures |l| > col
  {
    (if |line| <= col then line + Blanks(col + 1 - |line|) else line)[col := c]
  }

  function CutAt(line: Row, col: nat): Row { if col < |line| then line[..col] else line }

  function FromOne(n: nat): nat { if n == 0 then 0 else n - 1 }

  function Overwrite(line: Row, col: nat, s: Row): Row
    decreases |s|
  {
    if s == [] then line else Overwrite(PutAt(line, col, s[0]), col + 1, s[1..])
  }

  function Step(t: VT, op: TermOp): VT {
    match op
    case Up(n) => t.(row := if t.row - n < t.top then t.top else t.row - n)
    case Down(n) =>
      var r: nat := if t.height > 0 && t.row + n > t.Bottom() then t.Bottom() else t.row + n;
      t.(row := r, lines := Ensure(t.lines, r))
    case CR => t.(col := 0)
    case LF =>
      t.(row := t.row + 1, col := 0, lines := Ensure(t.lines, t.row + 1),
         top := if t.height > 0 && t.row + 1 > t.Bottom() then t.row + 1 - (t.height - 1) else t.top)
    case EraseLine => t.(lines := Ensure(t.lines, t.row)[t.row := []], col := 0)
    case Text(s) =>
      if s == [] then t
      else
        var lines := Ensure(t.lines, t.row);
        t.(lines := lines[t.row := Overwrite(lines[t.row], t.col, s)], col := t.col + |s|)
    case SyncOutput(_) => t
    case EraseToEnd =>
      var lines := Ensure(t.lines, t.row);
      t.(lines := lines[t.row := CutAt(lines[t.row], t.col)])
    case EraseBelow =>
      var lines := Ensure(t.lines, t.row);
      t.(lines := lines[..t.row] + [CutAt(lines[t.row], t.col)])
    case Clear => t.(lines := [], row := 0, col := 0, top := 0)
    case Position(r, c) => t.(row := FromOne(r), col := FromOne(c), lines := Ensure(t.lines, FromOne(r)))
  }

  function Resized(t: VT, height: nat): VT {
    t.(height := height, top := if height > 0 && t.row > t.top + height - 1 then t.row - (height - 1) else t.top)
  }

  function Run(t: VT, ops: seq<TermOp>): VT {
    if ops == [] then t else Step(Run(t, ops[..|ops| - 1]), ops[|ops| - 1])
  }

  lemma RunLast(t: VT, ops: seq<TermOp>, op: TermOp)
    ensures Run(t, ops + [op]) == Step(Run(t, ops), op)
  {
    assert (ops + [op])[..|ops|] == ops;
  }

  class FakeTerminal {
    var lines: seq<Row>
    var row: nat
    var col: nat
    var top: nat
    var height: nat

    function Now(): VT reads this { VT(lines, row, col, top, height) }

    constructor (height: nat)
      ensures Now() == VT([], 0, 0, 0, height) && Now().Ok()
    {
      lines, row, col, top, this.height := [], 0, 0, 0, height;
    }

    /** A new height: on a shrink the viewport moves down until the cursor is inside. */
    method Resize(height: nat)
      modifies `height, `top
      ensures Now() == Resized(old(Now()), height)
    {
      this.height := height;
      if height > 0 && row > top + height - 1 {
        top := row - (height - 1);
      }
    }

    method EnsureRow(r: nat)
      modifies `lines
      ensures lines == Ensure(old(lines), r)
    {
      while |lines| <= r
        invariant Ensure(lines, r) == Ensure(old(lines), r)
      {
        lines := lines + [[]];
      }
    }

    method Put(c: char)
      modifies `lines, `col
      ensures lines == Ensure(old(lines), row)[row := PutAt(Ensure(old(lines), row)[row], old(col), c)]
      ensures col == old(col) + 1
    {
      EnsureRow(row);
      var line := lines[row];
      ghost var was := line;
      while |line| <= col
        invariant |was| <= |line| && was <= line
        invariant |line| == |was| || |line| <= col + 1
        invariant forall k :: |was| <= k < |line| ==> line[k] == ' '
      {
        line := line + [' '];
      }
      assert line == if |was| <= col then was + Blanks(col + 1 - |was|) else was;
      lines := lines[row := line[col := c]];
      col := col + 1;
    }

    method PutAll(s: Row)
      modifies `lines, `col
      ensures Now() == Step(old(Now()), Text(s))
    {
      for i := 0 to |s|
        invariant col == old(col) + i
        invariant if i == 0 then lines == old(lines)
                  else |lines| == |Ensure(old(lines), row)| > row
                       && lines == Ensure(old(lines), row)[row := lines[row]]
        invariant Overwrite(Ensure(lines, row)[row], col, s[i..])
                  == Overwrite(Ensure(old(lines), row)[row], old(col), s)
      {
        assert s[i..][0] == s[i] && s[i..][1..] == s[i + 1..];
        Put(s[i]);
      }
      assert s[|s|..] == [];
    }

    method Write(ops: seq<TermOp>)
      modifies this
      ensures Now() == Run(old(Now()), ops)
    {
      for i := 0 to |ops|
        invariant Now() == Run(old(Now()), ops[..i])
      {
        RunLast(old(Now()), ops[..i], ops[i]);
        assert ops[..i + 1] == ops[..i] + [ops[i]];
        One(ops[i]);
      }
      assert ops[..|ops|] == ops;
    }

    method One(op: TermOp)
      modifies this
      ensures Now() == Step(old(Now()), op)
    {
      match op
      case Up(n) =>
        if row - n < top {
          row := top;
        } else {
          row := row - n;
        }
      case Down(n) =>
        row := row + n;
        if height > 0 && row > top + height - 1 {
          row := top + height - 1;
        }
        EnsureRow(row);
      case CR =>
        col := 0;
      case LF =>
        row := row + 1;
        col := 0;
        if height > 0 && row > top + height - 1 {
          top := row - (height - 1);
        }
        EnsureRow(row);
      case EraseLine =>
        EnsureRow(row);
        lines := lines[row := []];
        col := 0;
      case Text(s) =>
        PutAll(s);
      case SyncOutput(_) =>
      case EraseToEnd =>
        EnsureRow(row);
        if col < |lines[row]| {
          lines := lines[row := lines[row][..col]];
        }
      case EraseBelow =>
        EnsureRow(row);
        if col < |lines[row]| {
          lines := lines[row := lines[row][..col]];
        }
        lines := lines[..row + 1];
      case Clear =>
        lines, row, col, top := [], 0, 0, 0;
      case Position(r, c) =>
        row, col := FromOne(r), FromOne(c);
        EnsureRow(row);
    }
  }

  // ----- What the steps do to the lines

  /** t' shows the same lines as t, in a viewport of the same height. */
  ghost predicate SameLines(t: VT, t': VT) {
    t'.height == t.height && forall r: nat :: t'.Line(r) == t.Line(r)
  }

  /** Everything but absolute positioning keeps the cursor inside the viewport. */
  lemma StaysOk(t: VT, op: TermOp)
    requires t.Ok() && !op.Position?
    ensures Step(t, op).Ok()
  {
  }

  /** So no output without CUP ever moves the cursor into the scrollback or below the viewport,
      nor changes a line of the scrollback. */
  lemma {:induction false} RunStaysOk(t: VT, ops: seq<TermOp>)
    requires t.Ok() && forall op :: op in ops ==> !op.Position? && !op.Clear?
    ensures (Run(t, ops).Ok() && t.top <= Run(t, ops).top && forall r: nat :: r < t.top ==>
             Run(t, ops).Line(r) == t.Line(r))
  {
    hide Step;
    if ops != [] {
      var pre, op := ops[..|ops| - 1], ops[|ops| - 1];
      assert op in ops && forall o :: o in pre ==> o in ops;
      RunStaysOk(t, pre);
      StaysOk(Run(t, pre), op);
      ScrollbackStays(Run(t, pre), op);
    }
  }

  lemma ScrollbackStays(t: VT, op: TermOp)
    requires t.Ok() && !op.Position? && !op.Clear?
    ensures t.top <= Step(t, op).top && forall r: nat :: r < t.top ==> Step(t, op).Line(r) == t.Line(r)
  {
  }

  /** With CUP it does: the reference terminal counts rows from its first line, not from its
      viewport, so once it has scrolled, text at the home position goes into the scrollback. */
  lemma {:induction false} HomeIsScrollback(t: VT, s: Row)
    requires t.Ok() && t.top > 0 && s != []
    ensures !Run(t, [Position(1, 1)]).Ok() && s <= Run(t, [Position(1, 1), Text(s)]).Line(0)
  {
    assert [Position(1, 1)][..0] == [];
    RunLast(t, [], Position(1, 1));
    assert [] + [Position(1, 1)] == [Position(1, 1)];
    RunLast(t, [Position(1, 1)], Text(s));
    assert [Position(1, 1)] + [Text(s)] == [Position(1, 1), Text(s)];
    OverwriteIs(t.Line(0), 0, s);
  }

  lemma LineFeed(t: VT)
    requires t.Ok()
    ensures var t' := Step(t, LF);
            && SameLines(t, t') && t'.Ok() && t'.row == t.row + 1 && t'.col == 0
            && t'.top == (if t.height > 0 && t.row + 1 > t.Bottom() then t.row + 2 - t.height else t.top)
  {
  }

  lemma Motion(t: VT, op: TermOp)
    requires t.Ok() && (op.Up? || op.Down? || op.CR? || op.SyncOutput?)
    ensures SameLines(t, Step(t, op)) && Step(t, op).top == t.top && Step(t, op).Ok()
  {
  }

  lemma Erased(t: VT)
    requires t.Ok()
    ensures var t' := Step(t, EraseLine);
            && t'.Ok() && t'.row == t.row && t'.col == 0 && t'.top == t.top && t'.height == t.height
            && t'.Line(t.row) == [] && forall r: nat :: r != t.row ==> t'.Line(r) == t.Line(r)
  {
  }

  /** ED 0 from the first column of a line, or on a blank one: it and all below are blank. */
  lemma BelowErased(t: VT)
    requires t.Ok() && (t.col == 0 || t.Line(t.row) == [])
    ensures var t' := Step(t, EraseBelow);
            && t'.Ok() && t'.row == t.row && t'.col == t.col && t'.top == t.top && t'.height == t.height
            && forall r: nat :: t'.Line(r) == if r < t.row then t.Line(r) else []
  {
  }

  /** What text leaves of a line that it is written over. */
  lemma {:induction false} OverwriteIs(line: Row, col: nat, s: Row)
    requires col <= |line|
    ensures Overwrite(line, col, s) == line[..col] + s + (if col + |s| < |line| then line[col + |s|..] else [])
    decreases |s|
  {
    hide PutAt;
    if s != [] {
      var put := PutAt(line, col, s[0]);
      PutAtIs(line, col, s[0], |s|);
      OverwriteIs(put, col + 1, s[1..]);
      assert [s[0]] + s[1..] == s;
      assert line[..col] + [s[0]] + s[1..] == line[..col] + ([s[0]] + s[1..]);
    } else {
      assert line == line[..col] + line[col..] && (col == |line| ==> line[..col] == line);
      assert line[..col] + [] == line[..col];
    }
  }

  lemma PutAtIs(line: Row, col: nat, c: char, n: nat)
    requires col <= |line| && n > 0
    ensures var put := PutAt(line, col, c);
            && |put| == (if col < |line| then |line| else |line| + 1)
            && put[..col + 1] == line[..col] + [c]
            && (col + n < |line| ==> put[col + n..] == line[col + n..])
  {
  }

  /** Text written from the first column. */
  lemma {:induction false} WrittenOver(t: VT, s: Row)
    requires t.Ok() && t.col == 0
    ensures var t' := Step(t, Text(s));
            && t'.Ok() && t'.row == t.row && t'.top == t.top && t'.height == t.height
            && t'.Line(t.row) == s + (if |s| < |t.Line(t.row)| then t.Line(t.row)[|s|..] else [])
            && forall r: nat :: r != t.row ==> t'.Line(r) == t.Line(r)
  {
    OverwriteIs(t.Line(t.row), 0, s);
  }

  /** Text written from the first column of a blank line is the line. */
  lemma {:induction false} Written(t: VT, s: Row)
    requires t.Ok() && t.col == 0 && t.Line(t.row) == []
    ensures var t' := Step(t, Text(s));
            && t'.Ok() && t'.row == t.row && t'.top == t.top && t'.height == t.height
            && t'.Line(t.row) == s && forall r: nat :: r != t.row ==> t'.Line(r) == t.Line(r)
  {
    WrittenOver(t, s);
  }
}
