/** Command suggestions, internal/cmdkit/router.go: the two-row edit distance, and why it is
    the edit distance. */
module Levenshtein {
  type Runes = seq<char>

  function Min(x: int, y: int): int { if x < y then x else y }

  function Init(s: Runes): Runes
    requires s != []
  {
    s[..|s| - 1]
  }

  function Last(s: Runes): char
    requires s != []
  {
    s[|s| - 1]
  }

  /** The recurrence the table is filled by. */
  function Lev(a: Runes, b: Runes): nat
    decreases |a| + |b|
  {
    if a == [] then |b|
    else if b == [] then |a|
    else Min(Lev(a, Init(b)) + 1, Min(Lev(Init(a), b) + 1, Lev(Init(a), Init(b)) + if Last(a) == Last(b) then 0 else 1))
  }

  method Distance(a: Runes, b: Runes) returns (d: nat)
    ensures d == Lev(a, b)
  {
    var la, lb := |a|, |b|;
    if la == 0 {
      return lb;
    }
    if lb == 0 {
      return la;
    }
    var prev, curr := new nat[lb + 1], new nat[lb + 1];
    for j := 0 to lb + 1
      invariant forall k :: 0 <= k < j ==> prev[k] == k
    {
      prev[j] := j;
    }
    assert a[..0] == [];
    for i := 1 to la + 1
      invariant prev != curr && prev.Length == curr.Length == lb + 1
      invariant fresh(prev) && fresh(curr)
      invariant forall k :: 0 <= k <= lb ==> prev[k] == Lev(a[..i - 1], b[..k])
    {
      FillRow(a, b, i, prev, curr);
      prev, curr := curr, prev;
    }
    assert a[..la] == a && b[..lb] == b;
    return prev[lb];
  }

  /** One row of the table from the row above it. */
  method FillRow(a: Runes, b: Runes, i: nat, prev: array<nat>, curr: array<nat>)
    requires 1 <= i <= |a| && prev != curr && prev.Length == curr.Length == |b| + 1
    requires forall k :: 0 <= k <= |b| ==> prev[k] == Lev(a[..i - 1], b[..k])
    modifies curr
    ensures forall k :: 0 <= k <= |b| ==> curr[k] == Lev(a[..i], b[..k])
  {
    curr[0] := i;
    assert b[..0] == [];
    for j := 1 to |b| + 1
      invariant forall k :: 0 <= k < j ==> curr[k] == Lev(a[..i], b[..k])
    {
      var cost := 1;
      if a[i - 1] == b[j - 1] {
        cost := 0;
      }
      LevStep(a, b, i, j);
      curr[j] := Min(curr[j - 1] + 1, Min(prev[j] + 1, prev[j - 1] + cost));
    }
  }

  lemma {:induction false} LevStep(a: Runes, b: Runes, i: nat, j: nat)
    requires 1 <= i <= |a| && 1 <= j <= |b|
    ensures Lev(a[..i], b[..j])
            == Min(Lev(a[..i], b[..j - 1]) + 1,
                   Min(Lev(a[..i - 1], b[..j]) + 1,
                       Lev(a[..i - 1], b[..j - 1]) + if a[i - 1] == b[j - 1] then 0 else 1))
  {
    assert Init(a[..i]) == a[..i - 1] && Init(b[..j]) == b[..j - 1];
  }

  // ----- What an edit is

  function Inserted(s: Runes, k: nat, c: char): Runes
    requires k <= |s|
  {
    s[..k] + [c] + s[k..]
  }

  function Replaced(s: Runes, k: nat, c: char): Runes
    requires k < |s|
  {
    s[k := c]
  }

  /** One insertion, deletion or substitution of a rune. */
  ghost predicate OneEdit(x: Runes, y: Runes) {
    || (exists k: nat, c :: k <= |x| && y == Inserted(x, k, c))
    || (exists k: nat, c :: k <= |y| && x == Inserted(y, k, c))
    || (exists k: nat, c :: k < |x| && y == Replaced(x, k, c))
  }

  /** A chain of edits from a to b. */
  ghost predicate Chain(p: seq<Runes>, a: Runes, b: Runes) {
    p != [] && p[0] == a && p[|p| - 1] == b && forall i :: 0 <= i < |p| - 1 ==> OneEdit(p[i], p[i + 1])
  }

  // ----- No chain is shorter

  lemma {:induction false} LevSelf(a: Runes)
    ensures Lev(a, a) == 0
    decreases |a|
  {
    if a != [] {
      LevSelf(Init(a));
    }
  }

  lemma {:induction false} AppendRight(a: Runes, b: Runes)
    requires b != []
    ensures Lev(a, b) <= Lev(a, Init(b)) + 1
  {
  }

  lemma {:induction false} LevNil(a: Runes)
    ensures Lev(a, []) == |a| && Lev([], a) == |a|
  {
  }

  lemma {:induction false} LevCons(a: Runes, b: Runes)
    requires a != [] && b != []
    ensures Lev(a, b) == Min(Lev(a, Init(b)) + 1, Min(Lev(Init(a), b) + 1,
                             Lev(Init(a), Init(b)) + if Last(a) == Last(b) then 0 else 1))
  {
  }

  lemma {:induction false} InsertCosts(x: Runes, k: nat, c: char, b: Runes)
    requires k <= |x|
    ensures Lev(x, b) <= Lev(Inserted(x, k, c), b) + 1
    ensures Lev(Inserted(x, k, c), b) <= Lev(x, b) + 1
    decreases |x| + |b|
  {
    hide Lev;
    var y := Inserted(x, k, c);
    if b == [] {
      LevNil(x);
      LevNil(y);
    } else {
      InsertCosts(x, k, c, Init(b));
      LevCons(y, b);
      if k == |x| {
        assert Init(y) == x;
        AppendRight(x, b);
      } else {
        LevCons(x, b);
        assert Init(y) == Inserted(Init(x), k, c) && Last(y) == Last(x);
        InsertCosts(Init(x), k, c, b);
        InsertCosts(Init(x), k, c, Init(b));
      }
    }
  }

  lemma {:induction false} SubstituteCosts(x: Runes, k: nat, c: char, b: Runes)
    requires k < |x|
    ensures Lev(Replaced(x, k, c), b) <= Lev(x, b) + 1
    ensures Lev(x, b) <= Lev(Replaced(x, k, c), b) + 1
    decreases |x| + |b|
  {
    hide Lev;
    var y := Replaced(x, k, c);
    if b == [] {
      LevNil(x);
      LevNil(y);
    } else {
      SubstituteCosts(x, k, c, Init(b));
      LevCons(x, b);
      LevCons(y, b);
      if k == |x| - 1 {
        assert Init(y) == Init(x);
      } else {
        assert Init(y) == Replaced(Init(x), k, c) && Last(y) == Last(x);
        SubstituteCosts(Init(x), k, c, b);
        SubstituteCosts(Init(x), k, c, Init(b));
      }
    }
  }

  /** One edit changes the distance to anything by at most one. */
  lemma {:induction false} EditCosts(x: Runes, y: Runes, b: Runes)
    requires OneEdit(x, y)
    ensures Lev(x, b) <= Lev(y, b) + 1
  {
    if k: nat, c :| k <= |x| && y == Inserted(x, k, c) {
      InsertCosts(x, k, c, b);
    } else if k: nat, c :| k <= |y| && x == Inserted(y, k, c) {
      InsertCosts(y, k, c, b);
    } else {
      var k: nat, c :| k < |x| && y == Replaced(x, k, c);
      SubstituteCosts(x, k, c, b);
    }
  }

  lemma {:induction false} NoChainIsShorter(p: seq<Runes>, a: Runes, b: Runes)
    requires Chain(p, a, b)
    ensures Lev(a, b) <= |p| - 1
    decreases |p|
  {
    if |p| == 1 {
      LevSelf(a);
    } else {
      assert OneEdit(p[0], p[1]);
      EditCosts(a, p[1], b);
      assert forall i :: 0 <= i < |p| - 2 ==> OneEdit(p[1..][i], p[1..][i + 1]) by {
        forall i | 0 <= i < |p| - 2 ensures OneEdit(p[1..][i], p[1..][i + 1]) {
          assert OneEdit(p[i + 1], p[i + 2]);
        }
      }
      NoChainIsShorter(p[1..], p[1], b);
    }
  }

  // ----- Some chain is as short

  lemma InsertedAppends(x: Runes, k: nat, d: char, c: char)
    requires k <= |x|
    ensures Inserted(x, k, d) + [c] == Inserted(x + [c], k, d)
  {
    assert (x + [c])[..k] == x[..k] && (x + [c])[k..] == x[k..] + [c];
  }

  lemma {:induction false} EditAppends(x: Runes, y: Runes, c: char)
    requires OneEdit(x, y)
    ensures OneEdit(x + [c], y + [c])
  {
    if k: nat, d :| k <= |x| && y == Inserted(x, k, d) {
      InsertedAppends(x, k, d, c);
    } else if k: nat, d :| k <= |y| && x == Inserted(y, k, d) {
      InsertedAppends(y, k, d, c);
    } else {
      var k: nat, d :| k < |x| && y == Replaced(x, k, d);
      assert y + [c] == Replaced(x + [c], k, d);
    }
  }

  lemma InitInserts(b: Runes)
    requires b != []
    ensures OneEdit(Init(b), b) && OneEdit(b, Init(b))
  {
    assert b == Inserted(Init(b), |b| - 1, Last(b));
  }

  lemma {:induction false} ChainEnd(p: seq<Runes>, a: Runes, b: Runes, c: Runes)
    requires Chain(p, a, b) && OneEdit(b, c)
    ensures Chain(p + [c], a, c)
  {
    forall i | 0 <= i < |p| ensures OneEdit((p + [c])[i], (p + [c])[i + 1]) {
      assert i < |p| - 1 ==> OneEdit(p[i], p[i + 1]);
    }
  }

  lemma {:induction false} ChainStart(p: seq<Runes>, a: Runes, b: Runes, c: Runes)
    requires Chain(p, b, c) && OneEdit(a, b)
    ensures Chain([a] + p, a, c)
  {
    forall i | 0 <= i < |p| ensures OneEdit(([a] + p)[i], ([a] + p)[i + 1]) {
      assert i > 0 ==> OneEdit(p[i - 1], p[i]);
    }
  }

  lemma {:induction false} ChainAppends(p: seq<Runes>, a: Runes, b: Runes, c: char) returns (q: seq<Runes>)
    requires Chain(p, a, b)
    ensures Chain(q, a + [c], b + [c]) && |q| == |p|
  {
    q := seq(|p|, i requires 0 <= i < |p| => p[i] + [c]);
    forall i | 0 <= i < |q| - 1 ensures OneEdit(q[i], q[i + 1]) {
      assert OneEdit(p[i], p[i + 1]);
      EditAppends(p[i], p[i + 1], c);
    }
  }

  lemma ChainOne(a: Runes)
    ensures Chain([a], a, a)
  {
  }

  lemma {:induction false} LastReplaced(x: Runes, b: Runes)
    requires x != [] && b != [] && Init(x) == Init(b)
    ensures OneEdit(x, b)
  {
    assert b == Replaced(x, |x| - 1, Last(b));
  }

  lemma {:induction false} SomeChainIsAsShort(a: Runes, b: Runes) returns (p: seq<Runes>)
    ensures Chain(p, a, b) && |p| == Lev(a, b) + 1
    decreases |a| + |b|
  {
    hide Lev, OneEdit, Chain;
    LevNil(a);
    LevNil(b);
    if a == [] && b == [] {
      p := [a];
      ChainOne(a);
    } else if a == [] || (b != [] && Lev(a, b) == Lev(a, Init(b)) + 1) {
      p := SomeChainIsAsShort(a, Init(b));
      LevNil(Init(b));
      InitInserts(b);
      ChainEnd(p, a, Init(b), b);
      p := p + [b];
    } else if b == [] || Lev(a, b) == Lev(Init(a), b) + 1 {
      p := SomeChainIsAsShort(Init(a), b);
      LevNil(Init(a));
      InitInserts(a);
      ChainStart(p, a, Init(a), b);
      p := [a] + p;
    } else {
      p := SomeChainIsAsShort(Init(a), Init(b));
      p := ChainAppends(p, Init(a), Init(b), Last(a));
      assert Init(a) + [Last(a)] == a;
      LevCons(a, b);
      if Last(a) != Last(b) {
        var x := Init(b) + [Last(a)];
        LastReplaced(x, b);
        ChainEnd(p, a, x, b);
        p := p + [b];
      } else {
        assert Init(b) + [Last(a)] == b;
      }
    }
  }

  /** levenshtein is the least number of single-rune edits from one string to the other. */
  lemma {:induction false} DistanceIsLeast(a: Runes, b: Runes, n: nat)
    ensures (exists p :: Chain(p, a, b) && |p| == n + 1) ==> Lev(a, b) <= n
    ensures exists p :: Chain(p, a, b) && |p| == Lev(a, b) + 1
  {
    if p :| Chain(p, a, b) && |p| == n + 1 {
      NoChainIsShorter(p, a, b);
    }
    var p := SomeChainIsAsShort(a, b);
  }

  // ----- Suggestions

  datatype Command = Command(name: Runes, aliases: seq<Runes>, hidden: bool)

  predicate Visible(cmds: seq<Command>, name: Runes) {
    exists c | c in cmds :: !c.hidden && (name == c.name || name in c.aliases)
  }

  const THRESHOLD := 4

  /** suggest: the nearest visible name, if one is nearer than the threshold. */
  method Suggest(cmds: seq<Command>, input: Runes) returns (best: Runes)
    ensures (forall name :: Visible(cmds, name) ==> Lev(input, name) >= THRESHOLD) ==> best == []
    ensures (exists name :: Visible(cmds, name) && Lev(input, name) < THRESHOLD) ==>
              && Visible(cmds, best) && Lev(input, best) < THRESHOLD
              && forall name :: Visible(cmds, name) ==> Lev(input, best) <= Lev(input, name)
  {
    best := [];
    var bestDist := THRESHOLD;
    for i := 0 to |cmds|
      invariant bestDist <= THRESHOLD && (bestDist == THRESHOLD ==> best == [])
      invariant bestDist < THRESHOLD ==> Visible(cmds, best) && Lev(input, best) == bestDist
      invariant forall name :: Visible(cmds[..i], name) ==> bestDist <= Lev(input, name)
    {
      assert cmds[..i + 1] == cmds[..i] + [cmds[i]];
      if cmds[i].hidden {
        continue;
      }
      var names := [cmds[i].name] + cmds[i].aliases;
      for j := 0 to |names|
        invariant bestDist <= THRESHOLD && (bestDist == THRESHOLD ==> best == [])
        invariant bestDist < THRESHOLD ==> Visible(cmds, best) && Lev(input, best) == bestDist
        invariant forall name :: Visible(cmds[..i], name) ==> bestDist <= Lev(input, name)
        invariant forall name :: name in names[..j] ==> bestDist <= Lev(input, name)
      {
        var d := Distance(input, names[j]);
        assert names[..j + 1] == names[..j] + [names[j]];
        if d < bestDist {
          bestDist := d;
          best := names[j];
          assert names[j] in names && cmds[i] in cmds;
        }
      }
      assert names[..|names|] == names;
    }
    assert cmds[..|cmds|] == cmds;
  }
}
