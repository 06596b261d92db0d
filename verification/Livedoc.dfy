/** The single-region splice of internal/livedoc/livedoc.go. */
module Livedoc {
  import opened Utf8

  datatype Delta = Delta(at: int, del: int, ins: bytes)

  function Min(x: int, y: int): int { if x < y then x else y }

  function Clamp(x: int, lo: int, hi: int): int {
    if x < lo then lo else if x > hi then hi else x
  }

  function SpliceAt(blob: bytes, d: Delta): (at: nat)
    ensures at <= |blob|
  {
    Clamp(d.at, 0, |blob|)
  }

  function SpliceEnd(blob: bytes, d: Delta): (end: nat)
    ensures SpliceAt(blob, d) <= end <= |blob|
  {
    Clamp(SpliceAt(blob, d) + d.del, SpliceAt(blob, d), |blob|)
  }

  /** What a delta means: the clamped region gives way to ins. */
  function Splice(blob: bytes, d: Delta): bytes {
    blob[..SpliceAt(blob, d)] + d.ins + blob[SpliceEnd(blob, d)..]
  }

  method Apply(blob: bytes, d: Delta) returns (r: bytes)
    ensures r == Splice(blob, d)
  {
    var at := d.at;
    if at < 0 {
      at := 0;
    }
    if at > |blob| {
      at := |blob|;
    }
    var end := at + d.del;
    if end < at {
      end := at;
    }
    if end > |blob| {
      end := |blob|;
    }
    return blob[..at] + d.ins + blob[end..];
  }

  // ----- Diff, as a function of its inputs

  predicate SharedPrefix(s: bytes, t: bytes, n: int) {
    0 <= n <= |s| && n <= |t| && forall p :: 0 <= p < n ==> s[p] == t[p]
  }

  predicate SharedSuffix(s: bytes, t: bytes, n: int) {
    0 <= n <= |s| && n <= |t| && forall p :: |s| - n <= p < |s| ==> s[p] == t[p + |t| - |s|]
  }

  /** The first place at or after i where s and t differ or one of them ends. */
  function PrefixLen(s: bytes, t: bytes, i: nat): (n: nat)
    requires i <= |s| && i <= |t|
    ensures i <= n <= |s| && n <= |t|
    decreases |s| - i
  {
    if i < |s| && i < |t| && s[i] == t[i] then PrefixLen(s, t, i + 1) else i
  }

  /** The same from the end, z bytes in, looking at no more than cap bytes. */
  function SuffixLen(s: bytes, t: bytes, cap: nat, z: nat): (n: nat)
    requires z <= cap <= |s| && cap <= |t|
    ensures z <= n <= cap
    decreases cap - z
  {
    if z < cap && s[|s| - 1 - z] == t[|t| - 1 - z] then SuffixLen(s, t, cap, z + 1) else z
  }

  lemma {:induction false} PrefixLenShared(s: bytes, t: bytes, i: nat)
    requires SharedPrefix(s, t, i)
    ensures SharedPrefix(s, t, PrefixLen(s, t, i))
    ensures var n := PrefixLen(s, t, i); n == |s| || n == |t| || s[n] != t[n]
    decreases |s| - i
  {
    if i < |s| && i < |t| && s[i] == t[i] {
      PrefixLenShared(s, t, i + 1);
    }
  }

  lemma {:induction false} SuffixLenShared(s: bytes, t: bytes, cap: nat, z: nat)
    requires z <= cap <= |s| && cap <= |t| && SharedSuffix(s, t, z)
    ensures SharedSuffix(s, t, SuffixLen(s, t, cap, z))
    ensures var n := SuffixLen(s, t, cap, z); n == cap || s[|s| - 1 - n] != t[|t| - 1 - n]
    decreases cap - z
  {
    if z < cap && s[|s| - 1 - z] == t[|t| - 1 - z] {
      SuffixLenShared(s, t, cap, z + 1);
    }
  }

  function AlignPrefix(s: bytes, a: nat): (n: nat)
    requires a <= |s|
    ensures n <= a
  {
    if 0 < a < |s| && !RuneStart(s[a]) then AlignPrefix(s, a - 1) else a
  }

  function AlignSuffix(s: bytes, z: nat): (n: nat)
    requires z <= |s|
    ensures n <= z
  {
    if z > 0 && !RuneStart(s[|s| - z]) then AlignSuffix(s, z - 1) else z
  }

  /** AlignPrefix finds the last boundary of s up to a. */
  lemma {:induction false} AlignPrefixIs(s: bytes, a: nat)
    requires a <= |s|
    ensures AlignPrefix(s, a) == 0 || Boundary(s, AlignPrefix(s, a))
    ensures forall p :: AlignPrefix(s, a) < p <= a ==> !Boundary(s, p)
  {
    if 0 < a < |s| && !RuneStart(s[a]) {
      AlignPrefixIs(s, a - 1);
    }
  }

  /** AlignSuffix finds the first boundary of s in its last z bytes. */
  lemma {:induction false} AlignSuffixIs(s: bytes, z: nat)
    requires z <= |s|
    ensures Boundary(s, |s| - AlignSuffix(s, z))
    ensures forall p :: |s| - z <= p < |s| - AlignSuffix(s, z) ==> !Boundary(s, p)
  {
    if z > 0 && !RuneStart(s[|s| - z]) {
      AlignSuffixIs(s, z - 1);
    }
  }

  function RawPrefix(prev: bytes, next: bytes): (n: nat)
    ensures n <= |prev| && n <= |next|
  {
    PrefixLen(prev, next, 0)
  }

  function RawSuffix(prev: bytes, next: bytes): (n: nat)
    ensures n <= Min(|prev|, |next|) - RawPrefix(prev, next)
  {
    SuffixLen(prev, next, Min(|prev|, |next|) - RawPrefix(prev, next), 0)
  }

  lemma RawShared(prev: bytes, next: bytes)
    ensures SharedPrefix(prev, next, RawPrefix(prev, next))
    ensures var n := RawPrefix(prev, next); n == |prev| || n == |next| || prev[n] != next[n]
    ensures SharedSuffix(prev, next, RawSuffix(prev, next))
    ensures var n := RawSuffix(prev, next);
            n == Min(|prev|, |next|) - RawPrefix(prev, next) || prev[|prev| - 1 - n] != next[|next| - 1 - n]
  {
    PrefixLenShared(prev, next, 0);
    SuffixLenShared(prev, next, Min(|prev|, |next|) - RawPrefix(prev, next), 0);
  }

  /** Keep a bytes at the front and z at the back. */
  function Cut(prev: bytes, next: bytes, a: nat, z: nat): Delta
    requires a + z <= |prev| && a + z <= |next|
  {
    Delta(a, |prev| - a - z, next[a..|next| - z])
  }

  function DiffOf(prev: bytes, next: bytes): Delta {
    Cut(prev, next, AlignPrefix(prev, RawPrefix(prev, next)), AlignSuffix(prev, RawSuffix(prev, next)))
  }

  /** The two byte scans: prefix first, then a suffix that does not overlap it. */
  method Scan(prev: bytes, next: bytes) returns (a: nat, z: nat)
    ensures a == RawPrefix(prev, next) && z == RawSuffix(prev, next)
  {
    var oLen, nLen := |prev|, |next|;
    a := 0;
    while a < oLen && a < nLen && prev[a] == next[a]
      invariant a <= oLen && a <= nLen
      invariant PrefixLen(prev, next, a) == PrefixLen(prev, next, 0)
    {
      a := a + 1;
    }
    z := 0;
    while z < oLen - a && z < nLen - a && prev[oLen - 1 - z] == next[nLen - 1 - z]
      invariant z <= Min(oLen, nLen) - a
      invariant SuffixLen(prev, next, Min(oLen, nLen) - a, z) == SuffixLen(prev, next, Min(oLen, nLen) - a, 0)
    {
      z := z + 1;
    }
  }

  method Diff(prev: bytes, next: bytes) returns (d: Delta, ok: bool)
    ensures ok <==> prev != next
    ensures ok ==> d == DiffOf(prev, next)
  {
    if prev == next {
      return Delta(0, 0, []), false;
    }
    var a, z := Scan(prev, next);
    ghost var A: nat, Z: nat := a, z;
    while a > 0 && a < |prev| && !RuneStart(prev[a])
      invariant 0 <= a <= A
      invariant AlignPrefix(prev, a) == AlignPrefix(prev, A)
    {
      a := a - 1;
    }
    while z > 0 && !RuneStart(prev[|prev| - z])
      invariant 0 <= z <= Z
      invariant AlignSuffix(prev, z) == AlignSuffix(prev, Z)
    {
      z := z - 1;
    }
    return Delta(a, |prev| - a - z, next[a..|next| - z]), true;
  }

  // ----- What a delta is for

  /** Apply(old, Diff(old, new)) == new, for every pair of byte strings. */
  lemma {:induction false} ApplyUndoesDiff(prev: bytes, next: bytes)
    ensures Splice(prev, DiffOf(prev, next)) == next
  {
    RawShared(prev, next);
    var a, z := AlignPrefix(prev, RawPrefix(prev, next)), AlignSuffix(prev, RawSuffix(prev, next));
    SpliceIsCut(prev, next, a, z);
  }

  lemma SpliceIsCut(prev: bytes, next: bytes, a: nat, z: nat)
    requires SharedPrefix(prev, next, a) && SharedSuffix(prev, next, z)
    requires a + z <= |prev| && a + z <= |next|
    ensures Splice(prev, Cut(prev, next, a, z)) == next
  {
    assert prev[..a] == next[..a];
    assert prev[|prev| - z..] == next[|next| - z..];
    assert next == next[..a] + next[a..|next| - z] + next[|next| - z..];
  }

  lemma SuffixAt(s: bytes, t: bytes, n: nat)
    requires SharedSuffix(s, t, n) && n > 0
    ensures s[|s| - n] == t[|t| - n]
  {
    var p := |s| - n;
    assert s[p] == t[p + |t| - |s|];
  }

  /** Valid text at the same prefix: a boundary of one string is one of the other. */
  lemma BoundaryShared(s: bytes, t: bytes, i: nat)
    requires Valid(s) && Valid(t) && SharedPrefix(s, t, i)
    requires Boundary(s, i)
    ensures Boundary(t, i)
  {
    ValidCut(s, i);
    ValidCut(t, i);
    assert s[..i] == t[..i];
  }

  lemma StartIsBoundary(s: bytes)
    requires Valid(s)
    ensures Boundary(s, 0)
  {
    ValidCut(s, 0);
  }

  /** Where Diff cuts: both cuts fall between runes of both strings. */
  lemma CutPlaces(prev: bytes, next: bytes) returns (a: nat, z: nat)
    requires Valid(prev) && Valid(next)
    ensures a + z <= |prev| && a + z <= |next| && DiffOf(prev, next) == Cut(prev, next, a, z)
    ensures Boundary(prev, a) && Boundary(next, a)
    ensures Boundary(prev, |prev| - z) && Boundary(next, |next| - z)
  {
    a, z := AlignPrefix(prev, RawPrefix(prev, next)), AlignSuffix(prev, RawSuffix(prev, next));
    RawShared(prev, next);
    AlignPrefixIs(prev, RawPrefix(prev, next));
    AlignSuffixIs(prev, RawSuffix(prev, next));
    StartIsBoundary(prev);
    BoundaryShared(prev, next, a);
    if z > 0 {
      SuffixAt(prev, next, z);
    }
  }

  /** d cuts both strings between runes and inserts valid UTF-8. */
  predicate OnRunes(prev: bytes, next: bytes, d: Delta) {
    && Boundary(prev, d.at) && Boundary(prev, d.at + d.del)
    && Boundary(next, d.at) && Boundary(next, d.at + |d.ins|)
    && Valid(d.ins)
  }

  lemma CutOnRunes(prev: bytes, next: bytes, a: nat, z: nat)
    requires Valid(next) && a + z <= |prev| && a + z <= |next|
    requires Boundary(prev, a) && Boundary(next, a)
    requires Boundary(prev, |prev| - z) && Boundary(next, |next| - z)
    ensures OnRunes(prev, next, Cut(prev, next, a, z))
  {
    ValidBetween(next, a, |next| - z);
  }

  /** On valid UTF-8 neither end of the splice falls inside a rune, of old or of new,
      so the inserted text is valid UTF-8 too. */
  lemma {:induction false} DiffIsRuneAligned(prev: bytes, next: bytes)
    requires Valid(prev) && Valid(next)
    ensures OnRunes(prev, next, DiffOf(prev, next))
  {
    var a, z := CutPlaces(prev, next);
    CutOnRunes(prev, next, a, z);
  }

  lemma ValidBetween(s: bytes, i: nat, j: nat)
    requires Valid(s) && i <= j <= |s| && Boundary(s, i) && Boundary(s, j)
    ensures Valid(s[i..j])
  {
    ValidCut(s, j);
    ValidCut(s, i);
    assert s[..j][..i] == s[..i];
    ValidCut(s[..j], i);
    assert s[..j][i..] == s[i..j];
  }

  // ----- How small the delta is

  /** d turns old into new and cuts old at rune boundaries. */
  predicate AlignedEdit(prev: bytes, next: bytes, d: Delta) {
    && Splice(prev, d) == next
    && Boundary(prev, SpliceAt(prev, d)) && Boundary(prev, SpliceEnd(prev, d))
  }

  function Deleted(prev: bytes, d: Delta): nat {
    SpliceEnd(prev, d) - SpliceAt(prev, d)
  }

  /** No rune-aligned edit from old to new deletes fewer bytes than Diff's. */
  ghost predicate DiffIsLeast(prev: bytes, next: bytes) {
    forall d :: AlignedEdit(prev, next, d) ==> DiffOf(prev, next).del <= Deleted(prev, d)
  }

  /** The common prefix ends inside a rune, and from the start of that rune on the
      shorter string is a suffix of the longer one. */
  predicate PrefixSplitsRune(prev: bytes, next: bytes) {
    var a := AlignPrefix(prev, RawPrefix(prev, next));
    a < RawPrefix(prev, next) && SharedSuffix(prev, next, Min(|prev|, |next|) - a)
  }

  /** Every edit keeps a common prefix and a common suffix that do not overlap. */
  lemma EditKeeps(prev: bytes, next: bytes, d: Delta)
    requires Splice(prev, d) == next
    ensures SpliceAt(prev, d) <= RawPrefix(prev, next)
    ensures SharedSuffix(prev, next, |prev| - SpliceEnd(prev, d))
    ensures SpliceAt(prev, d) + (|prev| - SpliceEnd(prev, d)) <= Min(|prev|, |next|)
  {
    RawShared(prev, next);
    var at, end := SpliceAt(prev, d), SpliceEnd(prev, d);
    assert forall p :: 0 <= p < at ==> next[p] == prev[p];
    assert forall p :: end <= p < |prev| ==> next[p + |next| - |prev|] == prev[p];
  }

  /** A shared suffix that Diff did not find is longer than its cap. */
  lemma SuffixCap(prev: bytes, next: bytes, s: nat)
    requires SharedSuffix(prev, next, s) && s > RawSuffix(prev, next)
    ensures RawSuffix(prev, next) == Min(|prev|, |next|) - RawPrefix(prev, next)
  {
    RawShared(prev, next);
    var p := |prev| - 1 - RawSuffix(prev, next);
    assert prev[p] == next[p + |next| - |prev|];
  }

  /** Diff stopped between runes, and the rest of the shorter string is suffix:
      the suffix needs no aligning. */
  lemma CappedSuffixAligned(prev: bytes, next: bytes)
    requires Valid(prev) && Valid(next)
    requires AlignPrefix(prev, RawPrefix(prev, next)) == RawPrefix(prev, next)
    requires RawSuffix(prev, next) == Min(|prev|, |next|) - RawPrefix(prev, next)
    ensures AlignSuffix(prev, RawSuffix(prev, next)) == RawSuffix(prev, next)
  {
    RawShared(prev, next);
    AlignSuffixIs(prev, RawSuffix(prev, next));
    AlignPrefixIs(prev, RawPrefix(prev, next));
    var A, Z := RawPrefix(prev, next), RawSuffix(prev, next);
    StartIsBoundary(prev);
    BoundaryShared(prev, next, A);
    if Z > 0 {
      SuffixAt(prev, next, Z);
      assert Boundary(prev, |prev| - Z);
    }
  }

  /** Diff stopped inside a rune: an edit's suffix cannot start inside that rune. */
  lemma SuffixSkipsSplitRune(prev: bytes, next: bytes, s: nat)
    requires SharedSuffix(prev, next, s) && Boundary(prev, |prev| - s)
    requires !PrefixSplitsRune(prev, next)
    requires AlignPrefix(prev, RawPrefix(prev, next)) < RawPrefix(prev, next)
    ensures s + RawPrefix(prev, next) <= Min(|prev|, |next|)
  {
    RawShared(prev, next);
    AlignPrefixIs(prev, RawPrefix(prev, next));
    var A, m := RawPrefix(prev, next), Min(|prev|, |next|);
    var a := AlignPrefix(prev, A);
    var k := m - s;
    assert a < k < A ==> !Boundary(prev, k);
  }

  lemma DiffBeats(prev: bytes, next: bytes, d: Delta)
    requires Valid(prev) && Valid(next) && AlignedEdit(prev, next, d)
    requires !PrefixSplitsRune(prev, next)
    ensures DiffOf(prev, next).del <= Deleted(prev, d)
  {
    AlignPrefixIs(prev, RawPrefix(prev, next));
    AlignSuffixIs(prev, RawSuffix(prev, next));
    var s := |prev| - SpliceEnd(prev, d);
    var A, Z := RawPrefix(prev, next), RawSuffix(prev, next);
    EditKeeps(prev, next, d);
    assert Boundary(prev, |prev| - s);
    if s > Z {
      SuffixCap(prev, next, s);
      if AlignPrefix(prev, A) == A {
        CappedSuffixAligned(prev, next);
      } else {
        SuffixSkipsSplitRune(prev, next, s);
      }
    }
  }

  /** Where the scan stops inside a rune of a string that is a plain insertion into, or
      deletion from, the other, there is an edit that deletes less. */
  lemma SplitRuneLoses(prev: bytes, next: bytes)
    requires Valid(prev) && PrefixSplitsRune(prev, next)
    ensures !DiffIsLeast(prev, next)
  {
    RawShared(prev, next);
    AlignPrefixIs(prev, RawPrefix(prev, next));
    StartIsBoundary(prev);
    var a, z := SplitCut(prev, next);
    SpliceIsCut(prev, next, a, z);
    assert AlignedEdit(prev, next, Cut(prev, next, a, z));
  }

  lemma SplitCut(prev: bytes, next: bytes) returns (a: nat, z: nat)
    requires Valid(prev) && PrefixSplitsRune(prev, next)
    ensures SharedPrefix(prev, next, a) && SharedSuffix(prev, next, z)
    ensures a + z <= |prev| && a + z <= |next|
    ensures Boundary(prev, a) && Boundary(prev, |prev| - z)
    ensures |prev| - a - z < DiffOf(prev, next).del
  {
    hide Valid, SharedSuffix;
    RawShared(prev, next);
    AlignPrefixIs(prev, RawPrefix(prev, next));
    StartIsBoundary(prev);
    a := AlignPrefix(prev, RawPrefix(prev, next));
    z := Min(|prev|, |next|) - a;
    assert prev[a] == next[a];
    SuffixAt(prev, next, z);
  }

  /** Diff's own comment calls its delta minimal. Among the edits that respect runes it
      deletes the least exactly when the prefix scan does not stop inside a rune of a
      string that is a plain insertion into, or deletion from, the other. */
  lemma {:induction false} DiffIsLeastIff(prev: bytes, next: bytes)
    requires Valid(prev) && Valid(next)
    ensures DiffIsLeast(prev, next) <==> !PrefixSplitsRune(prev, next)
  {
    if PrefixSplitsRune(prev, next) {
      SplitRuneLoses(prev, next);
    } else {
      forall d | AlignedEdit(prev, next, d)
        ensures DiffOf(prev, next).del <= Deleted(prev, d)
      {
        DiffBeats(prev, next, d);
      }
    }
  }

  predicate Ascii(s: bytes) { forall k :: 0 <= k < |s| ==> s[k] < 0x80 }

  /** On ASCII the comment is right about every splice whatever. */
  lemma {:induction false} DiffIsLeastOnAscii(prev: bytes, next: bytes, d: Delta)
    requires Ascii(prev) && Splice(prev, d) == next
    ensures DiffOf(prev, next).del <= Deleted(prev, d)
  {
    AlignPrefixIs(prev, RawPrefix(prev, next));
    AlignSuffixIs(prev, RawSuffix(prev, next));
    var s, Z := |prev| - SpliceEnd(prev, d), RawSuffix(prev, next);
    EditKeeps(prev, next, d);
    assert forall p :: 0 <= p < |prev| ==> Boundary(prev, p);
    if s > Z {
      SuffixCap(prev, next, s);
    }
  }

  /** The runes C3 A9 and C3 A8 against the rune C3 A8 alone: Diff rewrites four bytes
      where deleting two would do. */
  lemma {:induction false} DiffNotAlwaysLeast()
    ensures var prev: bytes, next: bytes := [0xC3, 0xA9, 0xC3, 0xA8], [0xC3, 0xA8];
            && Valid(prev) && Valid(next) && !DiffIsLeast(prev, next)
  {
    var prev: bytes, next: bytes := [0xC3, 0xA9, 0xC3, 0xA8], [0xC3, 0xA8];
    assert prev[2..] == next && next[2..] == [];
    assert Valid(next) && Valid(prev);
    assert RawPrefix(prev, next) == 1;
    assert SharedSuffix(prev, next, 2);
    SplitRuneLoses(prev, next);
  }
}
