/** Applying several edits to one file (internal/tool/editdiff.go, fuzzy.go, edit.go). */
module EditDiff {
  import opened Utf8
  import opened Strings
  import opened LineEnding

  datatype EditOp = EditOp(find: bytes, put: bytes)

  /** The Unicode normaliser is not modelled: any idempotent function stands for it. */
  type Fuzzy = bytes -> bytes

  ghost predicate Idempotent(fuzzy: Fuzzy) { forall s :: fuzzy(fuzzy(s)) == fuzzy(s) }

  datatype Match = Miss | Match(index: nat, length: nat, usedFuzzy: bool)

  function FuzzyFind(hay: bytes, needle: bytes, fuzzy: Fuzzy): Match {
    var i := Index(hay, needle);
    if i != -1 then Match(i, |needle|, false)
    else
      var k := Index(fuzzy(hay), fuzzy(needle));
      if k != -1 then Match(k, |fuzzy(needle)|, true) else Miss
  }

  function CountFuzzyOccurrences(hay: bytes, needle: bytes, fuzzy: Fuzzy): nat {
    if needle == [] then 0 else Count(fuzzy(hay), fuzzy(needle))
  }

  // ----- What a list of edits means

  /** A stretch of the base, and what takes its place. */
  datatype Region = Region(start: nat, length: nat, text: bytes)

  function Mapped<T, U>(s: seq<T>, f: T -> U): (r: seq<U>)
    ensures |r| == |s|
    ensures forall i :: 0 <= i < |s| ==> r[i] == f(s[i])
  {
    seq(|s|, i requires 0 <= i < |s| => f(s[i]))
  }

  function ToLF(e: EditOp): EditOp { EditOp(NormalizeToLF(e.find), NormalizeToLF(e.put)) }

  function Lf(edits: seq<EditOp>): seq<EditOp> { Mapped(edits, ToLF) }

  predicate NeedsFuzzy(content: bytes, e: EditOp, fuzzy: Fuzzy) {
    var m := FuzzyFind(content, e.find, fuzzy);
    m.Match? && m.usedFuzzy
  }

  /** Every edit is matched against the normalised text as soon as one of them needs it. */
  function Base(content: bytes, es: seq<EditOp>, fuzzy: Fuzzy): bytes {
    if exists e :: e in es && NeedsFuzzy(content, e, fuzzy) then fuzzy(content) else content
  }

  predicate Usable(base: bytes, e: EditOp, fuzzy: Fuzzy) {
    FuzzyFind(base, e.find, fuzzy).Match? && CountFuzzyOccurrences(base, e.find, fuzzy) <= 1
  }

  function RegionOf(base: bytes, e: EditOp, fuzzy: Fuzzy): Region {
    match FuzzyFind(base, e.find, fuzzy)
    case Match(index, length, _) => Region(index, length, e.put)
    case Miss => Region(0, 0, [])
  }

  function Regions(base: bytes, es: seq<EditOp>, fuzzy: Fuzzy): seq<Region> {
    Mapped(es, (e: EditOp) => RegionOf(base, e, fuzzy))
  }

  predicate Apart(r: Region, q: Region) { r.start + r.length <= q.start || q.start + q.length <= r.start }

  /** No two of the regions overlap, one that is there twice included. */
  ghost predicate Clear(rs: multiset<Region>) {
    forall r, q :: r in rs && q in rs && (r != q || rs[r] > 1) ==> Apart(r, q)
  }

  ghost predicate Begins(base: bytes, rs: multiset<Region>, i: nat, r: Region)
    requires i < |base|
  {
    r in rs && r.start == i && 0 < r.length <= |base| - i
  }

  /** Simultaneous substitution, from position i on: wherever a region begins, its text
      stands for it, and every other byte stands for itself. */
  ghost function Substituted(base: bytes, rs: multiset<Region>, i: nat): bytes
    requires i <= |base|
    decreases |base| - i
  {
    if i == |base| then []
    else if r :| Begins(base, rs, i, r) then r.text + Substituted(base, rs, i + r.length)
    else [base[i]] + Substituted(base, rs, i + 1)
  }

  predicate Within(base: bytes, r: Region) { r.start + r.length <= |base| }

  /** In the base that is used, each match is a real stretch of it, and an empty one only
      when the whole base is empty. */
  lemma {:induction false} MatchInBase(content: bytes, es: seq<EditOp>, e: EditOp, fuzzy: Fuzzy)
    requires Idempotent(fuzzy) && e in es && e.find != []
    requires Usable(Base(content, es, fuzzy), e, fuzzy)
    ensures var base := Base(content, es, fuzzy);
            var r := RegionOf(base, e, fuzzy);
            && Within(base, r) && (r.length == 0 ==> base == [] && r.start == 0)
            && (base[r.start..r.start + r.length] == e.find || base[r.start..r.start + r.length] == fuzzy(e.find))
  {
    hide Count, Index;
    var base := Base(content, es, fuzzy);
    var m := FuzzyFind(base, e.find, fuzzy);
    if m.usedFuzzy {
      assert fuzzy(base) == base;
      if fuzzy(e.find) == [] {
        CountOfEmpty(base);
      }
    }
  }

  lemma CountOfEmpty(s: bytes)
    ensures Count(s, []) == |s| + 1
  {
  }

  predicate Sorted(rs: seq<Region>) { forall i, j | 0 <= i < j < |rs| :: rs[i].start <= rs[j].start }

  /** sort.Slice by start. */
  method SortByStart(rs: seq<Region>) returns (out: seq<Region>)
    ensures Sorted(out) && multiset(out) == multiset(rs)
  {
    out := [];
    for i := 0 to |rs|
      invariant Sorted(out) && multiset(out) == multiset(rs[..i])
    {
      assert rs[..i + 1] == rs[..i] + [rs[i]];
      out := Insert(out, rs[i]);
    }
    assert rs[..|rs|] == rs;
  }

  method Insert(rs: seq<Region>, r: Region) returns (out: seq<Region>)
    requires Sorted(rs)
    ensures Sorted(out) && multiset(out) == multiset(rs) + multiset{r}
  {
    var k := |rs|;
    while k > 0 && rs[k - 1].start > r.start
      invariant 0 <= k <= |rs|
      invariant k < |rs| ==> rs[k].start > r.start
    {
      k := k - 1;
    }
    SortedWith(rs, r, k);
    ManyWith(rs, r, k);
    out := rs[..k] + [r] + rs[k..];
  }

  lemma {:induction false} SortedWith(rs: seq<Region>, r: Region, k: nat)
    requires Sorted(rs) && k <= |rs|
    requires (k > 0 ==> rs[k - 1].start <= r.start) && (k < |rs| ==> r.start < rs[k].start)
    ensures Sorted(rs[..k] + [r] + rs[k..])
  {
    var out := rs[..k] + [r] + rs[k..];
    forall i, j | 0 <= i < j < |out| ensures out[i].start <= out[j].start {
      assert out[i] == (if i < k then rs[i] else if i == k then r else rs[i - 1]);
      assert out[j] == (if j < k then rs[j] else if j == k then r else rs[j - 1]);
    }
  }

  lemma {:induction false} ManyWith(rs: seq<Region>, r: Region, k: nat)
    requires k <= |rs|
    ensures multiset(rs[..k] + [r] + rs[k..]) == multiset(rs) + multiset{r}
  {
    assert rs == rs[..k] + rs[k..];
  }

  predicate NextApart(rs: seq<Region>, i: nat)
    requires i + 1 < |rs|
  {
    rs[i].start + rs[i].length <= rs[i + 1].start
  }

  predicate Adjacent(rs: seq<Region>) { forall i: nat :: i + 1 < |rs| ==> NextApart(rs, i) }

  lemma {:induction false} TwiceIn<T>(s: seq<T>, i: nat, j: nat)
    requires i < j < |s| && s[i] == s[j]
    ensures multiset(s)[s[i]] > 1
  {
    assert s == s[..j] + s[j..];
    assert s[..j][i] == s[i] && s[j..][0] == s[i];
  }

  lemma {:induction false} IndicesOf<T>(s: seq<T>, x: T, y: T) returns (i: nat, j: nat)
    requires x in s && y in s && (x != y || multiset(s)[x] > 1)
    ensures i < |s| && j < |s| && i != j && s[i] == x && s[j] == y
  {
    i :| 0 <= i < |s| && s[i] == x;
    if x == y {
      assert s == s[..i] + [x] + s[i + 1..];
      assert y in multiset(s[..i]) || y in multiset(s[i + 1..]);
      if y in s[..i] {
        j :| 0 <= j < i && s[..i][j] == y;
      } else {
        var k :| 0 <= k < |s| - i - 1 && s[i + 1..][k] == y;
        j := i + 1 + k;
      }
    } else {
      j :| 0 <= j < |s| && s[j] == y;
    }
  }

  /** Looking at neighbours is enough once the regions are sorted. */
  lemma {:induction false} NeighboursSuffice(rs: seq<Region>)
    requires Sorted(rs)
    requires forall r | r in rs :: r.length == 0 ==> forall q | q in rs :: q.length == 0 && q.start == r.start
    ensures Adjacent(rs) <==> Clear(multiset(rs))
  {
    if Adjacent(rs) {
      forall r, q | r in multiset(rs) && q in multiset(rs) && (r != q || multiset(rs)[r] > 1) ensures Apart(r, q) {
        var i, j := IndicesOf(rs, r, q);
        if i < j { assert NextApart(rs, i); } else { assert NextApart(rs, j); }
      }
    }
    if Clear(multiset(rs)) {
      forall i: nat | i + 1 < |rs| ensures NextApart(rs, i) {
        if rs[i] == rs[i + 1] {
          TwiceIn(rs, i, i + 1);
        }
        assert rs[i] in multiset(rs) && rs[i + 1] in multiset(rs);
        assert Apart(rs[i], rs[i + 1]);
        assert rs[i] in rs && rs[i + 1] in rs;
      }
    }
  }

  // ----- Splicing from the right

  /** Filling the regions from the left, the ones from k on, with everything before from
      already written. */
  function Fill(base: bytes, rs: seq<Region>, k: nat, from: nat): bytes
    requires k <= |rs| && from <= |base| && FillOk(base, rs, k, from)
    decreases |rs| - k
  {
    if k == |rs| then base[from..]
    else
      assert k + 1 < |rs| ==> NextApart(rs, k);
      base[from..rs[k].start] + rs[k].text + Fill(base, rs, k + 1, rs[k].start + rs[k].length)
  }

  predicate FillOk(base: bytes, rs: seq<Region>, k: nat, from: nat)
    requires k <= |rs|
  {
    && (k < |rs| ==> from <= rs[k].start)
    && (forall i :: k <= i < |rs| ==> Within(base, rs[i]))
    && (forall i: nat :: k <= i && i + 1 < |rs| ==> NextApart(rs, i))
  }

  function EndOf(rs: seq<Region>, k: nat): nat
    requires k <= |rs|
  {
    if k == 0 then 0 else rs[k - 1].start + rs[k - 1].length
  }

  lemma {:induction false} FillGoesOn(base: bytes, rs: seq<Region>, k: nat, from: nat)
    requires k < |rs| && from <= |base| && FillOk(base, rs, k, from)
    ensures from <= rs[k].start && Within(base, rs[k]) && FillOk(base, rs, k + 1, rs[k].start + rs[k].length)
    ensures (Fill(base, rs, k, from) ==
             base[from..rs[k].start] + rs[k].text + Fill(base, rs, k + 1, rs[k].start + rs[k].length))
  {
    assert Within(base, rs[k]) && (k + 1 < |rs| ==> NextApart(rs, k));
  }

  lemma {:induction false} FillLast(base: bytes, rs: seq<Region>, from: nat)
    requires from <= |base| && FillOk(base, rs, |rs|, from)
    ensures Fill(base, rs, |rs|, from) == base[from..]
  {
  }

  lemma {:induction false} FillBefore(base: bytes, rs: seq<Region>, i: nat)
    requires i < |rs| && FillOk(base, rs, 0, 0)
    ensures EndOf(rs, i) <= rs[i].start && Within(base, rs[i]) && FillOk(base, rs, i, EndOf(rs, i))
  {
    assert Within(base, rs[i]) && (i > 0 ==> NextApart(rs, i - 1));
  }

  lemma {:induction false} FillAfterAll(base: bytes, rs: seq<Region>)
    requires FillOk(base, rs, 0, 0)
    ensures EndOf(rs, |rs|) <= |base| && FillOk(base, rs, |rs|, EndOf(rs, |rs|))
  {
    assert |rs| > 0 ==> Within(base, rs[|rs| - 1]);
  }

  /** Everything behind the region is done, and nothing before its end is touched yet. */
  lemma {:induction false} SpliceOne(base: bytes, end: nat, start: nat, stop: nat, text: bytes, tail: bytes)
    requires end <= start <= stop <= |base|
    ensures ((base[..stop] + tail)[..start] + text + (base[..stop] + tail)[stop..] ==
             base[..end] + (base[end..start] + text + tail))
  {
    assert (base[..stop] + tail)[..start] == base[..start] == base[..end] + base[end..start];
    assert (base[..stop] + tail)[stop..] == tail;
  }

  method Splice(base: bytes, rs: seq<Region>) returns (out: bytes)
    requires FillOk(base, rs, 0, 0)
    ensures out == Fill(base, rs, 0, 0)
  {
    hide Fill, FillOk;
    out := base;
    FillAfterAll(base, rs);
    FillLast(base, rs, EndOf(rs, |rs|));
    for i := |rs| downto 0
      invariant EndOf(rs, i) <= |base| && FillOk(base, rs, i, EndOf(rs, i))
      invariant out == base[..EndOf(rs, i)] + Fill(base, rs, i, EndOf(rs, i))
    {
      var r := rs[i];
      FillBefore(base, rs, i);
      FillGoesOn(base, rs, i, EndOf(rs, i));
      SpliceOne(base, EndOf(rs, i), r.start, r.start + r.length, r.text, Fill(base, rs, i + 1, r.start + r.length));
      out := out[..r.start] + r.text + out[r.start + r.length..];
    }
  }

  /** No region before k reaches beyond from, and each takes at least a byte. */
  predicate Behind(rs: seq<Region>, k: nat, from: nat)
    requires k <= |rs|
  {
    (forall i :: 0 <= i < k ==> rs[i].start < from) && (forall i :: 0 <= i < |rs| ==> rs[i].length > 0)
  }

  lemma {:induction false} FillIsSubstituted(base: bytes, rs: seq<Region>, k: nat, from: nat)
    requires k <= |rs| && from <= |base| && FillOk(base, rs, k, from) && Sorted(rs) && Behind(rs, k, from)
    ensures Fill(base, rs, k, from) == Substituted(base, multiset(rs), from)
    decreases |base| - from
  {
    hide Substituted, Fill, FillOk, Sorted, Behind;
    if from == |base| {
      FillEnds(base, rs, k);
      NothingLeft(base, multiset(rs));
    } else if k < |rs| && from == rs[k].start {
      FillJumps(base, rs, k, from);
      StartsHere(rs, k, from);
      RegionStands(base, multiset(rs), from, rs[k]);
      FillIsSubstituted(base, rs, k + 1, from + rs[k].length);
    } else {
      StepBeside(base, rs, k, from);
      FillCopies(base, rs, k, from);
      NoneStarts(rs, k, from);
      ByteStands(base, multiset(rs), from);
      FillIsSubstituted(base, rs, k, from + 1);
    }
  }

  lemma NothingLeft(base: bytes, rs: multiset<Region>)
    ensures Substituted(base, rs, |base|) == []
  {
  }

  lemma RegionStands(base: bytes, rs: multiset<Region>, i: nat, r: Region)
    requires r in rs && r.start == i && r.length > 0 && Within(base, r)
    requires forall q :: q in rs && q.start == i ==> q == r
    ensures Substituted(base, rs, i) == r.text + Substituted(base, rs, i + r.length)
  {
    assert i < |base| && Begins(base, rs, i, r);
  }

  lemma ByteStands(base: bytes, rs: multiset<Region>, i: nat)
    requires i < |base|
    requires forall r :: r in rs ==> r.start != i
    ensures Substituted(base, rs, i) == [base[i]] + Substituted(base, rs, i + 1)
  {
  }

  lemma NoGap(base: bytes, from: nat, text: bytes)
    requires from <= |base|
    ensures base[from..from] + text == text
  {
  }

  lemma {:induction false} FillJumps(base: bytes, rs: seq<Region>, k: nat, from: nat)
    requires k < |rs| && from <= |base| && from == rs[k].start && FillOk(base, rs, k, from) && Behind(rs, k, from)
    ensures rs[k].length > 0 && Within(base, rs[k]) && Behind(rs, k + 1, from + rs[k].length)
    ensures (k + 1 < |rs| ==> NextApart(rs, k)) && FillOk(base, rs, k + 1, from + rs[k].length)
    ensures Fill(base, rs, k, from) == rs[k].text + Fill(base, rs, k + 1, from + rs[k].length)
  {
    assert k + 1 < |rs| ==> NextApart(rs, k);
    hide Fill, FillOk;
    FillGoesOn(base, rs, k, from);
    NoGap(base, from, rs[k].text);
  }

  lemma {:induction false} StepBeside(base: bytes, rs: seq<Region>, k: nat, from: nat)
    requires k <= |rs| && from < |base| && FillOk(base, rs, k, from) && Behind(rs, k, from)
    requires k < |rs| ==> from != rs[k].start
    ensures FillOk(base, rs, k, from + 1) && Behind(rs, k, from + 1) && (k < |rs| ==> from < rs[k].start)
  {
    hide Within, NextApart;
  }

  lemma FourPieces(b: byte, x: bytes, y: bytes, z: bytes)
    ensures [b] + x + y + z == [b] + (x + y + z)
  {
  }

  lemma {:induction false} FillCopies(base: bytes, rs: seq<Region>, k: nat, from: nat)
    requires k <= |rs| && from < |base| && FillOk(base, rs, k, from) && FillOk(base, rs, k, from + 1)
    ensures Fill(base, rs, k, from) == [base[from]] + Fill(base, rs, k, from + 1)
  {
    hide Fill, FillOk;
    if k == |rs| {
      FillLast(base, rs, from);
      FillLast(base, rs, from + 1);
      assert base[from..] == [base[from]] + base[from + 1..];
    } else {
      FillGoesOn(base, rs, k, from);
      FillGoesOn(base, rs, k, from + 1);
      assert base[from..rs[k].start] == [base[from]] + base[from + 1..rs[k].start];
      FourPieces(base[from], base[from + 1..rs[k].start], rs[k].text,
          Fill(base, rs, k + 1, rs[k].start + rs[k].length));
    }
  }

  lemma {:induction false} FillEnds(base: bytes, rs: seq<Region>, k: nat)
    requires k <= |rs| && FillOk(base, rs, k, |base|) && Behind(rs, k, |base|)
    ensures Fill(base, rs, k, |base|) == []
  {
    hide Fill;
    assert k < |rs| ==> Within(base, rs[k]);
    if k == |rs| {
      FillLast(base, rs, |base|);
    }
  }

  lemma {:induction false} StartsHere(rs: seq<Region>, k: nat, from: nat)
    requires k < |rs| && Sorted(rs) && Behind(rs, k, from) && rs[k].start == from
    requires k + 1 < |rs| ==> NextApart(rs, k)
    ensures rs[k] in multiset(rs) && forall r :: r in multiset(rs) && r.start == from ==> r == rs[k]
  {
  }

  lemma {:induction false} NoneStarts(rs: seq<Region>, k: nat, from: nat)
    requires k <= |rs| && Sorted(rs) && Behind(rs, k, from)
    requires k < |rs| ==> from < rs[k].start
    ensures forall r :: r in multiset(rs) ==> r.start != from
  {
  }

  // ----- The tool

  datatype Outcome = Applied(base: bytes, content: bytes) | NoEdits | EmptyOldText(i: nat) | NotFound(i: nat)
                   | Duplicate(i: nat) | Overlap | NoChange

  /** Every text to replace is there once, and no two of them overlap. */
  ghost predicate Accepted(content: bytes, edits: seq<EditOp>, fuzzy: Fuzzy) {
    var es := Lf(edits);
    var base := Base(content, es, fuzzy);
    && edits != [] && (forall e :: e in edits ==> e.find != [])
    && (forall e :: e in es ==> Usable(base, e, fuzzy))
    && Clear(multiset(Regions(base, es, fuzzy)))
  }

  /** The edits would leave the base as it is. */
  ghost predicate Idle(base: bytes, rs: multiset<Region>) {
    if base == [] then forall r :: r in rs ==> r.text == [] else Substituted(base, rs, 0) == base
  }

  lemma {:induction false} LfNotEmpty(s: bytes)
    requires s != []
    ensures NormalizeToLF(s) != []
  {
    NormalizeStep(s);
  }

  /** What is known of the regions once every edit is usable. */
  ghost predicate Proper(base: bytes, rs: seq<Region>) {
    forall r :: r in rs ==> Within(base, r) && (r.length == 0 ==> base == [] && r.start == 0)
  }

  lemma {:induction false} ProperRegions(content: bytes, es: seq<EditOp>, fuzzy: Fuzzy)
    requires Idempotent(fuzzy) && forall e :: e in es ==> e.find != [] && Usable(Base(content, es, fuzzy), e, fuzzy)
    ensures Proper(Base(content, es, fuzzy), Regions(Base(content, es, fuzzy), es, fuzzy))
  {
    hide Base, Usable, RegionOf;
    var base := Base(content, es, fuzzy);
    forall r | r in Regions(base, es, fuzzy) ensures Within(base, r) && (r.length == 0 ==> base == [] && r.start == 0) {
      var i :| 0 <= i < |es| && r == RegionOf(base, es[i], fuzzy);
      MatchInBase(content, es, es[i], fuzzy);
    }
  }

  lemma {:induction false} SortedIsFillOk(base: bytes, rs: seq<Region>)
    requires Proper(base, rs) && Sorted(rs)
    ensures Adjacent(rs) <==> Clear(multiset(rs))
    ensures Adjacent(rs) ==> FillOk(base, rs, 0, 0)
    ensures base != [] ==> Behind(rs, 0, 0)
  {
    forall r | r in rs && r.length == 0 ensures forall q | q in rs :: q.length == 0 && q.start == r.start {
      forall q | q in rs ensures q.length == 0 && q.start == r.start {
        assert Within(base, q);
      }
    }
    NeighboursSuffice(rs);
    forall i | 0 <= i < |rs| ensures Within(base, rs[i]) && (base != [] ==> rs[i].length > 0) {
      assert rs[i] in rs;
    }
  }

  /** The texts of the regions, one behind the other. */
  function AllTexts(rs: seq<Region>): bytes { if rs == [] then [] else rs[0].text + AllTexts(rs[1..]) }

  /** content joins the texts of rs, in some order. */
  ghost predicate JoinsTexts(content: bytes, rs: multiset<Region>) {
    exists qs: seq<Region> :: multiset(qs) == rs && content == AllTexts(qs)
  }

  lemma {:induction false} FillOfEmpty(rs: seq<Region>, k: nat)
    requires k <= |rs| && FillOk([], rs, k, 0)
    ensures Fill([], rs, k, 0) == [] <==> forall i :: k <= i < |rs| ==> rs[i].text == []
    ensures Fill([], rs, k, 0) == AllTexts(rs[k..])
    decreases |rs| - k
  {
    hide Fill, FillOk;
    if k < |rs| {
      FillGoesOn([], rs, k, 0);
      FillOfEmpty(rs, k + 1);
      assert rs[k..][1..] == rs[k + 1..];
      assert [][0..0] + rs[k].text == rs[k].text;
    } else {
      FillLast([], rs, 0);
    }
  }

  lemma {:induction false} FilledIsMeant(base: bytes, rs: seq<Region>)
    requires Proper(base, rs) && Sorted(rs) && Adjacent(rs)
    ensures FillOk(base, rs, 0, 0)
    ensures base != [] ==> Fill(base, rs, 0, 0) == Substituted(base, multiset(rs), 0)
    ensures base == [] ==> JoinsTexts(Fill(base, rs, 0, 0), multiset(rs))
    ensures Fill(base, rs, 0, 0) == base <==> Idle(base, multiset(rs))
  {
    hide Fill, FillOk, Adjacent, Clear, Sorted, Proper;
    SortedIsFillOk(base, rs);
    if base == [] {
      FillOfEmpty(rs, 0);
      assert rs[0..] == rs;
      assert forall r :: r in multiset(rs) <==> r in rs;
    } else {
      FillIsSubstituted(base, rs, 0, 0);
    }
  }

  lemma {:induction false} ProperAnyOrder(base: bytes, rs: seq<Region>, qs: seq<Region>)
    requires Proper(base, rs) && multiset(rs) == multiset(qs)
    ensures Proper(base, qs)
  {
    forall r | r in qs ensures r in rs {
      assert r in multiset(qs);
    }
  }

  /** The outcome depends on the edits only as a multiset: every one of them is read against
      the same base. */
  method ApplyEditsToNormalized(content: bytes, edits: seq<EditOp>, fuzzy: Fuzzy) returns (r: Outcome)
    requires Idempotent(fuzzy)
    ensures r.Applied? || r.NoChange? <==> Accepted(content, edits, fuzzy)
    ensures (r.NoChange? ==>
             var base := Base(content, Lf(edits), fuzzy);
             Idle(base, multiset(Regions(base, Lf(edits), fuzzy))))
    ensures r.Applied? ==> !Idle(r.base, multiset(Regions(r.base, Lf(edits), fuzzy)))
    ensures r.Applied? ==> r.base == Base(content, Lf(edits), fuzzy)
    ensures (r.Applied? && r.base != [] ==>
             r.content == Substituted(r.base, multiset(Regions(r.base, Lf(edits), fuzzy)), 0))
    ensures r.Applied? && r.base == [] ==> JoinsTexts(r.content, multiset(Regions(r.base, Lf(edits), fuzzy)))
    ensures r.NoEdits? ==> edits == []
    ensures r.EmptyOldText? ==> r.i < |edits| && edits[r.i].find == []
    ensures (r.NotFound? ==>
             r.i < |edits| && FuzzyFind(Base(content, Lf(edits), fuzzy), Lf(edits)[r.i].find, fuzzy).Miss?)
    ensures (r.Duplicate? ==>
             r.i < |edits| && CountFuzzyOccurrences(Base(content, Lf(edits), fuzzy), Lf(edits)[r.i].find, fuzzy) > 1)
  {
    hide FuzzyFind, CountFuzzyOccurrences, NormalizeToLF, Clear, Adjacent, Substituted, Idle, Fill, FillOk, Sorted,
        Within;
    if edits == [] {
      return NoEdits;
    }
    var es, empty := InLF(edits);
    if empty < |edits| {
      assert edits[empty] in edits;
      return EmptyOldText(empty);
    }
    var base := content;
    var needsFuzzy := AnyNeedsFuzzy(content, es, fuzzy);
    if needsFuzzy {
      base := fuzzy(content);
    }
    var resolved, bad := Resolve(base, es, fuzzy);
    if bad < |es| {
      assert es[bad] in es;
      if FuzzyFind(base, es[bad].find, fuzzy).Miss? {
        return NotFound(bad);
      }
      return Duplicate(bad);
    }
    ghost var meant := resolved;
    ProperRegions(content, es, fuzzy);
    var sorted := SortByStart(resolved);
    ProperAnyOrder(base, meant, sorted);
    SortedIsFillOk(base, sorted);
    var overlap := AnyOverlap(sorted);
    if overlap {
      return Overlap;
    }
    FilledIsMeant(base, sorted);
    var out := Splice(base, sorted);
    if out == base {
      return NoChange;
    }
    return Applied(base, out);
  }

  method InLF(edits: seq<EditOp>) returns (es: seq<EditOp>, empty: nat)
    ensures empty <= |edits| && (forall j :: 0 <= j < empty ==> edits[j].find != [])
    ensures empty < |edits| ==> edits[empty].find == []
    ensures empty == |edits| ==> es == Lf(edits) && forall j :: 0 <= j < |es| ==> es[j].find != []
  {
    es := [];
    for i := 0 to |edits|
      invariant es == Lf(edits)[..i]
      invariant forall j :: 0 <= j < i ==> edits[j].find != [] && es[j].find != []
    {
      if edits[i].find == [] {
        return es, i;
      }
      LfNotEmpty(edits[i].find);
      assert Lf(edits)[i] == ToLF(edits[i]);
      es := es + [ToLF(edits[i])];
    }
    return es, |edits|;
  }

  method AnyNeedsFuzzy(content: bytes, es: seq<EditOp>, fuzzy: Fuzzy) returns (needs: bool)
    ensures needs <==> exists e :: e in es && NeedsFuzzy(content, e, fuzzy)
  {
    hide FuzzyFind;
    for i := 0 to |es|
      invariant forall j :: 0 <= j < i ==> !NeedsFuzzy(content, es[j], fuzzy)
    {
      var m := FuzzyFind(content, es[i].find, fuzzy);
      if m.Match? && m.usedFuzzy {
        assert es[i] in es && NeedsFuzzy(content, es[i], fuzzy);
        return true;
      }
    }
    return false;
  }

  method Resolve(base: bytes, es: seq<EditOp>, fuzzy: Fuzzy) returns (resolved: seq<Region>, bad: nat)
    ensures bad <= |es| && (bad < |es| ==> !Usable(base, es[bad], fuzzy))
    ensures bad == |es| ==> resolved == Regions(base, es, fuzzy)
    ensures bad == |es| ==> forall j :: 0 <= j < |es| ==> Usable(base, es[j], fuzzy)
  {
    hide FuzzyFind, CountFuzzyOccurrences;
    resolved := [];
    for i := 0 to |es|
      invariant resolved == Regions(base, es, fuzzy)[..i]
      invariant forall j :: 0 <= j < i ==> Usable(base, es[j], fuzzy)
    {
      var m := FuzzyFind(base, es[i].find, fuzzy);
      if m.Miss? || CountFuzzyOccurrences(base, es[i].find, fuzzy) > 1 {
        return resolved, i;
      }
      assert Regions(base, es, fuzzy)[i] == RegionOf(base, es[i], fuzzy);
      resolved := resolved + [Region(m.index, m.length, es[i].put)];
    }
    return resolved, |es|;
  }

  method AnyOverlap(rs: seq<Region>) returns (found: bool)
    ensures found <==> !Adjacent(rs)
  {
    found := false;
    var i := 1;
    while i < |rs|
      invariant i > 0 && forall j: nat :: j + 1 < i && j + 1 < |rs| ==> NextApart(rs, j)
    {
      if rs[i - 1].start + rs[i - 1].length > rs[i].start {
        assert !NextApart(rs, i - 1);
        return true;
      }
      i := i + 1;
    }
  }

  // ----- What this means to a user

  function Without<T>(s: seq<T>, j: nat): seq<T>
    requires j < |s|
  {
    s[..j] + s[j + 1..]
  }

  lemma {:induction false} ManyWithout<T>(s: seq<T>, j: nat)
    requires j < |s|
    ensures multiset(Without(s, j)) == multiset(s) - multiset{s[j]} && s[j] in multiset(s)
  {
    assert s == s[..j] + [s[j]] + s[j + 1..];
  }

  lemma {:induction false} MapPermutes<T, U>(s: seq<T>, t: seq<T>, f: T -> U)
    requires multiset(s) == multiset(t)
    ensures multiset(Mapped(s, f)) == multiset(Mapped(t, f))
    decreases |s|
  {
    hide Mapped, Without;
    assert |s| == |multiset(s)| && |t| == |multiset(t)|;
    if s != [] {
      assert s[0] in multiset(t);
      var j :| 0 <= j < |t| && t[j] == s[0];
      MapWithout(s, 0, f);
      MapWithout(t, j, f);
      MapPermutes(Without(s, 0), Without(t, j), f);
    } else {
      assert t == [];
    }
  }

  lemma {:induction false} MapWithout<T, U>(s: seq<T>, j: nat, f: T -> U)
    requires j < |s|
    ensures |Without(s, j)| < |s| && multiset(Without(s, j)) == multiset(s) - multiset{s[j]}
    ensures multiset(Mapped(s, f)) == multiset(Mapped(Without(s, j), f)) + multiset{f(s[j])}
  {
    assert Mapped(Without(s, j), f) == Without(Mapped(s, f), j);
    hide Mapped;
    ManyWithout(s, j);
    ManyWithout(Mapped(s, f), j);
  }

  /** The edits may come in any order: the same lists are accepted, and on a base that is not
      empty the same content comes out. */
  lemma {:induction false} OrderDoesNotMatter(content: bytes, es: seq<EditOp>, fs: seq<EditOp>, fuzzy: Fuzzy)
    requires multiset(es) == multiset(fs)
    ensures Base(content, Lf(es), fuzzy) == Base(content, Lf(fs), fuzzy)
    ensures (var base := Base(content, Lf(es), fuzzy);
             multiset(Regions(base, Lf(es), fuzzy)) == multiset(Regions(base, Lf(fs), fuzzy)))
    ensures Accepted(content, es, fuzzy) == Accepted(content, fs, fuzzy)
    ensures (var base := Base(content, Lf(es), fuzzy);
             Substituted(base, multiset(Regions(base, Lf(es), fuzzy)), 0)
             == Substituted(base, multiset(Regions(base, Lf(fs), fuzzy)), 0))
  {
    hide Usable, NeedsFuzzy, Clear, Substituted;
    var base := Base(content, Lf(es), fuzzy);
    MapPermutes(es, fs, ToLF);
    SameMembers(es, fs);
    SameMembers(Lf(es), Lf(fs));
    MapPermutes(Lf(es), Lf(fs), (e: EditOp) => RegionOf(base, e, fuzzy));
  }

  /** On an empty file the order shows: a blank and a tab both normalise to nothing, both edits
      are accepted, and the new texts are joined as they come. */
  lemma {:induction false} EmptyFileShowsOrder(es: seq<EditOp>, fs: seq<EditOp>)
    requires es == [EditOp([32], [120]), EditOp([9], [121])] && fs == [es[1], es[0]]
    ensures Accepted([], es, TrimLines) && Accepted([], fs, TrimLines) && Base([], Lf(es), TrimLines) == []
    ensures AllTexts(Regions([], Lf(es), TrimLines)) == [120, 121]
    ensures AllTexts(Regions([], Lf(fs), TrimLines)) == [121, 120]
  {
    EmptyFileEdits(es);
    EmptyFileEdits(fs);
  }

  lemma {:induction false} EmptyFileEdits(es: seq<EditOp>)
    requires |es| == 2 && forall i :: 0 <= i < 2 ==> (es[i].find == [32] || es[i].find == [9]) && NoCr(es[i].put)
    ensures Accepted([], es, TrimLines) && Base([], Lf(es), TrimLines) == []
    ensures AllTexts(Regions([], Lf(es), TrimLines)) == es[0].put + es[1].put
  {
    hide NormalizeToLF, Clear, FuzzyFind, Usable, NeedsFuzzy, NoCr, RegionOf;
    BlankEdit(es[0]);
    BlankEdit(es[1]);
    assert Lf(es) == es;
    assert es[0] in es && Base([], es, TrimLines) == [];
    TwoRegions(es, Region(0, 0, es[0].put), Region(0, 0, es[1].put));
  }

  lemma {:induction false} TwoRegions(es: seq<EditOp>, r: Region, q: Region)
    requires |es| == 2 && RegionOf([], es[0], TrimLines) == r && RegionOf([], es[1], TrimLines) == q
    requires r.start == q.start && r.length == 0 && q.length == 0
    ensures Clear(multiset(Regions([], es, TrimLines)))
    ensures AllTexts(Regions([], es, TrimLines)) == r.text + q.text
  {
    hide RegionOf, Clear;
    assert Regions([], es, TrimLines) == [r, q];
    BothEmpty(r, q);
    assert [r, q][1..] == [q] && [q][1..] == [];
    assert AllTexts([q]) == q.text + AllTexts([]) == q.text;
    assert AllTexts([r, q]) == r.text + AllTexts([q]);
  }

  lemma BothEmpty(r: Region, q: Region)
    requires r.start == q.start && r.length == 0 && q.length == 0
    ensures Clear(multiset([r, q]))
  {
  }

  /** An edit of one blank, of plain text, on an empty file. */
  lemma {:induction false} BlankEdit(e: EditOp)
    requires (e.find == [32] || e.find == [9]) && NoCr(e.put)
    ensures ToLF(e) == e && TrimLines([]) == [] && NeedsFuzzy([], e, TrimLines)
    ensures Usable([], e, TrimLines) && RegionOf([], e, TrimLines) == Region(0, 0, e.put)
  {
    NormalizeIsLf(e.find);
    NormalizeIsLf(e.put);
    TrimByte(e.find[0], []);
    assert e.find == [e.find[0]] + [];
    assert TrimLines(e.find) == [];
    assert Index([], e.find) == -1;
    assert Occurs([], [], 0);
    CountOfEmpty([]);
  }

  lemma SameMembers<T>(s: seq<T>, t: seq<T>)
    requires multiset(s) == multiset(t)
    ensures forall x :: x in s <==> x in t
    ensures s == [] <==> t == []
  {
    assert forall x :: x in s <==> x in multiset(s);
    assert forall x :: x in t <==> x in multiset(t);
    assert |s| == |multiset(s)| && |t| == |multiset(t)|;
  }

  // ----- When a text is taken as unique

  /** Every place in s where sub occurs overlaps the first one. */
  ghost predicate Clustered(s: bytes, sub: bytes) { forall k :: Occurs(s, sub, k) ==> k < Index(s, sub) + |sub| }

  /** What the uniqueness check asks for: there is a match, and in the normalised base the
      normalised text occurs nowhere, or only on top of its first occurrence; a text that
      normalises to nothing needs a base that does too. */
  lemma {:induction false} UsableIff(base: bytes, e: EditOp, fuzzy: Fuzzy)
    requires e.find != []
    ensures (Usable(base, e, fuzzy) <==>
             && FuzzyFind(base, e.find, fuzzy).Match?
             && if fuzzy(e.find) == [] then fuzzy(base) == [] else Clustered(fuzzy(base), fuzzy(e.find)))
  {
    hide Count, Index;
    if fuzzy(e.find) == [] {
      CountOfEmpty(fuzzy(base));
    } else {
      CountIsOneIff(fuzzy(base), fuzzy(e.find));
    }
  }

  /** On texts that the normaliser leaves alone: the text is there, and every place where it
      is overlaps the first. */
  lemma {:induction false} PlainUsableIff(base: bytes, e: EditOp, fuzzy: Fuzzy)
    requires e.find != [] && fuzzy(base) == base && fuzzy(e.find) == e.find
    ensures Usable(base, e, fuzzy) <==> (exists k :: Occurs(base, e.find, k)) && Clustered(base, e.find)
  {
    UsableIff(base, e, fuzzy);
    if Index(base, e.find) != -1 {
      assert Occurs(base, e.find, Index(base, e.find));
    }
  }

  /** One edit alone is accepted if and only if its text is usable. */
  lemma {:induction false} OneEditAcceptedIff(content: bytes, e: EditOp, fuzzy: Fuzzy)
    ensures Accepted(content, [e], fuzzy) <==> e.find != [] && Usable(Base(content, [ToLF(e)], fuzzy), ToLF(e), fuzzy)
  {
    hide Usable, Base, NormalizeToLF;
    var base, es := Base(content, [ToLF(e)], fuzzy), [ToLF(e)];
    assert Lf([e]) == es;
    var r := RegionOf(base, ToLF(e), fuzzy);
    assert Regions(base, es, fuzzy) == [r];
    assert e in [e] && ToLF(e) in es;
  }

  /** On ASCII the normaliser of internal/tool/fuzzy.go is this: strings.TrimRight of blanks,
      tabs and carriage returns, line by line. */
  function TrimLines(s: bytes): bytes {
    if s == [] then []
    else
      var rest := TrimLines(s[1..]);
      if s[0] in {32, 9, 13} && (rest == [] || rest[0] == LF) then rest else [s[0]] + rest
  }

  lemma {:induction false} TrimTwice(s: bytes)
    ensures TrimLines(TrimLines(s)) == TrimLines(s)
  {
    if s != [] {
      TrimTwice(s[1..]);
      var t := TrimLines(s);
      assert t != TrimLines(s[1..]) ==> t[1..] == TrimLines(s[1..]);
    }
  }

  lemma TrimIsIdempotent()
    ensures Idempotent(TrimLines)
  {
    forall s ensures TrimLines(TrimLines(s)) == TrimLines(s) {
      TrimTwice(s);
    }
  }

  /** An edit of plain text, in a base that needs no normalising to find it. */
  lemma {:induction false} PlainEdit(content: bytes, e: EditOp, fuzzy: Fuzzy)
    requires NoCr(content) && NoCr(e.find) && NoCr(e.put) && e.find != [] && Index(content, e.find) != -1
    ensures ToLF(e) == e && Base(content, [e], fuzzy) == content
    ensures (Accepted(content, [e], fuzzy) <==>
             if fuzzy(e.find) == [] then fuzzy(content) == [] else Clustered(fuzzy(content), fuzzy(e.find)))
  {
    hide NormalizeToLF, Index;
    NormalizeIsLf(e.find);
    NormalizeIsLf(e.put);
    OneEditAcceptedIff(content, e, fuzzy);
    UsableIff(content, e, fuzzy);
  }

  lemma TrimByte(b: byte, rest: bytes)
    ensures (TrimLines([b] + rest) ==
             var t := TrimLines(rest);
             if b in {32, 9, 13} && (t == [] || t[0] == LF) then t else [b] + t)
  {
    assert ([b] + rest)[1..] == rest;
  }

  /** "a " in "a b a": there once, but refused, because "a" is there twice. */
  lemma {:induction false} OnceButRefused(content: bytes, e: EditOp)
    requires content == [97, 32, 98, 32, 97] && e.find == [97, 32] && NoCr(e.put)
    ensures Idempotent(TrimLines) && !Accepted(content, [e], TrimLines)
    ensures Occurs(content, e.find, 0) && forall k :: Occurs(content, e.find, k) ==> k == 0
  {
    hide TrimLines, Occurs, Accepted;
    TrimIsIdempotent();
    Trimmed();
    PlacesInABA(content, e.find);
    PlainEdit(content, e, TrimLines);
  }

  lemma Trimmed()
    ensures TrimLines([97, 32, 98, 32, 97]) == [97, 32, 98, 32, 97] && TrimLines([97, 32]) == [97]
  {
    TrimByte(97, []);
    TrimByte(32, [97]);
    TrimByte(98, [32, 97]);
    TrimByte(32, [98, 32, 97]);
    TrimByte(97, [32, 98, 32, 97]);
    TrimByte(32, []);
    TrimByte(97, [32]);
  }

  lemma {:induction false} PlacesInABA(s: bytes, sub: bytes)
    requires s == [97, 32, 98, 32, 97] && sub == [97, 32]
    ensures Occurs(s, sub, 0) && (forall k :: Occurs(s, sub, k) ==> k == 0) && Index(s, sub) != -1
    ensures Occurs(s, [97], 0) && Occurs(s, [97], 4) && Index(s, [97]) == 0
  {
    assert s[0..2] == sub;
    assert Occurs(s, sub, 0);
    forall k | Occurs(s, sub, k) ensures k == 0 {
      assert s[k..k + 2][0] == s[k] && s[k..k + 2][1] == s[k + 1];
    }
    OccursByte(s, 97, 0);
    OccursByte(s, 97, 4);
  }

  /** "aa" in "aaa": there twice, but accepted, because the two overlap. */
  lemma {:induction false} OverlapAccepted(content: bytes, e: EditOp)
    requires content == [97, 97, 97] && e.find == [97, 97] && NoCr(e.put)
    ensures Idempotent(TrimLines) && Accepted(content, [e], TrimLines)
    ensures Occurs(content, e.find, 0) && Occurs(content, e.find, 1)
  {
    TrimIsIdempotent();
    OverlapCountsOnce(content, e.find);
    TrimByte(97, []);
    TrimByte(97, [97]);
    TrimByte(97, [97, 97]);
    assert [97] + [97, 97] == content && [97] + [97] == e.find;
    assert TrimLines(content) == content && TrimLines(e.find) == e.find;
    PlainEdit(content, e, TrimLines);
  }

  lemma OccursByte(s: bytes, b: byte, k: int)
    ensures Occurs(s, [b], k) <==> 0 <= k < |s| && s[k] == b
  {
    assert 0 <= k < |s| ==> s[k..k + 1] == [s[k]];
  }

  /** "e" in two decomposed e-acutes, which the normaliser composes: there twice and apart,
      but accepted, because it is nowhere in the normalised base. Only the first is replaced. */
  lemma {:induction false} TwiceButAccepted(content: bytes, e: EditOp, fuzzy: Fuzzy)
    requires content == [101, 0xCC, 0x81, 32, 101, 0xCC, 0x81] && e.find == [101] && NoCr(e.put)
    requires fuzzy(content) == [0xC3, 0xA9, 32, 0xC3, 0xA9] && fuzzy(e.find) == e.find
    ensures Occurs(content, e.find, 0) && Occurs(content, e.find, 4) && Accepted(content, [e], fuzzy)
    ensures Regions(content, [e], fuzzy) == [Region(0, 1, e.put)]
  {
    assert content[0..1] == e.find && content[4..5] == e.find;
    assert Occurs(content, e.find, 0);
    forall k ensures !Occurs(fuzzy(content), e.find, k) {
      OccursByte(fuzzy(content), 101, k);
    }
    PlainEdit(content, e, fuzzy);
    assert RegionOf(content, e, fuzzy) == Region(0, 1, e.put);
  }

  // ----- Where bytes stay

  /** Bytes that no region begins in stay, and stay together. */
  lemma {:induction false} GapSurvives(base: bytes, rs: multiset<Region>, i: nat, j: nat)
    requires i <= j <= |base|
    requires forall r :: r in rs ==> !(i <= r.start < j)
    ensures Substituted(base, rs, i) == base[i..j] + Substituted(base, rs, j)
    decreases j - i
  {
    hide Substituted;
    if i < j {
      ByteStands(base, rs, i);
      GapSurvives(base, rs, i + 1, j);
      assert base[i..j] == [base[i]] + base[i + 1..j];
    }
  }

  lemma {:induction false} SubstitutedStep(base: bytes, rs: multiset<Region>, i: nat) returns (hit: bool, r: Region)
    requires i < |base|
    ensures hit ==> Begins(base, rs, i, r) && Substituted(base, rs, i) == r.text + Substituted(base, rs, i + r.length)
    ensures !hit ==> Substituted(base, rs, i) == [base[i]] + Substituted(base, rs, i + 1)
  {
    hit, r := false, Region(0, 0, []);
    if exists q :: Begins(base, rs, i, q) {
      hit := true;
      r :| Begins(base, rs, i, r) && Substituted(base, rs, i) == r.text + Substituted(base, rs, i + r.length);
    }
  }

  lemma SliceJoins(s: bytes, i: nat, j: nat)
    requires i <= j <= |s|
    ensures s[i..j] + s[j..] == s[i..]
  {
  }

  predicate Neutral(base: bytes, r: Region) { Within(base, r) && r.text == base[r.start..r.start + r.length] }

  lemma NeutralText(base: bytes, r: Region)
    requires Neutral(base, r)
    ensures r.start + r.length <= |base| && r.text + base[r.start + r.length..] == base[r.start..]
  {
    SliceJoins(base, r.start, r.start + r.length);
  }

  /** Putting back what is there changes nothing. */
  lemma {:induction false} PuttingBack(base: bytes, rs: multiset<Region>, i: nat)
    requires i <= |base| && forall r :: r in rs ==> Neutral(base, r)
    ensures Substituted(base, rs, i) == base[i..]
    decreases |base| - i
  {
    hide Substituted, Neutral;
    if i < |base| {
      var hit, r := SubstitutedStep(base, rs, i);
      if hit {
        NeutralText(base, r);
        PuttingBack(base, rs, i + r.length);
      } else {
        PuttingBack(base, rs, i + 1);
        SliceJoins(base, i, i + 1);
        assert base[i..i + 1] == [base[i]];
      }
    } else {
      NothingLeft(base, rs);
    }
  }

  // ----- The file on disk

  /** Where byte i of the normalised text lies in the file. */
  function At(bom: bytes, base: bytes, ending: Ending, i: nat): nat
    requires i <= |base|
  {
    |bom| + |RestoreLineEndings(base[..i], ending)|
  }

  function RawRegion(bom: bytes, base: bytes, ending: Ending, r: Region): Region {
    if Within(base, r) then
      var length := |RestoreLineEndings(base[r.start..r.start + r.length], ending)|;
      Region(At(bom, base, ending, r.start), length, RestoreLineEndings(r.text, ending))
    else r
  }

  lemma {:induction false} RestoreGrows(s: bytes, ending: Ending)
    ensures |RestoreLineEndings(s, ending)| >= |s|
  {
    if ending == CrLf && s != [] {
      RestoreGrows(s[1..], ending);
      OneByte(s[0], s[1..], LF, [CR, LF]);
      assert s == [s[0]] + s[1..];
    }
  }

  lemma {:induction false} AtPiece(bom: bytes, base: bytes, ending: Ending, i: nat, j: nat)
    requires i <= j <= |base|
    ensures var raw := bom + RestoreLineEndings(base, ending);
            var x, y := At(bom, base, ending, i), At(bom, base, ending, j);
            && x + (j - i) <= y <= |raw| && y == x + |RestoreLineEndings(base[i..j], ending)|
            && raw[x..y] == RestoreLineEndings(base[i..j], ending)
            && (j == |base| ==> y == |raw|)
  {
    hide RestoreLineEndings;
    RestoreGrows(base[i..j], ending);
    assert base[..j] == base[..i] + base[i..j] && base == base[..j] + base[j..];
    RestoreConcat(base[..i], base[i..j], ending);
    RestoreConcat(base[..j], base[j..], ending);
    assert j == |base| ==> base[..j] == base;
  }

  function RawRegions(bom: bytes, base: bytes, ending: Ending, rs: seq<Region>): seq<Region> {
    Mapped(rs, (r: Region) => RawRegion(bom, base, ending, r))
  }

  lemma {:induction false} RawFillOk(bom: bytes, base: bytes, ending: Ending, rs: seq<Region>, k: nat, from: nat)
    requires k <= |rs| && from <= |base| && FillOk(base, rs, k, from)
    requires forall i :: 0 <= i < |rs| ==> Within(base, rs[i])
    ensures (FillOk(bom + RestoreLineEndings(base, ending), RawRegions(bom, base, ending, rs), k,
             At(bom, base, ending, from)))
  {
    hide RestoreLineEndings, At;
    var raw, qs := bom + RestoreLineEndings(base, ending), RawRegions(bom, base, ending, rs);
    forall i | 0 <= i < |rs|
      ensures Within(raw, qs[i])
      ensures qs[i].start + qs[i].length == At(bom, base, ending, rs[i].start + rs[i].length)
    {
      AtPiece(bom, base, ending, rs[i].start, rs[i].start + rs[i].length);
    }
    forall i: nat | k <= i && i + 1 < |rs| ensures NextApart(qs, i) {
      assert NextApart(rs, i);
      AtPiece(bom, base, ending, rs[i].start + rs[i].length, rs[i + 1].start);
    }
    if k < |rs| {
      AtPiece(bom, base, ending, from, rs[k].start);
    }
  }

  /** Filling and then restoring the line endings is filling in the file itself. */
  lemma {:induction false} FillRestored(bom: bytes, base: bytes, ending: Ending, rs: seq<Region>, k: nat, from: nat)
    requires k <= |rs| && from <= |base| && FillOk(base, rs, k, from)
    requires forall i :: 0 <= i < |rs| ==> Within(base, rs[i])
    requires (FillOk(bom + RestoreLineEndings(base, ending), RawRegions(bom, base, ending, rs), k,
              At(bom, base, ending, from)))
    requires At(bom, base, ending, from) <= |bom + RestoreLineEndings(base, ending)|
    ensures (RestoreLineEndings(Fill(base, rs, k, from), ending)
            == Fill(bom + RestoreLineEndings(base, ending), RawRegions(bom, base, ending, rs), k,
                At(bom, base, ending, from)))
    decreases |rs| - k
  {
    hide RestoreLineEndings, FillOk, Fill;
    var raw, qs := bom + RestoreLineEndings(base, ending), RawRegions(bom, base, ending, rs);
    if k == |rs| {
      FillLast(base, rs, from);
      FillLast(raw, qs, At(bom, base, ending, from));
      AtPiece(bom, base, ending, from, |base|);
      assert base[from..|base|] == base[from..];
      assert raw[At(bom, base, ending, from)..|raw|] == raw[At(bom, base, ending, from)..];
    } else {
      var r := rs[k];
      FillGoesOn(base, rs, k, from);
      AtPiece(bom, base, ending, from, r.start);
      AtPiece(bom, base, ending, r.start, r.start + r.length);
      RawFillOk(bom, base, ending, rs, k + 1, r.start + r.length);
      FillRestored(bom, base, ending, rs, k + 1, r.start + r.length);
      FillGoesOn(raw, qs, k, At(bom, base, ending, from));
      hide At;
      RestoreConcat(base[from..r.start] + r.text, Fill(base, rs, k + 1, r.start + r.length), ending);
      RestoreConcat(base[from..r.start], r.text, ending);
    }
  }

  lemma {:induction false} SortedExists(rs: seq<Region>) returns (out: seq<Region>)
    ensures Sorted(out) && multiset(out) == multiset(rs)
  {
    if rs == [] {
      out := [];
    } else {
      var rest := SortedExists(rs[1..]);
      var k := |rest|;
      while k > 0 && rest[k - 1].start > rs[0].start
        invariant 0 <= k <= |rest| && (k < |rest| ==> rest[k].start > rs[0].start)
      {
        k := k - 1;
      }
      SortedWith(rest, rs[0], k);
      ManyWith(rest, rs[0], k);
      assert rs == [rs[0]] + rs[1..];
      out := rest[..k] + [rs[0]] + rest[k..];
    }
  }

  /** The file, edited: the same substitution, made in the file at the places that its
      bytes come from. */
  lemma {:induction false} EditedInPlace(bom: bytes, base: bytes, ending: Ending, rs: seq<Region>)
    requires base != [] && Proper(base, rs) && Clear(multiset(rs))
    ensures (bom + RestoreLineEndings(Substituted(base, multiset(rs), 0), ending)
            == Substituted(bom + RestoreLineEndings(base, ending), multiset(RawRegions(bom, base, ending, rs)), 0))
  {
    hide RestoreLineEndings, Clear, Fill, FillOk, Behind, Sorted, Substituted, RawRegion, Proper, Adjacent;
    var raw := bom + RestoreLineEndings(base, ending);
    var sorted := SortedExists(rs);
    ProperAnyOrder(base, rs, sorted);
    SortedIsFillOk(base, sorted);
    FilledIsMeant(base, sorted);
    EditedSorted(bom, base, ending, sorted);
    MapPermutes(sorted, rs, (r: Region) => RawRegion(bom, base, ending, r));
  }

  lemma {:induction false} EditedSorted(bom: bytes, base: bytes, ending: Ending, rs: seq<Region>)
    requires FillOk(base, rs, 0, 0) && Sorted(rs) && Behind(rs, 0, 0)
    ensures (bom + RestoreLineEndings(Fill(base, rs, 0, 0), ending)
            == Substituted(bom + RestoreLineEndings(base, ending), multiset(RawRegions(bom, base, ending, rs)), 0))
  {
    hide Fill, Substituted, RestoreLineEndings, At;
    var raw, qs := bom + RestoreLineEndings(base, ending), RawRegions(bom, base, ending, rs);
    AtStart(bom, base, ending);
    RawFillOk(bom, base, ending, rs, 0, 0);
    FillRestored(bom, base, ending, rs, 0, 0);
    RawSorted(bom, base, ending, rs);
    FillSkipped(raw, qs, |bom|);
    FillIsSubstituted(raw, qs, 0, 0);
    assert raw[..|bom|] == bom;
  }

  lemma AtStart(bom: bytes, base: bytes, ending: Ending)
    ensures At(bom, base, ending, 0) == |bom|
  {
  }

  lemma {:induction false} FillSkipped(raw: bytes, qs: seq<Region>, n: nat)
    requires n <= |raw| && FillOk(raw, qs, 0, n)
    ensures FillOk(raw, qs, 0, 0) && Fill(raw, qs, 0, 0) == raw[..n] + Fill(raw, qs, 0, n)
  {
    if qs != [] {
      FillGoesOn(raw, qs, 0, n);
      assert raw[0..qs[0].start] == raw[..n] + raw[n..qs[0].start];
    }
  }

  lemma {:induction false} RawSorted(bom: bytes, base: bytes, ending: Ending, rs: seq<Region>)
    requires FillOk(base, rs, 0, 0) && Sorted(rs) && Behind(rs, 0, 0)
    ensures Sorted(RawRegions(bom, base, ending, rs)) && Behind(RawRegions(bom, base, ending, rs), 0, 0)
  {
    hide At, RestoreLineEndings;
    var qs := RawRegions(bom, base, ending, rs);
    forall i, j | 0 <= i < j < |qs| ensures qs[i].start <= qs[j].start {
      assert Within(base, rs[i]) && Within(base, rs[j]);
      AtPiece(bom, base, ending, rs[i].start, rs[j].start);
    }
    forall i | 0 <= i < |qs| ensures qs[i].length > 0 {
      assert Within(base, rs[i]);
      AtPiece(bom, base, ending, rs[i].start, rs[i].start + rs[i].length);
    }
  }

  /** What the file must be for its line endings to survive. */
  predicate Uniform(s: bytes) { NoCr(s) || Paired(s) }

  /** The whole tool: what it writes is the matched text with its line endings restored,
      substituted in place. Where the breaks are alike and no edit needed the normaliser, that
      matched text is the file itself, so every byte outside the matches is kept. */
  method Edit(raw: bytes, edits: seq<EditOp>, fuzzy: Fuzzy) returns (r: Outcome, final: bytes)
    requires Idempotent(fuzzy)
    ensures r.Applied? || r.NoChange? <==> Accepted(NormalizeToLF(StripBOM(raw).1), edits, fuzzy)
    ensures r.Applied? ==> final == StripBOM(raw).0 + RestoreLineEndings(r.content, DetectLineEnding(StripBOM(raw).1))
    ensures (r.Applied? && r.base != [] ==>
             var bom, ending := StripBOM(raw).0, DetectLineEnding(StripBOM(raw).1);
             var rs := RawRegions(bom, r.base, ending, Regions(r.base, Lf(edits), fuzzy));
             final == Substituted(bom + RestoreLineEndings(r.base, ending), multiset(rs), 0))
    ensures (r.Applied? && Uniform(StripBOM(raw).1) && r.base == NormalizeToLF(StripBOM(raw).1) ==>
             StripBOM(raw).0 + RestoreLineEndings(r.base, DetectLineEnding(StripBOM(raw).1)) == raw)
  {
    hide Substituted, NormalizeToLF, RestoreLineEndings, DetectLineEnding, Idle, Usable, Uniform;
    var (bom, stripped) := StripBOM(raw);
    var ending := DetectLineEnding(stripped);
    var normalized := NormalizeToLF(stripped);
    r := ApplyEditsToNormalized(normalized, edits, fuzzy);
    if !r.Applied? {
      return r, raw;
    }
    final := bom + RestoreLineEndings(r.content, ending);
    StripBOMSplits(raw);
    if Uniform(stripped) {
      UniformRoundTrip(stripped);
    }
    if r.base != [] {
      LfUsable(normalized, edits, fuzzy);
      ProperRegions(normalized, Lf(edits), fuzzy);
      EditedInPlace(bom, r.base, ending, Regions(r.base, Lf(edits), fuzzy));
    }
  }

  lemma UniformRoundTrip(s: bytes)
    requires Uniform(s)
    ensures RestoreLineEndings(NormalizeToLF(s), DetectLineEnding(s)) == s
  {
    RoundTripIff(s);
  }

  lemma {:induction false} LfUsable(content: bytes, edits: seq<EditOp>, fuzzy: Fuzzy)
    requires Accepted(content, edits, fuzzy)
    ensures forall e :: e in Lf(edits) ==> e.find != [] && Usable(Base(content, Lf(edits), fuzzy), e, fuzzy)
    ensures Clear(multiset(Regions(Base(content, Lf(edits), fuzzy), Lf(edits), fuzzy)))
  {
    hide NormalizeToLF, Usable, Clear, Base, Regions;
    forall e | e in Lf(edits) ensures e.find != [] {
      var i :| 0 <= i < |edits| && e == ToLF(edits[i]);
      assert edits[i] in edits;
      LfNotEmpty(edits[i].find);
    }
  }
}
