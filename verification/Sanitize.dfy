/** Stripping escape sequences that would change the terminal's state
    (internal/render/sanitize.go). */
module Sanitize {
  import opened Utf8

  const ESC: byte := 0x1b
  const BEL: byte := 0x07

  function Code(c: char): byte
    requires c as int < 256
  {
    c as int
  }

  predicate IsCSIParamByte(b: byte) {
    || Code('0') <= b <= Code('9')
    || b == Code(';') || b == Code(':')
    || b == Code('<') || b == Code('=') || b == Code('>')
    || b == Code(' ') || b == Code('!')
  }

  /** SGR, cursor moves and erasing: what a sequence may end with to be kept. */
  predicate KeptFinal(b: byte) { b == Code('m') || Code('A') <= b <= Code('H') || b == Code('J') || b == Code('K') }

  // ----- The grammar of what is kept

  /** ESC [ parameters final. */
  predicate KeptSequence(t: bytes) {
    && |t| >= 3 && t[0] == ESC && t[1] == Code('[') && KeptFinal(t[|t| - 1])
    && forall k :: 2 <= k < |t| - 1 ==> IsCSIParamByte(t[k])
  }

  /** Plain bytes and kept sequences, nothing else. */
  ghost predicate Clean(s: bytes)
    decreases |s|
  {
    || s == []
    || (s[0] != ESC && Clean(s[1..]))
    || exists n: nat :: Opens(s, n) && Clean(s[n..])
  }

  ghost predicate Opens(s: bytes, n: nat) { 0 < n <= |s| && KeptSequence(s[..n]) }

  // ----- Scanning

  /** The first byte from j on that is no parameter. */
  function ParamEnd(s: bytes, j: nat): (e: nat)
    requires j <= |s|
    ensures j <= e <= |s| && (forall k :: j <= k < e ==> IsCSIParamByte(s[k])) && (e < |s| ==> !IsCSIParamByte(s[e]))
    decreases |s| - j
  {
    if j < |s| && IsCSIParamByte(s[j]) then ParamEnd(s, j + 1) else j
  }

  /** Just behind the BEL or the ESC \\ that ends an operating system command. */
  function OscEnd(s: bytes, j: nat): (e: nat)
    requires j <= |s|
    ensures j <= e <= |s|
    decreases |s| - j
  {
    if j == |s| then j
    else if s[j] == BEL then j + 1
    else if s[j] == ESC && j + 1 < |s| && s[j + 1] == Code('\\') then j + 2
    else OscEnd(s, j + 1)
  }

  /** The sequence that s begins with: its length, and whether it stays. One that is cut off
      takes the rest of s with it. */
  function Sequence(s: bytes): (r: (nat, bool))
    requires s != [] && s[0] == ESC
    ensures 0 < r.0 <= |s|
  {
    if |s| == 1 then (1, false)
    else if s[1] == Code('[') then
      var private := |s| > 2 && s[2] == Code('?');
      var j := ParamEnd(s, if private then 3 else 2);
      if j == |s| then (|s|, false) else (j + 1, !private && KeptFinal(s[j]))
    else if s[1] == Code(']') then (OscEnd(s, 2), false)
    else if s[1] == Code('(') || s[1] == Code(')') then (if |s| > 2 then 3 else 2, false)
    else (2, false)
  }

  /** What remains of s. */
  function Kept(s: bytes): bytes
    decreases |s|
  {
    if s == [] then []
    else if s[0] != ESC then [s[0]] + Kept(s[1..])
    else
      var (n, keep) := Sequence(s);
      (if keep then s[..n] else []) + Kept(s[n..])
  }

  // ----- What it means

  /** A kept sequence at the head is recognised as exactly itself. */
  lemma {:induction false} SequenceExact(s: bytes, n: nat)
    requires Opens(s, n)
    ensures Sequence(s) == (n, true)
  {
    var t := s[..n];
    assert forall k :: 0 <= k < n ==> s[k] == t[k];
    assert KeptFinal(s[n - 1]);
    assert !IsCSIParamByte(s[n - 1]);
    assert s[2] != Code('?');
    var e := ParamEnd(s, 2);
    assert e == n - 1;
  }

  lemma {:induction false} SequenceOpens(s: bytes)
    requires s != [] && s[0] == ESC && Sequence(s).1
    ensures Opens(s, Sequence(s).0)
  {
    var n := Sequence(s).0;
    assert forall k :: 0 <= k < n ==> s[..n][k] == s[k];
  }

  lemma {:induction false} CleanHead(t: bytes, rest: bytes)
    requires KeptSequence(t) && Clean(rest)
    ensures Clean(t + rest)
  {
    var s := t + rest;
    assert s[..|t|] == t && s[|t|..] == rest;
    assert Opens(s, |t|);
  }

  /** Whatever comes in, only plain bytes and kept sequences come out. */
  lemma {:induction false} KeptIsClean(s: bytes)
    ensures Clean(Kept(s))
    decreases |s|
  {
    if s != [] {
      if s[0] != ESC {
        KeptIsClean(s[1..]);
        assert Kept(s)[1..] == Kept(s[1..]);
      } else {
        var (n, keep) := Sequence(s);
        KeptIsClean(s[n..]);
        if keep {
          SequenceOpens(s);
          CleanHead(s[..n], Kept(s[n..]));
        } else {
          assert [] + Kept(s[n..]) == Kept(s[n..]);
        }
      }
    }
  }

  lemma {:induction false} CleanSplits(s: bytes) returns (n: nat)
    requires Clean(s) && s != []
    ensures 0 < n <= |s| && Clean(s[n..])
    ensures s[0] != ESC ==> n == 1
    ensures s[0] == ESC ==> Opens(s, n)
  {
    if s[0] != ESC {
      forall k: nat ensures !Opens(s, k) {
        assert 0 < k <= |s| ==> s[..k][0] == s[0];
      }
      n := 1;
    } else {
      n :| Opens(s, n) && Clean(s[n..]);
    }
  }

  lemma {:induction false} CleanIsKept(s: bytes)
    requires Clean(s)
    ensures Kept(s) == s
    decreases |s|
  {
    hide Kept, Clean, Opens;
    KeptNothing();
    if s != [] {
      var n := CleanSplits(s);
      KeptStep(s);
      CleanIsKept(s[n..]);
      assert s[..n] + s[n..] == s;
      if s[0] == ESC {
        SequenceExact(s, n);
      }
    }
  }

  /** Exactly the clean texts pass unchanged. */
  lemma {:induction false} UnchangedIffClean(s: bytes)
    ensures Kept(s) == s <==> Clean(s)
  {
    KeptIsClean(s);
    if Clean(s) {
      CleanIsKept(s);
    }
  }

  /** Safe to call repeatedly. */
  lemma {:induction false} KeptTwice(s: bytes)
    ensures Kept(Kept(s)) == Kept(s)
  {
    KeptIsClean(s);
    CleanIsKept(Kept(s));
  }

  /** A clean text in front is left alone, and does not change how the rest is read. */
  lemma {:induction false} CleanPrefix(s: bytes, t: bytes)
    requires Clean(s)
    ensures Kept(s + t) == s + Kept(t)
    decreases |s|
  {
    hide Kept, Clean, KeptSequence;
    if s == [] {
      assert s + t == t;
    } else {
      var n := CleanSplits(s);
      KeptStep(s + t);
      assert (s + t)[..n] == s[..n] && (s + t)[n..] == s[n..] + t;
      CleanPrefix(s[n..], t);
      assert s == s[..n] + s[n..];
      if s[0] == ESC {
        SequenceExact(s + t, n);
      }
    }
  }

  lemma {:induction false} PlainIsKept(s: bytes)
    requires ESC !in s
    ensures Kept(s) == s
  {
    if s != [] {
      PlainIsKept(s[1..]);
    }
  }

  method SanitizeForTerminal(s: bytes) returns (b: bytes)
    ensures b == Kept(s)
  {
    hide Kept, IsCSIParamByte, KeptFinal;
    if s == [] || ESC !in s {
      PlainIsKept(s);
      return s;
    }
    b := [];
    var i := 0;
    while i < |s|
      invariant i <= |s| && b + Kept(s[i..]) == Kept(s)
    {
      KeptStep(s[i..]);
      var c := s[i];
      if c != ESC {
        b := b + [c];
        i := i + 1;
        assert s[i - 1..][1..] == s[i..];
        continue;
      }
      var n, keep := ScanSequence(s, i);
      assert s[i..][n..] == s[i + n..] && s[i..][..n] == s[i..i + n];
      if keep {
        b := b + s[i..i + n];
      }
      i := i + n;
    }
    KeptNothing();
    assert s[|s|..] == [];
  }

  lemma KeptNothing()
    ensures Kept([]) == []
  {
  }

  lemma KeptStep(s: bytes)
    requires s != []
    ensures s[0] != ESC ==> Kept(s) == [s[0]] + Kept(s[1..])
    ensures s[0] == ESC ==> Kept(s) == (if Sequence(s).1 then s[..Sequence(s).0] else []) + Kept(s[Sequence(s).0..])
  {
  }

  method ScanSequence(s: bytes, i: nat) returns (n: nat, keep: bool)
    requires i < |s| && s[i] == ESC
    ensures (n, keep) == Sequence(s[i..])
  {
    hide IsCSIParamByte, KeptFinal;
    var t := s[i..];
    if |t| == 1 {
      return 1, false;
    }
    var next := t[1];
    if next == Code('[') {
      var j := 2;
      var private := false;
      if j < |t| && t[j] == Code('?') {
        private := true;
        j := j + 1;
      }
      ghost var from := j;
      while j < |t| && IsCSIParamByte(t[j])
        invariant from <= j <= |t| && ParamEnd(t, from) == ParamEnd(t, j)
      {
        j := j + 1;
      }
      if j >= |t| {
        return |t|, false;
      }
      return j + 1, !private && KeptFinal(t[j]);
    }
    if next == Code(']') {
      var j := 2;
      while j < |t|
        invariant 2 <= j <= |t| && OscEnd(t, 2) == OscEnd(t, j)
      {
        if t[j] == BEL {
          return j + 1, false;
        }
        if t[j] == ESC && j + 1 < |t| && t[j + 1] == Code('\\') {
          return j + 2, false;
        }
        j := j + 1;
      }
      return j, false;
    }
    if next == Code('(') || next == Code(')') {
      return if |t| > 2 then 3 else 2, false;
    }
    return 2, false;
  }
}
