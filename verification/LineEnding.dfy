/** Line endings of an edited file (internal/tool/linending.go). */
module LineEnding {
  import opened Utf8
  import opened Strings

  const CR: byte := 13
  const LF: byte := 10

  datatype Ending = Lf | CrLf

  /** The ending of the first break. */
  function DetectLineEnding(content: bytes): Ending {
    var lf := Index(content, [LF]);
    if lf == -1 then Lf
    else
      var crlf := Index(content, [CR, LF]);
      if crlf == -1 then Lf else if crlf < lf then CrLf else Lf
  }

  function NormalizeToLF(content: bytes): bytes {
    ReplaceAll(ReplaceAll(content, [CR, LF], [LF]), [CR], [LF])
  }

  function RestoreLineEndings(content: bytes, ending: Ending): bytes {
    if ending == CrLf then ReplaceAll(content, [LF], [CR, LF]) else content
  }

  const BOM: bytes := [0xEF, 0xBB, 0xBF]

  function StripBOM(content: bytes): (bytes, bytes) {
    if HasPrefix(content, BOM) then (BOM, content[|BOM|..]) else ([], content)
  }

  lemma StripBOMSplits(content: bytes)
    ensures StripBOM(content).0 + StripBOM(content).1 == content
  {
  }

  // ----- One break at a time

  /** How many bytes of s the next character takes, and what it becomes. */
  function Unit(s: bytes): (n: nat)
    requires s != []
    ensures 1 <= n <= |s|
  {
    if |s| > 1 && s[0] == CR && s[1] == LF then 2 else 1
  }

  function Plain(b: byte): byte { if b == CR then LF else b }

  /** The two replacements come down to one pass. */
  lemma {:induction false} NormalizeStep(s: bytes)
    requires s != []
    ensures NormalizeToLF(s) == [Plain(s[0])] + NormalizeToLF(s[Unit(s)..])
  {
    if Unit(s) == 2 {
      assert s[..2] == [CR, LF];
      assert HasPrefix(s, [CR, LF]);
      OneByte(LF, ReplaceAll(s[2..], [CR, LF], [LF]), CR, [LF]);
    } else {
      assert |s| > 1 ==> s[..2] == [s[0], s[1]];
      OneByte(s[0], ReplaceAll(s[1..], [CR, LF], [LF]), CR, [LF]);
    }
  }

  lemma {:induction false} OneByte(b: byte, rest: bytes, from: byte, to: bytes)
    ensures ReplaceAll([b] + rest, [from], to) == (if b == from then to else [b]) + ReplaceAll(rest, [from], to)
  {
    var s := [b] + rest;
    assert s[1..] == rest && s[..1] == [b];
  }

  predicate NoCr(s: bytes) { forall i :: 0 <= i < |s| ==> s[i] != CR }

  /** Every break is a CR followed by an LF. */
  predicate Paired(s: bytes) {
    && (forall i :: 0 <= i < |s| && s[i] == CR ==> i + 1 < |s| && s[i + 1] == LF)
    && (forall i :: 0 <= i < |s| && s[i] == LF ==> i > 0 && s[i - 1] == CR)
  }

  lemma {:induction false} NormalizeIsLf(s: bytes)
    ensures NoCr(NormalizeToLF(s))
    ensures NoCr(s) ==> NormalizeToLF(s) == s
    decreases |s|
  {
    if s != [] {
      NormalizeStep(s);
      NormalizeIsLf(s[Unit(s)..]);
    }
  }

  lemma {:induction false} NormalizeTwice(s: bytes)
    ensures NormalizeToLF(NormalizeToLF(s)) == NormalizeToLF(s)
  {
    NormalizeIsLf(s);
    NormalizeIsLf(NormalizeToLF(s));
  }

  lemma {:induction false} PairedStep(s: bytes)
    requires s != []
    ensures Paired(s) <==> (s[0] == CR ==> Unit(s) == 2) && s[0] != LF && Paired(s[Unit(s)..])
  {
    var n := Unit(s);
    var rest := s[n..];
    if (s[0] == CR ==> n == 2) && s[0] != LF {
      assert forall i :: 0 <= i < |rest| ==> rest[i] == s[n + i];
      if Paired(rest) {
        forall i | 0 <= i < |s| && s[i] == CR ensures i + 1 < |s| && s[i + 1] == LF {
          assert i >= n ==> rest[i - n] == CR;
        }
        forall i | 0 <= i < |s| && s[i] == LF ensures i > 0 && s[i - 1] == CR {
          assert i >= n ==> rest[i - n] == LF;
        }
      }
      if Paired(s) {
        assert s[n - 1] != CR;
      }
    }
  }

  lemma {:induction false} PairedIff(s: bytes)
    ensures RestoreLineEndings(NormalizeToLF(s), CrLf) == s <==> Paired(s)
    decreases |s|
  {
    hide NormalizeToLF, Paired;
    if s == [] {
      NormalizeIsLf(s);
      PairedEmpty();
    } else {
      var rest := s[Unit(s)..];
      NormalizeStep(s);
      OneByte(Plain(s[0]), NormalizeToLF(rest), LF, [CR, LF]);
      var made := RestoreLineEndings(NormalizeToLF(rest), CrLf);
      PairedIff(rest);
      PairedStep(s);
      assert s == s[..Unit(s)] + rest;
      assert RestoreLineEndings(NormalizeToLF(s), CrLf) == (if Plain(s[0]) == LF then [CR, LF] else [s[0]]) + made;
      if Plain(s[0]) == LF {
        assert ([CR, LF] + made)[0] == CR && ([CR, LF] + made)[1] == LF && ([CR, LF] + made)[2..] == made;
      } else {
        assert ([s[0]] + made)[1..] == made;
      }
    }
  }

  lemma PairedEmpty()
    ensures Paired([])
  {
  }

  lemma {:induction false} DetectSays(s: bytes)
    ensures DetectLineEnding(s) == Lf && Paired(s) ==> NoCr(s)
    ensures DetectLineEnding(s) == CrLf ==> !NoCr(s)
  {
    var lf, crlf := Index(s, [LF]), Index(s, [CR, LF]);
    assert crlf != -1 ==> s[crlf] == CR;
    if Paired(s) && !NoCr(s) {
      var i :| 0 <= i < |s| && s[i] == CR;
      assert s[i..i + 2] == [CR, LF] && s[i + 1..i + 2] == [LF];
      assert Occurs(s, [CR, LF], i) && Occurs(s, [LF], i + 1);
      assert s[lf] == LF;
      assert s[lf - 1..lf + 1] == [CR, LF];
      assert Occurs(s, [CR, LF], lf - 1);
    }
  }

  /** Normalising and restoring gives a file back exactly when its breaks are all alike. */
  lemma {:induction false} RoundTripIff(s: bytes)
    ensures RestoreLineEndings(NormalizeToLF(s), DetectLineEnding(s)) == s <==> NoCr(s) || Paired(s)
  {
    hide NormalizeToLF, DetectLineEnding;
    DetectSays(s);
    NormalizeIsLf(s);
    PairedIff(s);
  }

  /** One break of each kind: the second one comes back as the first. */
  lemma {:induction false} MixedEndingsChange(s: bytes)
    requires s == [CR, LF, LF]
    ensures RestoreLineEndings(NormalizeToLF(s), DetectLineEnding(s)) != s
  {
    RoundTripIff(s);
    assert s[0] == CR && s[2] == LF && s[1] != CR;
  }

  lemma {:induction false} RestoreConcat(s: bytes, t: bytes, ending: Ending)
    ensures RestoreLineEndings(s + t, ending) == RestoreLineEndings(s, ending) + RestoreLineEndings(t, ending)
  {
    if ending == CrLf {
      if s == [] {
        assert s + t == t;
      } else {
        RestoreConcat(s[1..], t, ending);
        assert s + t == [s[0]] + (s[1..] + t);
        OneByte(s[0], s[1..] + t, LF, [CR, LF]);
        assert s == [s[0]] + s[1..];
        OneByte(s[0], s[1..], LF, [CR, LF]);
      }
    }
  }
}
