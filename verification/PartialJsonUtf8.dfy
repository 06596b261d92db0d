/** What partialjson shows is valid UTF-8, wherever valid input is cut. */
module PartialJsonUtf8 {
  import opened Utf8
  import opened PartialJson

  /** Every rune the reader appends is well-formed. */
  lemma {:induction false} EncodeValid(r: nat)
    ensures Valid(Encode(r)) && Encode(r) != []
  {
    var e := Encode(r);
    assert RuneLen(e) == |e|;
    assert e[|e|..] == [];
  }

  lemma ValidAppend(s: bytes, t: bytes)
    requires Valid(s) && Valid(t)
    ensures Valid(s + t)
  {
    ValidConcat(s, t);
  }

  /** What the tolerant reader may assume of its input: whole is valid, b is where it was
      cut, and i is between two of its runes. */
  ghost predicate Placed(whole: bytes, b: bytes, i: nat) {
    Valid(whole) && b <= whole && i <= |b| && Boundary(whole, i)
  }

  lemma AfterAsciiByte(whole: bytes, b: bytes, i: nat)
    requires Valid(whole) && b <= whole && i < |b| && b[i] < 0x80
    ensures Placed(whole, b, i + 1)
  {
    AfterAscii(whole, i);
  }

  lemma EscapePlaced(whole: bytes, b: bytes, i: nat)
    requires Valid(whole) && b <= whole && EscapeAt(b, i).Escape? && i < |b|
    ensures Placed(whole, b, i + EscapeAt(b, i).n)
  {
    AfterAsciiByte(whole, b, i + EscapeAt(b, i).n - 1);
  }

  /** A multi-byte sequence is taken whole, as the input has it. */
  lemma RunePlaced(whole: bytes, b: bytes, i: nat)
    requires Placed(whole, b, i) && i < |b| && b[i] >= 0x80 && i + Want(b[i]) <= |b|
    ensures Placed(whole, b, i + Want(b[i])) && Valid(b[i..i + Want(b[i])])
  {
    ValidCut(whole, i);
    var rest := whole[i..];
    assert rest[0] == b[i] == whole[i];
    var n := RuneLen(rest);
    assert n == Want(b[i]);
    var rune := whole[i..i + n];
    assert rune == rest[..n] == b[i..i + n];
    RuneLenLocal(rest, rune);
    assert rune[n..] == [];
    assert Valid(rest[n..]);
    ValidCut(rest[n..], 0);
    assert i + n < |whole| ==> rest[n..][0] == whole[i + n];
  }

  lemma PiecePlaced(whole: bytes, b: bytes, i: nat)
    requires Placed(whole, b, i) && i < |b| && TolerantPiece(b, i).Bytes?
    ensures var p := TolerantPiece(b, i); Placed(whole, b, p.next) && Valid(p.text)
  {
    hide Encode, Want;
    if b[i] == BACKSLASH {
      EscapePlaced(whole, b, i);
      var e := EscapeAt(b, i);
      EncodeValid(e.r);
      EncodeValid(0xFFFD);
      if TolerantPiece(b, i).next == i + e.n + 6 {
        EscapePlaced(whole, b, i + e.n);
        EncodeValid(DecodePair(e.r, EscapeAt(b, i + e.n).r));
      }
    } else if b[i] < 0x80 {
      AfterAsciiByte(whole, b, i);
      assert [b[i]][1..] == [];
    } else {
      RunePlaced(whole, b, i);
    }
  }

  lemma {:induction false} TolerantValid(whole: bytes, b: bytes, i: nat, buf: bytes)
    requires Placed(whole, b, i) && Valid(buf)
    ensures Valid(Tolerant(b, i, buf))
    decreases |b| - i
  {
    hide TolerantPiece, Placed, Valid;
    if i < |b| && b[i] != QUOTE && TolerantPiece(b, i).Bytes? {
      PiecePlaced(whole, b, i);
      var p := TolerantPiece(b, i);
      ValidAppend(buf, p.text);
      TolerantValid(whole, b, p.next, buf + p.text);
    }
  }

  lemma {:induction false} FieldFromValid(whole: bytes, b: bytes, i: nat, name: bytes)
    requires Valid(whole) && b <= whole && i <= |b|
    ensures FieldFrom(b, i, name).Some? ==> Valid(FieldFrom(b, i, name).value)
    decreases |b| - i
  {
    hide MemberAt, NextMember, Valid, Tolerant;
    var m := MemberAt(b, i);
    if m.Member? {
      if m.key == name {
        if b[m.at] == QUOTE {
          AfterAsciiByte(whole, b, m.at);
          NothingValid();
          TolerantValid(whole, b, m.at + 1, []);
        }
      } else if NextMember(b, m.at).Some? {
        FieldFromValid(whole, b, NextMember(b, m.at).value, name);
      }
    }
  }

  lemma NothingValid()
    ensures Valid([])
  {
  }

  /** Cut valid UTF-8 input after any number of bytes: the value shown is valid UTF-8. */
  lemma {:induction false} PreviewIsValidUtf8(whole: bytes, n: nat, name: bytes)
    requires Valid(whole) && n <= |whole|
    ensures var v := Field(whole[..n], name); v.Some? ==> Valid(v.value)
  {
    hide FieldFrom, Valid;
    var b := whole[..n];
    if SkipWS(b, 0) < |b| {
      FieldFromValid(whole, b, SkipWS(b, 0) + 1, name);
    }
  }
}
