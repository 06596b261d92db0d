/** Byte strings, and the UTF-8 byte grammar of section 4 of RFC 3629. */
module Utf8 {
  type byte = x: int | 0 <= x < 256
  type bytes = seq<byte>

  /** Anything but a continuation byte (Go's utf8.RuneStart). */
  predicate RuneStart(b: byte) {
    !(0x80 <= b < 0xC0)
  }

  /** i is the end of s or the first byte of a rune of s. */
  predicate Boundary(s: bytes, i: int) {
    i == |s| || (0 <= i < |s| && RuneStart(s[i]))
  }

  /** Length of the well-formed rune at the head of s, 0 when there is none. */
  function RuneLen(s: bytes): (n: nat)
    ensures n <= |s|
  {
    if |s| == 0 then 0
    else if s[0] < 0x80 then 1
    else if |s| >= 2 && 0xC2 <= s[0] <= 0xDF && !RuneStart(s[1]) then 2
    else if |s| >= 3 && 0xE0 <= s[0] <= 0xEF && !RuneStart(s[1]) && !RuneStart(s[2])
            && (s[0] == 0xE0 ==> 0xA0 <= s[1]) && (s[0] == 0xED ==> s[1] <= 0x9F) then 3
    else if |s| >= 4 && 0xF0 <= s[0] <= 0xF4 && !RuneStart(s[1]) && !RuneStart(s[2]) && !RuneStart(s[3])
            && (s[0] == 0xF0 ==> 0x90 <= s[1]) && (s[0] == 0xF4 ==> s[1] <= 0x8F) then 4
    else 0
  }

  /** A rune is one starting byte and continuation bytes. */
  lemma RuneShape(s: bytes, k: nat)
    requires k < RuneLen(s)
    ensures RuneStart(s[k]) <==> k == 0
  {
  }

  /** s is a sequence of well-formed runes. */
  predicate Valid(s: bytes)
    decreases |s|
  {
    s == [] || (RuneLen(s) > 0 && Valid(s[RuneLen(s)..]))
  }

  lemma RuneLenLocal(s: bytes, t: bytes)
    requires RuneLen(s) > 0
    requires RuneLen(s) <= |t| && t[..RuneLen(s)] == s[..RuneLen(s)]
    ensures RuneLen(t) == RuneLen(s)
  {
    forall k | 0 <= k < RuneLen(s) ensures t[k] == s[k] {
      assert t[..RuneLen(s)][k] == s[..RuneLen(s)][k];
    }
  }

  lemma {:induction false} ValidConcat(s: bytes, t: bytes)
    requires Valid(s) && Valid(t)
    ensures Valid(s + t)
    decreases |s|
  {
    if s == [] {
      assert s + t == t;
    } else {
      var n := RuneLen(s);
      RuneLenLocal(s, s + t);
      assert (s + t)[n..] == s[n..] + t;
      ValidConcat(s[n..], t);
    }
  }

  /** A valid string may be cut at any rune boundary, and only there. */
  lemma {:induction false} ValidCut(s: bytes, i: nat)
    requires Valid(s) && i <= |s|
    ensures Boundary(s, i) <==> Valid(s[..i])
    ensures Boundary(s, i) ==> Valid(s[i..])
    decreases |s|
  {
    if s == [] || i == 0 {
      assert s[i..] == s;
      if s != [] {
        RuneShape(s, 0);
      }
    } else {
      var n := RuneLen(s);
      if i < n {
        RuneShape(s, i);
        if RuneLen(s[..i]) > 0 {
          RuneLenLocal(s[..i], s);
        }
      } else {
        RuneLenLocal(s, s[..i]);
        assert s[..i][n..] == s[n..][..i - n];
        assert s[i..] == s[n..][i - n..];
        ValidCut(s[n..], i - n);
        assert i < |s| ==> s[n..][i - n] == s[i];
      }
    }
  }

  /** Bytes below 0x80 stand alone, so the place after one is a boundary. */
  lemma {:induction false} AfterAscii(s: bytes, i: nat)
    requires Valid(s) && i < |s| && s[i] < 0x80
    ensures Boundary(s, i + 1)
    decreases |s|
  {
    var n := RuneLen(s);
    if i < n {
      RuneShape(s, i);
      ValidCut(s[n..], 0);
    } else {
      assert s[n..][i - n] == s[i];
      AfterAscii(s[n..], i - n);
      assert i + 1 < |s| ==> s[n..][i + 1 - n] == s[i + 1];
    }
  }
}
