/** internal/partialjson/partialjson.go: read one string field of a JSON object that may be
    cut off anywhere. Every parsing step is a function of the bytes and a position; the
    Parser class runs them. */
module PartialJson {
  import opened Utf8

  datatype Option<+T> = None | Some(value: T)

  const QUOTE: byte := 0x22
  const BACKSLASH: byte := 0x5C
  const LOWER_U: byte := 0x75
  const COLON: byte := 0x3A
  const COMMA: byte := 0x2C
  const OPEN_BRACE: byte := 0x7B
  const CLOSE_BRACE: byte := 0x7D
  const OPEN_BRACKET: byte := 0x5B
  const CLOSE_BRACKET: byte := 0x5D

  predicate IsWS(c: byte) { c == 0x20 || c == 0x09 || c == 0x0A || c == 0x0D }

  // ----- Escapes

  function HexDigit(c: byte): (v: int)
    ensures -1 <= v < 16 && (v >= 0 ==> c < 0x80)
  {
    if 0x30 <= c <= 0x39 then c - 0x30
    else if 0x61 <= c <= 0x66 then c - 0x61 + 10
    else if 0x41 <= c <= 0x46 then c - 0x41 + 10
    else -1
  }

  predicate Hex4At(b: bytes, i: nat) {
    i + 4 <= |b| && HexDigit(b[i]) >= 0 && HexDigit(b[i + 1]) >= 0 && HexDigit(b[i + 2]) >= 0 && HexDigit(b[i + 3]) >= 0
  }

  function Hex4(b: bytes, i: nat): (v: nat)
    requires Hex4At(b, i)
    ensures v < 0x10000
  {
    HexDigit(b[i]) * 0x1000 + HexDigit(b[i + 1]) * 0x100 + HexDigit(b[i + 2]) * 0x10 + HexDigit(b[i + 3])
  }

  /** What a two-byte escape stands for, -1 if it is none. */
  function SimpleEscape(c: byte): int {
    if c == QUOTE || c == BACKSLASH || c == 0x2F then c
    else if c == 0x6E then 0x0A
    else if c == 0x74 then 0x09
    else if c == 0x72 then 0x0D
    else if c == 0x62 then 0x08
    else if c == 0x66 then 0x0C
    else -1
  }

  datatype Escape = Malformed | Escape(n: nat, r: nat)

  /** decodeEscape on what follows position i, which holds a backslash. */
  function EscapeAt(b: bytes, i: nat): (e: Escape)
    ensures e.Escape? ==> (e.n == 2 || e.n == 6) && i + e.n <= |b| && e.r < 0x10000
  {
    if i + 2 > |b| then Malformed
    else if SimpleEscape(b[i + 1]) >= 0 then Escape(2, SimpleEscape(b[i + 1]))
    else if b[i + 1] == LOWER_U && i + 6 <= |b| && Hex4At(b, i + 2) then Escape(6, Hex4(b, i + 2))
    else Malformed
  }

  // ----- Runes

  predicate IsSurrogate(r: nat) { 0xD800 <= r < 0xE000 }

  /** utf16.DecodeRune: section 2.1 of RFC 2781; anything unpaired is U+FFFD. */
  function DecodePair(r1: nat, r2: nat): (r: nat)
    ensures r <= 0x10FFFF && !IsSurrogate(r)
  {
    if 0xD800 <= r1 < 0xDC00 && 0xDC00 <= r2 < 0xE000 then (r1 - 0xD800) * 0x400 + (r2 - 0xDC00) + 0x10000 else 0xFFFD
  }

  /** utf8.AppendRune: section 3 of RFC 3629. */
  function Encode(r: nat): bytes {
    if r < 0x80 then [r]
    else if r < 0x800 then [0xC0 + r / 0x40, 0x80 + r % 0x40]
    else if IsSurrogate(r) || r > 0x10FFFF then [0xEF, 0xBF, 0xBD]
    else if r < 0x10000 then [0xE0 + r / 0x1000, 0x80 + r / 0x40 % 0x40, 0x80 + r % 0x40]
    else [0xF0 + r / 0x40000, 0x80 + r / 0x1000 % 0x40, 0x80 + r / 0x40 % 0x40, 0x80 + r % 0x40]
  }

  // ----- White space and keys

  function SkipWS(b: bytes, i: nat): (j: nat)
    requires i <= |b|
    ensures i <= j <= |b| && (j < |b| ==> !IsWS(b[j]))
    decreases |b| - i
  {
    if i < |b| && IsWS(b[i]) then SkipWS(b, i + 1) else i
  }

  datatype Piece = Stop | Bytes(text: bytes, next: nat)

  /** One step inside a complete string: the bytes it gives and where the next one is. */
  function StrictPiece(b: bytes, i: nat): (p: Piece)
    requires i < |b|
    ensures p.Bytes? ==> i < p.next <= |b|
  {
    if b[i] != BACKSLASH then Bytes([b[i]], i + 1)
    else
      match EscapeAt(b, i)
      case Malformed => Stop
      case Escape(n, r) =>
        if !IsSurrogate(r) then Bytes(Encode(r), i + n)
        else if i + n + 6 > |b| || b[i + n] != BACKSLASH || b[i + n + 1] != LOWER_U then Stop
        else
          match EscapeAt(b, i + n)
          case Malformed => Stop
          case Escape(_, r2) => Bytes(Encode(DecodePair(r, r2)), i + n + 6)
  }

  /** parseCompleteString after its opening quote: the text and the position after the
      closing quote. */
  function CompleteString(b: bytes, i: nat, buf: bytes): (r: Option<(bytes, nat)>)
    requires i <= |b|
    ensures r.Some? ==> i < r.value.1 <= |b| && b[r.value.1 - 1] == QUOTE
    decreases |b| - i
  {
    if i == |b| then None
    else if b[i] == QUOTE then Some((buf, i + 1))
    else
      match StrictPiece(b, i)
      case Stop => None
      case Bytes(text, next) => CompleteString(b, next, buf + text)
  }

  // ----- The value, as far as it goes

  /** Length of a multi-byte sequence by its first byte, 1 for a stray byte. */
  function Want(c: byte): nat {
    if 0xC0 <= c < 0xE0 then 2 else if 0xE0 <= c < 0xF0 then 3 else if 0xF0 <= c < 0xF8 then 4 else 1
  }

  /** One step of decodeTolerant; Stop where it has to wait for more bytes, or give up. */
  function TolerantPiece(b: bytes, i: nat): (p: Piece)
    requires i < |b|
    ensures p.Bytes? ==> i < p.next <= |b|
  {
    if b[i] == BACKSLASH then
      match EscapeAt(b, i)
      case Malformed => Stop
      case Escape(n, r) =>
        if !IsSurrogate(r) then Bytes(Encode(r), i + n)
        else if i + n + 6 > |b| then Stop
        else if b[i + n] != BACKSLASH || b[i + n + 1] != LOWER_U then Bytes(Encode(0xFFFD), i + n)
        else
          match EscapeAt(b, i + n)
          case Malformed => Stop
          case Escape(_, r2) => Bytes(Encode(DecodePair(r, r2)), i + n + 6)
    else if b[i] < 0x80 then Bytes([b[i]], i + 1)
    else if i + Want(b[i]) > |b| then Stop
    else Bytes(b[i..i + Want(b[i])], i + Want(b[i]))
  }

  function Tolerant(b: bytes, i: nat, buf: bytes): (v: bytes)
    requires i <= |b|
    ensures buf <= v
    decreases |b| - i
  {
    if i == |b| || b[i] == QUOTE then buf
    else
      match TolerantPiece(b, i)
      case Stop => buf
      case Bytes(text, next) => Tolerant(b, next, buf + text)
  }

  // ----- Values to pass over

  function SkipString(b: bytes, i: nat): (r: Option<nat>)
    requires i <= |b|
    ensures r.Some? ==> i < r.value <= |b|
    decreases |b| - i
  {
    if i == |b| then None
    else if b[i] == BACKSLASH then
      if i + 1 >= |b| then None
      else if b[i + 1] == LOWER_U then (if i + 6 > |b| then None else SkipString(b, i + 6))
      else SkipString(b, i + 2)
    else if b[i] == QUOTE then Some(i + 1)
    else SkipString(b, i + 1)
  }

  function SkipContainer(b: bytes, i: nat, depth: int): (r: Option<nat>)
    requires i <= |b|
    ensures r.Some? ==> i < r.value <= |b|
    decreases |b| - i
  {
    if i == |b| then None
    else if b[i] == QUOTE then
      match SkipString(b, i + 1)
      case None => None
      case Some(j) => SkipContainer(b, j, depth)
    else if b[i] == OPEN_BRACE || b[i] == OPEN_BRACKET then SkipContainer(b, i + 1, depth + 1)
    else if b[i] == CLOSE_BRACE || b[i] == CLOSE_BRACKET then
      if depth - 1 == 0 then Some(i + 1) else SkipContainer(b, i + 1, depth - 1)
    else SkipContainer(b, i + 1, depth)
  }

  const TRUE: bytes := [0x74, 0x72, 0x75, 0x65]
  const FALSE: bytes := [0x66, 0x61, 0x6C, 0x73, 0x65]
  const NULL: bytes := [0x6E, 0x75, 0x6C, 0x6C]

  /** s stands at position i of b. */
  predicate StandsAt(b: bytes, i: nat, s: bytes) { i + |s| <= |b| && forall k | 0 <= k < |s| :: b[i + k] == s[k] }

  function SkipLiteral(b: bytes, i: nat): (r: Option<nat>)
    ensures r.Some? ==> i < r.value <= |b|
  {
    if StandsAt(b, i, TRUE) then Some(i + 4)
    else if StandsAt(b, i, FALSE) then Some(i + 5)
    else if StandsAt(b, i, NULL) then Some(i + 4)
    else None
  }

  predicate NumByte(c: byte) {
    0x30 <= c <= 0x39 || c == 0x2E || c == 0x65 || c == 0x45 || c == 0x2B || c == 0x2D
  }

  function NumEnd(b: bytes, i: nat): (j: nat)
    requires i <= |b|
    ensures i <= j <= |b| && (j < |b| ==> !NumByte(b[j]))
    decreases |b| - i
  {
    if i < |b| && NumByte(b[i]) then NumEnd(b, i + 1) else i
  }

  /** A number must be followed by something that ends it. */
  function SkipNumber(b: bytes, i: nat): (r: Option<nat>)
    requires i <= |b|
    ensures r.Some? ==> i < r.value < |b|
  {
    var j := NumEnd(b, i);
    if j == |b| || j == i then None else Some(j)
  }

  function SkipValue(b: bytes, i: nat): (r: Option<nat>)
    requires i <= |b|
    ensures r.Some? ==> i < r.value <= |b|
  {
    var j := SkipWS(b, i);
    if j == |b| then None
    else if b[j] == QUOTE then SkipString(b, j + 1)
    else if b[j] == OPEN_BRACE || b[j] == OPEN_BRACKET then SkipContainer(b, j, 0)
    else if b[j] == 0x74 || b[j] == 0x66 || b[j] == 0x6E then SkipLiteral(b, j)
    else SkipNumber(b, j)
  }

  // ----- The field

  datatype Member = NoMember | Member(key: bytes, at: nat)

  /** The key that starts at or after i, and the position of its value. */
  function MemberAt(b: bytes, i: nat): (m: Member)
    requires i <= |b|
    ensures m.Member? ==> i < m.at < |b| && !IsWS(b[m.at])
  {
    var j := SkipWS(b, i);
    if j == |b| || b[j] != QUOTE then NoMember
    else
      match CompleteString(b, j + 1, [])
      case None => NoMember
      case Some((key, k)) =>
        var c := SkipWS(b, k);
        if c == |b| || b[c] != COLON then NoMember
        else
          var v := SkipWS(b, c + 1);
          if v == |b| then NoMember else Member(key, v)
  }

  /** Past the value at i and the comma after it. */
  function NextMember(b: bytes, i: nat): (r: Option<nat>)
    requires i <= |b|
    ensures r.Some? ==> i < r.value <= |b|
  {
    match SkipValue(b, i)
    case None => None
    case Some(v) =>
      var c := SkipWS(b, v);
      if c == |b| || b[c] != COMMA then None else Some(c + 1)
  }

  function FieldFrom(b: bytes, i: nat, name: bytes): Option<bytes>
    requires i <= |b|
    decreases |b| - i
  {
    match MemberAt(b, i)
    case NoMember => None
    case Member(key, at) =>
      if key == name then
        if b[at] == QUOTE then Some(Tolerant(b, at + 1, [])) else None
      else
        match NextMember(b, at)
        case None => None
        case Some(j) => FieldFrom(b, j, name)
  }

  /** StringField: the value as far as it is known, None while the field is not present. */
  function Field(b: bytes, name: bytes): Option<bytes> {
    var i := SkipWS(b, 0);
    if i == |b| || b[i] != OPEN_BRACE then None else FieldFrom(b, i + 1, name)
  }

  // ----- The parser object

  class Parser {
    const b: bytes
    var i: nat

    predicate Valid() reads this { i <= |b| }

    constructor (b: bytes)
      ensures Valid() && this.b == b && i == 0
    {
      this.b, i := b, 0;
    }

    method SkipSpace() returns (ok: bool)
      requires Valid()
      modifies this
      ensures Valid() && i == SkipWS(b, old(i)) && ok == (i < |b|)
    {
      while i < |b|
        invariant Valid() && SkipWS(b, i) == SkipWS(b, old(i))
      {
        if IsWS(b[i]) {
          i := i + 1;
        } else {
          return true;
        }
      }
      return false;
    }

    method ParseCompleteString() returns (text: bytes, ok: bool)
      requires Valid() && i < |b|
      modifies this
      ensures Valid()
      ensures (if ok then Some((text, i)) else None)
              == (if b[old(i)] == QUOTE then CompleteString(b, old(i) + 1, []) else None)
    {
      text, ok := [], false;
      if b[i] != QUOTE {
        return;
      }
      i := i + 1;
      while i < |b|
        invariant Valid() && old(i) < i && b[old(i)] == QUOTE
        invariant CompleteString(b, i, text) == CompleteString(b, old(i) + 1, [])
      {
        if b[i] == QUOTE {
          i := i + 1;
          ok := true;
          return;
        }
        match StrictPiece(b, i) {
          case Stop => return;
          case Bytes(more, next) => text, i := text + more, next;
        }
      }
    }

    method DecodeTolerant() returns (text: bytes)
      requires Valid()
      modifies this
      ensures text == Tolerant(b, old(i), [])
    {
      text := [];
      while i < |b|
        invariant Valid() && Tolerant(b, i, text) == Tolerant(b, old(i), [])
      {
        if b[i] == QUOTE {
          return;
        }
        match TolerantPiece(b, i) {
          case Stop => return;
          case Bytes(more, next) => text, i := text + more, next;
        }
      }
    }

    method SkipQuoted() returns (ok: bool)
      requires Valid() && i < |b| && b[i] == QUOTE
      modifies this
      ensures Valid() && (if ok then Some(i) else None) == SkipString(b, old(i) + 1)
    {
      i := i + 1;
      while i < |b|
        invariant Valid() && SkipString(b, i) == SkipString(b, old(i) + 1)
      {
        if b[i] == BACKSLASH {
          if i + 1 >= |b| {
            return false;
          }
          if b[i + 1] == LOWER_U {
            if i + 6 > |b| {
              return false;
            }
            i := i + 6;
          } else {
            i := i + 2;
          }
        } else if b[i] == QUOTE {
          i := i + 1;
          return true;
        } else {
          i := i + 1;
        }
      }
      return false;
    }

    method SkipNested() returns (ok: bool)
      requires Valid()
      modifies this
      ensures Valid() && (if ok then Some(i) else None) == SkipContainer(b, old(i), 0)
    {
      var depth := 0;
      while i < |b|
        invariant Valid() && SkipContainer(b, i, depth) == SkipContainer(b, old(i), 0)
        decreases |b| - i
      {
        if b[i] == QUOTE {
          ok := SkipQuoted();
          if !ok {
            return;
          }
        } else if b[i] == OPEN_BRACE || b[i] == OPEN_BRACKET {
          depth := depth + 1;
          i := i + 1;
        } else if b[i] == CLOSE_BRACE || b[i] == CLOSE_BRACKET {
          depth := depth - 1;
          i := i + 1;
          if depth == 0 {
            return true;
          }
        } else {
          i := i + 1;
        }
      }
      return false;
    }

    method SkipDigits() returns (ok: bool)
      requires Valid()
      modifies this
      ensures Valid() && (if ok then Some(i) else None) == SkipNumber(b, old(i))
    {
      var start := i;
      if i < |b| && b[i] == 0x2D {
        i := i + 1;
      }
      while i < |b|
        invariant Valid() && start <= i && NumEnd(b, i) == NumEnd(b, start)
      {
        if NumByte(b[i]) {
          i := i + 1;
        } else {
          break;
        }
      }
      return i < |b| && i > start;
    }

    method SkipAny() returns (ok: bool)
      requires Valid()
      modifies this
      ensures Valid() && (if ok then Some(i) else None) == SkipValue(b, old(i))
    {
      ok := SkipSpace();
      if !ok {
        return;
      }
      if b[i] == QUOTE {
        ok := SkipQuoted();
      } else if b[i] == OPEN_BRACE || b[i] == OPEN_BRACKET {
        ok := SkipNested();
      } else if b[i] == 0x74 || b[i] == 0x66 || b[i] == 0x6E {
        var r := SkipLiteral(b, i);
        ok := r.Some?;
        if ok {
          i := r.value;
        }
      } else {
        ok := SkipDigits();
      }
    }

    /** A key, its colon, and up to its value. */
    method ReadMember() returns (key: bytes, ok: bool)
      requires Valid()
      modifies this
      ensures Valid() && (if ok then Member(key, i) else NoMember) == MemberAt(b, old(i))
    {
      key := [];
      ok := SkipSpace();
      if !ok || b[i] == CLOSE_BRACE {
        return [], false;
      }
      key, ok := ParseCompleteString();
      if !ok {
        return;
      }
      ok := SkipSpace();
      if !ok || b[i] != COLON {
        return [], false;
      }
      i := i + 1;
      ok := SkipSpace();
    }

    /** Past a value and the comma after it. */
    method SkipMember() returns (ok: bool)
      requires Valid()
      modifies this
      ensures Valid() && (if ok then Some(i) else None) == NextMember(b, old(i))
    {
      ok := SkipAny();
      if !ok {
        return;
      }
      ok := SkipSpace();
      if !ok || b[i] != COMMA {
        return false;
      }
      i := i + 1;
    }
  }

  method StringField(data: bytes, name: bytes) returns (value: bytes, present: bool)
    ensures (if present then Some(value) else None) == Field(data, name)
  {
    hide MemberAt, NextMember, Tolerant, SkipWS;
    value, present := [], false;
    var p := new Parser(data);
    var ok := p.SkipSpace();
    if !ok || data[p.i] != OPEN_BRACE {
      return;
    }
    p.i := p.i + 1;
    while true
      invariant p.b == data && p.Valid() && Field(data, name) == FieldFrom(data, p.i, name) && !present
      decreases |data| - p.i
    {
      var key;
      key, ok := p.ReadMember();
      if !ok {
        return;
      }
      if key == name {
        if data[p.i] != QUOTE {
          return;
        }
        p.i := p.i + 1;
        value := p.DecodeTolerant();
        present := true;
        return;
      }
      ok := p.SkipMember();
      if !ok {
        return;
      }
    }
  }

  // ----- More input only adds to the value

  lemma {:induction false} SkipWSStable(b: bytes, e: bytes, i: nat)
    requires i <= |b| && SkipWS(b, i) < |b|
    ensures SkipWS(b + e, i) == SkipWS(b, i)
    decreases |b| - i
  {
    assert (b + e)[i] == b[i];
    if IsWS(b[i]) {
      SkipWSStable(b, e, i + 1);
    }
  }

  lemma EscapeStable(b: bytes, e: bytes, i: nat)
    requires EscapeAt(b, i).Escape?
    ensures EscapeAt(b + e, i) == EscapeAt(b, i)
  {
    var n := EscapeAt(b, i).n;
    assert forall k :: i <= k < i + n ==> (b + e)[k] == b[k];
  }

  lemma StrictStable(b: bytes, e: bytes, i: nat)
    requires i < |b| && StrictPiece(b, i).Bytes?
    ensures StrictPiece(b + e, i) == StrictPiece(b, i)
  {
    assert (b + e)[i] == b[i];
    if b[i] == BACKSLASH {
      EscapeStable(b, e, i);
      var esc := EscapeAt(b, i);
      if IsSurrogate(esc.r) {
        assert (b + e)[i + esc.n] == b[i + esc.n] && (b + e)[i + esc.n + 1] == b[i + esc.n + 1];
        EscapeStable(b, e, i + esc.n);
      }
    }
  }

  lemma {:induction false} CompleteStable(b: bytes, e: bytes, i: nat, buf: bytes)
    requires i <= |b| && CompleteString(b, i, buf).Some?
    ensures CompleteString(b + e, i, buf) == CompleteString(b, i, buf)
    decreases |b| - i
  {
    hide StrictPiece;
    assert (b + e)[i] == b[i];
    if b[i] != QUOTE {
      StrictStable(b, e, i);
      var p := StrictPiece(b, i);
      CompleteStable(b, e, p.next, buf + p.text);
    }
  }

  lemma TolerantStable(b: bytes, e: bytes, i: nat)
    requires i < |b| && TolerantPiece(b, i).Bytes?
    ensures TolerantPiece(b + e, i) == TolerantPiece(b, i)
  {
    assert (b + e)[i] == b[i];
    if b[i] == BACKSLASH {
      EscapeStable(b, e, i);
      var esc := EscapeAt(b, i);
      if IsSurrogate(esc.r) {
        assert (b + e)[i + esc.n] == b[i + esc.n] && (b + e)[i + esc.n + 1] == b[i + esc.n + 1];
        if b[i + esc.n] == BACKSLASH && b[i + esc.n + 1] == LOWER_U {
          EscapeStable(b, e, i + esc.n);
        }
      }
    } else if b[i] >= 0x80 {
      assert (b + e)[i..i + Want(b[i])] == b[i..i + Want(b[i])];
    }
  }

  lemma {:induction false} TolerantGrows(b: bytes, e: bytes, i: nat, buf: bytes)
    requires i <= |b|
    ensures Tolerant(b, i, buf) <= Tolerant(b + e, i, buf)
    decreases |b| - i
  {
    hide TolerantPiece;
    if i < |b| {
      assert (b + e)[i] == b[i];
      if b[i] != QUOTE && TolerantPiece(b, i).Bytes? {
        TolerantStable(b, e, i);
        var p := TolerantPiece(b, i);
        TolerantGrows(b, e, p.next, buf + p.text);
      }
    }
  }

  lemma {:induction false} SkipStringStable(b: bytes, e: bytes, i: nat)
    requires i <= |b| && SkipString(b, i).Some?
    ensures SkipString(b + e, i) == SkipString(b, i)
    decreases |b| - i
  {
    assert (b + e)[i] == b[i];
    if b[i] == BACKSLASH {
      assert (b + e)[i + 1] == b[i + 1];
      SkipStringStable(b, e, if b[i + 1] == LOWER_U then i + 6 else i + 2);
    } else if b[i] != QUOTE {
      SkipStringStable(b, e, i + 1);
    }
  }

  lemma {:induction false} SkipContainerStable(b: bytes, e: bytes, i: nat, depth: int)
    requires i <= |b| && SkipContainer(b, i, depth).Some?
    ensures SkipContainer(b + e, i, depth) == SkipContainer(b, i, depth)
    decreases |b| - i
  {
    assert (b + e)[i] == b[i];
    if b[i] == QUOTE {
      SkipStringStable(b, e, i + 1);
      SkipContainerStable(b, e, SkipString(b, i + 1).value, depth);
    } else if b[i] == OPEN_BRACE || b[i] == OPEN_BRACKET {
      SkipContainerStable(b, e, i + 1, depth + 1);
    } else if b[i] == CLOSE_BRACE || b[i] == CLOSE_BRACKET {
      if depth - 1 != 0 {
        SkipContainerStable(b, e, i + 1, depth - 1);
      }
    } else {
      SkipContainerStable(b, e, i + 1, depth);
    }
  }

  lemma {:induction false} NumEndStable(b: bytes, e: bytes, i: nat)
    requires i <= |b| && NumEnd(b, i) < |b|
    ensures NumEnd(b + e, i) == NumEnd(b, i)
    decreases |b| - i
  {
    assert (b + e)[i] == b[i];
    if NumByte(b[i]) {
      NumEndStable(b, e, i + 1);
    }
  }

  lemma LiteralStable(b: bytes, e: bytes, i: nat)
    requires SkipLiteral(b, i).Some?
    ensures SkipLiteral(b + e, i) == SkipLiteral(b, i)
  {
    assert (b + e)[i] == b[i];
    assert StandsAt(b, i, TRUE) ==> StandsAt(b + e, i, TRUE);
    assert StandsAt(b, i, FALSE) ==> StandsAt(b + e, i, FALSE);
    assert StandsAt(b, i, NULL) ==> StandsAt(b + e, i, NULL);
    assert StandsAt(b + e, i, TRUE) ==> TRUE[0] == b[i];
    assert StandsAt(b + e, i, FALSE) ==> FALSE[0] == b[i];
    assert StandsAt(b + e, i, NULL) ==> NULL[0] == b[i];
    assert StandsAt(b, i, TRUE) ==> b[i] == TRUE[0];
    assert StandsAt(b, i, FALSE) ==> b[i] == FALSE[0];
    assert StandsAt(b, i, NULL) ==> b[i] == NULL[0];
  }

  lemma SkipValueStable(b: bytes, e: bytes, i: nat)
    requires i <= |b| && SkipValue(b, i).Some?
    ensures SkipValue(b + e, i) == SkipValue(b, i)
  {
    hide SkipLiteral;
    SkipWSStable(b, e, i);
    var j := SkipWS(b, i);
    assert (b + e)[j] == b[j];
    if b[j] == QUOTE {
      SkipStringStable(b, e, j + 1);
    } else if b[j] == OPEN_BRACE || b[j] == OPEN_BRACKET {
      SkipContainerStable(b, e, j, 0);
    } else if b[j] == 0x74 || b[j] == 0x66 || b[j] == 0x6E {
      LiteralStable(b, e, j);
    } else {
      NumEndStable(b, e, j);
    }
  }

  lemma MemberStable(b: bytes, e: bytes, i: nat)
    requires i <= |b| && MemberAt(b, i).Member?
    ensures MemberAt(b + e, i) == MemberAt(b, i)
  {
    hide CompleteString;
    SkipWSStable(b, e, i);
    var j := SkipWS(b, i);
    assert (b + e)[j] == b[j];
    CompleteStable(b, e, j + 1, []);
    var k := CompleteString(b, j + 1, []).value.1;
    SkipWSStable(b, e, k);
    var c := SkipWS(b, k);
    assert (b + e)[c] == b[c];
    SkipWSStable(b, e, c + 1);
  }

  lemma NextStable(b: bytes, e: bytes, i: nat)
    requires i <= |b| && NextMember(b, i).Some?
    ensures NextMember(b + e, i) == NextMember(b, i)
  {
    hide SkipValue;
    SkipValueStable(b, e, i);
    var v := SkipValue(b, i).value;
    SkipWSStable(b, e, v);
    assert (b + e)[SkipWS(b, v)] == b[SkipWS(b, v)];
  }

  ghost predicate Extends(v: Option<bytes>, w: Option<bytes>) { v.Some? ==> w.Some? && v.value <= w.value }

  lemma {:induction false} FieldFromStep(b: bytes, i: nat, name: bytes)
    requires i <= |b|
    ensures MemberAt(b, i).NoMember? ==> FieldFrom(b, i, name) == None
    ensures (MemberAt(b, i).Member? ==>
             var m := MemberAt(b, i);
             FieldFrom(b, i, name) ==
             if m.key == name then (if b[m.at] == QUOTE then Some(Tolerant(b, m.at + 1, [])) else None)
             else if NextMember(b, m.at).None? then None
             else FieldFrom(b, NextMember(b, m.at).value, name))
  {
  }

  lemma {:induction false} FieldFromGrows(b: bytes, e: bytes, i: nat, name: bytes)
    requires i <= |b|
    ensures Extends(FieldFrom(b, i, name), FieldFrom(b + e, i, name))
    decreases |b| - i
  {
    hide MemberAt, NextMember, FieldFrom, Tolerant;
    FieldFromStep(b, i, name);
    if MemberAt(b, i).Member? {
      MemberStable(b, e, i);
      FieldFromStep(b + e, i, name);
      var m := MemberAt(b, i);
      assert (b + e)[m.at] == b[m.at];
      if m.key == name {
        TolerantGrows(b, e, m.at + 1, []);
      } else if NextMember(b, m.at).Some? {
        NextStable(b, e, m.at);
        FieldFromGrows(b, e, NextMember(b, m.at).value, name);
      }
    }
  }

  /** The live preview never rewrites itself: whatever bytes arrive next, a value that was
      shown is a prefix of the value shown then. */
  lemma {:induction false} PreviewOnlyGrows(b: bytes, e: bytes, name: bytes)
    ensures Extends(Field(b, name), Field(b + e, name))
  {
    hide FieldFrom;
    if SkipWS(b, 0) < |b| {
      SkipWSStable(b, e, 0);
      assert (b + e)[SkipWS(b, 0)] == b[SkipWS(b, 0)];
      FieldFromGrows(b, e, SkipWS(b, 0) + 1, name);
    }
  }
}
