/** JSON texts by the grammar of RFC 8259 (values: section 3, objects: 4, arrays: 5,
    numbers: 6, strings: 7), and what internal/partialjson makes of them. */
module JsonGrammar {
  import opened Utf8
  import opened PartialJson

  /** One character of a string as it is written. */
  datatype Item =
    | Raw(rune: bytes)
    | Short(c: byte)
    | Unit(h: bytes)
    | Pair(h: bytes, l: bytes)

  predicate HexUnit(h: bytes) { |h| == 4 && Hex4At(h, 0) }

  predicate ItemOk(it: Item) {
    match it
    case Raw(rune) =>
      rune != [] && RuneLen(rune) == |rune| && rune[0] >= 0x20 && rune[0] != QUOTE && rune[0] != BACKSLASH
    case Short(c) => SimpleEscape(c) >= 0
    case Unit(h) => HexUnit(h) && !IsSurrogate(Hex4(h, 0))
    case Pair(h, l) => HexUnit(h) && HexUnit(l) && 0xD800 <= Hex4(h, 0) < 0xDC00 <= Hex4(l, 0) < 0xE000
  }

  function Written(it: Item): bytes {
    match it
    case Raw(rune) => rune
    case Short(c) => [BACKSLASH, c]
    case Unit(h) => [BACKSLASH, LOWER_U] + h
    case Pair(h, l) => [BACKSLASH, LOWER_U] + h + [BACKSLASH, LOWER_U] + l
  }

  /** What the character means. */
  function Meaning(it: Item): bytes
    requires ItemOk(it)
  {
    match it
    case Raw(rune) => rune
    case Short(c) => Encode(SimpleEscape(c))
    case Unit(h) => Encode(Hex4(h, 0))
    case Pair(h, l) => Encode(DecodePair(Hex4(h, 0), Hex4(l, 0)))
  }

  predicate ItemsOk(items: seq<Item>) { forall it | it in items :: ItemOk(it) }

  function WrittenAll(items: seq<Item>): bytes {
    if items == [] then [] else Written(items[0]) + WrittenAll(items[1..])
  }

  /** The text a string stands for. */
  function TextOf(items: seq<Item>): bytes
    requires ItemsOk(items)
  {
    if items == [] then [] else Meaning(items[0]) + TextOf(items[1..])
  }

  datatype Literal = LTrue | LFalse | LNull

  datatype Json =
    | Str(items: seq<Item>)
    | Num(neg: bool, whole: bytes, frac: bytes, exp: bytes)
    | Lit(lit: Literal)
    | Arr(gap: bytes, elems: seq<Elem>)
    | Obj(gap: bytes, members: seq<Pairing>)

  datatype Elem = Elem(before: bytes, v: Json, after: bytes)

  datatype Pairing = Pairing(before: bytes, key: seq<Item>, mid: bytes, gap: bytes, v: Json, after: bytes)

  predicate Space(s: bytes) { forall c | c in s :: IsWS(c) }

  predicate Digits(s: bytes) { forall c | c in s :: 0x30 <= c <= 0x39 }

  predicate ExpOk(s: bytes) {
    s == [] || ((s[0] == 0x65 || s[0] == 0x45) && |s| > 1 && (
      (Digits(s[1..])) || ((s[1] == 0x2B || s[1] == 0x2D) && |s| > 2 && Digits(s[2..]))))
  }

  predicate Ok(v: Json) {
    match v
    case Str(items) => ItemsOk(items)
    case Num(_, whole, frac, exp) =>
      whole != [] && Digits(whole) && (|whole| > 1 ==> whole[0] != 0x30) && Digits(frac) && ExpOk(exp)
    case Lit(_) => true
    case Arr(gap, elems) => Space(gap) && ElemsOk(elems)
    case Obj(gap, members) => Space(gap) && MembersOk(members)
  }

  predicate ElemsOk(es: seq<Elem>) {
    es == [] || (Space(es[0].before) && Ok(es[0].v) && Space(es[0].after) && ElemsOk(es[1..]))
  }

  predicate MembersOk(ms: seq<Pairing>) {
    ms == [] || (Space(ms[0].before) && ItemsOk(ms[0].key) && Space(ms[0].mid) && Space(ms[0].gap)
                 && Ok(ms[0].v) && Space(ms[0].after) && MembersOk(ms[1..]))
  }

  function NumText(neg: bool, whole: bytes, frac: bytes, exp: bytes): bytes {
    (if neg then [0x2D] else []) + whole + (if frac == [] then [] else [0x2E] + frac) + exp
  }

  function Quoted(items: seq<Item>): bytes { [QUOTE] + WrittenAll(items) + [QUOTE] }

  /** The text of a value. */
  function Text(v: Json): bytes {
    match v
    case Str(items) => Quoted(items)
    case Num(neg, whole, frac, exp) => NumText(neg, whole, frac, exp)
    case Lit(lit) => if lit.LTrue? then TRUE else if lit.LFalse? then FALSE else NULL
    case Arr(gap, elems) => [OPEN_BRACKET] + (if elems == [] then gap else ElemsText(elems)) + [CLOSE_BRACKET]
    case Obj(gap, members) => [OPEN_BRACE] + (if members == [] then gap else MembersText(members)) + [CLOSE_BRACE]
  }

  function ElemsText(es: seq<Elem>): bytes {
    if es == [] then []
    else es[0].before + Text(es[0].v) + es[0].after + (if |es| == 1 then [] else [COMMA] + ElemsText(es[1..]))
  }

  function MembersText(ms: seq<Pairing>): bytes {
    if ms == [] then []
    else
      var m := ms[0];
      m.before + Quoted(m.key) + m.mid + [COLON] + m.gap + Text(m.v) + m.after
      + (if |ms| == 1 then [] else [COMMA] + MembersText(ms[1..]))
  }

  // ----- Text at a position

  lemma StandsSplit(b: bytes, i: nat, s: bytes, t: bytes)
    requires StandsAt(b, i, s + t)
    ensures StandsAt(b, i, s) && StandsAt(b, i + |s|, t)
  {
    assert forall k :: 0 <= k < |s| ==> (s + t)[k] == s[k];
    forall k | 0 <= k < |t| ensures b[i + |s| + k] == t[k] {
      assert b[i + (|s| + k)] == (s + t)[|s| + k];
    }
  }

  lemma StandsHead(b: bytes, i: nat, s: bytes)
    requires StandsAt(b, i, s) && s != []
    ensures i < |b| && b[i] == s[0]
  {
    assert b[i + 0] == s[0];
  }

  lemma {:induction false} SpaceSkipped(b: bytes, i: nat, s: bytes)
    requires StandsAt(b, i, s) && Space(s) && (i + |s| < |b| ==> !IsWS(b[i + |s|]))
    ensures SkipWS(b, i) == i + |s|
    decreases |s|
  {
    if s != [] {
      StandsHead(b, i, s);
      assert s[0] in s && s == [s[0]] + s[1..];
      StandsSplit(b, i, [s[0]], s[1..]);
      assert Space(s[1..]);
      SpaceSkipped(b, i + 1, s[1..]);
    }
  }

  // ----- Strings, three ways

  lemma {:induction false} PlainSkipped(b: bytes, i: nat, n: nat)
    requires i + n <= |b| && forall k :: i <= k < i + n ==> b[k] != QUOTE && b[k] != BACKSLASH
    ensures SkipString(b, i) == SkipString(b, i + n)
    decreases n
  {
    if n > 0 {
      PlainSkipped(b, i + 1, n - 1);
    }
  }

  lemma {:induction false} PlainKept(b: bytes, i: nat, n: nat, buf: bytes)
    requires i + n <= |b| && forall k :: i <= k < i + n ==> b[k] != QUOTE && b[k] != BACKSLASH
    ensures CompleteString(b, i, buf) == CompleteString(b, i + n, buf + b[i..i + n])
    decreases n
  {
    if n > 0 {
      PlainKept(b, i + 1, n - 1, buf + [b[i]]);
      assert buf + [b[i]] + b[i + 1..i + n] == buf + b[i..i + n];
    } else {
      assert buf + b[i..i] == buf;
    }
  }

  lemma RawBytes(it: Item, k: nat)
    requires it.Raw? && ItemOk(it) && k < |it.rune|
    ensures it.rune[k] != QUOTE && it.rune[k] != BACKSLASH
    ensures k == 0 && |it.rune| > 1 ==> it.rune[0] >= 0x80 && Want(it.rune[0]) == |it.rune|
    ensures |it.rune| == 1 ==> it.rune[0] < 0x80
  {
    RuneShape(it.rune, k);
  }

  /** A written \\uXXXX is read back as its code unit. */
  lemma UnitRead(b: bytes, i: nat, h: bytes)
    requires HexUnit(h) && StandsAt(b, i, [BACKSLASH, LOWER_U] + h)
    ensures EscapeAt(b, i) == Escape(6, Hex4(h, 0))
    ensures i + 6 <= |b| && b[i] == BACKSLASH && b[i + 1] == LOWER_U
  {
    var s := [BACKSLASH, LOWER_U] + h;
    assert b[i + 0] == s[0] && b[i + 1] == s[1] && b[i + 2] == s[2] && b[i + 3] == s[3] && b[i + 4] == s[4] &&
        b[i + 5] == s[5];
  }

  lemma ShortRead(b: bytes, i: nat, c: byte)
    requires SimpleEscape(c) >= 0 && StandsAt(b, i, [BACKSLASH, c])
    ensures EscapeAt(b, i) == Escape(2, SimpleEscape(c))
    ensures i + 2 <= |b| && b[i] == BACKSLASH && b[i + 1] == c
  {
    var s := [BACKSLASH, c];
    assert b[i + 0] == s[0] && b[i + 1] == s[1];
  }

  lemma RawHere(b: bytes, i: nat, it: Item)
    requires it.Raw? && ItemOk(it) && StandsAt(b, i, it.rune)
    ensures forall k :: i <= k < i + |it.rune| ==> b[k] != QUOTE && b[k] != BACKSLASH
    ensures b[i..i + |it.rune|] == it.rune
  {
    forall k | i <= k < i + |it.rune| ensures b[k] != QUOTE && b[k] != BACKSLASH {
      assert b[i + (k - i)] == it.rune[k - i];
      RawBytes(it, k - i);
    }
  }

  lemma ItemSkipped(b: bytes, i: nat, it: Item)
    requires ItemOk(it) && StandsAt(b, i, Written(it))
    ensures SkipString(b, i) == SkipString(b, i + |Written(it)|)
  {
    hide Hex4, Encode;
    match it {
      case Raw(rune) =>
        RawHere(b, i, it);
        PlainSkipped(b, i, |rune|);
      case Short(c) => ShortRead(b, i, c);
      case Unit(h) => UnitRead(b, i, h);
      case Pair(h, l) =>
        assert Written(it) == ([BACKSLASH, LOWER_U] + h) + ([BACKSLASH, LOWER_U] + l);
        StandsSplit(b, i, [BACKSLASH, LOWER_U] + h, [BACKSLASH, LOWER_U] + l);
        UnitRead(b, i, h);
        UnitRead(b, i + 6, l);
    }
  }

  lemma ItemKept(b: bytes, i: nat, it: Item, buf: bytes)
    requires ItemOk(it) && StandsAt(b, i, Written(it))
    ensures CompleteString(b, i, buf) == CompleteString(b, i + |Written(it)|, buf + Meaning(it))
  {
    hide Hex4, Encode;
    match it {
      case Raw(rune) =>
        RawHere(b, i, it);
        PlainKept(b, i, |rune|, buf);
      case Short(c) => ShortRead(b, i, c);
      case Unit(h) => UnitRead(b, i, h);
      case Pair(h, l) =>
        assert Written(it) == ([BACKSLASH, LOWER_U] + h) + ([BACKSLASH, LOWER_U] + l);
        StandsSplit(b, i, [BACKSLASH, LOWER_U] + h, [BACKSLASH, LOWER_U] + l);
        UnitRead(b, i, h);
        UnitRead(b, i + 6, l);
    }
  }

  lemma RawShown(b: bytes, i: nat, it: Item)
    requires it.Raw? && ItemOk(it) && StandsAt(b, i, it.rune)
    ensures i < |b| && b[i] != QUOTE && TolerantPiece(b, i) == Bytes(it.rune, i + |it.rune|)
  {
    hide RuneLen, EscapeAt, Encode;
    RawHere(b, i, it);
    RawBytes(it, 0);
    StandsHead(b, i, it.rune);
    assert |it.rune| == 1 ==> [b[i]] == it.rune;
  }

  lemma ItemShown(b: bytes, i: nat, it: Item, buf: bytes)
    requires ItemOk(it) && StandsAt(b, i, Written(it))
    ensures Tolerant(b, i, buf) == Tolerant(b, i + |Written(it)|, buf + Meaning(it))
  {
    hide Hex4, Encode;
    match it {
      case Raw(rune) =>
        RawShown(b, i, it);
      case Short(c) => ShortRead(b, i, c);
      case Unit(h) => UnitRead(b, i, h);
      case Pair(h, l) =>
        assert Written(it) == ([BACKSLASH, LOWER_U] + h) + ([BACKSLASH, LOWER_U] + l);
        StandsSplit(b, i, [BACKSLASH, LOWER_U] + h, [BACKSLASH, LOWER_U] + l);
        UnitRead(b, i, h);
        UnitRead(b, i + 6, l);
    }
  }

  lemma StringEnds(b: bytes, i: nat, buf: bytes)
    requires StandsAt(b, i, WrittenAll([]) + [QUOTE])
    ensures SkipString(b, i) == Some(i + 1) && CompleteString(b, i, buf) == Some((buf, i + 1))
    ensures Tolerant(b, i, buf) == buf
  {
    StandsHead(b, i, WrittenAll([]) + [QUOTE]);
  }

  /** All three readers of strings stop at the closing quote of a well-formed string, and
      the two that decode it give its text. */
  lemma {:induction false} StringRead(b: bytes, i: nat, items: seq<Item>, buf: bytes)
    requires ItemsOk(items) && StandsAt(b, i, WrittenAll(items) + [QUOTE])
    ensures SkipString(b, i) == Some(i + |WrittenAll(items)| + 1)
    ensures CompleteString(b, i, buf) == Some((buf + TextOf(items), i + |WrittenAll(items)| + 1))
    ensures Tolerant(b, i, buf) == buf + TextOf(items)
    decreases |items|
  {
    hide Written, Meaning, SkipString, CompleteString, Tolerant, ItemOk, StandsAt;
    if items == [] {
      StringEnds(b, i, buf);
      assert buf + TextOf(items) == buf;
    } else {
      var it, rest := items[0], items[1..];
      assert it in items && forall x :: x in rest ==> x in items;
      assert WrittenAll(items) + [QUOTE] == Written(it) + (WrittenAll(rest) + [QUOTE]);
      StandsSplit(b, i, Written(it), WrittenAll(rest) + [QUOTE]);
      ItemSkipped(b, i, it);
      ItemKept(b, i, it, buf);
      ItemShown(b, i, it, buf);
      StringRead(b, i + |Written(it)|, rest, buf + Meaning(it));
      assert buf + TextOf(items) == buf + Meaning(it) + TextOf(rest);
    }
  }

  // ----- Nested values

  /** Text that opens and closes nothing is passed over. */
  lemma {:induction false} FlatScanned(b: bytes, i: nat, s: bytes, depth: int)
    requires StandsAt(b, i, s) && forall c :: c in s ==> c != QUOTE && !Bracket(c)
    ensures SkipContainer(b, i, depth) == SkipContainer(b, i + |s|, depth)
    decreases |s|
  {
    if s != [] {
      StandsHead(b, i, s);
      assert s[0] in s && s == [s[0]] + s[1..];
      StandsSplit(b, i, [s[0]], s[1..]);
      assert forall c :: c in s[1..] ==> c in s;
      FlatScanned(b, i + 1, s[1..], depth);
    }
  }

  predicate Bracket(c: byte) { c == OPEN_BRACE || c == OPEN_BRACKET || c == CLOSE_BRACE || c == CLOSE_BRACKET }

  lemma SpaceIsFlat(s: bytes)
    requires Space(s)
    ensures forall c :: c in s ==> c != QUOTE && !Bracket(c)
  {
  }

  lemma NumIsFlat(neg: bool, whole: bytes, frac: bytes, exp: bytes)
    requires Ok(Num(neg, whole, frac, exp))
    ensures var s := NumText(neg, whole, frac, exp);
            s != [] && (s[0] == 0x2D || 0x30 <= s[0] <= 0x39) && forall c :: c in s ==> NumByte(c)
  {
    assert whole[0] in whole;
    if exp != [] {
      var rest := if Digits(exp[1..]) then exp[1..] else exp[2..];
      assert exp == [exp[0]] + exp[1..];
      assert !Digits(exp[1..]) ==> exp == [exp[0], exp[1]] + exp[2..];
      assert forall c :: c in exp ==> c == exp[0] || c == exp[1] || c in rest;
    }
  }

  lemma {:induction false} StringScanned(b: bytes, i: nat, items: seq<Item>, depth: int)
    requires ItemsOk(items) && StandsAt(b, i, Quoted(items))
    ensures SkipContainer(b, i, depth) == SkipContainer(b, i + |Quoted(items)|, depth)
  {
    hide TextOf, ItemsOk, WrittenAll;
    assert Quoted(items) == [QUOTE] + (WrittenAll(items) + [QUOTE]);
    StandsHead(b, i, Quoted(items));
    StandsSplit(b, i, [QUOTE], WrittenAll(items) + [QUOTE]);
    StringRead(b, i + 1, items, []);
  }

  /** Inside a container, a whole value is passed over at the same depth. */
  lemma {:induction false} ValueScanned(b: bytes, i: nat, v: Json, depth: int)
    requires Ok(v) && StandsAt(b, i, Text(v)) && depth > 0
    ensures SkipContainer(b, i, depth) == SkipContainer(b, i + |Text(v)|, depth)
    decreases v, 1
  {
    hide SkipContainer, NumText, Quoted, ElemsText, MembersText, StandsAt;
    match v {
      case Str(items) => StringScanned(b, i, items, depth);
      case Num(neg, whole, frac, exp) =>
        NumIsFlat(neg, whole, frac, exp);
        FlatScanned(b, i, Text(v), depth);
      case Lit(lit) => FlatScanned(b, i, Text(v), depth);
      case Arr(_, _) => NestScanned(b, i, v, depth);
      case Obj(_, _) => NestScanned(b, i, v, depth);
    }
  }

  /** The text between the brackets. */
  function Inner(v: Json): bytes
    requires v.Arr? || v.Obj?
  {
    if v.Arr? then (if v.elems == [] then v.gap else ElemsText(v.elems))
    else (if v.members == [] then v.gap else MembersText(v.members))
  }

  lemma {:induction false} InnerScanned(b: bytes, i: nat, v: Json, depth: int)
    requires (v.Arr? || v.Obj?) && Ok(v) && StandsAt(b, i, Inner(v)) && depth > 0
    ensures SkipContainer(b, i, depth) == SkipContainer(b, i + |Inner(v)|, depth)
    decreases v, 0, 0
  {
    hide SkipContainer, ElemsText, MembersText, StandsAt;
    if v.Arr? && v.elems != [] {
      ElemsScanned(b, i, v.elems, depth);
    } else if v.Obj? && v.members != [] {
      MembersScanned(b, i, v.members, depth);
    } else {
      SpaceIsFlat(v.gap);
      FlatScanned(b, i, v.gap, depth);
    }
  }

  /** A container leaves the depth as it was; at depth 0 it ends the scan. */
  lemma {:induction false} NestScanned(b: bytes, i: nat, v: Json, depth: int)
    requires (v.Arr? || v.Obj?) && Ok(v) && StandsAt(b, i, Text(v)) && depth >= 0
    ensures i < |b| && (b[i] == OPEN_BRACE || b[i] == OPEN_BRACKET) && i + |Text(v)| <= |b|
    ensures SkipContainer(b, i, depth)
            == (if depth == 0 then Some(i + |Text(v)|) else SkipContainer(b, i + |Text(v)|, depth))
    decreases v, 0, 1
  {
    hide SkipContainer, ElemsText, MembersText, StandsAt, Ok;
    if v.Arr? {
      Opened(b, i, [OPEN_BRACKET], Inner(v), [CLOSE_BRACKET], depth);
    } else {
      Opened(b, i, [OPEN_BRACE], Inner(v), [CLOSE_BRACE], depth);
    }
    InnerScanned(b, i + 1, v, depth + 1);
  }

  /** The brackets of a container: one level in, one level out. */
  lemma Opened(b: bytes, i: nat, open: bytes, inner: bytes, close: bytes, depth: int)
    requires StandsAt(b, i, open + inner + close)
    requires (open == [OPEN_BRACE] && close == [CLOSE_BRACE]) || (open == [OPEN_BRACKET] && close == [CLOSE_BRACKET])
    ensures StandsAt(b, i + 1, inner) && i + |inner| + 2 <= |b|
    ensures SkipContainer(b, i, depth) == SkipContainer(b, i + 1, depth + 1)
    ensures SkipContainer(b, i + 1 + |inner|, depth + 1)
            == (if depth == 0 then Some(i + |inner| + 2) else SkipContainer(b, i + |inner| + 2, depth))
    ensures b[i] == open[0]
  {
    assert open + inner + close == open + (inner + close);
    StandsSplit(b, i, open, inner + close);
    StandsSplit(b, i + 1, inner, close);
    StandsHead(b, i, open);
    StandsHead(b, i + 1 + |inner|, close);
  }

  lemma CommaScanned(b: bytes, i: nat, depth: int)
    requires StandsAt(b, i, [COMMA])
    ensures i < |b| && SkipContainer(b, i, depth) == SkipContainer(b, i + 1, depth)
  {
    StandsHead(b, i, [COMMA]);
  }

  lemma {:induction false} ElemsScanned(b: bytes, i: nat, es: seq<Elem>, depth: int)
    requires es != [] && ElemsOk(es) && StandsAt(b, i, ElemsText(es)) && depth > 0
    ensures SkipContainer(b, i, depth) == SkipContainer(b, i + |ElemsText(es)|, depth)
    decreases es
  {
    hide SkipContainer, Text, StandsAt;
    var e := es[0];
    var tail := if |es| == 1 then [] else [COMMA] + ElemsText(es[1..]);
    assert ElemsText(es) == e.before + (Text(e.v) + (e.after + tail));
    StandsSplit(b, i, e.before, Text(e.v) + (e.after + tail));
    SpaceIsFlat(e.before);
    FlatScanned(b, i, e.before, depth);
    var p := i + |e.before|;
    StandsSplit(b, p, Text(e.v), e.after + tail);
    ValueScanned(b, p, e.v, depth);
    var q := p + |Text(e.v)|;
    StandsSplit(b, q, e.after, tail);
    SpaceIsFlat(e.after);
    FlatScanned(b, q, e.after, depth);
    if |es| > 1 {
      var r := q + |e.after|;
      StandsSplit(b, r, [COMMA], ElemsText(es[1..]));
      CommaScanned(b, r, depth);
      ElemsScanned(b, r + 1, es[1..], depth);
    }
  }

  lemma ColonScanned(b: bytes, i: nat, depth: int)
    requires StandsAt(b, i, [COLON])
    ensures i < |b| && b[i] == COLON && SkipContainer(b, i, depth) == SkipContainer(b, i + 1, depth)
  {
    StandsHead(b, i, [COLON]);
  }

  /** Up to the value of a member. */
  lemma KeyScanned(b: bytes, i: nat, m: Pairing, rest: bytes, depth: int)
    requires Space(m.before) && ItemsOk(m.key) && Space(m.mid) && Space(m.gap)
    requires StandsAt(b, i, m.before + Quoted(m.key) + m.mid + [COLON] + m.gap + rest)
    ensures var p := i + |m.before + Quoted(m.key) + m.mid + [COLON] + m.gap|;
            StandsAt(b, p, rest) && SkipContainer(b, i, depth) == SkipContainer(b, p, depth)
  {
    hide SkipContainer, Quoted, ItemsOk;
    var k := Quoted(m.key);
    assert m.before + k + m.mid + [COLON] + m.gap + rest == m.before + (k + (m.mid + ([COLON] + (m.gap + rest))));
    StandsSplit(b, i, m.before, k + (m.mid + ([COLON] + (m.gap + rest))));
    SpaceIsFlat(m.before);
    FlatScanned(b, i, m.before, depth);
    var p := i + |m.before|;
    StandsSplit(b, p, k, m.mid + ([COLON] + (m.gap + rest)));
    StringScanned(b, p, m.key, depth);
    var q := p + |k|;
    StandsSplit(b, q, m.mid, [COLON] + (m.gap + rest));
    SpaceIsFlat(m.mid);
    FlatScanned(b, q, m.mid, depth);
    var r := q + |m.mid|;
    StandsSplit(b, r, [COLON], m.gap + rest);
    ColonScanned(b, r, depth);
    StandsSplit(b, r + 1, m.gap, rest);
    SpaceIsFlat(m.gap);
    FlatScanned(b, r + 1, m.gap, depth);
  }

  lemma {:induction false} MembersScanned(b: bytes, i: nat, ms: seq<Pairing>, depth: int)
    requires ms != [] && MembersOk(ms) && StandsAt(b, i, MembersText(ms)) && depth > 0
    ensures SkipContainer(b, i, depth) == SkipContainer(b, i + |MembersText(ms)|, depth)
    decreases ms
  {
    hide SkipContainer, Text, Quoted, ItemsOk, StandsAt;
    var m := ms[0];
    var tail := if |ms| == 1 then [] else [COMMA] + MembersText(ms[1..]);
    var head := m.before + Quoted(m.key) + m.mid + [COLON] + m.gap;
    assert MembersText(ms) == head + (Text(m.v) + (m.after + tail));
    KeyScanned(b, i, m, Text(m.v) + (m.after + tail), depth);
    var p := i + |head|;
    StandsSplit(b, p, Text(m.v), m.after + tail);
    ValueScanned(b, p, m.v, depth);
    var q := p + |Text(m.v)|;
    StandsSplit(b, q, m.after, tail);
    SpaceIsFlat(m.after);
    FlatScanned(b, q, m.after, depth);
    if |ms| > 1 {
      var r := q + |m.after|;
      StandsSplit(b, r, [COMMA], MembersText(ms[1..]));
      CommaScanned(b, r, depth);
      MembersScanned(b, r + 1, ms[1..], depth);
    }
  }

  // ----- Skipping a value

  lemma {:induction false} NumRun(b: bytes, i: nat, s: bytes)
    requires StandsAt(b, i, s) && (forall c :: c in s ==> NumByte(c)) && i + |s| < |b| && !NumByte(b[i + |s|])
    ensures NumEnd(b, i) == i + |s|
    decreases |s|
  {
    if s != [] {
      StandsHead(b, i, s);
      assert s[0] in s && s == [s[0]] + s[1..];
      StandsSplit(b, i, [s[0]], s[1..]);
      assert forall c :: c in s[1..] ==> c in s;
      NumRun(b, i + 1, s[1..]);
    }
  }

  lemma LiteralRead(b: bytes, i: nat, lit: Literal)
    requires StandsAt(b, i, Text(Lit(lit)))
    ensures SkipLiteral(b, i) == Some(i + |Text(Lit(lit))|)
    ensures i < |b| && b[i] == Text(Lit(lit))[0]
  {
    StandsHead(b, i, Text(Lit(lit)));
    assert StandsAt(b, i, TRUE) ==> b[i] == TRUE[0] by { if StandsAt(b, i, TRUE) { StandsHead(b, i, TRUE); } }
    assert StandsAt(b, i, FALSE) ==> b[i] == FALSE[0] by { if StandsAt(b, i, FALSE) { StandsHead(b, i, FALSE); } }
    assert StandsAt(b, i, NULL) ==> b[i] == NULL[0] by { if StandsAt(b, i, NULL) { StandsHead(b, i, NULL); } }
  }

  /** skipValue stops exactly after any well-formed value that has a following byte; a
      number needs that byte to end it, as white space, a comma or a bracket does. */
  lemma {:induction false} SkipValueExact(b: bytes, i: nat, v: Json)
    requires Ok(v) && StandsAt(b, i, Text(v)) && i + |Text(v)| < |b|
    requires v.Num? ==> !NumByte(b[i + |Text(v)|])
    ensures SkipValue(b, i) == Some(i + |Text(v)|)
    ensures !IsWS(b[i]) && (v.Str? <==> b[i] == QUOTE)
  {
    hide SkipContainer, NumText, ElemsText, MembersText, SkipLiteral, Ok, SkipString;
    match v {
      case Str(items) =>
        StringSkipped(b, i, items);
      case Num(neg, whole, frac, exp) =>
        NumIsFlat(neg, whole, frac, exp);
        StandsHead(b, i, Text(v));
        NumRun(b, i, Text(v));
      case Lit(lit) => LiteralRead(b, i, lit);
      case Arr(_, _) => NestScanned(b, i, v, 0);
      case Obj(_, _) => NestScanned(b, i, v, 0);
    }
  }

  lemma StringSkipped(b: bytes, i: nat, items: seq<Item>)
    requires Ok(Str(items)) && StandsAt(b, i, Quoted(items))
    ensures i < |b| && b[i] == QUOTE && SkipString(b, i + 1) == Some(i + |Quoted(items)|)
  {
    hide WrittenAll, TextOf, ItemsOk, SkipString;
    assert Quoted(items) == [QUOTE] + (WrittenAll(items) + [QUOTE]);
    StandsHead(b, i, Quoted(items));
    StandsSplit(b, i, [QUOTE], WrittenAll(items) + [QUOTE]);
    StringRead(b, i + 1, items, []);
  }

  // ----- The field reader against the grammar

  /** The first member with that key decides: its text if it is a string. */
  function FirstField(ms: seq<Pairing>, name: bytes): Option<bytes>
    requires MembersOk(ms)
  {
    if ms == [] then None
    else if TextOf(ms[0].key) == name then
      (if ms[0].v.Str? then assert Ok(ms[0].v); Some(TextOf(ms[0].v.items)) else None)
    else FirstField(ms[1..], name)
  }

  /** What follows a value inside an object ends a number. */
  lemma AfterValue(b: bytes, i: nat, after: bytes, end: byte)
    requires Space(after) && StandsAt(b, i, after + [end]) && (end == COMMA || end == CLOSE_BRACE)
    ensures i + |after| < |b| && !NumByte(b[i]) && SkipWS(b, i) == i + |after| && b[i + |after|] == end
  {
    StandsSplit(b, i, after, [end]);
    StandsHead(b, i + |after|, [end]);
    SpaceSkipped(b, i, after);
    StandsHead(b, i, after + [end]);
    if after != [] {
      assert after[0] in after;
    }
  }

  /** White space and a key. */
  lemma KeyPart(b: bytes, i: nat, before: bytes, key: seq<Item>, rest: bytes)
    requires Space(before) && ItemsOk(key) && StandsAt(b, i, before + Quoted(key) + rest)
    ensures var j, k := i + |before|, i + |before + Quoted(key)|;
            && k <= |b| && j < k && StandsAt(b, k, rest) && SkipWS(b, i) == j && b[j] == QUOTE
            && CompleteString(b, j + 1, []) == Some((TextOf(key), k))
  {
    hide StandsAt, WrittenAll, TextOf, ItemsOk, CompleteString, SkipWS, Space, IsWS;
    var body := WrittenAll(key) + [QUOTE];
    assert before + Quoted(key) + rest == before + ([QUOTE] + (body + rest));
    StandsSplit(b, i, before, [QUOTE] + (body + rest));
    var p := i + |before|;
    StandsSplit(b, p, [QUOTE], body + rest);
    StandsHead(b, p, [QUOTE]);
    NotSpace();
    SpaceSkipped(b, i, before);
    StandsSplit(b, p + 1, body, rest);
    StringRead(b, p + 1, key, []);
    assert [] + TextOf(key) == TextOf(key);
  }

  /** White space, a colon, white space, and the value. */
  lemma ColonPart(b: bytes, i: nat, mid: bytes, gap: bytes, rest: bytes)
    requires Space(mid) && Space(gap) && rest != [] && !IsWS(rest[0])
    requires StandsAt(b, i, mid + [COLON] + gap + rest)
    ensures var c, v := i + |mid|, i + |mid + [COLON] + gap|;
            && v < |b| && c < v && SkipWS(b, i) == c && b[c] == COLON && SkipWS(b, c + 1) == v && StandsAt(b, v, rest)
  {
    hide StandsAt, SkipWS, Space, IsWS;
    assert mid + [COLON] + gap + rest == mid + ([COLON] + (gap + rest));
    StandsSplit(b, i, mid, [COLON] + (gap + rest));
    var c := i + |mid|;
    StandsSplit(b, c, [COLON], gap + rest);
    StandsHead(b, c, [COLON]);
    NotSpace();
    SpaceSkipped(b, i, mid);
    StandsSplit(b, c + 1, gap, rest);
    StandsHead(b, c + 1 + |gap|, rest);
    SpaceSkipped(b, c + 1, gap);
  }

  /** The head of a member is read as its decoded key and the place of its value. */
  lemma {:induction false} KeyRead(b: bytes, i: nat, m: Pairing, rest: bytes)
    requires Space(m.before) && ItemsOk(m.key) && Space(m.mid) && Space(m.gap)
    requires StandsAt(b, i, m.before + Quoted(m.key) + m.mid + [COLON] + m.gap + rest)
    requires rest != [] && !IsWS(rest[0])
    ensures var p := i + |m.before + Quoted(m.key) + m.mid + [COLON] + m.gap|;
            StandsAt(b, p, rest) && i <= |b| && MemberAt(b, i) == Member(TextOf(m.key), p)
  {
    hide StandsAt, Quoted, TextOf, ItemsOk, CompleteString, SkipWS, Space, IsWS;
    var tail := m.mid + [COLON] + m.gap + rest;
    assert m.before + Quoted(m.key) + m.mid + [COLON] + m.gap + rest == m.before + Quoted(m.key) + tail;
    KeyPart(b, i, m.before, m.key, tail);
    ColonPart(b, i + |m.before + Quoted(m.key)|, m.mid, m.gap, rest);
  }

  lemma NotSpace()
    ensures !IsWS(QUOTE) && !IsWS(COLON) && !IsWS(COMMA) && !IsWS(CLOSE_BRACE)
  {
  }

  /** The first member of the rest of an object: where its value is, and where the next begins. */
  lemma {:induction false} FirstMember(b: bytes, i: nat, ms: seq<Pairing>) returns (p: nat, next: nat)
    requires ms != [] && MembersOk(ms) && StandsAt(b, i, MembersText(ms) + [CLOSE_BRACE])
    ensures i <= |b| && p < |b| && MemberAt(b, i) == Member(TextOf(ms[0].key), p)
    ensures StandsAt(b, p, Text(ms[0].v)) && SkipValue(b, p).Some? && (ms[0].v.Str? <==> b[p] == QUOTE)
    ensures |ms| == 1 ==> NextMember(b, p) == None
    ensures |ms| > 1 ==> NextMember(b, p) == Some(next) && StandsAt(b, next, MembersText(ms[1..]) + [CLOSE_BRACE])
  {
    hide StandsAt, Text, Quoted, TextOf, ItemsOk, MemberAt, SkipValue, SkipWS, Ok, Space, NumByte, IsWS;
    var m := ms[0];
    var head := m.before + Quoted(m.key) + m.mid + [COLON] + m.gap;
    var end := if |ms| == 1 then CLOSE_BRACE else COMMA;
    var tail := if |ms| == 1 then [] else MembersText(ms[1..]) + [CLOSE_BRACE];
    assert MembersText(ms) + [CLOSE_BRACE] == head + (Text(m.v) + ((m.after + [end]) + tail));
    TextHead(m.v);
    KeyRead(b, i, m, Text(m.v) + ((m.after + [end]) + tail));
    p := i + |head|;
    StandsSplit(b, p, Text(m.v), (m.after + [end]) + tail);
    var q := p + |Text(m.v)|;
    StandsSplit(b, q, m.after + [end], tail);
    AfterValue(b, q, m.after, end);
    SkipValueExact(b, p, m.v);
    next := q + |m.after| + 1;
  }

  lemma {:induction false} FieldFromFirst(b: bytes, i: nat, ms: seq<Pairing>, name: bytes)
    requires ms != [] && MembersOk(ms) && StandsAt(b, i, MembersText(ms) + [CLOSE_BRACE])
    ensures i <= |b| && FieldFrom(b, i, name) == FirstField(ms, name)
    decreases |ms|
  {
    hide StandsAt, Text, TextOf, MemberAt, NextMember, SkipValue, Tolerant, Ok, FieldFrom, MembersText;
    var p, next := FirstMember(b, i, ms);
    FieldFromStep(b, i, name);
    if ms[0].v.Str? {
      ShownString(b, p, ms[0].v.items);
    }
    if |ms| > 1 {
      FieldFromFirst(b, next, ms[1..], name);
    } else {
      assert ms[1..] == [];
    }
  }

  lemma TextHead(v: Json)
    requires Ok(v)
    ensures Text(v) != [] && !IsWS(Text(v)[0])
  {
    if v.Num? {
      NumIsFlat(v.neg, v.whole, v.frac, v.exp);
    }
  }

  lemma ShownString(b: bytes, i: nat, items: seq<Item>)
    requires Ok(Str(items)) && StandsAt(b, i, Text(Str(items)))
    ensures i < |b| && Tolerant(b, i + 1, []) == TextOf(items)
  {
    hide WrittenAll, TextOf, ItemsOk, Tolerant, StandsAt;
    assert Quoted(items) == [QUOTE] + (WrittenAll(items) + [QUOTE]);
    StandsHead(b, i, Quoted(items));
    StandsSplit(b, i, [QUOTE], WrittenAll(items) + [QUOTE]);
    StringRead(b, i + 1, items, []);
    assert [] + TextOf(items) == TextOf(items);
  }

  /** On any well-formed object, whatever comes before it as white space and after it at
      all, StringField gives the decoded text of the first top-level member of that name if
      it is a string, and nothing if it is not or there is none: never a nested member. */
  lemma {:induction false} FieldAgreesWithGrammar(gap: bytes, obj: Json, rest: bytes, name: bytes)
    requires Space(gap) && obj.Obj? && Ok(obj)
    ensures Field(gap + Text(obj) + rest, name) == FirstField(obj.members, name)
  {
    hide MembersText, FieldFrom, MembersOk, FirstField, StandsAt, SkipWS, Space;
    var b := gap + Text(obj) + rest;
    var inner := Inner(obj);
    Regroup(gap, inner, rest);
    Unwrap(b, gap, inner, rest);
    if obj.members == [] {
      EmptyObject(b, |gap| + 1, obj.gap, name);
    } else {
      FieldFromFirst(b, |gap| + 1, obj.members, name);
    }
  }

  lemma Regroup(gap: bytes, inner: bytes, rest: bytes)
    ensures (gap + ([OPEN_BRACE] + inner + [CLOSE_BRACE]) + rest ==
             gap + ([OPEN_BRACE] + ((inner + [CLOSE_BRACE]) + rest)))
  {
  }

  /** To the inside of the object. */
  lemma Unwrap(b: bytes, gap: bytes, inner: bytes, rest: bytes)
    requires Space(gap) && b == gap + ([OPEN_BRACE] + ((inner + [CLOSE_BRACE]) + rest))
    ensures |gap| < |b| && b[|gap|] == OPEN_BRACE && SkipWS(b, 0) == |gap|
    ensures StandsAt(b, |gap| + 1, inner + [CLOSE_BRACE])
  {
    hide SkipWS;
    StandsItself(b);
    StandsSplit(b, 0, gap, [OPEN_BRACE] + ((inner + [CLOSE_BRACE]) + rest));
    StandsSplit(b, |gap|, [OPEN_BRACE], (inner + [CLOSE_BRACE]) + rest);
    StandsHead(b, |gap|, [OPEN_BRACE]);
    SpaceSkipped(b, 0, gap);
    StandsSplit(b, |gap| + 1, inner + [CLOSE_BRACE], rest);
  }

  lemma StandsItself(b: bytes)
    ensures StandsAt(b, 0, b)
  {
  }

  lemma EmptyObject(b: bytes, i: nat, gap: bytes, name: bytes)
    requires Space(gap) && StandsAt(b, i, gap + [CLOSE_BRACE])
    ensures i <= |b| && FieldFrom(b, i, name) == None && FirstField([], name) == None
  {
    AfterValue(b, i, gap, CLOSE_BRACE);
  }
}
