/** Live output tails, internal/toolout/governor.go. */
module Governor {
  type Text = seq<char>

  /** strings.IndexByte(s, newline), -1 if there is none. */
  function IndexNewline(s: Text): (j: int)
    ensures -1 <= j < |s| && (j >= 0 ==> s[j] == '\n')
  {
    if s == [] then -1
    else if s[0] == '\n' then 0
    else
      var j := IndexNewline(s[1..]);
      if j < 0 then -1 else j + 1
  }

  /** strings.Count(s, newline). */
  function Newlines(s: Text): nat {
    if s == [] then 0 else (if s[0] == '\n' then 1 else 0) + Newlines(s[1..])
  }

  predicate Partial(s: Text) { s != [] && s[|s| - 1] != '\n' }

  /** Lines of s; a trailing partial line counts. */
  function Lines(s: Text): nat { Newlines(s) + if Partial(s) then 1 else 0 }

  /** What follows the k-th newline, nothing if there is none. */
  function DropLines(s: Text, k: nat): Text
    decreases k
  {
    if k == 0 then s
    else
      var j := IndexNewline(s);
      if j < 0 then [] else DropLines(s[j + 1..], k - 1)
  }

  function Tail(s: Text, n: nat): Text {
    if Lines(s) <= n then s else DropLines(s, Lines(s) - n)
  }

  method ClampTail(s: Text, n: nat) returns (r: Text)
    ensures r == Tail(s, n)
  {
    hide DropLines, Newlines, IndexNewline;
    NoLines();
    if s == [] {
      return s;
    }
    var lineCount := Newlines(s);
    if s[|s| - 1] != '\n' {
      lineCount := lineCount + 1;
    }
    if lineCount <= n {
      return s;
    }
    var skip := lineCount - n;
    var idx := 0;
    assert s[0..] == s;
    for i := 0 to skip
      invariant 0 <= idx <= |s| && DropLines(s[idx..], skip - i) == DropLines(s, skip)
    {
      var j := IndexNewline(s[idx..]);
      DropStep(s[idx..], skip - i);
      if j < 0 {
        return [];
      }
      assert s[idx..][j + 1..] == s[idx + j + 1..];
      idx := idx + j + 1;
    }
    DropNone(s[idx..]);
    return s[idx..];
  }

  lemma NoLines()
    ensures Lines([]) == 0
  {
  }

  lemma {:induction false} DropNone(s: Text)
    ensures DropLines(s, 0) == s
  {
  }

  lemma {:induction false} DropStep(s: Text, k: nat)
    requires k > 0
    ensures DropLines(s, k) == var j := IndexNewline(s); if j < 0 then [] else DropLines(s[j + 1..], k - 1)
  {
  }

  // ----- Counting

  lemma {:induction false} CountAppend(s: Text, t: Text)
    ensures Newlines(s + t) == Newlines(s) + Newlines(t)
    decreases |s|
  {
    if s == [] {
      assert s + t == t;
    } else {
      assert (s + t)[1..] == s[1..] + t;
      CountAppend(s[1..], t);
    }
  }

  lemma {:induction false} FirstLine(s: Text)
    ensures IndexNewline(s) < 0 <==> Newlines(s) == 0
    ensures var j := IndexNewline(s); j >= 0 ==> Newlines(s[..j + 1]) == 1 && Newlines(s[j + 1..]) == Newlines(s) - 1
    decreases |s|
  {
    if s != [] {
      FirstLine(s[1..]);
      var j := IndexNewline(s);
      if s[0] == '\n' {
        assert s[..1] == [s[0]] && s[..1][1..] == [];
      } else if j >= 0 {
        assert s[..j + 1][1..] == s[1..][..j];
        assert s[1..][j..] == s[j + 1..];
      }
    }
  }

  lemma {:induction false} IndexAppend(s: Text, t: Text)
    requires Newlines(s) > 0
    ensures IndexNewline(s + t) == IndexNewline(s) >= 0
    decreases |s|
  {
    assert (s + t)[1..] == s[1..] + t;
    if s[0] != '\n' {
      IndexAppend(s[1..], t);
    }
  }

  lemma SuffixOfSuffix(s: Text, i: nat, n: nat)
    requires i + n <= |s|
    ensures s[i..][|s| - i - n..] == s[|s| - n..]
  {
  }

  /** Dropping k lines leaves a suffix with k newlines fewer; what is gone ends in one. */
  lemma {:induction false} DropSplits(s: Text, k: nat)
    requires k <= Newlines(s)
    ensures var t := DropLines(s, k);
            && |t| <= |s| && t == s[|s| - |t|..] && Newlines(t) == Newlines(s) - k
            && (t == [] && k > 0 ==> s != [] && s[|s| - 1] == '\n')
    decreases k
  {
    hide DropLines, Newlines, IndexNewline;
    if k > 0 {
      var j := IndexNewline(s);
      FirstLine(s);
      DropStep(s, k);
      DropSplits(s[j + 1..], k - 1);
      SuffixOfSuffix(s, j + 1, |DropLines(s, k)|);
      if k == 1 {
        DropNone(s[j + 1..]);
      }
    } else {
      DropNone(s);
      assert s[0..] == s;
    }
  }

  lemma {:induction false} DropAppend(s: Text, t: Text, k: nat)
    requires k <= Newlines(s)
    ensures DropLines(s + t, k) == DropLines(s, k) + t
    decreases k
  {
    hide DropLines, Newlines, IndexNewline;
    if k > 0 {
      var j := IndexNewline(s);
      FirstLine(s);
      IndexAppend(s, t);
      DropStep(s, k);
      DropStep(s + t, k);
      assert (s + t)[j + 1..] == s[j + 1..] + t;
      DropAppend(s[j + 1..], t, k - 1);
    } else {
      DropNone(s);
      DropNone(s + t);
    }
  }

  lemma {:induction false} DropTwice(s: Text, k: nat, m: nat)
    requires k <= Newlines(s)
    ensures DropLines(s, k + m) == DropLines(DropLines(s, k), m)
    decreases k
  {
    hide DropLines, Newlines, IndexNewline;
    if k > 0 {
      FirstLine(s);
      DropStep(s, k);
      DropStep(s, k + m);
      DropTwice(s[IndexNewline(s) + 1..], k - 1, m);
    } else {
      DropNone(s);
    }
  }

  // ----- The tail

  /** The tail is a suffix of at most n lines, and of exactly n when something was cut. */
  lemma {:induction false} TailIsSuffix(s: Text, n: nat)
    requires n > 0
    ensures var t := Tail(s, n); |t| <= |s| && t == s[|s| - |t|..] && Lines(t) == if Lines(s) <= n then Lines(s) else n
  {
    hide DropLines, Newlines;
    if Lines(s) > n {
      DropSplits(s, Lines(s) - n);
      assert Newlines([]) == 0 by { NoLines(); }
    } else {
      assert s[0..] == s;
    }
  }

  lemma {:induction false} LinesAppend(s: Text, c: Text)
    ensures Lines(s + c) == if c == [] then Lines(s) else Newlines(s) + Lines(c)
    ensures c != [] ==> Lines(c) > 0
  {
    CountAppend(s, c);
    if c == [] {
      assert s + c == s;
    } else if !Partial(c) {
      CountAppend(c[..|c| - 1], [c[|c| - 1]]);
      assert c == c[..|c| - 1] + [c[|c| - 1]];
    }
  }

  /** A tail, and what comes behind it: cut as often as the whole. */
  lemma {:induction false} TailThenMore(s: Text, c: Text, n: nat)
    requires n > 0 && Lines(s) > n
    ensures var t, k := Tail(s, n), Lines(s) - n;
            && k <= Newlines(s) <= Newlines(s + c) && t == DropLines(s, k)
            && Lines(s + c) == Lines(t + c) + k && Lines(t + c) >= n
  {
    hide DropLines, Newlines;
    var t, k := Tail(s, n), Lines(s) - n;
    DropSplits(s, k);
    TailIsSuffix(s, n);
    LinesAppend(s, c);
    LinesAppend(t, c);
    CountAppend(s, c);
    CountAppend(t, c);
    assert c == [] ==> t + c == t && s + c == s;
  }

  /** Clamping after each chunk is clamping the whole. */
  lemma {:induction false} ClampTwice(s: Text, c: Text, n: nat)
    requires n > 0
    ensures Tail(Tail(s, n) + c, n) == Tail(s + c, n)
  {
    hide DropLines, Newlines, Lines;
    if Lines(s) > n {
      var t, k := Tail(s, n), Lines(s) - n;
      TailThenMore(s, c, n);
      DropAppend(s, c, k);
      DropTwice(s + c, k, Lines(t + c) - n);
      DropNone(t + c);
    }
  }

  // ----- The governor

  const DEFAULT_MAX_LINES := 10

  class Governor {
    const maxLines: nat
    var tails: map<string, Text>
    var dirty: bool

    constructor (maxLines: int)
      ensures this.maxLines == (if maxLines <= 0 then DEFAULT_MAX_LINES else maxLines) && tails == map[] && !dirty
    {
      this.maxLines := if maxLines <= 0 then DEFAULT_MAX_LINES else maxLines;
      tails, dirty := map[], false;
    }

    method Feed(key: string, chunk: Text)
      modifies this
      ensures tails == Fed(old(tails), key, chunk, maxLines) && dirty == (old(dirty) || chunk != [])
    {
      if chunk == [] {
        return;
      }
      var was := if key in tails then tails[key] else [];
      var now := ClampTail(was + chunk, maxLines);
      tails := tails[key := now];
      dirty := true;
    }

    method DropKey(key: string)
      modifies `tails
      ensures tails == old(tails) - {key}
    {
      tails := tails - {key};
    }
  }

  function At(tails: map<string, Text>, key: string): Text { if key in tails then tails[key] else [] }

  function Fed(tails: map<string, Text>, key: string, chunk: Text, n: nat): map<string, Text> {
    if chunk == [] then tails else tails[key := Tail(At(tails, key) + chunk, n)]
  }

  datatype Chunk = Chunk(key: string, text: Text)

  function FedAll(chunks: seq<Chunk>, n: nat): map<string, Text> {
    if chunks == [] then map[]
    else Fed(FedAll(chunks[..|chunks| - 1], n), chunks[|chunks| - 1].key, chunks[|chunks| - 1].text, n)
  }

  /** Everything one key was fed. */
  function Whole(chunks: seq<Chunk>, key: string): Text {
    if chunks == [] then []
    else Whole(chunks[..|chunks| - 1], key) + if chunks[|chunks| - 1].key == key then chunks[|chunks| - 1].text else []
  }

  /** However the output is cut into chunks, and whatever other keys are fed between them,
      a key's tail is the tail of its whole output. */
  lemma {:induction false} TailIsChunkInvariant(chunks: seq<Chunk>, key: string, n: nat)
    requires n > 0
    ensures At(FedAll(chunks, n), key) == Tail(Whole(chunks, key), n)
  {
    if chunks != [] {
      var pre, c := chunks[..|chunks| - 1], chunks[|chunks| - 1];
      TailIsChunkInvariant(pre, key, n);
      if c.key == key {
        ClampTwice(Whole(pre, key), c.text, n);
      }
      assert Whole(pre, key) + [] == Whole(pre, key);
    }
  }
}
