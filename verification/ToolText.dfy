/** The text of a tool's result: what streamed, what the tool returned, and what is kept of
    both for a turn that ends early (internal/figaro/turn_seal.go). */
module ToolText {
  import Governor

  /** Unicode white space, as unicode.IsSpace has it. */
  predicate IsSpace(c: char) {
    || '\t' <= c <= '\r' || c == ' ' || c == '\U{0085}' || c == '\U{00A0}' || c == '\U{1680}'
    || '\U{2000}' <= c <= '\U{200A}' || c == '\U{2028}' || c == '\U{2029}' || c == '\U{202F}'
    || c == '\U{205F}' || c == '\U{3000}'
  }

  function TrimLeft(s: string): string
    decreases |s|
  {
    if s != [] && IsSpace(s[0]) then TrimLeft(s[1..]) else s
  }

  function TrimRight(s: string): string
    decreases |s|
  {
    if s != [] && IsSpace(s[|s| - 1]) then TrimRight(s[..|s| - 1]) else s
  }

  /** strings.TrimSpace. */
  function TrimSpace(s: string): string { TrimRight(TrimLeft(s)) }

  /** part stands in s, from place i on. */
  predicate StandsIn(s: string, part: string, i: nat) { i + |part| <= |s| && s[i..i + |part|] == part }

  /** strings.Contains. */
  predicate Contains(s: string, part: string) { exists i :: 0 <= i <= |s| && StandsIn(s, part, i) }

  /** What streamed and what the tool returned in the end, as one text. */
  function Combined(terminal: string, streamed: string): string {
    if terminal == "" then streamed
    else if streamed == "" || Contains(terminal, streamed) then terminal
    else if Contains(streamed, terminal) then streamed
    else streamed + "\n" + terminal
  }

  lemma ContainsItself(s: string)
    ensures Contains(s, s) && Contains(s, "")
  {
    assert StandsIn(s, s, 0) && StandsIn(s, "", 0);
  }

  /** Nothing of either is lost, and neither is written twice where one holds the other. */
  lemma {:induction false} CombinedHoldsBoth(terminal: string, streamed: string)
    ensures Contains(Combined(terminal, streamed), terminal) && Contains(Combined(terminal, streamed), streamed)
    ensures Contains(terminal, streamed) || Contains(streamed, terminal) ==>
              Combined(terminal, streamed) == terminal || Combined(terminal, streamed) == streamed
  {
    ContainsItself(terminal);
    ContainsItself(streamed);
    var both := streamed + "\n" + terminal;
    assert StandsIn(both, streamed, 0) && StandsIn(both, terminal, |streamed| + 1);
  }

  const TailLines := 200
  const TailBytes := 65536

  function LastOf(s: string, n: nat): string { if |s| > n then s[|s| - n..] else s }

  /** The last n lines, where what follows the last newline is a line too. */
  function LastLines(text: string, n: nat): string {
    var lines := Governor.Newlines(text) + 1;
    if lines > n then Governor.DropLines(text, lines - n) else text
  }

  /** boundedToolTail: the last lines, and of these the last bytes (here characters). */
  function BoundedTail(text: string): string { LastOf(LastLines(text, TailLines), TailBytes) }

  lemma {:induction false} LastLinesIs(text: string, n: nat)
    requires n > 0
    ensures var t := LastLines(text, n);
            |t| <= |text| && t == text[|text| - |t|..] && Governor.Newlines(t) < n
  {
    hide Governor.DropLines, Governor.Newlines;
    if Governor.Newlines(text) + 1 > n {
      Governor.DropSplits(text, Governor.Newlines(text) + 1 - n);
    } else {
      assert text[0..] == text;
    }
  }

  /** The tail is a suffix, of at most so many lines and characters. */
  lemma {:induction false} BoundedTailIs(text: string)
    ensures var t := BoundedTail(text);
            && |t| <= |text| && t == text[|text| - |t|..]
            && |t| <= TailBytes && Governor.Newlines(t) < TailLines
  {
    hide Governor.Newlines, LastOf, LastLines;
    var kept := LastLines(text, TailLines);
    LastLinesIs(text, TailLines);
    SuffixCounts(kept);
    SuffixAgain(text, kept, LastOf(kept, TailBytes));
  }

  lemma SuffixAgain(s: string, t: string, u: string)
    requires |u| <= |t| <= |s| && t == s[|s| - |t|..] && u == t[|t| - |u|..]
    ensures u == s[|s| - |u|..]
  {
  }

  lemma {:induction false} SuffixCounts(kept: string)
    ensures var t := LastOf(kept, TailBytes);
            && |t| <= TailBytes && |t| <= |kept| && t == kept[|kept| - |t|..]
            && Governor.Newlines(t) <= Governor.Newlines(kept)
  {
    hide Governor.Newlines;
    var t := LastOf(kept, TailBytes);
    var cut := kept[..|kept| - |t|];
    assert kept == cut + t;
    Governor.CountAppend(cut, t);
  }

  const NOTICE := "interrupted: tool execution did not complete"
  const TRUNCATED := "\n\n[output truncated: process interrupted before the full result was recorded]"

  /** The text of a result that sealTurn writes: the whole result of a tool that ended, what
      is left of it if that was not recorded, or the output so far and a notice. */
  function ResultText(ended: bool, result: string, tail: string): string {
    var text, whole := TrimSpace(tail), TrimSpace(result);
    if ended then (if whole != "" then whole else if text != "" then text + TRUNCATED else "")
    else if text != "" then text + "\n\n" + NOTICE
    else NOTICE
  }
}
