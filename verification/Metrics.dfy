/** Conversation metrics, kept up as the log grows or recomputed from all of it
    (internal/figaro/agent.go, internal/tokens/tokens.go, internal/message/message.go). */
module Metrics {
  import opened Message

  datatype Usage = Usage(input: int, output: int, cacheRead: int, cacheWrite: int)

  datatype Logged = Logged(lt: nat, msg: Message, usage: Option<Usage>)

  type Log = seq<Logged>

  ghost predicate LogOk(log: Log) {
    (forall i :: 0 <= i < |log| ==> log[i].lt > 0) && (forall i, j | 0 <= i < j < |log| :: log[i].lt < log[j].lt)
  }

  /** The length of arguments as JSON, where they can be written at all. */
  type Sizes = Args -> nat

  const ImageChars := 4800

  function Chars(c: Content, sizes: Sizes): nat {
    match c
    case Prose(text) => |text|
    case Thinking(text) => |text|
    case Image => ImageChars
    case Invoke(_, name, args) => |name| + if args.Some? then sizes(args.value) else 0
    case Result(id, name, text, _) => |id| + |name| + |text|
  }

  function AllChars(content: seq<Content>, sizes: Sizes): nat {
    if content == [] then 0 else AllChars(content[..|content| - 1], sizes) + Chars(content[|content| - 1], sizes)
  }

  method EstimateMessage(m: Message, sizes: Sizes) returns (n: nat)
    ensures n == Estimate(m, sizes)
  {
    var chars := 0;
    for i := 0 to |m.content|
      invariant chars == AllChars(m.content[..i], sizes)
    {
      assert m.content[..i + 1][..i] == m.content[..i];
      chars := chars + Chars(m.content[i], sizes);
    }
    assert m.content[..|m.content|] == m.content;
    if chars == 0 {
      return 0;
    }
    return (chars + 3) / 4;
  }

  /** A quarter of the characters, rounded up. */
  function Estimate(m: Message, sizes: Sizes): (n: nat)
    ensures 4 * n - 3 <= AllChars(m.content, sizes) <= 4 * n
  {
    (AllChars(m.content, sizes) + 3) / 4
  }

  /** Something a reader would see. */
  predicate Shown(c: Content) { (c.Prose? && c.text != "") || c.Image? || c.Result? }

  predicate IsCeremonial(m: Message) {
    m.role == Genesis || (m.role == User && forall c :: c in m.content ==> !Shown(c))
  }

  method Ceremonial(m: Message) returns (yes: bool)
    ensures yes == IsCeremonial(m)
  {
    if m.role == Genesis {
      return true;
    }
    if m.role == User {
      for i := 0 to |m.content|
        invariant forall j :: 0 <= j < i ==> !Shown(m.content[j])
      {
        var c := m.content[i];
        assert c in m.content;
        if c.Prose? && c.text != "" {
          return false;
        }
        if c.Image? || c.Result? {
          return false;
        }
      }
      return true;
    }
    return false;
  }

  // ----- The whole log

  function Total(log: Log): Usage {
    if log == [] then Usage(0, 0, 0, 0)
    else
      var t, u := Total(log[..|log| - 1]), log[|log| - 1].usage;
      if u.Some? then
        Usage(t.input + u.value.input, t.output + u.value.output,
              t.cacheRead + u.value.cacheRead, t.cacheWrite + u.value.cacheWrite)
      else t
  }

  function MessageCount(log: Log): nat {
    if log == [] then 0 else MessageCount(log[..|log| - 1]) + if IsCeremonial(log[|log| - 1].msg) then 0 else 1
  }

  function TurnCount(log: Log): nat {
    if log == [] then 0 else TurnCount(log[..|log| - 1]) + if log[|log| - 1].msg.role == Assistant then 1 else 0
  }

  function Estimates(log: Log, sizes: Sizes): nat {
    if log == [] then 0 else Estimates(log[..|log| - 1], sizes) + Estimate(log[|log| - 1].msg, sizes)
  }

  /** w is the last message that carries a usage. */
  predicate IsWatermark(log: Log, w: int) {
    -1 <= w < |log| && (w >= 0 ==> log[w].usage.Some?) && forall i :: w < i < |log| ==> log[i].usage.None?
  }

  /** Where the last usage is, -1 if there is none. */
  function LastUsage(log: Log): (w: int)
    ensures -1 <= w < |log|
  {
    if log == [] then -1
    else if log[|log| - 1].usage.Some? then |log| - 1
    else LastUsage(log[..|log| - 1])
  }

  /** The context: what the last usage says, and an estimate of everything behind it. */
  predicate IsContext(log: Log, sizes: Sizes, size: int, exact: bool) {
    size == ContextAt(log, LastUsage(log), sizes) && (exact <==> LastUsage(log) == |log| - 1)
  }

  function ContextAt(log: Log, w: int, sizes: Sizes): int
    requires -1 <= w < |log|
  {
    (if w >= 0 && log[w].usage.Some? then log[w].usage.value.input + log[w].usage.value.output else 0) +
        Estimates(log[w + 1..], sizes)
  }

  lemma {:induction false} LastUsageIs(log: Log)
    ensures IsWatermark(log, LastUsage(log))
  {
    if log != [] && log[|log| - 1].usage.None? {
      LastUsageIs(log[..|log| - 1]);
    }
  }

  lemma OneWatermark(log: Log, w: int)
    requires IsWatermark(log, w)
    ensures w == LastUsage(log)
  {
    LastUsageIs(log);
  }

  method ContextSize(log: Log, sizes: Sizes) returns (size: int, exact: bool)
    ensures IsContext(log, sizes, size, exact)
  {
    if |log| == 0 {
      return 0, true;
    }
    var watermark := -1;
    var i := |log| - 1;
    while i >= 0
      invariant -1 <= i < |log| && watermark == -1
      invariant forall j :: i < j < |log| ==> log[j].usage.None?
    {
      if log[i].usage.Some? {
        watermark := i;
        break;
      }
      i := i - 1;
    }
    OneWatermark(log, watermark);
    if watermark < 0 {
      var all := SumEstimates(log, sizes);
      assert log[0..] == log;
      return all, false;
    }
    var u := log[watermark].usage.value;
    var base := u.input + u.output;
    if watermark == |log| - 1 {
      assert log[watermark + 1..] == [];
      return base, true;
    }
    var tail := SumEstimates(log[watermark + 1..], sizes);
    return base + tail, false;
  }

  method SumEstimates(log: Log, sizes: Sizes) returns (n: nat)
    ensures n == Estimates(log, sizes)
  {
    n := 0;
    for i := 0 to |log|
      invariant n == Estimates(log[..i], sizes)
    {
      assert log[..i + 1][..i] == log[..i];
      var e := EstimateMessage(log[i].msg, sizes);
      n := n + e;
    }
    assert log[..|log|] == log;
  }

  datatype Totals = Totals(usage: Usage, messages: nat, turns: nat, context: int, exact: bool, lt: nat)

  /** The latest LT, 0 for an empty log. */
  ghost predicate IsLatest(log: Log, lt: nat) {
    (forall m :: m in log ==> m.lt <= lt) && (lt == 0 || exists m :: m in log && m.lt == lt)
  }

  /** These are the metrics of the whole log. */
  ghost predicate Measures(t: Totals, log: Log, sizes: Sizes) {
    && t.usage == Total(log) && t.messages == MessageCount(log) && t.turns == TurnCount(log)
    && IsContext(log, sizes, t.context, t.exact) && IsLatest(log, t.lt)
  }

  lemma LatestIsUnique(log: Log, x: nat, y: nat)
    requires IsLatest(log, x) && IsLatest(log, y)
    ensures x == y
  {
  }

  /** There is only one such value. */
  lemma {:induction false} MeasuresIsUnique(s: Totals, t: Totals, log: Log, sizes: Sizes)
    requires Measures(s, log, sizes) && Measures(t, log, sizes)
    ensures s == t
  {
    hide IsLatest, Total, MessageCount, TurnCount, ContextAt, LastUsage;
    LatestIsUnique(log, s.lt, t.lt);
  }

  // ----- One more message

  lemma {:induction false} EstimatesGrow(log: Log, m: Logged, w: int, sizes: Sizes)
    requires -1 <= w < |log|
    ensures Estimates((log + [m])[w + 1..], sizes) == Estimates(log[w + 1..], sizes) + Estimate(m.msg, sizes)
  {
    var tail := (log + [m])[w + 1..];
    assert tail[..|tail| - 1] == log[w + 1..];
  }

  function Counted(t: Totals, m: Logged, sizes: Sizes): Totals {
    Totals(
      if m.usage.Some? then
        var u := m.usage.value;
        Usage(t.usage.input + u.input, t.usage.output + u.output, t.usage.cacheRead + u.cacheRead,
            t.usage.cacheWrite + u.cacheWrite)
      else t.usage,
      t.messages + (if IsCeremonial(m.msg) then 0 else 1),
      t.turns + (if m.msg.role == Assistant then 1 else 0),
      if m.usage.Some? then m.usage.value.input + m.usage.value.output else t.context + Estimate(m.msg, sizes),
      m.usage.Some?,
      m.lt)
  }

  lemma {:induction false} LastUsageGrows(log: Log, m: Logged)
    ensures LastUsage(log + [m]) == if m.usage.Some? then |log| else LastUsage(log)
  {
    assert (log + [m])[..|log|] == log;
  }

  lemma {:induction false} WatermarkHere(log: Log, m: Logged, sizes: Sizes)
    requires m.usage.Some?
    ensures IsContext(log + [m], sizes, m.usage.value.input + m.usage.value.output, true)
  {
    hide LastUsage;
    LastUsageGrows(log, m);
    assert (log + [m])[|log| + 1..] == [];
  }

  lemma {:induction false} WatermarkBefore(log: Log, m: Logged, sizes: Sizes)
    requires m.usage.None?
    ensures IsContext(log + [m], sizes, ContextAt(log, LastUsage(log), sizes) + Estimate(m.msg, sizes), false)
  {
    hide Estimate, Estimates, IsWatermark, LastUsage;
    LastUsageGrows(log, m);
    EstimatesGrow(log, m, LastUsage(log), sizes);
  }

  lemma {:induction false} ContextGrows(log: Log, m: Logged, size: int, exact: bool, sizes: Sizes)
    requires IsContext(log, sizes, size, exact)
    ensures m.usage.Some? ==> IsContext(log + [m], sizes, m.usage.value.input + m.usage.value.output, true)
    ensures m.usage.None? ==> IsContext(log + [m], sizes, size + Estimate(m.msg, sizes), false)
  {
    hide ContextAt, Estimate, LastUsage;
    if m.usage.Some? {
      WatermarkHere(log, m, sizes);
    } else {
      WatermarkBefore(log, m, sizes);
    }
  }

  lemma {:induction false} LatestGrows(log: Log, m: Logged)
    requires LogOk(log + [m])
    ensures IsLatest(log + [m], m.lt)
  {
    var more := log + [m];
    assert more[|log|] == m;
    forall e | e in more ensures e.lt <= m.lt {
      var i :| 0 <= i < |more| && more[i] == e;
    }
    assert m in more;
  }

  lemma {:induction false} SumsGrow(log: Log, m: Logged, t: Totals, sizes: Sizes)
    requires t.usage == Total(log) && t.messages == MessageCount(log) && t.turns == TurnCount(log)
    ensures Counted(t, m, sizes).usage == Total(log + [m])
    ensures Counted(t, m, sizes).messages == MessageCount(log + [m])
    ensures Counted(t, m, sizes).turns == TurnCount(log + [m])
  {
    hide IsCeremonial, Estimate;
    assert (log + [m])[..|log|] == log;
  }

  lemma {:induction false} OneMore(log: Log, m: Logged, t: Totals, sizes: Sizes)
    requires LogOk(log + [m]) && Measures(t, log, sizes)
    ensures Measures(Counted(t, m, sizes), log + [m], sizes)
  {
    hide IsContext, IsCeremonial, Estimate, IsLatest, Total, MessageCount, TurnCount, LogOk;
    ContextGrows(log, m, t.context, t.exact, sizes);
    LatestGrows(log, m);
    SumsGrow(log, m, t, sizes);
  }

  // ----- Refreshing

  /** The log as it is now against the one the metrics were last taken of: it has only grown,
      or it has been cut back below what was counted. */
  ghost predicate Follows(seen: Log, log: Log) {
    seen <= log || (seen != [] && (log == [] || log[|log| - 1].lt < seen[|seen| - 1].lt))
  }

  lemma {:induction false} LatestIsLast(log: Log, lt: nat)
    requires LogOk(log) && IsLatest(log, lt)
    ensures lt == if log == [] then 0 else log[|log| - 1].lt
  {
    if log != [] {
      assert log[|log| - 1] in log;
      if lt > 0 {
        var m :| m in log && m.lt == lt;
        var j :| 0 <= j < |log| && log[j] == m;
      }
    }
  }

  /** How many entries lie at or below lt: where ReadFrom(lt + 1) begins. */
  function Seen(log: Log, lt: nat): (n: nat)
    ensures n <= |log| && (forall i :: 0 <= i < n ==> log[i].lt <= lt) && (n < |log| ==> log[n].lt > lt)
  {
    if log == [] || log[0].lt > lt then 0 else 1 + Seen(log[1..], lt)
  }

  lemma {:induction false} SeenIs(seen: Log, log: Log, lt: nat)
    requires LogOk(log) && LogOk(seen) && seen <= log && IsLatest(seen, lt)
    ensures log[..Seen(log, lt)] == seen
  {
    LatestIsLast(seen, lt);
    forall i | 0 <= i < |seen| ensures log[i].lt <= lt {
      assert seen[i] in seen;
    }
    if |seen| < |log| {
      assert seen != [] ==> log[|seen| - 1].lt < log[|seen|].lt;
    }
  }

  /** The loop of refreshMetrics. */
  method CountTail(start: Totals, log: Log, from: nat, sizes: Sizes) returns (t: Totals)
    requires LogOk(log) && from <= |log|
    ensures Measures(start, log[..from], sizes) ==> Measures(t, log, sizes)
  {
    hide Measures;
    t := start;
    for i := from to |log|
      invariant Measures(start, log[..from], sizes) ==> Measures(t, log[..i], sizes)
    {
      assert log[..i + 1] == log[..i] + [log[i]];
      if Measures(t, log[..i], sizes) {
        OneMore(log[..i], log[i], t, sizes);
      }
      t := Count(t, log[i], sizes);
    }
    assert log[..|log|] == log;
  }

  lemma {:induction false} RefreshedRight(start: Totals, t: Totals, seen: Log, log: Log, sizes: Sizes)
    requires LogOk(log) && LogOk(seen) && Measures(start, seen, sizes) && Follows(seen, log)
    requires !(start.lt > 0 && (log == [] || log[|log| - 1].lt < start.lt))
    requires Measures(start, log[..Seen(log, start.lt)], sizes) ==> Measures(t, log, sizes)
    ensures Measures(t, log, sizes)
  {
    LatestIsLast(seen, start.lt);
    SeenIs(seen, log, start.lt);
  }

  class Meter {
    const sizes: Sizes
    var totals: Totals

    constructor (sizes: Sizes, log: Log)
      ensures this.sizes == sizes && Measures(totals, log, sizes)
    {
      this.sizes := sizes;
      totals := Totals(Usage(0, 0, 0, 0), 0, 0, 0, false, 0);
      new;
      RefreshFrom(log);
    }

    /** refreshMetricsFrom. */
    method RefreshFrom(log: Log)
      modifies this
      ensures Measures(totals, log, sizes)
    {
      var usage := SumUsage(log);
      var messages := CountMessages(log);
      var turns, latest := CountTurns(log);
      var context, exact := ContextSize(log, sizes);
      totals := Totals(usage, messages, turns, context, exact, latest);
    }

    /** refreshMetrics: whatever log the metrics held for, they now hold for this one. */
    method Refresh(log: Log)
      requires LogOk(log)
      modifies this
      ensures (forall seen :: LogOk(seen) && Measures(old(totals), seen, sizes) && Follows(seen, log) ==>
               Measures(totals, log, sizes))
    {
      if totals.lt > 0 && (log == [] || log[|log| - 1].lt < totals.lt) {
        RefreshFrom(log);
        return;
      }
      hide Measures, Follows, LogOk, Counted;
      ghost var start := totals;
      totals := CountTail(totals, log, Seen(log, totals.lt), sizes);
      forall seen | LogOk(seen) && Measures(start, seen, sizes) && Follows(seen, log)
        ensures Measures(totals, log, sizes)
      {
        RefreshedRight(start, totals, seen, log, sizes);
      }
    }
  }

  method Count(t: Totals, m: Logged, sizes: Sizes) returns (n: Totals)
    ensures n == Counted(t, m, sizes)
  {
    n := t;
    if m.usage.Some? {
      var u := m.usage.value;
      n := n.(usage := Usage(t.usage.input + u.input, t.usage.output + u.output, t.usage.cacheRead + u.cacheRead,
          t.usage.cacheWrite + u.cacheWrite));
      n := n.(context := u.input + u.output, exact := true);
    } else {
      var e := EstimateMessage(m.msg, sizes);
      n := n.(context := t.context + e, exact := false);
    }
    var ceremonial := Ceremonial(m.msg);
    if !ceremonial {
      n := n.(messages := n.messages + 1);
    }
    if m.msg.role == Assistant {
      n := n.(turns := n.turns + 1);
    }
    n := n.(lt := m.lt);
  }

  method SumUsage(log: Log) returns (usage: Usage)
    ensures usage == Total(log)
  {
    usage := Usage(0, 0, 0, 0);
    for i := 0 to |log|
      invariant usage == Total(log[..i])
    {
      assert log[..i + 1][..i] == log[..i];
      if log[i].usage.Some? {
        var u := log[i].usage.value;
        usage := Usage(usage.input + u.input, usage.output + u.output, usage.cacheRead + u.cacheRead,
            usage.cacheWrite + u.cacheWrite);
      }
    }
    assert log[..|log|] == log;
  }

  method CountMessages(log: Log) returns (n: nat)
    ensures n == MessageCount(log)
  {
    n := 0;
    for i := 0 to |log|
      invariant n == MessageCount(log[..i])
    {
      hide IsCeremonial;
      assert log[..i + 1][..i] == log[..i];
      var ceremonial := Ceremonial(log[i].msg);
      if !ceremonial {
        n := n + 1;
      }
    }
    assert log[..|log|] == log;
  }

  method CountTurns(log: Log) returns (turns: nat, latest: nat)
    ensures turns == TurnCount(log) && IsLatest(log, latest)
  {
    turns, latest := 0, 0;
    for i := 0 to |log|
      invariant turns == TurnCount(log[..i]) && IsLatest(log[..i], latest)
    {
      assert log[..i + 1] == log[..i] + [log[i]];
      assert log[..i + 1][..i] == log[..i];
      LatestOf(log[..i], log[i], latest);
      if log[i].msg.role == Assistant {
        turns := turns + 1;
      }
      if log[i].lt > latest {
        latest := log[i].lt;
      }
    }
    assert log[..|log|] == log;
  }

  lemma LatestOf(log: Log, m: Logged, latest: nat)
    requires IsLatest(log, latest)
    ensures IsLatest(log + [m], if m.lt > latest then m.lt else latest)
  {
    assert m in log + [m];
    assert forall e :: e in log + [m] <==> e in log || e == m;
  }

  ghost predicate GoesOn(logs: seq<Log>, i: nat)
    requires i + 1 < |logs|
  {
    Follows(logs[i], logs[i + 1])
  }

  /** Any schedule of refreshes, of a log that grows or is cut back in between. */
  method Schedule(sizes: Sizes, logs: seq<Log>) returns (t: Totals)
    requires |logs| > 0 && forall i :: 0 <= i < |logs| ==> LogOk(logs[i])
    requires forall i: nat :: i + 1 < |logs| ==> GoesOn(logs, i)
    ensures Measures(t, logs[|logs| - 1], sizes)
  {
    var meter := new Meter(sizes, logs[0]);
    for i := 1 to |logs|
      invariant Measures(meter.totals, logs[i - 1], sizes) && meter.sizes == sizes
    {
      assert GoesOn(logs, i - 1);
      meter.Refresh(logs[i]);
    }
    return meter.totals;
  }
}
