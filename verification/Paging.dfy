/** Reading a history by pages: the server's backward read (internal/livelog/aria/server.go)
    and the forward page the transcript builds from it (internal/cli/stream.go). */
module Paging {
  import opened Aria

  type History = seq<Message>

  predicate Ascending(h: History) { forall i, j | 0 <= i < j < |h| :: h[i].lt < h[j].lt }

  /** LTs rise along a history and start above 0. */
  predicate HistoryOk(h: History) { Ascending(h) && forall m | m in h :: m.lt > 0 }

  /** How many messages lie below x. */
  function Below(h: History, x: int): (n: nat)
    ensures n <= |h|
    ensures forall i :: 0 <= i < n ==> h[i].lt < x
    ensures n < |h| ==> h[n].lt >= x
  {
    if h == [] || h[0].lt >= x then 0 else 1 + Below(h[1..], x)
  }

  function Max(x: int, y: int): int { if x > y then x else y }

  function Min(x: int, y: int): int { if x < y then x else y }

  /** The limit messages closest below before. */
  function PageBefore(h: History, before: int, limit: int): History {
    if before <= 0 || limit <= 0 then [] else h[Max(0, Below(h, before) - limit)..Below(h, before)]
  }

  lemma {:induction false} BelowIs(h: History, x: int, n: nat)
    requires Ascending(h) && n <= |h|
    requires n > 0 ==> h[n - 1].lt < x
    requires n < |h| ==> h[n].lt >= x
    ensures Below(h, x) == n
  {
  }

  method ReadBefore(h: History, before: int, limit: int) returns (page: History)
    requires Ascending(h)
    ensures page == PageBefore(h, before, limit)
  {
    if before <= 0 || limit <= 0 {
      return [];
    }
    // sort.Search: the first message at or above the cursor
    var lo, hi := 0, |h|;
    while lo < hi
      invariant 0 <= lo <= hi <= |h|
      invariant lo > 0 ==> h[lo - 1].lt < before
      invariant hi < |h| ==> h[hi].lt >= before
    {
      var mid := lo + (hi - lo) / 2;
      if h[mid].lt >= before {
        hi := mid;
      } else {
        lo := mid + 1;
      }
    }
    BelowIs(h, before, lo);
    var start := lo - limit;
    if start < 0 {
      start := 0;
    }
    return h[start..lo];
  }

  // ----- Forward pages

  function CountAfter(ms: History, after: int): nat {
    if ms == [] then 0 else CountAfter(ms[..|ms| - 1], after) + if ms[|ms| - 1].lt > after then 1 else 0
  }

  function OnlyAfter(ms: History, after: int): History {
    if ms == [] then []
    else OnlyAfter(ms[..|ms| - 1], after) + if ms[|ms| - 1].lt > after then [ms[|ms| - 1]] else []
  }

  method CommittedAfter(ms: History, after: int) returns (n: nat)
    ensures n == CountAfter(ms, after)
  {
    n := 0;
    for i := 0 to |ms|
      invariant n == CountAfter(ms[..i], after)
    {
      assert ms[..i + 1][..i] == ms[..i];
      if ms[i].lt > after {
        n := n + 1;
      }
    }
    assert ms[..|ms|] == ms;
  }

  method FilterCommittedAfter(ms: History, after: int) returns (out: History)
    ensures out == OnlyAfter(ms, after)
  {
    out := [];
    for i := 0 to |ms|
      invariant out == OnlyAfter(ms[..i], after)
    {
      assert ms[..i + 1][..i] == ms[..i];
      if ms[i].lt > after {
        out := out + [ms[i]];
      }
    }
    assert ms[..|ms|] == ms;
  }

  /** The first limit messages above after and not above watermark. */
  function FirstAfter(h: History, after: int, watermark: int, limit: int): History {
    if after >= watermark || limit <= 0 then []
    else
      var lo, hi := Below(h, after + 1), Below(h, watermark + 1);
      if hi < lo then [] else h[lo..Min(lo + limit, hi)]
  }

  lemma {:induction false} CountIsLength(ms: History, after: int)
    ensures CountAfter(ms, after) == |OnlyAfter(ms, after)|
  {
    if ms != [] {
      CountIsLength(ms[..|ms| - 1], after);
    }
  }

  lemma {:induction false} OnlyAfterLast(ms: History, m: Message, after: int)
    ensures OnlyAfter(ms + [m], after) == OnlyAfter(ms, after) + if m.lt > after then [m] else []
  {
    assert (ms + [m])[..|ms|] == ms;
  }

  /** Above after, of a stretch of the history: what lies behind the first such message. */
  lemma {:induction false} AfterSlice(h: History, i: nat, j: nat, lo: nat, after: int)
    requires i <= j <= |h| && lo <= |h|
    requires forall k :: 0 <= k < lo ==> h[k].lt <= after
    requires forall k :: lo <= k < |h| ==> h[k].lt > after
    ensures OnlyAfter(h[i..j], after) == (if j <= lo then [] else h[Max(i, lo)..j])
    decreases j - i
  {
    hide OnlyAfter;
    if i < j {
      AfterSlice(h, i, j - 1, lo, after);
      OnlyAfterLast(h[i..j - 1], h[j - 1], after);
      assert h[i..j] == h[i..j - 1] + [h[j - 1]];
      if j > lo {
        assert h[Max(i, lo)..j] == h[Max(i, lo)..j - 1] + [h[j - 1]];
      }
    } else {
      NoneAfter(after);
    }
  }

  lemma {:induction false} NoneAfter(after: int)
    ensures OnlyAfter([], after) == []
  {
  }

  lemma {:induction false} BelowSplits(h: History, after: int)
    requires Ascending(h)
    ensures forall k :: Below(h, after + 1) <= k < |h| ==> h[k].lt > after
  {
  }

  lemma {:induction false} BelowMonotone(h: History, x: int, y: int)
    requires Ascending(h) && x <= y
    ensures Below(h, x) <= Below(h, y)
    ensures y == x + 1 ==> Below(h, y) <= Below(h, x) + 1
  {
    assert y == x + 1 && Below(h, x) + 1 < |h| ==> h[Below(h, x)].lt < h[Below(h, x) + 1].lt;
  }

  /** What a backward page holds of the messages above after. */
  lemma {:induction false} PageAfter(h: History, after: int, before: int, limit: int)
    requires HistoryOk(h) && limit > 0 && before > after
    ensures var lo, hi := Below(h, after + 1), Below(h, before);
            && lo <= hi
            && CountAfter(PageBefore(h, before, limit), after) == Min(limit, hi - lo)
            && OnlyAfter(PageBefore(h, before, limit), after) == h[Max(lo, hi - limit)..hi]
  {
    hide OnlyAfter, CountAfter, Ascending;
    var lo, hi := Below(h, after + 1), Below(h, before);
    BelowMonotone(h, after + 1, before);
    CountIsLength(PageBefore(h, before, limit), after);
    NoneAfter(after);
    assert hi > 0 ==> h[0] in h;
    if before > 0 {
      BelowSplits(h, after);
      AfterSlice(h, Max(0, hi - limit), hi, lo, after);
    }
  }

  function Pow2(n: nat): nat { if n == 0 then 1 else 2 * Pow2(n - 1) }

  datatype Result<+T> = Ok(value: T) | Err(attempt: nat)

  /** The least cursor whose page still reaches limit messages above after is high; the
      page there is best. */
  ghost predicate Bracket(h: History, after: int, limit: int, low: int, high: int, best: History) {
    && after < low <= high && best == PageBefore(h, high, limit)
    && Below(h, high) - Below(h, after + 1) >= limit
    && (low == after + 1 || Below(h, low - 1) - Below(h, after + 1) < limit)
  }

  lemma {:induction false} BracketClosed(h: History, after: int, watermark: int, limit: int, high: int, best: History)
    requires HistoryOk(h) && limit > 0 && high <= watermark + 1
    requires Bracket(h, after, limit, high, high, best)
    ensures OnlyAfter(best, after) == FirstAfter(h, after, watermark, limit)
  {
    hide OnlyAfter, CountAfter, Ascending, PageBefore, Below;
    BelowMonotone(h, high - 1, high);
    BelowMonotone(h, high, watermark + 1);
    BelowMonotone(h, after + 1, high);
    PageAfter(h, after, high, limit);
  }

  /** readNextPage: exactly the first messages after the cursor, up to the watermark, from a
      read that only goes backward; fails says which reads fail. */
  method ReadNextPage(h: History, after: int, watermark: int, limit: int, fails: set<nat>) returns (r: Result<History>)
    requires HistoryOk(h)
    ensures r.Err? ==> r.attempt in fails
    ensures r.Ok? && watermark - after < Pow2(63) ==> r.value == FirstAfter(h, after, watermark, limit)
  {
    hide Pow2, Below, PageBefore, FirstAfter, OnlyAfter, CountAfter;
    if after >= watermark || limit <= 0 {
      NothingAfter(h, after, watermark, limit);
      return Ok([]);
    }
    var high := watermark + 1;
    if 0 in fails {
      return Err(0);
    }
    var best := ReadBefore(h, high, limit);
    PageAfter(h, after, high, limit);
    var n := CommittedAfter(best, after);
    if n < limit {
      AllAfter(h, after, watermark, limit);
      var out := FilterCommittedAfter(best, after);
      return Ok(out);
    }
    var low := after + 1;
    ghost var near := watermark - after < Pow2(63);
    for k := 0 to 64
      invariant Bracket(h, after, limit, low, high, best) && high <= watermark + 1
      invariant near ==> k <= 63 && high - low < Pow2(63 - k)
    {
      if low >= high {
        BracketClosed(h, after, watermark, limit, high, best);
        var out := FilterCommittedAfter(best, after);
        return Ok(out);
      }
      if k + 1 in fails {
        return Err(k + 1);
      }
      if near {
        Halves(63 - k, high - low);
      }
      var mid := low + (high - low) / 2;
      var page := ReadBefore(h, mid, limit);
      PageAfter(h, after, mid, limit);
      n := CommittedAfter(page, after);
      if n >= limit {
        high, best := mid, page;
      } else {
        low := mid + 1;
      }
    }
    var out := FilterCommittedAfter(best, after);
    return Ok(out);
  }

  /** A gap that is not yet closed halves. */
  lemma {:induction false} Halves(m: nat, gap: nat)
    requires 0 < gap < Pow2(m)
    ensures m > 0 && gap / 2 < Pow2(m - 1) && gap - gap / 2 - 1 < Pow2(m - 1)
  {
  }

  lemma NothingAfter(h: History, after: int, watermark: int, limit: int)
    requires after >= watermark || limit <= 0
    ensures FirstAfter(h, after, watermark, limit) == []
  {
  }

  lemma {:induction false} AllAfter(h: History, after: int, watermark: int, limit: int)
    requires HistoryOk(h) && limit > 0 && after < watermark
    requires CountAfter(PageBefore(h, watermark + 1, limit), after) < limit
    ensures OnlyAfter(PageBefore(h, watermark + 1, limit), after) == FirstAfter(h, after, watermark, limit)
  {
    hide OnlyAfter, CountAfter, Ascending, PageBefore, Below;
    PageAfter(h, after, watermark + 1, limit);
  }
}
