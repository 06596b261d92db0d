/** Projecting a conversation for a provider, incrementally (internal/provider/projection.go). */
module Projection {
  import opened Message

  datatype Patch = Patch(put: map<string, string>, remove: seq<string>)

  type Snapshot = map<string, string>

  /** Snapshot.Apply: removing comes after setting. */
  function Patched(s: Snapshot, p: Patch): Snapshot { (s + p.put) - (set k | k in p.remove) }

  function AllPatched(s: Snapshot, ps: seq<Patch>): Snapshot {
    if ps == [] then s else Patched(AllPatched(s, ps[..|ps| - 1]), ps[|ps| - 1])
  }

  datatype Row = Row(lt: nat, msg: Message, patches: seq<Patch>)

  type Log = seq<Row>

  type Encoded = seq<string>

  datatype CacheEntry = CacheEntry(payload: Encoded, fingerprint: string)

  /** What a provider brings: its encoder, the state it builds, and where patches come from
      other than the message itself. */
  datatype Config<!T> = Config(
    fingerprint: string, initial: T,
    encode: (Row, Snapshot) -> Option<Encoded>,
    append: (T, Encoded, nat) -> T,
    patchesAt: Option<nat -> seq<Patch>>,
    appendFails: nat -> bool)

  datatype Incremental<T> = Incremental(state: T, chalkboard: Snapshot, fingerprint: string, entries: nat, lastLT: nat)

  datatype Stats = Stats(entries: nat, startIndex: nat, cached: nat, encoded: nat)

  // ----- From scratch, without a cache

  /** The row that the encoder sees. */
  function Dressed<T>(row: Row, c: Config<T>): Row {
    if c.patchesAt.Some? then row.(patches := c.patchesAt.value(row.lt)) else row
  }

  function SnapAfter<T>(log: Log, c: Config<T>): Snapshot {
    if log == [] then map[]
    else
      var snap, row := SnapAfter(log[..|log| - 1], c), log[|log| - 1];
      if row.msg.role == Genesis then snap else AllPatched(snap, Dressed(row, c).patches)
  }

  function EncodedAt<T>(log: Log, i: nat, c: Config<T>): Option<Encoded>
    requires i < |log|
  {
    c.encode(Dressed(log[i], c), SnapAfter(log[..i], c))
  }

  /** None as soon as some message cannot be encoded. */
  function Projected<T>(log: Log, c: Config<T>): Option<T> {
    if log == [] then Some(c.initial)
    else
      var n := |log| - 1;
      var state := Projected(log[..n], c);
      if state.None? || log[n].msg.role == Genesis then state
      else
        var e := EncodedAt(log, n, c);
        if e.None? then None
        else if e.value == [] then state
        else Some(c.append(state.value, e.value, log[n].lt))
  }

  function LastLT(log: Log): nat { if log == [] then 0 else log[|log| - 1].lt }

  /** p is the projection of the whole log, from scratch. */
  predicate Projects<T(==)>(p: Incremental<T>, log: Log, c: Config<T>) {
    && Projected(log, c) == Some(p.state)
    && p == Incremental(p.state, SnapAfter(log, c), c.fingerprint, |log|, LastLT(log))
  }

  // ----- The cache

  predicate Usable<T>(e: CacheEntry, c: Config<T>) {
    (e.fingerprint == "" || e.fingerprint == c.fingerprint) && e.payload != []
  }

  function Stored(cache: map<nat, CacheEntry>, lt: nat, e: CacheEntry): map<nat, CacheEntry> { cache[lt := e] }

  ghost predicate EntryAgrees<T>(cache: map<nat, CacheEntry>, log: Log, i: nat, c: Config<T>)
    requires i < |log|
  {
    var lt := log[i].lt;
    if log[i].msg.role != Genesis && lt in cache && Usable(cache[lt], c) then
      EncodedAt(log, i, c) == Some(cache[lt].payload)
    else true
  }

  /** Whatever the cache would serve for this log is what the encoder would make. */
  ghost predicate Agrees<T>(cache: map<nat, CacheEntry>, log: Log, c: Config<T>) {
    forall i: nat :: i < |log| ==> EntryAgrees(cache, log, i, c)
  }

  ghost predicate Rising(log: Log) { forall i, j | 0 <= i < j < |log| :: log[i].lt < log[j].lt }

  lemma {:induction false} EncodedInPrefix<T>(log: Log, n: nat, i: nat, c: Config<T>)
    requires i < n <= |log|
    ensures EncodedAt(log[..n], i, c) == EncodedAt(log, i, c)
  {
    assert log[..n][..i] == log[..i];
  }

  /** Storing what was just encoded keeps the cache in agreement. */
  lemma {:induction false} AgreesAfterStore<T>(cache: map<nat, CacheEntry>, log: Log, i: nat, e: CacheEntry,
      c: Config<T>)
    requires Rising(log) && Agrees(cache, log, c) && i < |log| && EncodedAt(log, i, c) == Some(e.payload)
    ensures Agrees(Stored(cache, log[i].lt, e), log, c)
  {
    hide EncodedAt;
    forall j: nat | j < |log| ensures EntryAgrees(Stored(cache, log[i].lt, e), log, j, c) {
      assert EntryAgrees(cache, log, j, c);
      assert j != i ==> log[j].lt != log[i].lt;
    }
  }

  // ----- Incrementally

  /** The watermark still fits the log. */
  predicate Resumable<T>(p: Incremental<T>, log: Log, c: Config<T>) {
    p.fingerprint == c.fingerprint && p.entries <= |log| && (p.entries == 0 || log[p.entries - 1].lt == p.lastLT)
  }

  function Spoken(log: Log): nat {
    if log == [] then 0 else Spoken(log[..|log| - 1]) + if log[|log| - 1].msg.role == Genesis then 0 else 1
  }

  class Cache {
    var entries: map<nat, CacheEntry>

    constructor ()
      ensures entries == map[]
    {
      entries := map[];
    }
  }

  method Patching(s: Snapshot, ps: seq<Patch>) returns (r: Snapshot)
    ensures r == AllPatched(s, ps)
  {
    r := s;
    for i := 0 to |ps|
      invariant r == AllPatched(s, ps[..i])
    {
      assert ps[..i + 1][..i] == ps[..i];
      r := Patched(r, ps[i]);
    }
    assert ps[..|ps|] == ps;
  }

  lemma {:induction false} OneRowMore<T>(log: Log, i: nat, c: Config<T>)
    requires i < |log|
    ensures (SnapAfter(log[..i + 1], c) ==
             if log[i].msg.role == Genesis then SnapAfter(log[..i], c)
             else AllPatched(SnapAfter(log[..i], c), Dressed(log[i], c).patches))
    ensures log[i].msg.role == Genesis ==> Projected(log[..i + 1], c) == Projected(log[..i], c)
    ensures (log[i].msg.role != Genesis && Projected(log[..i], c).Some? ==>
            var e := EncodedAt(log, i, c);
            Projected(log[..i + 1], c) ==
            if e.None? then None
            else if e.value == [] then Projected(log[..i], c)
            else Some(c.append(Projected(log[..i], c).value, e.value, log[i].lt)))
  {
    var more := log[..i + 1];
    assert more[..i] == log[..i];
    EncodedInPrefix(log, i + 1, i, c);
    hide AllPatched, EncodedAt;
  }

  lemma {:induction false} FailsForGood<T>(log: Log, n: nat, c: Config<T>)
    requires n <= |log| && Projected(log[..n], c).None?
    ensures Projected(log, c).None?
    decreases |log|
  {
    if n < |log| {
      assert log[..|log| - 1][..n] == log[..n];
      FailsForGood(log[..|log| - 1], n, c);
    } else {
      assert log[..n] == log;
    }
  }

  lemma {:induction false} SpokenSplits(log: Log, from: nat, i: nat)
    requires from <= i < |log|
    ensures Spoken(log[from..i + 1]) == Spoken(log[from..i]) + if log[i].msg.role == Genesis then 0 else 1
  {
    assert log[from..i + 1][..i - from] == log[from..i];
  }

  /** Where the cache serves an entry, it is what the encoder would have made. */
  lemma {:induction false} Served<T>(cache: map<nat, CacheEntry>, log: Log, i: nat, c: Config<T>)
    requires i < |log| && Agrees(cache, log, c) && log[i].msg.role != Genesis
    requires log[i].lt in cache && Usable(cache[log[i].lt], c)
    ensures EncodedAt(log, i, c) == Some(cache[log[i].lt].payload)
  {
    assert EntryAgrees(cache, log, i, c);
  }

  /** ProjectIncrementally: from whatever is kept of earlier calls, the projection of the log
      from scratch; whole is any log that this one is the beginning of. */
  method ProjectIncrementally<T(==)>(ghost whole: Log, log: Log, cache: Cache?, previous: Option<Incremental<T>>,
      c: Config<T>)
    returns (r: Option<Incremental<T>>, stats: Stats)
    requires Rising(whole) && log <= whole
    requires cache != null ==> Agrees(cache.entries, whole, c)
    requires (previous.Some? && Resumable(previous.value, log, c) ==>
              Projects(previous.value, log[..previous.value.entries], c))
    modifies cache
    ensures r.Some? ==> Projects(r.value, log, c)
    ensures r.None? <==> Projected(log, c).None?
    ensures cache != null ==> Agrees(cache.entries, whole, c)
    ensures stats.entries == |log|
    ensures (stats.startIndex ==
             (if previous.Some? && Resumable(previous.value, log, c) then previous.value.entries else 0))
    ensures r.Some? ==> stats.cached + stats.encoded == Spoken(log[stats.startIndex..])
  {
    hide Rising, Agrees, EncodedAt, SnapAfter, Projected, Spoken, AllPatched, Resumable;
    var state, snap: Snapshot, start := c.initial, map[], 0;
    EmptyProjection(log, c);
    if previous.Some? && Resumable(previous.value, log, c) {
      state, snap, start := previous.value.state, previous.value.chalkboard, previous.value.entries;
      ResumesInside(previous.value, log, c);
    }
    var cached, encoded := 0, 0;
    EmptySpoken(log, start);
    for i := start to |log|
      invariant Projected(log[..i], c) == Some(state) && snap == SnapAfter(log[..i], c)
      invariant cache != null ==> Agrees(cache.entries, whole, c)
      invariant cached + encoded == Spoken(log[start..i])
    {
      OneRowMore(log, i, c);
      SpokenSplits(log, start, i);
      InWhole(whole, log, i, c);
      if log[i].msg.role == Genesis {
        continue;
      }
      var row := Dressed(log[i], c);
      var made: Option<Encoded> := None;
      if cache != null && log[i].lt in cache.entries && Usable(cache.entries[log[i].lt], c) {
        Served(cache.entries, whole, i, c);
        made := Some(cache.entries[log[i].lt].payload);
        cached := cached + 1;
      }
      if made.None? {
        made := c.encode(row, snap);
        assert made == EncodedAt(log, i, c) by { EncodedHere(log, i, c); }
        if made.None? {
          FailsForGood(log, i + 1, c);
          return None, Stats(|log|, start, cached, encoded);
        }
        encoded := encoded + 1;
        if cache != null && made.value != [] && !c.appendFails(log[i].lt) {
          AgreesAfterStore(cache.entries, whole, i, CacheEntry(made.value, c.fingerprint), c);
          cache.entries := Stored(cache.entries, log[i].lt, CacheEntry(made.value, c.fingerprint));
        }
      }
      if made.value != [] {
        state := c.append(state, made.value, log[i].lt);
      }
      snap := Patching(snap, row.patches);
    }
    assert log[..|log|] == log && log[start..|log|] == log[start..];
    var last := if |log| > 0 then log[|log| - 1].lt else 0;
    return Some(Incremental(state, snap, c.fingerprint, |log|, last)), Stats(|log|, start, cached, encoded);
  }

  lemma EncodedHere<T>(log: Log, i: nat, c: Config<T>)
    requires i < |log|
    ensures EncodedAt(log, i, c) == c.encode(Dressed(log[i], c), SnapAfter(log[..i], c))
  {
  }

  lemma {:induction false} InWhole<T>(whole: Log, log: Log, i: nat, c: Config<T>)
    requires log <= whole && i < |log|
    ensures whole[i] == log[i] && EncodedAt(whole, i, c) == EncodedAt(log, i, c)
  {
    assert log == whole[..|log|];
    EncodedInPrefix(whole, |log|, i, c);
  }

  lemma EmptyProjection<T>(log: Log, c: Config<T>)
    ensures Projected(log[..0], c) == Some(c.initial) && SnapAfter(log[..0], c) == map[]
  {
  }

  lemma EmptySpoken(log: Log, start: nat)
    requires start <= |log|
    ensures Spoken(log[start..start]) == 0
  {
  }

  lemma ResumesInside<T>(p: Incremental<T>, log: Log, c: Config<T>)
    requires Resumable(p, log, c)
    ensures p.entries <= |log|
  {
  }

  /** What one call leaves behind is what a later call needs, whether the log has grown since
      or is read at an earlier cut. */
  lemma {:induction false} StaysResumable<T>(p: Incremental<T>, whole: Log, m: nat, n: nat, c: Config<T>)
    requires Rising(whole) && m <= |whole| && n <= |whole| && Projects(p, whole[..m], c)
    ensures Resumable(p, whole[..n], c) <==> m <= n
    ensures m <= n ==> Projects(p, whole[..n][..p.entries], c)
  {
    hide Projected, SnapAfter;
    if m <= n {
      assert whole[..n][..m] == whole[..m];
    }
  }

  /** Any sequence of calls over cuts of one log, each resuming from the last that went
      through: the end result is that of one pass over the last such cut. */
  method Calls<T(==)>(whole: Log, cuts: seq<nat>, cache: Cache?, c: Config<T>)
    returns (p: Option<Incremental<T>>, last: nat)
    requires Rising(whole) && forall i :: 0 <= i < |cuts| ==> cuts[i] <= |whole|
    requires cache != null ==> Agrees(cache.entries, whole, c)
    modifies cache
    ensures last <= |whole| && (p.Some? ==> Projects(p.value, whole[..last], c))
    ensures p.Some? && |cuts| > 0 && Projected(whole[..cuts[|cuts| - 1]], c).Some? ==> last == cuts[|cuts| - 1]
    ensures |cuts| > 0 && Projected(whole[..cuts[|cuts| - 1]], c).Some? ==> p.Some?
  {
    hide Rising, Agrees, Projected, Projects, Resumable;
    p, last := None, 0;
    for i := 0 to |cuts|
      invariant last <= |whole| && (p.Some? ==> Projects(p.value, whole[..last], c))
      invariant cache != null ==> Agrees(cache.entries, whole, c)
      invariant i > 0 && Projected(whole[..cuts[i - 1]], c).Some? ==> p.Some? && last == cuts[i - 1]
    {
      if p.Some? {
        StaysResumable(p.value, whole, last, cuts[i], c);
      }
      var r, _ := ProjectIncrementally(whole, whole[..cuts[i]], cache, p, c);
      if r.Some? {
        p, last := r, cuts[i];
      }
    }
  }
}
