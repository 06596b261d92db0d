/** The lock table of the file tools (internal/tool/filelock.go): per file one reference
    counted mutex, with the four atomic steps of a locked section interleaved freely. */
module FileLock {
  type Key(==) = seq<char>
  type Thread = nat

  /** A fileMutex: its count, and whether the inner mutex is locked; it does not know by whom. */
  datatype Mutex = Mutex(refCount: int, locked: bool)

  /** Between the table steps a thread waits, is inside, or has let go of the mutex. */
  datatype Phase = Waiting | Inside | Leaving

  datatype Use = Use(key: Key, mutex: nat, phase: Phase)

  /** Every mutex ever made, the table that names some of them, and the threads in a section. */
  datatype State = State(mutexes: seq<Mutex>, table: map<Key, nat>, active: map<Thread, Use>)

  const INITIAL := State([], map[], map[])

  datatype Step = Register(t: Thread, key: Key) | Lock(t: Thread) | Unlock(t: Thread) | Release(t: Thread)

  predicate InPhase(s: State, t: Thread, phase: Phase) {
    t in s.active && s.active[t].phase == phase && s.active[t].mutex < |s.mutexes|
  }

  predicate Enabled(s: State, step: Step) {
    match step
    case Register(t, key) => t !in s.active && (key in s.table ==> s.table[key] < |s.mutexes|)
    case Lock(t) => InPhase(s, t, Waiting) && !s.mutexes[s.active[t].mutex].locked
    case Unlock(t) => InPhase(s, t, Inside)
    case Release(t) => InPhase(s, t, Leaving)
  }

  function Next(s: State, step: Step): State
    requires Enabled(s, step)
  {
    match step
    case Register(t, key) =>
      // the table half of acquireFileMutex
      var (m, mutexes, table) :=
        if key in s.table then (s.table[key], s.mutexes, s.table)
        else (|s.mutexes|, s.mutexes + [Mutex(0, false)], s.table[key := |s.mutexes|]);
      State(mutexes[m := mutexes[m].(refCount := mutexes[m].refCount + 1)], table, s.active[t := Use(key, m, Waiting)])
    case Lock(t) =>
      var m := s.active[t].mutex;
      s.(mutexes := s.mutexes[m := s.mutexes[m].(locked := true)],
          active := s.active[t := s.active[t].(phase := Inside)])
    case Unlock(t) =>
      var m := s.active[t].mutex;
      s.(mutexes := s.mutexes[m := s.mutexes[m].(locked := false)],
          active := s.active[t := s.active[t].(phase := Leaving)])
    case Release(t) =>
      // the table half of releaseFileMutex
      var m, key := s.active[t].mutex, s.active[t].key;
      var n := s.mutexes[m].refCount - 1;
      State(s.mutexes[m := s.mutexes[m].(refCount := n)], if n == 0 then s.table - {key} else s.table, s.active - {t})
  }

  /** The threads between the two table steps of this mutex. */
  function Users(active: map<Thread, Use>, m: nat): set<Thread> { set t | t in active && active[t].mutex == m }

  /** Those of them that are in the critical section. */
  function Insiders(active: map<Thread, Use>, m: nat): set<Thread> {
    set t | t in active && active[t].mutex == m && active[t].phase == Inside
  }

  predicate UseOk(s: State, t: Thread)
    requires t in s.active
  {
    var u := s.active[t];
    u.key in s.table && s.table[u.key] == u.mutex
  }

  predicate MutexOk(s: State, m: nat)
    requires m < |s.mutexes|
  {
    && s.mutexes[m].refCount == |Users(s.active, m)|
    && |Insiders(s.active, m)| == if s.mutexes[m].locked then 1 else 0
  }

  /** A table entry is there exactly while its count is positive, and two keys never share
      a mutex. */
  ghost predicate Inv(s: State) {
    && (forall k :: k in s.table ==> s.table[k] < |s.mutexes| && s.mutexes[s.table[k]].refCount > 0)
    && (forall k, l :: k in s.table && l in s.table && s.table[k] == s.table[l] ==> k == l)
    && (forall t :: t in s.active ==> UseOk(s, t))
    && (forall m: nat :: m < |s.mutexes| ==> MutexOk(s, m))
  }

  lemma Started()
    ensures Inv(INITIAL)
  {
  }

  function One(b: bool): nat { if b then 1 else 0 }

  function UserCount(active: map<Thread, Use>, t: Thread, m: nat): nat { One(t in active && active[t].mutex == m) }

  function InsiderCount(active: map<Thread, Use>, t: Thread, m: nat): nat {
    One(t in active && active[t].mutex == m && active[t].phase == Inside)
  }

  /** Taking one thread out. */
  lemma {:induction false} UsersWithout(a: map<Thread, Use>, t: Thread, m: nat)
    ensures |Users(a, m)| == |Users(a - {t}, m)| + UserCount(a, t, m)
  {
    assert Users(a - {t}, m) == Users(a, m) - {t};
    assert UserCount(a, t, m) == One(t in Users(a, m));
  }

  lemma {:induction false} InsidersWithout(a: map<Thread, Use>, t: Thread, m: nat)
    ensures |Insiders(a, m)| == |Insiders(a - {t}, m)| + InsiderCount(a, t, m)
  {
    assert Insiders(a - {t}, m) == Insiders(a, m) - {t};
    assert InsiderCount(a, t, m) == One(t in Insiders(a, m));
  }

  /** A mutex that is new has no users yet. */
  lemma {:induction false} Unused(s: State)
    requires Inv(s)
    ensures Users(s.active, |s.mutexes|) == {} && Insiders(s.active, |s.mutexes|) == {}
  {
    forall t | t in s.active ensures s.active[t].mutex < |s.mutexes| {
      assert UseOk(s, t);
    }
  }

  lemma {:induction false} MutexAfter(s: State, step: Step, m: nat)
    requires Inv(s) && Enabled(s, step) && m < |Next(s, step).mutexes|
    ensures MutexOk(Next(s, step), m)
  {
    hide Users, Insiders, Next, Enabled, UserCount, InsiderCount;
    OthersStay(s, step);
    UsersWithout(s.active, step.t, m);
    UsersWithout(Next(s, step).active, step.t, m);
    InsidersWithout(s.active, step.t, m);
    InsidersWithout(Next(s, step).active, step.t, m);
    Unused(s);
    assert m < |s.mutexes| ==> MutexOk(s, m);
    hide Inv;
    CountAfter(s, step, m);
    LockedAfter(s, step, m);
  }

  lemma OthersStay(s: State, step: Step)
    requires Enabled(s, step)
    ensures s.active - {step.t} == Next(s, step).active - {step.t}
  {
  }

  /** A count changes with the thread that steps. */
  lemma {:induction false} CountAfter(s: State, step: Step, m: nat)
    requires Enabled(s, step) && m < |Next(s, step).mutexes|
    ensures m <= |s.mutexes|
    ensures (Next(s, step).mutexes[m].refCount
             == (if m < |s.mutexes| then s.mutexes[m].refCount - UserCount(s.active, step.t, m) else 0)
                + UserCount(Next(s, step).active, step.t, m))
  {
    match step {
      case Register(_, _) =>
      case Lock(_) =>
      case Unlock(_) =>
      case Release(_) =>
    }
  }

  /** And a lock with the one that takes or leaves it. */
  lemma {:induction false} LockedAfter(s: State, step: Step, m: nat)
    requires Enabled(s, step) && m < |Next(s, step).mutexes|
    requires m < |s.mutexes| ==> InsiderCount(s.active, step.t, m) <= One(s.mutexes[m].locked)
    ensures (One(Next(s, step).mutexes[m].locked)
             == (if m < |s.mutexes| then One(s.mutexes[m].locked) - InsiderCount(s.active, step.t, m) else 0)
                + InsiderCount(Next(s, step).active, step.t, m))
  {
    match step {
      case Register(_, _) =>
      case Lock(_) =>
      case Unlock(_) =>
      case Release(_) =>
    }
  }

  /** A count of one means one thread. */
  lemma LastUser(s: State, m: nat, t: Thread, u: Thread)
    requires t in Users(s.active, m) && u in Users(s.active, m) && |Users(s.active, m)| == 1
    ensures t == u
  {
    assert |Users(s.active, m) - {t}| == 0;
  }

  lemma {:induction false} StepKeepsInv(s: State, step: Step)
    requires Inv(s) && Enabled(s, step)
    ensures Inv(Next(s, step))
  {
    hide MutexOk, Enabled;
    var n := Next(s, step);
    forall m: nat | m < |n.mutexes| ensures MutexOk(n, m) {
      MutexAfter(s, step, m);
    }
    UsesAfter(s, step);
    TableAfter(s, step);
  }

  lemma {:induction false} UsesAfter(s: State, step: Step)
    requires Inv(s) && Enabled(s, step)
    ensures forall t :: t in Next(s, step).active ==> UseOk(Next(s, step), t)
  {
    var n := Next(s, step);
    forall t | t in n.active ensures UseOk(n, t) {
      if step.Release? {
        var m := s.active[step.t].mutex;
        assert MutexOk(s, m) && UseOk(s, t) && UseOk(s, step.t);
        assert step.t in Users(s.active, m);
        if s.active[t].mutex == m && s.mutexes[m].refCount == 1 {
          assert t in Users(s.active, m);
          LastUser(s, m, t, step.t);
        }
      } else if t != step.t {
        assert UseOk(s, t);
      } else if !step.Register? {
        assert UseOk(s, t);
      }
    }
  }

  lemma {:induction false} TableAfter(s: State, step: Step)
    requires Inv(s) && Enabled(s, step)
    ensures var n := Next(s, step);
            && (forall k :: k in n.table ==> n.table[k] < |n.mutexes| && n.mutexes[n.table[k]].refCount > 0)
            && (forall k, l :: k in n.table && l in n.table && n.table[k] == n.table[l] ==> k == l)
  {
    hide MutexOk;
    var n := Next(s, step);
    if !step.Register? {
      assert UseOk(s, step.t);
    }
  }

  // ----- Every run

  predicate Runs(s: State, steps: seq<Step>)
    decreases |steps|
  {
    steps == [] || (Enabled(s, steps[0]) && Runs(Next(s, steps[0]), steps[1..]))
  }

  function After(s: State, steps: seq<Step>): State
    requires Runs(s, steps)
    decreases |steps|
  {
    if steps == [] then s else After(Next(s, steps[0]), steps[1..])
  }

  lemma {:induction false} RunKeepsInv(s: State, steps: seq<Step>)
    requires Inv(s) && Runs(s, steps)
    ensures Inv(After(s, steps))
    decreases |steps|
  {
    if steps != [] {
      StepKeepsInv(s, steps[0]);
      RunKeepsInv(Next(s, steps[0]), steps[1..]);
    }
  }

  /** After any interleaving at most one thread is inside per key. */
  lemma {:induction false} Excludes(steps: seq<Step>, t: Thread, u: Thread)
    requires Runs(INITIAL, steps)
    requires InPhase(After(INITIAL, steps), t, Inside) && InPhase(After(INITIAL, steps), u, Inside)
    requires After(INITIAL, steps).active[t].key == After(INITIAL, steps).active[u].key
    ensures t == u
  {
    Started();
    RunKeepsInv(INITIAL, steps);
    var s := After(INITIAL, steps);
    var m := s.active[t].mutex;
    assert UseOk(s, t) && UseOk(s, u) && MutexOk(s, m);
    assert t in Insiders(s.active, m) && u in Insiders(s.active, m);
    assert t != u ==> |Insiders(s.active, m) - {t}| == 0;
  }

  /** An entry stays exactly as long as some thread uses its key, and all of these share the
      one mutex that the entry names. */
  lemma {:induction false} EntryIffUsed(steps: seq<Step>, k: Key)
    requires Runs(INITIAL, steps)
    ensures (k in After(INITIAL, steps).table <==>
             exists t :: t in After(INITIAL, steps).active && After(INITIAL, steps).active[t].key == k)
    ensures k in After(INITIAL, steps).table ==> After(INITIAL, steps).table[k] < |After(INITIAL, steps).mutexes|
    ensures (k in After(INITIAL, steps).table ==>
             After(INITIAL, steps).mutexes[After(INITIAL, steps).table[k]].refCount ==
             |Users(After(INITIAL, steps).active, After(INITIAL, steps).table[k])|)
    ensures (forall t :: t in After(INITIAL, steps).active && After(INITIAL, steps).active[t].key == k ==>
             k in After(INITIAL, steps).table &&
             After(INITIAL, steps).table[k] == After(INITIAL, steps).active[t].mutex)
  {
    Started();
    RunKeepsInv(INITIAL, steps);
    var s := After(INITIAL, steps);
    if k in s.table {
      var m := s.table[k];
      assert MutexOk(s, m);
      assert Users(s.active, m) != {};
      var t :| t in Users(s.active, m);
      assert UseOk(s, t);
    }
  }

  /** Nobody waits for ever for want of an enabled step: while a thread waits, it or another
      thread of the same key can move. */
  lemma {:induction false} NoDeadlock(steps: seq<Step>, t: Thread) returns (step: Step)
    requires Runs(INITIAL, steps) && t in After(INITIAL, steps).active
    ensures !step.Register? && step.t in After(INITIAL, steps).active && Enabled(After(INITIAL, steps), step)
    ensures After(INITIAL, steps).active[step.t].key == After(INITIAL, steps).active[t].key
  {
    Started();
    RunKeepsInv(INITIAL, steps);
    var s := After(INITIAL, steps);
    var m := s.active[t].mutex;
    assert UseOk(s, t) && MutexOk(s, m);
    match s.active[t].phase
    case Inside => step := Unlock(t);
    case Leaving => step := Release(t);
    case Waiting =>
      if s.mutexes[m].locked {
        assert Insiders(s.active, m) != {};
        var u :| u in Insiders(s.active, m);
        assert UseOk(s, u);
        step := Unlock(u);
      } else {
        step := Lock(t);
      }
  }

  // ----- The table itself

  class LockTable {
    var mutexes: seq<Mutex>
    var table: map<Key, nat>
    var active: map<Thread, Use>

    function View(): State
      reads this
    {
      State(mutexes, table, active)
    }

    constructor ()
      ensures View() == INITIAL
    {
      mutexes, table, active := [], map[], map[];
    }

    /** acquireFileMutex, up to the unlocking of the table. */
    method Register(t: Thread, key: Key) returns (m: nat)
      requires Enabled(View(), Step.Register(t, key))
      modifies this
      ensures View() == Next(old(View()), Step.Register(t, key)) && active[t].mutex == m
    {
      if key in table {
        m := table[key];
      } else {
        m := |mutexes|;
        mutexes := mutexes + [Mutex(0, false)];
        table := table[key := m];
      }
      mutexes := mutexes[m := mutexes[m].(refCount := mutexes[m].refCount + 1)];
      active := active[t := Use(key, m, Waiting)];
    }

    method Lock(t: Thread)
      requires Enabled(View(), Step.Lock(t))
      modifies this
      ensures View() == Next(old(View()), Step.Lock(t))
    {
      var m := active[t].mutex;
      mutexes := mutexes[m := mutexes[m].(locked := true)];
      active := active[t := active[t].(phase := Inside)];
    }

    method Unlock(t: Thread)
      requires Enabled(View(), Step.Unlock(t))
      modifies this
      ensures View() == Next(old(View()), Step.Unlock(t))
    {
      var m := active[t].mutex;
      mutexes := mutexes[m := mutexes[m].(locked := false)];
      active := active[t := active[t].(phase := Leaving)];
    }

    /** releaseFileMutex, after the mutex is let go. */
    method Release(t: Thread)
      requires Enabled(View(), Step.Release(t))
      modifies this
      ensures View() == Next(old(View()), Step.Release(t))
    {
      var m, key := active[t].mutex, active[t].key;
      mutexes := mutexes[m := mutexes[m].(refCount := mutexes[m].refCount - 1)];
      if mutexes[m].refCount == 0 {
        table := table - {key};
      }
      active := active - {t};
    }
  }
}
