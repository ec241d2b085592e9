/** Who holds which connection, in every state of every run. */
module Ownership {
  import opened ThreadPool
  import opened PoolModel
  import PoolRuns
  import opened WorkerProtocol

  function HoldsConn(c: nat): Worker -> nat {
    (worker: Worker) => if worker.HasConnection? && worker.conn == c then 1 else 0
  }

  function HoldsSome(): Worker -> nat {
    (worker: Worker) => if worker.HasConnection? then 1 else 0
  }

  /** The used list holds each connection as often as workers hold it. */
  ghost predicate Owned(s: State) {
    && |s.pool.used| == Sum(s.workers, HoldsSome())
    && forall c: nat :: multiset(s.pool.used)[c] == Sum(s.workers, HoldsConn(c))
  }

  /** `used` changes by the connections that the move of one worker gives up and takes. */
  ghost predicate UsedFollows(s: State, t: State, before: Worker, after: Worker) {
    && |t.pool.used| + HoldsSome()(before) == |s.pool.used| + HoldsSome()(after)
    && forall c: nat :: multiset(t.pool.used)[c] + HoldsConn(c)(before) == multiset(s.pool.used)[c] + HoldsConn(c)(after)
  }

  lemma {:induction false} MoveKeepsOwned(s: State, t: State, w: nat, worker: Worker)
    requires Owned(s) && w < |s.workers| && t.workers == s.workers[w := worker]
    requires UsedFollows(s, t, s.workers[w], worker)
    ensures Owned(t)
  {
    SumUpdate(s.workers, HoldsSome(), w, worker);
    forall c: nat
      ensures multiset(t.pool.used)[c] == Sum(t.workers, HoldsConn(c))
    {
      SumUpdate(s.workers, HoldsConn(c), w, worker);
    }
  }

  lemma {:induction false} OneMoreUsed(used: seq<nat>, conn: nat)
    ensures forall c: nat :: multiset([conn] + used)[c] == multiset(used)[c] + if c == conn then 1 else 0
  {
    Uncons([conn] + used);
    assert ([conn] + used)[1..] == used;
  }

  lemma {:induction false} GetPoolKeepsOwned(s: State, e: Event)
    requires Owned(s) && Enabled(s, e) && e.GetPool?
    ensures Owned(Step(s, e))
  {
    var t := Step(s, e);
    AcquireHandsOut(s.pool, e.dead, e.connects, e.node);
    if t.workers[e.w].HasConnection? {
      OneMoreUsed(s.pool.used, t.workers[e.w].conn);
    }
    MoveKeepsOwned(s, t, e.w, t.workers[e.w]);
  }

  lemma {:induction false} ReleasePoolKeepsOwned(s: State, e: Event)
    requires Owned(s) && Enabled(s, e) && e.ReleasePool?
    ensures Owned(Step(s, e))
  {
    var t := Step(s, e);
    var conn := s.workers[e.w].conn;
    ReleaseTakesOne(s.pool, conn);
    assert t.pool == Release(s.pool, conn, false);
    MoveKeepsOwned(s, t, e.w, AtLoop);
  }

  lemma {:induction false} ReleaseTakesOne(p: Pool<nat>, conn: nat)
    requires conn in p.used
    ensures var q := Release(p, conn, false);
            && |q.used| + 1 == |p.used|
            && forall c: nat :: multiset(q.used)[c] + (if c == conn then 1 else 0) == multiset(p.used)[c]
  {
    TakeUsedMoves(p, conn);
    assert conn in multiset(p.used);
  }

  lemma {:induction false} StepKeepsOwned(s: State, e: Event)
    requires Owned(s) && Enabled(s, e)
    ensures Owned(Step(s, e)) && |Step(s, e).workers| == |s.workers|
  {
    if e.GetPool? {
      GetPoolKeepsOwned(s, e);
    } else if e.ReleasePool? {
      ReleasePoolKeepsOwned(s, e);
    } else if e.ByWorker() {
      MoveKeepsOwned(s, Step(s, e), e.w, Step(s, e).workers[e.w]);
    }
  }

  lemma {:induction false} InitiallyOwned(n: nat)
    ensures Owned(Initial(n))
  {
    SumZero(NewThreads(n), HoldsSome());
    forall c: nat ensures Sum(NewThreads(n), HoldsConn(c)) == 0 {
      SumZero(NewThreads(n), HoldsConn(c));
    }
  }

  lemma {:induction false} RunKeepsOwned(n: nat, es: seq<Event>)
    requires Legal(n, es)
    ensures Owned(After(n, es)) && |After(n, es).workers| == n
  {
    if es == [] {
      InitiallyOwned(n);
    } else {
      RunKeepsOwned(n, es[..|es| - 1]);
      StepKeepsOwned(After(n, es[..|es| - 1]), es[|es| - 1]);
    }
  }

  /** The used list is exactly what the workers hold, each connection held once, and none of it is free. */
  ghost predicate ExclusivelyHeld(s: State) {
    && (forall w | 0 <= w < |s.workers| && s.workers[w].HasConnection? ::
          s.workers[w].conn in s.pool.used && s.workers[w].conn !in s.pool.free)
    && (forall c | c in s.pool.used :: exists w :: 0 <= w < |s.workers| && Holds(s.workers[w], c))
    && (forall v, w | 0 <= v < w < |s.workers| && s.workers[v].HasConnection? && s.workers[w].HasConnection? ::
          s.workers[v].conn != s.workers[w].conn)
  }

  predicate Holds(worker: Worker, c: nat) {
    worker.HasConnection? && worker.conn == c
  }

  lemma {:induction false} OwnedIsExclusive(s: State)
    requires Owned(s) && Exclusive(s.pool)
    ensures ExclusivelyHeld(s)
  {
    forall w | 0 <= w < |s.workers| && s.workers[w].HasConnection?
      ensures s.workers[w].conn in s.pool.used && s.workers[w].conn !in s.pool.free
    {
      var c := s.workers[w].conn;
      SumUpdate(s.workers, HoldsConn(c), w, AtLoop);
      assert multiset(s.pool.used)[c] > 0;
      assert c in s.pool.Held();
    }
    forall c | c in s.pool.used
      ensures exists w :: 0 <= w < |s.workers| && Holds(s.workers[w], c)
    {
      assert multiset(s.pool.used)[c] > 0;
      var w := SumPositive(s.workers, HoldsConn(c));
      assert Holds(s.workers[w], c);
    }
    forall v, w | 0 <= v < w < |s.workers| && s.workers[v].HasConnection? && s.workers[w].HasConnection?
      ensures s.workers[v].conn != s.workers[w].conn
    {
      HeldOnce(s, v, w);
    }
  }

  lemma {:induction false} HeldOnce(s: State, v: nat, w: nat)
    requires Owned(s) && Exclusive(s.pool)
    requires v < w < |s.workers| && s.workers[v].HasConnection? && s.workers[w].HasConnection?
    ensures s.workers[v].conn != s.workers[w].conn
  {
    var c := s.workers[v].conn;
    SumUpdate(s.workers, HoldsConn(c), v, AtLoop);
    assert multiset(s.pool.used)[c] > 0;
    assert c in s.pool.Held();
    if c == s.workers[w].conn {
      SumOfTwo(s.workers, HoldsConn(c), v, w);
    }
  }

  // ---------- How many connections there can be ----------

  /** The pool calls made in a run, in order. */
  ghost function Calls(n: nat, es: seq<Event>): seq<PoolRuns.Op<nat>>
    requires Legal(n, es)
  {
    if es == [] then []
    else
      var before := Calls(n, es[..|es| - 1]);
      match es[|es| - 1]
      case GetPool(_, dead, connects, node) => before + [PoolRuns.Get(dead, connects, node)]
      case ReleasePool(w) => before + [PoolRuns.GiveBack(After(n, es[..|es| - 1]).workers[w].conn, false)]
      case _ => before
  }

  /** Every run of the workers is, for the pool, a run of GetPool and ReleasePool calls. */
  lemma {:induction false} CallsReachPool(n: nat, es: seq<Event>)
    requires Legal(n, es)
    ensures PoolRuns.Legal(Calls(n, es))
    ensures PoolRuns.After(Calls(n, es)) == After(n, es).pool
  {
    if es != [] {
      var prefix := es[..|es| - 1];
      CallsReachPool(n, prefix);
      var s, e := After(n, prefix), es[|es| - 1];
      if e.GetPool? {
        PoolRuns.RunExtends(Calls(n, prefix), PoolRuns.Get(e.dead, e.connects, e.node));
      } else if e.ReleasePool? {
        PoolRuns.RunExtends(Calls(n, prefix), PoolRuns.GiveBack(s.workers[e.w].conn, false));
      }
    }
  }

  /** At most as many connections are ever in use as there are workers. */
  lemma {:induction false} PeakWithinWorkers(n: nat, es: seq<Event>)
    requires Legal(n, es) && PoolRuns.Legal(Calls(n, es))
    ensures PoolRuns.Peak(Calls(n, es)) <= n
  {
    if es != [] {
      var prefix := es[..|es| - 1];
      CallsReachPool(n, prefix);
      PeakWithinWorkers(n, prefix);
      CallsReachPool(n, es);
      RunKeepsOwned(n, es);
      SumBound(After(n, es).workers, HoldsSome(), 1);
      if Calls(n, es) != Calls(n, prefix) {
        assert Calls(n, es)[..|Calls(n, es)| - 1] == Calls(n, prefix);
      }
    }
  }

  /**
    Exclusive ownership: in every reachable state the used list holds exactly the connections that
    workers hold, no two workers hold the same one, and none of them is free.
   */
  lemma {:induction false} ExclusiveOwnership(n: nat, es: seq<Event>)
    requires Legal(n, es)
    ensures ExclusivelyHeld(After(n, es))
  {
    RunKeepsOwned(n, es);
    CallsReachPool(n, es);
    PoolRuns.RunKeepsSound(Calls(n, es));
    OwnedIsExclusive(After(n, es));
  }

  /** A worker about to release is never held up: its connection is in the used list, as ReleasePool relies on. */
  lemma {:induction false} ReleaseAlwaysEnabled(n: nat, es: seq<Event>, w: nat)
    requires Legal(n, es) && w < |After(n, es).workers| && After(n, es).workers[w].HasConnection?
    ensures Enabled(After(n, es), ReleasePool(w))
  {
    ExclusiveOwnership(n, es);
  }

  /**
    Connection bound: whatever the interleaving, and however many connections die or fail to be
    made, the pool never holds more connections than were once held by workers at the same time,
    nor more than there are workers.
   */
  lemma {:induction false} PoolBoundedByWorkers(n: nat, es: seq<Event>)
    requires Legal(n, es)
    ensures PoolRuns.Legal(Calls(n, es))
    ensures After(n, es).pool.Count() <= PoolRuns.Peak(Calls(n, es)) <= n
  {
    CallsReachPool(n, es);
    PeakWithinWorkers(n, es);
    PoolRuns.PoolWithinPeak(Calls(n, es));
  }

  // ---------- That connections are kept ----------

  /** GetPool finds the connection on top of the free stack dead. */
  ghost predicate MeetsDead(s: State, e: Event) {
    e.GetPool? && e.dead && s.pool.free != []
  }

  /** GetPool needs a new connection and gets none. */
  ghost predicate FailsToMake(s: State, e: Event) {
    e.GetPool? && !e.connects && (e.dead || s.pool.free == [])
  }

  ghost function DeadMet(n: nat, es: seq<Event>): nat
    requires Legal(n, es)
  {
    if es == [] then 0
    else
      DeadMet(n, es[..|es| - 1]) + if MeetsDead(After(n, es[..|es| - 1]), es[|es| - 1]) then 1 else 0
  }

  ghost function FailedToMake(n: nat, es: seq<Event>): nat
    requires Legal(n, es)
  {
    if es == [] then 0
    else
      FailedToMake(n, es[..|es| - 1]) + if FailsToMake(After(n, es[..|es| - 1]), es[|es| - 1]) then 1 else 0
  }

  lemma {:induction false} StepGivesBack(s: State, e: Event)
    requires Enabled(s, e)
    ensures var p, q := s.pool, Step(s, e).pool;
            && q.failures == p.failures + (if FailsToMake(s, e) then 1 else 0)
            && |q.freed| == |p.freed| + (if MeetsDead(s, e) then 1 else 0) + (if FailsToMake(s, e) then 1 else 0)
  {
  }

  /**
    What the workers give back, exactly: a connection found dead when it was to be used again, and a
    block for which no connection could be made. Nothing else is ever destroyed.
   */
  lemma {:induction false} GivenBackExactly(n: nat, es: seq<Event>)
    requires Legal(n, es)
    ensures After(n, es).pool.failures == FailedToMake(n, es)
    ensures |After(n, es).pool.freed| == DeadMet(n, es) + FailedToMake(n, es)
  {
    if es != [] {
      GivenBackExactly(n, es[..|es| - 1]);
      StepGivesBack(After(n, es[..|es| - 1]), es[|es| - 1]);
    }
  }

  lemma {:induction false} StepKeepsCount(s: State, e: Event)
    requires Enabled(s, e)
    ensures var q := Step(s, e).pool;
            && s.pool.Count() <= q.Count() + (if MeetsDead(s, e) then 1 else 0)
            && (|q.used| <= |s.pool.used| || |q.used| <= q.Count())
  {
    if e.ReleasePool? {
      ReleaseTakesOne(s.pool, s.workers[e.w].conn);
    }
  }

  /** The pool falls short of the most ever in use at once by at most one for each connection found dead. */
  lemma {:induction false} PoolKeepsConnections(n: nat, es: seq<Event>)
    requires Legal(n, es) && PoolRuns.Legal(Calls(n, es))
    ensures PoolRuns.Peak(Calls(n, es)) <= After(n, es).pool.Count() + DeadMet(n, es)
  {
    if es != [] {
      var prefix := es[..|es| - 1];
      CallsReachPool(n, prefix);
      PoolKeepsConnections(n, prefix);
      CallsReachPool(n, es);
      StepKeepsCount(After(n, prefix), es[|es| - 1]);
      if Calls(n, es) != Calls(n, prefix) {
        assert Calls(n, es)[..|Calls(n, es)| - 1] == Calls(n, prefix);
      }
    }
  }

  lemma {:induction false} NoneMetDead(n: nat, es: seq<Event>)
    requires Legal(n, es) && forall i | 0 <= i < |es| :: es[i].GetPool? ==> !es[i].dead
    ensures DeadMet(n, es) == 0
  {
    if es != [] {
      NoneMetDead(n, es[..|es| - 1]);
    }
  }

  /** Connections that do not die are all kept: the pool is then exactly as large as the most ever in use at once. */
  lemma {:induction false} PoolIsPeak(n: nat, es: seq<Event>)
    requires Legal(n, es) && forall i | 0 <= i < |es| :: es[i].GetPool? ==> !es[i].dead
    ensures PoolRuns.Legal(Calls(n, es)) && After(n, es).pool.Count() == PoolRuns.Peak(Calls(n, es))
  {
    PoolBoundedByWorkers(n, es);
    PoolKeepsConnections(n, es);
    NoneMetDead(n, es);
  }

  /** With as many threads as an `int` can ask for, the counters report exactly in every reachable state. */
  lemma {:induction false} QuotasExactForAllRuns(n: nat, es: seq<Event>)
    requires Legal(n, es) && n <= 0x7FFF_FFFF
    ensures PoolRuns.ReportsExactly(After(n, es).pool)
  {
    PoolBoundedByWorkers(n, es);
    CallsReachPool(n, es);
    PoolRuns.QuotasExact(Calls(n, es));
  }
}
