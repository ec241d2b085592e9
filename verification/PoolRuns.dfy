/** Whole runs of GetPool and ReleasePool calls, from construction up to Shutdown. */
module PoolRuns {
  import opened Wrappers
  import opened SizeT
  import opened PoolModel

  datatype Op<C> =
    | Get(dead: bool, connects: bool, node: C)
    | GiveBack(conn: C, isDelete: bool)

  /** The allocator does not hand out a block still listed, and only connections in use are released. */
  ghost predicate Enabled<C>(p: Pool<C>, op: Op<C>) {
    match op
    case Get(dead, _, node) => Obtainable(p, dead, node)
    case GiveBack(c, _) => c in p.used
  }

  ghost function Apply<C>(p: Pool<C>, op: Op<C>): Pool<C>
    requires Enabled(p, op)
  {
    match op
    case Get(dead, connects, node) => Acquire(p, dead, connects, node).0
    case GiveBack(c, isDelete) => Release(p, c, isDelete)
  }

  ghost predicate Legal<C>(ops: seq<Op<C>>)
    decreases |ops|, 0
  {
    ops == [] || (Legal(ops[..|ops| - 1]) && Enabled(After(ops[..|ops| - 1]), ops[|ops| - 1]))
  }

  /** The pool after a run that starts from a newly constructed one. */
  ghost function After<C>(ops: seq<Op<C>>): Pool<C>
    requires Legal(ops)
    decreases |ops|, 1
  {
    if ops == [] then EmptyPool() else Apply(After(ops[..|ops| - 1]), ops[|ops| - 1])
  }

  /** The greatest number of connections in use at any moment of the run. */
  ghost function Peak<C>(ops: seq<Op<C>>): nat
    requires Legal(ops)
  {
    if ops == [] then 0
    else
      var before, now := Peak(ops[..|ops| - 1]), |After(ops).used|;
      if before < now then now else before
  }

  lemma {:induction false} RunExtends<C>(ops: seq<Op<C>>, op: Op<C>)
    requires Legal(ops) && Enabled(After(ops), op)
    ensures Legal(ops + [op]) && After(ops + [op]) == Apply(After(ops), op)
  {
    assert (ops + [op])[..|ops|] == ops;
  }

  lemma {:induction false} RunKeepsSound<C>(ops: seq<Op<C>>)
    requires Legal(ops)
    ensures Sound(After(ops))
  {
    if ops != [] {
      var prefix := ops[..|ops| - 1];
      RunKeepsSound(prefix);
      match ops[|ops| - 1]
      case Get(dead, connects, node) => AcquireKeepsSound(After(prefix), dead, connects, node);
      case GiveBack(c, isDelete) => ReleaseKeepsSound(After(prefix), c, isDelete);
    }
  }

  /** The pool never holds more connections than were once in use at the same time, whatever dies or fails. */
  lemma {:induction false} PoolWithinPeak<C>(ops: seq<Op<C>>)
    requires Legal(ops)
    ensures |After(ops).used| <= Peak(ops)
    ensures After(ops).Count() <= Peak(ops)
  {
    if ops != [] {
      PoolWithinPeak(ops[..|ops| - 1]);
    }
  }

  /** What GetProcessMemoryInfo reports while the connections can be counted at all. */
  ghost predicate ReportsExactly<C>(p: Pool<C>) {
    && p.pagedQuota == |p.used|
    && p.nonPagedQuota == |p.free|
    && p.workingSet == Wrap(p.Count() - p.failures)
    && (p.workingSet == p.Count() <==> Wrap(p.failures) == 0)
  }

  lemma {:induction false} CountedReportsExactly<C>(p: Pool<C>)
    requires Counted(p) && p.Count() < SIZE_T_RANGE
    ensures ReportsExactly(p)
  {
    WrapSmall(|p.used|);
    WrapSmall(|p.free|);
    Solve(p.workingSet, p.failures, p.Count());
    DeficitShows(p.Count(), p.failures);
  }

  /** In every run that never has 2^32 connections in use at once, the counters report exactly. */
  lemma {:induction false} QuotasExact<C>(ops: seq<Op<C>>)
    requires Legal(ops) && Peak(ops) < SIZE_T_RANGE
    ensures ReportsExactly(After(ops))
  {
    RunKeepsSound(ops);
    PoolWithinPeak(ops);
    CountedReportsExactly(After(ops));
  }

  /** One allocation that fails, on a new pool, leaves no connection and a working set of 2^32 - 1. */
  lemma {:induction false} FailureLeavesDeficit<C>(node: C)
    ensures var ops := [Get(false, false, node)];
            Legal(ops) && After(ops).Count() == 0 && After(ops).workingSet == 0xFFFF_FFFF
  {
    var none: seq<Op<C>> := [];
    RunExtends(none, Get(false, false, node));
    assert none + [Get(false, false, node)] == [Get(false, false, node)];
  }

  /** No decrement of a quota wraps: a release finds the paged quota positive, a GetPool that takes a connection the other one. */
  lemma {:induction false} DecrementsDoNotWrap<C>(ops: seq<Op<C>>)
    requires Legal(ops) && Peak(ops) < SIZE_T_RANGE
    ensures var p := After(ops);
            && (forall c, isDelete :: c in p.used ==> Release(p, c, isDelete).pagedQuota == p.pagedQuota - 1)
            && (p.free != [] ==> PopFree(p).nonPagedQuota == p.nonPagedQuota - 1)
  {
    QuotasExact(ops);
    ExactDecrements(After(ops));
  }

  lemma {:induction false} ExactDecrements<C>(p: Pool<C>)
    requires p.pagedQuota == |p.used| && p.nonPagedQuota == |p.free|
    ensures p.used != [] ==> Dec(p.pagedQuota) == p.pagedQuota - 1
    ensures p.free != [] ==> Dec(p.nonPagedQuota) == p.nonPagedQuota - 1
  {
    if p.used != [] {
      WrapSmall(|p.used| - 1);
    }
    if p.free != [] {
      WrapSmall(|p.free| - 1);
    }
  }

  /**
    Shutdown gives back every node ever obtained, once per allocation, and the working set then
    reads zero exactly when the failed allocations left no deficit. A second Shutdown changes nothing.
   */
  lemma {:induction false} ShutdownGivesAllBack<C>(ops: seq<Op<C>>)
    requires Legal(ops)
    ensures var p, q := After(ops), Drained(After(ops));
            && multiset(q.freed) == multiset(p.created)
            && (q.workingSet == 0 <==> Wrap(p.failures) == 0)
            && q.pagedQuota == p.pagedQuota && q.nonPagedQuota == p.nonPagedQuota
            && Drained(q) == q
  {
    RunKeepsSound(ops);
    DrainedBalances(After(ops));
    DrainedTwice(After(ops));
  }

  lemma {:induction false} DrainedBalances<C>(p: Pool<C>)
    requires WorkingSetIs(p, p.Count())
    ensures Drained(p).workingSet == 0 <==> Wrap(p.failures) == 0
  {
    Solve(p.workingSet, p.failures, p.Count());
    WrapAbsorbs(p.Count() - p.failures, 0 - p.Count());
    DeficitShows(0, p.failures);
  }

  lemma {:induction false} DrainedTwice<C>(p: Pool<C>)
    ensures Drained(Drained(p)) == Drained(p)
  {
    var q := Drained(p);
    assert q.freed + [] + [] == q.freed;
    WrapSmall(q.workingSet);
  }

  // ---------- The free list is a stack ----------

  /** Taking a live connection right after releasing one undoes the release, up to the order of the used list. */
  lemma {:induction false} ReleaseThenAcquire<C>(p: Pool<C>, c: C, connects: bool, node: C)
    requires Counted(p) && c in p.used
    ensures var (q, got) := Acquire(Release(p, c, false), false, connects, node);
            && got == Some(c)
            && multiset(q.used) == multiset(p.used)
            && q == p.(used := q.used)
  {
    var r := Release(p, c, false);
    var (q, got) := Acquire(r, false, connects, node);
    ReleaseMoves(p, c, false);
    ReleaseCounts(p, c, false);
    Uncons(q.used);
    assert q.used[1..] == r.used;
    AcquireCounts(r, false, connects, node);
    assert |q.used| == |p.used|;
  }

  /**
    If the connection just released turns out dead, that one is given back and a new one is tried;
    the other free connections, live or not, are left where they are.
   */
  lemma {:induction false} ReleaseThenAcquireDead<C>(p: Pool<C>, c: C, connects: bool, node: C)
    requires c in p.used
    ensures var (q, got) := Acquire(Release(p, c, false), true, connects, node);
            && got == (if connects then Some(node) else None)
            && q.free == p.free
            && q.freed == p.freed + (if connects then [c] else [c, node])
            && multiset(q.used) == multiset(p.used) - multiset{c} + (if connects then multiset{node} else multiset{})
  {
    var (q, got) := Acquire(Release(p, c, false), true, connects, node);
    TakeUsedMoves(p, c);
    if connects {
      Uncons(q.used);
      assert q.used[1..] == TakeUsed(p, c).used;
    }
  }

  ghost function Reversed<C>(s: seq<C>): seq<C> {
    if s == [] then [] else Reversed(s[1..]) + [s[0]]
  }

  lemma {:induction false} RestInUse<C>(p: Pool<C>, cs: seq<C>)
    requires cs != [] && multiset(cs) <= multiset(p.used)
    ensures cs[0] in p.used && multiset(cs[1..]) <= multiset(Release(p, cs[0], false).used)
    ensures multiset(Release(p, cs[0], false).used) - multiset(cs[1..]) == multiset(p.used) - multiset(cs)
  {
    Uncons(cs);
    assert cs[0] in multiset(p.used);
    TakeUsedMoves(p, cs[0]);
  }

  ghost function ReleaseAll<C>(p: Pool<C>, cs: seq<C>): Pool<C>
    requires multiset(cs) <= multiset(p.used)
    decreases |cs|
  {
    if cs == [] then p
    else
      RestInUse(p, cs);
      ReleaseAll(Release(p, cs[0], false), cs[1..])
  }

  lemma {:induction false} Regroup<C>(a: seq<C>, b: seq<C>, c: seq<C>)
    ensures a + (b + c) == a + b + c
  {
  }

  /** Connections released one after another stand on the free stack last one first, above those already there. */
  lemma {:induction false} ReleasedInReverse<C>(p: Pool<C>, cs: seq<C>)
    requires multiset(cs) <= multiset(p.used)
    ensures ReleaseAll(p, cs).free == Reversed(cs) + p.free
    decreases |cs|
  {
    if cs == [] {
      assert [] + p.free == p.free;
    } else {
      RestInUse(p, cs);
      ReleasedInReverse(Release(p, cs[0], false), cs[1..]);
      Regroup(Reversed(cs[1..]), [cs[0]], p.free);
    }
  }
}
