/**
  The connection pool as a value: the connections in use, the stack of free ones, the three
  counters, and two histories. The heap implementation (`SqlPool`) is proved against these
  functions, and the worker protocol (`WorkerProtocol`) runs over them.
 */
module PoolModel {
  import opened Wrappers
  import opened SizeT

  /**
    `used` and `free` list the connections from the head of their linked list.
    `freed` and `created` record every node given back to, and obtained from, the allocator;
    `failures` counts the calls of AllocSQLConnection that returned NULL.
   */
  datatype Pool<C> = Pool(
    used: seq<C>,
    free: seq<C>,
    pagedQuota: Size,
    nonPagedQuota: Size,
    workingSet: Size,
    created: seq<C>,
    freed: seq<C>,
    failures: nat)
  {
    ghost function Held(): multiset<C> {
      multiset(used) + multiset(free)
    }

    function Count(): nat {
      |used| + |free|
    }
  }

  function EmptyPool<C>(): Pool<C> {
    Pool([], [], 0, 0, 0, [], [], 0)
  }

  // ---------- The operations ----------

  /** FreeSQLConnection. */
  function Discard<C>(p: Pool<C>, c: C): Pool<C> {
    p.(freed := p.freed + [c], workingSet := Dec(p.workingSet))
  }

  /** AllocSQLConnection: `node` is the block GlobalAlloc returned, `connects` says that all three ODBC calls succeed. */
  function Allocate<C>(p: Pool<C>, connects: bool, node: C): (Pool<C>, Option<C>) {
    var q := p.(created := p.created + [node]);
    if connects then
      (q.(workingSet := Inc(q.workingSet)), Some(node))
    else
      (Discard(q, node).(failures := q.failures + 1), None)
  }

  function PopFree<C>(p: Pool<C>): Pool<C>
    requires p.free != []
  {
    p.(free := p.free[1..], nonPagedQuota := Dec(p.nonPagedQuota))
  }

  function PushUsed<C>(p: Pool<C>, c: C): Pool<C> {
    p.(used := [c] + p.used, pagedQuota := Inc(p.pagedQuota))
  }

  /** The free connection at the top of the stack is there and alive, so no allocation is made. */
  predicate Reuses<C>(p: Pool<C>, dead: bool) {
    p.free != [] && !dead
  }

  /** The pool once GetPool has found its free connection dead, or found none. */
  function WithoutDead<C>(p: Pool<C>): Pool<C> {
    if p.free == [] then p else Discard(PopFree(p), p.free[0])
  }

  /** GetPool: `dead` is the answer of ConnectionDead, asked only when there is a free connection. */
  function Acquire<C>(p: Pool<C>, dead: bool, connects: bool, node: C): (Pool<C>, Option<C>) {
    if Reuses(p, dead) then
      (PushUsed(PopFree(p), p.free[0]), Some(p.free[0]))
    else
      var (q', got) := Allocate(WithoutDead(p), connects, node);
      (if got.Some? then PushUsed(q', got.value) else q', got)
  }

  function IndexOf<C(==)>(s: seq<C>, c: C): (i: nat)
    requires c in s
    ensures i < |s| && s[i] == c && c !in s[..i]
  {
    if s[0] == c then 0 else 1 + IndexOf(s[1..], c)
  }

  function RemoveAt<C>(s: seq<C>, i: nat): seq<C>
    requires i < |s|
  {
    s[..i] + s[i + 1..]
  }

  function TakeUsed<C(==)>(p: Pool<C>, c: C): Pool<C>
    requires c in p.used
  {
    p.(used := RemoveAt(p.used, IndexOf(p.used, c)), pagedQuota := Dec(p.pagedQuota))
  }

  function PushFree<C>(p: Pool<C>, c: C): Pool<C> {
    p.(free := [c] + p.free, nonPagedQuota := Inc(p.nonPagedQuota))
  }

  /** ReleasePool, for a connection that is in use. */
  function Release<C(==)>(p: Pool<C>, c: C, isDelete: bool): Pool<C>
    requires c in p.used
  {
    if isDelete then Discard(TakeUsed(p, c), c) else PushFree(TakeUsed(p, c), c)
  }

  /** Shutdown: the used list is emptied first, from its head, and then the free list; the quotas are left alone. */
  function Drained<C>(p: Pool<C>): Pool<C> {
    p.(used := [], free := [], freed := p.freed + p.used + p.free,
       workingSet := Wrap(p.workingSet - p.Count()))
  }

  // ---------- What every operation keeps ----------

  ghost predicate Distinct<C>(s: seq<C>) {
    forall i, j :: 0 <= i < j < |s| ==> s[i] != s[j]
  }

  /** No connection is listed twice, in one list or across the two. */
  ghost predicate Exclusive<C>(p: Pool<C>) {
    forall c | c in p.Held() :: p.Held()[c] <= 1
  }

  /** The quota counters are the list lengths. */
  ghost predicate QuotasAgree<C>(p: Pool<C>) {
    p.pagedQuota == Wrap(|p.used|) && p.nonPagedQuota == Wrap(|p.free|)
  }

  /** The working set falls short of `n` by one for each failed allocation. */
  ghost predicate WorkingSetIs<C>(p: Pool<C>, n: int) {
    Wrap(p.workingSet + p.failures) == Wrap(n)
  }

  ghost predicate Counted<C>(p: Pool<C>) {
    QuotasAgree(p) && WorkingSetIs(p, p.Count())
  }

  /** Every node obtained from the allocator is in use, free, or given back, and is so once per allocation. */
  ghost predicate Conserved<C>(p: Pool<C>) {
    multiset(p.created) == p.Held() + multiset(p.freed)
  }

  ghost predicate Sound<C>(p: Pool<C>) {
    Exclusive(p) && Counted(p) && Conserved(p)
  }

  lemma Uncons<C>(s: seq<C>)
    requires s != []
    ensures multiset(s) == multiset{s[0]} + multiset(s[1..])
  {
    assert s == [s[0]] + s[1..];
  }

  lemma Removed<C>(s: seq<C>, i: nat)
    requires i < |s|
    ensures multiset(s) == multiset{s[i]} + multiset(RemoveAt(s, i))
  {
    assert s == s[..i] + [s[i]] + s[i + 1..];
  }

  lemma PopFreeMoves<C>(p: Pool<C>)
    requires p.free != []
    ensures p.Held() == PopFree(p).Held() + multiset{p.free[0]}
  {
    Uncons(p.free);
  }

  lemma PushUsedMoves<C>(p: Pool<C>, c: C)
    ensures PushUsed(p, c).Held() == p.Held() + multiset{c}
  {
    Uncons(PushUsed(p, c).used);
    assert PushUsed(p, c).used[1..] == p.used;
  }

  lemma WithoutDeadConserves<C>(p: Pool<C>)
    requires Conserved(p)
    ensures Conserved(WithoutDead(p)) && WithoutDead(p).Held() <= p.Held()
  {
    if p.free != [] {
      PopFreeMoves(p);
    }
  }

  lemma AllocateConserves<C>(p: Pool<C>, connects: bool, node: C)
    requires Conserved(p)
    ensures var (q, got) := Allocate(p, connects, node);
            && q.Held() == p.Held()
            && Conserved(if got.Some? then PushUsed(q, node) else q)
  {
    var (q, got) := Allocate(p, connects, node);
    if got.Some? {
      PushUsedMoves(q, node);
    }
  }

  /** GetPool conserves nodes; it lists at most the connections it listed before, and the new block. */
  lemma AcquireConserves<C>(p: Pool<C>, dead: bool, connects: bool, node: C)
    requires Conserved(p)
    ensures var q := Acquire(p, dead, connects, node).0;
            Conserved(q) && q.Held() <= p.Held() + (if Reuses(p, dead) then multiset{} else multiset{node})
  {
    if Reuses(p, dead) {
      PopFreeMoves(p);
      PushUsedMoves(PopFree(p), p.free[0]);
    } else {
      WithoutDeadConserves(p);
      AllocateConserves(WithoutDead(p), connects, node);
      PushUsedMoves(Allocate(WithoutDead(p), connects, node).0, node);
    }
  }

  lemma WorkingSetMoves(ws: Size, failures: int, n: int, d: int, e: int)
    requires Wrap(ws + failures) == Wrap(n)
    ensures Wrap(Wrap(ws + d) + (failures + e)) == Wrap(n + d + e)
  {
    WrapAbsorbs(ws + d, failures + e);
    WrapAbsorbs(ws + failures, d + e);
    WrapAbsorbs(n, d + e);
  }

  lemma DiscardCounts<C>(p: Pool<C>, c: C, n: int)
    requires WorkingSetIs(p, n)
    ensures WorkingSetIs(Discard(p, c), n - 1)
  {
    WorkingSetMoves(p.workingSet, p.failures, n, -1, 0);
  }

  /** A failed allocation decrements a count it never incremented; the failure count makes up for it. */
  lemma AllocateCounts<C>(p: Pool<C>, connects: bool, node: C, n: int)
    requires WorkingSetIs(p, n)
    ensures var (q, got) := Allocate(p, connects, node);
            WorkingSetIs(q, if got.Some? then n + 1 else n)
  {
    if connects {
      WorkingSetMoves(p.workingSet, p.failures, n, 1, 0);
    } else {
      WorkingSetMoves(p.workingSet, p.failures, n, -1, 1);
    }
  }

  lemma AcquireCounts<C>(p: Pool<C>, dead: bool, connects: bool, node: C)
    requires Counted(p)
    ensures Counted(Acquire(p, dead, connects, node).0)
  {
    WrapAbsorbs(|p.used|, 1);
    WrapAbsorbs(|p.free|, -1);
    if !Reuses(p, dead) {
      var n := if p.free == [] then p.Count() else p.Count() - 1;
      if p.free != [] {
        DiscardCounts(PopFree(p), p.free[0], p.Count());
      }
      AllocateCounts(WithoutDead(p), connects, node, n);
    }
  }

  lemma ReleaseCounts<C>(p: Pool<C>, c: C, isDelete: bool)
    requires Counted(p) && c in p.used
    ensures Counted(Release(p, c, isDelete))
  {
    WrapAbsorbs(|p.used|, -1);
    WrapAbsorbs(|p.free|, 1);
    if isDelete {
      DiscardCounts(p, c, p.Count());
    }
  }

  /** If GetPool has to allocate, the allocator hands out a block that is in neither list. */
  predicate Obtainable<C(==)>(p: Pool<C>, dead: bool, node: C) {
    Reuses(p, dead) || (node !in p.used && node !in p.free)
  }

  /** GetPool keeps the pool sound. */
  lemma AcquireKeepsSound<C>(p: Pool<C>, dead: bool, connects: bool, node: C)
    requires Sound(p) && Obtainable(p, dead, node)
    ensures Sound(Acquire(p, dead, connects, node).0)
  {
    AcquireConserves(p, dead, connects, node);
    AcquireCounts(p, dead, connects, node);
    assert Reuses(p, dead) || p.Held()[node] == 0;
  }

  /** GetPool fails exactly when it must allocate and cannot connect; what it hands out becomes the head of the used list. */
  lemma AcquireHandsOut<C>(p: Pool<C>, dead: bool, connects: bool, node: C)
    ensures var (q, got) := Acquire(p, dead, connects, node);
            && (got.None? <==> !Reuses(p, dead) && !connects)
            && q.used == (if got.Some? then [got.value] + p.used else p.used)
  {
  }

  lemma TakeUsedMoves<C>(p: Pool<C>, c: C)
    requires c in p.used
    ensures multiset(TakeUsed(p, c).used) == multiset(p.used) - multiset{c}
    ensures p.Held() == TakeUsed(p, c).Held() + multiset{c}
  {
    Removed(p.used, IndexOf(p.used, c));
  }

  lemma PushFreeMoves<C>(p: Pool<C>, c: C)
    ensures PushFree(p, c).Held() == p.Held() + multiset{c}
  {
    Uncons(PushFree(p, c).free);
    assert PushFree(p, c).free[1..] == p.free;
  }

  /** ReleasePool takes exactly the given connection out of use; unless it is destroyed, it is on top of the free stack. */
  lemma ReleaseMoves<C>(p: Pool<C>, c: C, isDelete: bool)
    requires c in p.used
    ensures var q := Release(p, c, isDelete);
            && multiset(q.used) == multiset(p.used) - multiset{c}
            && q.free == (if isDelete then p.free else [c] + p.free)
            && (Conserved(p) ==> Conserved(q))
            && q.Held() == (if isDelete then p.Held() - multiset{c} else p.Held())
  {
    TakeUsedMoves(p, c);
    if !isDelete {
      PushFreeMoves(TakeUsed(p, c), c);
    }
  }

  /** ReleasePool keeps the pool sound. */
  lemma ReleaseKeepsSound<C>(p: Pool<C>, c: C, isDelete: bool)
    requires Sound(p) && c in p.used
    ensures Sound(Release(p, c, isDelete))
  {
    ReleaseCounts(p, c, isDelete);
    ReleaseMoves(p, c, isDelete);
  }
}
