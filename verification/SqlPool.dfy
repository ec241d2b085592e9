/** The connection pool on the heap: two intrusive doubly linked lists, their heads and the counters. */
module SqlPool {
  import opened Wrappers
  import opened SizeT
  import opened PoolModel
  import opened PoolRuns

  /** PerSQLConnection; the ODBC handles it owns are not part of the model. */
  class Node {
    var next: Node?
    var prev: Node?

    constructor ()
      ensures next == null && prev == null
    {
      next, prev := null, null;
    }
  }

  // ---------- Linked lists ----------

  ghost function HeadOf(s: seq<Node>): Node? {
    if s == [] then null else s[0]
  }

  /** Following `next` from `head` visits exactly `s`. */
  ghost predicate Forward(head: Node?, s: seq<Node>)
    reads s
  {
    && head == HeadOf(s)
    && (forall i {:trigger s[i].next} :: 0 <= i < |s| - 1 ==> s[i].next == s[i + 1])
    && (s != [] ==> s[|s| - 1].next == null)
  }

  ghost predicate Backward(s: seq<Node>)
    reads s
  {
    && (forall i {:trigger s[i].prev} :: 1 <= i < |s| ==> s[i].prev == s[i - 1])
    && (s != [] ==> s[0].prev == null)
  }

  /** `head` starts a doubly linked list of the nodes `s`, none of them repeated. */
  ghost predicate IsList(head: Node?, s: seq<Node>)
    reads s
  {
    Distinct(s) && Forward(head, s) && Backward(s)
  }

  ghost predicate Unlinked(node: Node)
    reads node
  {
    node.prev == null && node.next == null
  }

  ghost predicate Apart(s: seq<Node>, t: seq<Node>) {
    forall n | n in s :: n !in t
  }

  lemma RemovedMembers(s: seq<Node>, k: nat)
    requires Distinct(s) && k < |s|
    ensures forall n :: n in RemoveAt(s, k) <==> n in s && n != s[k]
    ensures Distinct(RemoveAt(s, k))
  {
    forall n | n in s && n != s[k]
      ensures n in RemoveAt(s, k)
    {
      var i := IndexOf(s, n);
      assert RemoveAt(s, k)[if i < k then i else i - 1] == n;
    }
  }

  lemma RemovedStaysApart(s: seq<Node>, k: nat, other: seq<Node>, freed: seq<Node>)
    requires Distinct(s) && k < |s| && Apart(s, other) && Apart(freed, s)
    ensures var rest := RemoveAt(s, k);
            Distinct(rest) && Apart(rest, other) && Apart(other, rest) && Apart(freed, rest) && s[k] !in rest
    ensures s[k] !in other && s[k] !in freed
  {
    RemovedMembers(s, k);
  }

  /**
    AttachPool: the new head of the list is returned in place of the assignment through `pool`.
    Any list `t` that has no node in common is left a list.
   */
  method AttachPool(pool: Node?, node: Node, ghost s: seq<Node>, ghost other: Node?, ghost t: seq<Node>)
    returns (head: Node?)
    requires IsList(pool, s) && node !in s
    requires IsList(other, t) && Apart([node] + s, t)
    requires s == [] ==> Unlinked(node)
    modifies s, node
    ensures IsList(head, [node] + s) && IsList(other, t)
  {
    assert forall i {:trigger t[i]} :: 0 <= i < |t| ==> t[i] in t && t[i] !in [node] + s;
    assert node in [node] + s && forall n | n in s :: n in [node] + s;
    if pool != null {
      pool.prev := node;

      node.prev := null;
      node.next := pool;
    }
    head := node;
    ghost var s' := [node] + s;
    assert forall i :: 1 <= i < |s'| ==> s'[i] == s[i - 1];
  }

  /** Every node of `s` but the `k`-th is linked to the one behind it and in front of it, position `k` left out. */
  ghost predicate LinkedPast(s: seq<Node>, k: nat)
    requires k < |s|
    reads s
  {
    && (forall i {:trigger s[i].next} | 0 <= i < |s| && i != k :: s[i].next == NodeAt(s, if i + 1 == k then k + 1 else i + 1))
    && (forall i {:trigger s[i].prev} | 0 <= i < |s| && i != k :: s[i].prev == NodeAt(s, if i - 1 == k then k - 1 else i - 1))
  }

  ghost function NodeAt(s: seq<Node>, i: int): Node? {
    if 0 <= i < |s| then s[i] else null
  }

  /** A sequence linked past a position is a list without that position. */
  lemma LinkedPastIsList(s: seq<Node>, k: nat)
    requires Distinct(s) && k < |s| && LinkedPast(s, k)
    ensures IsList(NodeAt(s, if k == 0 then 1 else 0), RemoveAt(s, k))
  {
    var rest := RemoveAt(s, k);
    RemovedMembers(s, k);
    assert forall i {:trigger rest[i]} :: 0 <= i < |rest| ==> rest[i] == if i < k then s[i] else s[i + 1];
  }

  lemma ListLinks(head: Node?, s: seq<Node>, k: nat)
    requires IsList(head, s) && k < |s|
    ensures s[k].next == NodeAt(s, k + 1) && s[k].prev == NodeAt(s, k - 1)
    ensures head == NodeAt(s, 0)
  {
  }

  /** DetachPool: `k` is the position of the node in the list. Any list `t` that has no node in common is left a list. */
  method DetachPool(pool: Node?, node: Node, ghost s: seq<Node>, ghost k: nat, ghost other: Node?, ghost t: seq<Node>)
    returns (head: Node?)
    requires IsList(pool, s) && k < |s| && s[k] == node
    requires IsList(other, t) && Apart(s, t)
    modifies s
    ensures IsList(head, RemoveAt(s, k)) && IsList(other, t)
    ensures Unlinked(node)
  {
    head := Unlink(pool, node, s, k);
    assert forall i {:trigger t[i]} :: 0 <= i < |t| ==> t[i] in t && t[i] !in s;
  }

  /** The body of DetachPool. */
  method Unlink(pool: Node?, node: Node, ghost s: seq<Node>, ghost k: nat) returns (head: Node?)
    requires IsList(pool, s) && k < |s| && s[k] == node
    modifies s
    ensures IsList(head, RemoveAt(s, k))
    ensures Unlinked(node)
  {
    assert k > 0 ==> s[k - 1] in s;
    assert k + 1 < |s| ==> s[k + 1] in s;
    ListLinks(pool, s, k);
    head := pool;
    var prev := node.prev;
    var next := node.next;
    if prev == null && next == null {
      head := null;
    } else if prev == null && next != null {
      next.prev := null;
      head := next;
    } else if prev != null && next == null {
      prev.next := null;
    } else if prev != null && next != null {
      prev.next := next;
      next.prev := prev;
    }
    node.prev := null;
    node.next := null;
    LinkedPastIsList(s, k);
  }

  // ---------- The pool ----------

  /** AllocSQLConnection succeeds when all three ODBC calls do. */
  predicate Connects(allocDbc: bool, connect: bool, allocStmt: bool) {
    allocDbc && connect && allocStmt
  }

  /** Freeing the head of a list, the used one first, leaves the outcome of a Shutdown as it was. */
  lemma DrainStep(p: Pool<Node>)
    ensures p.used != [] ==> Drained(Discard(p, p.used[0]).(used := p.used[1..])) == Drained(p)
    ensures p.used == [] && p.free != [] ==> Drained(Discard(p, p.free[0]).(free := p.free[1..])) == Drained(p)
    ensures p.used == [] && p.free == [] ==> Drained(p) == p
  {
    if p.used != [] {
      WrapAbsorbs(p.workingSet - 1, 1 - p.Count());
      assert p.freed + [p.used[0]] + p.used[1..] + p.free == p.freed + p.used + p.free;
    } else if p.free != [] {
      WrapAbsorbs(p.workingSet - 1, 1 - p.Count());
      assert p.freed + [p.free[0]] + [] + p.free[1..] == p.freed + [] + p.free;
    } else {
      WrapSmall(p.workingSet);
    }
  }

  /** cSQLPool, with the histories and the two node sequences as ghost state. */
  class SqlPool {
    var pagedPool: Node?          // connections in use
    var nonPagedPool: Node?       // free connections
    var pagedQuota: Size
    var nonPagedQuota: Size
    var workingSet: Size

    ghost var used: seq<Node>
    ghost var free: seq<Node>
    ghost var created: seq<Node>
    ghost var freed: seq<Node>
    ghost var failures: nat
    ghost var ops: seq<Op<Node>>  // the GetPool and ReleasePool calls made

    /** Both lists can be walked forwards, share no node, and hold no node already given back. */
    ghost predicate Walkable()
      reads this, used, free
    {
      && Distinct(used) && Forward(pagedPool, used)
      && Distinct(free) && Forward(nonPagedPool, free)
      && Apart(used, free) && Apart(freed, used) && Apart(freed, free)
    }

    /** Moreover the `prev` links mirror the `next` links. */
    ghost predicate Valid()
      reads this, used, free
    {
      Walkable() && Backward(used) && Backward(free)
    }

    /** A node in neither list and not given back. */
    ghost predicate Loose(node: Node)
      reads this
    {
      node !in used && node !in free && node !in freed
    }

    /** The pool this object stands for. */
    ghost function Abs(): Pool<Node>
      reads this
    {
      Pool(used, free, pagedQuota, nonPagedQuota, workingSet, created, freed, failures)
    }

    /** The object is where its calls have taken it: it has not been shut down. */
    ghost predicate Tracked()
      reads this
    {
      Legal(ops) && Abs() == After(ops)
    }

    constructor ()
      ensures Valid() && Tracked() && ops == []
    {
      pagedPool, nonPagedPool := null, null;
      pagedQuota, nonPagedQuota, workingSet := 0, 0, 0;
      used, free, created, freed, failures := [], [], [], [], 0;
      ops := [];
    }

    /** GetProcessMemoryInfo: before Shutdown it reports the true number of connections in each list. */
    method GetProcessMemoryInfo() returns (paged: Size, nonPaged: Size, working: Size)
      ensures paged == Abs().pagedQuota && nonPaged == Abs().nonPagedQuota && working == Abs().workingSet
      ensures Tracked() && Peak(ops) < SIZE_T_RANGE ==>
                && paged == |used| && nonPaged == |free|
                && (working == |used| + |free| <==> Wrap(failures) == 0)
    {
      paged, nonPaged, working := pagedQuota, nonPagedQuota, workingSet;
      if Tracked() && Peak(ops) < SIZE_T_RANGE {
        QuotasExact(ops);
      }
    }

    /** FreeSQLConnection: the block is gone, so its links may hold anything afterwards. */
    method FreeSQLConnection(node: Node) returns (cleared: Node?)
      requires Walkable() && Loose(node)
      modifies this`freed, this`workingSet, node
      ensures Walkable() && (old(Valid()) ==> Valid())
      ensures cleared == null
      ensures Abs() == Discard(old(Abs()), node)
    {
      node.next, node.prev := *, *;
      freed, workingSet := freed + [node], Dec(workingSet);
      cleared := null;
    }

    /** AllocSQLConnection: the three flags are the answers of the ODBC layer. */
    method AllocSQLConnection(allocDbc: bool, connect: bool, allocStmt: bool) returns (result: Node?, ghost node: Node)
      requires Valid()
      modifies this`created, this`freed, this`failures, this`workingSet
      ensures Valid() && fresh(node)
      ensures result != null <==> allocDbc && connect && allocStmt
      ensures result != null ==> result == node && Loose(result) && Unlinked(result)
      ensures var (p, got) := Allocate(old(Abs()), Connects(allocDbc, connect, allocStmt), node);
              Abs() == p && (got == if result == null then None else Some(result))
    {
      var block := new Node();
      node := block;
      created := created + [block];
      if allocDbc {
        if connect {
          if allocStmt {
            workingSet := Inc(workingSet);
            return block, block;
          }
        }
      }
      failures := failures + 1;
      result := FreeSQLConnection(block);
    }

    /** Detaching from the list of connections in use, with its quota (`mQuotaPagedPoolUsage--`). */
    method TakeFromUsed(conn: Node)
      requires Valid() && conn in used
      modifies this`pagedPool, this`used, this`pagedQuota, used
      ensures Valid() && Loose(conn) && Unlinked(conn)
      ensures Abs() == TakeUsed(old(Abs()), conn)
    {
      ghost var k := IndexOf(used, conn);
      RemovedStaysApart(used, k, free, freed);
      var head := DetachPool(pagedPool, conn, used, k, nonPagedPool, free);
      pagedPool, used, pagedQuota := head, RemoveAt(used, k), Dec(pagedQuota);
    }

    /** Detaching from the list of free connections, with its quota (`mQuotaNonPagedPoolUsage--`). */
    method TakeFromFree(conn: Node, ghost k: nat)
      requires Valid() && k < |free| && free[k] == conn
      modifies this`nonPagedPool, this`free, this`nonPagedQuota, free
      ensures Valid() && Loose(conn) && Unlinked(conn)
      ensures Abs() == old(Abs()).(free := RemoveAt(old(free), k), nonPagedQuota := Dec(old(nonPagedQuota)))
    {
      RemovedStaysApart(free, k, used, freed);
      var head := DetachPool(nonPagedPool, conn, free, k, pagedPool, used);
      nonPagedPool, free, nonPagedQuota := head, RemoveAt(free, k), Dec(nonPagedQuota);
    }

    method PutInUse(conn: Node)
      requires Valid() && Loose(conn) && Unlinked(conn)
      modifies this`pagedPool, this`used, this`pagedQuota, used, conn
      ensures Valid()
      ensures Abs() == PushUsed(old(Abs()), conn)
    {
      var head := AttachPool(pagedPool, conn, used, nonPagedPool, free);
      pagedPool, used, pagedQuota := head, [conn] + used, Inc(pagedQuota);
    }

    method PutFree(conn: Node)
      requires Valid() && Loose(conn) && Unlinked(conn)
      modifies this`nonPagedPool, this`free, this`nonPagedQuota, free, conn
      ensures Valid()
      ensures Abs() == PushFree(old(Abs()), conn)
    {
      var head := AttachPool(nonPagedPool, conn, free, pagedPool, used);
      nonPagedPool, free, nonPagedQuota := head, [conn] + free, Inc(nonPagedQuota);
    }

    /** The first half of GetPool: the connection on top of the free stack, unless it is missing or dead. */
    method TakeLive(connectionDead: bool) returns (conn: Node?)
      requires Valid()
      modifies this`nonPagedPool, this`free, this`nonPagedQuota, this`freed, this`workingSet, free
      ensures Valid()
      ensures conn == null <==> !Reuses(old(Abs()), connectionDead)
      ensures conn != null ==> conn == old(free)[0] && Loose(conn) && Unlinked(conn) && Abs() == PopFree(old(Abs()))
      ensures conn == null ==> Abs() == WithoutDead(old(Abs()))
    {
      conn := nonPagedPool;
      if conn != null {
        assert RemoveAt(free, 0) == free[1..];
        TakeFromFree(conn, 0);
        if connectionDead {
          conn := FreeSQLConnection(conn);
        }
      }
    }

    /** The second half of GetPool: a new connection if no live one was found, then on to the used list. */
    method PutInUseOrNew(live: Node?, allocDbc: bool, connect: bool, allocStmt: bool) returns (conn: Node?, ghost node: Node)
      requires Valid() && (live != null ==> Loose(live) && Unlinked(live))
      modifies this`pagedPool, this`used, this`pagedQuota, this`created, this`freed, this`failures, this`workingSet, used
      modifies if live == null then {} else {live}
      ensures Valid()
      ensures live == null ==> fresh(node)
      ensures live != null ==> conn == node == live && Abs() == PushUsed(old(Abs()), live)
      ensures live == null ==>
                var (p, got) := Allocate(old(Abs()), Connects(allocDbc, connect, allocStmt), node);
                && Abs() == (if got.Some? then PushUsed(p, node) else p)
                && conn == (if got.Some? then node else null)
    {
      conn := live;
      if conn == null {
        conn, node := AllocSQLConnection(allocDbc, connect, allocStmt);
      } else {
        node := conn;
      }
      if conn != null {
        PutInUse(conn);
      }
    }

    /** The body of GetPool; `node` is the block obtained from the allocator, if one was. */
    method TakeConnection(connectionDead: bool, allocDbc: bool, connect: bool, allocStmt: bool)
      returns (conn: Node?, ghost node: Node)
      requires Valid()
      modifies this`pagedPool, this`used, this`pagedQuota, this`nonPagedPool, this`free, this`nonPagedQuota
      modifies this`created, this`freed, this`failures, this`workingSet, used, free
      ensures Valid()
      ensures !Reuses(old(Abs()), connectionDead) ==> fresh(node)
      ensures Acquire(old(Abs()), connectionDead, Connects(allocDbc, connect, allocStmt), node) ==
              (Abs(), if conn == null then None else Some(conn))
    {
      conn := TakeLive(connectionDead);
      conn, node := PutInUseOrNew(conn, allocDbc, connect, allocStmt);
    }

    /** GetPool. */
    method GetPool(connectionDead: bool, allocDbc: bool, connect: bool, allocStmt: bool)
      returns (conn: Node?, ghost node: Node)
      requires Valid()
      modifies this, used, free
      ensures Valid()
      ensures !Reuses(old(Abs()), connectionDead) ==> fresh(node)
      ensures Acquire(old(Abs()), connectionDead, Connects(allocDbc, connect, allocStmt), node) ==
              (Abs(), if conn == null then None else Some(conn))
      ensures conn == null <==> (old(free) == [] || connectionDead) && !(allocDbc && connect && allocStmt)
      ensures ops == old(ops) + [Get(connectionDead, Connects(allocDbc, connect, allocStmt), node)]
      ensures old(Tracked()) ==> Tracked()
    {
      ghost var before := Abs();
      conn, node := TakeConnection(connectionDead, allocDbc, connect, allocStmt);
      ghost var op := Get(connectionDead, Connects(allocDbc, connect, allocStmt), node);
      RecordCall(before, op);
    }

    /** ReleasePool, called with a connection that is in use. */
    method ReleasePool(conn: Node, isDelete: bool)
      requires Valid() && conn in used
      modifies this, used, free
      ensures Valid()
      ensures Abs() == Release(old(Abs()), conn, isDelete)
      ensures ops == old(ops) + [GiveBack(conn, isDelete)]
      ensures old(Tracked()) ==> Tracked()
    {
      ghost var before := Abs();
      TakeFromUsed(conn);
      if !isDelete {
        PutFree(conn);
      } else {
        var cleared := FreeSQLConnection(conn);
      }
      RecordCall(before, GiveBack(conn, isDelete));
    }

    ghost method RecordCall(before: Pool<Node>, op: Op<Node>)
      requires Valid() && Enabled(before, op) && Abs() == Apply(before, op)
      modifies this`ops
      ensures Valid() && Abs() == old(Abs())
      ensures ops == old(ops) + [op]
      ensures Legal(old(ops)) && After(old(ops)) == before ==> Tracked()
    {
      if Legal(ops) && After(ops) == before {
        RunExtends(ops, op);
      }
      ops := ops + [op];
    }

    /** One round of the first loop of Shutdown. */
    method FreeUsedHead()
      requires Walkable() && pagedPool != null
      modifies this`pagedPool, this`used, this`freed, this`workingSet, used
      ensures Walkable()
      ensures Abs() == Discard(old(Abs()), old(used)[0]).(used := old(used)[1..])
    {
      var temp := pagedPool;
      pagedPool, used := pagedPool.next, used[1..];
      var cleared := FreeSQLConnection(temp);
    }

    /** One round of the second loop of Shutdown. */
    method FreeFreeHead()
      requires Walkable() && nonPagedPool != null
      modifies this`nonPagedPool, this`free, this`freed, this`workingSet, free
      ensures Walkable()
      ensures Abs() == Discard(old(Abs()), old(free)[0]).(free := old(free)[1..])
    {
      var temp := nonPagedPool;
      nonPagedPool, free := nonPagedPool.next, free[1..];
      var cleared := FreeSQLConnection(temp);
    }

    /** The first loop of Shutdown. */
    method FreeUsedList()
      requires Walkable()
      modifies this`pagedPool, this`used, this`freed, this`workingSet, used
      ensures Walkable() && pagedPool == null && used == []
      ensures Drained(Abs()) == Drained(old(Abs()))
    {
      while pagedPool != null
        invariant Walkable()
        invariant forall i | 0 <= i < |used| :: used[i] in old(used)
        invariant Drained(Abs()) == Drained(old(Abs()))
        decreases |used|
      {
        DrainStep(Abs());
        FreeUsedHead();
      }
    }

    /** The second loop of Shutdown. */
    method FreeFreeList()
      requires Walkable() && used == []
      modifies this`nonPagedPool, this`free, this`freed, this`workingSet, free
      ensures Walkable() && nonPagedPool == null && free == []
      ensures Drained(Abs()) == Drained(old(Abs()))
    {
      while nonPagedPool != null
        invariant Walkable()
        invariant forall i | 0 <= i < |free| :: free[i] in old(free)
        invariant Drained(Abs()) == Drained(old(Abs()))
        decreases |free|
      {
        DrainStep(Abs());
        FreeFreeHead();
      }
    }

    /**
      Shutdown, with no connection held outside the pool. The nodes behind the head keep a `prev`
      that points into freed memory, so the lists can only be walked forwards.
     */
    method Shutdown()
      requires Valid()
      modifies this, used, free
      ensures Valid()
      ensures pagedPool == null && nonPagedPool == null
      ensures Abs() == Drained(old(Abs()))
    {
      FreeUsedList();
      FreeFreeList();
      DrainStep(Abs());
    }
  }
}
