/** The mutex that a wait leaves locked: who can go on, who cannot, and when no one can. */
module Locking {
  import opened ThreadPool
  import opened PoolModel
  import opened WorkerProtocol
  import Ownership

  predicate Finished(worker: Worker) {
    worker.Returned? || worker.Threw?
  }

  /** The worker's next step locks `_mutex`. */
  predicate NeedsLock(worker: Worker) {
    worker.Waiting? || worker.Woken? || worker.Requeueing?
  }

  /** The worker is on its way into the wait, in it, or back from it and not yet in GetData. */
  predicate AtWait(worker: Worker) {
    worker.Entering? || worker.Waiting? || worker.Woken?
  }

  ghost predicate SomeWaiting(s: State) {
    exists w | 0 <= w < |s.workers| :: s.workers[w].Waiting?
  }

  ghost predicate SomeWoken(s: State) {
    exists w | 0 <= w < |s.workers| :: s.workers[w].Woken?
  }

  ghost predicate SomeAtWait(s: State) {
    exists w | 0 <= w < |s.workers| :: AtWait(s.workers[w])
  }

  // ---------- Who has left the mutex locked ----------

  /** No worker has entered the wait. */
  ghost predicate NoneWaited(s: State) {
    forall w | 0 <= w < |s.workers| :: s.workers[w].AtLoop? || s.workers[w].Entering? || s.workers[w].Returned?
  }

  /**
    The worker whose wait returned last cannot have left GetData while the mutex is locked, and the
    one that freed the mutex cannot have left the wait while it is free.
   */
  ghost predicate LockTraced(s: State) {
    if s.locked then SomeWoken(s) else SomeWaiting(s) || NoneWaited(s)
  }

  lemma {:induction false} StepKeepsLockTraced(s: State, e: Event)
    requires Enabled(s, e) && LockTraced(s)
    ensures LockTraced(Step(s, e))
  {
    var t := Step(s, e);
    if e.Wait? {
      assert t.workers[e.w].Waiting?;
    } else if e.WakeUp? {
      assert t.workers[e.w].Woken?;
    } else if s.locked {
      var w :| 0 <= w < |s.workers| && s.workers[w].Woken?;
      assert t.workers[w].Woken?;
    } else if SomeWaiting(s) {
      var w :| 0 <= w < |s.workers| && s.workers[w].Waiting?;
      assert t.workers[w].Waiting?;
    }
  }

  lemma {:induction false} RunKeepsLockTraced(n: nat, es: seq<Event>)
    requires Legal(n, es)
    ensures LockTraced(After(n, es))
  {
    if es != [] {
      RunKeepsLockTraced(n, es[..|es| - 1]);
      StepKeepsLockTraced(After(n, es[..|es| - 1]), es[|es| - 1]);
    }
  }

  /** A worker gets into GetData only while another one is in the wait. */
  lemma {:induction false} FetchNeedsAnother(n: nat, es: seq<Event>, w: nat, first: Request) returns (v: nat)
    requires Legal(n, es) && Enabled(After(n, es), GetData(w, first))
    ensures v != w && v < |After(n, es).workers| && After(n, es).workers[v].Waiting?
  {
    var s := After(n, es);
    RunKeepsLockTraced(n, es);
    assert s.workers[w].Woken?;
    v :| 0 <= v < |s.workers| && s.workers[v].Waiting?;
  }

  /** So a single worker never gets there. */
  lemma {:induction false} OneNeverFetches(n: nat, es: seq<Event>, i: nat)
    requires n < 2 && Legal(n, es) && i < |es|
    ensures !es[i].GetData?
    decreases |es|
  {
    var prefix, e := es[..|es| - 1], es[|es| - 1];
    if i < |prefix| {
      OneNeverFetches(n, prefix, i);
    } else if e.GetData? {
      SameWorkers(n, prefix);
      var v := FetchNeedsAnother(n, prefix, e.w, e.first);
    }
  }

  /** While the mutex is locked the request set stays as it is, and only the entering of the wait unlocks it. */
  lemma {:induction false} LockedHolds(s: State, e: Event)
    requires Enabled(s, e) && s.locked
    ensures Step(s, e).queue == s.queue && Step(s, e).submitted == s.submitted
    ensures forall w | 0 <= w < |s.workers| ::
              s.workers[w].Waiting? || s.workers[w].Woken? ==> Step(s, e).workers[w] == s.workers[w]
    ensures !Step(s, e).locked ==>
              exists w | 0 <= w < |s.workers| :: s.workers[w].Entering? && Step(s, e).workers[w].Waiting?
  {
    if !Step(s, e).locked {
      assert s.workers[e.w].Entering? && Step(s, e).workers[e.w].Waiting?;
    }
  }

  // ---------- Some worker always stays behind ----------

  lemma {:induction false} StepKeepsSomeAtWait(s: State, e: Event)
    requires Enabled(s, e) && LockTraced(s) && SomeAtWait(s)
    ensures SomeAtWait(Step(s, e))
  {
    var t := Step(s, e);
    if e.GetData? {
      assert s.workers[e.w].Woken?;
      var v :| 0 <= v < |s.workers| && s.workers[v].Waiting?;
      assert AtWait(t.workers[v]);
    } else {
      var w :| 0 <= w < |s.workers| && AtWait(s.workers[w]);
      assert AtWait(t.workers[w]);
    }
  }

  /** Once a worker has found the exit flag clear, there is always one about to wait, waiting, or held up behind the wait. */
  lemma {:induction false} SomeStaysAtWait(n: nat, es: seq<Event>, k: nat)
    requires k <= |es| && Legal(n, es) && (PrefixLegal(n, es, k); SomeAtWait(After(n, es[..k])))
    ensures SomeAtWait(After(n, es))
    decreases |es|
  {
    if k == |es| {
      assert es[..k] == es;
    } else {
      var prefix := es[..|es| - 1];
      assert prefix[..k] == es[..k];
      SomeStaysAtWait(n, prefix, k);
      RunKeepsLockTraced(n, prefix);
      StepKeepsSomeAtWait(After(n, prefix), es[|es| - 1]);
    }
  }

  // ---------- Who can take a step ----------

  function Above(s: seq<nat>): (bound: nat)
    ensures forall x | x in s :: x < bound
  {
    if s == [] then 0
    else
      assert forall x | x in s :: x == s[0] || x in s[1..];
      var rest := Above(s[1..]);
      if rest <= s[0] then s[0] + 1 else rest
  }

  /** A GetPool whose allocation, if it needs one, succeeds. */
  function Connect(s: State, w: nat): (e: Event)
    ensures e.GetPool? && e.connects && e.w == w && Obtainable(s.pool, e.dead, e.node)
  {
    assert forall c | c in s.pool.used || c in s.pool.free :: c in s.pool.used + s.pool.free;
    GetPool(w, false, true, Above(s.pool.used + s.pool.free))
  }

  /** The next step of a worker that is not held up; a connection can be had. */
  lemma {:induction false} NextStep(n: nat, es: seq<Event>, w: nat) returns (e: Event)
    requires Legal(n, es) && w < |After(n, es).workers|
    requires var s := After(n, es); !Finished(s.workers[w]) && (NeedsLock(s.workers[w]) ==> !s.locked)
    ensures e.ByWorker() && e.w == w && Enabled(After(n, es), e) && (e.GetPool? ==> e.connects)
  {
    var s := After(n, es);
    match s.workers[w]
    case AtLoop => e := TestExit(w);
    case Entering => e := Wait(w);
    case Waiting => e := WakeUp(w);
    case Woken =>
      var first :| s.queue == {} || first in s.queue;
      e := GetData(w, first);
    case HasRequest(_) => e := Connect(s, w);
    case HasConnection(_, _) =>
      Ownership.ReleaseAlwaysEnabled(n, es, w);
      e := ReleasePool(w);
    case Requeueing(_) => e := Requeue(w);
  }

  predicate StepOf(s: State, w: nat, e: Event) {
    e.ByWorker() && e.w == w && Enabled(s, e)
  }

  /** A worker can take a step if and only if it has not finished and does not need the mutex while it is locked. */
  lemma {:induction false} CanStepExactly(n: nat, es: seq<Event>, w: nat)
    requires Legal(n, es) && w < |After(n, es).workers|
    ensures var s := After(n, es);
            (exists e :: StepOf(s, w, e)) <==> !Finished(s.workers[w]) && (NeedsLock(s.workers[w]) ==> !s.locked)
  {
    var s := After(n, es);
    if !Finished(s.workers[w]) && (NeedsLock(s.workers[w]) ==> !s.locked) {
      var e := NextStep(n, es, w);
      assert StepOf(s, w, e);
    }
  }

  // ---------- When no one can ----------

  /** The mutex is locked, and every worker that has not finished needs it. */
  ghost predicate Stuck(s: State) {
    s.locked && forall w | 0 <= w < |s.workers| :: Finished(s.workers[w]) || NeedsLock(s.workers[w])
  }

  /** No worker can take a step, and no client can queue a request, exactly when the state is stuck. */
  lemma {:induction false} StuckExactly(n: nat, es: seq<Event>)
    requires Legal(n, es)
    ensures Stuck(After(n, es)) <==> forall e :: Enabled(After(n, es), e) ==> e.NotifyAllAndClose?
  {
    var s := After(n, es);
    if forall e :: Enabled(s, e) ==> e.NotifyAllAndClose? {
      assert !Enabled(s, Submit(Null));
      forall w | 0 <= w < |s.workers|
        ensures Finished(s.workers[w]) || NeedsLock(s.workers[w])
      {
        CanStepExactly(n, es, w);
        assert !exists e :: StepOf(s, w, e);
      }
    }
  }

  lemma {:induction false} StuckStep(s: State, e: Event)
    requires Enabled(s, e) && Stuck(s)
    ensures Stuck(Step(s, e)) && Step(s, e) == s.(isExit := true)
  {
    assert e.NotifyAllAndClose?;
  }

  /** A stuck state is final: all that any continuation of the run can change is the exit flag. */
  lemma {:induction false} StuckStays(n: nat, es: seq<Event>, k: nat)
    requires k <= |es| && Legal(n, es) && (PrefixLegal(n, es, k); Stuck(After(n, es[..k])))
    ensures Stuck(After(n, es))
    ensures (PrefixLegal(n, es, k); After(n, es) == After(n, es[..k]).(isExit := After(n, es).isExit))
    decreases |es|
  {
    PrefixLegal(n, es, k);
    if k == |es| {
      assert es[..k] == es;
    } else {
      var prefix := es[..|es| - 1];
      assert prefix[..k] == es[..k];
      StuckStays(n, prefix, k);
      StuckStep(After(n, prefix), es[|es| - 1]);
    }
  }

  predicate IntoWait(e: Event) {
    e.TestExit? || e.Wait? || e.WakeUp?
  }

  lemma {:induction false} OneFurther(n: nat, es: seq<Event>, e: Event) returns (more: seq<Event>)
    requires Legal(n, es) && Enabled(After(n, es), e) && IntoWait(e)
    requires forall i | 0 <= i < |es| :: IntoWait(es[i])
    ensures Legal(n, more) && After(n, more) == Step(After(n, es), e)
    ensures forall i | 0 <= i < |more| :: IntoWait(more[i])
  {
    RunExtends(n, es, e);
    more := es + [e];
  }

  /** The first `k` workers are in the wait, and the others have not begun. */
  lemma {:induction false} SomeEnter(n: nat, k: nat) returns (es: seq<Event>)
    requires k <= n
    ensures Legal(n, es) && (forall i | 0 <= i < |es| :: IntoWait(es[i]))
    ensures var s := After(n, es); !s.locked && !s.isExit && s.workers == seq(n, i => if i < k then Waiting else AtLoop)
  {
    if k == 0 {
      es := [];
    } else {
      es := SomeEnter(n, k - 1);
      es := OneFurther(n, es, TestExit(k - 1));
      es := OneFurther(n, es, Wait(k - 1));
    }
  }

  /**
    For any number of workers there is such a run, without a request, a failure or an exit: all of
    them come to wait, and then one is woken.
   */
  lemma {:induction false} StuckReachable(n: nat) returns (es: seq<Event>)
    requires n > 0
    ensures Legal(n, es) && (forall i | 0 <= i < |es| :: IntoWait(es[i])) && Stuck(After(n, es))
  {
    es := SomeEnter(n, n);
    es := OneFurther(n, es, WakeUp(0));
  }
}
