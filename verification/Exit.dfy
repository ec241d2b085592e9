/** What is left to run once NotifyAllAndClose has set the exit flag. */
module Exit {
  import opened ThreadPool
  import opened PoolModel
  import opened WorkerProtocol
  import opened SizeT
  import opened Locking
  import PoolRuns

  /** The greatest number of steps a worker can still take when the exit flag is set. */
  function StepsLeft(): Worker -> nat {
    (worker: Worker) =>
      match worker
      case Entering => 6
      case Waiting => 5
      case Woken => 4
      case HasRequest(_) => 3
      case HasConnection(_, _) => 2
      case Requeueing(_) => 2
      case AtLoop => 1
      case Returned => 0
      case Threw => 0
  }

  ghost function Measure(s: State): nat {
    Sum(s.workers, StepsLeft())
  }

  /** With the exit flag set, every worker step makes the measure smaller and no other step touches it. */
  lemma {:induction false} StepDecreases(s: State, e: Event)
    requires Enabled(s, e) && s.isExit
    ensures Step(s, e).isExit
    ensures if e.ByWorker() then Measure(Step(s, e)) < Measure(s) else Measure(Step(s, e)) == Measure(s)
  {
    if e.ByWorker() {
      SumUpdate(s.workers, StepsLeft(), e.w, Step(s, e).workers[e.w]);
    }
  }

  /** The number of events from `k` on that satisfy `p`. */
  ghost function CountFrom(es: seq<Event>, k: nat, p: Event -> bool): nat {
    if |es| <= k then 0
    else CountFrom(es[..|es| - 1], k, p) + if p(es[|es| - 1]) then 1 else 0
  }

  function WorkerStep(): Event -> bool {
    (e: Event) => e.ByWorker()
  }

  function FetchOf(w: nat): Event -> bool {
    (e: Event) => e.GetData? && e.w == w
  }

  lemma {:induction false} StepsAfterExit(n: nat, es: seq<Event>, k: nat)
    requires k <= |es| && Legal(n, es) && (PrefixLegal(n, es, k); After(n, es[..k]).isExit)
    ensures After(n, es).isExit
    ensures CountFrom(es, k, WorkerStep()) + Measure(After(n, es)) <= Measure(After(n, es[..k]))
    decreases |es|
  {
    if k == |es| {
      assert es[..k] == es;
    } else {
      var prefix := es[..|es| - 1];
      assert prefix[..k] == es[..k];
      StepsAfterExit(n, prefix, k);
      StepDecreases(After(n, prefix), es[|es| - 1]);
    }
  }

  /** Once the exit flag is set at `k`, the workers together take at most six steps each, whatever the clients do. */
  lemma {:induction false} BoundedAfterExit(n: nat, es: seq<Event>, k: nat)
    requires k <= |es| && Legal(n, es) && (PrefixLegal(n, es, k); After(n, es[..k]).isExit)
    ensures CountFrom(es, k, WorkerStep()) <= 6 * n
  {
    PrefixLegal(n, es, k);
    StepsAfterExit(n, es, k);
    SumBound(After(n, es[..k]).workers, StepsLeft(), 6);
    SameWorkers(n, es[..k]);
  }

  /** A worker that calls GetData could do so, and cannot any more; none regains the chance once the flag is set. */
  lemma {:induction false} FetchUsesUp(s: State, e: Event, w: nat)
    requires Enabled(s, e) && s.isExit && w < |s.workers|
    ensures FetchOf(w)(e) ==> AtWait(s.workers[w]) && !AtWait(Step(s, e).workers[w])
    ensures AtWait(Step(s, e).workers[w]) ==> AtWait(s.workers[w])
  {
  }

  /**
    Once the exit flag is set at `k`, a worker calls GetData at most once more, and not at all unless
    it is on its way into or out of the wait.
   */
  lemma {:induction false} OneMoreFetch(n: nat, es: seq<Event>, k: nat, w: nat)
    requires k <= |es| && Legal(n, es) && (PrefixLegal(n, es, k); After(n, es[..k]).isExit)
    requires w < |After(n, es).workers| && w < |After(n, es[..k]).workers|
    ensures After(n, es).isExit
    ensures CountFrom(es, k, FetchOf(w)) + (if AtWait(After(n, es).workers[w]) then 1 else 0)
            <= (if AtWait(After(n, es[..k]).workers[w]) then 1 else 0)
    decreases |es|
  {
    if k == |es| {
      assert es[..k] == es;
    } else {
      var prefix := es[..|es| - 1];
      assert prefix[..k] == es[..k];
      StepSameWorkers(After(n, prefix), es[|es| - 1]);
      OneMoreFetch(n, prefix, k, w);
      FetchUsesUp(After(n, prefix), es[|es| - 1], w);
    }
  }

  // ---------- Who can finish ----------

  function IsEntering(): Worker -> nat {
    (worker: Worker) => if worker.Entering? then 1 else 0
  }

  /**
    How often the mutex can still be freed once the exit flag is set: each worker that has tested
    the flag before enters the wait.
   */
  ghost function Frees(s: State): nat {
    Sum(s.workers, IsEntering())
  }

  /**
    Whether the worker can still finish, the exit flag being set. Behind the wait it needs the mutex
    free, or freed once more. In the wait it needs it free to return, and freed again to go on.
   */
  ghost predicate CanFinish(s: State, worker: Worker) {
    match worker
    case Entering => Frees(s) >= 2
    case Waiting => Frees(s) >= if s.locked then 2 else 1
    case Woken => s.locked ==> Frees(s) >= 1
    case Requeueing(_) => s.locked ==> Frees(s) >= 1
    case _ => true
  }

  lemma {:induction false} FreesMove(s: State, e: Event)
    requires Enabled(s, e) && s.isExit
    ensures Frees(Step(s, e)) == if e.Wait? then Frees(s) - 1 else Frees(s)
  {
    if e.ByWorker() {
      SumUpdate(s.workers, IsEntering(), e.w, Step(s, e).workers[e.w]);
    }
  }

  lemma {:induction false} StepLeavesUnfinishable(s: State, e: Event, w: nat)
    requires Enabled(s, e) && s.isExit && w < |s.workers| && !CanFinish(s, s.workers[w])
    ensures Step(s, e).isExit && !CanFinish(Step(s, e), Step(s, e).workers[w])
  {
    FreesMove(s, e);
  }

  lemma {:induction false} UnfinishableStays(n: nat, es: seq<Event>, more: seq<Event>, w: nat)
    requires es <= more && Legal(n, es) && Legal(n, more) && After(n, es).isExit
    requires w < |After(n, es).workers| && !CanFinish(After(n, es), After(n, es).workers[w])
    ensures var t := After(n, more); t.isExit && w < |t.workers| && !CanFinish(t, t.workers[w])
    decreases |more|
  {
    if |more| == |es| {
      assert more == es;
    } else {
      UnfinishableStays(n, es, more[..|more| - 1], w);
      StepLeavesUnfinishable(After(n, more[..|more| - 1]), more[|more| - 1], w);
    }
  }

  /** The next step towards the end of worker `w`: its own, or that of one that frees the mutex for it. */
  lemma {:induction false} StepTowardsEnd(n: nat, es: seq<Event>, w: nat) returns (e: Event)
    requires Legal(n, es) && After(n, es).isExit && w < |After(n, es).workers|
    requires var s := After(n, es); CanFinish(s, s.workers[w]) && !Finished(s.workers[w])
    ensures var s := After(n, es);
            && Enabled(s, e) && e.ByWorker()
            && CanFinish(Step(s, e), Step(s, e).workers[w])
  {
    var s := After(n, es);
    if s.locked && NeedsLock(s.workers[w]) {
      var m := SumPositive(s.workers, IsEntering());
      e := Wait(m);
    } else {
      e := NextStep(n, es, w);
    }
    FreesMove(s, e);
  }

  /** Some continuation of the run has the worker finished. */
  ghost predicate FinishAhead(n: nat, es: seq<Event>, w: nat) {
    exists more :: es <= more && Legal(n, more) && w < |After(n, more).workers| && Finished(After(n, more).workers[w])
  }

  lemma {:induction false} FinishNow(n: nat, es: seq<Event>, run: seq<Event>, w: nat)
    requires es <= run && Legal(n, run) && After(n, run).isExit
    requires w < |After(n, run).workers| && CanFinish(After(n, run), After(n, run).workers[w])
    ensures FinishAhead(n, es, w)
    decreases Measure(After(n, run))
  {
    if !Finished(After(n, run).workers[w]) {
      var e := StepTowardsEnd(n, run, w);
      StepDecreases(After(n, run), e);
      RunExtends(n, run, e);
      FinishNow(n, es, run + [e], w);
    }
  }

  /** Once the exit flag is set, a worker can finish if and only if enough workers are still to enter the wait. */
  lemma {:induction false} FinishAheadExactly(n: nat, es: seq<Event>, w: nat)
    requires Legal(n, es) && After(n, es).isExit && w < |After(n, es).workers|
    ensures FinishAhead(n, es, w) <==> CanFinish(After(n, es), After(n, es).workers[w])
  {
    if CanFinish(After(n, es), After(n, es).workers[w]) {
      FinishNow(n, es, es, w);
    }
    if more :| es <= more && Legal(n, more) && w < |After(n, more).workers| && Finished(After(n, more).workers[w]) {
      if !CanFinish(After(n, es), After(n, es).workers[w]) {
        UnfinishableStays(n, es, more, w);
      }
    }
  }

  ghost predicate AllFinished(s: State) {
    forall w | 0 <= w < |s.workers| :: Finished(s.workers[w])
  }

  /** Some continuation of the run has all workers finished. */
  ghost predicate AllFinishAhead(n: nat, es: seq<Event>) {
    exists more :: es <= more && Legal(n, more) && AllFinished(After(n, more))
  }

  /** Without a worker at the wait none has ever been there. */
  lemma {:induction false} NoneAtWait(s: State, w: nat)
    requires LockTraced(s) && !SomeAtWait(s) && w < |s.workers|
    ensures s.workers[w].AtLoop? || s.workers[w].Returned?
  {
    assert forall v | 0 <= v < |s.workers| :: !AtWait(s.workers[v]);
  }

  lemma {:induction false} OneLeft(s: State)
    requires SomeAtWait(s)
    ensures !AllFinished(s)
  {
    var w :| 0 <= w < |s.workers| && AtWait(s.workers[w]);
    assert !Finished(s.workers[w]);
  }

  lemma {:induction false} ReturnAll(n: nat, es: seq<Event>, run: seq<Event>)
    requires es <= run && Legal(n, run) && After(n, run).isExit
    requires forall worker | worker in After(n, run).workers :: worker.AtLoop? || worker.Returned?
    ensures AllFinishAhead(n, es)
    decreases Measure(After(n, run))
  {
    var s := After(n, run);
    if w: nat :| w < |s.workers| && s.workers[w].AtLoop? {
      StepDecreases(s, TestExit(w));
      RunExtends(n, run, TestExit(w));
      ReturnAll(n, es, run + [TestExit(w)]);
    } else {
      assert AllFinished(s);
    }
  }

  /**
    Once the exit flag is set, all workers can finish if and only if none of them has found it clear
    before: where one has, there is always one left at the wait.
   */
  lemma {:induction false} AllFinishAheadExactly(n: nat, es: seq<Event>)
    requires Legal(n, es) && After(n, es).isExit
    ensures AllFinishAhead(n, es) <==> !SomeAtWait(After(n, es))
  {
    RunKeepsLockTraced(n, es);
    if !SomeAtWait(After(n, es)) {
      forall worker | worker in After(n, es).workers
        ensures worker.AtLoop? || worker.Returned?
      {
        var w: nat :| w < |After(n, es).workers| && After(n, es).workers[w] == worker;
        NoneAtWait(After(n, es), w);
      }
      ReturnAll(n, es, es);
    }
    if more :| es <= more && Legal(n, more) && AllFinished(After(n, more)) {
      if SomeAtWait(After(n, es)) {
        assert more[..|es|] == es;
        SomeStaysAtWait(n, more, |es|);
        OneLeft(After(n, more));
      }
    }
  }

  /** One worker that tests the flag just before it is set is enough. */
  lemma {:induction false} ExitTooLate(n: nat) returns (es: seq<Event>)
    requires n > 0
    ensures es == [TestExit(0), NotifyAllAndClose]
    ensures Legal(n, es) && After(n, es).isExit && !AllFinishAhead(n, es)
  {
    RunExtends(n, [], TestExit(0));
    RunExtends(n, [] + [TestExit(0)], NotifyAllAndClose);
    es := [TestExit(0), NotifyAllAndClose];
    assert [] + [TestExit(0)] + [NotifyAllAndClose] == es;
    assert AtWait(After(n, es).workers[0]);
    AllFinishAheadExactly(n, es);
  }

  // ---------- Shutdown ----------

  /**
    When no worker holds a connection, whether or not they have finished, nothing is in use, and
    Shutdown gives back every connection ever made in the run, once per allocation.
   */
  lemma {:induction false} ShutdownWhenNoneHeld(n: nat, es: seq<Event>)
    requires Legal(n, es)
    requires forall w | 0 <= w < |After(n, es).workers| :: !After(n, es).workers[w].HasConnection?
    ensures var p := After(n, es).pool;
            && p.used == [] && p.pagedQuota == 0
            && multiset(Drained(p).freed) == multiset(p.created)
            && (Drained(p).workingSet == 0 <==> Wrap(p.failures) == 0)
  {
    Ownership.RunKeepsOwned(n, es);
    SumZero(After(n, es).workers, Ownership.HoldsSome());
    Ownership.CallsReachPool(n, es);
    PoolRuns.ShutdownGivesAllBack(Ownership.Calls(n, es));
    PoolRuns.RunKeepsSound(Ownership.Calls(n, es));
    WrapSmall(0);
  }
}
