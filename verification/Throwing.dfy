/** When GetData, and its exception, still lie ahead of a run. */
module Throwing {
  import opened ThreadPool
  import opened WorkerProtocol
  import opened Locking
  import opened NullRequests

  ghost predicate HasThrown(s: State) {
    exists w | 0 <= w < |s.workers| :: s.workers[w] == Threw
  }

  /** NULL is in the request set, or with a worker that is about to put it there. */
  ghost predicate NullLoose(s: State) {
    Null in s.queue || exists w | 0 <= w < |s.workers| :: s.workers[w] == Requeueing(Null)
  }

  /** The worker may come to call GetData again, as far as the exit flag is concerned. */
  predicate CanFetch(s: State, worker: Worker) {
    if s.isExit then AtWait(worker) else !Finished(worker)
  }

  /** The worker can come to enter the wait without locking `_mutex` before. */
  predicate GoesToWait(s: State, worker: Worker) {
    worker.Entering? || (!s.isExit && (worker.AtLoop? || worker.HasRequest? || worker.HasConnection?))
  }

  /** The worker can come to enter the wait, which frees `_mutex`. */
  predicate CanFree(s: State, worker: Worker) {
    GoesToWait(s, worker) || (!s.isExit && !s.locked && worker.Requeueing?)
  }

  /** A worker is about to call GetData, and nothing holds it up. */
  ghost predicate FetchReady(s: State) {
    !s.locked && SomeWoken(s)
  }

  ghost predicate FreesFor(s: State, m: nat, x: nat) {
    && m < |s.workers| && x < |s.workers| && m != x
    && CanFree(s, s.workers[m]) && CanFetch(s, s.workers[x])
  }

  /** GetData can be called at once, or one worker can free the mutex for another that can still fetch. */
  ghost predicate FetchOpen(s: State) {
    FetchReady(s) || exists m: nat, x: nat :: FreesFor(s, m, x)
  }

  ghost predicate CanThrow(s: State) {
    HasThrown(s) || (NullLoose(s) && FetchOpen(s))
  }

  /** Neither a failing allocation nor a NULL from a client. */
  predicate Harmless(e: Event) {
    (e.GetPool? ==> e.connects) && (e.Submit? ==> e.request != Null)
  }

  /** `more` goes on from `es` with harmless events only. */
  ghost predicate GoesOn(es: seq<Event>, more: seq<Event>) {
    es <= more && forall i | |es| <= i < |more| :: Harmless(more[i])
  }

  /** Some harmless continuation of the run comes to a GetData. */
  ghost predicate FetchAhead(n: nat, es: seq<Event>) {
    exists more, w: nat, first :: GoesOn(es, more) && Legal(n, more) && Enabled(After(n, more), GetData(w, first))
  }

  /** Some harmless continuation of the run makes GetData throw. */
  ghost predicate ThrowAhead(n: nat, es: seq<Event>) {
    exists more :: GoesOn(es, more) && Legal(n, more) && HasThrown(After(n, more))
  }

  // ---------- What is closed stays closed ----------

  /** A worker that can free the mutex is, while fetching is closed, the only one that can fetch. */
  lemma {:induction false} OnlyOne(s: State, m: nat, x: nat)
    requires !FetchOpen(s) && m < |s.workers| && x < |s.workers| && m != x
    ensures !(CanFree(s, s.workers[m]) && CanFetch(s, s.workers[x]))
  {
    assert !FreesFor(s, m, x);
  }

  lemma {:induction false} FetchIsReady(s: State, w: nat, first: Request)
    requires Enabled(s, GetData(w, first))
    ensures FetchReady(s)
  {
    assert s.workers[w].Woken?;
  }

  lemma {:induction false} StepIsNotReady(s: State, e: Event)
    requires Enabled(s, e) && !FetchOpen(s)
    ensures !e.GetData? && !FetchReady(Step(s, e))
  {
    if e.GetData? {
      FetchIsReady(s, e.w, e.first);
    }
    var t := Step(s, e);
    if FetchReady(t) {
      var x :| 0 <= x < |t.workers| && t.workers[x].Woken?;
      assert s.workers[x].Woken?;
      OnlyOne(s, e.w, x);
    }
  }

  lemma {:induction false} StepDoesNotFree(s: State, e: Event, m: nat, x: nat)
    requires Enabled(s, e) && !FetchOpen(s) && !e.GetData?
    ensures !FreesFor(Step(s, e), m, x)
  {
    var t := Step(s, e);
    if FreesFor(t, m, x) {
      OnlyOne(s, m, x);
      if e.ByWorker() && e.w != x {
        OnlyOne(s, e.w, x);
      }
      if e.ByWorker() && e.w != m {
        OnlyOne(s, e.w, m);
      }
    }
  }

  lemma {:induction false} StepKeepsClosed(s: State, e: Event)
    requires Enabled(s, e) && !FetchOpen(s)
    ensures !e.GetData? && !FetchOpen(Step(s, e))
  {
    StepIsNotReady(s, e);
    forall m: nat, x: nat
      ensures !FreesFor(Step(s, e), m, x)
    {
      StepDoesNotFree(s, e, m, x);
    }
  }

  lemma {:induction false} ClosedStays(n: nat, es: seq<Event>, more: seq<Event>)
    requires es <= more && Legal(n, more) && Legal(n, es) && !FetchOpen(After(n, es))
    ensures !FetchOpen(After(n, more))
    decreases |more|
  {
    if |more| == |es| {
      assert more == es;
    } else {
      ClosedStays(n, es, more[..|more| - 1]);
      StepKeepsClosed(After(n, more[..|more| - 1]), more[|more| - 1]);
    }
  }

  // ---------- What is open can be entered ----------

  lemma {:induction false} StepKeepsLoose(s: State, e: Event)
    requires Enabled(s, e) && !e.GetData? && NullLoose(s)
    ensures NullLoose(Step(s, e))
  {
    var t := Step(s, e);
    if Null !in s.queue {
      var w :| 0 <= w < |s.workers| && s.workers[w] == Requeueing(Null);
      assert Null in t.queue || t.workers[w] == Requeueing(Null);
    }
  }

  lemma {:induction false} OneMore(n: nat, es: seq<Event>, run: seq<Event>, e: Event) returns (more: seq<Event>)
    requires GoesOn(es, run) && Legal(n, run) && Enabled(After(n, run), e) && Harmless(e)
    ensures GoesOn(es, more) && Legal(n, more) && After(n, more) == Step(After(n, run), e)
    ensures !e.GetData? && NullLoose(After(n, run)) ==> NullLoose(After(n, more))
  {
    RunExtends(n, run, e);
    more := run + [e];
    if !e.GetData? && NullLoose(After(n, run)) {
      StepKeepsLoose(After(n, run), e);
    }
  }

  /** How many steps the worker is away from GetData. */
  function Away(worker: Worker): nat {
    match worker
    case Woken => 1
    case Waiting => 2
    case Entering => 3
    case AtLoop => 4
    case HasConnection(_, _) => 5
    case Requeueing(_) => 5
    case HasRequest(_) => 6
    case _ => 0
  }

  /** `more` goes on from `run` to a state in which a worker can call GetData, and NULL has not been taken. */
  ghost predicate LeadsToFetch(n: nat, es: seq<Event>, run: seq<Event>, more: seq<Event>)
    requires Legal(n, run)
  {
    && GoesOn(es, more) && Legal(n, more) && FetchReady(After(n, more))
    && (NullLoose(After(n, run)) ==> NullLoose(After(n, more)))
  }

  lemma {:induction false} GetsToWait(s: State, e: Event, m: nat)
    requires Enabled(s, e) && e.ByWorker() && e.w == m && (e.GetPool? ==> e.connects)
    requires GoesToWait(s, s.workers[m])
    ensures var t := Step(s, e);
            && |t.workers| == |s.workers| && t.isExit == s.isExit
            && (if e.Wait? then !t.locked else GoesToWait(t, t.workers[m]) && Away(t.workers[m]) < Away(s.workers[m]))
            && forall x | 0 <= x < |s.workers| && x != m :: t.workers[x] == s.workers[x]
  {
  }

  /** One worker has been woken; another goes to the wait and frees the mutex. */
  lemma {:induction false} FreeForWoken(n: nat, es: seq<Event>, run: seq<Event>, m: nat) returns (more: seq<Event>)
    requires GoesOn(es, run) && Legal(n, run) && SomeWoken(After(n, run))
    requires m < |After(n, run).workers| && GoesToWait(After(n, run), After(n, run).workers[m])
    ensures LeadsToFetch(n, es, run, more)
    decreases Away(After(n, run).workers[m])
  {
    var s := After(n, run);
    var x :| 0 <= x < |s.workers| && s.workers[x].Woken?;
    var e := NextStep(n, run, m);
    GetsToWait(s, e, m);
    more := OneMore(n, es, run, e);
    assert After(n, more).workers[x].Woken?;
    if !e.Wait? {
      more := FreeForWoken(n, es, more, m);
    }
  }

  /** A worker that can fetch gets nearer to GetData, and only being woken locks the mutex. */
  lemma {:induction false} GetsNearer(s: State, e: Event, x: nat)
    requires Enabled(s, e) && e.ByWorker() && e.w == x && (e.GetPool? ==> e.connects)
    requires !s.locked && CanFetch(s, s.workers[x]) && !s.workers[x].Woken?
    ensures var t := Step(s, e);
            && |t.workers| == |s.workers| && t.isExit == s.isExit && (t.locked <==> t.workers[x].Woken?)
            && CanFetch(t, t.workers[x]) && Away(t.workers[x]) < Away(s.workers[x])
            && forall m | 0 <= m < |s.workers| && m != x :: t.workers[m] == s.workers[m]
  {
  }

  /** One worker goes on until it is woken, and then another frees the mutex for it. */
  lemma {:induction false} WakeAndFree(n: nat, es: seq<Event>, run: seq<Event>, m: nat, x: nat) returns (more: seq<Event>)
    requires GoesOn(es, run) && Legal(n, run) && !After(n, run).locked
    requires m < |After(n, run).workers| && GoesToWait(After(n, run), After(n, run).workers[m])
    requires x < |After(n, run).workers| && x != m && CanFetch(After(n, run), After(n, run).workers[x])
    ensures LeadsToFetch(n, es, run, more)
    decreases Away(After(n, run).workers[x])
  {
    if After(n, run).workers[x].Woken? {
      more := run;
    } else {
      var e := NextStep(n, run, x);
      GetsNearer(After(n, run), e, x);
      more := OneMore(n, es, run, e);
      if After(n, more).workers[x].Woken? {
        more := FreeForWoken(n, es, more, m);
      } else {
        more := WakeAndFree(n, es, more, m, x);
      }
    }
  }

  lemma {:induction false} OpenLeadsToFetch(n: nat, es: seq<Event>) returns (more: seq<Event>)
    requires Legal(n, es) && FetchOpen(After(n, es))
    ensures LeadsToFetch(n, es, es, more)
  {
    var s := After(n, es);
    if FetchReady(s) {
      more := es;
    } else {
      var m: nat, x: nat :| FreesFor(s, m, x);
      if s.locked {
        RunKeepsLockTraced(n, es);
        more := FreeForWoken(n, es, es, m);
      } else if s.workers[m].Requeueing? {
        more := OneMore(n, es, es, Requeue(m));
        more := WakeAndFree(n, es, more, m, x);
      } else {
        more := WakeAndFree(n, es, es, m, x);
      }
    }
  }

  lemma {:induction false} ReadyFetches(s: State) returns (w: nat, first: Request)
    requires FetchReady(s)
    ensures Enabled(s, GetData(w, first))
  {
    w :| w < |s.workers| && s.workers[w].Woken?;
    first :| s.queue == {} || first in s.queue;
  }

  /**
    A call of GetData lies ahead of a run, with allocation never failing and no NULL from clients, if
    and only if a woken worker finds the mutex free, or some worker can come to free it for another one.
   */
  lemma {:induction false} FetchAheadExactly(n: nat, es: seq<Event>)
    requires Legal(n, es)
    ensures FetchAhead(n, es) <==> FetchOpen(After(n, es))
  {
    if FetchOpen(After(n, es)) {
      var more := OpenLeadsToFetch(n, es);
      var w, first := ReadyFetches(After(n, more));
    }
    if more, w: nat, first :| GoesOn(es, more) && Legal(n, more) && Enabled(After(n, more), GetData(w, first)) {
      FetchIsReady(After(n, more), w, first);
      if !FetchOpen(After(n, es)) {
        ClosedStays(n, es, more);
      }
    }
  }

  // ---------- The exception ----------

  lemma {:induction false} StepLeavesNullAway(s: State, e: Event)
    requires Enabled(s, e) && Harmless(e) && !NullLoose(s)
    ensures !NullLoose(Step(s, e))
  {
    if e.ByWorker() {
      assert s.workers[e.w] != Requeueing(Null);
    }
  }

  lemma {:induction false} StepDoesNotThrow(s: State, e: Event)
    requires Enabled(s, e) && !HasThrown(s) && (!NullLoose(s) || !FetchOpen(s))
    ensures !HasThrown(Step(s, e))
  {
    if e.GetData? {
      assert s.workers[e.w].Woken?;
    }
  }

  lemma {:induction false} CannotThrowStays(n: nat, es: seq<Event>, more: seq<Event>)
    requires GoesOn(es, more) && Legal(n, more) && Legal(n, es) && !CanThrow(After(n, es))
    ensures !CanThrow(After(n, more))
    decreases |more|
  {
    if |more| == |es| {
      assert more == es;
    } else {
      var prefix, e := more[..|more| - 1], more[|more| - 1];
      CannotThrowStays(n, es, prefix);
      var s := After(n, prefix);
      StepDoesNotThrow(s, e);
      if NullLoose(s) {
        StepKeepsClosed(s, e);
      } else {
        StepLeavesNullAway(s, e);
      }
    }
  }

  lemma {:induction false} ThrowAtOnce(n: nat, es: seq<Event>, run: seq<Event>, w: nat)
    requires GoesOn(es, run) && Legal(n, run) && !After(n, run).locked && Null in After(n, run).queue
    requires w < |After(n, run).workers| && After(n, run).workers[w].Woken?
    ensures ThrowAhead(n, es)
  {
    var more := OneMore(n, es, run, GetData(w, Null));
    assert After(n, more).workers[w] == Threw;
  }

  /** NULL is put into the set, if it is not there yet, and the worker that can fetch is given it. */
  lemma {:induction false} ThrowWhenReady(n: nat, es: seq<Event>, run: seq<Event>)
    requires GoesOn(es, run) && Legal(n, run) && FetchReady(After(n, run)) && NullLoose(After(n, run))
    ensures ThrowAhead(n, es)
  {
    var s := After(n, run);
    var w: nat :| w < |s.workers| && s.workers[w].Woken?;
    if Null in s.queue {
      ThrowAtOnce(n, es, run, w);
    } else {
      var v: nat :| v < |s.workers| && s.workers[v] == Requeueing(Null);
      var more := OneMore(n, es, run, Requeue(v));
      ThrowAtOnce(n, es, more, w);
    }
  }

  /**
    The exception lies ahead of a run, with allocation never failing again and no NULL from clients,
    if and only if it has come already, or NULL is loose and a call of GetData lies ahead.
   */
  lemma {:induction false} ThrowAheadExactly(n: nat, es: seq<Event>)
    requires Legal(n, es)
    ensures ThrowAhead(n, es) <==> CanThrow(After(n, es))
  {
    assert GoesOn(es, es);
    if CanThrow(After(n, es)) && !HasThrown(After(n, es)) {
      var more := OpenLeadsToFetch(n, es);
      ThrowWhenReady(n, es, more);
    }
    if more :| GoesOn(es, more) && Legal(n, more) && HasThrown(After(n, more)) {
      if !CanThrow(After(n, es)) {
        CannotThrowStays(n, es, more);
      }
    }
  }

  /** As long as a call of GetData lies ahead, the exception does if and only if an idle worker was once turned away. */
  lemma {:induction false} NullAtLargeMeansThrow(n: nat, es: seq<Event>)
    requires Legal(n, es) && ClientsNonNull(es) && FetchOpen(After(n, es))
    ensures ThrowAhead(n, es) <==> NullStory(n, es)
  {
    ThrowAheadExactly(n, es);
    NullAtLargeExactly(n, es);
  }

  // ---------- From the start ----------

  /** Some run of `n` workers, with no NULL from clients, throws. */
  ghost predicate Throws(n: nat) {
    exists es :: Legal(n, es) && ClientsNonNull(es) && HasThrown(After(n, es))
  }

  lemma {:induction false} Then(n: nat, es: seq<Event>, e: Event) returns (more: seq<Event>)
    requires Legal(n, es) && ClientsNonNull(es) && Enabled(After(n, es), e) && !e.Submit?
    ensures Legal(n, more) && ClientsNonNull(more) && After(n, more) == Step(After(n, es), e)
  {
    RunExtends(n, es, e);
    more := es + [e];
  }

  /** Two workers come to wait in turn; the first, woken with nothing queued, fails to connect. */
  lemma {:induction false} NullIsQueued(n: nat) returns (es: seq<Event>)
    requires n >= 2
    ensures Legal(n, es) && ClientsNonNull(es)
    ensures var s := After(n, es);
            && !s.locked && !s.isExit && s.queue == {Null} && |s.workers| == n
            && s.workers[0] == AtLoop && s.workers[1] == Waiting
  {
    es := [];
    es := Then(n, es, TestExit(0));
    es := Then(n, es, Wait(0));
    es := Then(n, es, WakeUp(0));
    es := Then(n, es, TestExit(1));
    es := Then(n, es, Wait(1));
    es := Then(n, es, GetData(0, Null));
    es := Then(n, es, GetPool(0, false, false, 0));
    es := Then(n, es, Requeue(0));
  }

  lemma {:induction false} TwoThrow(n: nat) returns (es: seq<Event>)
    requires n >= 2
    ensures Legal(n, es) && ClientsNonNull(es) && HasThrown(After(n, es))
  {
    es := NullIsQueued(n);
    es := Then(n, es, WakeUp(1));
    es := Then(n, es, TestExit(0));
    es := Then(n, es, Wait(0));
    es := Then(n, es, GetData(1, Null));
    assert After(n, es).workers[1] == Threw;
  }

  lemma {:induction false} OnlyFetchThrows(s: State, e: Event)
    requires Enabled(s, e) && !HasThrown(s) && !e.GetData?
    ensures !HasThrown(Step(s, e))
  {
  }

  lemma {:induction false} OneDoesNotThrow(n: nat, es: seq<Event>)
    requires n < 2 && Legal(n, es)
    ensures !HasThrown(After(n, es))
  {
    if es != [] {
      OneDoesNotThrow(n, es[..|es| - 1]);
      OneNeverFetches(n, es, |es| - 1);
      OnlyFetchThrows(After(n, es[..|es| - 1]), es[|es| - 1]);
    }
  }

  /** Without NULL from clients, GetData can throw if and only if there are at least two workers. */
  lemma {:induction false} ThrowsExactly(n: nat)
    ensures Throws(n) <==> n >= 2
  {
    if n >= 2 {
      var es := TwoThrow(n);
    }
    if es :| Legal(n, es) && ClientsNonNull(es) && HasThrown(After(n, es)) {
      if n < 2 {
        OneDoesNotThrow(n, es);
      }
    }
  }
}
