/** Where NULL in the request set comes from, and when GetData throws because of it. */
module NullRequests {
  import opened Wrappers
  import opened ThreadPool
  import opened PoolModel
  import opened WorkerProtocol

  ghost predicate ClientsNonNull(es: seq<Event>) {
    forall i | 0 <= i < |es| :: es[i].Submit? ==> es[i].request != Null
  }

  ghost predicate AllocationNeverFails(es: seq<Event>) {
    forall i | 0 <= i < |es| :: es[i].GetPool? ==> es[i].connects
  }

  predicate FetchBy(e: Event, w: nat) {
    e.GetData? && e.w == w
  }

  /** The last GetData of worker `w` before `j` is at `i`, and found the request set empty. */
  ghost predicate LastFetchWasEmpty(n: nat, es: seq<Event>, i: nat, j: nat, w: nat) {
    && i < j <= |es| && FetchBy(es[i], w)
    && Legal(n, es[..i]) && After(n, es[..i]).queue == {}
    && forall k | i < k < j :: !FetchBy(es[k], w)
  }

  /** At `j` worker `w`, with a NULL in its hands, fails to get a connection. */
  ghost predicate NullTurnedAway(n: nat, es: seq<Event>, j: nat, w: nat) {
    && j < |es| && es[j].GetPool? && es[j].w == w
    && Legal(n, es[..j]) && Enabled(After(n, es[..j]), es[j])
    && After(n, es[..j]).workers[w] == HasRequest(Null)
    && Acquire(After(n, es[..j]).pool, es[j].dead, es[j].connects, es[j].node).1 == None
  }

  /** Some worker saw the set empty at `i`, and was turned away with that NULL at `j`. */
  ghost predicate NullStory(n: nat, es: seq<Event>) {
    exists i: nat, j: nat, w: nat :: LastFetchWasEmpty(n, es, i, j, w) && NullTurnedAway(n, es, j, w)
  }

  /** NULL is in the request set, on its way there, or has been taken from it. */
  ghost predicate NullAtLarge(s: State) {
    Null in s.queue || exists w | 0 <= w < |s.workers| :: s.workers[w] == Requeueing(Null) || s.workers[w] == Threw
  }

  lemma {:induction false} LastFetchGoesOn(n: nat, es: seq<Event>, i: nat, j: nat, w: nat)
    requires es != [] && LastFetchWasEmpty(n, es[..|es| - 1], i, j, w)
    ensures LastFetchWasEmpty(n, es, i, j, w)
    ensures j == |es| - 1 && !FetchBy(es[j], w) ==> LastFetchWasEmpty(n, es, i, |es|, w)
  {
    var prefix := es[..|es| - 1];
    assert prefix[..i] == es[..i];
    assert forall k | i < k < j :: es[k] == prefix[k];
  }

  lemma {:induction false} TurnedAwayGoesOn(n: nat, es: seq<Event>, j: nat, w: nat)
    requires es != [] && NullTurnedAway(n, es[..|es| - 1], j, w)
    ensures NullTurnedAway(n, es, j, w)
  {
    assert es[..|es| - 1][..j] == es[..j];
  }

  lemma {:induction false} StoryGoesOn(n: nat, es: seq<Event>)
    requires es != [] && NullStory(n, es[..|es| - 1])
    ensures NullStory(n, es)
  {
    var prefix := es[..|es| - 1];
    var i: nat, j: nat, w: nat :| LastFetchWasEmpty(n, prefix, i, j, w) && NullTurnedAway(n, prefix, j, w);
    LastFetchGoesOn(n, es, i, j, w);
    TurnedAwayGoesOn(n, es, j, w);
  }

  /** A worker comes to hold NULL only by a GetData on an empty set. */
  lemma {:induction false} StepIntoNull(s: State, e: Event, w: nat)
    requires Enabled(s, e) && w < |s.workers| && Step(s, e).workers[w] == HasRequest(Null)
    ensures if FetchBy(e, w) then s.queue == {} else s.workers[w] == HasRequest(Null)
  {
  }

  /** A worker that holds NULL before GetPool got it from an empty request set. */
  lemma {:induction false} NullInHandsIsFromEmptySet(n: nat, es: seq<Event>, w: nat) returns (i: nat)
    requires Legal(n, es) && w < |After(n, es).workers| && After(n, es).workers[w] == HasRequest(Null)
    ensures LastFetchWasEmpty(n, es, i, |es|, w)
  {
    SameWorkers(n, es);
    if es != [] {
      var prefix, e := es[..|es| - 1], es[|es| - 1];
      SameWorkers(n, prefix);
      StepIntoNull(After(n, prefix), e, w);
      if FetchBy(e, w) {
        i := |es| - 1;
      } else {
        i := NullInHandsIsFromEmptySet(n, prefix, w);
        LastFetchGoesOn(n, es, i, |es| - 1, w);
      }
    }
  }

  /** NULL gets loose only in a step in which a worker holding it fails to get a connection. */
  lemma {:induction false} NullGetsLoose(s: State, e: Event) returns (w: nat)
    requires Enabled(s, e) && (e.Submit? ==> e.request != Null)
    requires !NullAtLarge(s) && NullAtLarge(Step(s, e))
    ensures e.GetPool? && e.w == w && s.workers[w] == HasRequest(Null)
    ensures Acquire(s.pool, e.dead, e.connects, e.node).1 == None
  {
    w := e.w;
  }

  /** When clients submit only non-NULL pointers, NULL is at large only after a worker's story. */
  lemma {:induction false} NullOnlyFromFailedIdleWorker(n: nat, es: seq<Event>)
    requires Legal(n, es) && ClientsNonNull(es) && NullAtLarge(After(n, es))
    ensures NullStory(n, es)
  {
    if es != [] {
      var prefix, e := es[..|es| - 1], es[|es| - 1];
      var s := After(n, prefix);
      if NullAtLarge(s) {
        NullOnlyFromFailedIdleWorker(n, prefix);
        StoryGoesOn(n, es);
      } else {
        var w := NullGetsLoose(s, e);
        var i := NullInHandsIsFromEmptySet(n, prefix, w);
        LastFetchGoesOn(n, es, i, |es| - 1, w);
        assert NullTurnedAway(n, es, |es| - 1, w);
      }
    }
  }

  lemma {:induction false} StepKeepsNullAtLarge(s: State, e: Event)
    requires Enabled(s, e) && NullAtLarge(s)
    ensures NullAtLarge(Step(s, e))
  {
    var t := Step(s, e);
    if Null in s.queue {
      if Null !in t.queue {
        assert t.workers[e.w] == Threw;
      }
    } else {
      var w :| 0 <= w < |s.workers| && (s.workers[w] == Requeueing(Null) || s.workers[w] == Threw);
      if Null !in t.queue {
        assert t.workers[w] == s.workers[w];
      }
    }
  }

  lemma {:induction false} NullStaysAtLarge(n: nat, es: seq<Event>, k: nat)
    requires k <= |es| && Legal(n, es) && (PrefixLegal(n, es, k); NullAtLarge(After(n, es[..k])))
    ensures NullAtLarge(After(n, es))
    decreases |es|
  {
    if k == |es| {
      assert es[..k] == es;
    } else {
      var prefix := es[..|es| - 1];
      assert prefix[..k] == es[..k];
      NullStaysAtLarge(n, prefix, k);
      StepKeepsNullAtLarge(After(n, prefix), es[|es| - 1]);
    }
  }

  /** The worker turned away with NULL in its hands is about to put it into the set. */
  lemma {:induction false} TurnedAwayIsAtLarge(n: nat, es: seq<Event>, j: nat, w: nat)
    requires Legal(n, es) && NullTurnedAway(n, es, j, w)
    ensures NullAtLarge(After(n, es))
  {
    PrefixLegal(n, es, j + 1);
    assert es[..j + 1][..j] == es[..j];
    assert After(n, es[..j + 1]).workers[w] == Requeueing(Null);
    NullStaysAtLarge(n, es, j + 1);
  }

  /**
    When clients submit only non-NULL pointers, NULL is in the request set, on its way there, or has
    made GetData throw, if and only if some worker whose GetData saw an empty set was then turned
    away by GetPool.
   */
  lemma {:induction false} NullAtLargeExactly(n: nat, es: seq<Event>)
    requires Legal(n, es) && ClientsNonNull(es)
    ensures NullAtLarge(After(n, es)) <==> NullStory(n, es)
  {
    if NullAtLarge(After(n, es)) {
      NullOnlyFromFailedIdleWorker(n, es);
    }
    if NullStory(n, es) {
      var i: nat, j: nat, w: nat :| LastFetchWasEmpty(n, es, i, j, w) && NullTurnedAway(n, es, j, w);
      TurnedAwayIsAtLarge(n, es, j, w);
    }
  }

  lemma {:induction false} StoryHasFailure(n: nat, es: seq<Event>)
    requires NullStory(n, es)
    ensures !AllocationNeverFails(es)
  {
    var i: nat, j: nat, w: nat :| LastFetchWasEmpty(n, es, i, j, w) && NullTurnedAway(n, es, j, w);
    assert !es[j].connects;
  }

  /** In every run where allocation never fails, and clients submit no NULL, GetData does not throw. */
  lemma {:induction false} ThrowUnreachable(n: nat, es: seq<Event>)
    requires Legal(n, es) && ClientsNonNull(es) && AllocationNeverFails(es)
    ensures Null !in After(n, es).queue
    ensures forall w | 0 <= w < |After(n, es).workers| :: After(n, es).workers[w] != Threw
  {
    if NullAtLarge(After(n, es)) {
      NullOnlyFromFailedIdleWorker(n, es);
      StoryHasFailure(n, es);
    }
  }

  /** A step in which a worker throws takes NULL out of the set, and nothing else. */
  lemma {:induction false} ThrowTakesNull(s: State, e: Event, w: nat)
    requires Enabled(s, e) && w < |s.workers| && s.workers[w] != Threw && Step(s, e).workers[w] == Threw
    ensures Null in s.queue && Step(s, e).queue == s.queue - {Null}
  {
  }
}
