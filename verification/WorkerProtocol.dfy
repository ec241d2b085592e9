/**
  The workers, the clients and the shutdown request as a transition system over the request set and
  the connection pool. GetData, QueueRequest, GetPool and ReleasePool are one step each, because each
  holds its lock for its whole body; the steps of different workers interleave freely.

  The wait on the condition releases `_mutex` when it is entered and locks it again before it
  returns. The mutex is not recursive, so after a wait has returned no one can enter GetData or
  QueueRequest, nor return from another wait, until some worker enters the wait again.
 */
module WorkerProtocol {
  import opened ThreadPool
  import opened PoolModel

  /**
    `submitted`, `completed` and `absorbed` are histories: the QueueRequest calls of clients, the
    requests whose iteration ended with ReleasePool, and the insertions into the request set that
    changed nothing because the pointer was already there. `locked` says that a wait has returned
    and no worker has entered the wait since.
   */
  datatype State = State(
    workers: seq<Worker>,
    queue: set<Request>,
    pool: Pool<nat>,
    isExit: bool,
    locked: bool,
    submitted: multiset<Request>,
    completed: multiset<Request>,
    absorbed: multiset<Request>)

  datatype Event =
    | TestExit(w: nat)
    | Wait(w: nat)
    | WakeUp(w: nat)
    | GetData(w: nat, first: Request)
    | GetPool(w: nat, dead: bool, connects: bool, node: nat)
    | ReleasePool(w: nat)
    | Requeue(w: nat)
    | Submit(request: Request)
    | NotifyAllAndClose
  {
    predicate ByWorker() {
      !Submit? && !NotifyAllAndClose?
    }
  }

  /** All workers created by Initialize, nothing queued, an empty pool. */
  function Initial(n: nat): State {
    State(NewThreads(n), {}, EmptyPool(), false, false, multiset{}, multiset{}, multiset{})
  }

  predicate Enabled(s: State, e: Event) {
    && (e.ByWorker() ==> e.w < |s.workers|)
    && match e
       case TestExit(w) => s.workers[w].AtLoop?
       case Wait(w) => s.workers[w].Entering?
       case WakeUp(w) => s.workers[w].Waiting? && !s.locked
       case GetData(w, first) => s.workers[w].Woken? && !s.locked && (s.queue != {} ==> first in s.queue)
       case GetPool(w, dead, _, node) => s.workers[w].HasRequest? && Obtainable(s.pool, dead, node)
       case ReleasePool(w) => s.workers[w].HasConnection? && s.workers[w].conn in s.pool.used
       case Requeue(w) => s.workers[w].Requeueing? && !s.locked
       case Submit(_) => !s.locked
       case NotifyAllAndClose => true
  }

  function Insert(s: State, request: Request): State {
    s.(queue := Inserted(s.queue, request),
       absorbed := if request in s.queue then s.absorbed + multiset{request} else s.absorbed)
  }

  function MoveTo(s: State, w: nat, worker: Worker): State
    requires w < |s.workers|
  {
    s.(workers := s.workers[w := worker])
  }

  function Step(s: State, e: Event): State
    requires Enabled(s, e)
  {
    match e
    case TestExit(w) => MoveTo(s, w, if s.isExit then Returned else Entering)
    case Wait(w) => MoveTo(s.(locked := false), w, Waiting)
    case WakeUp(w) => MoveTo(s.(locked := true), w, Woken)
    case GetData(w, first) =>
      var (queue, fetched) := Fetch(s.queue, first);
      MoveTo(s.(queue := queue), w, if fetched.Thrown? then Threw else HasRequest(fetched.request))
    case GetPool(w, dead, connects, node) =>
      var request := s.workers[w].request;
      var (pool, got) := Acquire(s.pool, dead, connects, node);
      MoveTo(s.(pool := pool), w, if got.Some? then HasConnection(request, got.value) else Requeueing(request))
    case ReleasePool(w) =>
      var HasConnection(request, conn) := s.workers[w];
      MoveTo(s.(pool := Release(s.pool, conn, false), completed := s.completed + multiset{request}), w, AtLoop)
    case Requeue(w) => MoveTo(Insert(s, s.workers[w].request), w, AtLoop)
    case Submit(request) => Insert(s, request).(submitted := s.submitted + multiset{request})
    case NotifyAllAndClose => s.(isExit := true)
  }

  // ---------- Runs ----------

  predicate Legal(n: nat, es: seq<Event>)
    decreases |es|, 0
  {
    es == [] || (Legal(n, es[..|es| - 1]) && Enabled(After(n, es[..|es| - 1]), es[|es| - 1]))
  }

  /** The state a run of `n` workers has reached. */
  function After(n: nat, es: seq<Event>): State
    requires Legal(n, es)
    decreases |es|, 1
  {
    if es == [] then Initial(n) else Step(After(n, es[..|es| - 1]), es[|es| - 1])
  }

  lemma {:induction false} RunExtends(n: nat, es: seq<Event>, e: Event)
    requires Legal(n, es) && Enabled(After(n, es), e)
    ensures Legal(n, es + [e]) && After(n, es + [e]) == Step(After(n, es), e)
  {
    assert (es + [e])[..|es|] == es;
  }

  lemma {:induction false} StepSameWorkers(s: State, e: Event)
    requires Enabled(s, e)
    ensures |Step(s, e).workers| == |s.workers|
  {
  }

  lemma {:induction false} SameWorkers(n: nat, es: seq<Event>)
    requires Legal(n, es)
    ensures |After(n, es).workers| == n
  {
    if es != [] {
      var s := After(n, es[..|es| - 1]);
      SameWorkers(n, es[..|es| - 1]);
      StepSameWorkers(s, es[|es| - 1]);
    }
  }

  /** Every beginning of a run is a run. */
  lemma {:induction false} PrefixLegal(n: nat, es: seq<Event>, k: nat)
    requires Legal(n, es) && k <= |es|
    ensures Legal(n, es[..k])
    decreases |es|
  {
    if k < |es| {
      PrefixLegal(n, es[..|es| - 1], k);
      assert es[..|es| - 1][..k] == es[..k];
    } else {
      assert es[..k] == es;
    }
  }

  // ---------- Sums over workers ----------

  function Sum(ws: seq<Worker>, f: Worker -> nat): nat {
    if ws == [] then 0 else f(ws[0]) + Sum(ws[1..], f)
  }

  lemma {:induction false} SumUpdate(ws: seq<Worker>, f: Worker -> nat, w: nat, worker: Worker)
    requires w < |ws|
    ensures Sum(ws[w := worker], f) == Sum(ws, f) - f(ws[w]) + f(worker)
    ensures f(ws[w]) <= Sum(ws, f)
  {
    if w == 0 {
      assert ws[w := worker][1..] == ws[1..];
    } else {
      SumUpdate(ws[1..], f, w - 1, worker);
      assert ws[w := worker][1..] == ws[1..][w - 1 := worker];
    }
  }

  lemma {:induction false} SumZero(ws: seq<Worker>, f: Worker -> nat)
    requires forall w | 0 <= w < |ws| :: f(ws[w]) == 0
    ensures Sum(ws, f) == 0
  {
    if ws != [] {
      SumZero(ws[1..], f);
    }
  }

  lemma {:induction false} SumBound(ws: seq<Worker>, f: Worker -> nat, bound: nat)
    requires forall worker :: f(worker) <= bound
    ensures Sum(ws, f) <= bound * |ws|
  {
    if ws != [] {
      SumBound(ws[1..], f, bound);
    }
  }

  /** Two workers each contributing make the sum at least two. */
  lemma {:induction false} SumOfTwo(ws: seq<Worker>, f: Worker -> nat, v: nat, w: nat)
    requires v < w < |ws| && f(ws[v]) >= 1 && f(ws[w]) >= 1
    ensures Sum(ws, f) >= 2
  {
    if v == 0 {
      SumUpdate(ws[1..], f, w - 1, AtLoop);
    } else {
      SumOfTwo(ws[1..], f, v - 1, w - 1);
    }
  }

  lemma {:induction false} SumPositive(ws: seq<Worker>, f: Worker -> nat) returns (w: nat)
    requires Sum(ws, f) > 0
    ensures w < |ws| && f(ws[w]) > 0
  {
    if f(ws[0]) > 0 {
      w := 0;
    } else {
      var v := SumPositive(ws[1..], f);
      w := v + 1;
    }
  }
}
