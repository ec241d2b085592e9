/** Where every submitted request is. */
module Requests {
  import opened Wrappers
  import opened ThreadPool
  import opened WorkerProtocol

  function RequestOf(worker: Worker): Option<Request> {
    match worker
    case HasRequest(r) => Some(r)
    case HasConnection(r, _) => Some(r)
    case Requeueing(r) => Some(r)
    case _ => None
  }

  function HoldsRequest(r: Request): Worker -> nat {
    (worker: Worker) => if RequestOf(worker) == Some(r) then 1 else 0
  }

  ghost function Queued(s: State, r: Request): nat {
    if r in s.queue then 1 else 0
  }

  ghost function InHands(s: State, r: Request): nat {
    Sum(s.workers, HoldsRequest(r))
  }

  // ---------- What one step does to a request ----------

  /** From `s` to `t`, `r` has been submitted and absorbed that many times, and otherwise only been passed on. */
  ghost predicate Moves(s: State, t: State, r: Request, submitted: nat, absorbed: nat) {
    && t.submitted[r] == s.submitted[r] + submitted
    && t.absorbed[r] == s.absorbed[r] + absorbed
    && t.completed[r] >= s.completed[r]
    && Queued(t, r) + InHands(t, r) + t.completed[r] + absorbed == Queued(s, r) + InHands(s, r) + s.completed[r] + submitted
  }

  lemma {:induction false} HandsMove(s: State, t: State, w: nat, r: Request)
    requires w < |s.workers| == |t.workers| && t.workers == s.workers[w := t.workers[w]]
    ensures InHands(t, r) == InHands(s, r) - HoldsRequest(r)(s.workers[w]) + HoldsRequest(r)(t.workers[w])
    ensures HoldsRequest(r)(s.workers[w]) <= InHands(s, r)
  {
    SumUpdate(s.workers, HoldsRequest(r), w, t.workers[w]);
  }

  lemma {:induction false} GetDataMoves(s: State, e: Event, r: Request)
    requires Enabled(s, e) && e.GetData? && r != Null
    ensures Moves(s, Step(s, e), r, 0, 0)
  {
    HandsMove(s, Step(s, e), e.w, r);
  }

  lemma {:induction false} GetPoolMoves(s: State, e: Event, r: Request)
    requires Enabled(s, e) && e.GetPool?
    ensures Moves(s, Step(s, e), r, 0, 0)
  {
    HandsMove(s, Step(s, e), e.w, r);
  }

  lemma {:induction false} ReleasePoolMoves(s: State, e: Event, r: Request)
    requires Enabled(s, e) && e.ReleasePool?
    ensures Moves(s, Step(s, e), r, 0, 0)
  {
    HandsMove(s, Step(s, e), e.w, r);
  }

  /** Requeueing `r` is absorbed if `r` is in the set, which makes two of it. */
  lemma {:induction false} RequeueMoves(s: State, e: Event, r: Request) returns (absorbed: nat)
    requires Enabled(s, e) && e.Requeue?
    ensures Moves(s, Step(s, e), r, 0, absorbed)
    ensures absorbed > 0 ==> Queued(s, r) + InHands(s, r) >= 2
  {
    absorbed := if s.workers[e.w].request == r && r in s.queue then 1 else 0;
    HandsMove(s, Step(s, e), e.w, r);
  }

  lemma {:induction false} SubmitMoves(s: State, request: Request, r: Request)
    requires !s.locked
    ensures var submitted := if request == r then 1 else 0;
            Moves(s, Step(s, Submit(request)), r, submitted, if r in s.queue then submitted else 0)
  {
  }

  lemma {:induction false} OtherStepMoves(s: State, e: Event, r: Request)
    requires Enabled(s, e) && (e.TestExit? || e.Wait? || e.WakeUp? || e.NotifyAllAndClose?)
    ensures Moves(s, Step(s, e), r, 0, 0)
  {
    if e.ByWorker() {
      HandsMove(s, Step(s, e), e.w, r);
    }
  }

  lemma {:induction false} StepMoves(s: State, e: Event, r: Request) returns (submitted: nat, absorbed: nat)
    requires Enabled(s, e) && r != Null
    ensures Moves(s, Step(s, e), r, submitted, absorbed)
    ensures submitted == if e == Submit(r) then 1 else 0
    ensures absorbed > 0 ==> if e == Submit(r) then r in s.queue else Queued(s, r) + InHands(s, r) >= 2
  {
    submitted, absorbed := 0, 0;
    match e
    case GetData(_, _) => GetDataMoves(s, e, r);
    case GetPool(_, _, _, _) => GetPoolMoves(s, e, r);
    case ReleasePool(_) => ReleasePoolMoves(s, e, r);
    case Requeue(_) => absorbed := RequeueMoves(s, e, r);
    case Submit(request) =>
      SubmitMoves(s, request, r);
      submitted, absorbed := if request == r then 1 else 0, if request == r && r in s.queue then 1 else 0;
    case _ => OtherStepMoves(s, e, r);
  }

  // ---------- Any clients ----------

  /** Every submission of `r` is queued, in a worker's hands, completed, or met its own pointer in the set. */
  ghost predicate Accounted(s: State, r: Request) {
    s.submitted[r] == Queued(s, r) + InHands(s, r) + s.completed[r] + s.absorbed[r]
  }

  /**
    Request conservation, with no assumption on the clients: in every reachable state every
    submission of a request is in exactly one place. NULL is the one pointer it does not hold for,
    since GetData on an empty set hands it out without a submission.
   */
  lemma {:induction false} RequestConservation(n: nat, es: seq<Event>, r: Request)
    requires Legal(n, es) && r != Null
    ensures Accounted(After(n, es), r)
  {
    if es == [] {
      SumZero(NewThreads(n), HoldsRequest(r));
    } else {
      RequestConservation(n, es[..|es| - 1], r);
      var _, _ := StepMoves(After(n, es[..|es| - 1]), es[|es| - 1], r);
    }
  }

  // ---------- Clients that do not resubmit ----------

  /** No client submits `r` while it is queued or in a worker's hands. */
  ghost predicate Disciplined(n: nat, es: seq<Event>, r: Request)
    requires Legal(n, es)
  {
    if es == [] then true
    else
      var s, e := After(n, es[..|es| - 1]), es[|es| - 1];
      Disciplined(n, es[..|es| - 1], r) && (e == Submit(r) ==> Queued(s, r) + InHands(s, r) == 0)
  }

  ghost predicate InOnePlace(s: State, r: Request) {
    Queued(s, r) + InHands(s, r) <= 1 && s.absorbed[r] == 0
  }

  lemma {:induction false} DisciplineKeepsInOnePlace(n: nat, es: seq<Event>, r: Request)
    requires Legal(n, es) && Disciplined(n, es, r) && r != Null
    ensures InOnePlace(After(n, es), r)
  {
    if es == [] {
      SumZero(NewThreads(n), HoldsRequest(r));
    } else {
      DisciplineKeepsInOnePlace(n, es[..|es| - 1], r);
      var _, _ := StepMoves(After(n, es[..|es| - 1]), es[|es| - 1], r);
    }
  }

  /**
    A request that no client submits while it is queued or held, whatever the clients do with
    others, is never absorbed: it is completed as often as it was submitted, or once less, and then
    it is either queued or held by a single worker.
   */
  lemma {:induction false} NoRequestLostOrShared(n: nat, es: seq<Event>, r: Request)
    requires Legal(n, es) && Disciplined(n, es, r) && r != Null
    ensures var s := After(n, es);
            && s.submitted[r] == s.completed[r] + Queued(s, r) + InHands(s, r)
            && s.submitted[r] <= s.completed[r] + 1
            && (forall v, w | 0 <= v < w < |s.workers| ::
                  !(RequestOf(s.workers[v]) == Some(r) && RequestOf(s.workers[w]) == Some(r)))
  {
    RequestConservation(n, es, r);
    DisciplineKeepsInOnePlace(n, es, r);
    var s := After(n, es);
    forall v, w | 0 <= v < w < |s.workers|
      ensures !(RequestOf(s.workers[v]) == Some(r) && RequestOf(s.workers[w]) == Some(r))
    {
      if RequestOf(s.workers[v]) == Some(r) && RequestOf(s.workers[w]) == Some(r) {
        SumOfTwo(s.workers, HoldsRequest(r), v, w);
      }
    }
  }
}
