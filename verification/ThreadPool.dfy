/** The request set and the worker threads of the thread pool. */
module ThreadPool {
  /** A PPerhandleDataDB: NULL, or the address of a request. */
  datatype Request = Null | At(address: nat)

  /** Where a worker stands in WorkerThread, with what it holds there. */
  datatype Worker =
    | AtLoop                                      // about to test _is_exit
    | Entering                                    // has found it false, about to enter _condition.wait
    | Waiting                                     // in _condition.wait
    | Woken                                       // back from the wait, about to call GetData
    | HasRequest(request: Request)                // about to call GetPool
    | HasConnection(request: Request, conn: nat)  // about to call ReleasePool
    | Requeueing(request: Request)                // asleep, about to call QueueRequest
    | Returned
    | Threw                                       // out of GetData by the exception

  /** The outcome of GetData. */
  datatype Fetched = Fetched(request: Request) | Thrown

  /** GetData on a set from which `first` would be taken: the set that is left, and the outcome. */
  function Fetch(queue: set<Request>, first: Request): (set<Request>, Fetched) {
    if queue == {} then (queue, Fetched(Null))
    else if first == Null then (queue - {Null}, Thrown)
    else (queue - {first}, Fetched(first))
  }

  /** The set after an insertion, which changes nothing if the pointer is there already. */
  function Inserted(queue: set<Request>, request: Request): set<Request> {
    queue + {request}
  }

  /** Threads that have been created and have not run yet. */
  function NewThreads(n: nat): seq<Worker> {
    seq(n, i => AtLoop)
  }

  /** cThreadPool. The thread group is the list of the positions of its threads. */
  class ThreadPool {
    var dataSet: set<Request>
    var isExit: bool
    var threads: seq<Worker>

    constructor ()
      ensures dataSet == {} && !isExit && threads == []
    {
      dataSet, isExit, threads := {}, false, [];
    }

    method QueueRequest(request: Request) returns (ok: bool)
      modifies this`dataSet
      ensures ok && dataSet == Inserted(old(dataSet), request)
    {
      dataSet := dataSet + {request};
      ok := true;
    }

    /** GetData; `first` is what `begin()` of the unordered set designates, any element of it. */
    method GetData() returns (result: Fetched, ghost first: Request)
      modifies this`dataSet
      ensures old(dataSet) != {} ==> first in old(dataSet)
      ensures Fetch(old(dataSet), first) == (dataSet, result)
      ensures result.Thrown? ==> Null in old(dataSet) && dataSet == old(dataSet) - {Null}
      ensures result == Fetched(Null) <==> old(dataSet) == {}
      ensures result.Fetched? && result.request != Null ==>
                result.request in old(dataSet) && dataSet == old(dataSet) - {result.request}
    {
      first := Null;
      if dataSet == {} {
        return Fetched(Null), first;
      }
      var request :| request in dataSet;
      first := request;
      dataSet := dataSet - {request};
      if request == Null {
        return Thrown, first;
      }
      return Fetched(request), first;
    }

    method NotifyAllAndClose()
      modifies this`isExit
      ensures isExit
    {
      isExit := true;
    }

    /** Initialize: on success the group has exactly the threads asked for, the new ones at the start of their loop. */
    method Initialize(numWorkerThreads: int) returns (ok: bool)
      modifies this`threads
      ensures threads == old(threads) + NewThreads(if numWorkerThreads < 0 then 0 else numWorkerThreads)
      ensures ok <==> |threads| == numWorkerThreads
      ensures old(threads) == [] ==> (ok <==> 0 <= numWorkerThreads)
    {
      var i := 0;
      while i < numWorkerThreads
        invariant if numWorkerThreads < 0 then i == 0 else 0 <= i <= numWorkerThreads
        invariant threads == old(threads) + NewThreads(i)
      {
        threads := threads + [AtLoop];
        i := i + 1;
      }
      ok := |threads| == numWorkerThreads;
    }
  }
}
