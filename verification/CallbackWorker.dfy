/** One callback worker as its critical sections see it: the queue of pending
    bodies, the `queue_not_empty` event and the shutdown flag. */
module CallbackWorker {
  import opened Basics

  datatype Status = NEW | PENDING | BUILDING | COMPLETE | FAILED | DELETING | DELETED | DELETEFAILED

  /** A callback body is told apart by the status it reports. */
  datatype Cell = Cell(queue: seq<Status>, notEmpty: bool, shutdown: bool) {
    /** The appending section of _enqueue, in two assignments. */
    function Appended(body: Status): Cell { this.(queue := queue + [body]) }

    function EventSet(): Cell { this.(notEmpty := true) }

    /** The popping section of _get_next_callback, in two assignments. */
    function Popped(): Cell
      requires queue != []
    {
      this.(queue := queue[1..])
    }

    function ClearedIfEmpty(): Cell { if queue == [] then this.(notEmpty := false) else this }

    /** The section of shut_down that wakes a worker sleeping on an empty queue. */
    function WokenIfEmpty(): Cell { if queue == [] then this.(notEmpty := true) else this }

    /** A sleeping worker always has a reason: with work, or after shutdown has
        been requested, the event is set. */
    predicate Awake() { (queue != [] || shutdown) ==> notEmpty }

    /** The event is set with work, and on an empty queue only after shutdown has
        been requested. */
    predicate Consistent() { (queue != [] ==> notEmpty) && (notEmpty ==> queue != [] || shutdown) }
  }

  /** A call of another thread: _enqueue or shut_down. */
  datatype Arrival = Body(b: Status) | Stop

  class Worker {
    var callbackQueue: seq<Status>
    var queueNotEmpty: bool
    var shutdown: bool

    function State(): Cell
      reads this
    {
      Cell(callbackQueue, queueNotEmpty, shutdown)
    }

    constructor ()
      ensures State() == Cell([], false, false)
    {
      callbackQueue, queueNotEmpty, shutdown := [], false, false;
    }

    /** _enqueue; `raised` is the "terminating worker thread" exception. */
    method Enqueue(statusUpdate: Status) returns (raised: bool)
      modifies this
      ensures raised == old(shutdown)
      ensures State() == if raised then old(State()) else old(State()).Appended(statusUpdate).EventSet()
    {
      if shutdown {
        return true;
      }
      callbackQueue := callbackQueue + [statusUpdate];
      queueNotEmpty := true;
      raised := false;
    }

    /** _get_next_callback. */
    method GetNextCallback() returns (next: Option<Status>)
      modifies this
      ensures next == if old(callbackQueue) == [] then None else Some(old(callbackQueue)[0])
      ensures State() == if next.None? then old(State()) else old(State()).Popped().ClearedIfEmpty()
    {
      if |callbackQueue| == 0 {
        return None;
      }
      next := Some(callbackQueue[0]);
      callbackQueue := callbackQueue[1..];
      if |callbackQueue| == 0 {
        queueNotEmpty := false;
      }
    }

    /** shut_down. */
    method ShutDown()
      modifies this
      ensures State() == old(State()).(shutdown := true).WokenIfEmpty()
      ensures old(State().queue != [] ==> State().notEmpty) ==> State().Awake()
    {
      shutdown := true;
      if |callbackQueue| == 0 {
        queueNotEmpty := true;
      }
    }

    // ----- The worker's loop among calls of other threads -----

    /** What is queued now or enqueued by later calls before a shutdown. */
    function Due(arrivals: seq<Arrival>): seq<Status>
      reads this
    {
      callbackQueue + Taken(shutdown, arrivals)
    }

    predicate ShutDownIn(arrivals: seq<Arrival>)
      reads this
    {
      shutdown || Stop in arrivals
    }

    /** The first of the calls. */
    method Arrive(arrivals: seq<Arrival>) returns (rest: seq<Arrival>)
      requires State().Consistent() && arrivals != []
      modifies this
      ensures rest == arrivals[1..] && State().Consistent() && (old(State().Awake()) ==> State().Awake())
      ensures Due(rest) == old(Due(arrivals)) && ShutDownIn(rest) == old(ShutDownIn(arrivals))
      ensures |callbackQueue| <= |old(callbackQueue)| + 1 && (arrivals[0] == Stop ==> State().Awake())
      ensures shutdown == (old(shutdown) || arrivals[0] == Stop)
    {
      rest := arrivals[1..];
      assert arrivals == [arrivals[0]] + rest;
      match arrivals[0]
      case Body(b) =>
        var raised := Enqueue(b);
        assert old(callbackQueue) + ([b] + Taken(shutdown, rest)) == old(callbackQueue) + [b] + Taken(shutdown, rest);
        assert [] + Taken(shutdown, rest) == Taken(shutdown, rest);
      case Stop =>
        ShutDown();
    }

    /** _wait_for_callback: calls arrive, some or as many as it takes to wake the
        worker; it sleeps on if there are no more. */
    method Wait(arrivals: seq<Arrival>) returns (rest: seq<Arrival>)
      requires State().Consistent() && State().Awake()
      modifies this
      ensures State().Consistent() && State().Awake() && (queueNotEmpty || rest == [])
      ensures Due(rest) == old(Due(arrivals)) && ShutDownIn(rest) == old(ShutDownIn(arrivals))
      ensures 2 * |rest| + |callbackQueue| <= 2 * |arrivals| + |old(callbackQueue)|
    {
      rest := arrivals;
      while rest != []
        invariant State().Consistent() && State().Awake()
        invariant Due(rest) == old(Due(arrivals)) && ShutDownIn(rest) == old(ShutDownIn(arrivals))
        invariant 2 * |rest| + |callbackQueue| <= 2 * |arrivals| + |old(callbackQueue)|
        decreases |rest|
      {
        if queueNotEmpty {
          if * {
            return;
          }
        }
        rest := Arrive(rest);
      }
    }

    /** The rest of a turn: the oldest body is attempted, and another call may
        arrive before the test for the end. */
    method Turn(arrivals: seq<Arrival>) returns (attempts: seq<Status>, rest: seq<Arrival>)
      requires State().Consistent() && State().Awake() && queueNotEmpty
      modifies this
      ensures State().Consistent() && (callbackQueue != [] || !shutdown ==> State().Awake())
      ensures attempts + Due(rest) == old(Due(arrivals)) && ShutDownIn(rest) == old(ShutDownIn(arrivals))
      ensures callbackQueue != [] || !shutdown ==>
                2 * |rest| + |callbackQueue| < 2 * |arrivals| + |old(callbackQueue)|
    {
      ghost var queue := callbackQueue;
      var next := GetNextCallback();
      attempts := if next.Some? then [next.value] else [];
      assert queue == attempts + callbackQueue;
      assert attempts + Due(arrivals) == old(Due(arrivals));
      rest := arrivals;
      if * {
        if rest != [] {
          rest := Arrive(rest);
        }
      }
    }

    /** __call__, while other threads enqueue and may request a shutdown. The loop
        ends exactly if a shutdown is requested, and has then attempted, in order,
        everything enqueued before that; without one the worker has attempted
        everything and sleeps. */
    method Call(arrivals: seq<Arrival>) returns (attempted: seq<Status>, ended: bool)
      requires State().Consistent() && State().Awake()
      modifies this
      ensures ended == old(ShutDownIn(arrivals)) && attempted == old(Due(arrivals))
      ensures callbackQueue == [] && (!ended ==> !queueNotEmpty)
    {
      attempted := [];
      var rest := arrivals;
      assert [] + Due(rest) == Due(rest);
      while true
        invariant State().Consistent() && State().Awake()
        invariant attempted + Due(rest) == old(Due(arrivals)) && ShutDownIn(rest) == old(ShutDownIn(arrivals))
        decreases 2 * |rest| + |callbackQueue|
      {
        rest := Wait(rest);
        if !queueNotEmpty {
          assert Due(rest) == [] && attempted + [] == attempted;
          return attempted, false;
        }
        var more;
        more, rest := Turn(rest);
        Regroup(attempted, more, Due(rest));
        attempted := attempted + more;
        if shutdown && |callbackQueue| == 0 {
          NothingTaken(rest);
          assert Due(rest) == [] && attempted + [] == attempted;
          return attempted, true;
        }
      }
    }
  }

  /** The bodies that are enqueued before a shutdown is requested. */
  function Taken(shutdown: bool, arrivals: seq<Arrival>): seq<Status>
    decreases |arrivals|
  {
    if arrivals == [] then []
    else if arrivals[0] == Stop then Taken(true, arrivals[1..])
    else (if shutdown then [] else [arrivals[0].b]) + Taken(shutdown, arrivals[1..])
  }

  lemma Regroup(a: seq<Status>, b: seq<Status>, c: seq<Status>)
    ensures a + (b + c) == a + b + c
  {
  }

  lemma {:induction false} NothingTaken(arrivals: seq<Arrival>)
    ensures Taken(true, arrivals) == []
  {
    if arrivals != [] {
      NothingTaken(arrivals[1..]);
      assert [] + Taken(true, arrivals[1..]) == Taken(true, arrivals[1..]);
    }
  }
}
