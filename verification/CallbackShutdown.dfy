/** Shutting down ends every worker: after shut_down has run, a worker is never
    asleep on a clear event, drains its queue, and stops within a bound. */
module CallbackShutdown {
  import opened Basics
  import opened CallbackWorker
  import opened CallbackSystem

  // ----- One worker after shut_down -----

  /** The body a worker has popped but not yet attempted to PUT. */
  function InFlight(pc: WorkerPc): seq<Status> {
    if pc.Clearing? || pc.ReleasingSome? || pc.Putting? then [pc.b] else []
  }

  /** Everything handed to a worker so far that it has or will attempt. */
  function Accepted(x: W): seq<Status> { x.attempts + InFlight(x.pc) + x.cell.queue }

  /** A worker whose shutdown has been requested and announced. */
  predicate Settled(x: W) {
    && x.cell.shutdown
    && (x.holder == if WorkerHolds(x.pc) then ByWorker else Free)
    && (x.cell.queue != [] || x.pc.Waiting? || x.pc.Acquiring? || x.pc.Holding? ==> x.cell.notEmpty)
    && (x.pc.Ended? ==> x.cell.queue == [])
  }

  /** Work left: turns still needed to empty the queue, then steps to the exit. */
  function Measure(x: W): nat {
    if x.cell.queue == [] then
      match x.pc
      case Waiting => 9
      case Acquiring => 8
      case Holding => 7
      case Clearing(_) => 6
      case ReleasingSome(_) => 5
      case ReleasingNone => 5
      case Putting(_) => 4
      case CheckFlag => 3
      case CheckEmpty => 2
      case Ended => 0
    else
      20 * |x.cell.queue| +
      match x.pc
      case Clearing(_) => 8
      case ReleasingSome(_) => 7
      case ReleasingNone => 7
      case Putting(_) => 6
      case CheckFlag => 5
      case CheckEmpty => 4
      case Waiting => 3
      case Acquiring => 2
      case Holding => 1
      case Ended => 0
  }

  /** A settled worker that has not ended can take a step, stays settled, loses
      nothing, and gets closer to its end. */
  lemma SettledStep(x: W)
    requires Settled(x) && !x.pc.Ended?
    ensures WorkerNext(x).Some? && Settled(WorkerNext(x).value)
    ensures Measure(WorkerNext(x).value) < Measure(x)
    ensures Accepted(WorkerNext(x).value) == Accepted(x)
  {
    if x.pc.Holding? && x.cell.queue != [] {
      assert x.cell.queue == [x.cell.queue[0]] + x.cell.queue[1..];
    }
  }

  /** Left to itself the worker ends with an empty queue, having attempted
      everything it accepted, in order. The recursion is its own clock. */
  function Drain(x: W): (end: W)
    requires Settled(x)
    ensures end.pc.Ended? && end.cell.queue == [] && end.attempts == Accepted(x)
    decreases Measure(x)
  {
    if x.pc.Ended? then x
    else
      SettledStep(x);
      Drain(WorkerNext(x).value)
  }

  // ----- Inside the whole system -----

  predicate NoRepeats(ws: seq<Wid>) { forall i, j :: 0 <= i < j < |ws| ==> ws[i] != ws[j] }

  /** The workers whose shutdown flag the owner has yet to set. */
  function Left(pc: Pc, started: seq<Wid>): seq<Wid> {
    match pc
    case Shutting(rest) => rest
    case RemLock(w, rest) => [w] + rest
    case Removing(w, rest) => [w] + rest
    case RemRelease(w, rest) => [w] + rest
    case Flag(w, rest) => [w] + rest
    case ShutAcquire(_, rest) => rest
    case ShutTest(_, rest) => rest
    case ShutRelease(_, rest) => rest
    case Finished => []
    case _ => started
  }

  /** The owner visits every worker it started, each once. */
  ghost predicate OwnerInv(s: Sys) {
    && OWNER in s.pcs
    && NoRepeats(s.started) && NoRepeats(Left(s.pcs[OWNER], s.started))
    && (forall w :: w in Left(s.pcs[OWNER], s.started) ==> w in s.started)
    && (forall w :: w in s.started <==> w in s.workers)
    && (forall w :: w in s.workers ==> (s.workers[w].cell.shutdown <==> w !in Left(s.pcs[OWNER], s.started)))
  }

  lemma OwnerInvOther(s: Sys, t: Tid, c: Choice, s': Sys)
    requires OwnerInv(s) && t in s.pcs && t != OWNER && ThreadOk(s, t) && ThreadStep(s, t, c) == Some(s')
    ensures OwnerInv(s')
  {
    if OwnerOnly(s.pcs[t]) {
      assert false;
    }
    PostEffect(s, t, c, s');
    PostWorkersEffect(s, t, c, s');
    assert s'.started == s.started;
  }

  /** Posting neither starts nor shuts down a worker. */
  lemma PostFlags(s: Sys, c: Choice, s': Sys)
    requires OWNER in s.pcs && PostStep(s, OWNER, c) == Some(s') && !(s.pcs[OWNER].Idle? && c.StartWorker?)
    ensures s'.started == s.started && s'.workers.Keys == s.workers.Keys && OWNER in s'.pcs
    ensures forall w :: w in s.workers ==> s'.workers[w].cell.shutdown == s.workers[w].cell.shutdown
    ensures Left(s'.pcs[OWNER], s.started) == Left(s.pcs[OWNER], s.started)
  {
  }

  lemma OwnerInvPost(s: Sys, c: Choice, s': Sys)
    requires OwnerInv(s) && ThreadOk(s, OWNER) && PostStep(s, OWNER, c) == Some(s')
    ensures OwnerInv(s')
  {
    if s.pcs[OWNER].Idle? && c.StartWorker? {
      assert s'.started == s.started + [c.w];
    } else {
      PostFlags(s, c, s');
    }
  }

  lemma OwnerStepStarted(s: Sys, s': Sys)
    requires OWNER in s.pcs && OwnerStep(s, OWNER) == Some(s')
    ensures s'.started == s.started && OWNER in s'.pcs && s'.workers.Keys == s.workers.Keys
  {
  }

  lemma OwnerStepLeft(s: Sys, s': Sys)
    requires OWNER in s.pcs && OwnerStep(s, OWNER) == Some(s') && OWNER in s'.pcs
    ensures var l, l' := Left(s.pcs[OWNER], s.started), Left(s'.pcs[OWNER], s.started);
      if s.pcs[OWNER].Flag? then l == [s.pcs[OWNER].w] + l' else l' == l
  {
    var pc := s.pcs[OWNER];
    if pc.Shutting? && pc.rest != [] {
      assert pc.rest == [pc.rest[0]] + pc.rest[1..];
    }
  }

  lemma OwnerStepFlags(s: Sys, s': Sys, w: Wid)
    requires OWNER in s.pcs && OwnerStep(s, OWNER) == Some(s') && w in s.workers
    ensures w in s'.workers
    ensures s'.workers[w].cell.shutdown
        <==> (s.workers[w].cell.shutdown || (s.pcs[OWNER].Flag? && s.pcs[OWNER].w == w))
  {
  }

  lemma NoRepeatsTail(w: Wid, tail: seq<Wid>)
    requires NoRepeats([w] + tail)
    ensures NoRepeats(tail) && w !in tail
    ensures forall v :: v in [w] + tail <==> v == w || v in tail
  {
    var l := [w] + tail;
    assert l[0] == w && forall i :: 0 <= i < |tail| ==> tail[i] == l[i + 1];
  }

  lemma OwnerInvOwn(s: Sys, s': Sys)
    requires OwnerInv(s) && OwnerStep(s, OWNER) == Some(s')
    ensures OwnerInv(s')
  {
    OwnerStepStarted(s, s');
    OwnerStepLeft(s, s');
    if s.pcs[OWNER].Flag? {
      NoRepeatsTail(s.pcs[OWNER].w, Left(s'.pcs[OWNER], s.started));
    }
    forall w | w in s'.workers
      ensures s'.workers[w].cell.shutdown <==> w !in Left(s'.pcs[OWNER], s.started)
    {
      OwnerStepFlags(s, s', w);
    }
  }

  lemma OwnerInvThread(s: Sys, t: Tid, c: Choice, s': Sys)
    requires OwnerInv(s) && t in s.pcs && ThreadOk(s, t) && ThreadStep(s, t, c) == Some(s')
    ensures OwnerInv(s')
  {
    if t != OWNER {
      OwnerInvOther(s, t, c, s');
    } else if OwnerOnly(s.pcs[OWNER]) {
      OwnerInvOwn(s, s');
    } else {
      OwnerInvPost(s, c, s');
    }
  }

  lemma OwnerInvConsumer(s: Sys, w: Wid, s': Sys)
    requires OwnerInv(s) && Step(s, Consumer(w)) == Some(s')
    ensures OwnerInv(s')
  {
  }

  lemma OwnerInvStep(s: Sys, a: Action, s': Sys)
    requires Inv(s) && OwnerInv(s) && Step(s, a) == Some(s')
    ensures OwnerInv(s')
  {
    match a
    case Thread(t, c) =>
      assert ThreadOk(s, t);
      OwnerInvThread(s, t, c, s');
    case Consumer(w) => OwnerInvConsumer(s, w, s');
  }

  lemma {:induction false} RunKeepsOwnerInv(threads: set<Tid>, acts: seq<Action>)
    requires Run(Init(threads), acts).Some?
    ensures Inv(Run(Init(threads), acts).value) && OwnerInv(Run(Init(threads), acts).value)
  {
    InitInv(threads);
    RunKeepsInv(Init(threads), acts);
    if acts != [] {
      var before := acts[..|acts| - 1];
      RunKeepsOwnerInv(threads, before);
      OwnerInvStep(Run(Init(threads), before).value, acts[|acts| - 1], Run(Init(threads), acts).value);
    }
  }

  /** shut_down has run on worker `w` from beginning to end. */
  predicate ShutDown(s: Sys, w: Wid) {
    OWNER in s.pcs && w in s.workers && s.workers[w].cell.shutdown && w !in Engaged(s.pcs[OWNER])
  }

  /** No worker is left behind: in every reachable state a shut-down worker is
      settled, hence (SettledStep, Drain) able to move and bound to end. */
  lemma ShutDownSettles(s: Sys, w: Wid)
    requires Inv(s) && ShutDown(s, w)
    ensures Settled(s.workers[w])
  {
    assert WorkerOk(s, w) && ThreadOk(s, OWNER);
    assert s.workers[w].holder.By? ==> ThreadOk(s, s.workers[w].holder.t);
  }

  /** After shut_down nothing but the worker itself touches its state. */
  lemma ShutDownStays(s: Sys, a: Action, s': Sys, w: Wid)
    requires Inv(s) && OwnerInv(s) && ShutDown(s, w) && Step(s, a) == Some(s')
    ensures ShutDown(s', w)
    ensures if a == Consumer(w) then Some(s'.workers[w]) == WorkerNext(s.workers[w])
            else s'.workers[w] == s.workers[w]
  {
    if a.Thread? {
      assert ThreadOk(s, a.t) && ThreadOk(s, OWNER);
      assert WorkerOk(s, w);
      ThreadLeavesShutDown(s, a.t, a.c, s', w);
    }
  }

  lemma ThreadLeavesShutDown(s: Sys, t: Tid, c: Choice, s': Sys, w: Wid)
    requires t in s.pcs && ThreadOk(s, t) && OwnerInv(s) && ShutDown(s, w) && w !in s.observers
    requires ThreadStep(s, t, c) == Some(s')
    ensures ShutDown(s', w) && s'.workers[w] == s.workers[w]
  {
    assert w !in Left(s.pcs[OWNER], s.started);
    if OwnerOnly(s.pcs[t]) {
      OwnerEffect(s, t, c, s');
      OwnerWorkersEffect(s, t, c, s');
    } else {
      PostEffect(s, t, c, s');
      PostWorkersEffect(s, t, c, s');
    }
  }

  function Turns(acts: seq<Action>, w: Wid): nat {
    if acts == [] then 0
    else Turns(acts[..|acts| - 1], w) + if acts[|acts| - 1] == Consumer(w) then 1 else 0
  }

  /** One step of anyone, seen from a shut-down worker. */
  lemma ShutDownStep(s: Sys, a: Action, s': Sys, w: Wid)
    requires Inv(s) && OwnerInv(s) && ShutDown(s, w) && Step(s, a) == Some(s')
    ensures ShutDown(s', w) && Accepted(s'.workers[w]) == Accepted(s.workers[w])
    ensures Measure(s'.workers[w]) + (if a == Consumer(w) then 1 else 0) <= Measure(s.workers[w])
  {
    ShutDownStays(s, a, s', w);
    if a == Consumer(w) {
      ShutDownSettles(s, w);
      SettledStep(s.workers[w]);
    }
  }

  /** A shut-down worker that has not ended can always move. */
  lemma NeverStranded(s: Sys, w: Wid)
    requires Inv(s) && ShutDown(s, w) && !s.workers[w].pc.Ended?
    ensures Step(s, Consumer(w)).Some?
  {
    ShutDownSettles(s, w);
    SettledStep(s.workers[w]);
  }

  /** TERMINATION: in any continuation of any run, a shut-down worker takes at
      most `Measure` more steps, accepts nothing more and loses nothing. */
  lemma {:induction false} ShutDownEnds(s: Sys, acts: seq<Action>, w: Wid)
    requires Inv(s) && OwnerInv(s) && ShutDown(s, w) && Run(s, acts).Some?
    ensures var s' := Run(s, acts).value;
      && Inv(s') && OwnerInv(s') && ShutDown(s', w)
      && Turns(acts, w) + Measure(s'.workers[w]) <= Measure(s.workers[w])
      && Accepted(s'.workers[w]) == Accepted(s.workers[w])
  {
    if acts != [] {
      var before, a := acts[..|acts| - 1], acts[|acts| - 1];
      ShutDownEnds(s, before, w);
      StepKeepsInv(Run(s, before).value, a, Run(s, acts).value);
      OwnerInvStep(Run(s, before).value, a, Run(s, acts).value);
      ShutDownStep(Run(s, before).value, a, Run(s, acts).value, w);
    }
  }

  lemma StepKeepsInv(s: Sys, a: Action, s': Sys)
    requires Inv(s) && Step(s, a) == Some(s')
    ensures Inv(s')
  {
    match a
    case Thread(t, c) => ThreadKeepsInv(s, t, c, s');
    case Consumer(w) => ConsumerKeepsInv(s, w, s');
  }

  /** The event is set on an empty queue only after shutdown is requested (or
      inside the worker's own popping section), and work never waits behind a
      clear event outside _enqueue. */
  lemma EventMeansWork(threads: set<Tid>, acts: seq<Action>, w: Wid)
    requires Run(Init(threads), acts).Some? && w in Run(Init(threads), acts).value.workers
    ensures var x := Run(Init(threads), acts).value.workers[w];
      && (x.cell.notEmpty && x.cell.queue == [] ==> x.cell.shutdown || x.pc.Clearing?)
      && (x.holder == Free && x.cell.queue != [] ==> x.cell.notEmpty)
  {
    RunKeepsOwnerInv(threads, acts);
    assert WorkerOk(Run(Init(threads), acts).value, w);
  }
}
