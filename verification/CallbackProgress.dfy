/** Locks do not block for ever: whenever the owner has work to do, it or the
    holder of a lock that it waits for can step, and every holder of a lock
    releases it within a bounded number of its own steps. */
module CallbackProgress {
  import opened Basics
  import opened CallbackWorker
  import opened CallbackSystem
  import opened CallbackShutdown

  /** The steps that the holder of the centre's lock has left before releasing it,
      apart from waiting for a queue lock. */
  function CentreWork(pc: Pc): nat {
    match pc
    case Notifying(todo) => 6 * |todo| + 1
    case CheckShut(_, _, todo) => 6 * |todo| + 6
    case AcquireQ(_, _, todo) => 6 * |todo| + 5
    case Append(_, _, todo) => 6 * |todo| + 4
    case SetEvent(_, todo) => 6 * |todo| + 3
    case ReleaseQ(_, todo) => 6 * |todo| + 2
    case Adding(_) => 2
    case AddRelease => 1
    case Removing(_, _) => 2
    case RemRelease(_, _) => 1
    case _ => 0
  }

  predicate Nearer(s: Sys, t: Tid, s': Sys)
    requires t in s.pcs
  {
    t in s'.pcs && if HoldsCentre(s'.pcs[t]) then CentreWork(s'.pcs[t]) < CentreWork(s.pcs[t]) else s'.lock == None
  }

  lemma NotifyingNearer(s: Sys, t: Tid, c: Choice, s': Sys)
    requires t in s.pcs && s.pcs[t].Notifying? && PostStep(s, t, c) == Some(s')
    ensures Nearer(s, t, s')
  {
    if c.Notify? && c.w in s.pcs[t].todo {
      assert |s.pcs[t].todo - {c.w}| == |s.pcs[t].todo| - 1;
    }
  }

  lemma EnqueueNearer(s: Sys, t: Tid, c: Choice, s': Sys)
    requires t in s.pcs && (s.pcs[t].CheckShut? || Enqueuing(s.pcs[t])) && PostStep(s, t, c) == Some(s')
    requires t in s'.pcs && s'.pcs[t] != Raised
    ensures Nearer(s, t, s')
  {
  }

  /** Every step of the holder of the centre's lock releases it or brings its
      release nearer. */
  lemma CentreReleased(s: Sys, t: Tid, c: Choice, s': Sys)
    requires t in s.pcs && ThreadOk(s, t) && HoldsCentre(s.pcs[t]) && Step(s, Thread(t, c)) == Some(s')
    requires t in s'.pcs && s'.pcs[t] != Raised
    ensures Nearer(s, t, s')
  {
    if s.pcs[t].Notifying? {
      NotifyingNearer(s, t, c, s');
    } else if !OwnerOnly(s.pcs[t]) {
      EnqueueNearer(s, t, c, s');
    }
  }

  /** The steps that the holder of a queue lock has left before releasing it. */
  function QueueWork(pc: Pc): nat {
    if pc.Append? then 3 else if pc.SetEvent? || pc.ShutTest? then 2
    else if pc.ReleaseQ? || pc.ShutRelease? then 1 else 0
  }

  function WorkerWork(pc: WorkerPc): nat {
    if pc.Holding? then 3 else if pc.Clearing? then 2 else if pc.ReleasingSome? || pc.ReleasingNone? then 1 else 0
  }

  /** The holder of a queue lock never waits, and releases the lock within three
      steps. */
  lemma QueueReleased(s: Sys, t: Tid, c: Choice)
    requires t in s.pcs && ThreadOk(s, t) && QueueHeld(s.pcs[t]) != {}
    ensures Step(s, Thread(t, c)).Some?
    ensures QueueWork(Step(s, Thread(t, c)).value.pcs[t]) < QueueWork(s.pcs[t])
    ensures var pc, s' := s.pcs[t], Step(s, Thread(t, c)).value;
      QueueWork(s'.pcs[t]) == 0 ==> pc.w in s'.workers && s'.workers[pc.w].holder == Free
  {
    assert s.pcs[t].w in QueueHeld(s.pcs[t]);
  }

  lemma WorkerReleases(x: W)
    requires WorkerHolds(x.pc) && x.holder == ByWorker
    ensures WorkerNext(x).Some? && WorkerWork(WorkerNext(x).value.pc) < WorkerWork(x.pc)
    ensures WorkerWork(WorkerNext(x).value.pc) == 0 ==> WorkerNext(x).value.holder == Free
  {
  }

  /** Whoever holds the queue lock of `w` can step. */
  lemma QueueHolderSteps(s: Sys, w: Wid) returns (a: Action)
    requires Inv(s) && w in s.workers && s.workers[w].holder != Free
    ensures Step(s, a).Some?
    ensures a == if s.workers[w].holder.By? then Thread(s.workers[w].holder.t, Go) else Consumer(w)
  {
    assert WorkerOk(s, w);
    if s.workers[w].holder.By? {
      var t := s.workers[w].holder.t;
      assert ThreadOk(s, t);
      QueueReleased(s, t, Go);
      a := Thread(t, Go);
    } else {
      WorkerReleases(s.workers[w]);
      a := Consumer(w);
    }
  }

  /** The queue lock that a thread is about to take. */
  function Wanted(pc: Pc): set<Wid> { if pc.AcquireQ? || pc.ShutAcquire? then {pc.w} else {} }

  /** A choice with which a thread can go on: in a notification, some observer. */
  ghost function NextChoice(pc: Pc): Choice {
    if pc.Notifying? && pc.todo != {} then
      var w :| w in pc.todo;
      Notify(w)
    else Go
  }

  /** A thread in the middle of something is enabled unless a lock that it wants
      is taken. */
  lemma StepsOrWaits(s: Sys, t: Tid)
    requires t in s.pcs && ThreadOk(s, t) && s.observers <= s.workers.Keys
    requires !s.pcs[t].Idle? && !s.pcs[t].Finished?
    requires t == OWNER && OwnerOnly(s.pcs[t]) ==> forall w :: w in Left(s.pcs[t], s.started) ==> w in s.workers
    ensures || Step(s, Thread(t, NextChoice(s.pcs[t]))).Some?
            || (s.lock != None && s.lock != Some(t))
            || (exists w :: w in Wanted(s.pcs[t]) && w in s.workers && s.workers[w].holder != Free)
  {
    var pc := s.pcs[t];
    if pc.AcquireQ? {
      assert pc.w in Targets(pc) && pc.w in Wanted(pc);
    } else if pc.ShutAcquire? {
      assert pc.w in Wanted(pc);
    } else if OwnerOnly(pc) {
      OwnerSteps(s);
    } else if pc.CheckShut? {
      assert pc.w in Targets(pc);
    } else if QueueHeld(pc) != {} {
      QueueReleased(s, t, Go);
    }
  }

  lemma OwnerSteps(s: Sys)
    requires OWNER in s.pcs && ThreadOk(s, OWNER) && OwnerOnly(s.pcs[OWNER])
    requires !s.pcs[OWNER].Finished? && !s.pcs[OWNER].ShutAcquire?
    requires forall w :: w in Left(s.pcs[OWNER], s.started) ==> w in s.workers
    ensures OwnerStep(s, OWNER).Some? || (s.lock != None && s.lock != Some(OWNER))
  {
    var pc := s.pcs[OWNER];
    if pc.Removing? || pc.Flag? {
      assert pc.w in Left(pc, s.started);
    } else if pc.ShutTest? || pc.ShutRelease? {
      assert pc.w in QueueHeld(pc);
    }
  }

  /** NO DEADLOCK: in every reachable state in which the owner is neither idle nor
      finished, it can step, or the thread that holds the centre's lock can, or
      whoever holds a queue lock that one of them wants. */
  lemma OwnerNotBlocked(threads: set<Tid>, acts: seq<Action>, s: Sys) returns (a: Action)
    requires Run(Init(threads), acts) == Some(s) && OWNER in s.pcs
    requires !s.pcs[OWNER].Idle? && !s.pcs[OWNER].Finished?
    ensures Step(s, a).Some?
    ensures a.Thread? ==> a.t in s.pcs && (a.t == OWNER || HoldsCentre(s.pcs[a.t]) || QueueHeld(s.pcs[a.t]) != {})
    ensures a.Consumer? ==> a.w in s.workers && WorkerHolds(s.workers[a.w].pc)
  {
    RunKeepsOwnerInv(threads, acts);
    assert ThreadOk(s, OWNER);
    assert forall w :: w in Left(s.pcs[OWNER], s.started) ==> w in s.workers;
    StepsOrWaits(s, OWNER);
    if Step(s, Thread(OWNER, NextChoice(s.pcs[OWNER]))).Some? {
      a := Thread(OWNER, NextChoice(s.pcs[OWNER]));
    } else if w :| w in Wanted(s.pcs[OWNER]) && w in s.workers && s.workers[w].holder != Free {
      a := HolderAction(s, w);
    } else {
      a := CentreAction(s);
    }
  }

  lemma HolderAction(s: Sys, w: Wid) returns (a: Action)
    requires Inv(s) && w in s.workers && s.workers[w].holder != Free
    ensures Step(s, a).Some?
    ensures a.Thread? ==> a.t in s.pcs && QueueHeld(s.pcs[a.t]) != {}
    ensures a.Consumer? ==> a.w in s.workers && WorkerHolds(s.workers[a.w].pc)
  {
    a := QueueHolderSteps(s, w);
    assert WorkerOk(s, w);
  }

  lemma CentreAction(s: Sys) returns (a: Action)
    requires Inv(s) && OwnerInv(s) && s.lock != None
    ensures Step(s, a).Some?
    ensures a.Thread? ==> a.t in s.pcs && (HoldsCentre(s.pcs[a.t]) || QueueHeld(s.pcs[a.t]) != {})
    ensures a.Consumer? ==> a.w in s.workers && WorkerHolds(s.workers[a.w].pc)
  {
    var t := s.lock.value;
    assert ThreadOk(s, t);
    StepsOrWaits(s, t);
    if Step(s, Thread(t, NextChoice(s.pcs[t]))).Some? {
      a := Thread(t, NextChoice(s.pcs[t]));
    } else {
      var w :| w in Wanted(s.pcs[t]) && w in s.workers && s.workers[w].holder != Free;
      a := HolderAction(s, w);
    }
  }

  /** The owner's own steps left in _shutdown_callback_workers. */
  function ShutdownWork(pc: Pc): nat {
    match pc
    case Shutting(rest) => 8 * |rest| + 1
    case RemLock(_, rest) => 8 * |rest| + 8
    case Removing(_, rest) => 8 * |rest| + 7
    case RemRelease(_, rest) => 8 * |rest| + 6
    case Flag(_, rest) => 8 * |rest| + 5
    case ShutAcquire(_, rest) => 8 * |rest| + 4
    case ShutTest(_, rest) => 8 * |rest| + 3
    case ShutRelease(_, rest) => 8 * |rest| + 2
    case _ => 0
  }

  /** Shutting the workers down ends: every step of the owner brings it closer. */
  lemma ShutdownAdvances(s: Sys, s': Sys)
    requires OWNER in s.pcs && ShutdownWork(s.pcs[OWNER]) > 0 && OwnerStep(s, OWNER) == Some(s')
    ensures OWNER in s'.pcs && ShutdownWork(s'.pcs[OWNER]) < ShutdownWork(s.pcs[OWNER])
    ensures ShutdownWork(s'.pcs[OWNER]) == 0 ==> s'.pcs[OWNER].Finished?
  {
    var pc := s.pcs[OWNER];
    if pc.Shutting? {
      assert pc.rest != [] ==> s'.pcs[OWNER] == RemLock(pc.rest[0], pc.rest[1..]);
    }
  }
}
