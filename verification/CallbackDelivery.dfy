/** End to end: the bodies a worker attempts to PUT are exactly the status
    changes its image made while the worker was registered, in order, when the
    owning build is the only thread that sets the image's status. */
module CallbackDelivery {
  import opened Basics
  import opened CallbackWorker
  import opened CallbackSystem
  import opened CallbackShutdown

  // ----- Repeated statuses -----

  /** The status after some changes. */
  function After(changes: seq<Status>): Status {
    if changes == [] then NEW else changes[|changes| - 1]
  }

  /** Every recorded change differs from the status before it. */
  predicate NoStutter(changes: seq<Status>, now: Status) {
    now == After(changes) && forall i :: 0 <= i < |changes| ==> changes[i] != After(changes[..i])
  }

  lemma StepKeepsChanges(s: Sys, a: Action, s': Sys)
    requires Step(s, a) == Some(s')
    ensures if s'.changes == s.changes then s'.status == s.status
            else s'.changes == s.changes + [s'.status] && s'.status != s.status
  {
    if a.Thread? && OwnerOnly(s.pcs[a.t]) {
      assert s'.changes == s.changes && s'.status == s.status;
    }
  }

  lemma NoStutterNext(changes: seq<Status>, now: Status, next: Status)
    requires NoStutter(changes, now) && next != now
    ensures NoStutter(changes + [next], next)
  {
    var more := changes + [next];
    forall i | 0 <= i < |more|
      ensures more[i] != After(more[..i])
    {
      assert i < |changes| ==> more[i] == changes[i];
      assert more[..i] == changes[..i];
    }
  }

  lemma StepKeepsNoStutter(s: Sys, a: Action, s': Sys)
    requires NoStutter(s.changes, s.status) && Step(s, a) == Some(s')
    ensures NoStutter(s'.changes, s'.status)
  {
    StepKeepsChanges(s, a, s');
    if s'.changes != s.changes {
      NoStutterNext(s.changes, s.status, s'.status);
    }
  }

  lemma {:induction false} ChangesNeverRepeat(threads: set<Tid>, acts: seq<Action>)
    requires Run(Init(threads), acts).Some?
    ensures NoStutter(Run(Init(threads), acts).value.changes, Run(Init(threads), acts).value.status)
  {
    if acts != [] {
      var before := acts[..|acts| - 1];
      ChangesNeverRepeat(threads, before);
      StepKeepsNoStutter(Run(Init(threads), before).value, acts[|acts| - 1], Run(Init(threads), acts).value);
    }
  }

  // ----- Exactly once, in order -----

  /** What the owner's current post still owes to an observer `w`. */
  function Pending(s: Sys, w: Wid): seq<Status>
    requires OWNER in s.pcs
  {
    match s.pcs[OWNER]
    case WantPost => if w in s.observers then [s.status] else []
    case Notifying(todo) => if w in todo then [s.status] else []
    case CheckShut(v, b, todo) => if w == v then [b] else if w in todo then [s.status] else []
    case AcquireQ(v, b, todo) => if w == v then [b] else if w in todo then [s.status] else []
    case Append(v, b, todo) => if w == v then [b] else if w in todo then [s.status] else []
    case SetEvent(_, todo) => if w in todo then [s.status] else []
    case ReleaseQ(_, todo) => if w in todo then [s.status] else []
    case _ => []
  }

  /** The changes made while the worker was (or still is) registered. */
  function Span(s: Sys, x: W): seq<Status>
    requires x.since <= |s.changes| && (x.until.Some? ==> x.since <= x.until.value <= |s.changes|)
  {
    if x.until.Some? then s.changes[x.since..x.until.value] else s.changes[x.since..]
  }

  predicate Posting(pc: Pc) {
    pc.CheckShut? || pc.AcquireQ? || pc.Append? || pc.SetEvent? || pc.ReleaseQ?
  }

  predicate Delivered(s: Sys, w: Wid)
    requires OWNER in s.pcs && w in s.workers
  {
    var x, pc := s.workers[w], s.pcs[OWNER];
    && x.since <= |s.changes| && (x.until.Some? ==> x.since <= x.until.value <= |s.changes|)
    && Accepted(x) + Pending(s, w) == Span(s, x)
    && (w in s.observers ==> x.until == None)
    && (w !in s.observers && x.until == None ==> (pc.AddLock? || pc.Adding?) && pc.w == w && Accepted(x) == [])
    && (x.until.Some? ==> x.until.value == |s.changes|)
    && (x.until.Some? ==> OwnerOnly(pc) && !pc.AddLock? && !pc.Adding? && !pc.AddRelease?)
    && (Posting(pc) ==> pc.w !in pc.todo)
  }

  predicate Exact(s: Sys) {
    && s.pcs.Keys == {OWNER}
    && forall w :: w in s.workers ==> Delivered(s, w)
  }

  lemma AcceptedKept(x: W)
    requires WorkerNext(x).Some?
    ensures Accepted(WorkerNext(x).value) == Accepted(x)
    ensures WorkerNext(x).value.since == x.since && WorkerNext(x).value.until == x.until
  {
    if x.pc.Holding? && x.cell.queue != [] {
      assert x.cell.queue == [x.cell.queue[0]] + x.cell.queue[1..];
    }
  }

  lemma ConsumerKeepsDelivered(s: Sys, v: Wid, s': Sys, w: Wid)
    requires OWNER in s.pcs && Step(s, Consumer(v)) == Some(s') && w in s.workers && Delivered(s, w)
    ensures Delivered(s', w)
  {
    AcceptedKept(s.workers[v]);
    assert Pending(s', w) == Pending(s, w);
  }

  lemma SetKeepsDelivered(s: Sys, c: Choice, s': Sys, w: Wid)
    requires OWNER in s.pcs && w in s.workers && Delivered(s, w)
    requires s.pcs[OWNER].Idle? && c.SetStatus? && PostStep(s, OWNER, c) == Some(s')
    ensures Delivered(s', w)
  {
    var x := s.workers[w];
    assert x.until == None && w in s.observers;
    if s' != s {
      assert s'.changes[x.since..] == s.changes[x.since..] + [c.v];
      assert Pending(s, w) == [] && Pending(s', w) == [c.v];
    }
  }

  lemma AppendKeepsDelivered(s: Sys, c: Choice, s': Sys, w: Wid)
    requires OWNER in s.pcs && w in s.workers && Delivered(s, w)
    requires s.pcs[OWNER].Append? && PostStep(s, OWNER, c) == Some(s')
    ensures w in s'.workers && Delivered(s', w)
  {
    var pc, x, x' := s.pcs[OWNER], s.workers[w], s'.workers[w];
    if w == pc.w {
      assert Accepted(x') == Accepted(x) + [pc.b];
      assert Pending(s, w) == [pc.b] && Pending(s', w) == [];
    } else {
      assert x' == x && Pending(s, w) == Pending(s', w);
    }
    assert Span(s', x') == Span(s, x);
  }

  /** Steps that neither change the status nor append to a queue. */
  predicate Quiet(pc: Pc, c: Choice) { !(pc.Idle? && c.SetStatus?) && !pc.Append? }

  lemma QuietPending(s: Sys, c: Choice, s': Sys, w: Wid)
    requires OWNER in s.pcs && Quiet(s.pcs[OWNER], c) && PostStep(s, OWNER, c) == Some(s')
    requires OWNER in s'.pcs && !s'.pcs[OWNER].Raised?
    ensures Pending(s', w) == Pending(s, w)
  {
  }

  lemma QuietWorker(s: Sys, c: Choice, s': Sys, w: Wid)
    requires OWNER in s.pcs && Quiet(s.pcs[OWNER], c) && PostStep(s, OWNER, c) == Some(s') && w in s.workers
    ensures w in s'.workers && s'.changes == s.changes && s'.observers == s.observers
    ensures var x, x' := s.workers[w], s'.workers[w];
      Accepted(x') == Accepted(x) && x'.since == x.since && x'.until == x.until
  {
  }

  lemma QuietKeepsDelivered(s: Sys, c: Choice, s': Sys, w: Wid)
    requires OWNER in s.pcs && w in s.workers && Delivered(s, w)
    requires Quiet(s.pcs[OWNER], c) && PostStep(s, OWNER, c) == Some(s')
    requires OWNER in s'.pcs && !s'.pcs[OWNER].Raised?
    ensures w in s'.workers && Delivered(s', w)
  {
    QuietPending(s, c, s', w);
    QuietWorker(s, c, s', w);
  }

  lemma NewWorkerDelivered(s: Sys, c: Choice, s': Sys, w: Wid)
    requires OWNER in s.pcs && PostStep(s, OWNER, c) == Some(s') && w in s'.workers && w !in s.workers
    requires s.observers <= s.workers.Keys
    ensures Delivered(s', w)
  {
  }

  lemma OwnerWorkerKept(s: Sys, s': Sys, w: Wid)
    requires OWNER in s.pcs && OwnerStep(s, OWNER) == Some(s') && w in s.workers
    ensures w in s'.workers && s'.changes == s.changes && Accepted(s'.workers[w]) == Accepted(s.workers[w])
  {
    OwnerKeepsQueue(s, s', w);
  }

  lemma OwnerKeepsQueue(s: Sys, s': Sys, w: Wid)
    requires OWNER in s.pcs && OwnerStep(s, OWNER) == Some(s') && w in s.workers
    ensures w in s'.workers && s'.workers[w].pc == s.workers[w].pc
    ensures s'.workers[w].attempts == s.workers[w].attempts && s'.workers[w].cell.queue == s.workers[w].cell.queue
  {
  }

  lemma OwnerOwesNothing(s: Sys, s': Sys, w: Wid)
    requires OWNER in s.pcs && OwnerStep(s, OWNER) == Some(s')
    ensures OWNER in s'.pcs && Pending(s, w) == [] && Pending(s', w) == []
  {
  }

  lemma OwnerKeepsDelivered(s: Sys, s': Sys, w: Wid)
    requires OWNER in s.pcs && ThreadOk(s, OWNER) && w in s.workers && Delivered(s, w)
    requires OwnerStep(s, OWNER) == Some(s')
    ensures w in s'.workers && Delivered(s', w)
  {
    OwnerWorkerKept(s, s', w);
    OwnerOwesNothing(s, s', w);
  }

  lemma OwnThreadKeepsDelivered(s: Sys, c: Choice, s': Sys, w: Wid)
    requires OWNER in s.pcs && ThreadOk(s, OWNER) && ThreadStep(s, OWNER, c) == Some(s')
    requires s.observers <= s.workers.Keys && OWNER in s'.pcs && !s'.pcs[OWNER].Raised?
    requires w in s'.workers && (w in s.workers ==> Delivered(s, w))
    ensures Delivered(s', w)
  {
    var pc := s.pcs[OWNER];
    if OwnerOnly(pc) {
      OwnerStepStarted(s, s');
      OwnerKeepsDelivered(s, s', w);
    } else if w !in s.workers {
      NewWorkerDelivered(s, c, s', w);
    } else if pc.Append? {
      AppendKeepsDelivered(s, c, s', w);
    } else if pc.Idle? && c.SetStatus? {
      SetKeepsDelivered(s, c, s', w);
    } else {
      QuietKeepsDelivered(s, c, s', w);
    }
  }

  lemma StepKeepsThreads(s: Sys, a: Action, s': Sys)
    requires Step(s, a) == Some(s') && (a.Thread? ==> ThreadOk(s, a.t))
    ensures s'.pcs.Keys == s.pcs.Keys
  {
    if a.Thread? {
      if OwnerOnly(s.pcs[a.t]) {
        OwnerEffect(s, a.t, a.c, s');
      } else {
        PostEffect(s, a.t, a.c, s');
      }
    }
  }

  lemma StepKeepsDelivered(s: Sys, a: Action, s': Sys, w: Wid)
    requires s.pcs.Keys == {OWNER} && ThreadOk(s, OWNER) && Step(s, a) == Some(s')
    requires s.observers <= s.workers.Keys && OWNER in s'.pcs && !s'.pcs[OWNER].Raised?
    requires w in s'.workers && (w in s.workers ==> Delivered(s, w))
    ensures Delivered(s', w)
  {
    match a
    case Consumer(v) => ConsumerKeepsDelivered(s, v, s', w);
    case Thread(t, c) => OwnThreadKeepsDelivered(s, c, s', w);
  }

  lemma StepKeepsExact(s: Sys, a: Action, s': Sys)
    requires Inv(s) && Exact(s) && Inv(s') && Step(s, a) == Some(s')
    ensures Exact(s')
  {
    assert ThreadOk(s, OWNER) && ThreadOk(s', OWNER);
    StepKeepsThreads(s, a, s');
    forall w | w in s'.workers
      ensures Delivered(s', w)
    {
      StepKeepsDelivered(s, a, s', w);
    }
  }

  lemma {:induction false} RunKeepsExact(acts: seq<Action>)
    requires Run(Init({}), acts).Some?
    ensures Inv(Run(Init({}), acts).value) && Exact(Run(Init({}), acts).value)
  {
    RunKeepsOwnerInv({}, acts);
    if acts == [] {
      assert Init({}).pcs.Keys == {OWNER};
    } else {
      var before := acts[..|acts| - 1];
      RunKeepsOwnerInv({}, before);
      RunKeepsExact(before);
      StepKeepsExact(Run(Init({}), before).value, acts[|acts| - 1], Run(Init({}), acts).value);
    }
  }

  /** SAFETY: at every moment the attempts are a prefix of the changes made while
      the worker was registered: nothing else, nothing twice, nothing out of order. */
  lemma AttemptsArePrefix(acts: seq<Action>, w: Wid)
    requires Run(Init({}), acts).Some? && w in Run(Init({}), acts).value.workers
    ensures var s := Run(Init({}), acts).value; var x := s.workers[w];
      x.since <= |s.changes| && x.attempts <= s.changes[x.since..]
  {
    RunKeepsExact(acts);
    var s := Run(Init({}), acts).value;
    var x := s.workers[w];
    assert Delivered(s, w);
    assert x.attempts <= Accepted(x) + Pending(s, w);
  }

  /** END TO END: once the build has finished and the worker has ended, the worker
      has attempted exactly the changes from its registration to the end. */
  lemma EverythingDelivered(acts: seq<Action>, w: Wid)
    requires Run(Init({}), acts).Some? && w in Run(Init({}), acts).value.workers
    requires Run(Init({}), acts).value.workers[w].pc.Ended?
    ensures var s := Run(Init({}), acts).value; var x := s.workers[w];
      && x.since <= |s.changes| && x.attempts == s.changes[x.since..]
      && x.until == Some(|s.changes|)
  {
    RunKeepsExact(acts);
    RunKeepsOwnerInv({}, acts);
    var s := Run(Init({}), acts).value;
    var x := s.workers[w];
    assert Delivered(s, w) && WorkerOk(s, w) && ThreadOk(s, OWNER);
    assert w !in s.observers;
    assert Accepted(x) == x.attempts;
  }
}
