/** What callbacks report when several threads set the status of one image: no
    invented statuses, none out of order, and never a stale last one. */
module CallbackSampling {
  import opened Basics
  import opened CallbackWorker
  import opened CallbackSystem
  import opened CallbackShutdown
  import opened CallbackDelivery

  // ----- Sampling a history -----

  /** The bodies are statuses of the history, at positions that never go back. */
  predicate Sampled(bodies: seq<Status>, changes: seq<Status>)
    decreases |bodies|
  {
    bodies == [] || exists i :: 0 <= i < |changes| && SampledAt(bodies, changes, i)
  }

  /** ... the last of them at position `i`. */
  predicate SampledAt(bodies: seq<Status>, changes: seq<Status>, i: nat)
    requires bodies != [] && i < |changes|
    decreases |bodies|, 0
  {
    changes[i] == bodies[|bodies| - 1] && Sampled(bodies[..|bodies| - 1], changes[..i + 1])
  }

  lemma SampledLater(bodies: seq<Status>, changes: seq<Status>, more: seq<Status>)
    requires Sampled(bodies, changes) && changes <= more
    ensures Sampled(bodies, more)
  {
    if bodies != [] {
      var i :| 0 <= i < |changes| && SampledAt(bodies, changes, i);
      assert more[..i + 1] == changes[..i + 1];
      assert SampledAt(bodies, more, i);
    }
  }

  /** The current status may always be reported next. */
  lemma SampledNow(bodies: seq<Status>, changes: seq<Status>)
    requires Sampled(bodies, changes) && changes != []
    ensures Sampled(bodies + [changes[|changes| - 1]], changes)
  {
    var next, i := bodies + [changes[|changes| - 1]], |changes| - 1;
    assert next[..|next| - 1] == bodies && changes[..i + 1] == changes;
    assert SampledAt(next, changes, i);
  }

  lemma {:induction false} SampledFront(bodies: seq<Status>, changes: seq<Status>, n: nat)
    requires Sampled(bodies, changes) && n <= |bodies|
    ensures Sampled(bodies[..n], changes)
    decreases |bodies|
  {
    if n < |bodies| {
      var front := bodies[..|bodies| - 1];
      var i :| 0 <= i < |changes| && SampledAt(bodies, changes, i);
      SampledLater(front, changes[..i + 1], changes);
      SampledFront(front, changes, n);
      assert front[..n] == bodies[..n];
    } else {
      assert bodies[..n] == bodies;
    }
  }

  // ----- Invariant -----

  /** The body that the thread at `pc` is enqueuing for `w`. */
  function Carried(pc: Pc, w: Wid): seq<Status> {
    if (pc.CheckShut? || pc.AcquireQ? || pc.Append?) && pc.w == w then [pc.b] else []
  }

  function InPost(s: Sys, w: Wid): seq<Status> {
    if s.lock == None || s.lock.value !in s.pcs then [] else Carried(s.pcs[s.lock.value], w)
  }

  /** Everything that `w` has accepted or is about to. */
  function Offered(s: Sys, w: Wid): seq<Status>
    requires w in s.workers
  {
    Accepted(s.workers[w]) + InPost(s, w)
  }

  predicate InPosting(pc: Pc) { pc.WantPost? || pc.Notifying? || pc.CheckShut? || Enqueuing(pc) }

  /** The workers that a notification has not turned to yet. */
  function ToGo(pc: Pc): set<Wid> {
    if pc.Notifying? || pc.CheckShut? || Enqueuing(pc) then pc.todo else {}
  }

  /** Thread `t` will still report the status it finds to observer `w`. */
  predicate Owes(s: Sys, t: Tid, w: Wid)
    requires t in s.pcs
  {
    s.pcs[t].WantPost? || w in ToGo(s.pcs[t])
  }

  predicate UpToDate(s: Sys, w: Wid)
    requires w in s.workers
  {
    |s.changes| == s.workers[w].since || (Offered(s, w) != [] && Offered(s, w)[|Offered(s, w)| - 1] == s.status)
  }

  predicate Covered(s: Sys, w: Wid)
    requires w in s.workers
  {
    w in s.observers ==> UpToDate(s, w) || exists t :: t in s.pcs && Owes(s, t, w)
  }

  /** The changes that a worker may be told of: the last one before it was
      registered, which may still be unreported then, and all later ones. */
  function Told(changes: seq<Status>, since: nat): seq<Status>
    requires since <= |changes|
  {
    if since == 0 then changes else changes[since - 1..]
  }

  predicate Joining(s: Sys, w: Wid) {
    OWNER in s.pcs && (s.pcs[OWNER].AddLock? || s.pcs[OWNER].Adding?) && s.pcs[OWNER].w == w
  }

  /** What is known of a worker. */
  predicate Known(s: Sys, w: Wid)
    requires w in s.workers
  {
    && s.workers[w].since <= |s.changes| && Sampled(Offered(s, w), Told(s.changes, s.workers[w].since))
    && Covered(s, w) && (Joining(s, w) ==> Offered(s, w) == [])
  }

  ghost predicate Many(s: Sys) {
    && NoStutter(s.changes, s.status)
    && (forall t {:trigger InPosting(s.pcs[t])} :: t in s.pcs && InPosting(s.pcs[t]) ==> s.changes != [])
    && (forall w {:trigger Known(s, w)} :: w in s.workers ==> Known(s, w))
  }

  // ----- Effect of one step on one worker -----

  /** How a step changes what is offered to `w`. */
  predicate OfferedNext(s: Sys, s': Sys, w: Wid, notified: bool)
    requires w in s.workers && w in s'.workers
  {
    && Offered(s', w) == Offered(s, w) + (if notified then [s.status] else [])
    && s.changes <= s'.changes && (s'.changes == s.changes ==> s'.status == s.status)
  }

  lemma ConsumerOffered(s: Sys, v: Wid, s': Sys, w: Wid)
    requires w in s.workers && Step(s, Consumer(v)) == Some(s')
    ensures w in s'.workers && OfferedNext(s, s', w, false) && s'.changes == s.changes
    ensures s'.workers[w].since == s.workers[w].since && s'.pcs == s.pcs && s'.observers == s.observers
  {
    AcceptedKept(s.workers[v]);
  }

  predicate Notifies(pc: Pc, c: Choice, w: Wid) { pc.Notifying? && c == Notify(w) && w in pc.todo }

  lemma PostOffered(s: Sys, t: Tid, c: Choice, s': Sys, w: Wid)
    requires t in s.pcs && ThreadOk(s, t) && w in s.workers && PostStep(s, t, c) == Some(s')
    requires t in s'.pcs && !s'.pcs[t].Raised?
    requires s.lock.Some? ==> s.lock.value in s.pcs
    ensures w in s'.workers && OfferedNext(s, s', w, Notifies(s.pcs[t], c, w))
    ensures s'.workers[w].since == s.workers[w].since && s'.observers == s.observers
  {
    if s.pcs[t].Append? && s.pcs[t].w == w {
      var x, b := s.workers[w], s.pcs[t].b;
      assert Accepted(s'.workers[w]) == Accepted(x) + [b];
    }
  }

  lemma OwnerOffered(s: Sys, s': Sys, w: Wid)
    requires OWNER in s.pcs && ThreadOk(s, OWNER) && w in s.workers && OwnerStep(s, OWNER) == Some(s')
    requires s.lock.Some? ==> s.lock.value in s.pcs
    ensures w in s'.workers && OfferedNext(s, s', w, false) && s'.changes == s.changes
  {
    OwnerWorkerKept(s, s', w);
  }

  /** Bodies that were samples are, with one more if `notified`. */
  lemma SampledNext(s: Sys, s': Sys, w: Wid, notified: bool)
    requires w in s.workers && w in s'.workers && OfferedNext(s, s', w, notified) && NoStutter(s.changes, s.status)
    requires s.workers[w].since <= |s.changes| && s'.workers[w].since == s.workers[w].since
    requires Sampled(Offered(s, w), Told(s.changes, s.workers[w].since)) && (notified ==> s.changes != [])
    ensures s'.workers[w].since <= |s'.changes| && Sampled(Offered(s', w), Told(s'.changes, s'.workers[w].since))
  {
    var told, told' := Told(s.changes, s.workers[w].since), Told(s'.changes, s'.workers[w].since);
    ToldNext(s.changes, s'.changes, s.workers[w].since);
    if notified {
      SampledMore(Offered(s, w), told, told', s.status);
    } else {
      SampledLater(Offered(s, w), told, told');
      assert Offered(s', w) == Offered(s, w);
    }
  }

  lemma SampledMore(bodies: seq<Status>, told: seq<Status>, told': seq<Status>, b: Status)
    requires Sampled(bodies, told) && told <= told' && told != [] && b == told[|told| - 1]
    ensures Sampled(bodies + [b], told')
  {
    SampledNow(bodies, told);
    SampledLater(bodies + [b], told, told');
  }

  lemma ToldNext(changes: seq<Status>, more: seq<Status>, since: nat)
    requires since <= |changes| && changes <= more
    ensures Told(changes, since) <= Told(more, since)
    ensures var told := Told(changes, since);
      changes != [] ==> told != [] && told[|told| - 1] == changes[|changes| - 1]
  {
    if since > 0 {
      DropFront(changes, more, since - 1);
    }
  }

  lemma DropFront(a: seq<Status>, b: seq<Status>, n: nat)
    requires a <= b && n < |a|
    ensures a[n..] <= b[n..] && a[n..] != [] && a[n..][|a| - n - 1] == a[|a| - 1]
  {
    assert b[n..][..|a| - n] == a[n..];
  }

  /** A debt of another thread remains. */
  lemma DebtOfOther(s: Sys, t: Tid, c: Choice, s': Sys, u: Tid, w: Wid)
    requires t in s.pcs && ThreadOk(s, t) && ThreadStep(s, t, c) == Some(s') && u in s.pcs && u != t && Owes(s, u, w)
    ensures u in s'.pcs && Owes(s', u, w)
  {
    if OwnerOnly(s.pcs[t]) {
      OwnerEffect(s, t, c, s');
    } else {
      PostEffect(s, t, c, s');
    }
  }

  /** A thread pays its own debt by notifying, and incurs one by a change. */
  lemma OwnDebt(s: Sys, t: Tid, c: Choice, s': Sys, w: Wid)
    requires t in s.pcs && PostStep(s, t, c) == Some(s') && t in s'.pcs && !s'.pcs[t].Raised? && w in s.observers
    ensures s'.changes != s.changes ==> Owes(s', t, w)
    ensures Owes(s, t, w) ==> Owes(s', t, w) || Notifies(s.pcs[t], c, w)
  {
  }

  lemma PostCovered(s: Sys, t: Tid, c: Choice, s': Sys, w: Wid)
    requires t in s.pcs && ThreadOk(s, t) && ThreadStep(s, t, c) == Some(s') && !OwnerOnly(s.pcs[t])
    requires w in s.workers && Covered(s, w) && w in s'.workers && t in s'.pcs && !s'.pcs[t].Raised?
    requires OfferedNext(s, s', w, Notifies(s.pcs[t], c, w)) && s'.workers[w].since == s.workers[w].since
    requires s'.observers == s.observers
    ensures Covered(s', w)
  {
    if w in s.observers {
      OwnDebt(s, t, c, s', w);
      if UpToDate(s, w) {
        assert s'.changes == s.changes ==> UpToDate(s', w);
      } else {
        var u :| u in s.pcs && Owes(s, u, w);
        if u != t {
          DebtOfOther(s, t, c, s', u, w);
        } else {
          assert Owes(s', t, w) || UpToDate(s', w);
        }
      }
    }
  }

  lemma OwnerCovered(s: Sys, c: Choice, s': Sys, w: Wid)
    requires OWNER in s.pcs && ThreadOk(s, OWNER) && OwnerOnly(s.pcs[OWNER]) && ThreadStep(s, OWNER, c) == Some(s')
    requires w in s.workers && Covered(s, w) && w in s'.workers
    requires OfferedNext(s, s', w, false) && s'.changes == s.changes
    ensures Covered(s', w)
  {
    if w in s'.observers {
      if w !in s.observers {
        assert s'.workers[w].since == |s'.changes|;
      } else if UpToDate(s, w) {
        OwnerSince(s, s', w);
      } else {
        var u :| u in s.pcs && Owes(s, u, w);
        DebtOfOther(s, OWNER, c, s', u, w);
      }
    }
  }

  /** Registering a worker starts its history; nothing else touches it. */
  lemma OwnerSince(s: Sys, s': Sys, w: Wid)
    requires OWNER in s.pcs && ThreadOk(s, OWNER) && OwnerStep(s, OWNER) == Some(s')
    requires w in s.workers && w in s.observers
    ensures w in s'.workers && s'.workers[w].since == s.workers[w].since
  {
  }

  // ----- Every run -----

  lemma NewWorker(s: Sys, t: Tid, c: Choice, s': Sys, w: Wid)
    requires t in s.pcs && ThreadOk(s, t) && ThreadStep(s, t, c) == Some(s') && w in s'.workers && w !in s.workers
    requires s.observers <= s.workers.Keys
    requires s.lock.Some? ==> s.lock.value in s.pcs && Targets(s.pcs[s.lock.value]) <= s.observers
    ensures Offered(s', w) == [] && w !in s'.observers && s'.workers[w].since <= |s'.changes|
  {
  }

  lemma OwnerKeepsKnown(s: Sys, c: Choice, s': Sys, w: Wid)
    requires OWNER in s.pcs && ThreadOk(s, OWNER) && OwnerOnly(s.pcs[OWNER]) && ThreadStep(s, OWNER, c) == Some(s')
    requires s.lock.Some? ==> s.lock.value in s.pcs
    requires w in s.workers && Known(s, w) && NoStutter(s.changes, s.status)
    ensures w in s'.workers && Known(s', w)
  {
    OwnerOffered(s, s', w);
    OwnerCovered(s, c, s', w);
    OwnerJoining(s, s', w);
    if s'.workers[w].since == s.workers[w].since {
      SampledNext(s, s', w, false);
    }
  }

  /** The registration itself is all that moves the beginning of its history. */
  lemma OwnerJoining(s: Sys, s': Sys, w: Wid)
    requires OWNER in s.pcs && ThreadOk(s, OWNER) && OwnerStep(s, OWNER) == Some(s') && w in s.workers
    ensures w in s'.workers && s'.changes == s.changes && (Joining(s', w) ==> Joining(s, w))
    ensures s'.workers[w].since == s.workers[w].since || (Joining(s, w) && s'.workers[w].since == |s.changes|)
  {
  }

  lemma PostKeepsKnown(s: Sys, t: Tid, c: Choice, s': Sys, w: Wid)
    requires t in s.pcs && ThreadOk(s, t) && ThreadStep(s, t, c) == Some(s') && !OwnerOnly(s.pcs[t])
    requires t in s'.pcs && !s'.pcs[t].Raised? && (s.lock.Some? ==> s.lock.value in s.pcs)
    requires OWNER in s.pcs && ThreadOk(s, OWNER)
    requires w in s.workers && Known(s, w) && NoStutter(s.changes, s.status)
    requires InPosting(s.pcs[t]) ==> s.changes != []
    ensures w in s'.workers && Known(s', w)
  {
    PostOffered(s, t, c, s', w);
    SampledNext(s, s', w, Notifies(s.pcs[t], c, w));
    PostCovered(s, t, c, s', w);
    PostJoining(s, t, c, s', w);
  }

  lemma PostJoining(s: Sys, t: Tid, c: Choice, s': Sys, w: Wid)
    requires t in s.pcs && ThreadOk(s, t) && PostStep(s, t, c) == Some(s') && w in s.workers
    requires OWNER in s.pcs && ThreadOk(s, OWNER)
    ensures Joining(s', w) ==> Joining(s, w) && !Notifies(s.pcs[t], c, w)
  {
  }

  lemma ThreadKeepsMany(s: Sys, t: Tid, c: Choice, s': Sys, w: Wid)
    requires Inv(s) && Inv(s') && Many(s) && Step(s, Thread(t, c)) == Some(s') && w in s'.workers
    ensures Known(s', w)
  {
    assert ThreadOk(s, t) && ThreadOk(s, OWNER) && (s.lock.Some? ==> ThreadOk(s, s.lock.value));
    if w !in s.workers {
      NewWorker(s, t, c, s', w);
    } else {
      assert Known(s, w);
      if OwnerOnly(s.pcs[t]) {
        OwnerKeepsKnown(s, c, s', w);
      } else {
        StillThere(s, t, c, s');
        PostKeepsKnown(s, t, c, s', w);
      }
    }
  }

  lemma StillThere(s: Sys, t: Tid, c: Choice, s': Sys)
    requires Inv(s) && Inv(s') && Step(s, Thread(t, c)) == Some(s')
    ensures t in s'.pcs && !s'.pcs[t].Raised?
  {
    assert ThreadOk(s, t);
    if OwnerOnly(s.pcs[t]) {
      OwnerEffect(s, t, c, s');
    } else {
      PostEffect(s, t, c, s');
    }
    assert ThreadOk(s', t);
  }

  lemma PostingHasChanged(s: Sys, a: Action, s': Sys, u: Tid)
    requires u in s'.pcs && InPosting(s'.pcs[u]) && Step(s, a) == Some(s')
    requires u in s.pcs && (InPosting(s.pcs[u]) ==> s.changes != []) && (a.Thread? ==> ThreadOk(s, a.t))
    ensures s'.changes != []
  {
    StepKeepsChanges(s, a, s');
    if a.Thread? && a.t != u {
      if OwnerOnly(s.pcs[a.t]) {
        OwnerEffect(s, a.t, a.c, s');
      } else {
        PostEffect(s, a.t, a.c, s');
      }
    }
  }

  lemma ConsumerKeepsMany(s: Sys, v: Wid, s': Sys, w: Wid)
    requires Many(s) && Step(s, Consumer(v)) == Some(s') && w in s'.workers
    ensures Known(s', w)
  {
    ConsumerOffered(s, v, s', w);
    assert Known(s, w);
    assert Offered(s', w) == Offered(s, w);
    if w in s.observers && !UpToDate(s, w) {
      var t :| t in s.pcs && Owes(s, t, w);
      assert Owes(s', t, w);
    }
  }

  lemma StepKeepsMany(s: Sys, a: Action, s': Sys)
    requires Inv(s) && Inv(s') && Many(s) && Step(s, a) == Some(s')
    ensures Many(s')
  {
    StepKeepsNoStutter(s, a, s');
    if a.Thread? {
      assert ThreadOk(s, a.t);
    }
    StepKeepsThreads(s, a, s');
    forall u | u in s'.pcs && InPosting(s'.pcs[u])
      ensures s'.changes != []
    {
      assert InPosting(s.pcs[u]) ==> s.changes != [];
      PostingHasChanged(s, a, s', u);
    }
    forall w | w in s'.workers
      ensures Known(s', w)
    {
      match a
      case Thread(t, c) => ThreadKeepsMany(s, t, c, s', w);
      case Consumer(v) => ConsumerKeepsMany(s, v, s', w);
    }
  }

  lemma {:induction false} RunKeepsMany(s: Sys, acts: seq<Action>)
    requires Inv(s) && Many(s) && Run(s, acts).Some?
    ensures Inv(Run(s, acts).value) && Many(Run(s, acts).value)
  {
    RunKeepsInv(s, acts);
    if acts != [] {
      var before := acts[..|acts| - 1];
      RunKeepsMany(s, before);
      StepKeepsMany(Run(s, before).value, acts[|acts| - 1], Run(s, acts).value);
    }
  }

  lemma ReachableMany(threads: set<Tid>, acts: seq<Action>)
    requires Run(Init(threads), acts).Some?
    ensures Inv(Run(Init(threads), acts).value) && Many(Run(Init(threads), acts).value)
  {
    InitInv(threads);
    RunKeepsMany(Init(threads), acts);
  }

  // ----- Results, for any number of threads that set the status -----

  /** Over every interleaving the attempted bodies are statuses that the image
      has had since it was registered, or then had, in the order in which it had
      them. */
  lemma AttemptsAreSampled(threads: set<Tid>, acts: seq<Action>, s: Sys, w: Wid)
    requires Run(Init(threads), acts) == Some(s) && w in s.workers
    ensures s.workers[w].since <= |s.changes| && Sampled(s.workers[w].attempts, Told(s.changes, s.workers[w].since))
  {
    ReachableMany(threads, acts);
    assert Known(s, w);
    var all, attempts := Offered(s, w), s.workers[w].attempts;
    SampledFront(all, Told(s.changes, s.workers[w].since), |attempts|);
    assert all[..|attempts|] == attempts;
  }

  /** Whenever no thread is between a change and the end of its notification, the
      last body that a registered worker has accepted is the current status. */
  lemma LastIsCurrent(threads: set<Tid>, acts: seq<Action>, s: Sys, w: Wid)
    requires Run(Init(threads), acts) == Some(s) && w in s.observers
    requires forall t :: t in s.pcs ==> !InPosting(s.pcs[t])
    ensures w in s.workers && s.workers[w].since <= |s.changes|
    ensures |s.changes| > s.workers[w].since ==>
              Accepted(s.workers[w]) != [] && Accepted(s.workers[w])[|Accepted(s.workers[w])| - 1] == s.status
  {
    ReachableMany(threads, acts);
    assert Known(s, w);
    assert forall t :: t in s.pcs ==> !Owes(s, t, w);
    assert Offered(s, w) == Accepted(s.workers[w]);
  }

  // ----- With a second setter "each change once" fails -----

  lemma Next(acts: seq<Action>, s: Sys, a: Action) returns (acts': seq<Action>, s': Sys)
    requires Run(Init({1}), acts) == Some(s) && Step(s, a).Some?
    ensures Run(Init({1}), acts') == Some(s') && Step(s, a) == Some(s')
  {
    acts', s' := acts + [a], Step(s, a).value;
    assert acts'[..|acts|] == acts;
  }

  /** Worker 0 is started, and no status has been set. */
  predicate NothingYet(s: Sys) {
    && OWNER in s.pcs && 1 in s.pcs && s.pcs[1].Idle? && s.status == NEW && s.changes == []
    && s.pcs.Keys == {0, 1} && 0 in s.workers && s.workers[0] == W(Cell([], false, false), Free, Waiting, [], 0, None)
  }

  lemma Started() returns (acts: seq<Action>, s: Sys)
    ensures Run(Init({1}), acts) == Some(s) && NothingYet(s) && s.lock == Some(OWNER)
    ensures s.pcs[OWNER] == Adding(0) && s.observers == {}
  {
    acts, s := [], Init({1});
    acts, s := Next(acts, s, Thread(OWNER, StartWorker(0)));
    acts, s := Next(acts, s, Thread(OWNER, Go));
  }

  lemma Registered() returns (acts: seq<Action>, s: Sys)
    ensures Run(Init({1}), acts) == Some(s) && NothingYet(s) && s.lock == None
    ensures s.pcs[OWNER].Idle? && s.observers == {0}
  {
    acts, s := Started();
    acts, s := Next(acts, s, Thread(OWNER, Go));
    acts, s := Next(acts, s, Thread(OWNER, Go));
  }

  /** Thread `t` carries a body to worker 0, the only observer. */
  predicate Carrying(s: Sys, t: Tid, pc: Pc) {
    && t in s.pcs && s.pcs[t] == pc && s.lock == Some(t) && 0 in s.workers && s.workers[0].pc.Waiting?
    && s.workers[0].holder == if pc.AcquireQ? then Free else By(t)
  }

  /** The body is put into the queue ... */
  lemma Enqueued(acts: seq<Action>, s: Sys, t: Tid, b: Status) returns (acts': seq<Action>, s': Sys)
    requires Run(Init({1}), acts) == Some(s) && Carrying(s, t, AcquireQ(0, b, {}))
    ensures Run(Init({1}), acts') == Some(s') && Carrying(s', t, SetEvent(0, {}))
    ensures s' == s.(workers := s'.workers, pcs := s.pcs[t := SetEvent(0, {})])
    ensures s'.workers[0] == s.workers[0].(holder := By(t), cell := s.workers[0].cell.Appended(b))
  {
    acts', s' := Next(acts, s, Thread(t, Go));
    acts', s' := Next(acts', s', Thread(t, Go));
  }

  /** ... and the setter returns. */
  lemma Returned(acts: seq<Action>, s: Sys, t: Tid) returns (acts': seq<Action>, s': Sys)
    requires Run(Init({1}), acts) == Some(s) && Carrying(s, t, SetEvent(0, {}))
    ensures Run(Init({1}), acts') == Some(s')
    ensures s' == s.(lock := None, pcs := s.pcs[t := Idle], workers := s'.workers) && 0 in s'.workers
    ensures s'.workers[0] == s.workers[0].(holder := Free, cell := s.workers[0].cell.EventSet())
  {
    acts', s' := Next(acts, s, Thread(t, Go));
    acts', s' := Next(acts', s', Thread(t, Go));
    acts', s' := Next(acts', s', Thread(t, Go));
  }

  /** Worker 0 is registered and awake to nothing. */
  predicate Ready(s: Sys) {
    && s.lock == None && s.observers == {0} && 0 in s.workers && s.workers[0].pc.Waiting?
    && s.workers[0].holder == Free && !s.workers[0].cell.shutdown && s.workers[0].since == 0
  }

  /** A thread that has assigned the status reports it. */
  lemma Reported(acts: seq<Action>, s: Sys, t: Tid) returns (acts': seq<Action>, s': Sys)
    requires Run(Init({1}), acts) == Some(s) && Ready(s) && t in s.pcs && s.pcs[t].WantPost?
    ensures Run(Init({1}), acts') == Some(s') && Ready(s') && s'.pcs == s.pcs[t := Idle]
    ensures s'.changes == s.changes && s'.status == s.status
    ensures Accepted(s'.workers[0]) == Accepted(s.workers[0]) + [s.status]
  {
    acts', s' := Next(acts, s, Thread(t, Go));
    acts', s' := Next(acts', s', Thread(t, Notify(0)));
    acts', s' := Next(acts', s', Thread(t, Go));
    acts', s' := Enqueued(acts', s', t, s.status);
    acts', s' := Returned(acts', s', t);
    AppendedIs(s.workers[0], s'.workers[0], s.status);
  }

  lemma AppendedIs(x: W, x': W, b: Status)
    requires x' == x.(cell := x.cell.Appended(b).EventSet())
    ensures Accepted(x') == Accepted(x) + [b]
  {
  }

  /** A change can be overtaken by another thread's before it is reported: the
      worker is never told of PENDING, and twice of BUILDING. */
  lemma Overtaken() returns (acts: seq<Action>, s: Sys)
    ensures Run(Init({1}), acts) == Some(s) && 0 in s.observers && 0 in s.workers && s.workers[0].since == 0
    ensures s.changes == [PENDING, BUILDING] && Accepted(s.workers[0]) == [BUILDING, BUILDING]
    ensures forall t :: t in s.pcs ==> !InPosting(s.pcs[t])
  {
    acts, s := Registered();
    acts, s := Next(acts, s, Thread(OWNER, SetStatus(PENDING)));
    acts, s := Next(acts, s, Thread(1, SetStatus(BUILDING)));
    acts, s := Reported(acts, s, OWNER);
    acts, s := Reported(acts, s, 1);
    assert [] + [BUILDING] + [BUILDING] == [BUILDING, BUILDING];
  }
}
