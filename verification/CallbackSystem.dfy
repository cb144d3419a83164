/** The callback system as interleaved threads: any number of threads that set
    the status of one image and post notifications, one of them (the owner) also
    registering the callback workers and shutting them down, and one consumer
    thread per worker. Every lock acquisition, event wait and shared read or
    write is a step of its own. */
module CallbackSystem {
  import opened Basics
  import opened CallbackWorker

  type Tid = nat
  type Wid = nat

  /** The launcher and build thread that owns the image's workers. */
  const OWNER: Tid := 0

  // ----- State -----

  datatype QueueHolder = Free | ByWorker | By(t: Tid)

  datatype WorkerPc =
    | Waiting            // queue_not_empty.wait()
    | Acquiring          // queue_lock.acquire()
    | Holding            // about to test the queue and pop
    | Clearing(b: Status)
    | ReleasingSome(b: Status)
    | ReleasingNone
    | Putting(b: Status) // the PUT attempt
    | CheckFlag          // `self.shutdown and ...`
    | CheckEmpty         // `... len(self.callback_queue) == 0`
    | Ended

  /** A worker, its queue lock, and what it has attempted to PUT. `since` and
      `until` delimit, in the image's history of changes, the time it was
      registered as an observer. */
  datatype W = W(cell: Cell, holder: QueueHolder, pc: WorkerPc, attempts: seq<Status>, since: nat, until: Option<nat>)

  datatype Pc =
    | Idle
    | WantPost                                             // status assigned, about to take the centre's lock
    | Notifying(todo: set<Wid>)                            // centre locked, observers left to notify
    | CheckShut(w: Wid, b: Status, todo: set<Wid>)         // in _enqueue: about to test `shutdown`
    | AcquireQ(w: Wid, b: Status, todo: set<Wid>)
    | Append(w: Wid, b: Status, todo: set<Wid>)
    | SetEvent(w: Wid, todo: set<Wid>)
    | ReleaseQ(w: Wid, todo: set<Wid>)
    | Raised                                               // "terminating worker thread", centre still locked
    | AddLock(w: Wid) | Adding(w: Wid) | AddRelease        // add_observer
    | Shutting(rest: seq<Wid>)                             // the loop of _shutdown_callback_workers
    | RemLock(w: Wid, rest: seq<Wid>) | Removing(w: Wid, rest: seq<Wid>) | RemRelease(w: Wid, rest: seq<Wid>)
    | Flag(w: Wid, rest: seq<Wid>)                         // shut_down: set the flag
    | ShutAcquire(w: Wid, rest: seq<Wid>) | ShutTest(w: Wid, rest: seq<Wid>) | ShutRelease(w: Wid, rest: seq<Wid>)
    | Finished

  datatype Sys = Sys(
    status: Status,          // the image's _status
    changes: seq<Status>,    // every assignment to it, in order
    observers: set<Wid>,     // registered for this image's status
    lock: Option<Tid>,       // the notification centre's lock
    pcs: map<Tid, Pc>,
    started: seq<Wid>,       // the owner's list of callback workers
    workers: map<Wid, W>)

  function Init(threads: set<Tid>): Sys {
    Sys(NEW, [], {}, None, map t | t in threads + {OWNER} :: Idle, [], map[])
  }

  // ----- Steps -----

  datatype Choice = SetStatus(v: Status) | StartWorker(w: Wid) | ShutDownWorkers | Notify(w: Wid) | Go

  function WithPc(s: Sys, t: Tid, pc: Pc): Sys { s.(pcs := s.pcs[t := pc]) }

  function WithWorker(s: Sys, w: Wid, ws: W): Sys { s.(workers := s.workers[w := ws]) }

  /** The status setter: an equal status changes and posts nothing. */
  function SetStep(s: Sys, t: Tid, v: Status): Sys {
    if v == s.status then s
    else WithPc(s.(status := v, changes := s.changes + [v]), t, WantPost)
  }

  /** A step of the status setter, post_notification, status_notifier and
      _enqueue, or the start of a registration or shutdown by the owner. */
  function PostStep(s: Sys, t: Tid, c: Choice): Option<Sys>
    requires t in s.pcs
  {
    match s.pcs[t]
    case Idle =>
      (match c
       case SetStatus(v) => Some(SetStep(s, t, v))
       case StartWorker(w) =>
         if t != OWNER || w in s.workers then None
         else Some(WithPc(WithWorker(s.(started := s.started + [w]), w,
                                     W(Cell([], false, false), Free, Waiting, [], |s.changes|, None)), t, AddLock(w)))
       case ShutDownWorkers => if t != OWNER then None else Some(WithPc(s, t, Shutting(s.started)))
       case _ => None)
    case WantPost =>
      if s.lock != None then None else Some(WithPc(s.(lock := Some(t)), t, Notifying(s.observers)))
    case Notifying(todo) =>
      if todo == {} then Some(WithPc(s.(lock := None), t, Idle))
      else if c.Notify? && c.w in todo then Some(WithPc(s, t, CheckShut(c.w, s.status, todo - {c.w})))
      else None
    case CheckShut(w, b, todo) =>
      if w !in s.workers then None
      else if s.workers[w].cell.shutdown then Some(WithPc(s, t, Raised))
      else Some(WithPc(s, t, AcquireQ(w, b, todo)))
    case AcquireQ(w, b, todo) => AcquireStep(s, t, w, Append(w, b, todo))
    case Append(w, b, todo) => CellStep(s, t, w, (x: Cell) => x.Appended(b), SetEvent(w, todo))
    case SetEvent(w, todo) => CellStep(s, t, w, (x: Cell) => x.EventSet(), ReleaseQ(w, todo))
    case ReleaseQ(w, todo) => ReleaseStep(s, t, w, Notifying(todo))
    case _ => None
  }

  /** A step of add_observer, remove_observer or shut_down. */
  function OwnerStep(s: Sys, t: Tid): Option<Sys>
    requires t in s.pcs
  {
    match s.pcs[t]
    case AddLock(w) => if s.lock != None then None else Some(WithPc(s.(lock := Some(t)), t, Adding(w)))
    case Adding(w) =>
      if w !in s.workers then None
      else
        var x := s.workers[w].(since := |s.changes|);
        Some(WithPc(WithWorker(s.(observers := s.observers + {w}), w, x), t, AddRelease))
    case AddRelease => Some(WithPc(s.(lock := None), t, Idle))
    case Shutting(rest) => Some(WithPc(s, t, if rest == [] then Finished else RemLock(rest[0], rest[1..])))
    case RemLock(w, rest) => if s.lock != None then None else Some(WithPc(s.(lock := Some(t)), t, Removing(w, rest)))
    case Removing(w, rest) =>
      if w !in s.workers then None
      else
        var until := if w in s.observers then Some(|s.changes|) else s.workers[w].until;
        var x := s.workers[w].(until := until);
        Some(WithPc(WithWorker(s.(observers := s.observers - {w}), w, x), t, RemRelease(w, rest)))
    case RemRelease(w, rest) => Some(WithPc(s.(lock := None), t, Flag(w, rest)))
    case Flag(w, rest) => CellStep(s, t, w, (x: Cell) => x.(shutdown := true), ShutAcquire(w, rest))
    case ShutAcquire(w, rest) => AcquireStep(s, t, w, ShutTest(w, rest))
    case ShutTest(w, rest) => CellStep(s, t, w, (x: Cell) => x.WokenIfEmpty(), ShutRelease(w, rest))
    case ShutRelease(w, rest) => ReleaseStep(s, t, w, Shutting(rest))
    case _ => None
  }

  /** One step of thread `t`; None when it is not enabled. */
  function ThreadStep(s: Sys, t: Tid, c: Choice): Option<Sys>
    requires t in s.pcs
  {
    if OwnerOnly(s.pcs[t]) then OwnerStep(s, t) else PostStep(s, t, c)
  }

  function CellStep(s: Sys, t: Tid, w: Wid, change: Cell -> Cell, next: Pc): Option<Sys> {
    if w !in s.workers then None
    else Some(WithPc(WithWorker(s, w, s.workers[w].(cell := change(s.workers[w].cell))), t, next))
  }

  function AcquireStep(s: Sys, t: Tid, w: Wid, next: Pc): Option<Sys> {
    if w !in s.workers || s.workers[w].holder != Free then None
    else Some(WithPc(WithWorker(s, w, s.workers[w].(holder := By(t))), t, next))
  }

  function ReleaseStep(s: Sys, t: Tid, w: Wid, next: Pc): Option<Sys> {
    if w !in s.workers then None
    else Some(WithPc(WithWorker(s, w, s.workers[w].(holder := Free)), t, next))
  }

  /** One step of a worker thread on its own state; None when it has to wait. */
  function WorkerNext(x: W): Option<W> {
    match x.pc
    case Waiting => if x.cell.notEmpty then Some(x.(pc := Acquiring)) else None
    case Acquiring => if x.holder == Free then Some(x.(holder := ByWorker, pc := Holding)) else None
    case Holding =>
      if x.cell.queue == [] then Some(x.(pc := ReleasingNone))
      else Some(x.(cell := x.cell.Popped(), pc := Clearing(x.cell.queue[0])))
    case Clearing(b) => Some(x.(cell := x.cell.ClearedIfEmpty(), pc := ReleasingSome(b)))
    case ReleasingSome(b) => Some(x.(holder := Free, pc := Putting(b)))
    case ReleasingNone => Some(x.(holder := Free, pc := CheckFlag))
    case Putting(b) => Some(x.(attempts := x.attempts + [b], pc := CheckFlag))
    case CheckFlag => Some(x.(pc := if x.cell.shutdown then CheckEmpty else Waiting))
    case CheckEmpty => Some(x.(pc := if x.cell.queue == [] then Ended else Waiting))
    case Ended => None
  }

  datatype Action = Thread(t: Tid, c: Choice) | Consumer(w: Wid)

  function Step(s: Sys, a: Action): Option<Sys> {
    match a
    case Thread(t, c) => if t in s.pcs then ThreadStep(s, t, c) else None
    case Consumer(w) =>
      if w !in s.workers then None
      else
        var next := WorkerNext(s.workers[w]);
        if next.None? then None else Some(WithWorker(s, w, next.value))
  }

  /** The state after a whole interleaving, None if some action was not enabled. */
  function Run(s: Sys, acts: seq<Action>): Option<Sys> {
    if acts == [] then Some(s)
    else
      var before := Run(s, acts[..|acts| - 1]);
      if before.None? then None else Step(before.value, acts[|acts| - 1])
  }

  // ----- Invariant -----

  predicate HoldsCentre(pc: Pc) {
    pc.Notifying? || pc.CheckShut? || pc.AcquireQ? || pc.Append? || pc.SetEvent? || pc.ReleaseQ? || pc.Raised?
    || pc.Adding? || pc.AddRelease? || pc.Removing? || pc.RemRelease?
  }

  /** The worker whose queue lock a thread at `pc` holds. */
  function QueueHeld(pc: Pc): set<Wid> {
    if pc.Append? || pc.SetEvent? || pc.ReleaseQ? || pc.ShutTest? || pc.ShutRelease? then {pc.w} else {}
  }

  predicate WorkerHolds(pc: WorkerPc) {
    pc.Holding? || pc.Clearing? || pc.ReleasingSome? || pc.ReleasingNone?
  }

  /** The workers a posting thread still has to reach. */
  function Targets(pc: Pc): set<Wid> {
    match pc
    case Notifying(todo) => todo
    case CheckShut(w, _, todo) => todo + {w}
    case AcquireQ(w, _, todo) => todo + {w}
    case Append(w, _, todo) => todo + {w}
    case SetEvent(w, todo) => todo + {w}
    case ReleaseQ(w, todo) => todo + {w}
    case _ => {}
  }

  predicate OwnerOnly(pc: Pc) {
    pc.AddLock? || pc.Adding? || pc.AddRelease? || pc.Shutting? || pc.RemLock? || pc.Removing? || pc.RemRelease?
    || pc.Flag? || pc.ShutAcquire? || pc.ShutTest? || pc.ShutRelease? || pc.Finished?
  }

  /** What thread `t` may rely on. */
  predicate ThreadOk(s: Sys, t: Tid)
    requires t in s.pcs
  {
    var pc := s.pcs[t];
    && !pc.Raised?
    && (HoldsCentre(pc) <==> s.lock == Some(t))
    && Targets(pc) <= s.observers
    && (OwnerOnly(pc) ==> t == OWNER)
    && (forall w :: w in QueueHeld(pc) ==> w in s.workers && s.workers[w].holder == By(t))
    && (pc.AddLock? || pc.Adding? ==> pc.w in s.workers && !s.workers[pc.w].cell.shutdown && pc.w !in s.observers)
    && (pc.SetEvent? ==> pc.w in s.workers && s.workers[pc.w].cell.queue != [])
    && (pc.RemRelease? || pc.Flag? ==> pc.w !in s.observers)
    && (pc.ShutAcquire? || pc.ShutTest? || pc.ShutRelease? ==> pc.w in s.workers && s.workers[pc.w].cell.shutdown)
  }

  /** shut_down has set the flag but not yet looked at the queue. */
  predicate AboutToWake(s: Sys, w: Wid) {
    OWNER in s.pcs && (s.pcs[OWNER].ShutAcquire? || s.pcs[OWNER].ShutTest?) && s.pcs[OWNER].w == w
  }

  predicate MidEnqueue(s: Sys, w: Wid, h: QueueHolder) {
    h.By? && h.t in s.pcs && s.pcs[h.t].SetEvent? && s.pcs[h.t].w == w
  }

  predicate WorkerOk(s: Sys, w: Wid)
    requires w in s.workers
  {
    var x := s.workers[w];
    && (w in s.observers ==> !x.cell.shutdown)
    && (x.holder == ByWorker <==> WorkerHolds(x.pc))
    && (x.holder.By? ==> x.holder.t in s.pcs && w in QueueHeld(s.pcs[x.holder.t]))
    // The event is set on an empty queue only around a pop or once shutdown is requested.
    && (x.cell.notEmpty && x.cell.queue == [] ==> x.cell.shutdown || x.pc.Clearing?)
    // Work is never waiting behind a clear event, except inside _enqueue.
    && (x.cell.queue != [] && !x.cell.notEmpty ==> MidEnqueue(s, w, x.holder))
    && (x.pc.CheckEmpty? || x.pc.Ended? ==> x.cell.shutdown)
    && (x.pc.Ended? ==> x.cell.queue == [])
    // Once shut_down has looked at the queue, a worker about to sleep finds the event set.
    && (x.cell.shutdown && !AboutToWake(s, w) ==>
          x.pc.Waiting? || x.pc.Acquiring? || x.pc.Holding? ==> x.cell.notEmpty)
  }

  ghost predicate Inv(s: Sys) {
    && OWNER in s.pcs
    && s.observers <= s.workers.Keys
    && (s.lock.Some? ==> s.lock.value in s.pcs)
    && (forall t :: t in s.pcs ==> ThreadOk(s, t))
    && (forall w :: w in s.workers ==> WorkerOk(s, w))
  }

  lemma InitInv(threads: set<Tid>)
    ensures Inv(Init(threads))
  {
  }

  /** The worker whose state the next step of a thread changes, if any. */
  function Changed(pc: Pc, c: Choice): set<Wid> {
    match pc
    case Idle => if c.StartWorker? then {c.w} else {}
    case AcquireQ(w, _, _) => {w}
    case Append(w, _, _) => {w}
    case SetEvent(w, _) => {w}
    case ReleaseQ(w, _) => {w}
    case Adding(w) => {w}
    case Removing(w, _) => {w}
    case Flag(w, _) => {w}
    case ShutAcquire(w, _) => {w}
    case ShutTest(w, _) => {w}
    case ShutRelease(w, _) => {w}
    case _ => {}
  }

  /** The workers with which a thread at `pc` is in the middle of something. */
  function Engaged(pc: Pc): set<Wid> { QueueHeld(pc) + if pc.ShutAcquire? then {pc.w} else {} }

  /** All that a step of `t` does to shared state and to other threads. */
  ghost predicate SharedEffect(s: Sys, t: Tid, s': Sys, ws: set<Wid>)
    requires t in s.pcs
  {
    && t in s'.pcs && s'.pcs == s.pcs[t := s'.pcs[t]]
    && (s'.lock == s.lock || (s.lock == None && s'.lock == Some(t)) || (s.lock == Some(t) && s'.lock == None))
    && (s'.observers == s.observers || (s.lock == Some(t) && t == OWNER))
    && (forall w :: w !in ws ==> (w in s'.observers <==> w in s.observers))
    && Engaged(s.pcs[t]) <= ws && Engaged(s'.pcs[t]) <= ws
  }

  /** All that it does to the workers, where `ws` holds the one it changes. */
  predicate WorkersEffect(s: Sys, t: Tid, s': Sys, ws: set<Wid>) {
    && s'.workers.Keys == s.workers.Keys + ws
    && (forall w :: w in s.workers ==>
         if w in ws then ChangedBy(s.workers[w], s'.workers[w], t) else s'.workers[w] == s.workers[w])
  }

  predicate ChangedBy(x: W, x': W, t: Tid) {
    && (x'.holder == x.holder || (x.holder == Free && x'.holder == By(t)) || (x.holder == By(t) && x'.holder == Free))
    && (x'.cell.shutdown == x.cell.shutdown || (t == OWNER && x'.cell.shutdown))
    && (x.cell.queue != [] ==> x'.cell.queue != [])
  }

  lemma PostEffect(s: Sys, t: Tid, c: Choice, s': Sys)
    requires t in s.pcs && ThreadOk(s, t) && PostStep(s, t, c) == Some(s')
    ensures SharedEffect(s, t, s', Changed(s.pcs[t], c))
  {
  }

  lemma PostWorkersEffect(s: Sys, t: Tid, c: Choice, s': Sys)
    requires t in s.pcs && ThreadOk(s, t) && PostStep(s, t, c) == Some(s')
    ensures WorkersEffect(s, t, s', Changed(s.pcs[t], c))
  {
  }

  lemma OwnerEffect(s: Sys, t: Tid, c: Choice, s': Sys)
    requires t in s.pcs && ThreadOk(s, t) && OwnerStep(s, t) == Some(s')
    ensures SharedEffect(s, t, s', Changed(s.pcs[t], c))
  {
  }

  lemma OwnerWorkersEffect(s: Sys, t: Tid, c: Choice, s': Sys)
    requires t in s.pcs && ThreadOk(s, t) && OwnerStep(s, t) == Some(s')
    ensures WorkersEffect(s, t, s', Changed(s.pcs[t], c))
  {
  }

  /** Inside _enqueue, with or without the queue lock. */
  predicate Enqueuing(pc: Pc) { pc.AcquireQ? || pc.Append? || pc.SetEvent? || pc.ReleaseQ? }

  lemma EnqueueSelf(s: Sys, t: Tid, c: Choice, s': Sys)
    requires t in s.pcs && ThreadOk(s, t) && PostStep(s, t, c) == Some(s') && Enqueuing(s.pcs[t])
    ensures t in s'.pcs && ThreadOk(s', t)
  {
  }

  lemma PostSelf(s: Sys, t: Tid, c: Choice, s': Sys)
    requires t in s.pcs && ThreadOk(s, t) && PostStep(s, t, c) == Some(s')
    requires s.observers <= s.workers.Keys && forall w :: w in s.observers ==> !s.workers[w].cell.shutdown
    ensures t in s'.pcs && ThreadOk(s', t)
  {
    if Enqueuing(s.pcs[t]) {
      EnqueueSelf(s, t, c, s');
    }
  }

  lemma OwnerSelf(s: Sys, t: Tid, s': Sys)
    requires t in s.pcs && ThreadOk(s, t) && OwnerStep(s, t) == Some(s')
    ensures t in s'.pcs && ThreadOk(s', t)
  {
  }

  lemma PostWorker(s: Sys, t: Tid, c: Choice, s': Sys, w: Wid)
    requires t in s.pcs && ThreadOk(s, t) && OWNER in s.pcs && PostStep(s, t, c) == Some(s')
    requires w in Changed(s.pcs[t], c) && if w in s.workers then WorkerOk(s, w) else w !in s.observers
    ensures w in s'.workers && WorkerOk(s', w)
  {
  }

  lemma OwnerWorker(s: Sys, t: Tid, c: Choice, s': Sys, w: Wid)
    requires t in s.pcs && ThreadOk(s, t) && OWNER in s.pcs && OwnerStep(s, t) == Some(s')
    requires w in Changed(s.pcs[t], c) && w in s.workers && WorkerOk(s, w)
    ensures w in s'.workers && WorkerOk(s', w)
  {
  }

  /** Another thread keeps what it relies on. */
  lemma OtherThread(s: Sys, t: Tid, s': Sys, ws: set<Wid>, u: Tid)
    requires t in s.pcs && u in s.pcs && u != t && ThreadOk(s, t) && ThreadOk(s, u)
    requires SharedEffect(s, t, s', ws) && WorkersEffect(s, t, s', ws)
    ensures u in s'.pcs && ThreadOk(s', u)
  {
    assert s'.pcs[u] == s.pcs[u];
  }

  /** Another worker keeps its invariant. */
  lemma OtherWorker(s: Sys, t: Tid, s': Sys, ws: set<Wid>, w: Wid)
    requires t in s.pcs && OWNER in s.pcs && ThreadOk(s, t) && w in s.workers && w !in ws && WorkerOk(s, w)
    requires SharedEffect(s, t, s', ws) && WorkersEffect(s, t, s', ws)
    ensures w in s'.workers && WorkerOk(s', w)
  {
  }

  lemma ThreadKeepsInv(s: Sys, t: Tid, c: Choice, s': Sys)
    requires Inv(s) && Step(s, Thread(t, c)) == Some(s')
    ensures Inv(s')
  {
    var ws := Changed(s.pcs[t], c);
    assert ThreadOk(s, t);
    forall w | w in s.observers
      ensures !s.workers[w].cell.shutdown
    {
      assert WorkerOk(s, w);
    }
    if OwnerOnly(s.pcs[t]) {
      OwnerEffect(s, t, c, s');
      OwnerWorkersEffect(s, t, c, s');
      OwnerSelf(s, t, s');
    } else {
      PostEffect(s, t, c, s');
      PostWorkersEffect(s, t, c, s');
      PostSelf(s, t, c, s');
    }
    forall u | u in s'.pcs
      ensures ThreadOk(s', u)
    {
      if u != t {
        OtherThread(s, t, s', ws, u);
      }
    }
    forall w | w in s'.workers
      ensures WorkerOk(s', w)
    {
      if w !in ws {
        OtherWorker(s, t, s', ws, w);
      } else if OwnerOnly(s.pcs[t]) {
        OwnerWorker(s, t, c, s', w);
      } else {
        PostWorker(s, t, c, s', w);
      }
    }
  }

  lemma ConsumerKeepsWorker(s: Sys, w: Wid, s': Sys)
    requires w in s.workers && WorkerOk(s, w) && Step(s, Consumer(w)) == Some(s')
    requires s.workers[w].holder.By? ==> ThreadOk(s, s.workers[w].holder.t)
    ensures w in s'.workers && WorkerOk(s', w)
  {
  }

  lemma ConsumerKeepsThread(s: Sys, w: Wid, s': Sys, u: Tid)
    requires w in s.workers && WorkerOk(s, w) && Step(s, Consumer(w)) == Some(s')
    requires u in s.pcs && ThreadOk(s, u)
    ensures u in s'.pcs && ThreadOk(s', u)
  {
  }

  lemma ConsumerKeepsInv(s: Sys, w: Wid, s': Sys)
    requires Inv(s) && Step(s, Consumer(w)) == Some(s')
    ensures Inv(s')
  {
    assert WorkerOk(s, w);
    assert s.workers[w].holder.By? ==> ThreadOk(s, s.workers[w].holder.t);
    forall u | u in s'.pcs
      ensures ThreadOk(s', u)
    {
      ConsumerKeepsThread(s, w, s', u);
    }
    forall v | v in s'.workers
      ensures WorkerOk(s', v)
    {
      if v == w {
        ConsumerKeepsWorker(s, w, s');
      } else {
        assert WorkerOk(s, v) && s'.workers[v] == s.workers[v];
      }
    }
  }

  /** The invariant holds after every interleaving of any set of threads. */
  lemma {:induction false} RunKeepsInv(s: Sys, acts: seq<Action>)
    requires Inv(s) && Run(s, acts).Some?
    ensures Inv(Run(s, acts).value)
  {
    if acts != [] {
      var before := acts[..|acts| - 1];
      RunKeepsInv(s, before);
      var a := acts[|acts| - 1];
      match a
      case Thread(t, c) => ThreadKeepsInv(Run(s, before).value, t, c, Run(s, acts).value);
      case Consumer(w) => ConsumerKeepsInv(Run(s, before).value, w, Run(s, acts).value);
    }
  }

  /** The promise at the head of shut_down is kept: in every interleaving, with
      any threads posting for the image, _enqueue never meets a shut-down worker. */
  lemma NeverRaised(threads: set<Tid>, acts: seq<Action>, t: Tid)
    requires Run(Init(threads), acts).Some? && t in Run(Init(threads), acts).value.pcs
    ensures !Run(Init(threads), acts).value.pcs[t].Raised?
  {
    InitInv(threads);
    RunKeepsInv(Init(threads), acts);
    assert ThreadOk(Run(Init(threads), acts).value, t);
  }
}
