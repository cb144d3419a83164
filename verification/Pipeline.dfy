/** The build pipeline: base, target and push threads of any number of builders,
    chained by `join` within a builder and by polling the image store across
    builders. Plugins return or raise and set any status of the images that their
    builder holds; base images may be imported, and images deleted, at any time. */
module Pipeline {
  import opened Basics
  import opened CallbackWorker

  type Id = nat
  type BuilderId = nat

  datatype Kind = Base | Target | Provider

  /** What a build waits for: nothing (a base image), the thread that the same
      builder started, or a stored image that some other builder produces. */
  datatype Dep = NoDep | Joins(d: Id) | Polls(d: Id)

  datatype JobPc =
    | Start
    | Joining
    | Check        // is the awaited image NEW or PENDING?
    | Polling      // the loop of _wait_for_final_status
    | Gate         // FAILED, or not COMPLETE: raise
    | Prepare      // template and plugin lookup
    | InPlugin
    | Completing   // normal return: about to assign COMPLETE
    | Saving
    | Failing      // except handler: about to assign FAILED
    | SavingFailed
    | Ended(saved: bool) // whether the last save succeeded
    | Killed       // left by an exception that `except Exception` does not catch

  /** `fetched` is the status of the private copy of the awaited image, if the
      builder holds a copy rather than the live object; `impossible` records the
      status seen by the "should never happen" branch. `pos` counts the threads
      that the builder launched before. */
  datatype Job = Job(
    builder: BuilderId, pos: nat, dep: Dep, pc: JobPc, fetched: Option<Status>, impossible: Option<Status>)

  datatype Sys = Sys(
    kinds: map<Id, Kind>,              // what the images added so far are
    mem: map<Id, Status>,              // in-memory status of the image objects being built
    store: map<Id, Status>,            // persisted status
    jobs: map<Id, Job>,                // launched build threads, by image
    chains: map<BuilderId, seq<Id>>,   // the threads of each builder, in launch order
    done: set<Id>,                     // builds that returned normally and saved COMPLETE
    imported: set<Id>,                 // base images imported as COMPLETE, without a build
    deletes: bool)                     // whether any delete was attempted

  const INIT: Sys := Sys(map[], map[], map[], map[], map[], {}, {}, false)

  datatype Choice = Go | Raise | Exit | SetMem(j: Id, v: Status)

  datatype Action =
    | AddImage(i: Id, kind: Kind)           // add_image: a fresh image, stored as NEW
    | Launch(i: Id, b: BuilderId, dep: Dep) // start its thread
    | Run(i: Id, c: Choice)                 // one step of that thread
    | Import(i: Id)                         // do_import: COMPLETE assigned and saved
    | Delete(i: Id)                         // _delete_image removes the image
    | DeleteFails(i: Id)                    // ... or its cloud plugin raises, and DELETEFAILED is saved

  function Chain(s: Sys, b: BuilderId): seq<Id> { if b in s.chains then s.chains[b] else [] }

  predicate IsA(s: Sys, i: Id, kind: Kind) { i in s.kinds && s.kinds[i] == kind }

  /** A builder that is given a template builds a base image, a target image that
      joins it, and a provider image that joins that; one that is given the id of
      any stored image builds one image on it. */
  predicate Launchable(s: Sys, i: Id, b: BuilderId, dep: Dep) {
    && i in s.mem && i !in s.jobs && i !in s.imported
    && match dep
       case NoDep => Chain(s, b) == [] && IsA(s, i, Base)
       case Polls(d) => Chain(s, b) == [] && d in s.store && d != i && !IsA(s, i, Base)
       case Joins(d) =>
         && Chain(s, b) != [] && d == Chain(s, b)[|Chain(s, b)| - 1] && d in s.jobs && !s.jobs[d].dep.Polls?
         && ((IsA(s, i, Target) && IsA(s, d, Base)) || (IsA(s, i, Provider) && IsA(s, d, Target)))
  }

  predicate Over(pc: JobPc) { pc.Ended? || pc.Killed? }

  /** The status of the awaited image as the thread sees it. */
  function Seen(s: Sys, job: Job): Option<Status> {
    if job.fetched.Some? then job.fetched
    else if job.dep.NoDep? || job.dep.d !in s.mem then None
    else Some(s.mem[job.dep.d])
  }

  predicate Unfinished(v: Status) { v == NEW || v == PENDING }

  /** What one step of a thread does: its new state, at most one assignment to
      the status of an image object, and whether save_image persists its image. */
  datatype Move = Move(job: Job, assign: Option<(Id, Status)>, save: bool)

  function GoTo(job: Job, pc: JobPc): Option<Move> { Some(Move(job.(pc := pc), None, false)) }

  function Assign(job: Job, i: Id, v: Status, pc: JobPc): Option<Move> {
    Some(Move(job.(pc := pc), Some((i, v)), false))
  }

  /** One step of the thread that builds image `i`; None when it has to wait. */
  function Decide(s: Sys, i: Id, job: Job, c: Choice): Option<Move> {
    match job.pc
    case Start =>
      if job.dep.NoDep? then GoTo(job, Prepare)
      else if job.dep.Polls? then GoTo(job, Check)
      else Assign(job, i, PENDING, Joining)
    case Joining =>
      if job.dep.Joins? && job.dep.d in s.jobs && Over(s.jobs[job.dep.d].pc) then GoTo(job, Check) else None
    case Check =>
      var seen := Seen(s, job);
      if seen.None? then None
      else if Unfinished(seen.value) then Assign(job, i, PENDING, Polling)
      else GoTo(job, Gate)
    case Polling =>
      if job.dep.NoDep? then None
      else if job.dep.d !in s.store then GoTo(job, Failing)
      else if Unfinished(s.store[job.dep.d]) then GoTo(job, Polling)
      else GoTo(job.(fetched := Some(s.store[job.dep.d])), Gate)
    case Gate =>
      var seen := Seen(s, job);
      if seen.None? then None
      else if seen.value == FAILED then GoTo(job, Failing)
      else if seen.value != COMPLETE then GoTo(job.(impossible := seen), Failing)
      else GoTo(job, Prepare)
    case Prepare =>
      if c == Raise then GoTo(job, Failing)
      else if c == Exit then GoTo(job, Killed)
      else Assign(job, i, BUILDING, InPlugin)
    case InPlugin =>
      (match c
       case Go => GoTo(job, Completing)
       case Raise => GoTo(job, Failing)
       case Exit => GoTo(job, Killed)
       case SetMem(j, v) => if j in Chain(s, job.builder) then Assign(job, j, v, InPlugin) else None)
    case Completing => Assign(job, i, COMPLETE, Saving)
    case Saving => Save(s, i, job, c, Failing)
    case Failing => Assign(job, i, FAILED, SavingFailed)
    case SavingFailed => Save(s, i, job, c, Ended(false))
    case Ended(_) => None
    case Killed => None
  }

  /** save_image persists the in-memory status; it raises for an image that is no
      longer managed, or for another reason. */
  function Save(s: Sys, i: Id, job: Job, c: Choice, onError: JobPc): Option<Move> {
    if i !in s.store || c == Raise then GoTo(job, onError) else Some(Move(job.(pc := Ended(true)), None, true))
  }

  function Apply(s: Sys, i: Id, m: Move): Sys
    requires i in s.jobs && i in s.mem
  {
    Sys(s.kinds,
        if m.assign.Some? then s.mem[m.assign.value.0 := m.assign.value.1] else s.mem,
        if m.save then s.store[i := s.mem[i]] else s.store,
        s.jobs[i := m.job], s.chains,
        if m.save && s.jobs[i].pc.Saving? then s.done + {i} else s.done, s.imported, s.deletes)
  }

  function JobStep(s: Sys, i: Id, c: Choice): Option<Sys>
    requires i in s.jobs
  {
    var m := Decide(s, i, s.jobs[i], c);
    if m.None? || i !in s.mem then None else Some(Apply(s, i, m.value))
  }

  function Step(s: Sys, a: Action): Option<Sys> {
    match a
    case AddImage(i, kind) =>
      if i in s.mem then None
      else Some(s.(kinds := s.kinds[i := kind], mem := s.mem[i := NEW], store := s.store[i := NEW]))
    case Launch(i, b, dep) =>
      if !Launchable(s, i, b, dep) then None
      else
        var fetched := if dep.Polls? then Some(s.store[dep.d]) else None;
        var job := Job(b, |Chain(s, b)|, dep, Start, fetched, None);
        Some(s.(jobs := s.jobs[i := job], chains := s.chains[b := Chain(s, b) + [i]]))
    case Run(i, c) => if i in s.jobs then JobStep(s, i, c) else None
    case Import(i) =>
      if i !in s.mem || i in s.jobs || !IsA(s, i, Base) then None
      else
        var store := if i in s.store then s.store[i := COMPLETE] else s.store;
        Some(s.(mem := s.mem[i := COMPLETE], store := store, imported := s.imported + {i}))
    case Delete(i) => Some(s.(store := s.store - {i}, deletes := true))
    case DeleteFails(i) =>
      if !IsA(s, i, Provider) then None
      else Some(s.(store := if i in s.store then s.store[i := DELETEFAILED] else s.store, deletes := true))
  }

  function Exec(s: Sys, acts: seq<Action>): Option<Sys> {
    if acts == [] then Some(s)
    else
      var before := Exec(s, acts[..|acts| - 1]);
      if before.None? then None else Step(before.value, acts[|acts| - 1])
  }

  // ----- Invariant -----

  predicate Waiting(pc: JobPc) { pc.Start? || pc.Joining? }

  /** The thread has not yet run any plugin. */
  predicate BeforePlugin(pc: JobPc) {
    Waiting(pc) || pc.Check? || pc.Polling? || pc.Gate? || pc.Prepare?
  }

  /** The gate has been passed. */
  predicate PastGate(pc: JobPc) { pc.Prepare? || pc.InPlugin? || pc.Completing? || pc.Saving? }

  predicate Persistable(v: Status) { v == NEW || v == COMPLETE || v == FAILED || v == DELETEFAILED }

  /** Images that are COMPLETE for good: built to a normal end, or imported. */
  function Ready(s: Sys): set<Id> { s.done + s.imported }

  /** The joined thread was killed, so its image may show anything. */
  predicate DepDead(s: Sys, job: Job) { job.dep.Joins? && job.dep.d in s.jobs && s.jobs[job.dep.d].pc.Killed? }

  /** Only a provider image can fail to be deleted. */
  predicate MayFail(s: Sys, d: Id) { s.deletes && IsA(s, d, Provider) }

  predicate DepMayFail(s: Sys, job: Job) { !job.dep.NoDep? && MayFail(s, job.dep.d) }

  /** A status that the store may show for image `d`. */
  predicate Stored(v: Status, d: Id, ready: set<Id>, mayFail: bool) {
    Persistable(v) && (v == COMPLETE ==> d in ready) && (v == DELETEFAILED ==> mayFail)
  }

  /** The thread's place in its builder. */
  predicate Placed(s: Sys, i: Id)
    requires i in s.jobs
  {
    var job := s.jobs[i];
    && i in s.mem && job.pos < |Chain(s, job.builder)| && Chain(s, job.builder)[job.pos] == i
    && (!job.dep.Joins? ==> job.pos == 0)
    && (job.dep.Polls? ==> job.dep.d in s.mem && job.dep.d != i)
    && (job.dep.Joins? ==> job.dep.d in s.jobs && !s.jobs[job.dep.d].dep.Polls?)
    && (job.dep.Joins? ==> IsA(s, job.dep.d, Base) || IsA(s, job.dep.d, Target))
    && (job.dep.Joins? ==>
         job.dep.d in s.jobs && s.jobs[job.dep.d].builder == job.builder && s.jobs[job.dep.d].pos + 1 == job.pos)
  }

  /** What the thread of image `i`, whose object has status `v`, knows; `dead`
      tells whether the thread that it joins was killed. */
  predicate Local(job: Job, i: Id, v: Status, done: set<Id>, ready: set<Id>, dead: bool, mayFail: bool) {
    && (job.dep.Polls? ==> job.fetched.Some?)
    && (job.fetched.Some? ==> !job.dep.NoDep? && Stored(job.fetched.value, job.dep.d, ready, mayFail))
    && (job.fetched.Some? && job.pc.Gate? ==> !Unfinished(job.fetched.value))
    && (job.dep.Joins? && (Waiting(job.pc) || job.pc.Check? || job.pc.Polling?) ==> job.fetched == None)
    && (job.dep.Joins? && (job.pc.Polling? || job.fetched.Some?) ==> dead)
    && (job.pc.Joining? ==> job.dep.Joins?)
    && (job.dep.NoDep? ==> !job.pc.Check? && !job.pc.Polling? && !job.pc.Gate?)
    && ((PastGate(job.pc) || i in done) && !job.dep.NoDep? ==> job.dep.d in ready || dead)
    && (job.impossible.Some? ==> (job.impossible.value == DELETEFAILED && mayFail) || dead)
    && (i in done ==> job.pc == Ended(true))
    && (job.pc.Saving? ==> v == COMPLETE)
    && (job.pc.SavingFailed? ==> v == FAILED)
  }

  /** A status seen of an awaited image: one that the store may show, and of a
      joined image COMPLETE or FAILED; anything if that thread was killed. */
  predicate Honest(job: Job, seen: Option<Status>, ready: set<Id>, dead: bool, mayFail: bool) {
    && !job.dep.NoDep? && seen.Some?
    && (dead || Stored(seen.value, job.dep.d, ready, mayFail))
    && (job.dep.Joins? && !dead ==> seen.value == COMPLETE || seen.value == FAILED)
  }

  predicate JobOk(s: Sys, i: Id)
    requires i in s.jobs
  {
    i in s.mem && Local(s.jobs[i], i, s.mem[i], s.done, Ready(s), DepDead(s, s.jobs[i]), DepMayFail(s, s.jobs[i]))
  }

  /** `i` was launched before `j` by the same builder. */
  predicate Before(s: Sys, i: Id, j: Id)
    requires i in s.jobs && j in s.jobs
  {
    s.jobs[i].builder == s.jobs[j].builder && s.jobs[i].pos < s.jobs[j].pos
  }

  /** A thread past its join finds all earlier threads of its builder over. */
  predicate Chained(s: Sys, i: Id, j: Id)
    requires i in s.jobs && j in s.jobs
  {
    Before(s, i, j) && !Waiting(s.jobs[j].pc) ==> Over(s.jobs[i].pc)
  }

  /** The image of an ended thread is COMPLETE or FAILED in memory, and COMPLETE
      only after a saved normal return. */
  predicate Final(s: Sys, i: Id) {
    i in s.mem && (s.mem[i] == COMPLETE || s.mem[i] == FAILED) && (s.mem[i] == COMPLETE ==> i in s.done)
  }

  /** No later thread of the same builder has run a plugin yet. */
  ghost predicate Untouched(s: Sys, i: Id)
    requires i in s.jobs
  {
    forall j {:trigger Before(s, i, j)} :: j in s.jobs && Before(s, i, j) ==> BeforePlugin(s.jobs[j].pc)
  }

  ghost predicate FinalOk(s: Sys, i: Id)
    requires i in s.jobs
  {
    s.jobs[i].pc.Ended? && Untouched(s, i) ==> Final(s, i)
  }

  predicate ChainOk(s: Sys, b: BuilderId, n: nat)
    requires n < |Chain(s, b)|
  {
    var i := Chain(s, b)[n];
    i in s.jobs && s.jobs[i].builder == b && s.jobs[i].pos == n
  }

  /** The store shows NEW, or a failed deletion, until the last save of a build. */
  predicate SavedOk(s: Sys, i: Id) {
    i in s.store ==>
      if i in s.jobs && s.jobs[i].pc == Ended(true) then s.store[i] != NEW
      else s.store[i] == NEW || s.store[i] == DELETEFAILED || i in s.imported
  }

  predicate StoreOk(s: Sys, i: Id) {
    SavedOk(s, i) && (i in s.store ==> Stored(s.store[i], i, Ready(s), MayFail(s, i)))
  }

  predicate KeysOk(s: Sys) {
    && s.kinds.Keys == s.mem.Keys && s.store.Keys <= s.mem.Keys && s.jobs.Keys <= s.mem.Keys && s.done <= s.jobs.Keys
    && s.imported <= s.mem.Keys && s.imported !! s.jobs.Keys
    && (!s.deletes ==> s.mem.Keys <= s.store.Keys)
  }

  ghost predicate Inv(s: Sys) {
    && KeysOk(s)
    && (forall i {:trigger StoreOk(s, i)} :: StoreOk(s, i))
    && (forall b, n {:trigger ChainOk(s, b, n)} :: 0 <= n < |Chain(s, b)| ==> ChainOk(s, b, n))
    && (forall i {:trigger Placed(s, i)} :: i in s.jobs ==> Placed(s, i))
    && (forall i {:trigger JobOk(s, i)} :: i in s.jobs ==> JobOk(s, i))
    && (forall i, j {:trigger Chained(s, i, j)} :: i in s.jobs && j in s.jobs ==> Chained(s, i, j))
    && (forall i {:trigger FinalOk(s, i)} :: i in s.jobs ==> FinalOk(s, i))
  }

  // ----- What a thread sees -----

  /** While a thread looks at the image it joined, no plugin of its builder has
      run since that image's thread ended. */
  lemma NothingLaterRan(s: Sys, d: Id, i: Id, j: Id)
    requires d in s.jobs && i in s.jobs && j in s.jobs && Placed(s, i) && Placed(s, j) && Chained(s, i, j)
    requires s.jobs[d].builder == s.jobs[i].builder && s.jobs[d].pos + 1 == s.jobs[i].pos
    requires BeforePlugin(s.jobs[i].pc) && Before(s, d, j)
    ensures BeforePlugin(s.jobs[j].pc)
  {
  }

  lemma JoinedIsFinal(s: Sys, i: Id)
    requires Inv(s) && i in s.jobs && s.jobs[i].dep.Joins? && (s.jobs[i].pc.Check? || s.jobs[i].pc.Gate?)
    requires !DepDead(s, s.jobs[i])
    ensures Final(s, s.jobs[i].dep.d)
  {
    assert Placed(s, i);
    var d := s.jobs[i].dep.d;
    assert s.jobs[d].pc.Ended? by {
      assert Chained(s, d, i);
    }
    forall j | j in s.jobs && Before(s, d, j)
      ensures BeforePlugin(s.jobs[j].pc)
    {
      assert Placed(s, j) && Chained(s, i, j);
      NothingLaterRan(s, d, i, j);
    }
    assert Untouched(s, d) && FinalOk(s, d);
  }

  /** Whatever a waiting thread sees is honest. */
  lemma SeenIsHonest(s: Sys, i: Id)
    requires Inv(s) && i in s.jobs && (s.jobs[i].pc.Check? || s.jobs[i].pc.Gate?)
    ensures var job := s.jobs[i]; Honest(job, Seen(s, job), Ready(s), DepDead(s, job), DepMayFail(s, job))
  {
    assert JobOk(s, i) && Placed(s, i);
    if s.jobs[i].dep.Joins? && !DepDead(s, s.jobs[i]) {
      JoinedIsFinal(s, i);
    }
  }

  // ----- One step of a build thread -----

  /** Every move keeps the thread's place and only goes forward; it assigns to its
      own image, or from a plugin to one of its builder. */
  predicate Forward(s: Sys, i: Id, job: Job, m: Move) {
    && m.job.builder == job.builder && m.job.pos == job.pos && m.job.dep == job.dep
    && (Waiting(m.job.pc) ==> Waiting(job.pc))
    && (BeforePlugin(m.job.pc) ==> BeforePlugin(job.pc))
    && (Waiting(job.pc) && !Waiting(m.job.pc) && job.dep.Joins? ==>
         job.dep.d in s.jobs && Over(s.jobs[job.dep.d].pc))
    && (m.assign.Some? && m.assign.value.0 != i ==> job.pc.InPlugin? && m.assign.value.0 in Chain(s, job.builder))
    && !Over(job.pc)
    && (m.save ==> i in s.store && (job.pc.Saving? || job.pc.SavingFailed?))
    && (m.save <==> m.job.pc == Ended(true)) && (m.job.pc.Ended? && !m.save ==> job.pc.SavingFailed?)
    && (Over(m.job.pc) ==> m.assign == None)
  }

  lemma DecideForward(s: Sys, i: Id, job: Job, c: Choice, m: Move)
    requires Decide(s, i, job, c) == Some(m)
    ensures Forward(s, i, job, m)
  {
  }

  /** The status of the thread's own image after the move. */
  function Own(m: Move, i: Id, v: Status): Status {
    if m.assign.Some? && m.assign.value.0 == i then m.assign.value.1 else v
  }

  predicate WaitingStep(pc: JobPc) { Waiting(pc) || pc.Check? || pc.Polling? || pc.Gate? }

  lemma WaitLocal(s: Sys, i: Id, job: Job, v: Status, c: Choice, m: Move, dead: bool)
    requires Local(job, i, v, s.done, Ready(s), dead, DepMayFail(s, job)) && Decide(s, i, job, c) == Some(m)
    requires WaitingStep(job.pc)
    requires job.pc.Check? || job.pc.Gate? ==> Honest(job, Seen(s, job), Ready(s), dead, DepMayFail(s, job))
    requires !job.dep.NoDep? ==> StoreOk(s, job.dep.d)
    ensures !m.save && Local(m.job, i, Own(m, i, v), s.done, Ready(s), dead, DepMayFail(s, job))
  {
  }

  lemma WorkLocal(s: Sys, i: Id, job: Job, v: Status, c: Choice, m: Move, dead: bool)
    requires Local(job, i, v, s.done, Ready(s), dead, DepMayFail(s, job)) && Decide(s, i, job, c) == Some(m)
    requires !WaitingStep(job.pc) && !job.pc.Saving?
    ensures Local(m.job, i, Own(m, i, v), s.done, Ready(s), dead, DepMayFail(s, job))
  {
    if job.pc.Prepare? || job.pc.InPlugin? {
      PluginLocal(s, i, job, v, c, m, dead);
    }
  }

  lemma PluginLocal(s: Sys, i: Id, job: Job, v: Status, c: Choice, m: Move, dead: bool)
    requires Local(job, i, v, s.done, Ready(s), dead, DepMayFail(s, job)) && Decide(s, i, job, c) == Some(m)
    requires job.pc.Prepare? || job.pc.InPlugin?
    ensures Local(m.job, i, Own(m, i, v), s.done, Ready(s), dead, DepMayFail(s, job))
  {
  }

  lemma SaveLocal(s: Sys, i: Id, job: Job, v: Status, c: Choice, m: Move, dead: bool)
    requires Local(job, i, v, s.done, Ready(s), dead, DepMayFail(s, job)) && Decide(s, i, job, c) == Some(m)
    requires job.pc.Saving?
    ensures var done := if m.save then s.done + {i} else s.done;
      Local(m.job, i, Own(m, i, v), done, done + s.imported, dead, DepMayFail(s, job))
  {
  }

  lemma SelfOk(s: Sys, i: Id, c: Choice, m: Move)
    requires Inv(s) && i in s.jobs && Decide(s, i, s.jobs[i], c) == Some(m)
    ensures i in s.mem && JobOk(Apply(s, i, m), i) && Forward(s, i, s.jobs[i], m)
  {
    var job := s.jobs[i];
    assert JobOk(s, i) && Placed(s, i);
    DecideForward(s, i, job, c, m);
    if WaitingStep(job.pc) {
      if job.pc.Check? || job.pc.Gate? {
        SeenIsHonest(s, i);
      }
      assert !job.dep.NoDep? ==> StoreOk(s, job.dep.d);
      WaitLocal(s, i, job, s.mem[i], c, m, DepDead(s, job));
    } else if job.pc.Saving? {
      SaveLocal(s, i, job, s.mem[i], c, m, DepDead(s, job));
    } else {
      WorkLocal(s, i, job, s.mem[i], c, m, DepDead(s, job));
    }
    DeadKept(s, i, m, i);
    AppliedOk(s, i, m);
  }

  lemma AppliedOk(s: Sys, i: Id, m: Move)
    requires i in s.jobs && i in s.mem && Forward(s, i, s.jobs[i], m)
    requires DepDead(Apply(s, i, m), m.job) == DepDead(s, s.jobs[i])
    requires var done := if m.save && s.jobs[i].pc.Saving? then s.done + {i} else s.done;
      Local(m.job, i, Own(m, i, s.mem[i]), done, done + s.imported, DepDead(s, s.jobs[i]), DepMayFail(s, s.jobs[i]))
    ensures JobOk(Apply(s, i, m), i)
  {
  }

  // The rest of the system, for any move that goes forward.

  /** A killed thread stays killed. */
  lemma DeadKept(s: Sys, i: Id, m: Move, k: Id)
    requires i in s.jobs && i in s.mem && k in s.jobs && Placed(s, k) && Forward(s, i, s.jobs[i], m)
    ensures var s' := Apply(s, i, m);
      (DepDead(s, s.jobs[k]) ==> DepDead(s', s'.jobs[k]))
      && (k == i ==> DepDead(s', s'.jobs[k]) == DepDead(s, s.jobs[k]))
  {
  }

  lemma StoreKept(s: Sys, i: Id, m: Move, k: Id)
    requires i in s.jobs && i in s.mem && JobOk(s, i) && StoreOk(s, k) && Forward(s, i, s.jobs[i], m)
    ensures StoreOk(Apply(s, i, m), k)
  {
  }

  lemma ChainKept(s: Sys, i: Id, m: Move, b: BuilderId, n: nat)
    requires i in s.jobs && i in s.mem && Forward(s, i, s.jobs[i], m)
    requires n < |Chain(s, b)| && ChainOk(s, b, n)
    ensures Chain(Apply(s, i, m), b) == Chain(s, b) && ChainOk(Apply(s, i, m), b, n)
  {
  }

  lemma OtherKept(s: Sys, i: Id, m: Move, k: Id)
    requires i in s.jobs && i in s.mem && k in s.jobs && k != i && JobOk(s, k) && Forward(s, i, s.jobs[i], m)
    requires m.assign.Some? && m.assign.value.0 == k ==> Over(s.jobs[k].pc) || Waiting(s.jobs[k].pc)
    requires var s' := Apply(s, i, m); DepDead(s, s.jobs[k]) ==> DepDead(s', s'.jobs[k])
    ensures JobOk(Apply(s, i, m), k)
  {
  }

  lemma PlacedKept(s: Sys, i: Id, m: Move, k: Id)
    requires i in s.jobs && i in s.mem && k in s.jobs && Placed(s, k) && Forward(s, i, s.jobs[i], m)
    ensures Placed(Apply(s, i, m), k)
  {
  }

  lemma ChainedKept(s: Sys, i: Id, m: Move, j: Id, k: Id)
    requires i in s.jobs && i in s.mem && j in s.jobs && k in s.jobs && Forward(s, i, s.jobs[i], m)
    requires Placed(s, j) && Placed(s, k) && Chained(s, j, k)
    requires s.jobs[k].dep.Joins? ==>
      s.jobs[k].dep.d in s.jobs && Placed(s, s.jobs[k].dep.d) && Chained(s, j, s.jobs[k].dep.d)
    ensures Chained(Apply(s, i, m), j, k)
  {
  }

  lemma UntouchedBefore(s: Sys, i: Id, m: Move, k: Id)
    requires i in s.jobs && i in s.mem && k in s.jobs && Forward(s, i, s.jobs[i], m)
    requires Untouched(Apply(s, i, m), k)
    ensures Untouched(s, k)
  {
    var s' := Apply(s, i, m);
    forall j | j in s.jobs && Before(s, k, j)
      ensures BeforePlugin(s.jobs[j].pc)
    {
      assert Before(s', k, j);
    }
  }

  /** Finality: an ended image is out of reach of every move but a plugin's. */
  lemma FinalKept(s: Sys, i: Id, m: Move, k: Id)
    requires i in s.jobs && i in s.mem && k in s.jobs && k != i && FinalOk(s, k) && Forward(s, i, s.jobs[i], m)
    requires m.assign.Some? && m.assign.value.0 == k && s.jobs[k].pc.Ended? ==> Before(s, k, i)
    ensures FinalOk(Apply(s, i, m), k)
  {
    var s' := Apply(s, i, m);
    if s'.jobs[k].pc.Ended? && Untouched(s', k) {
      UntouchedBefore(s, i, m, k);
      assert Final(s, k);
    }
  }

  lemma FinalSelf(s: Sys, i: Id, m: Move)
    requires i in s.jobs && i in s.mem && JobOk(s, i) && Forward(s, i, s.jobs[i], m)
    ensures FinalOk(Apply(s, i, m), i)
  {
  }

  /** While a plugin runs, earlier threads of its builder are over and later ones
      are still waiting for it. */
  lemma PluginAlone(s: Sys, k: Id, j: Id)
    requires k in s.jobs && j in s.jobs && s.jobs[j].builder == s.jobs[k].builder && Placed(s, j) && Placed(s, k)
    requires Chained(s, j, k) && Chained(s, k, j) && !Waiting(s.jobs[k].pc) && !Over(s.jobs[k].pc)
    ensures j == k || Waiting(s.jobs[j].pc) || (Over(s.jobs[j].pc) && Before(s, j, k))
  {
  }

  /** A plugin that assigns to another image of its builder meets a thread that is
      over and before its own, or a waiting one. */
  lemma AssignedInChain(s: Sys, i: Id, m: Move, k: Id)
    requires Inv(s) && i in s.jobs && k in s.jobs && k != i && Forward(s, i, s.jobs[i], m)
    requires m.assign.Some? && m.assign.value.0 == k
    ensures Waiting(s.jobs[k].pc) || (Over(s.jobs[k].pc) && Before(s, k, i))
  {
    var b := s.jobs[i].builder;
    var n :| 0 <= n < |Chain(s, b)| && Chain(s, b)[n] == k;
    assert ChainOk(s, b, n);
    assert Placed(s, i) && Placed(s, k) && Chained(s, i, k) && Chained(s, k, i);
    PluginAlone(s, i, k);
  }

  lemma RunKeepsJobs(s: Sys, i: Id, m: Move, k: Id)
    requires Inv(s) && i in s.jobs && i in s.mem && k in s.jobs
    requires Forward(s, i, s.jobs[i], m) && JobOk(Apply(s, i, m), i)
    ensures var s' := Apply(s, i, m); Placed(s', k) && JobOk(s', k) && FinalOk(s', k)
  {
    assert Placed(s, k) && JobOk(s, k) && FinalOk(s, k) && JobOk(s, i);
    PlacedKept(s, i, m, k);
    if k == i {
      FinalSelf(s, i, m);
    } else {
      if m.assign.Some? && m.assign.value.0 == k {
        AssignedInChain(s, i, m, k);
      }
      DeadKept(s, i, m, k);
      OtherKept(s, i, m, k);
      FinalKept(s, i, m, k);
    }
  }

  lemma RunKeepsChained(s: Sys, i: Id, m: Move, j: Id, k: Id)
    requires Inv(s) && i in s.jobs && i in s.mem && j in s.jobs && k in s.jobs && Forward(s, i, s.jobs[i], m)
    ensures Chained(Apply(s, i, m), j, k)
  {
    assert Placed(s, j) && Placed(s, k) && Chained(s, j, k);
    if s.jobs[k].dep.Joins? {
      assert Placed(s, s.jobs[k].dep.d) && Chained(s, j, s.jobs[k].dep.d);
    }
    ChainedKept(s, i, m, j, k);
  }

  lemma RunKeepsStore(s: Sys, i: Id, m: Move)
    requires Inv(s) && i in s.jobs && i in s.mem && Forward(s, i, s.jobs[i], m)
    ensures var s' := Apply(s, i, m);
      KeysOk(s') && (forall k :: StoreOk(s', k)) && forall b, n :: 0 <= n < |Chain(s', b)| ==> ChainOk(s', b, n)
  {
    var s' := Apply(s, i, m);
    assert JobOk(s, i);
    if m.assign.Some? && m.assign.value.0 != i {
      var b := s.jobs[i].builder;
      var n :| 0 <= n < |Chain(s, b)| && Chain(s, b)[n] == m.assign.value.0;
      assert ChainOk(s, b, n);
    }
    forall k
      ensures StoreOk(s', k)
    {
      assert StoreOk(s, k);
      StoreKept(s, i, m, k);
    }
    forall b, n | 0 <= n < |Chain(s', b)|
      ensures ChainOk(s', b, n)
    {
      assert ChainOk(s, b, n);
      ChainKept(s, i, m, b, n);
    }
  }

  lemma RunKeepsInv(s: Sys, i: Id, c: Choice, s': Sys)
    requires Inv(s) && Step(s, Run(i, c)) == Some(s')
    ensures Inv(s')
  {
    var m := Decide(s, i, s.jobs[i], c).value;
    SelfOk(s, i, c, m);
    RunKeepsStore(s, i, m);
    forall k | k in s'.jobs
      ensures Placed(s', k) && JobOk(s', k) && FinalOk(s', k)
    {
      RunKeepsJobs(s, i, m, k);
    }
    forall j, k | j in s'.jobs && k in s'.jobs
      ensures Chained(s', j, k)
    {
      RunKeepsChained(s, i, m, j, k);
    }
  }

  // ----- Steps outside build threads -----

  /** An image added, imported or deleted: no thread, and no image that has one, changes. */
  predicate Outside(s: Sys, s': Sys) {
    && s.kinds.Keys <= s'.kinds.Keys && (forall i :: i in s.kinds ==> s'.kinds[i] == s.kinds[i])
    && s'.jobs == s.jobs && s'.chains == s.chains && s'.done == s.done
    && s.imported <= s'.imported && (s.deletes ==> s'.deletes)
    && forall i :: i in s.mem ==> i in s'.mem && (i in s.jobs ==> s'.mem[i] == s.mem[i])
  }

  lemma OutsideKeepsJob(s: Sys, s': Sys, k: Id)
    requires Outside(s, s') && k in s.jobs && Placed(s, k) && JobOk(s, k) && FinalOk(s, k)
    ensures Placed(s', k) && JobOk(s', k) && FinalOk(s', k)
  {
    if Untouched(s', k) {
      forall j | j in s.jobs && Before(s, k, j)
        ensures BeforePlugin(s.jobs[j].pc)
      {
        assert Before(s', k, j);
      }
    }
  }

  lemma OutsideKeepsInv(s: Sys, s': Sys)
    requires Inv(s) && Outside(s, s') && KeysOk(s') && forall i :: StoreOk(s', i)
    ensures Inv(s')
  {
    forall k | k in s'.jobs
      ensures Placed(s', k) && JobOk(s', k) && FinalOk(s', k)
    {
      assert Placed(s, k) && JobOk(s, k) && FinalOk(s, k);
      OutsideKeepsJob(s, s', k);
    }
    forall j, k | j in s'.jobs && k in s'.jobs
      ensures Chained(s', j, k)
    {
      assert Chained(s, j, k);
    }
    forall b, n | 0 <= n < |Chain(s', b)|
      ensures ChainOk(s', b, n)
    {
      assert ChainOk(s, b, n);
    }
  }

  lemma OutsideStep(s: Sys, a: Action, s': Sys)
    requires KeysOk(s) && !a.Launch? && !a.Run? && Step(s, a) == Some(s')
    ensures Outside(s, s') && KeysOk(s')
  {
  }

  lemma OutsideStore(s: Sys, a: Action, s': Sys, i: Id)
    requires KeysOk(s) && StoreOk(s, i) && !a.Launch? && !a.Run? && Step(s, a) == Some(s')
    ensures StoreOk(s', i)
  {
  }

  lemma LaunchKeepsOthers(s: Sys, i: Id, b: BuilderId, dep: Dep, s': Sys, k: Id)
    requires Step(s, Launch(i, b, dep)) == Some(s') && k in s.jobs && Placed(s, k) && JobOk(s, k) && FinalOk(s, k)
    ensures k != i && Placed(s', k) && JobOk(s', k) && FinalOk(s', k)
  {
    if Untouched(s', k) {
      forall j | j in s.jobs && Before(s, k, j)
        ensures BeforePlugin(s.jobs[j].pc)
      {
        assert Before(s', k, j);
      }
    }
  }

  lemma LaunchOwn(s: Sys, i: Id, b: BuilderId, dep: Dep, s': Sys)
    requires Inv(s) && Step(s, Launch(i, b, dep)) == Some(s')
    ensures Placed(s', i) && JobOk(s', i) && FinalOk(s', i)
  {
    if dep.Joins? {
      assert ChainOk(s, b, |Chain(s, b)| - 1);
    } else if dep.Polls? {
      assert StoreOk(s, dep.d);
    }
  }

  lemma LaunchChained(s: Sys, i: Id, b: BuilderId, dep: Dep, s': Sys, j: Id, k: Id)
    requires Step(s, Launch(i, b, dep)) == Some(s') && j in s'.jobs && k in s'.jobs
    requires j != i && k != i ==> Chained(s, j, k)
    requires j == i && k != i ==> Placed(s, k)
    ensures Chained(s', j, k)
  {
  }

  lemma LaunchChain(s: Sys, i: Id, b: BuilderId, dep: Dep, s': Sys, c: BuilderId, n: nat)
    requires Step(s, Launch(i, b, dep)) == Some(s') && n < |Chain(s', c)|
    requires n < |Chain(s, c)| ==> ChainOk(s, c, n)
    ensures ChainOk(s', c, n)
  {
    if c != b || n < |Chain(s, b)| {
      assert Chain(s', c)[n] == Chain(s, c)[n];
    }
  }

  lemma LaunchKeepsInv(s: Sys, i: Id, b: BuilderId, dep: Dep, s': Sys)
    requires Inv(s) && Step(s, Launch(i, b, dep)) == Some(s')
    ensures Inv(s')
  {
    LaunchOwn(s, i, b, dep, s');
    forall k | k in s'.jobs
      ensures Placed(s', k) && JobOk(s', k) && FinalOk(s', k)
    {
      if k != i {
        assert Placed(s, k) && JobOk(s, k) && FinalOk(s, k);
        LaunchKeepsOthers(s, i, b, dep, s', k);
      }
    }
    forall j, k | j in s'.jobs && k in s'.jobs
      ensures Chained(s', j, k)
    {
      assert j != i && k != i ==> Chained(s, j, k);
      assert k != i ==> Placed(s, k);
      LaunchChained(s, i, b, dep, s', j, k);
    }
    forall c, n | 0 <= n < |Chain(s', c)|
      ensures ChainOk(s', c, n)
    {
      assert n < |Chain(s, c)| ==> ChainOk(s, c, n);
      LaunchChain(s, i, b, dep, s', c, n);
    }
    forall k
      ensures StoreOk(s', k)
    {
      assert StoreOk(s, k);
    }
  }

  lemma StepKeepsInv(s: Sys, a: Action, s': Sys)
    requires Inv(s) && Step(s, a) == Some(s')
    ensures Inv(s')
  {
    match a
    case Launch(i, b, dep) => LaunchKeepsInv(s, i, b, dep, s');
    case Run(i, c) => RunKeepsInv(s, i, c, s');
    case _ =>
      OutsideStep(s, a, s');
      forall i
        ensures StoreOk(s', i)
      {
        assert StoreOk(s, i);
        OutsideStore(s, a, s', i);
      }
      OutsideKeepsInv(s, s');
  }

  lemma InitInv()
    ensures Inv(INIT)
  {
  }

  lemma {:induction false} ExecKeepsInv(s: Sys, acts: seq<Action>)
    requires Inv(s) && Exec(s, acts).Some?
    ensures Inv(Exec(s, acts).value)
  {
    if acts != [] {
      var before := acts[..|acts| - 1];
      ExecKeepsInv(s, before);
      StepKeepsInv(Exec(s, before).value, acts[|acts| - 1], Exec(s, acts).value);
    }
  }

  // ----- Results -----

  ghost predicate Reachable(s: Sys, acts: seq<Action>) { Exec(INIT, acts) == Some(s) }

  lemma ReachableInv(s: Sys, acts: seq<Action>)
    requires Reachable(s, acts)
    ensures Inv(s)
  {
    InitInv();
    ExecKeepsInv(INIT, acts);
  }

  /** SAFETY: a thread about to assign COMPLETE, saving it, or done, has an awaited
      image whose own build returned normally and saved COMPLETE before, or that
      was imported, exactly if the build that it joined was not killed. */
  lemma CompleteNeedsDependency(s: Sys, acts: seq<Action>, i: Id)
    requires Reachable(s, acts) && i in s.jobs && !s.jobs[i].dep.NoDep?
    requires s.jobs[i].pc.Completing? || s.jobs[i].pc.Saving? || i in s.done
    ensures s.jobs[i].dep.d in s.done || s.jobs[i].dep.d in s.imported <==> !DepDead(s, s.jobs[i])
  {
    ReachableInv(s, acts);
    assert JobOk(s, i);
    if DepDead(s, s.jobs[i]) {
      KilledIsNotReady(s, i);
    }
  }

  lemma KilledIsNotReady(s: Sys, i: Id)
    requires Inv(s) && i in s.jobs && DepDead(s, s.jobs[i])
    ensures s.jobs[i].dep.d !in Ready(s)
  {
    assert JobOk(s, s.jobs[i].dep.d);
  }

  /** The gate lets a build on an image that is not ready pass exactly if the build
      that it joined was killed with COMPLETE already assigned. */
  lemma PassesUnreadyExactly(s: Sys, acts: seq<Action>, i: Id, c: Choice)
    requires Reachable(s, acts) && i in s.jobs && s.jobs[i].pc.Gate?
    ensures var job := s.jobs[i]; var m := Decide(s, i, job, c);
      && m.Some? && !job.dep.NoDep?
      && (m.value.job.pc.Prepare? && job.dep.d !in Ready(s) <==> DepDead(s, job) && Seen(s, job) == Some(COMPLETE))
  {
    ReachableInv(s, acts);
    assert JobOk(s, i);
    SeenIsHonest(s, i);
    if DepDead(s, s.jobs[i]) {
      KilledIsNotReady(s, i);
    }
  }

  /** The store never shows an in-progress status, and shows COMPLETE only for
      images that were built to a normal end or imported. */
  lemma StoreNeverInProgress(s: Sys, acts: seq<Action>, i: Id)
    requires Reachable(s, acts) && i in s.store
    ensures s.store[i] in {NEW, COMPLETE, FAILED, DELETEFAILED}
    ensures s.store[i] == COMPLETE ==> i in s.done || i in s.imported
    ensures s.store[i] == DELETEFAILED ==> s.deletes && IsA(s, i, Provider)
  {
    ReachableInv(s, acts);
    assert StoreOk(s, i);
  }

  /** The poll loop returns only final statuses, and COMPLETE only for images that
      were built to a normal end or imported. */
  lemma PollReturnsFinal(s: Sys, acts: seq<Action>, i: Id)
    requires Reachable(s, acts) && i in s.jobs && s.jobs[i].fetched.Some? && s.jobs[i].pc.Gate?
    ensures var seen := Seen(s, s.jobs[i]);
      && !s.jobs[i].dep.NoDep? && seen.Some? && seen.value in {COMPLETE, FAILED, DELETEFAILED}
      && (seen.value == COMPLETE ==> s.jobs[i].dep.d in s.done || s.jobs[i].dep.d in s.imported)
  {
    ReachableInv(s, acts);
    assert JobOk(s, i);
  }

  /** The "should never happen" branch is taken exactly when the awaited image is a
      provider image whose deletion failed, or when the joined build was killed
      and left neither COMPLETE nor FAILED. */
  lemma ImpossibleExactly(s: Sys, acts: seq<Action>, i: Id, c: Choice)
    requires Reachable(s, acts) && i in s.jobs && s.jobs[i].pc.Gate?
    ensures var job := s.jobs[i]; var m, seen := Decide(s, i, job.(impossible := None), c), Seen(s, job);
      && m.Some? && seen.Some?
      && (m.value.job.impossible.Some? <==>
            seen.value == DELETEFAILED || (DepDead(s, job) && seen.value != COMPLETE && seen.value != FAILED))
      && (seen.value == DELETEFAILED && !DepDead(s, job) ==> job.dep.Polls? && IsA(s, job.dep.d, Provider))
  {
    ReachableInv(s, acts);
    assert JobOk(s, i) && Placed(s, i);
    SeenIsHonest(s, i);
  }

  /** A build on a base or target image never takes that branch, whatever is
      deleted, unless the build that it joined was killed. */
  lemma NeverOnBaseOrTarget(s: Sys, acts: seq<Action>, i: Id)
    requires Reachable(s, acts) && i in s.jobs && !DepDead(s, s.jobs[i])
    requires s.jobs[i].dep.NoDep? || !IsA(s, s.jobs[i].dep.d, Provider)
    ensures s.jobs[i].impossible == None
  {
    ReachableInv(s, acts);
    assert JobOk(s, i);
  }

  /** Without deletes no build does, and a polled image never disappears from the
      store. */
  lemma NeverWithoutDelete(s: Sys, acts: seq<Action>, i: Id)
    requires Reachable(s, acts) && i in s.jobs && !s.deletes
    ensures !DepDead(s, s.jobs[i]) ==> s.jobs[i].impossible == None
    ensures s.jobs[i].dep.Polls? ==> s.jobs[i].dep.d in s.store
  {
    ReachableInv(s, acts);
    assert JobOk(s, i) && Placed(s, i);
  }

  // ----- Progress -----

  /** Only a thread that joins one still running has to wait. */
  lemma Blocked(s: Sys, i: Id)
    requires Inv(s) && i in s.jobs && !Over(s.jobs[i].pc) && Step(s, Run(i, Go)) == None
    ensures var job := s.jobs[i];
      job.dep.Joins? && job.dep.d in s.jobs && !Over(s.jobs[job.dep.d].pc)
      && s.jobs[job.dep.d].builder == job.builder && s.jobs[job.dep.d].pos + 1 == job.pos
  {
    assert Placed(s, i) && JobOk(s, i);
    if s.jobs[i].pc.Check? || s.jobs[i].pc.Gate? {
      SeenIsHonest(s, i);
    }
  }

  lemma {:induction false} SomeoneCanStep(s: Sys, i: Id) returns (k: Id)
    requires Inv(s) && i in s.jobs && !Over(s.jobs[i].pc)
    ensures k in s.jobs && s.jobs[k].builder == s.jobs[i].builder && s.jobs[k].pos <= s.jobs[i].pos
    ensures Step(s, Run(k, Go)).Some?
    decreases s.jobs[i].pos
  {
    if Step(s, Run(i, Go)).Some? {
      k := i;
    } else {
      Blocked(s, i);
      k := SomeoneCanStep(s, s.jobs[i].dep.d);
    }
  }

  /** NO DEADLOCK: in every reachable state a build that is not over, or an earlier
      one of the same builder that it waits for, can take a step. */
  lemma NoDeadlock(s: Sys, acts: seq<Action>, i: Id)
    requires Reachable(s, acts) && i in s.jobs && !Over(s.jobs[i].pc)
    ensures exists k :: k in s.jobs && s.jobs[k].builder == s.jobs[i].builder && s.jobs[k].pos <= s.jobs[i].pos
                        && Step(s, Run(k, Go)).Some?
  {
    ReachableInv(s, acts);
    var k := SomeoneCanStep(s, i);
  }

  predicate PollsNew(s: Sys, i: Id, d: Id) {
    && i in s.jobs && s.jobs[i].pc.Polling? && s.jobs[i].dep != NoDep && s.jobs[i].dep.d == d
    && d in s.store && s.store[d] == NEW && d in s.jobs && Over(s.jobs[d].pc)
  }

  /** No delete of `d`. */
  predicate Keeps(acts: seq<Action>, d: Id) { Delete(d) !in acts && DeleteFails(d) !in acts }

  lemma StillNew(s: Sys, a: Action, s': Sys, i: Id, d: Id)
    requires KeysOk(s) && PollsNew(s, i, d) && Step(s, a) == Some(s') && a != Delete(d) && a != DeleteFails(d)
    ensures PollsNew(s', i, d)
  {
  }

  lemma {:induction false} NewForever(s: Sys, acts: seq<Action>, i: Id, d: Id)
    requires Inv(s) && PollsNew(s, i, d) && Exec(s, acts).Some? && Keeps(acts, d)
    ensures PollsNew(Exec(s, acts).value, i, d)
  {
    if acts != [] {
      var before := acts[..|acts| - 1];
      assert forall a :: a in before ==> a in acts;
      ExecKeepsInv(s, before);
      NewForever(s, before, i, d);
      StillNew(Exec(s, before).value, acts[|acts| - 1], Exec(s, acts).value, i, d);
    }
  }

  lemma PollStep(s: Sys, i: Id)
    requires Inv(s) && i in s.jobs && s.jobs[i].pc.Polling?
    ensures !s.jobs[i].dep.NoDep? && Step(s, Run(i, Go)).Some?
    ensures Step(s, Run(i, Go)).value.jobs[i].pc.Polling?
            <==> s.jobs[i].dep.d in s.store && s.store[s.jobs[i].dep.d] == NEW
  {
    assert JobOk(s, i) && Placed(s, i) && StoreOk(s, s.jobs[i].dep.d);
  }

  /** A build that ended without a saved result: it was killed, or its last save
      failed; no failed deletion has been saved since. */
  predicate Lost(s: Sys, d: Id) {
    && d in s.jobs && (s.jobs[d].pc.Killed? || s.jobs[d].pc == Ended(false))
    && d in s.store && s.store[d] != DELETEFAILED
  }

  lemma LostExactly(s: Sys, d: Id)
    requires Inv(s) && d in s.jobs
    ensures Lost(s, d) <==> Over(s.jobs[d].pc) && d in s.store && s.store[d] == NEW
  {
    assert StoreOk(s, d);
  }

  /** POLLING ENDS EXACTLY: a poller of a launched build stays in its loop in every
      continuation without a delete of the awaited image if and only if that build
      is over and lost. Otherwise some continuation takes it out of the loop, and
      if the build is over its very next step does. */
  lemma PollingEndsExactly(s: Sys, acts: seq<Action>, i: Id, d: Id)
    requires Reachable(s, acts) && i in s.jobs && s.jobs[i].pc.Polling? && s.jobs[i].dep != NoDep
    requires s.jobs[i].dep.d == d && d in s.jobs
    ensures Lost(s, d) <==> forall more :: Keeps(more, d) ==> StaysPolling(s, more, i)
    ensures !Lost(s, d) && Over(s.jobs[d].pc) ==> !StaysPolling(s, [Run(i, Go)], i)
  {
    ReachableInv(s, acts);
    PollStep(s, i);
    LostExactly(s, d);
    if Lost(s, d) {
      StaysForever(s, i, d);
    } else if Over(s.jobs[d].pc) {
      LeavesNext(s, i);
      assert Keeps([Run(i, Go)], d);
    } else {
      var more := CanLeave(s, i, d);
    }
  }

  lemma StaysForever(s: Sys, i: Id, d: Id)
    requires Inv(s) && PollsNew(s, i, d)
    ensures forall more :: Keeps(more, d) ==> StaysPolling(s, more, i)
  {
    forall more | Keeps(more, d)
      ensures StaysPolling(s, more, i)
    {
      if Exec(s, more).Some? {
        NewForever(s, more, i, d);
      }
    }
  }

  lemma LeavesNext(s: Sys, i: Id)
    requires i in s.jobs && Step(s, Run(i, Go)).Some? && !Step(s, Run(i, Go)).value.jobs[i].pc.Polling?
    ensures !StaysPolling(s, [Run(i, Go)], i)
  {
    ExecSnoc(s, [], Run(i, Go));
    assert [] + [Run(i, Go)] == [Run(i, Go)];
  }

  /** If these steps can be taken, `i` is still polling after them. */
  predicate StaysPolling(s: Sys, acts: seq<Action>, i: Id) {
    Exec(s, acts).Some? ==> i in Exec(s, acts).value.jobs && Exec(s, acts).value.jobs[i].pc.Polling?
  }

  function Extend(s: Option<Sys>, a: Action): Option<Sys> { if s.None? then None else Step(s.value, a) }

  lemma ExecSnoc(s: Sys, acts: seq<Action>, a: Action)
    ensures Exec(s, acts + [a]) == Extend(Exec(s, acts), a)
  {
    assert (acts + [a])[..|acts|] == acts;
  }

  // ----- A build that is not over can be brought to an end -----

  /** What a run towards the end of `top` leaves alone. */
  predicate Sparing(s: Sys, acts: seq<Action>, here: Sys, top: Id)
    requires top in s.jobs
  {
    && Exec(s, acts) == Some(here)
    && (forall k :: k in s.jobs ==> k in here.jobs && SameJob(s, here, k))
    && (forall k :: k in s.jobs && s.jobs[k].dep.Polls? && k != top ==> here.jobs[k] == s.jobs[k])
    && (forall a :: a in acts ==> a.Run? || (a.Delete? && MayDelete(s, a.i, top)))
  }

  predicate SameJob(s: Sys, here: Sys, k: Id)
    requires k in s.jobs && k in here.jobs
  {
    var job, now := s.jobs[k], here.jobs[k];
    now.builder == job.builder && now.pos == job.pos && now.dep == job.dep
  }

  /** An image that `top` waits for, directly or through its builder. */
  predicate MayDelete(s: Sys, x: Id, top: Id)
    requires top in s.jobs
  {
    (x in s.jobs && Before(s, x, top)) || s.jobs[top].dep == Polls(x)
  }

  /** A thread that `top` waits for, or `top`. */
  predicate Needed(s: Sys, d: Id, top: Id)
    requires top in s.jobs
  {
    d in s.jobs && (d == top || (Before(s, d, top) && !s.jobs[d].dep.Polls?))
  }

  lemma SparingStep(s: Sys, acts: seq<Action>, here: Sys, top: Id, a: Action) returns (acts': seq<Action>, there: Sys)
    requires Inv(here) && top in s.jobs && Sparing(s, acts, here, top) && Step(here, a).Some?
    requires (a.Run? && Needed(s, a.i, top)) || (a.Delete? && MayDelete(s, a.i, top))
    ensures Inv(there) && Sparing(s, acts', there, top) && Step(here, a) == Some(there)
  {
    acts', there := acts + [a], Step(here, a).value;
    ExecSnoc(s, acts, a);
    StepKeepsInv(here, a, there);
    StepSpares(here, a, there);
  }

  lemma StepSpares(s: Sys, a: Action, s': Sys)
    requires (a.Run? || a.Delete?) && Step(s, a) == Some(s')
    ensures s'.jobs.Keys == s.jobs.Keys
    ensures forall k :: k in s.jobs ==> SameJob(s, s', k) && (a.Delete? || k != a.i ==> s'.jobs[k] == s.jobs[k])
  {
    if a.Run? {
      DecideForward(s, a.i, s.jobs[a.i], a.c, Decide(s, a.i, s.jobs[a.i], a.c).value);
    }
  }

  /** How far a thread is from its end, and what takes it there. */
  function Left(pc: JobPc): nat {
    match pc
    case Start => 9
    case Joining => 8
    case Check => 7
    case Polling => 6
    case Gate => 5
    case Prepare => 4
    case InPlugin => 4
    case Completing => 4
    case Saving => 3
    case Failing => 2
    case SavingFailed => 1
    case Ended(_) => 0
    case Killed => 0
  }

  function Towards(pc: JobPc): Choice { if pc.Prepare? || pc.InPlugin? then Raise else Go }

  /** Nothing keeps the thread from going on. */
  predicate Free(s: Sys, d: Id)
    requires d in s.jobs
  {
    var job := s.jobs[d];
    && !Over(job.pc)
    && (job.pc.Joining? ==> job.dep.Joins? && job.dep.d in s.jobs && Over(s.jobs[job.dep.d].pc))
    && (job.pc.Polling? ==> !job.dep.NoDep? && !(job.dep.d in s.store && Unfinished(s.store[job.dep.d])))
  }

  lemma FreeMove(s: Sys, d: Id, job: Job)
    requires d in s.jobs && s.jobs[d] == job && Free(s, d)
    requires job.pc.Check? || job.pc.Gate? ==> Seen(s, job).Some?
    ensures var m := Decide(s, d, job, Towards(job.pc));
      && m.Some? && Left(m.value.job.pc) < Left(job.pc)
      && (Over(m.value.job.pc) ==> m.value.job.pc == Ended(true) || d !in s.store)
  {
  }

  lemma FreeStep(s: Sys, d: Id)
    requires Inv(s) && d in s.jobs && Free(s, d)
    ensures var next := Step(s, Run(d, Towards(s.jobs[d].pc)));
      && next.Some? && d in next.value.jobs && Left(next.value.jobs[d].pc) < Left(s.jobs[d].pc)
      && (Over(next.value.jobs[d].pc) ==> next.value.jobs[d].pc == Ended(true) || d !in next.value.store)
  {
    assert Placed(s, d);
    if s.jobs[d].pc.Check? || s.jobs[d].pc.Gate? {
      SeenIsHonest(s, d);
    }
    FreeMove(s, d, s.jobs[d]);
  }

  /** Makes a thread free: the one that it joins is brought to its end first, and
      an image that it polls is deleted. */
  lemma {:induction false} MakeFree(s: Sys, acts: seq<Action>, here: Sys, d: Id, top: Id)
    returns (acts': seq<Action>, there: Sys)
    requires Inv(s) && Inv(here) && top in s.jobs && Sparing(s, acts, here, top) && Needed(s, d, top)
    requires !Over(here.jobs[d].pc)
    ensures Inv(there) && Sparing(s, acts', there, top) && there.jobs[d] == here.jobs[d] && Free(there, d)
    ensures forall k :: k in s.jobs && k != d && !Before(s, k, d) ==> there.jobs[k] == here.jobs[k]
    decreases s.jobs[d].pos, Left(here.jobs[d].pc), 0
  {
    acts', there := acts, here;
    var job := here.jobs[d];
    assert JobOk(here, d) && Placed(here, d) && Placed(s, d);
    if job.pc.Joining? {
      assert Needed(s, job.dep.d, top);
      acts', there := Finish(s, acts, here, job.dep.d, top);
    } else if job.pc.Polling? && !Free(here, d) {
      assert MayDelete(s, job.dep.d, top);
      acts', there := SparingStep(s, acts, here, top, Delete(job.dep.d));
    }
  }

  lemma Advance(s: Sys, acts: seq<Action>, here: Sys, d: Id, top: Id) returns (acts': seq<Action>, there: Sys)
    requires Inv(here) && top in s.jobs && Sparing(s, acts, here, top) && Needed(s, d, top) && Free(here, d)
    ensures Inv(there) && Sparing(s, acts', there, top) && Left(there.jobs[d].pc) < Left(here.jobs[d].pc)
    ensures forall k :: k in s.jobs && k != d ==> there.jobs[k] == here.jobs[k]
    ensures Over(there.jobs[d].pc) ==> there.jobs[d].pc == Ended(true) || d !in there.store
  {
    var a := Run(d, Towards(here.jobs[d].pc));
    FreeStep(here, d);
    acts', there := SparingStep(s, acts, here, top, a);
    StepSpares(here, a, there);
  }

  /** Brings a thread to its end, with its result saved if its image is still
      stored. */
  lemma {:induction false} Finish(s: Sys, acts: seq<Action>, here: Sys, d: Id, top: Id)
    returns (acts': seq<Action>, there: Sys)
    requires Inv(s) && Inv(here) && top in s.jobs && Sparing(s, acts, here, top) && Needed(s, d, top)
    ensures Inv(there) && Sparing(s, acts', there, top) && Over(there.jobs[d].pc)
    ensures forall k :: k in s.jobs && k != d && !Before(s, k, d) ==> there.jobs[k] == here.jobs[k]
    ensures if Over(here.jobs[d].pc) then there == here
            else there.jobs[d].pc == Ended(true) || d !in there.store
    decreases s.jobs[d].pos, Left(here.jobs[d].pc), 1
  {
    acts', there := acts, here;
    if !Over(here.jobs[d].pc) {
      acts', there := MakeFree(s, acts, here, d, top);
      acts', there := Advance(s, acts', there, d, top);
      acts', there := Finish(s, acts', there, d, top);
    }
  }

  /** A poller of a build that is not over can be freed, with no delete of the
      image that it polls. */
  lemma CanLeave(s: Sys, i: Id, d: Id) returns (more: seq<Action>)
    requires Inv(s) && i in s.jobs && s.jobs[i].pc.Polling? && s.jobs[i].dep != NoDep && s.jobs[i].dep.d == d
    requires d in s.jobs && !Over(s.jobs[d].pc)
    ensures Keeps(more, d) && !StaysPolling(s, more, i)
  {
    var there;
    assert JobOk(s, i) && Placed(s, i) && Placed(s, d);
    more, there := Finish(s, [], s, d, d);
    assert JobOk(there, i) && StoreOk(there, d);
    PollStep(there, i);
    ExecSnoc(s, more, Run(i, Go));
    more := more + [Run(i, Go)];
  }

  // ----- Runs that show what is possible -----

  lemma Next(s: Sys, acts: seq<Action>, a: Action) returns (s': Sys, acts': seq<Action>)
    requires Reachable(s, acts) && Step(s, a).Some?
    ensures Step(s, a) == Some(s') && Reachable(s', acts')
  {
    ExecSnoc(INIT, acts, a);
    s', acts' := Step(s, a).value, acts + [a];
  }

  /** The "should never happen" branch is reached: a target image is asked for on
      the id of a provider image whose deletion failed. */
  lemma ImpossibleIsPossible() returns (s: Sys, acts: seq<Action>)
    ensures Reachable(s, acts) && 1 in s.jobs && s.jobs[1].dep == Polls(0)
    ensures s.jobs[1].impossible == Some(DELETEFAILED)
  {
    s, acts := UndeletedProvider();
    s, acts := Next(s, acts, Launch(1, 7, Polls(0)));
    s, acts := Next(s, acts, Run(1, Go));
    s, acts := Next(s, acts, Run(1, Go));
    s, acts := Next(s, acts, Run(1, Go));
  }

  lemma UndeletedProvider() returns (s: Sys, acts: seq<Action>)
    ensures Reachable(s, acts) && 0 in s.store && s.store[0] == DELETEFAILED
    ensures 1 in s.mem && 1 !in s.jobs && 1 !in s.imported && 7 !in s.chains && IsA(s, 1, Target)
  {
    s, acts := INIT, [];
    s, acts := Next(s, acts, AddImage(0, Provider));
    s, acts := Next(s, acts, DeleteFails(0));
    s, acts := Next(s, acts, AddImage(1, Target));
  }

  /** A poller is stuck: the awaited build failed, and so did its last save. */
  lemma StuckIsPossible() returns (s: Sys, acts: seq<Action>)
    ensures Reachable(s, acts) && PollsNew(s, 1, 0)
  {
    s, acts := FailedSave();
    s, acts := Next(s, acts, AddImage(1, Target));
    s, acts := Next(s, acts, Launch(1, 7, Polls(0)));
    s, acts := Next(s, acts, Run(1, Go));
    s, acts := Next(s, acts, Run(1, Go));
  }

  lemma FailedSave() returns (s: Sys, acts: seq<Action>)
    ensures Reachable(s, acts) && 0 in s.jobs && s.jobs[0].pc.Ended? && 0 in s.store && s.store[0] == NEW
    ensures 1 !in s.mem && 1 !in s.jobs && 1 !in s.imported && 7 !in s.chains
  {
    s, acts := Failing0();
    s, acts := Next(s, acts, Run(0, Go));
    s, acts := Next(s, acts, Run(0, Raise));
  }

  lemma Failing0() returns (s: Sys, acts: seq<Action>)
    ensures Reachable(s, acts) && 0 in s.jobs && s.jobs[0].pc.Failing?
    ensures 0 in s.mem && 0 in s.store && s.store[0] == NEW
    ensures 1 !in s.mem && 1 !in s.jobs && 1 !in s.imported && 7 !in s.chains
  {
    s, acts := INIT, [];
    s, acts := Next(s, acts, AddImage(0, Base));
    s, acts := Next(s, acts, Launch(0, 5, NoDep));
    s, acts := Next(s, acts, Run(0, Go));
    s, acts := Next(s, acts, Run(0, Raise));
  }

  /** A joined build that was killed after its plugin had assigned COMPLETE lets
      the target pass, although the base image was never finished. */
  lemma KilledCanPass() returns (s: Sys, acts: seq<Action>)
    ensures Reachable(s, acts) && 1 in s.jobs && s.jobs[1].pc.Prepare? && s.jobs[1].dep == Joins(0)
    ensures DepDead(s, s.jobs[1]) && 0 !in s.done && 0 !in s.imported
  {
    s, acts := Killed0();
    s, acts := Next(s, acts, Run(1, Go));
    s, acts := Next(s, acts, Run(1, Go));
    s, acts := Next(s, acts, Run(1, Go));
    s, acts := Next(s, acts, Run(1, Go));
  }

  /** Two builds of builder 5, the second waiting for the first. */
  predicate Two(s: Sys) {
    && 0 in s.mem && 1 in s.mem && 0 in s.jobs && 1 in s.jobs && Chain(s, 5) == [0, 1]
    && s.jobs[0].builder == 5 && s.jobs[1] == Job(5, 1, Joins(0), Start, None, None)
    && 0 !in s.done && 0 !in s.imported
  }

  lemma Killed0() returns (s: Sys, acts: seq<Action>)
    ensures Reachable(s, acts) && Two(s) && s.jobs[0].pc.Killed? && s.mem[0] == COMPLETE
  {
    s, acts := Launched0();
    s, acts := Next(s, acts, Run(0, Go));
    s, acts := Next(s, acts, Run(0, Go));
    assert 0 in [0, 1];
    s, acts := Next(s, acts, Run(0, SetMem(0, COMPLETE)));
    s, acts := Next(s, acts, Run(0, Exit));
  }

  lemma Launched0() returns (s: Sys, acts: seq<Action>)
    ensures Reachable(s, acts) && Two(s) && s.jobs[0] == Job(5, 0, NoDep, Start, None, None)
  {
    s, acts := INIT, [];
    s, acts := Next(s, acts, AddImage(0, Base));
    s, acts := Next(s, acts, AddImage(1, Target));
    s, acts := Next(s, acts, Launch(0, 5, NoDep));
    s, acts := Next(s, acts, Launch(1, 5, Joins(0)));
    assert [] + [0] + [1] == [0, 1];
  }
}
