/** Lazily created named locks and the compress-once section that they guard.
    Builders of any number of images interleave; the process may crash and
    restart at any step, which keeps only the files. */
module CompressOnce {
  import opened Basics

  type Tid = nat
  type Name = string

  datatype File = Absent | Partial | Full

  datatype Pc =
    | WantGlobal
    | Testing               // holds the global lock
    | Inserting
    | Unlocking
    | Looking               // looks its semaphore up, without the global lock
    | Waiting(sem: nat)
    | TestFile              // holds the named lock from here ...
    | TestMarker
    | Starting              // the shell is about to truncate the output file
    | Compressing
    | Touching
    | Releasing(failed: bool) // ... to here
    | Left(failed: bool)

  datatype Thread = Thread(name: Name, pc: Pc)

  /** `holders` has one entry for each semaphore created since the last start. */
  datatype Sys = Sys(
    threads: map<Tid, Thread>, global: Option<Tid>,
    locks: map<Name, nat>, holders: seq<Option<Tid>>,
    gz: map<Name, File>, marked: set<Name>)

  const INIT: Sys := Sys(map[], None, map[], [], map[], {})

  /** How a shell command ends: status zero, another status, or an exception. */
  datatype Outcome = Ok | Fails | Raises

  datatype Action =
    | Enter(t: Tid, name: Name)
    | Run(t: Tid, c: Outcome)
    | Crash

  function FileOf(s: Sys, name: Name): File { if name in s.gz then s.gz[name] else Absent }

  function At(s: Sys, t: Tid, pc: Pc): Sys
    requires t in s.threads
  {
    s.(threads := s.threads[t := s.threads[t].(pc := pc)])
  }

  /** get_named_lock. */
  function LockStep(s: Sys, t: Tid): Option<Sys>
    requires t in s.threads
  {
    var name := s.threads[t].name;
    match s.threads[t].pc
    case WantGlobal => if s.global == None then Some(At(s, t, Testing).(global := Some(t))) else None
    case Testing => Some(At(s, t, if name in s.locks then Unlocking else Inserting))
    case Inserting => Some(At(s, t, Unlocking).(locks := s.locks[name := |s.holders|], holders := s.holders + [None]))
    case Unlocking => Some(At(s, t, Looking).(global := None))
    case Looking => if name in s.locks then Some(At(s, t, Waiting(s.locks[name]))) else None
    case Waiting(sem) =>
      if sem < |s.holders| && s.holders[sem] == None
      then Some(At(s, t, TestFile).(holders := s.holders[sem := Some(t)]))
      else None
    case _ => None
  }

  /** The section between get_named_lock and release_named_lock. */
  function SectionStep(s: Sys, t: Tid, c: Outcome): Option<Sys>
    requires t in s.threads
  {
    var name := s.threads[t].name;
    match s.threads[t].pc
    case TestFile => Some(At(s, t, if FileOf(s, name) == Absent then Starting else TestMarker))
    case TestMarker => Some(At(s, t, if name in s.marked then Releasing(false) else Starting))
    case Starting =>
      if c == Ok then Some(At(s, t, Compressing).(gz := s.gz[name := Partial])) else Some(At(s, t, Releasing(true)))
    case Compressing =>
      if c == Ok then Some(At(s, t, Touching).(gz := s.gz[name := Full])) else Some(At(s, t, Releasing(true)))
    case Touching =>
      if c == Ok then Some(At(s, t, Releasing(false)).(marked := s.marked + {name}))
      else Some(At(s, t, Releasing(c == Raises)))
    case Releasing(failed) =>
      if name in s.locks && s.locks[name] < |s.holders|
      then Some(At(s, t, Left(failed)).(holders := s.holders[s.locks[name] := None]))
      else None
    case _ => None
  }

  function Step(s: Sys, a: Action): Option<Sys> {
    match a
    case Enter(t, name) =>
      if t in s.threads then None else Some(s.(threads := s.threads[t := Thread(name, WantGlobal)]))
    case Run(t, c) =>
      if t !in s.threads then None
      else if InSection(s.threads[t].pc) then SectionStep(s, t, c)
      else LockStep(s, t)
    case Crash => Some(Sys(map[], None, map[], [], s.gz, s.marked))
  }

  function Exec(s: Sys, acts: seq<Action>): Option<Sys> {
    if acts == [] then Some(s)
    else
      var before := Exec(s, acts[..|acts| - 1]);
      if before.None? then None else Step(before.value, acts[|acts| - 1])
  }

  // ----- Invariant -----

  predicate InSection(pc: Pc) {
    pc.TestFile? || pc.TestMarker? || pc.Starting? || pc.Compressing? || pc.Touching? || pc.Releasing?
  }

  predicate HoldsGlobal(pc: Pc) { pc.Testing? || pc.Inserting? || pc.Unlocking? }

  predicate Holds(s: Sys, t: Tid)
    requires t in s.threads
  {
    var name := s.threads[t].name;
    name in s.locks && s.locks[name] < |s.holders| && s.holders[s.locks[name]] == Some(t)
  }

  /** What thread `t` relies on. */
  predicate ThreadOk(s: Sys, t: Tid)
    requires t in s.threads
  {
    var name, pc := s.threads[t].name, s.threads[t].pc;
    && (HoldsGlobal(pc) ==> s.global == Some(t))
    && (pc.Inserting? ==> name !in s.locks)
    && (!pc.WantGlobal? && !pc.Testing? && !pc.Inserting? ==> name in s.locks)
    && (pc.Waiting? ==> s.locks[name] == pc.sem)
    && (InSection(pc) ==> Holds(s, t))
    && (pc.TestMarker? ==> FileOf(s, name) != Absent)
    && (pc.Starting? || pc.Compressing? || pc.Touching? ==> name !in s.marked)
    && (pc.Touching? || pc == Releasing(false) ==> FileOf(s, name) == Full)
  }

  /** The marker's existence implies completeness. */
  predicate MarkerOk(s: Sys, name: Name) { name in s.marked ==> FileOf(s, name) == Full }

  /** One semaphore per name. */
  predicate LockOk(s: Sys, name: Name, other: Name)
    requires name in s.locks && other in s.locks
  {
    s.locks[name] < |s.holders| && (name != other ==> s.locks[name] != s.locks[other])
  }

  ghost predicate Inv(s: Sys) {
    && (forall t {:trigger ThreadOk(s, t)} :: t in s.threads ==> ThreadOk(s, t))
    && (forall n {:trigger MarkerOk(s, n)} :: MarkerOk(s, n))
    && (forall n, m {:trigger LockOk(s, n, m)} :: n in s.locks && m in s.locks ==> LockOk(s, n, m))
  }

  lemma SelfKept(s: Sys, t: Tid, c: Outcome, s': Sys)
    requires t in s.threads && ThreadOk(s, t) && MarkerOk(s, s.threads[t].name) && Step(s, Run(t, c)) == Some(s')
    requires var n := s.threads[t].name; n in s.locks ==> LockOk(s, n, n)
    ensures ThreadOk(s', t) && MarkerOk(s', s.threads[t].name)
  {
    if InSection(s.threads[t].pc) {
      SelfKeptInSection(s, t, c, s');
    }
  }

  lemma SelfKeptInSection(s: Sys, t: Tid, c: Outcome, s': Sys)
    requires t in s.threads && ThreadOk(s, t) && MarkerOk(s, s.threads[t].name)
    requires InSection(s.threads[t].pc) && SectionStep(s, t, c) == Some(s')
    ensures ThreadOk(s', t) && MarkerOk(s', s.threads[t].name)
  {
  }

  lemma OtherKept(s: Sys, t: Tid, c: Outcome, s': Sys, u: Tid)
    requires t in s.threads && u in s.threads && t != u && ThreadOk(s, t) && ThreadOk(s, u)
    requires Step(s, Run(t, c)) == Some(s')
    requires var n, m := s.threads[t].name, s.threads[u].name;
      n in s.locks && m in s.locks ==> LockOk(s, n, m) && LockOk(s, m, n)
    ensures ThreadOk(s', u)
  {
    if InSection(s.threads[t].pc) {
      OtherKeptInSection(s, t, c, s', u);
    }
  }

  /** A step in the section of `name` touches that name's semaphore and files only. */
  predicate OnlyTouches(s: Sys, s': Sys, name: Name, u: Tid, other: Name)
    requires u in s.threads && name in s.locks
  {
    && u in s'.threads && s'.threads[u] == s.threads[u]
    && s'.global == s.global && s'.locks == s.locks && |s'.holders| == |s.holders|
    && (forall k :: 0 <= k < |s.holders| && k != s.locks[name] ==> s'.holders[k] == s.holders[k])
    && (other != name ==> FileOf(s', other) == FileOf(s, other) && (other in s'.marked <==> other in s.marked))
  }

  lemma SectionTouches(s: Sys, t: Tid, c: Outcome, s': Sys, u: Tid, other: Name)
    requires t in s.threads && u in s.threads && t != u && s.threads[t].name in s.locks
    requires InSection(s.threads[t].pc) && SectionStep(s, t, c) == Some(s')
    ensures OnlyTouches(s, s', s.threads[t].name, u, other)
  {
  }

  lemma OtherKeptInSection(s: Sys, t: Tid, c: Outcome, s': Sys, u: Tid)
    requires t in s.threads && u in s.threads && t != u && ThreadOk(s, t) && ThreadOk(s, u)
    requires InSection(s.threads[t].pc) && SectionStep(s, t, c) == Some(s')
    requires var n, m := s.threads[t].name, s.threads[u].name;
      n in s.locks && m in s.locks ==> LockOk(s, n, m) && LockOk(s, m, n)
    ensures ThreadOk(s', u)
  {
    var name, other := s.threads[t].name, s.threads[u].name;
    assert Holds(s, t);
    SectionTouches(s, t, c, s', u, other);
    TouchedOk(s, s', t, u);
  }

  lemma TouchedOk(s: Sys, s': Sys, t: Tid, u: Tid)
    requires t in s.threads && u in s.threads && t != u && Holds(s, t) && ThreadOk(s, u)
    requires OnlyTouches(s, s', s.threads[t].name, u, s.threads[u].name)
    requires s.threads[u].name in s.locks ==> LockOk(s, s.threads[t].name, s.threads[u].name)
    ensures ThreadOk(s', u)
  {
  }

  /** A step leaves other names' files and marks alone, and never replaces a semaphore. */
  lemma NamesKept(s: Sys, t: Tid, c: Outcome, s': Sys, n: Name)
    requires t in s.threads && Step(s, Run(t, c)) == Some(s') && MarkerOk(s, n) && n != s.threads[t].name
    ensures MarkerOk(s', n)
  {
  }

  lemma LocksKept(s: Sys, t: Tid, c: Outcome, s': Sys, n: Name, m: Name)
    requires t in s.threads && ThreadOk(s, t) && Step(s, Run(t, c)) == Some(s') && n in s'.locks && m in s'.locks
    requires n in s.locks && m in s.locks ==> LockOk(s, n, m)
    requires n in s.locks ==> LockOk(s, n, n)
    requires m in s.locks ==> LockOk(s, m, m)
    ensures LockOk(s', n, m)
  {
  }

  lemma StepKeepsInv(s: Sys, a: Action, s': Sys)
    requires Inv(s) && Step(s, a) == Some(s')
    ensures Inv(s')
  {
    match a
    case Enter(t, name) =>
      forall u | u in s'.threads
        ensures ThreadOk(s', u)
      {
        assert u != t ==> ThreadOk(s, u);
      }
      assert forall n :: MarkerOk(s, n) ==> MarkerOk(s', n);
      assert forall n, m :: n in s.locks && m in s.locks && LockOk(s, n, m) ==> LockOk(s', n, m);
    case Run(t, c) => RunKeepsInv(s, t, c, s');
    case Crash =>
      assert forall n :: MarkerOk(s, n) ==> MarkerOk(s', n);
  }

  lemma RunKeepsInv(s: Sys, t: Tid, c: Outcome, s': Sys)
    requires Inv(s) && Step(s, Run(t, c)) == Some(s')
    ensures Inv(s')
  {
    var name := s.threads[t].name;
    assert ThreadOk(s, t) && MarkerOk(s, name) && (name in s.locks ==> LockOk(s, name, name));
    SelfKept(s, t, c, s');
    forall u | u in s'.threads
      ensures ThreadOk(s', u)
    {
      if u != t {
        var m := s.threads[u].name;
        assert ThreadOk(s, u) && (name in s.locks && m in s.locks ==> LockOk(s, name, m) && LockOk(s, m, name));
        OtherKept(s, t, c, s', u);
      }
    }
    forall n
      ensures MarkerOk(s', n)
    {
      if n != name {
        assert MarkerOk(s, n);
        NamesKept(s, t, c, s', n);
      }
    }
    forall n, m | n in s'.locks && m in s'.locks
      ensures LockOk(s', n, m)
    {
      assert n in s.locks ==> LockOk(s, n, n);
      assert m in s.locks ==> LockOk(s, m, m);
      assert n in s.locks && m in s.locks ==> LockOk(s, n, m);
      LocksKept(s, t, c, s', n, m);
    }
  }

  lemma {:induction false} ExecKeepsInv(s: Sys, acts: seq<Action>)
    requires Inv(s) && Exec(s, acts).Some?
    ensures Inv(Exec(s, acts).value)
  {
    if acts != [] {
      ExecKeepsInv(s, acts[..|acts| - 1]);
      StepKeepsInv(Exec(s, acts[..|acts| - 1]).value, acts[|acts| - 1], Exec(s, acts).value);
    }
  }

  lemma InitInv()
    ensures Inv(INIT)
  {
  }

  // ----- Results, over every run with crashes at any step -----

  /** Mutual exclusion. */
  lemma OneCompresses(acts: seq<Action>, t: Tid, u: Tid)
    requires Exec(INIT, acts).Some?
    requires var s := Exec(INIT, acts).value;
      && t in s.threads && u in s.threads && s.threads[t].name == s.threads[u].name
      && InSection(s.threads[t].pc) && InSection(s.threads[u].pc)
    ensures t == u
  {
    InitInv();
    ExecKeepsInv(INIT, acts);
    assert ThreadOk(Exec(INIT, acts).value, t) && ThreadOk(Exec(INIT, acts).value, u);
  }

  /** A builder that leaves the lock normally sees a complete compressed file, and
      what is marked is complete even after a crash. */
  lemma NormalLeaverSeesFull(acts: seq<Action>, t: Tid, c: Outcome, s': Sys)
    requires Exec(INIT, acts + [Run(t, c)]) == Some(s') && t in s'.threads
    requires s'.threads[t].pc == Left(false)
    ensures FileOf(s', s'.threads[t].name) == Full
    ensures forall n :: n in s'.marked ==> FileOf(s', n) == Full
  {
    assert (acts + [Run(t, c)])[..|acts|] == acts;
    InitInv();
    ExecKeepsInv(INIT, acts);
    ExecKeepsInv(INIT, acts + [Run(t, c)]);
    var s := Exec(INIT, acts).value;
    assert ThreadOk(s, t);
    forall n | n in s'.marked
      ensures FileOf(s', n) == Full
    {
      assert MarkerOk(s', n);
    }
  }

  /** Releasing never fails: the releaser holds the semaphore it looks up. */
  lemma ReleaseSucceeds(acts: seq<Action>, t: Tid, c: Outcome)
    requires Exec(INIT, acts).Some? && t in Exec(INIT, acts).value.threads
    requires Exec(INIT, acts).value.threads[t].pc.Releasing?
    ensures Holds(Exec(INIT, acts).value, t) && Step(Exec(INIT, acts).value, Run(t, c)).Some?
  {
    InitInv();
    ExecKeepsInv(INIT, acts);
    assert ThreadOk(Exec(INIT, acts).value, t);
  }

  /** Until a restart, a name keeps the one semaphore that was created for it. */
  lemma {:induction false} SemaphoreNeverReplaced(s: Sys, acts: seq<Action>, name: Name)
    requires Inv(s) && Exec(s, acts).Some? && name in s.locks && Crash !in acts
    ensures name in Exec(s, acts).value.locks && Exec(s, acts).value.locks[name] == s.locks[name]
  {
    if acts != [] {
      var before := acts[..|acts| - 1];
      SemaphoreNeverReplaced(s, before, name);
      ExecKeepsInv(s, before);
      var a := acts[|acts| - 1];
      assert a in acts;
      if a.Run? {
        assert ThreadOk(Exec(s, before).value, a.t);
      }
    }
  }

  // ----- Does the file stay complete? -----

  lemma {:induction false} MarkedStaysFull(s: Sys, acts: seq<Action>, name: Name)
    requires Inv(s) && Exec(s, acts).Some? && name in s.marked
    ensures name in Exec(s, acts).value.marked && FileOf(Exec(s, acts).value, name) == Full
  {
    ExecKeepsInv(s, acts);
    if acts != [] {
      MarkedStaysFull(s, acts[..|acts| - 1], name);
    }
    assert MarkerOk(Exec(s, acts).value, name);
  }

  lemma Next(s: Sys, acts: seq<Action>, here: Sys, a: Action) returns (more: seq<Action>, there: Sys)
    requires Exec(s, acts) == Some(here) && Step(here, a).Some?
    ensures Exec(s, more) == Some(there) && Step(here, a) == Some(there)
  {
    more, there := acts + [a], Step(here, a).value;
    assert more[..|acts|] == acts;
  }

  /** Thread 0 of a restarted process at `pc`, with the files as they were. */
  predicate Restarted(s: Sys, there: Sys, name: Name, pc: Pc) {
    0 in there.threads && there.threads[0] == Thread(name, pc) && there.gz == s.gz && there.marked == s.marked
  }

  lemma RestartTo(s: Sys, name: Name) returns (acts: seq<Action>, there: Sys)
    ensures Exec(s, acts) == Some(there) && Restarted(s, there, name, Unlocking)
    ensures name in there.locks && there.locks[name] == 0 && there.holders == [None]
  {
    acts, there := [], s;
    acts, there := Next(s, acts, there, Crash);
    acts, there := Next(s, acts, there, Enter(0, name));
    acts, there := Next(s, acts, there, Run(0, Ok));
    acts, there := Next(s, acts, there, Run(0, Ok));
    acts, there := Next(s, acts, there, Run(0, Ok));
  }

  lemma RestartLocked(s: Sys, name: Name) returns (acts: seq<Action>, there: Sys)
    ensures Exec(s, acts) == Some(there) && Restarted(s, there, name, TestFile)
  {
    acts, there := RestartTo(s, name);
    acts, there := Next(s, acts, there, Run(0, Ok));
    acts, there := Next(s, acts, there, Run(0, Ok));
    acts, there := Next(s, acts, there, Run(0, Ok));
  }

  /** An unmarked file can be cut off again: after a restart the next builder truncates it. */
  lemma UnmarkedCanBeCut(s: Sys, name: Name) returns (acts: seq<Action>)
    requires name !in s.marked && FileOf(s, name) == Full
    ensures Exec(s, acts).Some? && FileOf(Exec(s, acts).value, name) == Partial
  {
    var there;
    acts, there := RestartLocked(s, name);
    acts, there := Next(s, acts, there, Run(0, Ok));
    acts, there := Next(s, acts, there, Run(0, Ok));
    acts, there := Next(s, acts, there, Run(0, Ok));
  }

  /** A builder leaves normally with a complete file that is not marked: only the
      command that creates the marker failed. */
  lemma MarkerCanBeMissing(name: Name) returns (acts: seq<Action>, there: Sys)
    ensures Exec(INIT, acts) == Some(there) && 0 in there.threads && there.threads[0] == Thread(name, Left(false))
    ensures FileOf(there, name) == Full && name !in there.marked
  {
    acts, there := Compressed(name);
    acts, there := Next(INIT, acts, there, Run(0, Fails));
    ExecFromStart(acts);
    assert ThreadOk(there, 0);
    acts, there := Next(INIT, acts, there, Run(0, Ok));
  }

  lemma Compressed(name: Name) returns (acts: seq<Action>, there: Sys)
    ensures Exec(INIT, acts) == Some(there) && 0 in there.threads && there.threads[0] == Thread(name, Touching)
    ensures FileOf(there, name) == Full && there.marked == {}
  {
    acts, there := RestartLocked(INIT, name);
    acts, there := Next(INIT, acts, there, Run(0, Ok));
    acts, there := Next(INIT, acts, there, Run(0, Ok));
    acts, there := Next(INIT, acts, there, Run(0, Ok));
  }

  lemma ExecFromStart(acts: seq<Action>)
    requires Exec(INIT, acts).Some?
    ensures Inv(Exec(INIT, acts).value)
  {
    InitInv();
    ExecKeepsInv(INIT, acts);
  }

  /** The compressed file that a normal leaver saw stays complete in every later
      run exactly when the marker was created; its creation is not checked. */
  lemma StaysFullExactly(acts: seq<Action>, name: Name)
    requires Exec(INIT, acts).Some? && FileOf(Exec(INIT, acts).value, name) == Full
    ensures var s := Exec(INIT, acts).value;
      name in s.marked <==> forall more :: Exec(s, more).Some? ==> FileOf(Exec(s, more).value, name) == Full
  {
    var s := Exec(INIT, acts).value;
    InitInv();
    ExecKeepsInv(INIT, acts);
    if name in s.marked {
      forall more | Exec(s, more).Some?
        ensures FileOf(Exec(s, more).value, name) == Full
      {
        MarkedStaysFull(s, more, name);
      }
    } else {
      var more := UnmarkedCanBeCut(s, name);
      assert FileOf(Exec(s, more).value, name) != Full;
    }
  }
}
