/** Exactly once and in order, with any number of threads that set the status:
    when precisely a worker receives just the changes that were made. */
module CallbackExact {
  import opened Basics
  import opened CallbackWorker
  import opened CallbackSystem
  import opened CallbackShutdown
  import opened CallbackDelivery
  import opened CallbackSampling

  // ----- Positions -----

  predicate Ascending(p: seq<int>) { forall j, k :: 0 <= j < k < |p| ==> p[j] <= p[k] }

  predicate Within(p: seq<int>, low: int, high: int) { forall k :: 0 <= k < |p| ==> low <= p[k] < high }

  function Pick(changes: seq<Status>, p: seq<int>): seq<Status>
    requires Within(p, 0, |changes|)
  {
    seq(|p|, k requires 0 <= k < |p| => changes[p[k]])
  }

  /** Position `k` is the k-th from `base` on. */
  predicate InStep(p: seq<int>, base: int) { forall k :: 0 <= k < |p| ==> p[k] == base + k }

  /** Neighbouring changes differ. */
  predicate Varied(changes: seq<Status>) { forall i :: 0 < i < |changes| ==> changes[i] != changes[i - 1] }

  lemma VariedChanges(changes: seq<Status>, now: Status)
    requires NoStutter(changes, now)
    ensures Varied(changes)
  {
    forall i | 0 < i < |changes|
      ensures changes[i] != changes[i - 1]
    {
      assert After(changes[..i]) == changes[i - 1];
    }
  }

  lemma {:induction false} AtLeast(p: seq<int>, base: int, k: nat)
    requires k < |p| && p[0] >= base && forall j :: 0 < j < |p| ==> p[j - 1] < p[j]
    ensures p[k] >= base + k
  {
    if k > 0 {
      AtLeast(p, base, k - 1);
    }
  }

  lemma {:induction false} AtMost(p: seq<int>, high: int, k: nat)
    requires k < |p| && p[|p| - 1] < high && forall j :: 0 < j < |p| ==> p[j - 1] < p[j]
    ensures p[k] < high - (|p| - 1 - k)
    decreases |p| - k
  {
    if k < |p| - 1 {
      AtMost(p, high, k + 1);
      assert p[k + 1 - 1] < p[k + 1];
    }
  }

  /** As many samples as changes are the changes only if each was taken in step:
      two neighbours differ, so positions that never go back must all advance. */
  lemma PicksAllExactly(changes: seq<Status>, base: nat, p: seq<int>)
    requires Varied(changes) && base <= |changes| && |p| == |changes| - base
    requires Within(p, 0, |changes|) && Within(p, base - 1, |changes|) && Ascending(p)
    ensures Pick(changes, p) == changes[base..] <==> InStep(p, base)
  {
    var picked, tail := Pick(changes, p), changes[base..];
    if picked == tail && p != [] {
      forall j | 0 < j < |p|
        ensures p[j - 1] < p[j]
      {
        assert picked[j - 1] == tail[j - 1] && picked[j] == tail[j];
        assert changes[base + j] != changes[base + j - 1];
      }
      assert picked[0] == tail[0];
      forall k | 0 <= k < |p|
        ensures p[k] == base + k
      {
        AtLeast(p, base, k);
        AtMost(p, |changes|, k);
      }
    }
  }

  // ----- What a run reports -----

  /** The threads that will still report to `w` the status they find. */
  function Owers(s: Sys, w: Wid): set<Tid> { set t | t in s.pcs && Owes(s, t, w) }

  /** In this step a thread turns to `w` with the current status. */
  predicate Reports(s: Sys, a: Action, w: Wid) { a.Thread? && a.t in s.pcs && Notifies(s.pcs[a.t], a.c, w) }

  /** The places, in the history of changes, of the statuses that a run reports. */
  function Positions(s: Sys, acts: seq<Action>, w: Wid): seq<int>
    requires Run(s, acts).Some?
  {
    if acts == [] then []
    else
      var before, a := acts[..|acts| - 1], acts[|acts| - 1];
      var here := Run(s, before).value;
      Positions(s, before, w) + if Reports(here, a, w) then [|here.changes| - 1] else []
  }

  /** Every report to `w` is made while just `n + 1` threads owe it one. */
  predicate Timely(s: Sys, acts: seq<Action>, w: Wid, n: nat)
    requires Run(s, acts).Some?
  {
    acts == [] ||
    var before, a := acts[..|acts| - 1], acts[|acts| - 1];
    var here := Run(s, before).value;
    Timely(s, before, w, n) && (Reports(here, a, w) ==> |Owers(here, w)| == n + 1)
  }

  // ----- One step -----

  lemma OwnOwes(s: Sys, t: Tid, c: Choice, s': Sys, w: Wid)
    requires t in s.pcs && PostStep(s, t, c) == Some(s') && t in s'.pcs && !s'.pcs[t].Raised? && w in s.observers
    ensures Owes(s', t, w) <==> (Owes(s, t, w) && !Notifies(s.pcs[t], c, w)) || s'.changes != s.changes
    ensures s'.changes != s.changes ==> !Owes(s, t, w) && |s'.changes| == |s.changes| + 1
    ensures Notifies(s.pcs[t], c, w) ==> Owes(s, t, w) && s'.changes == s.changes
  {
  }

  lemma OwnerOwes(s: Sys, s': Sys, w: Wid)
    requires OWNER in s.pcs && OwnerStep(s, OWNER) == Some(s')
    ensures OWNER in s'.pcs && !Owes(s, OWNER, w) && !Owes(s', OWNER, w) && s'.changes == s.changes
  {
  }

  /** Only thread `t` may begin or cease to owe. */
  lemma OwersWith(s: Sys, t: Tid, s': Sys, w: Wid)
    requires t in s.pcs && s'.pcs.Keys == s.pcs.Keys && forall u :: u in s.pcs && u != t ==> s'.pcs[u] == s.pcs[u]
    ensures |Owers(s', w)| - |Owers(s, w)| == (if Owes(s', t, w) then 1 else 0) - if Owes(s, t, w) then 1 else 0
  {
    var others := Owers(s, w) - {t};
    assert Owers(s, w) == if Owes(s, t, w) then others + {t} else others;
    assert Owers(s', w) == if Owes(s', t, w) then others + {t} else others;
  }

  /** How far the changes are ahead of the open reports. */
  function Lead(s: Sys, w: Wid): int { |s.changes| - |Owers(s, w)| }

  /** One more thread owes after a change, one fewer after a report. */
  lemma OwersNext(s: Sys, a: Action, s': Sys, w: Wid)
    requires Inv(s) && Inv(s') && Step(s, a) == Some(s') && w in s.observers
    ensures Lead(s', w) == Lead(s, w) + if Reports(s, a, w) then 1 else 0
    ensures Reports(s, a, w) ==> s'.changes == s.changes
  {
    match a
    case Consumer(v) =>
      assert Owers(s', w) == Owers(s, w);
    case Thread(t, c) =>
      OthersOwe(s, t, c, s', w);
      OwersWith(s, t, s', w);
      assert ThreadOk(s, t);
      if OwnerOnly(s.pcs[t]) {
        OwnerOwes(s, s', w);
      } else {
        StillThere(s, t, c, s');
        OwnOwes(s, t, c, s', w);
      }
  }

  lemma OthersOwe(s: Sys, t: Tid, c: Choice, s': Sys, w: Wid)
    requires Inv(s) && Step(s, Thread(t, c)) == Some(s')
    ensures s'.pcs.Keys == s.pcs.Keys && t in s.pcs
    ensures forall u :: u in s.pcs && u != t ==> s'.pcs[u] == s.pcs[u]
  {
    assert ThreadOk(s, t);
    if OwnerOnly(s.pcs[t]) {
      OwnerEffect(s, t, c, s');
    } else {
      PostEffect(s, t, c, s');
    }
  }

  lemma StepOffered(s: Sys, a: Action, s': Sys, w: Wid)
    requires Inv(s) && Inv(s') && Step(s, a) == Some(s') && w in s.workers
    ensures w in s'.workers && OfferedNext(s, s', w, Reports(s, a, w))
  {
    match a
    case Consumer(v) => ConsumerOffered(s, v, s', w);
    case Thread(t, c) =>
      assert ThreadOk(s, t);
      if OwnerOnly(s.pcs[t]) {
        OwnerOffered(s, s', w);
      } else {
        StillThere(s, t, c, s');
        PostOffered(s, t, c, s', w);
      }
  }

  // ----- A worker is registered once -----

  /** `w` has been removed, for good. */
  predicate Out(s: Sys, w: Wid) { w in s.workers && w !in s.observers && !Joining(s, w) }

  lemma OutStays(s: Sys, a: Action, s': Sys, w: Wid)
    requires Inv(s) && Step(s, a) == Some(s') && w in s.workers
    ensures Out(s, w) ==> Out(s', w)
    ensures w in s.observers ==> w in s'.observers || Out(s', w)
  {
    if a.Thread? {
      OthersOwe(s, a.t, a.c, s', w);
      assert ThreadOk(s, a.t) && ThreadOk(s, OWNER);
      if OwnerOnly(s.pcs[a.t]) {
        OwnerOut(s, s', w);
      } else {
        PostOut(s, a.t, a.c, s', w);
      }
    }
  }

  lemma OwnerOut(s: Sys, s': Sys, w: Wid)
    requires OWNER in s.pcs && ThreadOk(s, OWNER) && OwnerStep(s, OWNER) == Some(s') && w in s.workers
    ensures Out(s, w) ==> Out(s', w)
    ensures w in s.observers ==> w in s'.observers || Out(s', w)
  {
  }

  lemma PostOut(s: Sys, t: Tid, c: Choice, s': Sys, w: Wid)
    requires t in s.pcs && ThreadOk(s, t) && PostStep(s, t, c) == Some(s') && w in s.workers
    ensures s'.observers == s.observers && (Out(s, w) ==> Out(s', w))
  {
  }

  /** Between two moments at which it is registered, it is registered. */
  lemma {:induction false} ObservedOrOut(s: Sys, acts: seq<Action>, w: Wid)
    requires Inv(s) && Run(s, acts).Some? && w in s.observers
    ensures Inv(Run(s, acts).value) && (w in Run(s, acts).value.observers || Out(Run(s, acts).value, w))
  {
    RunKeepsInv(s, acts);
    if acts != [] {
      var before := acts[..|acts| - 1];
      ObservedOrOut(s, before, w);
      OutStays(Run(s, before).value, acts[|acts| - 1], Run(s, acts).value, w);
    }
  }

  // ----- Every run -----

  /** What a run from `s` to `s'` with reports at positions `p` has offered to `w`. */
  predicate Ledger(s: Sys, p: seq<int>, timely: bool, s': Sys, w: Wid)
    requires w in s.workers && w in s'.workers
  {
    var base := |s.changes|;
    && s.changes <= s'.changes
    && |p| == Lead(s', w) - Lead(s, w)
    && Within(p, 0, |s'.changes|) && Within(p, base - 1, |s'.changes|) && Ascending(p)
    && Offered(s', w) == Offered(s, w) + Pick(s'.changes, p)
    && (timely <==> InStep(p, base))
  }

  lemma PickLonger(changes: seq<Status>, more: seq<Status>, p: seq<int>)
    requires Within(p, 0, |changes|) && changes <= more
    ensures Within(p, 0, |more|) && Pick(more, p) == Pick(changes, p)
  {
  }

  lemma PickNext(changes: seq<Status>, p: seq<int>)
    requires Within(p, 0, |changes|) && changes != []
    ensures Within(p + [|changes| - 1], 0, |changes|)
    ensures Pick(changes, p + [|changes| - 1]) == Pick(changes, p) + [changes[|changes| - 1]]
  {
  }

  lemma AscendingNext(p: seq<int>, low: int, high: int)
    requires Within(p, low, high) && Ascending(p) && low < high
    ensures Within(p + [high - 1], low, high) && Ascending(p + [high - 1])
  {
  }

  lemma InStepNext(p: seq<int>, base: int, x: int)
    ensures InStep(p + [x], base) <==> InStep(p, base) && x == base + |p|
  {
    var q := p + [x];
    assert q[..|p|] == p;
    if InStep(q, base) {
      assert q[|p|] == x;
      forall k | 0 <= k < |p|
        ensures p[k] == base + k
      {
        assert q[k] == p[k];
      }
    }
  }

  lemma LedgerStart(s: Sys, w: Wid)
    requires w in s.workers
    ensures Ledger(s, [], true, s, w)
  {
    assert Pick(s.changes, []) == [];
  }

  /** A step from `here` that is no report. */
  lemma LedgerQuiet(s: Sys, p: seq<int>, timely: bool, here: Sys, s': Sys, w: Wid)
    requires w in s.workers && w in here.workers && w in s'.workers && Ledger(s, p, timely, here, w)
    requires OfferedNext(here, s', w, false) && Lead(s', w) == Lead(here, w)
    ensures Ledger(s, p, timely, s', w)
  {
    PickLonger(here.changes, s'.changes, p);
  }

  /** A step that is. */
  lemma LedgerReport(s: Sys, p: seq<int>, timely: bool, here: Sys, s': Sys, w: Wid)
    requires w in s.workers && w in here.workers && w in s'.workers && Ledger(s, p, timely, here, w)
    requires OfferedNext(here, s', w, true) && s'.changes == here.changes && Lead(s', w) == Lead(here, w) + 1
    requires here.changes != [] && here.status == here.changes[|here.changes| - 1]
    ensures var last := |here.changes| - 1;
      Ledger(s, p + [last], timely && |Owers(here, w)| == |Owers(s, w)| + 1, s', w)
  {
    var base, last, more := |s.changes|, |here.changes| - 1, Pick(here.changes, p);
    PickNext(here.changes, p);
    AscendingNext(p, base - 1, |here.changes|);
    InStepNext(p, base, last);
    assert Offered(s, w) + more + [here.status] == Offered(s, w) + (more + [here.status]);
  }

  lemma {:induction false} RunKeepsLedger(s: Sys, acts: seq<Action>, s': Sys, w: Wid)
    returns (p: seq<int>, timely: bool)
    requires Inv(s) && Many(s) && Run(s, acts) == Some(s') && w in s.observers && w in s'.observers
    ensures p == Positions(s, acts, w) && (timely <==> Timely(s, acts, w, |Owers(s, w)|))
    ensures w in s.workers && w in s'.workers && Ledger(s, p, timely, s', w)
  {
    RunKeepsInv(s, acts);
    p, timely := [], true;
    if acts == [] {
      LedgerStart(s, w);
    } else {
      var before, a := acts[..|acts| - 1], acts[|acts| - 1];
      var here := Run(s, before).value;
      ObservedOrOut(s, before, w);
      OutStays(here, a, s', w);
      p, timely := RunKeepsLedger(s, before, here, w);
      RunKeepsMany(s, before);
      LastReport(s, acts, here, w, |Owers(s, w)|);
      p, timely := LedgerStep(s, p, timely, here, a, s', w);
    }
  }

  lemma LastReport(s: Sys, acts: seq<Action>, here: Sys, w: Wid, n: nat)
    requires acts != [] && Run(s, acts).Some? && Run(s, acts[..|acts| - 1]) == Some(here)
    ensures var before, now := acts[..|acts| - 1], Reports(here, acts[|acts| - 1], w);
      && Positions(s, acts, w) == Positions(s, before, w) + (if now then [|here.changes| - 1] else [])
      && (Timely(s, acts, w, n) <==> Timely(s, before, w, n) && (now ==> |Owers(here, w)| == n + 1))
  {
  }

  lemma StatusIsLast(s: Sys, a: Action, w: Wid)
    requires Many(s) && Reports(s, a, w)
    ensures s.changes != [] && s.status == s.changes[|s.changes| - 1]
  {
    assert InPosting(s.pcs[a.t]);
  }

  lemma LedgerStep(s: Sys, p: seq<int>, timely: bool, here: Sys, a: Action, s': Sys, w: Wid)
    returns (p': seq<int>, timely': bool)
    requires Inv(here) && Inv(s') && Many(here) && Step(here, a) == Some(s') && w in here.observers
    requires w in s.workers && w in here.workers && Ledger(s, p, timely, here, w)
    ensures p' == p + if Reports(here, a, w) then [|here.changes| - 1] else []
    ensures timely' <==> timely && (Reports(here, a, w) ==> |Owers(here, w)| == |Owers(s, w)| + 1)
    ensures w in s'.workers && Ledger(s, p', timely', s', w)
  {
    OwersNext(here, a, s', w);
    StepOffered(here, a, s', w);
    p', timely' := p, timely;
    if Reports(here, a, w) {
      StatusIsLast(here, a, w);
      p' := p + [|here.changes| - 1];
      timely' := timely && |Owers(here, w)| == |Owers(s, w)| + 1;
      LedgerReport(s, p, timely, here, s', w);
    } else {
      LedgerQuiet(s, p, timely, here, s', w);
    }
  }

  // ----- Results, for any number of threads that set the status -----

  /** EXACTLY ONCE, IN ORDER, EXACTLY: between two moments at which `w` is
      registered it is offered just the changes made between them if and only if
      every report to it was made while one thread more owed it one than at the
      first moment, and just as many threads owe it one at the second. */
  lemma ExactlyOnce(threads: set<Tid>, start: seq<Action>, s: Sys, acts: seq<Action>, s': Sys, w: Wid)
    requires Run(Init(threads), start) == Some(s) && Run(s, acts) == Some(s') && w in s.observers && w in s'.observers
    ensures w in s.workers && w in s'.workers && s.changes <= s'.changes
    ensures Offered(s', w) == Offered(s, w) + s'.changes[|s.changes|..]
            <==> Timely(s, acts, w, |Owers(s, w)|) && |Owers(s', w)| == |Owers(s, w)|
  {
    ReachableMany(threads, start);
    var p, timely := RunKeepsLedger(s, acts, s', w);
    RunKeepsMany(s, acts);
    VariedChanges(s'.changes, s'.status);
    var tail := s'.changes[|s.changes|..];
    if |p| == |tail| {
      PicksAllExactly(s'.changes, |s.changes|, p);
      SameFront(Offered(s, w), Pick(s'.changes, p), tail);
    }
  }

  /** While it is timely, a worker is offered the changes in order, without a gap. */
  lemma PrefixWhileTimely(threads: set<Tid>, start: seq<Action>, s: Sys, acts: seq<Action>, s': Sys, w: Wid)
    requires Run(Init(threads), start) == Some(s) && Run(s, acts) == Some(s') && w in s.observers && w in s'.observers
    requires Timely(s, acts, w, |Owers(s, w)|)
    ensures w in s.workers && w in s'.workers && s.changes <= s'.changes
    ensures Offered(s, w) <= Offered(s', w) <= Offered(s, w) + s'.changes[|s.changes|..]
  {
    ReachableMany(threads, start);
    var p, timely := RunKeepsLedger(s, acts, s', w);
    PicksInStep(s'.changes, |s.changes|, p);
  }

  lemma PicksInStep(changes: seq<Status>, base: nat, p: seq<int>)
    requires base <= |changes| && Within(p, 0, |changes|) && InStep(p, base)
    ensures Pick(changes, p) <= changes[base..]
  {
    if p != [] {
      assert p[|p| - 1] == base + |p| - 1;
    }
  }

  lemma SameFront(a: seq<Status>, b: seq<Status>, c: seq<Status>)
    ensures a + b == a + c <==> b == c
  {
    assert (a + b)[|a|..] == b && (a + c)[|a|..] == c;
  }

  /** No assignment of the status is under way. */
  predicate Calm(s: Sys) { forall t :: t in s.pcs ==> !InPosting(s.pcs[t]) }

  lemma CalmOwesNothing(s: Sys, w: Wid)
    requires Calm(s) && w in s.workers
    ensures Owers(s, w) == {} && Offered(s, w) == Accepted(s.workers[w])
  {
    assert forall t :: t in s.pcs ==> !Owes(s, t, w);
  }

  /** Between two calm moments a worker accepts just the changes if and only if no
      report to it was made while a second thread still owed it one. */
  lemma CalmExactly(threads: set<Tid>, start: seq<Action>, s: Sys, acts: seq<Action>, s': Sys, w: Wid)
    requires Run(Init(threads), start) == Some(s) && Run(s, acts) == Some(s') && w in s.observers && w in s'.observers
    requires Calm(s) && Calm(s')
    ensures w in s.workers && w in s'.workers && s.changes <= s'.changes
    ensures Accepted(s'.workers[w]) == Accepted(s.workers[w]) + s'.changes[|s.changes|..] <==> Timely(s, acts, w, 0)
  {
    ExactlyOnce(threads, start, s, acts, s', w);
    CalmOwesNothing(s, w);
    CalmOwesNothing(s', w);
  }

  /** No status is assigned before the previous assignment has returned. */
  predicate OneAtATime(s: Sys, acts: seq<Action>)
    requires Run(s, acts).Some?
  {
    acts == [] ||
    var before, a := acts[..|acts| - 1], acts[|acts| - 1];
    var here := Run(s, before).value;
    OneAtATime(s, before) && (a.Thread? && a.c.SetStatus? && a.t in here.pcs && here.pcs[a.t].Idle? ==> Calm(here))
  }

  predicate Single(s: Sys) {
    forall t, u :: t in s.pcs && u in s.pcs && InPosting(s.pcs[t]) && InPosting(s.pcs[u]) ==> t == u
  }

  lemma SingleNext(s: Sys, a: Action, s': Sys)
    requires Inv(s) && Step(s, a) == Some(s') && Single(s)
    requires a.Thread? && a.c.SetStatus? && a.t in s.pcs && s.pcs[a.t].Idle? ==> Calm(s)
    ensures Single(s')
  {
    if a.Thread? {
      OthersOwe(s, a.t, a.c, s', 0);
      assert ThreadOk(s, a.t);
      OwnPosting(s, a.t, a.c, s');
    }
  }

  lemma OwnPosting(s: Sys, t: Tid, c: Choice, s': Sys)
    requires t in s.pcs && ThreadStep(s, t, c) == Some(s') && t in s'.pcs
    ensures InPosting(s'.pcs[t]) ==> InPosting(s.pcs[t]) || (s.pcs[t].Idle? && c.SetStatus?)
  {
  }

  lemma {:induction false} OneAtATimeIsTimely(s: Sys, acts: seq<Action>, w: Wid)
    requires Inv(s) && Calm(s) && Run(s, acts).Some? && OneAtATime(s, acts)
    ensures Single(Run(s, acts).value) && Timely(s, acts, w, 0)
  {
    if acts != [] {
      var before, a := acts[..|acts| - 1], acts[|acts| - 1];
      var here := Run(s, before).value;
      OneAtATimeIsTimely(s, before, w);
      RunKeepsInv(s, before);
      SingleNext(here, a, Run(s, acts).value);
      if Reports(here, a, w) {
        OneOwer(here, a.t, w);
      }
    }
  }

  lemma OneOwer(s: Sys, t: Tid, w: Wid)
    requires Single(s) && t in s.pcs && s.pcs[t].Notifying? && w in s.pcs[t].todo
    ensures |Owers(s, w)| == 1
  {
    forall u | u in Owers(s, w)
      ensures u == t
    {
      assert InPosting(s.pcs[u]) && InPosting(s.pcs[t]);
    }
    assert t in Owers(s, w);
    assert Owers(s, w) == {t};
  }

  /** What a caller has to do: setters that take turns deliver exactly. */
  lemma TakingTurns(threads: set<Tid>, start: seq<Action>, s: Sys, acts: seq<Action>, s': Sys, w: Wid)
    requires Run(Init(threads), start) == Some(s) && Run(s, acts) == Some(s') && w in s.observers && w in s'.observers
    requires Calm(s) && Calm(s') && OneAtATime(s, acts)
    ensures w in s.workers && w in s'.workers && s.changes <= s'.changes
    ensures Accepted(s'.workers[w]) == Accepted(s.workers[w]) + s'.changes[|s.changes|..]
  {
    ReachableMany(threads, start);
    OneAtATimeIsTimely(s, acts, w);
    CalmExactly(threads, start, s, acts, s', w);
  }

  // ----- From registration to the end -----

  /** The step that registers a worker, which has accepted nothing yet. */
  lemma Registration(threads: set<Tid>, start: seq<Action>, s: Sys, c: Choice, s': Sys, w: Wid)
    requires Run(Init(threads), start) == Some(s) && OWNER in s.pcs && s.pcs[OWNER] == Adding(w)
    requires Step(s, Thread(OWNER, c)) == Some(s')
    ensures w in s'.observers && w in s'.workers && Offered(s', w) == [] && s'.changes == s.changes
    ensures s'.workers[w].since == |s.changes| && s'.pcs == s.pcs[OWNER := AddRelease]
  {
    ReachableMany(threads, start);
    assert ThreadOk(s, OWNER);
    assert Known(s, w);
  }

  /** Nothing more is accepted once the removal holds the centre's lock. */
  predicate Frozen(s: Sys, w: Wid) {
    Out(s, w) || (w in s.workers && OWNER in s.pcs && s.pcs[OWNER].Removing? && s.pcs[OWNER].w == w)
  }

  lemma FrozenStep(s: Sys, a: Action, s': Sys, w: Wid)
    requires Inv(s) && Inv(s') && Step(s, a) == Some(s') && Frozen(s, w)
    ensures Frozen(s', w) && Accepted(s'.workers[w]) == Accepted(s.workers[w])
  {
    assert ThreadOk(s, OWNER);
    match a
    case Consumer(v) => AcceptedKept(s.workers[v]);
    case Thread(t, c) =>
      assert ThreadOk(s, t);
      OutStays(s, a, s', w);
      OthersOwe(s, t, c, s', w);
      if OwnerOnly(s.pcs[t]) {
        OwnerWorkerKept(s, s', w);
        OwnerFrozen(s, s', w);
      } else {
        NotAppended(s, t, c, s', w);
      }
  }

  lemma OwnerFrozen(s: Sys, s': Sys, w: Wid)
    requires OWNER in s.pcs && ThreadOk(s, OWNER) && OwnerStep(s, OWNER) == Some(s') && Frozen(s, w)
    ensures Frozen(s', w)
  {
  }

  lemma NotAppended(s: Sys, t: Tid, c: Choice, s': Sys, w: Wid)
    requires t in s.pcs && ThreadOk(s, t) && OWNER in s.pcs && ThreadOk(s, OWNER) && PostStep(s, t, c) == Some(s')
    requires Frozen(s, w)
    ensures w in s'.workers && Accepted(s'.workers[w]) == Accepted(s.workers[w])
  {
  }

  lemma {:induction false} FrozenRun(s: Sys, acts: seq<Action>, w: Wid)
    requires Inv(s) && Run(s, acts).Some? && Frozen(s, w)
    ensures var s' := Run(s, acts).value; Frozen(s', w) && Accepted(s'.workers[w]) == Accepted(s.workers[w])
  {
    RunKeepsInv(s, acts);
    if acts != [] {
      var before := acts[..|acts| - 1];
      FrozenRun(s, before, w);
      RunKeepsInv(s, before);
      FrozenStep(Run(s, before).value, acts[|acts| - 1], Run(s, acts).value, w);
    }
  }

  /** From the removal on, nothing is added to what a worker attempts. */
  lemma AttemptsAtEnd(s: Sys, rest: seq<Action>, end: Sys, w: Wid)
    requires Inv(s) && w in s.observers && s.pcs[OWNER].Removing? && s.pcs[OWNER].w == w
    requires Run(s, rest) == Some(end) && w in end.workers && end.workers[w].pc.Ended?
    ensures w in s.workers && end.workers[w].attempts == Accepted(s.workers[w]) == Offered(s, w)
  {
    FrozenRun(s, rest, w);
    RunKeepsInv(s, rest);
    assert ThreadOk(s, OWNER) && WorkerOk(end, w);
    assert Accepted(end.workers[w]) == end.workers[w].attempts;
  }

  /** END TO END: a worker that has ended has attempted just the changes from its
      registration, which led to `s`, to its removal in `s'` if and only if that
      interval was timely and closed with as many open reports as it began with. */
  lemma LifeExactly(
    threads: set<Tid>, start: seq<Action>, s: Sys, acts: seq<Action>, s': Sys, rest: seq<Action>, end: Sys, w: Wid)
    requires Run(Init(threads), start) == Some(s) && w in s.observers && w in s.workers && Offered(s, w) == []
    requires Run(s, acts) == Some(s') && w in s'.observers
    requires OWNER in s'.pcs && s'.pcs[OWNER].Removing? && s'.pcs[OWNER].w == w
    requires Run(s', rest) == Some(end) && w in end.workers && end.workers[w].pc.Ended?
    ensures s.changes <= s'.changes
    ensures end.workers[w].attempts == s'.changes[|s.changes|..]
            <==> Timely(s, acts, w, |Owers(s, w)|) && |Owers(s', w)| == |Owers(s, w)|
  {
    ExactlyOnce(threads, start, s, acts, s', w);
    ReachableMany(threads, start);
    RunKeepsInv(s, acts);
    AttemptsAtEnd(s', rest, end, w);
    assert [] + s'.changes[|s.changes|..] == s'.changes[|s.changes|..];
  }

  /** ... which holds if it was registered and removed with no assignment under
      way and the setters took turns in between. */
  lemma LifeInTurns(
    threads: set<Tid>, start: seq<Action>, s: Sys, acts: seq<Action>, s': Sys, rest: seq<Action>, end: Sys, w: Wid)
    requires Run(Init(threads), start) == Some(s) && w in s.observers && w in s.workers && Offered(s, w) == []
    requires Run(s, acts) == Some(s') && w in s'.observers && Calm(s) && Calm(s') && OneAtATime(s, acts)
    requires OWNER in s'.pcs && s'.pcs[OWNER].Removing? && s'.pcs[OWNER].w == w
    requires Run(s', rest) == Some(end) && w in end.workers && end.workers[w].pc.Ended?
    ensures s.changes <= s'.changes && end.workers[w].attempts == s'.changes[|s.changes|..]
  {
    TakingTurns(threads, start, s, acts, s', w);
    ReachableMany(threads, start);
    RunKeepsInv(s, acts);
    AttemptsAtEnd(s', rest, end, w);
    CalmOwesNothing(s, w);
    assert [] + s'.changes[|s.changes|..] == s'.changes[|s.changes|..];
  }
}
