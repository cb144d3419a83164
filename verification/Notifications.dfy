/** The notification centre and the status setter that posts through it. */
module Notifications {
  import opened Basics

  /** An (observer, method, sender) entry; without a sender it hears everyone. */
  datatype Observer = Observer(id: nat, callee: string, sender: Option<nat>)

  /** How the observer's method returns: only AttributeError is caught. */
  datatype Reply = Done | AttributeError | OtherError

  class NotificationCenter {
    /** A dictionary with the empty set as default. */
    var observers: map<string, set<Observer>>
    /** How often the re-entrant lock is held by the calling thread. */
    var depth: nat

    function At(message: string): set<Observer>
      reads this
    {
      if message in observers then observers[message] else {}
    }

    /** Who hears a notification. */
    function Receivers(message: string, sender: nat): set<Observer>
      reads this
    {
      set o | o in At("all") + At(message) && (o.sender == None || o.sender == Some(sender))
    }

    constructor ()
      ensures observers == map[] && depth == 0
    {
      observers, depth := map[], 0;
    }

    method AddObserver(o: Observer, message: string)
      modifies this
      ensures depth == old(depth)
      ensures At(message) == old(At(message)) + {o}
      ensures forall m :: m != message ==> At(m) == old(At(m))
    {
      observers := observers[message := At(message) + {o}];
    }

    method RemoveObserver(o: Observer, message: string)
      modifies this
      ensures depth == old(depth)
      ensures At(message) == old(At(message)) - {o}
      ensures message in observers ==> observers[message] != {}
      ensures forall m :: m != message ==> At(m) == old(At(m))
    {
      observers := observers[message := At(message) - {o}];
      if observers[message] == {} {
        observers := observers - {message};
      }
    }

    /** post_notification: the snapshot of receivers is notified in some order;
        an exception other than AttributeError leaves the lock held. */
    method PostNotification(message: string, sender: nat, reply: Observer -> Reply)
      returns (notified: set<Observer>, raised: bool)
      modifies this
      ensures raised <==> exists o :: o in old(Receivers(message, sender)) && reply(o) == OtherError
      ensures notified <= old(Receivers(message, sender))
      ensures !raised ==> notified == old(Receivers(message, sender))
      ensures depth == old(depth) + if raised then 1 else 0
      ensures forall m :: At(m) == old(At(m))
    {
      depth := depth + 1;
      // Indexing the default dictionary creates the missing entries.
      observers := observers["all" := At("all")];
      observers := observers[message := At(message)];
      var todo := observers["all"] + observers[message];
      ghost var hear := old(Receivers(message, sender));
      notified := {};
      while todo != {}
        invariant depth == old(depth) + 1
        invariant forall m :: At(m) == old(At(m))
        invariant notified + (todo * hear) == hear && notified !! todo
        invariant todo <= old(At("all") + At(message))
        invariant forall o :: o in notified ==> reply(o) != OtherError
        decreases todo
      {
        var o :| o in todo;
        todo := todo - {o};
        if o.sender == None || o.sender == Some(sender) {
          if reply(o) == OtherError {
            return notified, true;
          }
          notified := notified + {o};
        }
      }
      depth := depth - 1;
      raised := false;
    }
  }

  // ----- Status setter -----

  const STATUS_STRINGS: set<string> :=
    {"NEW", "PENDING", "BUILDING", "COMPLETE", "FAILED", "DELETING", "DELETED", "DELETEFAILED"}

  datatype SetOutcome = Unchanged | Posted(before: string, after: string) | KeyError

  datatype Change = Change(before: string, after: string)

  /** The status announced last. */
  function Announced(posted: seq<Change>): string { if posted == [] then "NEW" else posted[|posted| - 1].after }

  /** Each post starts from the status that the previous one announced, and
      never announces the status it starts from. */
  predicate Chained(posted: seq<Change>) {
    forall i :: 0 <= i < |posted| ==> posted[i].before == Announced(posted[..i]) != posted[i].after
  }

  lemma ChainNext(posted: seq<Change>, value: string)
    requires Chained(posted) && value != Announced(posted)
    ensures Chained(posted + [Change(Announced(posted), value)])
  {
    var next := posted + [Change(Announced(posted), value)];
    forall i | 0 <= i < |next|
      ensures next[i].before == Announced(next[..i]) != next[i].after
    {
      assert next[..i] == posted[..i];
      assert posted[..|posted|] == posted;
    }
  }

  class PersistentImage {
    var status: string
    /** The old and new status of every post so far. */
    var posted: seq<Change>

    predicate Valid()
      reads this
    {
      status in STATUS_STRINGS && status == Announced(posted) && Chained(posted)
    }

    constructor ()
      ensures Valid() && status == "NEW" && posted == []
    {
      status, posted := "NEW", [];
    }

    method SetStatus(given: string) returns (outcome: SetOutcome)
      requires Valid()
      modifies this
      ensures Valid()
      ensures outcome == if Upper(given) == old(status) then Unchanged
                         else if Upper(given) in STATUS_STRINGS then Posted(old(status), Upper(given)) else KeyError
      ensures if outcome.Posted? then status == Upper(given) && posted == old(posted) + [Change(old(status), status)]
              else status == old(status) && posted == old(posted)
    {
      var value := Upper(given);
      if value == status {
        return Unchanged;
      }
      if value in STATUS_STRINGS {
        ChainNext(posted, value);
        var before := status;
        status := value;
        posted := posted + [Change(before, value)];
        outcome := Posted(before, value);
      } else {
        outcome := KeyError;
      }
    }
  }
}
