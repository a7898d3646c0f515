/** struct rt_mutex and the locked sections of rt_mutex_take and rt_mutex_release. */
module MutexObject {
  import opened Ring
  import opened IpcList
  import opened Mutex

  class MutexObject {
    var value: nat
    var owner: Owner
    var original: nat               // original_priority
    var hold: nat
    var waiters: seq<Tid>           // parent.suspend_thread
    var prio: map<Tid, nat>         // current_priority of the threads
    var status: map<Tid, Status>
    ghost var s: State

    ghost predicate Matches()
      reads this
    {
      && s.m == Mutex(value, owner, original, hold, waiters) && s.prio == prio && s.status == status
    }

    ghost predicate Valid()
      reads this
    {
      Inv(s) && Matches()
    }

    /** rt_mutex_init */
    constructor (prio: map<Tid, nat>)
      ensures Valid() && owner == Nobody && s.base == prio
    {
      value, owner, original, hold, waiters := 1, Nobody, NO_PRIORITY, 0, [];
      this.prio := prio;
      status := map t | t in prio :: Free(None);
      s := Initial(prio);
      new;
      InitialInv(prio);
    }

    /** rt_mutex_take up to the point where the thread returns or gives up the processor. */
    method Take(t: Tid, time: int) returns (ghost i: nat)
      requires Valid() && t in status && status[t].Free? && t in prio
      modifies this
      ensures Valid() && Can(old(s), Action.Take(t, time, i)) && Does(old(s), Action.Take(t, time, i), s)
    {
      hide Inv, IsPosition;
      OwnerKnown(s);
      WaitersKnown(s);
      var k := FindPosition(waiters, prio, prio[t]);
      i := k;
      PositionFits(waiters, prio, prio[t], k);
      TakenInv(s, t, time, k);
      s := Taken(s, t, time, k);
      if owner == By(t) {
        if hold < HOLD_MAX {
          hold := hold + 1;
          status := status[t := Free(Ok)];
        } else {
          status := status[t := Free(Full)];
        }
      } else if value > 0 {
        value := value - 1;
        owner := By(t);
        if hold < HOLD_MAX {
          original := prio[t];
          hold := hold + 1;
          status := status[t := Free(Ok)];
        } else {
          AcquireNeverFull(old(s));
          assert false;
        }
      } else if time == 0 {
        status := status[t := Free(TimedOut)];
      } else {
        if prio[t] < prio[owner.t] {
          prio := prio[owner.t := prio[t]];
        }
        waiters := Inserted(waiters, k, t);
        status := status[t := Blocked(time)];
      }
    }

    /** rt_mutex_release */
    method Release(t: Tid)
      requires Valid() && t in status && status[t].Free? && t in prio
      modifies this
      ensures Valid() && Can(old(s), Action.Release(t)) && Does(old(s), Action.Release(t), s)
    {
      hide Inv, Released;
      OwnerKnown(s);
      ReleasedInv(s, t);
      if owner == By(t) { WaitersOther(s, t); }
      ReleasedFields(s, t);
      if owner != By(t) {
        status := status[t := Free(Error)];
        s := Released(s, t);
      } else if hold > 1 {
        hold := hold - 1;
        status := status[t := Free(Ok)];
        s := Released(s, t);
      } else {
        GiveUp(t);
      }
    }

    /** Lines 1118-1177: the final release by the owner. */
    method GiveUp(t: Tid)
      requires Valid() && t in status && status[t].Free? && t in prio && owner == By(t) && hold == 1
      requires waiters != [] ==> waiters[0] in prio && waiters[0] != t
      modifies this
      ensures Valid() && old(t in s.prio && s.m.hold > 0) && s == Released(old(s), t)
    {
      hide Inv, Released;
      ReleasedInv(s, t);
      ReleaseNeverFull(s, t);
      ReleasedFields(s, t);
      hold := 0;
      status := status[t := Free(Ok)];
      if original != prio[t] {
        prio := prio[t := original];
      }
      if waiters != [] {
        var w := waiters[0];
        owner, original := By(w), prio[w];
        if hold < HOLD_MAX {
          hold := hold + 1;
        }
        waiters := waiters[1..];
        status := status[w := Free(Ok)];
      } else {
        if value < VALUE_MAX {
          value := value + 1;
        }
        owner, original := Nobody, NO_PRIORITY;
      }
      s := Released(s, t);
    }

    /** rt_thread_timeout of the waiter at place `i`. */
    method Timeout(i: nat)
      requires Valid() && i < |waiters|
      modifies this
      ensures Valid() && Can(old(s), Expire(i)) && Does(old(s), Expire(i), s)
    {
      hide Inv;
      ExpiredInv(s, i);
      s := Expired(s, i);
      status := status[waiters[i] := Free(TimedOut)];
      waiters := Removed(waiters, i);
    }
  }

  lemma WaitersKnown(s: State)
    requires Inv(s)
    ensures forall j :: 0 <= j < |s.m.waiters| ==> s.m.waiters[j] in s.prio
  {}

  /** What a release by the owner makes of the mutex. */
  lemma ReleasedFields(s: State, t: Tid)
    requires Inv(s) && t in s.prio && t in s.status && (s.m.owner == By(t) ==> s.m.hold > 0)
    requires s.m.waiters != [] ==> s.m.waiters[0] in s.prio && (s.m.owner == By(t) ==> s.m.waiters[0] != t)
    ensures var r := Released(s, t);
      if s.m.owner != By(t) then r.m == s.m && r.prio == s.prio && r.status == s.status[t := Free(Error)]
      else if s.m.hold > 1 then r.m == s.m.(hold := s.m.hold - 1) && r.prio == s.prio && r.status == s.status[t := Free(Ok)]
      else
        r.prio == s.prio[t := s.m.original] &&
        if s.m.waiters != [] then
          var w := s.m.waiters[0];
          r.m == Mutex(s.m.value, By(w), s.prio[w], 1, s.m.waiters[1..]) && r.status == s.status[t := Free(Ok)][w := Free(Ok)]
        else r.m == Mutex(s.m.value + 1, Nobody, NO_PRIORITY, 0, []) && r.status == s.status[t := Free(Ok)]
  {
    hide Inv;
  }

  lemma WaitersOther(s: State, t: Tid)
    requires Inv(s) && s.m.owner == By(t)
    ensures s.m.waiters != [] ==> s.m.waiters[0] != t
  {}
}
