/** struct rt_event and the locked sections of rt_event_send, rt_event_recv and rt_event_control. */
module EventObject {
  import opened Ring
  import opened IpcList
  import opened Bits
  import opened Event

  class EventObject {
    const fifo: bool                // parent.parent.flag
    var bits: Word                  // set
    var waiters: seq<Tid>           // parent.suspend_thread
    var want: map<Tid, Want>        // event_set and event_info of the threads
    var status: map<Tid, Status>
    const prio: map<Tid, nat>
    ghost var s: State

    ghost function Key(): map<Tid, nat> {
      if fifo then map t | t in prio :: 0 else prio
    }

    ghost predicate Matches()
      reads this
    {
      && s.bits == bits && s.waiters == waiters && s.want == want && s.status == status && s.key == Key()
    }

    ghost predicate Valid()
      reads this
    {
      Inv(s) && Matches()
    }

    /** rt_event_init */
    constructor (prio: map<Tid, nat>, fifo: bool)
      ensures Valid() && bits == NONE && waiters == [] && this.fifo == fifo && this.prio == prio
    {
      this.fifo, this.prio := fifo, prio;
      bits, waiters, want := NONE, [], map[];
      status := map t | t in prio :: Ready(None);
      ghost var key := if fifo then map t | t in prio :: 0 else prio;
      s := Initial(key);
      new;
      InitialInv(key);
      assert s.status == map t | t in key :: Ready(None);
    }

    /** _ipc_list_suspend: the place where a thread of priority prio[t] joins the list. */
    method Place(t: Tid) returns (i: nat)
      requires Valid() && t in prio
      ensures t in s.key && IsPosition(waiters, s.key, s.key[t], i)
    {
      Keyed(s);
      if fifo {
        i := |waiters|;
      } else {
        i := FindPosition(waiters, prio, prio[t]);
      }
    }

    /** The test that rt_event_send makes for one waiter. */
    method Examine(w: Want) returns (satisfied: bool, got: Word)
      requires Legal(w)
      ensures satisfied == Met(w, bits) && (satisfied ==> got == Both(w.bits, bits))
    {
      satisfied, got := false, w.bits;
      if w.info & FLAG_AND != 0 {
        if Both(w.bits, bits) == w.bits {
          satisfied := true;
        }
      } else if w.info & FLAG_OR != 0 {
        if Both(w.bits, bits) != NONE {
          got := Both(w.bits, bits);
          satisfied := true;
        }
      } else {
        assert false;
      }
    }

    /** The waiter at place `n` has got its bits: consume them if it asked for that, and resume it. */
    method Wake(n: nat, got: Word)
      requires Matches() && n < |waiters| && waiters[n] in want && got == Both(want[waiters[n]].bits, bits)
      modifies this`bits, this`waiters, this`want, this`status, this`s
      ensures Matches() && s == Woken(old(s), n)
    {
      hide Both, Without, Within, Disjoint, Removed, IsClear, Met;
      ClearIs();
      var t := waiters[n];
      var w := want[t];
      s := Woken(s, n);
      want := want[t := Want(got, w.info)];
      if w.info & FLAG_CLEAR != 0 {
        bits := Without(bits, got);
      }
      waiters := Removed(waiters, n);
      status := status[t := Ready(Received(got))];
    }

    /** The walk over the suspend list; `n` is the place of the node to look at. */
    method WakeAll()
      requires InvBase(s) && Matches() && WantsKnown(s)
      modifies this`bits, this`waiters, this`want, this`status, this`s
      ensures Matches() && s == Walk(old(s), 0) && Inv(s)
    {
      hide InvBase, Both, Without, Within, Disjoint, Removed, IsClear, Met;
      ClearIs();
      var n := 0;
      while n < |waiters|
        invariant n <= |waiters| && InvBase(s) && NoneMet(s, n) && WantsKnown(s) && Matches()
        invariant Walk(s, n) == Walk(old(s), 0)
        decreases |waiters| - n
      {
        var t := waiters[n];
        var w := want[t];
        LegalWaiter(s, n);
        var satisfied, got := Examine(w);
        if satisfied {
          WokenInv(s, n);
          KnownFromInv(Woken(s, n));
          RemovedLength(waiters, n);
          Wake(n, got);
        } else {
          n := n + 1;
        }
      }
    }

    /** rt_event_send */
    method Send(b: Word) returns (r: Result)
      requires Valid()
      modifies this`bits, this`waiters, this`want, this`status, this`s
      ensures Valid() && WantsKnown(old(s)) && s == Event.Send(old(s), b)
      ensures r == (if b == NONE then Error else None)
    {
      hide InvBase, Walk;
      KnownFromInv(s);
      if b == NONE {
        return Error;
      }
      SignalledInv(s, b);
      s := Signalled(s, b);
      bits := Either(bits, b);
      if waiters != [] {
        WakeAll();
      } else {
        WalkAgain(s, 0);
      }
      return None;
    }

    /** rt_event_recv up to the point where the thread returns or gives up the processor. */
    method Recv(t: Tid, w: Want, time: int) returns (ghost i: nat)
      requires Valid() && t in prio && t in status && status[t].Ready? && (w.bits == NONE || Legal(w))
      modifies this`bits, this`waiters, this`want, this`status, this`s
      ensures Valid() && Can(old(s), Receive(t, w, time, i)) && s == Does(old(s), Receive(t, w, time, i))
    {
      hide Inv, IsPosition, Both, Without, Within, Disjoint, Inserted, IsClear, Legal;
      var k := Place(t);
      i := k;
      PositionFits(waiters, s.key, s.key[t], k);
      RecvInv(s, t, w, time, k);
      s := Event.Recv(s, t, w, time, k);
      if w.bits == NONE {
        status := status[t := Ready(Error)];
        return;
      }
      MetIs(w, bits);
      var ready := if w.info & FLAG_AND != 0 then Both(w.bits, bits) == w.bits else Both(w.bits, bits) != NONE;
      assert ready == Met(w, bits);
      if ready {
        var got := Both(w.bits, bits);
        want := want[t := Want(got, w.info)];
        status := status[t := Ready(Received(got))];
        if w.info & FLAG_CLEAR != 0 {
          bits := Without(bits, w.bits);
        }
      } else if time == 0 {
        status := status[t := Ready(TimedOut)];
      } else {
        want := want[t := w];
        waiters := Inserted(waiters, k, t);
        status := status[t := Blocked];
      }
    }

    /** rt_thread_timeout of the waiter at place `i`. */
    method Timeout(i: nat)
      requires Valid() && i < |waiters|
      modifies this`waiters, this`status, this`s
      ensures Valid() && s == Expired(old(s), i)
    {
      hide Inv;
      ExpiredInv(s, i);
      s := Expired(s, i);
      status := status[waiters[i] := Ready(TimedOut)];
      waiters := Removed(waiters, i);
    }

    /** rt_event_control with RT_IPC_CMD_RESET */
    method Control()
      requires Valid()
      modifies this`bits, this`waiters, this`status, this`s
      ensures Valid() && s == Reset(old(s))
    {
      ResumeAll();
      bits := NONE;
      ResetInv(s);
      s := Reset(s);
      hide Inv;
    }

    /** _ipc_list_resume_all */
    method ResumeAll()
      requires Valid()
      modifies this`waiters, this`status
      ensures waiters == []
      ensures status == map t | t in old(status) :: if old(status)[t].Blocked? then Ready(Error) else old(status)[t]
    {
      BlockedAreWaiters(s);
      hide Inv, Distinct;
      while waiters != []
        invariant forall t :: t in status <==> t in old(status)
        invariant forall t :: t in status ==> status[t] == if old(status)[t].Blocked? && t !in waiters then Ready(Error) else old(status)[t]
        invariant Distinct(waiters) && forall t :: t in waiters ==> t in old(waiters)
        decreases |waiters|
      {
        RemoveMembers(waiters, 0);
        assert Removed(waiters, 0) == waiters[1..];
        status := status[waiters[0] := Ready(Error)];
        waiters := waiters[1..];
      }
    }
  }

  lemma Keyed(s: State)
    requires Inv(s)
    ensures forall j :: 0 <= j < |s.waiters| ==> s.waiters[j] in s.key
  {}

  lemma LegalWaiter(s: State, n: nat)
    requires InvBase(s) && n < |s.waiters|
    ensures s.waiters[n] in s.want && Legal(s.want[s.waiters[n]])
  {
    assert s.waiters[n] in s.waiters;
  }

  lemma MetIs(w: Want, e: Word)
    ensures Met(w, e) <==> if w.info & FLAG_AND != 0 then Both(w.bits, e) == w.bits else Both(w.bits, e) != NONE
    ensures IsClear(w) <==> w.info & FLAG_CLEAR != 0
  {}

  lemma ClearIs()
    ensures forall w: Want :: IsClear(w) <==> w.info & FLAG_CLEAR != 0
  {}

  lemma RemovedLength(ws: seq<Tid>, n: nat)
    requires n < |ws|
    ensures |Removed(ws, n)| == |ws| - 1
  {}

  lemma BlockedAreWaiters(s: State)
    requires Inv(s)
    ensures forall t :: t in s.waiters <==> t in s.status && s.status[t].Blocked?
    ensures Distinct(s.waiters)
  {}
}
