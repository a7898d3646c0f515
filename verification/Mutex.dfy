/**
 rt_mutex: ownership, recursive holds, priority inheritance and the suspend list, for any number
 of threads.  A step is a stretch of code that runs with interrupts disabled.
 */
module Mutex {
  import opened Ring
  import opened IpcList

  /** RT_MUTEX_HOLD_MAX, RT_MUTEX_VALUE_MAX and the priority stored while there is no owner. */
  const HOLD_MAX: nat := 0xff
  const VALUE_MAX: nat := 0xffff
  const NO_PRIORITY: nat := 0xff

  datatype Owner = Nobody | By(t: Tid)

  datatype Mutex = Mutex(value: nat, owner: Owner, original: nat, hold: nat, waiters: seq<Tid>)

  datatype Result = None | Ok | Full | TimedOut | Error

  datatype Status = Free(result: Result) | Blocked(time: int)

  /** The mutex, the threads, and what the proof remembers of the past. */
  datatype State = State(
    m: Mutex,
    prio: map<Tid, nat>,            // current_priority
    status: map<Tid, Status>,
    base: map<Tid, nat>,            // the priority of a thread that owns nothing
    arrival: map<Tid, nat>,         // when a thread last joined the suspend list
    clock: nat,
    blockers: set<Tid>)             // threads that have waited for the present owner

  // ---- steps -----------------------------------------------------------------------------

  function Finished(s: State, t: Tid, r: Result): State {
    s.(status := s.status[t := Free(r)])
  }

  /** Lines 944-961: the mutex is free. */
  function Acquired(s: State, t: Tid): State
    requires s.m.value > 0 && t in s.prio
  {
    s.(m := Mutex(s.m.value - 1, By(t), s.prio[t], s.m.hold + 1, s.m.waiters),
       status := s.status[t := Free(Ok)], blockers := {})
  }

  /** Lines 923-935: the owner takes it once more. */
  function Reentered(s: State, t: Tid): State {
    s.(m := s.m.(hold := s.m.hold + 1), status := s.status[t := Free(Ok)])
  }

  /** Lines 982-1007: the owner inherits the waiter's priority if that is more urgent. */
  function Suspended(s: State, t: Tid, time: int, i: nat): State
    requires s.m.owner.By? && s.m.owner.t in s.prio && t in s.prio && i <= |s.m.waiters|
  {
    var o := s.m.owner.t;
    s.(m := s.m.(waiters := Inserted(s.m.waiters, i, t)),
       prio := if s.prio[t] < s.prio[o] then s.prio[o := s.prio[t]] else s.prio,
       status := s.status[t := Blocked(time)],
       arrival := s.arrival[t := s.clock], clock := s.clock + 1, blockers := s.blockers + {t})
  }

  /** Lines 1118-1128: the final release first gives the owner its recorded priority back. */
  function Restored(s: State, o: Tid): State
    requires s.m.hold > 0 && o in s.prio
  {
    s.(m := s.m.(hold := s.m.hold - 1), prio := s.prio[o := s.m.original])
  }

  /** Lines 1131-1159: the first waiter becomes the owner. */
  function HandedOver(s: State): State
    requires s.m.waiters != [] && s.m.waiters[0] in s.prio
  {
    var w := s.m.waiters[0];
    s.(m := s.m.(owner := By(w), original := s.prio[w], hold := s.m.hold + 1, waiters := s.m.waiters[1..]),
       status := s.status[w := Free(Ok)], blockers := set x | x in s.m.waiters[1..])
  }

  /** Lines 1160-1176: nobody waits. */
  function Opened(s: State): State {
    s.(m := s.m.(value := s.m.value + 1, owner := Nobody, original := NO_PRIORITY), blockers := {})
  }

  /** rt_mutex_take by `t`; `i` is its place in the suspend list. */
  function Taken(s: State, t: Tid, time: int, i: nat): State
    requires t in s.prio && i <= |s.m.waiters|
    requires s.m.value == 0 ==> s.m.owner.By? && s.m.owner.t in s.prio
  {
    if s.m.owner == By(t) then
      if s.m.hold < HOLD_MAX then Reentered(s, t) else Finished(s, t, Full)
    else if s.m.value > 0 then
      if s.m.hold < HOLD_MAX then Acquired(s, t) else Finished(s, t, Full)
    else if time == 0 then Finished(s, t, TimedOut)
    else Suspended(s, t, time, i)
  }

  /** rt_mutex_release by `t`. */
  function Released(s: State, t: Tid): State
    requires t in s.prio && (s.m.owner == By(t) ==> s.m.hold > 0)
    requires s.m.waiters != [] ==> s.m.waiters[0] in s.prio
  {
    if s.m.owner != By(t) then Finished(s, t, Error)
    else if s.m.hold > 1 then Finished(s.(m := s.m.(hold := s.m.hold - 1)), t, Ok)
    else
      var r := Finished(Restored(s, t), t, Ok);
      if s.m.waiters != [] then HandedOver(r) else Opened(r)
  }

  /** The timer of the waiter at place `i` expires. */
  function Expired(s: State, i: nat): State
    requires i < |s.m.waiters|
  {
    s.(m := s.m.(waiters := Removed(s.m.waiters, i)), status := s.status[s.m.waiters[i] := Free(TimedOut)])
  }

  // ---- invariant ---------------------------------------------------------------------------

  /** value is 1 iff there is no owner iff hold is 0; nobody waits for a free mutex. */
  ghost predicate Consistent(m: Mutex) {
    && m.value <= 1 && m.hold <= HOLD_MAX
    && (m.value == 1 <==> m.owner == Nobody)
    && (m.value == 1 <==> m.hold == 0)
    && (m.value == 1 ==> m.waiters == [])
  }

  /** Only the owner's priority differs from its base, and it is the most urgent of those that waited for it. */
  ghost predicate Inherited(s: State) {
    && (forall t :: t in s.prio <==> t in s.base)
    && (forall t :: t in s.prio && s.m.owner != By(t) ==> s.prio[t] == s.base[t])
    && (s.m.owner.By? ==>
      var o := s.m.owner.t;
      && o in s.prio && s.m.original == s.base[o] && s.prio[o] <= s.base[o]
      && (forall u :: u in s.blockers ==> u in s.base && s.prio[o] <= s.base[u])
      && (s.prio[o] == s.base[o] || exists u :: u in s.blockers && u in s.base && s.base[u] == s.prio[o]))
  }

  ghost predicate Inv(s: State) {
    && Consistent(s.m)
    && Queued(s.m.waiters, s.prio, s.arrival, s.clock)
    && Inherited(s)
    && (forall t :: t in s.status <==> t in s.prio)
    && (forall t :: t in s.m.waiters <==> t in s.status && s.status[t].Blocked?)
    && (forall t :: t in s.m.waiters ==> t in s.blockers && s.m.owner != By(t))
  }

  /** The owner is at least as urgent as every waiter. */
  lemma NoPriorityInversion(s: State)
    requires Inv(s)
    ensures forall w :: w in s.m.waiters ==> s.m.owner.By? && s.m.owner.t in s.prio && w in s.prio && s.prio[s.m.owner.t] <= s.prio[w]
  {
    forall w | w in s.m.waiters
      ensures s.m.owner.By? && w in s.prio && s.prio[s.m.owner.t] <= s.prio[w]
    {
      var j :| 0 <= j < |s.m.waiters| && s.m.waiters[j] == w;
    }
  }

  /** rt_mutex_init */
  function Initial(prio: map<Tid, nat>): State {
    State(Mutex(1, Nobody, NO_PRIORITY, 0, []), prio, map t | t in prio :: Free(None), prio, map[], 0, {})
  }

  lemma InitialInv(prio: map<Tid, nat>)
    ensures Inv(Initial(prio))
  {}

  lemma FinishedInv(s: State, t: Tid, r: Result)
    requires Inv(s) && t in s.status && s.status[t].Free?
    ensures Inv(Finished(s, t, r))
  {
    hide Queued;
  }

  lemma ReenteredInv(s: State, t: Tid)
    requires Inv(s) && t in s.status && s.status[t].Free? && s.m.owner == By(t) && s.m.hold < HOLD_MAX
    ensures Inv(Reentered(s, t))
  {
    hide Queued;
  }

  lemma AcquiredInv(s: State, t: Tid)
    requires Inv(s) && t in s.status && s.status[t].Free? && t in s.prio && s.m.value > 0
    ensures Inv(Acquired(s, t))
  {
    hide Queued;
  }

  /** The overflow branch at ipc.c:956-960 cannot be taken. */
  lemma AcquireNeverFull(s: State)
    requires Inv(s) && s.m.value > 0
    ensures s.m.hold == 0
  {}

  /** Every branch of rt_mutex_take keeps the invariant. */
  lemma TakenInv(s: State, t: Tid, time: int, i: nat)
    requires Inv(s) && t in s.status && s.status[t].Free? && t in s.prio && IsPosition(s.m.waiters, s.prio, s.prio[t], i)
    ensures s.m.value == 0 ==> s.m.owner.By? && s.m.owner.t in s.prio
    ensures Inv(Taken(s, t, time, i))
  {
    hide Inv, IsPosition, Finished, Reentered, Acquired, Suspended;
    OwnerKnown(s);
    PositionFits(s.m.waiters, s.prio, s.prio[t], i);
    if s.m.owner == By(t) {
      if s.m.hold < HOLD_MAX { ReenteredInv(s, t); } else { FinishedInv(s, t, Full); }
    } else if s.m.value > 0 {
      if s.m.hold < HOLD_MAX { AcquiredInv(s, t); } else { FinishedInv(s, t, Full); }
    } else if time == 0 {
      FinishedInv(s, t, TimedOut);
    } else {
      SuspendedInv(s, t, time, i);
    }
  }

  lemma OwnerKnown(s: State)
    requires Inv(s)
    ensures s.m.value == 0 ==> s.m.owner.By? && s.m.owner.t in s.prio
    ensures s.m.owner.By? ==> s.m.hold > 0
    ensures s.m.waiters != [] ==> s.m.waiters[0] in s.prio
  {}

  lemma SuspendedInv(s: State, t: Tid, time: int, i: nat)
    requires Inv(s) && t in s.status && s.status[t].Free? && t in s.prio && IsPosition(s.m.waiters, s.prio, s.prio[t], i)
    requires s.m.owner.By? && s.m.owner.t in s.prio && s.m.owner != By(t)
    ensures Inv(Suspended(s, t, time, i))
  {
    hide Queued, Inserted, Inherited, IsPosition;
    var ws, o := s.m.waiters, s.m.owner.t;
    PositionFits(ws, s.prio, s.prio[t], i);
    InsertMembers(ws, i, t);
    QueuedInsert(ws, s.prio, s.arrival, s.clock, t, i);
    QueuedOther(Inserted(ws, i, t), s.prio, s.arrival[t := s.clock], s.clock + 1, o, s.prio[t]);
    SuspendedInherits(s, t, time, i);
  }

  /** Blocking on the mutex lends the owner the waiter's urgency. */
  lemma SuspendedInherits(s: State, t: Tid, time: int, i: nat)
    requires Inherited(s) && t in s.prio && i <= |s.m.waiters|
    requires s.m.owner.By? && s.m.owner.t in s.prio && s.m.owner != By(t)
    ensures Inherited(Suspended(s, t, time, i))
  {
    hide Inserted;
    var s' := Suspended(s, t, time, i);
    var o := s.m.owner.t;
    assert t in s'.blockers && s'.base[t] == s.prio[t];
    if s.prio[t] >= s.prio[o] && s.prio[o] != s.base[o] {
      var u :| u in s.blockers && u in s.base && s.base[u] == s.prio[o];
      assert u in s'.blockers;
    }
  }

  /** Every branch of rt_mutex_release keeps the invariant. */
  lemma ReleasedInv(s: State, t: Tid)
    requires Inv(s) && t in s.status && s.status[t].Free? && t in s.prio
    ensures s.m.owner == By(t) ==> s.m.hold > 0
    ensures s.m.waiters != [] ==> s.m.waiters[0] in s.prio
    ensures Inv(Released(s, t))
  {
    OwnerKnown(s);
    if s.m.owner != By(t) {
      FinishedInv(s, t, Error);
    } else if s.m.hold > 1 {
      hide Queued;
    } else if s.m.waiters != [] {
      hide Queued, Inherited;
      HandOverInv(s, t);
    } else {
      hide Queued;
      OpenInv(s, t);
    }
  }

  lemma OpenInv(s: State, t: Tid)
    requires Inv(s) && t in s.status && s.status[t].Free? && t in s.prio && s.m.owner == By(t) && s.m.hold == 1 && s.m.waiters == []
    ensures Inv(Opened(Finished(Restored(s, t), t, Ok)))
  {}

  lemma HandOverInv(s: State, t: Tid)
    requires Inv(s) && t in s.status && s.status[t].Free? && t in s.prio && s.m.owner == By(t) && s.m.hold == 1 && s.m.waiters != []
    ensures s.m.waiters[0] in s.prio && Inv(HandedOver(Finished(Restored(s, t), t, Ok)))
  {
    hide Queued, Inherited;
    var ws := s.m.waiters;
    QueuedKnown(ws, s.prio, s.arrival, s.clock);
    RemoveMembers(ws, 0);
    assert Removed(ws, 0) == ws[1..];
    assert ws[0] in ws;
    QueuedRemove(ws, s.prio, s.arrival, s.clock, 0);
    QueuedOther(ws[1..], s.prio, s.arrival, s.clock, t, s.m.original);
    HandOverInherits(s, t);
  }

  /** The new owner is the most urgent waiter, so it starts at its own priority. */
  lemma HandOverInherits(s: State, t: Tid)
    requires Inherited(s) && Queued(s.m.waiters, s.prio, s.arrival, s.clock) && s.m.owner == By(t) && s.m.hold > 0 && s.m.waiters != []
    requires t in s.prio && t !in s.m.waiters
    ensures s.m.waiters[0] in s.prio && Inherited(HandedOver(Finished(Restored(s, t), t, Ok)))
  {
    var ws := s.m.waiters;
    forall u | u in ws[1..]
      ensures u in s.base && s.base[ws[0]] <= s.base[u]
    {
      var j :| 0 <= j < |ws| - 1 && ws[1..][j] == u;
      assert ws[j + 1] == u;
    }
  }

  /** A timeout takes one waiter out; the owner keeps its urgency. */
  lemma ExpiredInv(s: State, i: nat)
    requires Inv(s) && i < |s.m.waiters|
    ensures Inv(Expired(s, i))
  {
    RemoveMembers(s.m.waiters, i);
    QueuedRemove(s.m.waiters, s.prio, s.arrival, s.clock, i);
    hide Queued, Removed;
  }

  /** The overflow branches at ipc.c:1149-1153 and ipc.c:1167-1171 cannot be taken. */
  lemma ReleaseNeverFull(s: State, t: Tid)
    requires Inv(s) && s.m.owner == By(t) && s.m.hold == 1
    ensures s.m.hold - 1 < HOLD_MAX && s.m.value < VALUE_MAX
  {}

  /** The final release gives the owner back the priority it had when it acquired the mutex. */
  lemma ReleaseRestores(s: State, t: Tid)
    requires Inv(s) && t in s.prio && s.m.owner == By(t) && s.m.hold == 1
    ensures s.m.waiters != [] ==> s.m.waiters[0] in s.prio
    ensures t in Released(s, t).prio && Released(s, t).prio[t] == s.base[t] == s.m.original
    ensures forall u :: u in s.prio && u != t ==> Released(s, t).prio[u] == s.prio[u]
  {}

  /**
   When a take by `t` succeeds, told by the state before: the mutex is free, or `t` owns it and may
   hold it once more.  Otherwise it is full, or the thread times out at once, or it waits.
   */
  lemma TakeOutcome(s: State, t: Tid, time: int, i: nat)
    requires Inv(s) && t in s.status && s.status[t].Free? && t in s.prio && IsPosition(s.m.waiters, s.prio, s.prio[t], i)
    ensures i <= |s.m.waiters| && (s.m.value == 0 ==> s.m.owner.By? && s.m.owner.t in s.prio)
    ensures var u := Taken(s, t, time, i);
      && t in u.status && (forall x :: x != t && x in s.status ==> x in u.status && u.status[x] == s.status[x])
      && (u.status[t] == Free(Ok) <==> s.m.owner == Nobody || (s.m.owner == By(t) && s.m.hold < HOLD_MAX))
      && (u.status[t] == Free(Full) <==> s.m.owner == By(t) && s.m.hold == HOLD_MAX)
      && (u.status[t] == Free(TimedOut) <==> s.m.owner != Nobody && s.m.owner != By(t) && time == 0)
      && (u.status[t] == Blocked(time) <==> s.m.owner != Nobody && s.m.owner != By(t) && time != 0)
  {
    OwnerKnown(s);
    hide Queued, Inherited, IsPosition, Inserted;
    PositionFits(s.m.waiters, s.prio, s.prio[t], i);
  }

  /** What it leads to: the thread owns the mutex once more, or it waits and lends the owner its urgency, or nothing changes. */
  lemma TakeEffect(s: State, t: Tid, time: int, i: nat)
    requires Inv(s) && t in s.status && s.status[t].Free? && t in s.prio && IsPosition(s.m.waiters, s.prio, s.prio[t], i)
    ensures i <= |s.m.waiters| && (s.m.value == 0 ==> s.m.owner.By? && s.m.owner.t in s.prio)
    ensures forall u :: Step(s, Take(t, time, i), u) <==> u == Taken(s, t, time, i)
    ensures var u := Taken(s, t, time, i);
      if s.m.owner == Nobody then
        u.m == Mutex(0, By(t), s.prio[t], 1, []) && u.prio == s.prio
      else if s.m.owner == By(t) then
        u.m == s.m.(hold := if s.m.hold < HOLD_MAX then s.m.hold + 1 else s.m.hold) && u.prio == s.prio
      else if time == 0 then
        u.m == s.m && u.prio == s.prio
      else
        var o := s.m.owner.t;
        && u.m == s.m.(waiters := Inserted(s.m.waiters, i, t))
        && u.prio == s.prio[o := if s.prio[t] < s.prio[o] then s.prio[t] else s.prio[o]]
  {
    OwnerKnown(s);
    hide Queued, Inherited, IsPosition, Inserted;
    PositionFits(s.m.waiters, s.prio, s.prio[t], i);
  }

  /** When a release by `t` succeeds: `t` owns the mutex.  A release that is not the final one only counts down. */
  lemma ReleaseOutcome(s: State, t: Tid)
    requires Inv(s) && t in s.status && s.status[t].Free? && t in s.prio
    ensures (s.m.owner == By(t) ==> s.m.hold > 0) && (s.m.waiters != [] ==> s.m.waiters[0] in s.prio)
    ensures forall u :: Step(s, Release(t), u) <==> u == Released(s, t)
    ensures var u := Released(s, t);
      && t in u.status && u.status[t] == Free(if s.m.owner == By(t) then Ok else Error)
      && (s.m.owner != By(t) ==> u.m == s.m && u.prio == s.prio)
      && (s.m.owner == By(t) && s.m.hold > 1 ==> u.m == s.m.(hold := s.m.hold - 1) && u.prio == s.prio)
      && (forall x :: x != t && x in s.status && x !in s.m.waiters ==> x in u.status && u.status[x] == s.status[x])
      && (s.m.owner != By(t) || s.m.hold > 1 || s.m.waiters == [] ==> u.status == s.status[t := u.status[t]])
      && (s.m.owner == By(t) && s.m.hold == 1 && s.m.waiters != [] ==>
        u.m.waiters == s.m.waiters[1..] && u.status == s.status[t := Free(Ok)][s.m.waiters[0] := Free(Ok)])
  {
    OwnerKnown(s);
    WaitersBlocked(s);
    hide Queued, Inherited;
  }

  lemma WaitersBlocked(s: State)
    requires Inv(s)
    ensures forall j :: 0 <= j < |s.m.waiters| ==> s.m.waiters[j] in s.status && s.status[s.m.waiters[j]].Blocked?
  {
    forall j | 0 <= j < |s.m.waiters|
      ensures s.m.waiters[j] in s.status && s.status[s.m.waiters[j]].Blocked?
    {
      assert s.m.waiters[j] in s.m.waiters;
    }
  }

  /** A timeout takes exactly its waiter out of the list; owner and priorities stay. */
  lemma ExpireOutcome(s: State, i: nat)
    requires Inv(s) && i < |s.m.waiters|
    ensures forall u :: Step(s, Expire(i), u) <==> u == Expired(s, i)
    ensures var u, w := Expired(s, i), s.m.waiters[i];
      && u.status == s.status[w := Free(TimedOut)] && u.prio == s.prio
      && u.m == s.m.(waiters := u.m.waiters) && w !in u.m.waiters
      && (forall x :: x in u.m.waiters <==> x in s.m.waiters && x != w)
  {
    hide Inherited;
    QueuedKnown(s.m.waiters, s.prio, s.arrival, s.clock);
    RemoveMembers(s.m.waiters, i);
    hide Queued, Removed;
  }

  /** The final release hands the mutex to the most urgent waiter, the longest waiting one among equals. */
  lemma HandsToMostUrgent(s: State, t: Tid)
    requires Inv(s) && t in s.prio && s.m.owner == By(t) && s.m.hold == 1 && s.m.waiters != [] && s.m.waiters[0] in s.prio
    ensures var w := s.m.waiters[0];
      var u := Released(s, t);
      && u.m.owner == By(w) && u.m.hold == 1 && u.m.value == 0 && w in u.status && u.status[w] == Free(Ok)
      && (forall j :: 0 < j < |s.m.waiters| ==>
        var x := s.m.waiters[j];
        x in s.prio && x in s.arrival && w in s.arrival
        && (s.prio[w] < s.prio[x] || (s.prio[w] == s.prio[x] && s.arrival[w] < s.arrival[x])))
      && (forall x :: x in u.m.waiters <==> x in s.m.waiters && x != w)
  {
    hide Inherited;
    QueuedKnown(s.m.waiters, s.prio, s.arrival, s.clock);
    RemoveMembers(s.m.waiters, 0);
    assert Removed(s.m.waiters, 0) == s.m.waiters[1..];
  }

  /** With nobody waiting the final release leaves the mutex free. */
  lemma ReleaseFrees(s: State, t: Tid)
    requires Inv(s) && t in s.prio && s.m.owner == By(t) && s.m.hold == 1 && s.m.waiters == []
    ensures Released(s, t).m.owner == Nobody && Released(s, t).m.value == 1 && Released(s, t).m.hold == 0
  {
    hide Queued, Inherited;
  }

  // ---- all runs ------------------------------------------------------------------------------

  datatype Action = Take(t: Tid, time: int, i: nat) | Release(t: Tid) | Expire(i: nat)

  ghost predicate Can(s: State, a: Action) {
    match a
    case Take(t, _, i) => t in s.status && s.status[t].Free? && t in s.prio && IsPosition(s.m.waiters, s.prio, s.prio[t], i)
    case Release(t) => t in s.status && s.status[t].Free? && t in s.prio
    case Expire(i) => i < |s.m.waiters|
  }

  ghost predicate Does(s: State, a: Action, s': State)
    requires Can(s, a)
  {
    match a
    case Take(t, time, i) => (s.m.value == 0 ==> s.m.owner.By? && s.m.owner.t in s.prio) && s' == Taken(s, t, time, i)
    case Release(t) =>
      && (s.m.owner == By(t) ==> s.m.hold > 0) && (s.m.waiters != [] ==> s.m.waiters[0] in s.prio)
      && s' == Released(s, t)
    case Expire(i) => s' == Expired(s, i)
  }

  lemma StepInv(s: State, a: Action, s': State)
    requires Inv(s) && Can(s, a) && Does(s, a, s')
    ensures Inv(s')
  {
    hide Inv, Taken, Released, Expired;
    match a
    case Take(t, time, i) => TakenInv(s, t, time, i);
    case Release(t) => ReleasedInv(s, t);
    case Expire(i) => ExpiredInv(s, i);
  }

  ghost predicate Step(s: State, a: Action, s': State) {
    Can(s, a) && Does(s, a, s')
  }

  ghost predicate IsRun(ss: seq<State>, acts: seq<Action>) {
    && |ss| == |acts| + 1
    && ss[0] == Initial(ss[0].prio)
    && forall i, j :: 0 <= i < |acts| && j == i + 1 ==> Step(ss[i], acts[i], ss[j])
  }

  /** The invariant holds in every state of every run. */
  lemma {:induction false} RunInv(ss: seq<State>, acts: seq<Action>, k: nat)
    requires IsRun(ss, acts) && k < |ss|
    ensures Inv(ss[k])
  {
    hide Inv, Does, Can, Initial;
    if k == 0 {
      InitialInv(ss[0].prio);
    } else {
      RunInv(ss, acts, k - 1);
      var i := k - 1;
      assert Step(ss[i], acts[i], ss[k]);
      StepInv(ss[i], acts[i], ss[k]);
    }
  }

  // ---- a thread that owns a second mutex ---------------------------------------------------------

  /** Waiters of another mutex are protected: its owner `o` is at least as urgent as they are. */
  ghost predicate Protects(prio: map<Tid, nat>, o: Tid, ws: seq<Tid>)
    requires o in prio && forall w :: w in ws ==> w in prio
  {
    forall w :: w in ws ==> prio[o] <= prio[w]
  }

  /**
   Inheritance does not survive the release of a second mutex.  If `o` owns this mutex and another
   one whose waiters are `ws`, the final release of this one keeps those waiters protected exactly
   when the priority recorded here is at least as urgent as theirs.
   */
  lemma SecondMutexKeepsProtection(s: State, o: Tid, ws: seq<Tid>)
    requires s.m.owner == By(o) && s.m.hold == 1 && o in s.prio && o !in ws && forall w :: w in ws ==> w in s.prio
    requires s.m.waiters != [] ==> s.m.waiters[0] in s.prio
    ensures o in Released(s, o).prio && (forall w :: w in ws ==> w in Released(s, o).prio)
    ensures Protects(Released(s, o).prio, o, ws) <==> forall w :: w in ws ==> s.m.original <= s.prio[w]
  {
    var p := Released(s, o).prio;
    assert p == s.prio[o := s.m.original];
    if forall w :: w in ws ==> s.m.original <= s.prio[w] {
    } else {
      var w :| w in ws && s.m.original > s.prio[w];
      assert p[w] == s.prio[w];
    }
  }

  /** Two mutexes and the threads that use them; each mutex sees the same priorities. */
  datatype Two = Two(x: Mutex, y: Mutex, prio: map<Tid, nat>, status: map<Tid, Status>, arrival: map<Tid, nat>, clock: nat)

  function View(p: Two, second: bool): State {
    State(if second then p.y else p.x, p.prio, p.status, p.prio, p.arrival, p.clock, {})
  }

  function After(p: Two, second: bool, s: State): Two {
    Two(if second then p.x else s.m, if second then s.m else p.y, s.prio, s.status, s.arrival, s.clock)
  }

  /** One operation on one of the two mutexes. */
  ghost predicate StepOfTwo(p: Two, second: bool, a: Action, p': Two) {
    exists s' :: Step(View(p, second), a, s') && p' == After(p, second, s')
  }

  /**
   A run of two mutexes that ends in a priority inversion: thread 1 (priority 20) takes `y` and then
   `x`, thread 2 (priority 5) waits for `y`, thread 1 releases `x` and is back at priority 20 while
   thread 2 still waits for it.
   */
  lemma SecondMutexDropsBoost() returns (p: seq<Two>)
    ensures |p| == 5 && p[0] == Two(Initial(map[]).m, Initial(map[]).m, map[1 := 20, 2 := 5], map[1 := Free(None), 2 := Free(None)], map[], 0)
    ensures StepOfTwo(p[0], true, Take(1, -1, 0), p[1])
    ensures StepOfTwo(p[1], false, Take(1, -1, 0), p[2])
    ensures StepOfTwo(p[2], true, Take(2, -1, 0), p[3])
    ensures StepOfTwo(p[3], false, Release(1), p[4])
    ensures p[3].y.owner == By(1) && p[3].y.waiters == [2] && p[3].prio == map[1 := 5, 2 := 5]
    ensures p[4].y == p[3].y && p[4].prio == map[1 := 20, 2 := 5]
  {
    var p0 := Two(Initial(map[]).m, Initial(map[]).m, map[1 := 20, 2 := 5], map[1 := Free(None), 2 := Free(None)], map[], 0);
    var s1 := Taken(View(p0, true), 1, -1, 0);
    var p1 := After(p0, true, s1);
    assert Step(View(p0, true), Take(1, -1, 0), s1);
    var s2 := Taken(View(p1, false), 1, -1, 0);
    var p2 := After(p1, false, s2);
    assert Step(View(p1, false), Take(1, -1, 0), s2);
    var s3 := Taken(View(p2, true), 2, -1, 0);
    var p3 := After(p2, true, s3);
    assert Step(View(p2, true), Take(2, -1, 0), s3);
    var s4 := Released(View(p3, false), 1);
    var p4 := After(p3, false, s4);
    assert Step(View(p3, false), Release(1), s4);
    assert p4.prio == map[1 := 20, 2 := 5];
    p := [p0, p1, p2, p3, p4];
  }
}
