/**
 The single-core scheduler and the thread state machine (scheduler.c, thread.c): ready lists and
 their bitmap, the current thread, and the threads whose built-in timer runs.
 */
module Scheduler {
  import opened Ring
  import opened IpcList
  import opened ReadyIndex

  datatype Stat = Init | Ready | Running | Suspended | Closed

  /** stat without and with RT_THREAD_STAT_YIELD, the priorities and the masks derived from them. */
  datatype Thread = Thread(stat: Stat, yielding: bool, prio: bv8, init: bv8, masks: Masks)

  datatype Current = Nobody | Is(t: Tid)

  /** `last` is RT_THREAD_PRIORITY_MAX - 1; lists is rt_thread_priority_table. */
  datatype State = State(
    last: bv8,
    threads: map<Tid, Thread>,
    lists: map<Level, seq<Tid>>,
    ix: Index,
    current: Current,
    timers: set<Tid>,               // threads whose thread_timer is active
    lock: nat)                      // rt_scheduler_lock_nest

  function Queue(s: State, p: bv8): seq<Tid> {
    if Level(p) in s.lists then s.lists[Level(p)] else []
  }

  // ---- invariant -------------------------------------------------------------------------------

  ghost predicate HasLists(s: State) {
    && (forall p: bv8 :: AtMost(p, s.last) <==> Level(p) in s.lists)
    && (s.ix.wide || Below32(s.last))
  }

  /** A thread is READY iff it is linked in the ready list of its current priority. */
  ghost predicate Linked(s: State) {
    && (forall p: bv8 :: Distinct(Queue(s, p)))
    && (forall p: bv8, t: Tid :: t in Queue(s, p) <==> t in s.threads && s.threads[t].stat == Ready && s.threads[t].prio == p)
  }

  /** A bit of the index is set iff its ready list is not empty. */
  ghost predicate Indexed(s: State) {
    Ok(s.ix) && forall p: bv8 :: Has(s.ix, p) <==> Queue(s, p) != []
  }

  /** Priorities are legal, and the masks of a started thread match its priority. */
  ghost predicate Masked(s: State) {
    forall t :: t in s.threads ==>
      && AtMost(s.threads[t].init, s.last)
      && (s.threads[t].stat != Init ==> AtMost(s.threads[t].prio, s.last) && s.threads[t].masks == MasksAt(s, s.threads[t].prio))
  }

  function MasksAt(s: State, p: bv8): Masks {
    if s.ix.wide || Below32(p) then MasksOf(s.ix.wide, p) else Masks(0, 0, 0)
  }

  /** A thread timer is active only while its thread is suspended. */
  ghost predicate Timed(s: State) {
    forall t :: t in s.timers ==> t in s.threads && s.threads[t].stat == Suspended
  }

  ghost predicate Core(s: State) {
    HasLists(s) && Linked(s) && Indexed(s) && Masked(s) && Timed(s)
  }

  /** Only the current thread runs, and it is never in a ready list. */
  ghost predicate CurrentOk(s: State) {
    && (s.current.Is? ==> s.current.t in s.threads && s.threads[s.current.t].stat != Ready && s.threads[s.current.t].stat != Init)
    && (forall t :: t in s.threads && s.threads[t].stat == Running ==> s.current == Is(t))
  }

  ghost predicate Inv(s: State) {
    Core(s) && CurrentOk(s)
  }

  /** rt_system_scheduler_init: no thread has been started. */
  ghost predicate Initial(s: State) {
    && HasLists(s) && (forall p: bv8 :: Queue(s, p) == [])
    && s.ix.group == 0 && (forall n: bv8 :: Below32(n) ==> Level(n) in s.ix.table && s.ix.table[Level(n)] == 0)
    && (forall t :: t in s.threads ==> s.threads[t].stat == Init && AtMost(s.threads[t].init, s.last))
    && s.current == Nobody && s.timers == {} && s.lock == 0
  }

  lemma InitialInv(s: State)
    requires Initial(s)
    ensures Inv(s)
  {
    hide AtMost, Below32, Queue, Bit32;
    forall n: bv8
      ensures !Bit32(s.ix.group, n)
    {
      Empty(n);
    }
    forall p: bv8
      ensures !Has(s.ix, p)
    {
      NothingSet(s.ix, p);
    }
    hide Has;
  }

  // ---- linking and unlinking -------------------------------------------------------------------

  /** What the list operations need to be defined. */
  ghost predicate Known(s: State, t: Tid) {
    && t in s.threads && Level(s.threads[t].prio) in s.lists
    && (s.ix.wide ==> Level(s.threads[t].masks.number) in s.ix.table)
  }

  function WithThread(s: State, t: Tid, th: Thread): State {
    s.(threads := s.threads[t := th])
  }

  function WithStat(s: State, t: Tid, stat: Stat): State
    requires t in s.threads
  {
    WithThread(s, t, s.threads[t].(stat := stat))
  }

  /** rt_schedule_insert_thread */
  function Attached(s: State, t: Tid): State
    requires Known(s, t)
  {
    if s.current == Is(t) then WithStat(s, t, Running)
    else
      var p := s.threads[t].prio;
      WithStat(s, t, Ready).(lists := s.lists[Level(p) := s.lists[Level(p)] + [t]], ix := SetBits(s.ix, s.threads[t].masks))
  }

  /** rt_schedule_remove_thread */
  function Unlinked(s: State, t: Tid): State
    requires Known(s, t)
  {
    var p := s.threads[t].prio;
    var q := Minus(s.lists[Level(p)], t);
    s.(lists := s.lists[Level(p) := q], ix := if q == [] then ClearBits(s.ix, s.threads[t].masks) else s.ix)
  }

  /** The same, after which the thread gets another state. */
  function Detached(s: State, t: Tid, stat: Stat): State
    requires Known(s, t)
  {
    WithStat(Unlinked(s, t), t, stat)
  }

  lemma LegalIsBelow(s: State, p: bv8)
    requires HasLists(s) && AtMost(p, s.last)
    ensures s.ix.wide || Below32(p)
  {}

  lemma KnownStarted(s: State, t: Tid)
    requires Core(s) && t in s.threads && s.threads[t].stat != Init
    ensures Known(s, t) && (s.ix.wide || Below32(s.threads[t].prio))
    ensures s.threads[t].masks == MasksOf(s.ix.wide, s.threads[t].prio)
  {
    hide AtMost, Below32, MasksOf, Linked, Timed, Has;
    LegalIsBelow(s, s.threads[t].prio);
    MasksKnown(s.ix, s.threads[t].prio);
  }

  lemma AttachedQueues(s: State, t: Tid)
    requires Known(s, t) && s.current != Is(t)
    ensures forall q: bv8 :: Queue(Attached(s, t), q) == (if q == s.threads[t].prio then Queue(s, q) + [t] else Queue(s, q))
  {
    hide SetBits;
  }

  lemma AttachedLinked(s: State, t: Tid)
    requires Linked(s) && Known(s, t) && s.current != Is(t) && s.threads[t].stat != Ready
    ensures Linked(Attached(s, t))
  {
    hide SetBits, Distinct;
    var s' := Attached(s, t);
    var p := s.threads[t].prio;
    AttachedQueues(s, t);
    AppendMembers(Queue(s, p), t);
    hide Queue;
  }

  lemma AttachedIndexed(s: State, t: Tid)
    requires Indexed(s) && Known(s, t) && s.current != Is(t)
    requires (s.ix.wide || Below32(s.threads[t].prio)) && s.threads[t].masks == MasksOf(s.ix.wide, s.threads[t].prio)
    ensures Indexed(Attached(s, t))
  {
    hide SetBits, MasksOf, Has, Ok, Below32;
    var s' := Attached(s, t);
    var p := s.threads[t].prio;
    SetOk(s.ix, p);
    AttachedQueues(s, t);
    forall q: bv8
      ensures Has(s'.ix, q) <==> Queue(s', q) != []
    {
      SetHas(s.ix, p, q);
    }
  }

  /** Inserting a thread that is in no ready list. */
  lemma AttachedCore(s: State, t: Tid)
    requires Core(s) && t in s.threads && s.threads[t].stat != Init && s.threads[t].stat != Ready && t !in s.timers
    ensures Known(s, t) && Core(Attached(s, t))
  {
    hide AtMost, Below32, MasksOf, SetBits, Ok, Has, Distinct, Linked, Indexed, Queue;
    KnownStarted(s, t);
    if s.current == Is(t) {
      StatCore(s, t, Running);
    } else {
      AttachedLinked(s, t);
      AttachedIndexed(s, t);
      SetWide(s.ix, s.threads[t].masks);
    }
  }

  lemma SetWide(ix: Index, m: Masks)
    requires ix.wide ==> Level(m.number) in ix.table
    ensures SetBits(ix, m).wide == ix.wide && ClearBits(ix, m).wide == ix.wide
  {}

  /** A change of a thread that is and stays outside the ready lists. */
  lemma ThreadCore(s: State, t: Tid, th: Thread)
    requires Core(s) && t in s.threads && s.threads[t].stat != Ready && th.stat != Ready && AtMost(th.init, s.last)
    requires th.stat != Init ==> AtMost(th.prio, s.last) && th.masks == MasksAt(s, th.prio)
    requires t in s.timers ==> th.stat == Suspended
    ensures Core(WithThread(s, t, th))
  {
    hide AtMost, Below32, MasksOf, Ok, Has, Distinct;
    var s' := WithThread(s, t, th);
    assert forall q: bv8 :: Queue(s', q) == Queue(s, q);
    hide Queue;
  }

  lemma StatCore(s: State, t: Tid, stat: Stat)
    requires Core(s) && t in s.threads && s.threads[t].stat != Init && s.threads[t].stat != Ready && stat != Ready && stat != Init
    requires t in s.timers ==> stat == Suspended
    ensures Core(WithStat(s, t, stat))
  {
    ThreadLegal(s, t);
    hide Core;
    ThreadCore(s, t, s.threads[t].(stat := stat));
  }

  lemma ThreadLegal(s: State, t: Tid)
    requires Core(s) && t in s.threads
    ensures AtMost(s.threads[t].init, s.last)
    ensures s.threads[t].stat != Init ==> AtMost(s.threads[t].prio, s.last) && s.threads[t].masks == MasksAt(s, s.threads[t].prio)
  {
    hide AtMost, Below32, MasksOf, Ok, Has, Distinct, Linked, Indexed, HasLists, Timed;
  }

  lemma DetachedQueues(s: State, t: Tid, stat: Stat)
    requires Known(s, t)
    ensures forall q: bv8 :: Queue(Detached(s, t, stat), q) == (if q == s.threads[t].prio then Minus(Queue(s, q), t) else Queue(s, q))
  {
    hide ClearBits, Minus;
  }

  lemma DetachedLinked(s: State, t: Tid, stat: Stat)
    requires Linked(s) && Known(s, t) && stat != Ready
    ensures Linked(Detached(s, t, stat))
  {
    hide ClearBits, Distinct, Minus;
    var s' := Detached(s, t, stat);
    DetachedQueues(s, t, stat);
    MinusMembers(Queue(s, s.threads[t].prio), t);
    hide Queue;
  }

  lemma DetachedIndexed(s: State, t: Tid, stat: Stat)
    requires Linked(s) && Indexed(s) && Known(s, t)
    requires (s.ix.wide || Below32(s.threads[t].prio)) && s.threads[t].masks == MasksOf(s.ix.wide, s.threads[t].prio)
    ensures Indexed(Detached(s, t, stat))
  {
    hide ClearBits, MasksOf, Has, Ok, Below32, Minus, Distinct;
    var s' := Detached(s, t, stat);
    var p := s.threads[t].prio;
    var m := Minus(Queue(s, p), t);
    DetachedQueues(s, t, stat);
    MinusMembers(Queue(s, p), t);
    if m == [] {
      ClearOk(s.ix, p);
      forall q: bv8
        ensures Has(s'.ix, q) <==> Queue(s', q) != []
      {
        ClearHas(s.ix, p, q);
      }
    } else {
      assert m[0] in Queue(s, p);
      hide Linked;
    }
  }

  /** Removing a thread, whether or not it was linked. */
  lemma DetachedCore(s: State, t: Tid, stat: Stat)
    requires Core(s) && t in s.threads && s.threads[t].stat != Init && stat != Ready && stat != Init
    requires t in s.timers ==> stat == Suspended
    ensures Known(s, t) && Core(Detached(s, t, stat))
  {
    hide AtMost, Below32, MasksOf, ClearBits, Ok, Has, Distinct, Linked, Indexed, Queue, Minus;
    KnownStarted(s, t);
    DetachedLinked(s, t, stat);
    DetachedIndexed(s, t, stat);
    SetWide(s.ix, s.threads[t].masks);
  }

  // ---- choosing the next thread --------------------------------------------------------------------

  function MostUrgent(s: State): bv8
    requires s.ix.wide ==> Level(First32(s.ix.group)) in s.ix.table
  {
    Highest(s.ix)
  }

  /** The bitmap lookup yields the most urgent priority that has a ready thread. */
  lemma MostUrgentIsMin(s: State)
    requires Core(s) && s.ix.group != 0
    ensures s.ix.wide ==> Level(First32(s.ix.group)) in s.ix.table
    ensures Queue(s, MostUrgent(s)) != [] && Level(MostUrgent(s)) in s.lists
    ensures forall q: bv8 :: Queue(s, q) != [] ==> AtMost(MostUrgent(s), q)
  {
    hide Highest, First32, Ok, Has, AtMost, Linked, Masked, Timed, HasLists, Below32;
    HighestIsMin(s.ix, 0);
    forall q: bv8 | Queue(s, q) != []
      ensures AtMost(MostUrgent(s), q)
    {
      HighestIsMin(s.ix, q);
    }
  }

  lemma NobodyReady(s: State)
    requires Core(s) && s.ix.group == 0
    ensures forall q: bv8 :: Queue(s, q) == []
    ensures forall t :: t in s.threads ==> s.threads[t].stat != Ready
  {
    hide Ok, Has, AtMost, Masked, Timed, HasLists, Distinct, Queue;
    forall q: bv8
      ensures Queue(s, q) == []
    {
      NothingSet(s.ix, q);
    }
    assert forall t :: t in s.threads ==> t !in Queue(s, s.threads[t].prio);
  }

  function WithYield(s: State, t: Tid, y: bool): State
    requires t in s.threads
  {
    WithThread(s, t, s.threads[t].(yielding := y))
  }

  /** The current thread keeps the processor. */
  predicate Stays(s: State, p: bv8)
    requires s.current.Is? && s.current.t in s.threads
  {
    var c := s.threads[s.current.t];
    c.stat == Running && (!AtMost(p, c.prio) || (c.prio == p && !c.yielding))
  }

  /** The scheduler gives the processor to `to`. */
  ghost predicate SwitchKnown(s: State, to: Tid) {
    && s.current.Is? && Known(s, s.current.t)
    && (var s1 := Leaving(s, to);
      to != s.current.t && Known(s1, to))
  }

  /** The current thread has made room: it goes to the end of its ready list if it can still run. */
  function Leaving(s: State, to: Tid): State
    requires s.current.Is? && Known(s, s.current.t)
  {
    var from := s.current.t;
    if s.threads[from].stat == Running then Attached(WithYield(s, from, false).(current := Is(to)), from)
    else s.(current := Is(to))
  }

  function Switched(s: State, to: Tid): State
    requires SwitchKnown(s, to)
  {
    Detached(Leaving(s, to), to, Running)
  }

  /** rt_schedule with the scheduler unlocked and somebody ready. */
  function Chosen(s: State): State
    requires Inv(s) && s.current.Is? && s.ix.group != 0
  {
    MostUrgentIsMin(s);
    var p := MostUrgent(s);
    var cur := s.current.t;
    if Stays(s, p) then
      CurrentKnown(s);
      Detached(WithYield(s, cur, false), cur, Running)
    else
      SwitchIsKnown(s, p);
      Switched(s, Queue(s, p)[0])
  }

  /** rt_schedule */
  function Scheduled(s: State): State
    requires Inv(s) && s.current.Is?
  {
    if s.lock == 0 && s.ix.group != 0 then Chosen(s) else s
  }

  lemma YieldCore(s: State, t: Tid, y: bool, c: Current)
    requires Core(s) && t in s.threads && s.threads[t].stat != Ready
    ensures Core(WithYield(s, t, y)) && Core(WithYield(s, t, y).(current := c)) && Core(s.(current := c))
  {
    ThreadLegal(s, t);
    TimedSuspended(s, t);
    hide Core;
    ThreadCore(s, t, s.threads[t].(yielding := y));
    CurrentOnly(s, c);
    CurrentOnly(WithYield(s, t, y), c);
  }

  lemma TimedSuspended(s: State, t: Tid)
    requires Core(s)
    ensures t in s.timers ==> t in s.threads && s.threads[t].stat == Suspended
  {
    hide HasLists, Linked, Indexed, Masked;
  }

  lemma CurrentOnly(s: State, c: Current)
    requires Core(s)
    ensures Core(s.(current := c))
  {
    hide AtMost, Below32, MasksOf, Ok, Has, Distinct;
    var s' := s.(current := c);
    assert forall q: bv8 :: Queue(s', q) == Queue(s, q);
    hide Queue;
  }

  lemma CurrentKnown(s: State)
    requires Inv(s) && s.current.Is?
    ensures Known(s, s.current.t) && forall y :: Known(WithYield(s, s.current.t, y), s.current.t)
  {
    hide AtMost, Below32, MasksOf, Linked, Indexed, Timed, HasLists, Masked;
    KnownStarted(s, s.current.t);
  }

  /** The head of a ready list is a ready thread, and so not the current one. */
  lemma HeadReady(s: State, p: bv8)
    requires Inv(s) && Queue(s, p) != []
    ensures var to := Queue(s, p)[0];
      to in s.threads && s.threads[to].stat == Ready && s.threads[to].prio == p && s.current != Is(to) && to !in s.timers
  {
    hide AtMost, Below32, MasksOf, Indexed, HasLists, Masked, Distinct;
    assert Queue(s, p)[0] in Queue(s, p);
  }

  lemma LeavingCore(s: State, to: Tid)
    requires Inv(s) && s.current.Is? && to in s.threads && s.threads[to].stat == Ready
    ensures Known(s, s.current.t) && Core(Leaving(s, to))
    ensures var u := Leaving(s, to);
      && u.current == Is(to) && to in u.threads && u.threads[to] == s.threads[to] && u.timers == s.timers
      && u.last == s.last && u.lock == s.lock
  {
    hide AtMost, Below32, MasksOf, SetBits, Core;
    var from := s.current.t;
    CurrentKnown(s);
    YieldCore(s, from, false, Is(to));
    if s.threads[from].stat == Running {
      NotTimed(s, from);
      AttachedCore(WithYield(s, from, false).(current := Is(to)), from);
    }
  }

  lemma NotTimed(s: State, t: Tid)
    requires Core(s) && t in s.threads && s.threads[t].stat != Suspended
    ensures t !in s.timers
  {
    hide HasLists, Linked, Indexed, Masked;
  }

  lemma SwitchIsKnown(s: State, p: bv8)
    requires Inv(s) && s.current.Is? && Queue(s, p) != []
    ensures SwitchKnown(s, Queue(s, p)[0])
  {
    hide Core, CurrentOk, Queue, Leaving, Known;
    HeadReady(s, p);
    var to := Queue(s, p)[0];
    LeavingCore(s, to);
    KnownStarted(Leaving(s, to), to);
  }

  lemma SwitchedInv(s: State, p: bv8)
    requires Inv(s) && s.current.Is? && Queue(s, p) != []
    ensures SwitchKnown(s, Queue(s, p)[0]) && Inv(Switched(s, Queue(s, p)[0]))
  {
    hide Core, Queue, Known, SetBits, ClearBits, Minus;
    SwitchIsKnown(s, p);
    HeadReady(s, p);
    var to := Queue(s, p)[0];
    LeavingCore(s, to);
    NotTimed(Leaving(s, to), to);
    DetachedCore(Leaving(s, to), to, Running);
  }

  lemma StayedInv(s: State)
    requires Inv(s) && s.current.Is? && s.threads[s.current.t].stat == Running
    ensures var u := WithYield(s, s.current.t, false); Known(u, s.current.t) && Inv(Detached(u, s.current.t, Running))
  {
    hide Core, Known, ClearBits, Minus;
    var t := s.current.t;
    YieldCore(s, t, false, s.current);
    NotTimed(s, t);
    DetachedCore(WithYield(s, t, false), t, Running);
  }

  lemma ScheduledInv(s: State)
    requires Inv(s) && s.current.Is?
    ensures Inv(Scheduled(s))
  {
    hide Inv, Core, CurrentOk, Switched, Detached, Known, Queue, MostUrgent;
    if s.lock == 0 && s.ix.group != 0 {
      MostUrgentIsMin2(s);
      if Stays(s, MostUrgent(s)) {
        StayedInv(s);
      } else {
        SwitchedInv(s, MostUrgent(s));
      }
    }
  }

  lemma MostUrgentIsMin2(s: State)
    requires Inv(s) && s.ix.group != 0 && s.current.Is?
    ensures s.ix.wide ==> Level(First32(s.ix.group)) in s.ix.table
    ensures Queue(s, MostUrgent(s)) != [] && s.current.t in s.threads
  {
    hide Core;
    MostUrgentIsMin(s);
  }

  // ---- the current thread is the most urgent one ---------------------------------------------------

  lemma Urgency(a: bv8, b: bv8, c: bv8)
    ensures AtMost(a, b) || AtMost(b, a)
    ensures AtMost(a, b) && AtMost(b, c) ==> AtMost(a, c)
    ensures AtMost(a, b) && AtMost(b, a) ==> a == b
    ensures AtMost(a, a)
  {}

  /** The ready lists after a switch: the old thread joins the end of its list, the new one leaves the head. */
  lemma SwitchedQueues(s: State, p: bv8)
    requires Inv(s) && s.current.Is? && Queue(s, p) != []
    ensures SwitchKnown(s, Queue(s, p)[0])
    ensures var from := s.threads[s.current.t];
      var u := Switched(s, Queue(s, p)[0]);
      forall q: bv8 :: Queue(u, q) ==
        var joined := if from.stat == Running && from.prio == q then Queue(s, q) + [s.current.t] else Queue(s, q);
        if q == p && joined != [] then joined[1..] else joined
  {
    hide AtMost, Below32, MasksOf, SetBits, ClearBits, Core, CurrentOk, Minus, Queue, Known, Leaving, Attached, WithYield;
    var from := s.current.t;
    var to := Queue(s, p)[0];
    SwitchIsKnown(s, p);
    HeadReady(s, p);
    LeavingCore(s, to);
    LeavingQueues(s, to);
    var u := Leaving(s, to);
    DetachedQueues(u, to, Running);
    assert Queue(u, p)[0] == to;
    MinusHead(Queue(u, p), to);
  }

  lemma LeavingQueues(s: State, to: Tid)
    requires Inv(s) && s.current.Is? && to in s.threads && s.current != Is(to)
    ensures Known(s, s.current.t)
    ensures var from := s.threads[s.current.t];
      forall q: bv8 :: Queue(Leaving(s, to), q) ==
        if from.stat == Running && from.prio == q then Queue(s, q) + [s.current.t] else Queue(s, q)
  {
    hide AtMost, Below32, MasksOf, SetBits, Core;
    var from := s.current.t;
    CurrentKnown(s);
    var y := WithYield(s, from, false).(current := Is(to));
    assert forall q: bv8 :: Queue(y, q) == Queue(s, q);
    if s.threads[from].stat == Running {
      AttachedQueues(y, from);
    }
  }

  /** Nobody ready is more urgent than `p`. */
  ghost predicate NoneMoreUrgent(s: State, p: bv8) {
    forall q: bv8 :: Queue(s, q) != [] ==> AtMost(p, q)
  }

  /** After an unlocked rt_schedule the current thread is at least as urgent as every ready thread. */
  lemma CurrentIsMostUrgent(s: State)
    requires Inv(s) && s.current.Is? && s.lock == 0
    ensures var u := Scheduled(s);
      u.current.Is? && u.current.t in u.threads && NoneMoreUrgent(u, u.threads[u.current.t].prio)
      && (s.ix.group != 0 ==> u.threads[u.current.t].stat == Running)
  {
    hide AtMost, Core, Queue, MostUrgent, Inv;
    CurrentExists(s);
    if s.ix.group == 0 {
      NobodyReadyInv(s);
    } else {
      MostUrgentInv(s);
      var p := MostUrgent(s);
      var cur := s.current.t;
      Urgency(p, s.threads[cur].prio, p);
      if Stays(s, p) {
        StayedUrgent(s, p);
      } else {
        SwitchedUrgent(s, p);
      }
    }
  }

  lemma CurrentExists(s: State)
    requires Inv(s)
    ensures s.current.Is? ==> s.current.t in s.threads
  {
    hide Core;
  }

  lemma NobodyReadyInv(s: State)
    requires Inv(s) && s.ix.group == 0
    ensures forall q: bv8 :: Queue(s, q) == []
  {
    hide Core;
    NobodyReady(s);
  }

  lemma MostUrgentInv(s: State)
    requires Inv(s) && s.ix.group != 0
    ensures s.ix.wide ==> Level(First32(s.ix.group)) in s.ix.table
    ensures Queue(s, MostUrgent(s)) != []
    ensures NoneMoreUrgent(s, MostUrgent(s))
  {
    hide Core;
    MostUrgentIsMin(s);
  }

  lemma StayedQueues(s: State)
    requires Inv(s) && s.current.Is? && s.threads[s.current.t].stat == Running
    ensures Known(WithYield(s, s.current.t, false), s.current.t)
    ensures forall q: bv8 :: Queue(Detached(WithYield(s, s.current.t, false), s.current.t, Running), q) == Queue(s, q)
  {
    hide AtMost, Below32, MasksOf, ClearBits, HasLists, Indexed, Masked, Timed, Distinct, Minus;
    var t := s.current.t;
    CurrentKnown(s);
    var y := WithYield(s, t, false);
    assert forall q: bv8 :: Queue(y, q) == Queue(s, q);
    DetachedQueues(y, t, Running);
    MinusMembers(Queue(s, s.threads[t].prio), t);
  }

  lemma StayedUrgent(s: State, p: bv8)
    requires Inv(s) && s.current.Is? && s.current.t in s.threads && Stays(s, p) && NoneMoreUrgent(s, p)
    ensures Known(WithYield(s, s.current.t, false), s.current.t)
    ensures var u := Detached(WithYield(s, s.current.t, false), s.current.t, Running);
      u.current.Is? && u.current.t in u.threads && NoneMoreUrgent(u, u.threads[u.current.t].prio) && u.threads[u.current.t].stat == Running
  {
    hide AtMost, Inv, Minus, ClearBits, Queue, Known;
    var t := s.current.t;
    var c := s.threads[t].prio;
    StayedQueues(s);
    var u := Detached(WithYield(s, t, false), t, Running);
    forall q: bv8 | Queue(u, q) != []
      ensures AtMost(c, q)
    {
      Urgency(c, p, q);
    }
  }

  lemma SwitchedUrgent(s: State, p: bv8)
    requires Inv(s) && s.current.Is? && s.current.t in s.threads && !Stays(s, p) && NoneMoreUrgent(s, p) && Queue(s, p) != []
    ensures SwitchKnown(s, Queue(s, p)[0])
    ensures var u := Switched(s, Queue(s, p)[0]);
      u.current.Is? && u.current.t in u.threads && NoneMoreUrgent(u, u.threads[u.current.t].prio) && u.threads[u.current.t].stat == Running
  {
    hide AtMost, Inv, Minus, ClearBits, Queue, Known, Leaving;
    var to := Queue(s, p)[0];
    SwitchedQueues(s, p);
    HeadReady(s, p);
    LeavingCore(s, to);
    var u := Switched(s, to);
    assert u.threads[to].prio == p;
    forall q: bv8 | Queue(u, q) != []
      ensures AtMost(p, q)
    {
      Urgency(p, q, q);
    }
  }

  // ---- round robin ---------------------------------------------------------------------------------

  /** rt_thread_yield */
  function Yielded(s: State): State
    requires Inv(s) && s.current.Is?
  {
    YieldInv(s);
    Scheduled(WithYield(s, s.current.t, true))
  }

  lemma YieldInv(s: State)
    requires Inv(s) && s.current.Is?
    ensures s.current.t in s.threads && Inv(WithYield(s, s.current.t, true))
  {
    hide Core;
    YieldCore(s, s.current.t, true, s.current);
  }

  /** The threads that share the processor: the current one and the ready ones of its priority. */
  function Sharing(s: State): seq<Tid> {
    if s.current.Is? && s.current.t in s.threads then [s.current.t] + Queue(s, s.threads[s.current.t].prio) else []
  }

  /** The current thread runs, is among the most urgent, and the scheduler is unlocked. */
  ghost predicate Sharable(s: State) {
    && Inv(s) && s.lock == 0 && s.current.Is? && s.current.t in s.threads
    && s.threads[s.current.t].stat == Running && NoneMoreUrgent(s, s.threads[s.current.t].prio)
  }

  function Rotate<T>(q: seq<T>): seq<T> {
    if q == [] then [] else q[1..] + [q[0]]
  }

  /** One yield rotates the threads that share the processor by one. */
  lemma YieldRotates(s: State)
    requires Sharable(s)
    ensures Sharable(Yielded(s)) && Sharing(Yielded(s)) == Rotate(Sharing(s))
    ensures Yielded(s).threads.Keys == s.threads.Keys
  {
    hide AtMost, Core, Inv, MostUrgent, Queue;
    var cur := s.current.t;
    var p := s.threads[cur].prio;
    YieldInv(s);
    var y := WithYield(s, cur, true);
    SameQueues(s, cur, true);
    ScheduledInv(y);
    CurrentIsMostUrgent(y);
    if y.ix.group == 0 {
      NobodyReadyInv(y);
      assert Sharing(s) == [cur];
    } else {
      MostUrgentInv(y);
      var m := MostUrgent(y);
      Urgency(p, m, p);
      if Stays(y, m) {
        StayedQueues(y);
        assert Queue(s, p) == [];
        YieldStays(y);
      } else {
        assert m == p;
        YieldSwitches(y, p);
      }
    }
  }

  lemma SameQueues(s: State, t: Tid, y: bool)
    requires t in s.threads
    ensures forall q: bv8 :: Queue(WithYield(s, t, y), q) == Queue(s, q)
  {}

  lemma YieldStays(s: State)
    requires Inv(s) && s.current.Is? && s.current.t in s.threads && s.threads[s.current.t].stat == Running
    requires Queue(s, s.threads[s.current.t].prio) == []
    ensures Known(WithYield(s, s.current.t, false), s.current.t)
    ensures var u := Detached(WithYield(s, s.current.t, false), s.current.t, Running);
      u.current == s.current && u.lock == s.lock && u.threads.Keys == s.threads.Keys && Sharing(u) == [s.current.t]
  {
    hide AtMost, Inv, Minus, ClearBits, Queue, Known;
    StayedQueues(s);
  }

  lemma YieldSwitches(s: State, p: bv8)
    requires Inv(s) && s.current.Is? && s.current.t in s.threads && s.threads[s.current.t].stat == Running
    requires s.threads[s.current.t].prio == p && Queue(s, p) != []
    ensures SwitchKnown(s, Queue(s, p)[0])
    ensures var u := Switched(s, Queue(s, p)[0]);
      u.current.Is? && u.lock == s.lock && u.threads.Keys == s.threads.Keys && u.current.t in u.threads
      && Sharing(u) == Rotate([s.current.t] + Queue(s, p))
  {
    hide AtMost, Inv, Minus, ClearBits, Queue, Known, Leaving, SetBits;
    SwitchedQueues(s, p);
    HeadReady(s, p);
    var to := Queue(s, p)[0];
    LeavingCore(s, to);
    LeavingKeys(s, to);
    var u := Switched(s, to);
    assert u.threads[to].prio == p;
    assert Queue(u, p) == Queue(s, p)[1..] + [s.current.t];
  }

  lemma LeavingKeys(s: State, to: Tid)
    requires Inv(s) && s.current.Is? && to in s.threads
    ensures Known(s, s.current.t) && Leaving(s, to).threads.Keys == s.threads.Keys
  {
    hide Core, SetBits;
    CurrentKnown(s);
  }

  /** Every running thread yields at once. */
  ghost predicate IsYieldRun(ss: seq<State>) {
    ss != [] && Sharable(ss[0]) && forall i, j :: 0 <= i && j == i + 1 && j < |ss| ==> YieldStep(ss[i], ss[j])
  }

  ghost predicate YieldStep(s: State, s': State) {
    Sharable(s) ==> s' == Yielded(s)
  }

  function Turned<T>(q: seq<T>, n: nat): seq<T> {
    if n == 0 then q else Rotate(Turned(q, n - 1))
  }

  lemma {:induction false} TurnedAt<T>(q: seq<T>, n: nat)
    requires n <= |q|
    ensures Turned(q, n) == q[n..] + q[..n]
  {
    if n > 0 {
      TurnedAt(q, n - 1);
      var r := q[n - 1..] + q[..n - 1];
      assert r[0] == q[n - 1];
      assert r[1..] == q[n..] + q[..n - 1];
      assert q[..n] == q[..n - 1] + [q[n - 1]];
    }
  }

  lemma {:induction false} TurnedSum<T>(q: seq<T>, m: nat, n: nat)
    ensures Turned(Turned(q, m), n) == Turned(q, m + n)
  {
    if n > 0 { TurnedSum(q, m, n - 1); }
  }

  lemma {:induction false} YieldRunRotates(ss: seq<State>, n: nat)
    requires IsYieldRun(ss) && n < |ss|
    ensures Sharable(ss[n]) && Sharing(ss[n]) == Turned(Sharing(ss[0]), n)
  {
    hide Sharable, Inv, Sharing, Yielded, Rotate;
    SharableHas(ss[0]);
    if n > 0 {
      YieldRunRotates(ss, n - 1);
      var i := n - 1;
      SharableHas(ss[i]);
      assert YieldStep(ss[i], ss[n]);
      YieldRotates(ss[i]);
    }
  }

  lemma SharableHas(s: State)
    requires Sharable(s)
    ensures Inv(s) && s.current.Is? && s.current.t in s.threads && |Sharing(s)| > 0 && Sharing(s)[0] == s.current.t
  {}

  /** Of any k consecutive schedules each of the k threads gets exactly one, and the cyclic order comes back. */
  lemma RoundRobin(ss: seq<State>, n: nat, i: nat)
    requires IsYieldRun(ss)
    requires var k := |Sharing(ss[0])|; n + k < |ss| && i < k
    ensures var k := |Sharing(ss[0])|;
      && Sharable(ss[n]) && Sharable(ss[n + i]) && Sharable(ss[n + k])
      && |Sharing(ss[n])| == k && Distinct(Sharing(ss[n])) && ss[n + i].current == Is(Sharing(ss[n])[i])
      && Sharing(ss[n + k]) == Sharing(ss[n])
  {
    hide Sharable, Inv, Yielded, Sharing, Turned;
    SharableHas(ss[0]);
    var q := Sharing(ss[0]);
    var k := |q|;
    YieldRunRotates(ss, n);
    YieldRunRotates(ss, n + i);
    YieldRunRotates(ss, n + k);
    var r := Turned(q, n);
    TurnedLength(q, n);
    TurnedSum(q, n, i);
    TurnedSum(q, n, k);
    TurnedAt(r, i);
    TurnedAt(r, k);
    SharableHas(ss[n + i]);
    SharingDistinct(ss[n]);
    hide Distinct;
  }

  lemma SharingDistinct(s: State)
    requires Sharable(s)
    ensures Distinct(Sharing(s))
  {
    hide AtMost, HasLists, Indexed, Masked, Timed, Queue, NoneMoreUrgent;
    var q := Queue(s, s.threads[s.current.t].prio);
    assert s.current.t !in q;
  }

  lemma {:induction false} TurnedLength<T>(q: seq<T>, n: nat)
    ensures |Turned(q, n)| == |q|
  {
    if n > 0 { TurnedLength(q, n - 1); }
  }

  // ---- the thread operations -------------------------------------------------------------------------

  /** rt_thread_startup up to its call of rt_schedule. */
  function Started(s: State, t: Tid): State
    requires Core(s) && t in s.threads && s.threads[t].stat == Init
  {
    StartedKnown(s, t);
    Attached(Prepared(s, t), t)
  }

  /** The thread takes its initial priority and counts as suspended. */
  function Prepared(s: State, t: Tid): State
    requires t in s.threads
  {
    var p := s.threads[t].init;
    WithThread(s, t, Thread(Suspended, false, p, p, MasksAt(s, p))).(timers := s.timers - {t})
  }

  /** The locked part of rt_thread_suspend. */
  function Paused(s: State, t: Tid): State
    requires Core(s) && t in s.threads && s.threads[t].stat != Init
  {
    KnownStarted(s, t);
    Detached(s, t, Suspended).(timers := s.timers - {t})
  }

  /** rt_thread_sleep, and every wait with a timeout: suspend the current thread and start its timer. */
  function Slept(s: State): State
    requires Core(s) && s.current.Is? && s.current.t in s.threads && s.threads[s.current.t].stat != Init
  {
    var t := s.current.t;
    var u := if s.threads[t].stat == Ready || s.threads[t].stat == Running then Paused(s, t) else s;
    u.(timers := u.timers + {t})
  }

  /** The locked part of rt_thread_resume, and of rt_thread_timeout. */
  function Woken(s: State, t: Tid): State
    requires Core(s) && t in s.threads && s.threads[t].stat == Suspended
  {
    UntimedCore(s, t);
    KnownStarted(s.(timers := s.timers - {t}), t);
    Attached(s.(timers := s.timers - {t}), t)
  }

  /** rt_thread_suspend: an error, and no change, unless the thread is ready or running. */
  function SuspendCall(s: State, t: Tid): State
    requires Core(s) && t in s.threads
  {
    if s.threads[t].stat == Ready || s.threads[t].stat == Running then Paused(s, t) else s
  }

  /** rt_thread_resume: an error, and no change, unless the thread is suspended. */
  function ResumeCall(s: State, t: Tid): State
    requires Core(s) && t in s.threads
  {
    if s.threads[t].stat == Suspended then Woken(s, t) else s
  }

  function Reprioritised(s: State, th: Thread, p: bv8): Thread {
    th.(prio := p, masks := MasksAt(s, p))
  }

  /** RT_THREAD_CTRL_CHANGE_PRIORITY */
  function Changed(s: State, t: Tid, p: bv8): State
    requires Core(s) && t in s.threads && AtMost(p, s.last)
  {
    if s.threads[t].stat == Ready then
      ReadyMovable(s, t, p);
      Attached(Moved(s, t, p), t)
    else WithThread(s, t, Reprioritised(s, s.threads[t], p))
  }

  /** A ready thread between its two ready lists. */
  function Moved(s: State, t: Tid, p: bv8): State
    requires Known(s, t)
  {
    WithThread(Unlinked(s, t), t, Reprioritised(s, s.threads[t].(stat := Suspended), p))
  }

  /** _thread_exit up to its call of rt_schedule. */
  function Exited(s: State): State
    requires Core(s) && s.current.Is? && s.current.t in s.threads && s.threads[s.current.t].stat != Init
  {
    var t := s.current.t;
    UntimedCore(s, t);
    KnownStarted(s.(timers := s.timers - {t}), t);
    var u := Detached(s.(timers := s.timers - {t}), t, Closed);
    WithYield(u, t, false)
  }

  /** rt_system_scheduler_start */
  function Begun(s: State): State
    requires Core(s) && s.ix.group != 0
  {
    MostUrgentIsMin(s);
    var t := Queue(s, MostUrgent(s))[0];
    HeadKnown(s, MostUrgent(s));
    WithYield(Detached(s.(current := Is(t)), t, Running), t, false)
  }

  lemma UntimedCore(s: State, t: Tid)
    requires Core(s)
    ensures Core(s.(timers := s.timers - {t}))
  {
    hide AtMost, Below32, MasksOf, Ok, Has, Distinct;
    var s' := s.(timers := s.timers - {t});
    assert forall q: bv8 :: Queue(s', q) == Queue(s, q);
    hide Queue;
  }

  lemma TimerCore(s: State, t: Tid)
    requires Core(s) && t in s.threads && s.threads[t].stat == Suspended
    ensures Core(s.(timers := s.timers + {t}))
  {
    hide AtMost, Below32, MasksOf, Ok, Has, Distinct;
    var s' := s.(timers := s.timers + {t});
    assert forall q: bv8 :: Queue(s', q) == Queue(s, q);
    hide Queue;
  }

  lemma PreparedCore(s: State, t: Tid)
    requires Core(s) && t in s.threads && s.threads[t].stat == Init
    ensures Core(Prepared(s, t)) && t !in Prepared(s, t).timers
  {
    ThreadLegal(s, t);
    UntimedCore(s, t);
    hide Core, MasksAt;
    var u := s.(timers := s.timers - {t});
    assert MasksAt(u, s.threads[t].init) == MasksAt(s, s.threads[t].init) by { SameMasks(s, u, s.threads[t].init); }
    ThreadCore(u, t, Prepared(s, t).threads[t]);
  }

  lemma SameMasks(s: State, u: State, p: bv8)
    requires u.ix.wide == s.ix.wide
    ensures MasksAt(u, p) == MasksAt(s, p)
  {}

  lemma StartedKnown(s: State, t: Tid)
    requires Core(s) && t in s.threads && s.threads[t].stat == Init
    ensures Known(Prepared(s, t), t)
  {
    hide Core, Known;
    PreparedCore(s, t);
    KnownStarted(Prepared(s, t), t);
  }

  lemma ReadyMovable(s: State, t: Tid, p: bv8)
    requires Core(s) && t in s.threads && s.threads[t].stat == Ready && AtMost(p, s.last)
    ensures Known(s, t) && Core(Moved(s, t, p)) && Known(Moved(s, t, p), t)
  {
    hide Core, AtMost, MasksAt;
    KnownStarted(s, t);
    NotTimed(s, t);
    ThreadLegal(s, t);
    DetachedCore(s, t, Suspended);
    var u := Detached(s, t, Suspended);
    var th := Reprioritised(s, s.threads[t].(stat := Suspended), p);
    hide Known, Minus, ClearBits;
    DetachedRest(s, t);
    SameMasks(s, u, p);
    ThreadCore(u, t, th);
    assert Moved(s, t, p) == WithThread(u, t, th);
    KnownStarted(Moved(s, t, p), t);
  }

  lemma DetachedRest(s: State, t: Tid)
    requires Known(s, t)
    ensures Unlinked(s, t).ix.wide == s.ix.wide && Unlinked(s, t).last == s.last
    ensures Unlinked(s, t).current == s.current && Unlinked(s, t).timers == s.timers && Unlinked(s, t).threads == s.threads && Unlinked(s, t).lock == s.lock
  {}

  lemma HeadKnown(s: State, p: bv8)
    requires Core(s) && Queue(s, p) != []
    ensures var t := Queue(s, p)[0];
      t in s.threads && s.threads[t].stat == Ready && t !in s.timers && Known(s.(current := Is(t)), t)
  {
    hide AtMost, Below32, MasksOf, Indexed, HasLists, Masked, Distinct;
    var t := Queue(s, p)[0];
    assert t in Queue(s, p);
    CurrentOnly(s, Is(t));
    KnownStarted(s.(current := Is(t)), t);
  }

  // ---- every operation keeps the invariant -------------------------------------------------------------

  lemma AttachedInv(s: State, t: Tid)
    requires Inv(s) && t in s.threads && s.threads[t].stat == Suspended && t !in s.timers
    ensures Known(s, t) && Inv(Attached(s, t))
  {
    hide Core, Known, SetBits;
    AttachedCore(s, t);
  }

  lemma StartedInv(s: State, t: Tid)
    requires Inv(s) && t in s.threads && s.threads[t].stat == Init
    ensures Inv(Started(s, t))
  {
    hide Core, Known, Attached;
    PreparedCore(s, t);
    StartedKnown(s, t);
    AttachedInv(Prepared(s, t), t);
  }

  lemma WokenInv(s: State, t: Tid)
    requires Inv(s) && t in s.threads && s.threads[t].stat == Suspended
    ensures Inv(Woken(s, t))
  {
    hide Core, Known, Attached;
    UntimedCore(s, t);
    AttachedInv(s.(timers := s.timers - {t}), t);
  }

  lemma PausedInv(s: State, t: Tid)
    requires Inv(s) && t in s.threads && s.threads[t].stat != Init
    ensures Inv(Paused(s, t)) && t in Paused(s, t).threads && Paused(s, t).threads[t].stat == Suspended
    ensures Paused(s, t).current == s.current
  {
    hide Core, Known, Minus, ClearBits;
    KnownStarted(s, t);
    DetachedCore(s, t, Suspended);
    DetachedRest(s, t);
    UntimedCore(Detached(s, t, Suspended), t);
  }

  lemma SleptInv(s: State)
    requires Inv(s) && s.current.Is? && (s.threads[s.current.t].stat == Running || s.threads[s.current.t].stat == Suspended)
    ensures Inv(Slept(s))
  {
    hide Core, Paused;
    var t := s.current.t;
    if s.threads[t].stat == Running {
      PausedInv(s, t);
      TimerCore(Paused(s, t), t);
    } else {
      TimerCore(s, t);
    }
  }

  lemma ChangedInv(s: State, t: Tid, p: bv8)
    requires Inv(s) && t in s.threads && AtMost(p, s.last)
    ensures Inv(Changed(s, t, p))
  {
    hide Core, Known, MasksAt, Minus, ClearBits, SetBits, AtMost;
    if s.threads[t].stat == Ready {
      ReadyMovable(s, t, p);
      var u := Moved(s, t, p);
      MovedRest(s, t, p);
      AttachedInv(u, t);
    } else {
      ThreadLegal(s, t);
      TimedSuspended(s, t);
      ThreadCore(s, t, Reprioritised(s, s.threads[t], p));
    }
  }

  lemma MovedRest(s: State, t: Tid, p: bv8)
    requires Inv(s) && t in s.threads && s.threads[t].stat == Ready && Known(s, t)
    ensures CurrentOk(Moved(s, t, p)) && t !in Moved(s, t, p).timers
  {
    hide Core, Minus, ClearBits, MasksAt;
    DetachedRest(s, t);
    NotTimed(s, t);
  }

  lemma ExitedInv(s: State)
    requires Inv(s) && s.current.Is?
    ensures Inv(Exited(s))
  {
    hide Core, Known, Minus, ClearBits;
    var t := s.current.t;
    var v := s.(timers := s.timers - {t});
    UntimedCore(s, t);
    KnownStarted(v, t);
    DetachedCore(v, t, Closed);
    DetachedRest(v, t);
    var u := Detached(v, t, Closed);
    YieldCore(u, t, false, u.current);
  }

  lemma BegunInv(s: State)
    requires Inv(s) && s.current == Nobody && s.ix.group != 0
    ensures Inv(Begun(s)) && Begun(s).current.Is?
  {
    hide Core, Known, Minus, ClearBits, Queue, MostUrgent;
    MostUrgentInv(s);
    HeadKnown(s, MostUrgent(s));
    var t := Queue(s, MostUrgent(s))[0];
    var c := s.(current := Is(t));
    CurrentOnly(s, Is(t));
    DetachedCore(c, t, Running);
    DetachedRest(c, t);
    var u := Detached(c, t, Running);
    YieldCore(u, t, false, u.current);
  }

  // ---- what the operations do to the threads -------------------------------------------------------------

  /** All threads but `t` are as they were. */
  ghost predicate OthersSame(s: State, u: State, t: Tid) {
    u.threads.Keys == s.threads.Keys && forall x :: x in s.threads && x != t ==> u.threads[x] == s.threads[x]
  }

  /** Only thread `t` has changed, and it is `th` now. */
  ghost predicate OnlyThread(s: State, u: State, t: Tid, th: Thread) {
    OthersSame(s, u, t) && t in u.threads && u.threads[t] == th && u.current == s.current && u.lock == s.lock
  }

  /** The ready lists, with `t` appended to the list of `p`. */
  ghost predicate Joins(s: State, u: State, t: Tid, p: bv8) {
    forall q: bv8 :: Queue(u, q) == if q == p then Queue(s, q) + [t] else Queue(s, q)
  }

  ghost predicate SameLists(s: State, u: State) {
    forall q: bv8 :: Queue(u, q) == Queue(s, q)
  }

  /** The ready lists, with `t` taken out. */
  ghost predicate Quits(s: State, u: State, t: Tid) {
    forall q: bv8 :: Queue(u, q) == if t in Queue(s, q) then Minus(Queue(s, q), t) else Queue(s, q)
  }

  /** A started thread is ready at its initial priority and last in the list of it; its timer stops. */
  lemma StartedEffect(s: State, t: Tid)
    requires Inv(s) && t in s.threads && s.threads[t].stat == Init
    ensures Does(s, Startup(t)) == Started(s, t)
    ensures var u, p := Started(s, t), s.threads[t].init;
      && (s.ix.wide || Below32(p)) && OnlyThread(s, u, t, Thread(Ready, false, p, p, MasksOf(s.ix.wide, p)))
      && u.timers == s.timers - {t} && Joins(s, u, t, p)
  {
    StartedKnown(s, t);
    ThreadLegal(s, t);
    InvLegal(s, s.threads[t].init);
    NotCurrent(s, t);
    var v := Prepared(s, t);
    AttachedQueues(v, t);
    assert SameLists(s, v);
    hide Core, Known, SetBits, Queue, AtMost, Below32, MasksOf;
  }

  lemma InvLegal(s: State, p: bv8)
    requires Core(s) && AtMost(p, s.last)
    ensures s.ix.wide || Below32(p)
  {}

  lemma NotCurrent(s: State, t: Tid)
    requires Inv(s) && t in s.threads && s.threads[t].stat == Init
    ensures s.current != Is(t)
  {
    hide Core;
  }

  /** A woken thread is ready and last in the list of its priority, or running if it is the current one; its timer stops. */
  lemma WokenEffect(s: State, t: Tid)
    requires Inv(s) && t in s.threads && s.threads[t].stat == Suspended
    ensures t in s.timers ==> Does(s, Timeout(t)) == Woken(s, t)
    ensures var u := Woken(s, t);
      && OnlyThread(s, u, t, s.threads[t].(stat := if s.current == Is(t) then Running else Ready)) && u.timers == s.timers - {t}
      && (s.current != Is(t) ==> Joins(s, u, t, s.threads[t].prio)) && (s.current == Is(t) ==> SameLists(s, u))
  {
    UntimedCore(s, t);
    var v := s.(timers := s.timers - {t});
    KnownStarted(v, t);
    if s.current != Is(t) { AttachedQueues(v, t); }
    assert SameLists(s, v);
    hide Core, Known, SetBits;
  }

  /** A suspended thread leaves its ready list, and its timer stops. */
  lemma PausedEffect(s: State, t: Tid)
    requires Inv(s) && t in s.threads && s.threads[t].stat != Init
    ensures var u := Paused(s, t);
      OnlyThread(s, u, t, s.threads[t].(stat := Suspended)) && u.timers == s.timers - {t} && Quits(s, u, t)
  {
    KnownStarted(s, t);
    DetachedRest(s, t);
    DetachedQuits(s, t, Suspended);
    assert SameLists(Detached(s, t, Suspended), Paused(s, t));
    hide Core, Known, Unlinked, Queue, Minus;
  }

  lemma DetachedQuits(s: State, t: Tid, stat: Stat)
    requires Core(s) && Known(s, t)
    ensures Quits(s, Detached(s, t, stat), t)
  {
    hide HasLists, Indexed, Masked, Timed, Minus, ClearBits;
    DetachedQueues(s, t, stat);
    forall q: bv8 | q == s.threads[t].prio && t !in Queue(s, q)
      ensures Minus(Queue(s, q), t) == Queue(s, q)
    {
      MinusMembers(Queue(s, q), t);
    }
  }

  /** Sleeping and timed waiting suspend the current thread with its timer running. */
  lemma SleptEffect(s: State)
    requires Inv(s) && s.current.Is? && s.threads[s.current.t].stat == Running
    ensures s.current.t in s.threads && Does(s, Sleep) == Slept(s)
    ensures var t := s.current.t;
      var u := Slept(s);
      OnlyThread(s, u, t, s.threads[t].(stat := Suspended)) && t in u.timers && u.timers == s.timers + {t} && Quits(s, u, t)
  {
    PausedEffect(s, s.current.t);
    NotTimed(s, s.current.t);
    assert SameLists(Paused(s, s.current.t), Slept(s));
    hide Core, Paused, Queue, Minus;
  }

  /** rt_thread_suspend acts exactly on a ready or running thread, rt_thread_resume exactly on a suspended one; otherwise nothing changes. */
  lemma CallsAct(s: State, t: Tid)
    requires Inv(s) && t in s.threads
    ensures Does(s, Suspend(t)) == SuspendCall(s, t) && Does(s, Resume(t)) == ResumeCall(s, t)
    ensures var u := SuspendCall(s, t);
      if s.threads[t].stat == Ready || s.threads[t].stat == Running
      then OnlyThread(s, u, t, s.threads[t].(stat := Suspended)) && u.timers == s.timers - {t} && Quits(s, u, t)
      else u == s
    ensures var u := ResumeCall(s, t);
      if s.threads[t].stat == Suspended
      then OnlyThread(s, u, t, s.threads[t].(stat := if s.current == Is(t) then Running else Ready)) && u.timers == s.timers - {t}
      else u == s
  {
    hide Inv, Core, Paused, Woken, OnlyThread, Quits;
    CoreOf(s);
    if s.threads[t].stat == Ready || s.threads[t].stat == Running { PausedEffect(s, t); }
    if s.threads[t].stat == Suspended { WokenEffect(s, t); }
  }

  lemma CoreOf(s: State)
    requires Inv(s)
    ensures Core(s)
  {}

  /** A priority change gives the thread its new priority and masks, keeps its state, and moves a ready thread to the end of the new list. */
  lemma ChangedEffect(s: State, t: Tid, p: bv8)
    requires Inv(s) && t in s.threads && AtMost(p, s.last)
    ensures (s.ix.wide || Below32(p)) && Does(s, ChangePriority(t, p)) == Changed(s, t, p)
    ensures var u, th := Changed(s, t, p), s.threads[t];
      && OnlyThread(s, u, t, Thread(th.stat, th.yielding, p, th.init, MasksOf(s.ix.wide, p))) && u.timers == s.timers
      && (th.stat != Ready ==> SameLists(s, u))
      && (th.stat == Ready ==> t in Queue(u, p) && forall q: bv8 ::
        Queue(u, q) == var rest := (if q == th.prio then Minus(Queue(s, q), t) else Queue(s, q)); if q == p then rest + [t] else rest)
  {
    hide Inv, Core, AtMost, Below32, MasksOf, Queue, Minus, Changed, OnlyThread;
    CoreOf(s);
    InvLegal(s, p);
    if s.threads[t].stat == Ready {
      ChangedReady(s, t, p);
      ChangedQueues(s, t, p);
    } else {
      ChangedOther(s, t, p);
    }
  }

  lemma ChangedReady(s: State, t: Tid, p: bv8)
    requires Inv(s) && t in s.threads && s.threads[t].stat == Ready && AtMost(p, s.last) && (s.ix.wide || Below32(p))
    ensures var u, th := Changed(s, t, p), s.threads[t];
      OnlyThread(s, u, t, Thread(th.stat, th.yielding, p, th.init, MasksOf(s.ix.wide, p))) && u.timers == s.timers
  {
    hide Core, AtMost, Below32, MasksOf, Known, Unlinked, SetBits;
    ReadyNotCurrent(s, t);
    ReadyMovable(s, t, p);
    DetachedRest(s, t);
  }

  lemma ChangedOther(s: State, t: Tid, p: bv8)
    requires Inv(s) && t in s.threads && s.threads[t].stat != Ready && AtMost(p, s.last) && (s.ix.wide || Below32(p))
    ensures var u, th := Changed(s, t, p), s.threads[t];
      OnlyThread(s, u, t, Thread(th.stat, th.yielding, p, th.init, MasksOf(s.ix.wide, p))) && u.timers == s.timers && SameLists(s, u)
  {
    hide Core, AtMost, Below32, MasksOf;
  }

  lemma ChangedQueues(s: State, t: Tid, p: bv8)
    requires Inv(s) && t in s.threads && s.threads[t].stat == Ready && AtMost(p, s.last)
    ensures var u, th := Changed(s, t, p), s.threads[t];
      t in Queue(u, p) && forall q: bv8 ::
        Queue(u, q) == var rest := (if q == th.prio then Minus(Queue(s, q), t) else Queue(s, q)); if q == p then rest + [t] else rest
  {
    hide AtMost, Core, CurrentOk, MasksAt, SetBits, ClearBits, Minus, Queue, Attached, Known;
    ReadyNotCurrent(s, t);
    ReadyMovable(s, t, p);
    MovedQueues(s, t, p);
    DetachedRest(s, t);
    AttachedQueues(Moved(s, t, p), t);
    assert t in Queue(Changed(s, t, p), p);
  }

  lemma MovedQueues(s: State, t: Tid, p: bv8)
    requires Known(s, t)
    ensures forall q: bv8 :: Queue(Moved(s, t, p), q) == (if q == s.threads[t].prio then Minus(Queue(s, q), t) else Queue(s, q))
  {
    hide ClearBits, Minus, MasksAt;
  }

  /** An exiting thread is closed, in no ready list, without a timer. */
  lemma ExitedEffect(s: State)
    requires Inv(s) && s.current.Is? && s.current.t in s.threads && s.threads[s.current.t].stat != Init
    ensures Does(s, Exit) == Exited(s)
    ensures var u, t := Exited(s), s.current.t;
      OnlyThread(s, u, t, s.threads[t].(stat := Closed, yielding := false)) && u.timers == s.timers - {t} && Quits(s, u, t)
  {
    var t := s.current.t;
    var v := s.(timers := s.timers - {t});
    UntimedCore(s, t);
    KnownStarted(v, t);
    DetachedRest(v, t);
    DetachedQuits(v, t, Closed);
    assert SameLists(s, v);
    assert SameLists(Detached(v, t, Closed), Exited(s));
    hide Core, Known, Unlinked, Queue, Minus;
  }

  /** The start of the scheduler makes the first of the most urgent threads the running one. */
  lemma BegunEffect(s: State, p: bv8)
    requires Inv(s) && s.current == Nobody && s.ix.group != 0 && Queue(s, p) != [] && NoneMoreUrgent(s, p)
    ensures Does(s, Begin) == Begun(s)
    ensures var u, t := Begun(s), Queue(s, p)[0];
      && t in s.threads && OthersSame(s, u, t) && u.current == Is(t) && u.timers == s.timers && u.lock == s.lock
      && u.threads[t] == s.threads[t].(stat := Running, yielding := false) && Quits(s, u, t)
  {
    hide Inv, Core, AtMost, Minus, ClearBits, Queue, MostUrgent, Known, Unlinked;
    CoreOf(s);
    MostUrgentInv(s);
    Urgent(p, MostUrgent(s));
    HeadKnown(s, p);
    var t := Queue(s, p)[0];
    var c := s.(current := Is(t));
    CurrentOnly(s, Is(t));
    DetachedRest(c, t);
    DetachedQuits(c, t, Running);
    SameListsOf(s, c);
    SameListsOf(Detached(c, t, Running), Begun(s));
  }

  lemma SameListsOf(s: State, u: State)
    requires u.lists == s.lists
    ensures SameLists(s, u)
  {}

  lemma Urgent(p: bv8, q: bv8)
    ensures AtMost(p, q) && AtMost(q, p) ==> p == q
  {}

  /** The ready lists: `from`, if it was running, joins the end of its list, then the head of list `p` leaves. */
  ghost predicate HandsOver(s: State, u: State, from: Tid, c: Thread, p: bv8) {
    forall q: bv8 ::
      var joined := if c.stat == Running && c.prio == q then Queue(s, q) + [from] else Queue(s, q);
      Queue(u, q) == if q == p && joined != [] then joined[1..] else joined
  }

  /**
   rt_schedule, told by the state before, `p` being the most urgent ready priority: a running thread that
   is more urgent, or as urgent and has not yielded, stays; otherwise the head of list `p` runs.
   */
  lemma ScheduleOutcome(s: State, p: bv8)
    requires Inv(s) && s.current.Is? && s.lock == 0 && Queue(s, p) != [] && NoneMoreUrgent(s, p)
    ensures s.current.t in s.threads && Does(s, Schedule) == Scheduled(s)
    ensures var u, from, to := Scheduled(s), s.current.t, Queue(s, p)[0];
      var c := s.threads[from];
      if c.stat == Running && (!AtMost(p, c.prio) || (c.prio == p && !c.yielding)) then
        OnlyThread(s, u, from, c.(yielding := false)) && u.timers == s.timers && SameLists(s, u)
      else
        && to in s.threads && to != from && u.current == Is(to) && u.timers == s.timers && u.lock == s.lock
        && u.threads == s.threads[from := if c.stat == Running then c.(stat := Ready, yielding := false) else c][to := s.threads[to].(stat := Running)]
        && HandsOver(s, u, from, c, p)
  {
    hide Inv, AtMost, Queue, Minus, ClearBits, SetBits, Stays, Chosen;
    CurrentExists(s);
    SomebodyReady(s, p);
    MostUrgentInv(s);
    Urgent(p, MostUrgent(s));
    if Stays(s, p) {
      StayedEffect(s, p);
    } else {
      SwitchedEffect(s, p);
    }
    StaysIs(s, p);
  }

  lemma StaysIs(s: State, p: bv8)
    requires s.current.Is? && s.current.t in s.threads
    ensures var c := s.threads[s.current.t];
      Stays(s, p) <==> c.stat == Running && (!AtMost(p, c.prio) || (c.prio == p && !c.yielding))
  {}

  lemma SomebodyReady(s: State, p: bv8)
    requires Inv(s) && Queue(s, p) != []
    ensures s.ix.group != 0
  {
    hide AtMost, Queue, Core;
    if s.ix.group == 0 { NobodyReadyInv(s); }
  }

  lemma StayedEffect(s: State, p: bv8)
    requires Inv(s) && s.current.Is? && s.current.t in s.threads && s.ix.group != 0
    requires s.ix.wide ==> Level(First32(s.ix.group)) in s.ix.table
    requires p == MostUrgent(s) && Stays(s, p)
    ensures var u, from := Chosen(s), s.current.t;
      OnlyThread(s, u, from, s.threads[from].(yielding := false)) && u.timers == s.timers && SameLists(s, u)
  {
    StayedQueues(s);
    DetachedRest(WithYield(s, s.current.t, false), s.current.t);
    hide Inv, Core, Known, Unlinked, Queue, AtMost, MostUrgent, Minus;
  }

  lemma SwitchedEffect(s: State, p: bv8)
    requires Inv(s) && s.current.Is? && s.current.t in s.threads && s.ix.group != 0
    requires s.ix.wide ==> Level(First32(s.ix.group)) in s.ix.table
    requires p == MostUrgent(s) && !Stays(s, p) && Queue(s, p) != []
    ensures var u, from, to := Chosen(s), s.current.t, Queue(s, p)[0];
      var c := s.threads[from];
      && to in s.threads && to != from && u.current == Is(to) && u.timers == s.timers && u.lock == s.lock
      && u.threads == s.threads[from := if c.stat == Running then c.(stat := Ready, yielding := false) else c][to := s.threads[to].(stat := Running)]
      && HandsOver(s, u, from, c, p)
  {
    hide Inv, Core, Queue, AtMost, MostUrgent, Minus, ClearBits, SetBits, Known, Stays;
    SwitchIsKnown(s, p);
    HeadReady(s, p);
    DetachedRest(Leaving(s, Queue(s, p)[0]), Queue(s, p)[0]);
    SwitchedQueues(s, p);
  }

  lemma ReadyNotCurrent(s: State, t: Tid)
    requires Inv(s) && t in s.threads && s.threads[t].stat == Ready
    ensures s.current != Is(t)
  {
    hide Core;
  }

  // ---- all runs --------------------------------------------------------------------------------------

  datatype Action =
    | Startup(t: Tid) | Suspend(t: Tid) | Sleep | Resume(t: Tid) | Timeout(t: Tid) | ChangePriority(t: Tid, p: bv8)
    | Schedule | Yield | Exit | Begin | EnterCritical | ExitCritical

  ghost predicate Can(s: State, a: Action) {
    match a
    case Startup(t) => t in s.threads && s.threads[t].stat == Init
    case Suspend(t) => t in s.threads
    case Sleep => s.current.Is? && s.current.t in s.threads && (s.threads[s.current.t].stat == Running || s.threads[s.current.t].stat == Suspended)
    case Resume(t) => t in s.threads
    case Timeout(t) => t in s.timers
    case ChangePriority(t, p) => t in s.threads && AtMost(p, s.last)
    case Schedule => s.current.Is?
    case Yield => s.current.Is?
    case Exit => s.current.Is?
    case Begin => s.current == Nobody && s.ix.group != 0
    case EnterCritical => true
    case ExitCritical => true
  }

  ghost function Does(s: State, a: Action): State
    requires Inv(s) && Can(s, a)
  {
    match a
    case Startup(t) => Started(s, t)
    case Suspend(t) => SuspendCall(s, t)
    case Sleep => Slept(s)
    case Resume(t) => ResumeCall(s, t)
    case Timeout(t) => TimerMeansSuspended(s, t); Woken(s, t)
    case ChangePriority(t, p) => Changed(s, t, p)
    case Schedule => Scheduled(s)
    case Yield => Yielded(s)
    case Exit => CurrentKnown(s); Exited(s)
    case Begin => Begun(s)
    case EnterCritical => s.(lock := s.lock + 1)
    case ExitCritical => s.(lock := if s.lock == 0 then 0 else s.lock - 1)
  }

  /** The assertion at thread.c:873 holds: an expiring thread timer finds its thread suspended. */
  lemma TimerMeansSuspended(s: State, t: Tid)
    requires Inv(s) && t in s.timers
    ensures t in s.threads && s.threads[t].stat == Suspended
  {
    hide HasLists, Linked, Indexed, Masked;
  }

  lemma LockInv(s: State, n: nat)
    requires Inv(s)
    ensures Inv(s.(lock := n))
  {
    hide AtMost, Below32, MasksOf, Ok, Has, Distinct;
    var s' := s.(lock := n);
    assert forall q: bv8 :: Queue(s', q) == Queue(s, q);
    hide Queue;
  }

  lemma StepInv(s: State, a: Action)
    requires Inv(s) && Can(s, a)
    ensures Inv(Does(s, a))
  {
    hide Inv, Started, Paused, Slept, Woken, Changed, Scheduled, Exited, Begun, AtMost;
    match a
    case Startup(t) => StartedInv(s, t);
    case Suspend(t) => if s.threads[t].stat == Ready || s.threads[t].stat == Running { PausedInv(s, t); }
    case Sleep => SleptInv(s);
    case Resume(t) => if s.threads[t].stat == Suspended { WokenInv(s, t); }
    case Timeout(t) => TimerMeansSuspended(s, t); WokenInv(s, t);
    case ChangePriority(t, p) => ChangedInv(s, t, p);
    case Schedule => ScheduledInv(s);
    case Yield => YieldInv(s); ScheduledInv(WithYield(s, s.current.t, true));
    case Exit => CurrentExists(s); ExitedInv(s);
    case Begin => BegunInv(s);
    case EnterCritical => LockInv(s, s.lock + 1);
    case ExitCritical => LockInv(s, if s.lock == 0 then 0 else s.lock - 1);
  }

  ghost predicate Step(s: State, a: Action, s': State) {
    Inv(s) ==> Can(s, a) && s' == Does(s, a)
  }

  ghost predicate IsRun(ss: seq<State>, acts: seq<Action>) {
    && |ss| == |acts| + 1
    && Initial(ss[0])
    && forall i, j :: 0 <= i < |acts| && j == i + 1 ==> Step(ss[i], acts[i], ss[j])
  }

  /** Every reachable state satisfies the invariant. */
  lemma {:induction false} RunInv(ss: seq<State>, acts: seq<Action>, k: nat)
    requires IsRun(ss, acts) && k < |ss|
    ensures Inv(ss[k])
  {
    hide Inv, Does, Can, Initial;
    if k == 0 {
      InitialInv(ss[0]);
    } else {
      RunInv(ss, acts, k - 1);
      var i := k - 1;
      assert Step(ss[i], acts[i], ss[k]);
      StepInv(ss[k - 1], acts[k - 1]);
    }
  }
}
