/** The globals of scheduler.c and the thread records, with the operations that change them in place. */
module SchedulerObject {
  import opened IpcList
  import opened ReadyIndex
  import opened Scheduler

  class SchedulerObject {
    const last: bv8                          // RT_THREAD_PRIORITY_MAX - 1
    const wide: bool                         // RT_THREAD_PRIORITY_MAX > 32
    var threads: map<Tid, Thread>
    var lists: map<Level, seq<Tid>>          // rt_thread_priority_table
    var group: bv32                          // rt_thread_ready_priority_group
    var table: map<Level, bv8>               // rt_thread_ready_table
    var current: Current                     // rt_current_thread
    var timers: set<Tid>
    var lock: nat                            // rt_scheduler_lock_nest

    function View(): State
      reads this
    {
      State(last, threads, lists, Index(wide, group, table), current, timers, lock)
    }

    ghost predicate Valid()
      reads this
    {
      Inv(View())
    }

    /** rt_system_scheduler_init */
    constructor (last: bv8, wide: bool, threads: map<Tid, Thread>)
      requires wide || Below32(last)
      requires forall t :: t in threads ==> threads[t].stat == Init && AtMost(threads[t].init, last)
      ensures Valid() && Initial(View()) && this.last == last && this.wide == wide && this.threads == threads
    {
      this.last, this.wide, this.threads := last, wide, threads;
      current, timers, lock, group := Nobody, {}, 0, 0;
      lists, table := map[], map[];
      new;
      InitLists();
      InitTable();
      hide AtMost, Below32;
      InitialInv(View());
    }

    method InitLists()
      modifies this`lists
      ensures forall q: bv8 :: Level(q) in lists <==> AtMost(q, last)
      ensures forall q: bv8 :: Level(q) in lists ==> lists[Level(q)] == []
    {
      hide AtMost;
      var p: bv8 := 0;
      lists := map[Level(0) := []];
      ToZero();
      while p != last
        invariant AtMost(p, last)
        invariant forall q: bv8 :: Level(q) in lists <==> AtMost(q, p)
        invariant forall q: bv8 :: Level(q) in lists ==> lists[Level(q)] == []
        decreases Remaining(p)
      {
        Successor(p, last);
        p := Next(p);
        lists := lists[Level(p) := []];
      }
    }

    method InitTable()
      modifies this`table
      ensures forall n: bv8 :: Below32(n) ==> Level(n) in table && table[Level(n)] == 0
    {
      hide AtMost, Below32;
      var n: bv8 := 0;
      table := map[Level(0) := 0];
      ToZero();
      while n != 31
        invariant AtMost(n, 31)
        invariant forall q: bv8 :: AtMost(q, n) ==> Level(q) in table && table[Level(q)] == 0
        decreases Remaining(n)
      {
        Successor(n, 31);
        n := Next(n);
        table := table[Level(n) := 0];
      }
      forall q: bv8 | Below32(q)
        ensures AtMost(q, 31)
      {
        UpTo31(q);
      }
    }

    /** rt_schedule_insert_thread */
    method Insert(t: Tid)
      requires Known(View(), t)
      modifies this`threads, this`lists, this`group, this`table
      ensures View() == Attached(old(View()), t)
    {
      var th := threads[t];
      if current == Is(t) {
        threads := threads[t := th.(stat := Running)];
        return;
      }
      threads := threads[t := th.(stat := Ready)];
      lists := lists[Level(th.prio) := lists[Level(th.prio)] + [t]];
      if wide {
        var n := Level(th.masks.number);
        table := table[n := On8(table[n], th.masks.highMask)];
      }
      group := On32(group, th.masks.numberMask);
    }

    /** rt_schedule_remove_thread */
    method Remove(t: Tid)
      requires Known(View(), t)
      modifies this`lists, this`group, this`table
      ensures View() == Unlinked(old(View()), t)
    {
      var th := threads[t];
      var p := Level(th.prio);
      lists := lists[p := Minus(lists[p], t)];
      if lists[p] == [] {
        if wide {
          var n := Level(th.masks.number);
          table := table[n := Off8(table[n], th.masks.highMask)];
          if table[n] == 0 {
            group := Off32(group, th.masks.numberMask);
          }
        } else {
          group := Off32(group, th.masks.numberMask);
        }
      }
    }

    /** _scheduler_get_highest_priority_thread */
    method Pick() returns (t: Tid, p: bv8)
      requires Core(View()) && group != 0
      ensures View().ix.wide ==> Level(First32(View().ix.group)) in View().ix.table
      ensures p == MostUrgent(View()) && Queue(View(), p) != [] && t == Queue(View(), p)[0]
      ensures forall q: bv8 :: Queue(View(), q) != [] ==> AtMost(p, q)
    {
      hide Core, AtMost, First32, First8, Join;
      MostUrgentIsMin(View());
      var number := First32(group);
      if wide {
        p := Join(number, First8(table[Level(number)]));
      } else {
        p := number;
      }
      t := lists[Level(p)][0];
    }

    /** rt_schedule */
    method Schedule()
      requires Valid() && current.Is?
      modifies this
      ensures Valid() && View() == Scheduled(old(View()))
    {
      hide Inv, Core, MostUrgent, Known, AtMost, Attached, Unlinked, Queue, Highest;
      ghost var s := View();
      ScheduledInv(s);
      CurrentExists(s);
      if lock == 0 {
        if group != 0 {
          CoreOf(s);
          var to, p := Pick();
          var cur := current.t;
          SwitchIsKnown(s, p);
          CurrentKnown(s);
          var running := threads[cur].stat == Running;
          var stays := false;
          if running {
            stays := !AtMost(p, threads[cur].prio) || (threads[cur].prio == p && !threads[cur].yielding);
            threads := threads[cur := threads[cur].(yielding := false)];
          }
          assert stays == Stays(s, p);
          if !stays {
            current := Is(to);
            if running {
              LeavingSteps(s, to);
              Insert(cur);
            }
            assert View() == Leaving(s, to);
            HeadReady(s, p);
            LeavingCore(s, to);
            UnlinkedThreads(Leaving(s, to), to);
            Remove(to);
            threads := threads[to := threads[to].(stat := Running)];
            assert View() == Switched(s, to);
          } else {
            Remove(cur);
            threads := threads[cur := threads[cur].(stat := Running)];
          }
        }
      }
    }

    /** rt_thread_startup up to its call of rt_schedule. */
    method Startup(t: Tid)
      requires Valid() && t in threads && threads[t].stat == Init
      modifies this
      ensures Valid() && View() == Started(old(View()), t)
    {
      hide Core, CurrentOk, Known, AtMost, Attached;
      ghost var s := View();
      StartedInv(s, t);
      StartedKnown(s, t);
      var p := threads[t].init;
      InitLegal(s, t);
      threads := threads[t := Thread(Suspended, false, p, p, MasksOf(wide, p))];
      timers := timers - {t};
      assert View() == Prepared(s, t);
      Insert(t);
    }

    /** rt_thread_suspend */
    method Suspend(t: Tid) returns (ok: bool)
      requires Valid() && t in threads
      modifies this
      ensures Valid() && old(Core(View())) && View() == SuspendCall(old(View()), t)
      ensures ok == old(threads[t].stat == Ready || threads[t].stat == Running)
    {
      if threads[t].stat != Ready && threads[t].stat != Running {
        return false;
      }
      // a running thread can only be the current one
      assert threads[t].stat == Running ==> current == Is(t);
      Pause(t);
      return true;
    }

    /** The locked part of rt_thread_suspend. */
    method Pause(t: Tid)
      requires Valid() && t in threads && threads[t].stat != Init
      modifies this
      ensures Valid() && View() == Paused(old(View()), t)
    {
      hide Core, CurrentOk, Known, Unlinked;
      ghost var s := View();
      PausedInv(s, t);
      KnownStarted(s, t);
      UnlinkedThreads(s, t);
      Remove(t);
      threads := threads[t := threads[t].(stat := Suspended)];
      timers := timers - {t};
    }

    /** rt_thread_sleep up to its call of rt_schedule. */
    method Sleep()
      requires Valid() && Can(View(), Action.Sleep)
      modifies this
      ensures Valid() && old(current.Is? && current.t in threads && threads[current.t].stat != Init && Core(View()))
      ensures View() == Slept(old(View()))
    {
      hide Core, CurrentOk, Known, Unlinked, Paused;
      ghost var s := View();
      SleptInv(s);
      if threads[current.t].stat == Ready || threads[current.t].stat == Running {
        PausedInv(s, current.t);
        Pause(current.t);
      }
      timers := timers + {current.t};
    }

    /** rt_thread_resume */
    method Resume(t: Tid) returns (ok: bool)
      requires Valid() && t in threads
      modifies this
      ensures Valid() && old(Core(View())) && View() == ResumeCall(old(View()), t)
      ensures ok == old(threads[t].stat == Suspended)
    {
      if threads[t].stat != Suspended {
        return false;
      }
      Wake(t);
      return true;
    }

    /** rt_thread_timeout up to its call of rt_schedule, with the thread timer already taken out of its list. */
    method Timeout(t: Tid)
      requires Valid() && t in timers
      modifies this
      ensures Valid() && old(Core(View()) && t in threads && threads[t].stat == Suspended)
      ensures View() == Woken(old(View()), t)
    {
      TimerMeansSuspended(View(), t);
      assert threads[t].stat == Suspended;
      hide Inv, Core, Woken;
      CoreOf(View());
      Wake(t);
    }

    /** The locked part of rt_thread_resume. */
    method Wake(t: Tid)
      requires Valid() && t in threads && threads[t].stat == Suspended
      modifies this
      ensures Valid() && View() == Woken(old(View()), t)
    {
      hide Core, CurrentOk, Known, Attached;
      ghost var s := View();
      WokenInv(s, t);
      UntimedCore(s, t);
      KnownStarted(s.(timers := s.timers - {t}), t);
      timers := timers - {t};
      assert View() == s.(timers := s.timers - {t});
      Insert(t);
    }

    /** RT_THREAD_CTRL_CHANGE_PRIORITY */
    method ChangePriority(t: Tid, p: bv8)
      requires Valid() && t in threads && AtMost(p, last)
      modifies this
      ensures Valid() && View() == Changed(old(View()), t, p)
    {
      hide Core, CurrentOk, Known, AtMost, Attached, Unlinked, MasksOf;
      ghost var s := View();
      ChangedInv(s, t, p);
      PriorityLegal(s, p);
      if threads[t].stat == Ready {
        ReadyMovable(s, t, p);
        UnlinkedThreads(s, t);
        Remove(t);
        ghost var u := View();
        threads := threads[t := threads[t].(prio := p, masks := MasksOf(wide, p))];
        InsertAnyStat(Moved(s, t, p), View(), t);
        Insert(t);
      } else {
        threads := threads[t := threads[t].(prio := p, masks := MasksOf(wide, p))];
      }
    }

    /** rt_thread_yield */
    method Yield()
      requires Valid() && current.Is?
      modifies this
      ensures Valid() && View() == Yielded(old(View()))
    {
      hide Inv, Scheduled;
      YieldInv(View());
      threads := threads[current.t := threads[current.t].(yielding := true)];
      Schedule();
    }

    /** _thread_exit up to its call of rt_schedule. */
    method Exit()
      requires Valid() && current.Is?
      modifies this
      ensures Valid() && old(current.t in threads && threads[current.t].stat != Init && Core(View()))
      ensures View() == Exited(old(View()))
    {
      hide Core, CurrentOk, Known, Unlinked;
      ghost var s := View();
      var t := current.t;
      CurrentStarted(s);
      ExitedInv(s);
      UntimedCore(s, t);
      KnownStarted(s.(timers := s.timers - {t}), t);
      timers := timers - {t};
      assert View() == s.(timers := s.timers - {t});
      UnlinkedThreads(View(), t);
      Remove(t);
      threads := threads[t := threads[t].(stat := Closed, yielding := false)];
      assert View() == Exited(s);
    }

    /** rt_system_scheduler_start */
    method Begin()
      requires Valid() && current == Nobody && group != 0
      modifies this
      ensures Valid() && View() == Begun(old(View()))
    {
      hide Core, CurrentOk, Known, Unlinked, MostUrgent, Queue, AtMost, Highest;
      ghost var s := View();
      BegunInv(s);
      var t, p := Pick();
      HeadKnown(s, p);
      current := Is(t);
      assert View() == s.(current := Is(t));
      UnlinkedThreads(View(), t);
      Remove(t);
      threads := threads[t := threads[t].(stat := Running, yielding := false)];
      assert View() == Begun(s);
    }

    /** rt_enter_critical */
    method EnterCritical()
      requires Valid()
      modifies this`lock
      ensures Valid() && View() == old(View()).(lock := old(lock) + 1)
    {
      LockInv(View(), lock + 1);
      lock := lock + 1;
    }

    /** rt_exit_critical, with its call of rt_schedule. */
    method ExitCritical()
      requires Valid()
      modifies this
      ensures Valid()
      ensures lock == (if old(lock) == 0 then 0 else old(lock) - 1)
      ensures var u := old(View()).(lock := lock);
        Inv(u) && View() == if lock == 0 && old(current).Is? then Scheduled(u) else u
    {
      hide Inv, Scheduled;
      var n := if lock == 0 then 0 else lock - 1;
      LockInv(View(), n);
      lock := n;
      ghost var u := View();
      if lock <= 0 {
        if current.Is? {
          LockKept(u);
          Schedule();
        }
      }
    }
  }

  // ---- small facts about states ------------------------------------------------------------------

  function Next(p: bv8): bv8 { p + 1 }

  /** How far `p` is from the end of the byte range. */
  function Remaining(p: bv8): int { 255 - p as int }

  lemma Successor(p: bv8, last: bv8)
    requires AtMost(p, last) && p != last
    ensures AtMost(Next(p), last) && 0 <= Remaining(Next(p)) < Remaining(p)
    ensures forall q: bv8 :: AtMost(q, Next(p)) <==> AtMost(q, p) || q == Next(p)
  {
    hide AtMost, Next, Remaining;
    NextAbove(p, last, p);
    Nearer(p, last);
    forall q: bv8
      ensures AtMost(q, Next(p)) <==> AtMost(q, p) || q == Next(p)
    {
      NextAbove(p, last, q);
    }
  }

  lemma Nearer(p: bv8, last: bv8)
    requires AtMost(p, last) && p != last
    ensures 0 <= Remaining(Next(p)) < Remaining(p)
  {}

  lemma NextAbove(p: bv8, last: bv8, q: bv8)
    requires AtMost(p, last) && p != last
    ensures AtMost(Next(p), last) && (AtMost(q, Next(p)) <==> AtMost(q, p) || q == Next(p))
  {}

  lemma ToZero()
    ensures forall q: bv8 :: AtMost(q, 0) <==> q == 0
    ensures forall q: bv8 :: AtMost(0, q)
  {}

  lemma UpTo31(q: bv8)
    requires Below32(q)
    ensures AtMost(q, 31)
  {}


  lemma InitLegal(s: State, t: Tid)
    requires Core(s) && t in s.threads
    ensures s.ix.wide || Below32(s.threads[t].init)
  {
    hide Linked, Indexed, Timed, AtMost, Below32;
    LegalIsBelow(s, s.threads[t].init);
  }

  lemma PriorityLegal(s: State, p: bv8)
    requires Core(s) && AtMost(p, s.last)
    ensures s.ix.wide || Below32(p)
  {
    hide Linked, Indexed, Timed, Masked, AtMost, Below32;
    LegalIsBelow(s, p);
  }

  lemma CurrentStarted(s: State)
    requires Inv(s) && s.current.Is?
    ensures s.current.t in s.threads && s.threads[s.current.t].stat != Init
  {
    hide Core;
  }

  lemma UnlinkedThreads(s: State, t: Tid)
    requires Known(s, t)
    ensures Unlinked(s, t).threads == s.threads && Unlinked(s, t).timers == s.timers && Unlinked(s, t).current == s.current
  {}

  /** Inserting overwrites the state a thread had before. */
  lemma InsertAnyStat(m: State, u: State, t: Tid)
    requires Known(m, t) && t in u.threads && u == WithThread(m, t, u.threads[t])
    requires u.threads[t] == m.threads[t].(stat := u.threads[t].stat)
    ensures Known(u, t) && Attached(u, t) == Attached(m, t)
  {
    hide SetBits;
  }

  lemma LeavingSteps(s: State, to: Tid)
    requires s.current.Is? && Known(s, s.current.t) && s.threads[s.current.t].stat == Running
    ensures var y := WithYield(s, s.current.t, false).(current := Is(to));
      Known(y, s.current.t) && Leaving(s, to) == Attached(y, s.current.t)
  {
    hide SetBits;
  }

  lemma LockKept(s: State)
    requires Inv(s) && s.current.Is?
    ensures Scheduled(s).lock == s.lock
  {
    hide Core, SetBits, ClearBits, Minus, Queue, MostUrgent;
  }
}
