/** The timer list and the timers of timer.c, with the operations that change them in place. */
module TimerObject {
  import opened Arith
  import opened Ring
  import opened IpcList
  import opened TimerSearch
  import opened Timer
  import opened TimerCheck

  class TimerObject {
    var rows: seq<seq<Tid>>         // _timer_list
    var ticks: map<Tid, nat>        // timeout_tick
    var init: map<Tid, nat>         // init_tick
    var periodic: set<Tid>          // RT_TIMER_FLAG_PERIODIC
    var active: set<Tid>            // RT_TIMER_FLAG_ACTIVATED
    var tick: nat                   // rt_tick
    var random: nat                 // random_nr
    ghost var s: State

    ghost predicate Matches()
      reads this
    {
      && s.rows == rows && s.init == init && s.periodic == periodic && s.active == active && s.random == random
      && tick == Wrap(s.now)
      && (forall t :: t in s.due ==> t in ticks && ticks[t] == Wrap(s.due[t]))
    }

    ghost predicate Valid()
      reads this
    {
      Shape(s) && Matches()
    }

    constructor (levels: nat, init: map<Tid, nat>, now: nat)
      requires levels > 0 && forall t :: t in init ==> init[t] < HALF
      ensures Valid() && active == {} && this.init == init && |rows| == levels && tick == Wrap(now)
    {
      rows, ticks, this.init, periodic, active := seq(levels, _ => []), map[], init, {}, {};
      tick, random := Wrap(now), 0;
      s := Initial(levels, init, now);
      InitialInv(levels, init, now);
      InvShape(Initial(levels, init, now));
    }

    /** _timer_remove: take the timer's nodes out of all rows. */
    method Remove(t: Tid)
      modifies this`rows
      ensures rows == MinusAll(old(rows), t)
    {
      hide Minus;
      var i := 0;
      while i < |rows|
        invariant i <= |rows| == |old(rows)|
        invariant forall l :: 0 <= l < i ==> rows[l] == Minus(old(rows)[l], t)
        invariant forall l :: i <= l < |rows| ==> rows[l] == old(rows)[l]
      {
        rows := rows[i := Minus(rows[i], t)];
        i := i + 1;
      }
      assert rows == MinusAll(old(rows), t);
    }

    /** The place of `x` in the row, where a pointer to its node leads. */
    method Find(row: seq<Tid>, x: Tid) returns (i: nat)
      requires x in row
      ensures i == IndexOf(row, x)
    {
      i := 0;
      assert row[0..] == row;
      while row[i] != x
        invariant i < |row| && x in row[i..] && IndexOf(row, x) == i + IndexOf(row[i..], x)
        decreases |row| - i
      {
        assert row[i..][1..] == row[i + 1..];
        i := i + 1;
      }
    }

    /**
     The search of rt_timer_start: `heads[l]` is the place in row l behind which the timer goes.
     Each row is searched from the node where the search of the row above stopped.
     */
    method Search(t: Tid, ghost due: map<Tid, nat>) returns (heads: seq<nat>)
      requires t in due && t in ticks && ticks[t] == Wrap(due[t]) && Nested(rows)
      requires forall l, x :: 0 <= l < |rows| && x in rows[l] ==> x in due && x in ticks && ticks[x] == Wrap(due[x])
      ensures |heads| == |rows|
      ensures forall l :: 0 <= l < |rows| ==> heads[l] == Head(rows, due, due[t], l)
    {
      hide Wrap, Scan, IndexOf;
      heads := [];
      while |heads| < |rows|
        invariant |heads| <= |rows|
        invariant forall l :: 0 <= l < |heads| ==> heads[l] == Head(rows, due, due[t], l)
      {
        var l := |heads|;
        var h: nat := 0;
        if l > 0 && heads[l - 1] > 0 {
          var m := l - 1;
          var x := rows[m][heads[m] - 1];
          assert x in rows[m];
          h := Find(rows[l], x);
          h := h + 1;
        }
        assert h == From(rows, due, due[t], l);
        h := SearchRow(rows[l], h, t, due);
        heads := heads + [h];
      }
    }

    /** The inner loop: go right while the next timer is not after the new one. */
    method SearchRow(row: seq<Tid>, start: nat, t: Tid, ghost due: map<Tid, nat>) returns (h: nat)
      requires t in due && t in ticks && ticks[t] == Wrap(due[t]) && start <= |row|
      requires forall x :: x in row ==> x in due && x in ticks && ticks[x] == Wrap(due[x])
      ensures h == start + Scan(row[start..], due, due[t])
    {
      hide Wrap;
      h := start;
      while h != |row|
        invariant start <= h <= |row| && start + Scan(row[start..], due, due[t]) == h + Scan(row[h..], due, due[t])
        decreases |row| - h
      {
        var p := row[h];
        assert p in row;
        assert row[h..][0] == p && row[h..][1..] == row[h + 1..];
        if After(ticks[p], ticks[t]) {
          break;
        }
        h := h + 1;
      }
    }

    /** The insertion loop of rt_timer_start: the last row, then upwards as the counter's bits say. */
    method Insert(t: Tid, heads: seq<nat>, tst_nr: nat)
      requires |heads| == |rows| > 0 && forall l :: 0 <= l < |rows| ==> heads[l] <= |rows[l]|
      modifies this`rows
      ensures |rows| == |old(rows)|
      ensures forall l :: 0 <= l < |rows| ==>
        rows[l] == if l < |rows| - Height(tst_nr, |rows|) then old(rows)[l] else Inserted(old(rows)[l], heads[l], t)
    {
      hide Inserted;
      var n := |rows|;
      var tst := tst_nr;
      rows := rows[n - 1 := Inserted(rows[n - 1], heads[n - 1], t)];
      var lvl := 2;
      while lvl <= n
        invariant 2 <= lvl <= n + 1 && |rows| == n
        invariant forall l :: 0 <= l < n ==>
          rows[l] == if l < n - (lvl - 1) then old(rows)[l] else Inserted(old(rows)[l], heads[l], t)
        invariant Height(tst_nr, n) == lvl - 2 + Height(tst, n - (lvl - 2))
      {
        if tst % 4 == 0 {
          rows := rows[n - lvl := Inserted(rows[n - lvl], heads[n - lvl], t)];
        } else {
          break;
        }
        tst := tst / 4;
        lvl := lvl + 1;
      }
    }

    /** rt_timer_start, once the timer has been taken out of the list. */
    method Arm(t: Tid)
      requires Valid() && t in init && forall l :: 0 <= l < |rows| ==> t !in rows[l]
      modifies this
      ensures Valid() && old(s.rows != [] && t in s.init) && s == Armed(old(s), t)
    {
      hide Shape, Head, Height, Inserted, Wrap, Nested;
      ghost var d := s.now + s.init[t];
      ghost var due := s.due[t := d];
      ShapeRows(s);
      ArmedShape(s, t);
      SearchReady(s, t);
      WrapSum(s.now, s.init[t]);
      ticks := ticks[t := (tick + init[t]) % TICKS];
      var heads := Search(t, due);
      random := NextRandom(random);
      Insert(t, heads, random);
      active := active + {t};
      s := Armed(s, t);
      assert rows == s.rows;
    }

    /** rt_timer_start.  A list in order stays so exactly if the start is in reach. */
    method Start(t: Tid)
      requires Valid() && t in init
      modifies this
      ensures Valid() && old(s.rows != [] && t in s.init) && s == Started(old(s), t)
      ensures old(Inv(s)) ==> (Inv(s) <==> old(StartInReach(s, t)))
    {
      hide Shape, Inv, Armed, StartInReach, MinusAll;
      ghost var was := s;
      ShapeRows(s);
      if Inv(s) { StartedInv(s, t); }
      DroppedShape(s, t);
      Remove(t);
      active := active - {t};
      s := Dropped(s, t);
      Arm(t);
    }

    /** rt_timer_stop */
    method Stop(t: Tid) returns (ok: bool)
      requires Valid()
      modifies this
      ensures Valid() && s == Stopped(old(s), t) && ok == (t in old(active))
    {
      hide Shape, MinusAll;
      StoppedShape(s, t);
      if t !in active {
        return false;
      }
      Remove(t);
      active := active - {t};
      s := Stopped(s, t);
      return true;
    }

    /**
     rt_timer_check, for timeout functions that leave the timers alone; `calls` lists the functions
     called.  It may be called whenever the loop ends.
     */
    method Check() returns (calls: seq<Tid>)
      requires Valid() && Ends(s)
      modifies this
      ensures Valid() && old(Shape(s) && Ends(s)) && s == Checked(old(s)) && s.fired == old(s.fired) + calls
      ensures old(Inv(s)) ==> (Inv(s) <==> old(Orderly(s)))
      ensures old(Inv(s) && Orderly(s)) ==> old(DueCount(s) <= |Bottom(s)|) && calls == old(Bottom(s)[..DueCount(s)])
    {
      hide Shape, Inv, Bottom, Fired, DueCount, Wrap, Reached, Rounds, Checked, Orderly, Ends, HeadDue;
      calls := [];
      ghost var was := s;
      ghost var n: nat := Bound(s);
      ShapeRows(s);
      BottomIs(s);
      while rows[|rows| - 1] != []
        invariant Valid() && s.rows != [] && Bottom(s) == rows[|rows| - 1]
        invariant !HeadDue(Rounds(s, n)) && Rounds(s, n) == Checked(was)
        invariant s.fired == was.fired + calls
        decreases n
      {
        var t := rows[|rows| - 1][0];
        FirstDue(s);
        if Reached(ticks[t], tick) {
          if n == 0 { RoundsZero(s); }
          RoundsNext(s, n - 1);
          FiredRest(s);
          Fire(t);
          n := n - 1;
          calls := calls + [t];
          ShapeRows(s);
          BottomIs(s);
        } else {
          break;
        }
      }
      NotDue(s, n);
      if Inv(was) {
        CheckKeepsOrder(was);
        if Orderly(was) {
          CheckFiresDue(was);
          SameTail(was.fired, calls, Bottom(was)[..DueCount(was)]);
        }
      }
    }

    /** One round of the loop: take the timer out, call its function, start it again if it is periodic. */
    method Fire(t: Tid)
      requires Valid() && Bottom(s) != [] && t == Bottom(s)[0] && t in init
      modifies this
      ensures Valid() && old(s.rows != [] && Bottom(s) != [] && Bottom(s)[0] in s.init) && s == Fired(old(s))
    {
      hide Shape, Bottom, Fired, MinusAll, Wrap, Armed;
      ShapeRows(s);
      FiredIs(s);
      DroppedShape(s, t);
      LogFree(Dropped(s, t), s.fired + [t]);
      Remove(t);
      active := active - {t};
      s := Dropped(s, t).(fired := s.fired + [t]);
      if t in periodic {
        Arm(t);
      }
    }

    /** rt_tick_increase */
    method Tick()
      requires Valid()
      modifies this
      ensures Valid() && s == Ticked(old(s))
    {
      hide Shape;
      PlainShape(s, Action.Tick);
      WrapSum(s.now, 1);
      tick := (tick + 1) % TICKS;
      s := Ticked(s);
    }
  }

  // ---- small facts about states ------------------------------------------------------------------

  lemma WrapSum(a: nat, b: nat)
    ensures (Wrap(a) + b) % TICKS == Wrap(a + b)
  {
    WrappedDifference(a + b, b);
    WrappedDifference(a + b, a);
    WrapPlus(a, b);
  }

  lemma WrapPlus(a: nat, b: nat)
    ensures (a % TICKS + b) % TICKS == (a + b) % TICKS
  {
    assert a == a / TICKS * TICKS + a % TICKS;
    var r := (a % TICKS + b) % TICKS;
    var q := (a % TICKS + b) / TICKS;
    DivUnique(a + b, TICKS, a / TICKS + q, r);
  }

  lemma SearchReady(s: State, t: Tid)
    requires Shape(s) && t in s.init && forall l :: 0 <= l < |s.rows| ==> t !in s.rows[l]
    ensures s.init[t] < HALF && Nested(s.rows)
    ensures forall l, x :: 0 <= l < |s.rows| && x in s.rows[l] ==> x != t && x in s.due
  {
    hide NoDoubles;
    forall l, x | 0 <= l < |s.rows| && x in s.rows[l]
      ensures x != t && x in s.due
    {
      InRow(s, l, x);
    }
  }

  /** A number of rounds after which the loop has ended. */
  ghost function Bound(s: State): (n: nat)
    requires Shape(s) && Ends(s)
    ensures !HeadDue(Rounds(s, n)) && Rounds(s, n) == Checked(s)
  {
    var n: nat :| !HeadDue(Rounds(s, n));
    CheckedIs(s, n);
    n
  }

  lemma NotDue(s: State, n: nat)
    requires Shape(s) && (Bottom(s) == [] || !HeadDue(s))
    ensures Rounds(s, n) == s
  {
    RoundsRest(s, n);
  }

  lemma FirstDue(s: State)
    requires Shape(s) && Bottom(s) != []
    ensures Bottom(s)[0] in s.due && Bottom(s)[0] in s.init
    ensures Reached(Wrap(s.due[Bottom(s)[0]]), Wrap(s.now)) <==> HeadDue(s)
  {
    hide Shape, Bottom, Wrap, Reached;
    BottomKnown(s);
  }

  lemma FiredIs(s: State)
    requires s.rows != [] && Bottom(s) != [] && Bottom(s)[0] in s.init
    ensures var t := Bottom(s)[0];
      var u := Dropped(s, t).(fired := s.fired + [t]);
      Fired(s) == if t in s.periodic then Armed(u, t) else u
  {
    hide MinusAll, InsertAll, Bottom, Armed;
  }

  lemma SameTail(a: seq<Tid>, b: seq<Tid>, c: seq<Tid>)
    requires a + b == a + c
    ensures b == c
  {
    assert b == (a + b)[|a|..] == (a + c)[|a|..] == c;
  }
}
