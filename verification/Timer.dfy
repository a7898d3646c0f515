/**
 The timer list (timer.c): a skip list of timers on wrap-around ticks, start and stop, and one round
 of the loop in rt_timer_check.
 */
module Timer {
  import opened Arith
  import opened Ring
  import opened IpcList
  import opened TimerSearch

  datatype State = State(
    rows: seq<seq<Tid>>,            // _timer_list: row 0 is the sparsest, the last one holds every timer
    due: map<Tid, nat>,             // timeout_tick, as a count of ticks that does not wrap
    init: map<Tid, nat>,            // init_tick
    periodic: set<Tid>,
    active: set<Tid>,
    arrival: map<Tid, nat>,         // when a timer was last started
    clock: nat,
    now: nat,                       // rt_tick_get(), as a count that does not wrap
    random: nat,                    // random_nr
    fired: seq<Tid>)                // calls of timeout functions so far

  // ---- steps -------------------------------------------------------------------------------------

  /** Number of rows a timer is put into: decided by the bits of the start counter. */
  function Height(tst: nat, levels: nat): (h: nat)
    requires levels > 0
    ensures 1 <= h <= levels
  {
    if levels == 1 || tst % 4 != 0 then 1 else 1 + Height(tst / 4, levels - 1)
  }

  function Bottom(s: State): seq<Tid> {
    if s.rows == [] then [] else s.rows[|s.rows| - 1]
  }

  function MinusAll(rows: seq<seq<Tid>>, t: Tid): (r: seq<seq<Tid>>)
    ensures |r| == |rows| && forall l :: 0 <= l < |rows| ==> r[l] == Minus(rows[l], t)
  {
    seq(|rows|, l requires 0 <= l < |rows| => Minus(rows[l], t))
  }

  /** _timer_remove, and the flag cleared. */
  function Dropped(s: State, t: Tid): State {
    s.(rows := MinusAll(s.rows, t), active := s.active - {t})
  }

  /** The rows after `t`, due at `d`, has been put into the last `h` of them, where the search leads. */
  function InsertAll(rows: seq<seq<Tid>>, due: map<Tid, nat>, t: Tid, d: nat, h: nat): (r: seq<seq<Tid>>)
    requires h <= |rows|
    ensures |r| == |rows|
    ensures forall l :: 0 <= l < |rows| ==>
      r[l] == if l < |rows| - h then rows[l] else Inserted(rows[l], Head(rows, due, d, l), t)
  {
    seq(|rows|, l requires 0 <= l < |rows| =>
      if l < |rows| - h then rows[l] else Inserted(rows[l], Head(rows, due, d, l), t))
  }

  function NextRandom(r: nat): nat {
    (r + 1) % TICKS
  }

  /** rt_timer_start, once the timer has been taken out of the list. */
  function Armed(s: State, t: Tid): State
    requires s.rows != [] && t in s.init
  {
    var d := s.now + s.init[t];
    var r := NextRandom(s.random);
    s.(rows := InsertAll(s.rows, s.due[t := d], t, d, Height(r, |s.rows|)), due := s.due[t := d], active := s.active + {t},
       arrival := s.arrival[t := s.clock], clock := s.clock + 1, random := r)
  }

  /** rt_timer_start */
  function Started(s: State, t: Tid): State
    requires s.rows != [] && t in s.init
  {
    Armed(Dropped(s, t), t)
  }

  /** rt_timer_stop */
  function Stopped(s: State, t: Tid): State {
    if t in s.active then Dropped(s, t) else s
  }

  /** The test of rt_timer_check: there is a first timer, and its moment has come. */
  predicate HeadDue(s: State) {
    && Bottom(s) != [] && Bottom(s)[0] in s.due && Bottom(s)[0] in s.init
    && Reached(Wrap(s.due[Bottom(s)[0]]), Wrap(s.now))
  }

  /** One round of the loop in rt_timer_check. */
  function Fired(s: State): State
    requires s.rows != [] && Bottom(s) != [] && Bottom(s)[0] in s.init
  {
    var t := Bottom(s)[0];
    var u := Dropped(s, t).(fired := s.fired + [t]);
    if t in s.periodic then Armed(u, t) else u
  }

  function Ticked(s: State): State {
    s.(now := s.now + 1)
  }

  // ---- invariant ---------------------------------------------------------------------------------

  /** The moment `d` is so near that the expiry test is right about it. */
  predicate InWindow(now: nat, d: nat) {
    now < d + HALF && d < now + HALF
  }

  ghost predicate RowsOrdered(s: State) {
    forall l :: 0 <= l < |s.rows| ==> Queued(s.rows[l], s.due, s.arrival, s.clock)
  }

  ghost predicate NoDoubles(rows: seq<seq<Tid>>) {
    forall l :: 0 <= l < |rows| ==> Distinct(rows[l])
  }

  ghost predicate Live(s: State) {
    && (forall t: Tid :: t in Bottom(s) <==> t in s.active)
    && (forall t :: t in s.active ==> t in s.due && t in s.init)
  }

  /** The links of the list, whatever its order: what every step keeps. */
  ghost predicate Shape(s: State) {
    && s.rows != [] && NoDoubles(s.rows) && Nested(s.rows) && Live(s)
    && (forall t :: t in s.init ==> s.init[t] < HALF)
  }

  ghost predicate InTime(s: State) {
    forall t :: t in s.active && t in s.due ==> InWindow(s.now, s.due[t])
  }

  /** No timer is too late for the expiry test, and every row is in order of timeout with first-started ties. */
  ghost predicate Inv(s: State) {
    Shape(s) && InTime(s) && RowsOrdered(s)
  }

  // ---- start and stop --------------------------------------------------------------------------------

  /** A row that another timer's start does not touch. */
  lemma QueuedAside(ws: seq<Tid>, due: map<Tid, nat>, arrival: map<Tid, nat>, clock: nat, t: Tid, d: nat)
    requires Queued(ws, due, arrival, clock) && t !in ws
    ensures Queued(ws, due[t := d], arrival[t := clock], clock + 1)
  {}

  lemma DroppedShape(s: State, t: Tid)
    requires Shape(s)
    ensures Shape(Dropped(s, t)) && forall l :: 0 <= l < |s.rows| ==> t !in Dropped(s, t).rows[l]
  {
    hide Distinct, Minus;
    var u := Dropped(s, t);
    forall l | 0 <= l < |s.rows|
      ensures Distinct(u.rows[l]) && forall x :: x in u.rows[l] <==> x in s.rows[l] && x != t
    {
      MinusMembers(s.rows[l], t);
    }
  }

  lemma DroppedInv(s: State, t: Tid)
    requires Inv(s)
    ensures Inv(Dropped(s, t)) && forall l :: 0 <= l < |s.rows| ==> t !in Dropped(s, t).rows[l]
  {
    hide Queued, InWindow, Distinct, Minus, Shape;
    DroppedShape(s, t);
    var u := Dropped(s, t);
    forall l | 0 <= l < |s.rows|
      ensures Queued(u.rows[l], s.due, s.arrival, s.clock)
    {
      QueuedMinus(s.rows[l], s.due, s.arrival, s.clock, t);
    }
  }

  ghost predicate RowGains(row: seq<Tid>, row': seq<Tid>, t: Tid, gains: bool) {
    Distinct(row') && forall x :: x in row' <==> x in row || (x == t && gains)
  }

  lemma NestedGains(rows: seq<seq<Tid>>, rows': seq<seq<Tid>>, t: Tid, from: int)
    requires Nested(rows) && |rows'| == |rows|
    requires forall l :: 0 <= l < |rows| ==> RowGains(rows[l], rows'[l], t, l >= from)
    ensures Nested(rows')
  {
    forall l, m, x: Tid | 0 <= l && m == l + 1 && m < |rows| && x in rows'[l]
      ensures x in rows'[m]
    {
      assert RowGains(rows[l], rows'[l], t, l >= from) && RowGains(rows[m], rows'[m], t, m >= from);
      if x in rows[l] { assert x in rows[m]; }
    }
  }

  /** A start keeps the links of the list, wherever the search leads. */
  lemma ArmedShape(s: State, t: Tid)
    requires Shape(s) && t in s.init && forall l :: 0 <= l < |s.rows| ==> t !in s.rows[l]
    ensures Shape(Armed(s, t))
  {
    hide Distinct, Inserted, Head, Height, NextRandom, Nested;
    var u := Armed(s, t);
    var h := Height(u.random, |s.rows|);
    forall l | 0 <= l < |s.rows|
      ensures RowGains(s.rows[l], u.rows[l], t, l >= |s.rows| - h)
    {
      InsertMembers(s.rows[l], Head(s.rows, u.due, u.due[t], l), t);
    }
    NestedGains(s.rows, u.rows, t, |s.rows| - h);
    assert RowGains(s.rows[|s.rows| - 1], u.rows[|s.rows| - 1], t, true);
  }

  /** What a row lists is active. */
  lemma InRow(s: State, l: nat, x: Tid)
    requires Shape(s) && l < |s.rows| && x in s.rows[l]
    ensures x in s.active && x in s.due && x in s.init
  {
    hide NoDoubles;
    Below(s.rows, l, |s.rows| - 1, x);
    assert x in Bottom(s);
  }

  /** In a state in order the search for a new timer meets only timers it can tell apart from it. */
  lemma StateSearchable(s: State, t: Tid)
    requires Inv(s) && t in s.init && forall l :: 0 <= l < |s.rows| ==> t !in s.rows[l]
    ensures var d := s.now + s.init[t]; Searchable(s.rows, s.due[t := d], d)
  {
    hide Queued, Distinct;
    var d := s.now + s.init[t];
    forall l | 0 <= l < |s.rows|
      ensures Sorted(s.rows[l], s.due[t := d])
    {
      QueuedOther(s.rows[l], s.due, s.arrival, s.clock, t, d);
      QueuedKnown(s.rows[l], s.due[t := d], s.arrival, s.clock);
    }
    forall l, x | 0 <= l < |s.rows| && x in s.rows[l]
      ensures x != t && x in s.due && s.due[x] < d + HALF && d < s.due[x] + TICKS
    {
      InRow(s, l, x);
    }
  }

  /** Timer `t`, which is not in the list, is in reach of the timers there. */
  ghost predicate Reaches(s: State, t: Tid)
    requires t in s.init
  {
    var d := s.now + s.init[t];
    InReach(s.rows, s.due[t := d], d)
  }

  /** The start of timer `t` is in reach. */
  ghost predicate StartInReach(s: State, t: Tid)
    requires t in s.init
  {
    Reaches(Dropped(s, t), t)
  }

  /** In reach, each row stays in order and gains the timer exactly if its height reaches it. */
  lemma ArmedRow(s: State, t: Tid, l: nat)
    requires Inv(s) && t in s.init && l < |s.rows| && t !in s.rows[l]
    requires var d := s.now + s.init[t]; Head(s.rows, s.due[t := d], d, l) == Position(s.rows[l], s.due[t := d], d)
    ensures var u := Armed(s, t);
      && |u.rows| == |s.rows| && Queued(u.rows[l], u.due, u.arrival, u.clock)
      && (forall x :: x in u.rows[l] <==> x in s.rows[l] || (x == t && l >= |s.rows| - Height(u.random, |s.rows|)))
  {
    hide Queued, InWindow, Distinct, Inserted, Position, Head, Height, NextRandom, Shape, IsPosition;
    var row := s.rows[l];
    var d := s.now + s.init[t];
    var due := s.due[t := d];
    QueuedOther(row, s.due, s.arrival, s.clock, t, d);
    QueuedKnown(row, due, s.arrival, s.clock);
    PositionIs(row, due, d);
    QueuedInsert(row, due, s.arrival, s.clock, t, Position(row, due, d));
    InsertMembers(row, Position(row, due, d), t);
    QueuedAside(row, s.due, s.arrival, s.clock, t, d);
  }

  /** A timer in front of one that is due no later is out of order. */
  lemma FrontNotQueued(row: seq<Tid>, due: map<Tid, nat>, arrival: map<Tid, nat>, clock: nat, t: Tid)
    requires Queued(row, due, arrival, clock) && t !in row && t in due && Position(row, due, due[t]) > 0
    ensures !Queued(Inserted(row, 0, t), due, arrival[t := clock], clock + 1)
  {
    hide Position;
    var r := Inserted(row, 0, t);
    assert r[0] == t && r[1] == row[0];
    assert row[0] in row;
  }

  /** A start keeps all rows in order exactly when it is in reach. */
  lemma ArmedInv(s: State, t: Tid)
    requires Inv(s) && t in s.init && forall l :: 0 <= l < |s.rows| ==> t !in s.rows[l]
    ensures s.rows != [] && (Inv(Armed(s, t)) <==> Reaches(s, t))
  {
    NonEmptyRows(s);
    hide Shape, InTime, RowsOrdered, Armed, Reaches;
    ArmedShape(s, t);
    ArmedInTime(s, t);
    if Reaches(s, t) { ArmedInOrder(s, t); } else { ArmedOutOfOrder(s, t); }
  }

  lemma ReachedRow(s: State, t: Tid, l: nat)
    requires Inv(s) && t in s.init && forall l :: 0 <= l < |s.rows| ==> t !in s.rows[l]
    requires Reaches(s, t) && l < |s.rows|
    ensures var u := Armed(s, t); |u.rows| == |s.rows| && Queued(u.rows[l], u.due, u.arrival, u.clock)
  {
    hide Inv, Queued, Position, Head, Searchable, InReach, Armed;
    var d := s.now + s.init[t];
    StateSearchable(s, t);
    HeadIsPosition(s.rows, s.due[t := d], d, l);
    ArmedRow(s, t, l);
  }

  lemma ArmedInOrder(s: State, t: Tid)
    requires Inv(s) && t in s.init && forall l :: 0 <= l < |s.rows| ==> t !in s.rows[l]
    requires Reaches(s, t)
    ensures s.rows != [] && RowsOrdered(Armed(s, t))
  {
    NonEmptyRows(s);
    hide Inv, Queued, Reaches, Armed;
    ArmedFields(s, t);
    var u := Armed(s, t);
    forall l | 0 <= l < |s.rows|
      ensures Queued(u.rows[l], u.due, u.arrival, u.clock)
    {
      ReachedRow(s, t, l);
    }
  }

  lemma ArmedOutOfOrder(s: State, t: Tid)
    requires Inv(s) && t in s.init && forall l :: 0 <= l < |s.rows| ==> t !in s.rows[l]
    requires !Reaches(s, t)
    ensures s.rows != [] && !RowsOrdered(Armed(s, t))
  {
    NonEmptyRows(s);
    BottomIs(s);
    assert t !in Bottom(s);
    MissedRow(s, t);
    hide Inv, Position, Head, Reaches, Armed, RowsOrdered;
    BottomMissed(s, t);
  }

  lemma MissedRow(s: State, t: Tid)
    requires Inv(s) && t in s.init && forall l :: 0 <= l < |s.rows| ==> t !in s.rows[l]
    requires !Reaches(s, t) && s.rows != [] && Bottom(s) == s.rows[|s.rows| - 1]
    ensures var d := s.now + s.init[t];
      Head(s.rows, s.due[t := d], d, |s.rows| - 1) == 0 < Position(Bottom(s), s.due[t := d], d)
  {
    hide Inv, Position, Head, Searchable, InReach, Bottom;
    var d := s.now + s.init[t];
    StateSearchable(s, t);
    LastMissed(s.rows, s.due[t := d], d);
  }

  lemma BottomIs(s: State)
    requires s.rows != []
    ensures Bottom(s) == s.rows[|s.rows| - 1]
  {}

  lemma ArmedFields(s: State, t: Tid)
    requires s.rows != [] && t in s.init
    ensures var u := Armed(s, t);
      && |u.rows| == |s.rows| && u.due == s.due[t := s.now + s.init[t]] && u.now == s.now && u.init == s.init && u.periodic == s.periodic
      && u.active == s.active + {t} && u.arrival == s.arrival[t := s.clock] && u.clock == s.clock + 1 && u.fired == s.fired
      && u.random == NextRandom(s.random)
  {
    hide InsertAll;
    assert 0 <= |s.rows| - 1;
  }

  lemma ArmedInTime(s: State, t: Tid)
    requires Inv(s) && t in s.init
    ensures s.rows != [] && InTime(Armed(s, t))
  {
    hide Queued, Height, InsertAll, NextRandom, Bottom;
    assert InWindow(s.now, s.now + s.init[t]);
  }

  lemma BottomMissed(s: State, t: Tid)
    requires Inv(s) && t in s.init && s.rows != [] && t !in Bottom(s)
    requires var d := s.now + s.init[t];
      Head(s.rows, s.due[t := d], d, |s.rows| - 1) == 0 < Position(Bottom(s), s.due[t := d], d)
    ensures !RowsOrdered(Armed(s, t))
  {
    hide Queued, Inserted, Position, Head, Height, NextRandom, Shape, InTime;
    var d := s.now + s.init[t];
    var u := Armed(s, t);
    var l := |s.rows| - 1;
    assert u.rows[l] == Inserted(s.rows[l], 0, t);
    QueuedOther(s.rows[l], s.due, s.arrival, s.clock, t, d);
    FrontNotQueued(s.rows[l], u.due, s.arrival, s.clock, t);
  }

  lemma StartedShape(s: State, t: Tid)
    requires Shape(s) && t in s.init
    ensures Shape(Started(s, t))
  {
    hide Shape, MinusAll;
    DroppedShape(s, t);
    ArmedShape(Dropped(s, t), t);
  }

  /** rt_timer_start keeps all rows in order exactly when the start is in reach. */
  lemma StartedInv(s: State, t: Tid)
    requires Inv(s) && t in s.init
    ensures s.rows != [] && (Inv(Started(s, t)) <==> StartInReach(s, t))
  {
    NonEmptyRows(s);
    hide Inv, MinusAll, Reaches, Armed, Dropped;
    DroppedFields(s, t);
    DroppedInv(s, t);
    ArmedInv(Dropped(s, t), t);
  }

  /** In each row the timers other than `t` are those that were there, in the same order. */
  ghost predicate RestSame(s: State, u: State, t: Tid) {
    |u.rows| == |s.rows| && forall l :: 0 <= l < |s.rows| ==> Minus(u.rows[l], t) == Minus(s.rows[l], t)
  }

  /** Nothing but the list, the flags and the due time of timer `t` has changed. */
  ghost predicate OnlyTimer(s: State, u: State, t: Tid) {
    && u.now == s.now && u.init == s.init && u.periodic == s.periodic && RestSame(s, u, t)
    && (forall x :: x != t ==> (x in u.active <==> x in s.active) && (x in u.due <==> x in s.due))
    && (forall x :: x != t && x in s.due ==> u.due[x] == s.due[x])
  }

  /** Starting makes a timer due init_tick ticks from now, whether or not it was running, and touches no other timer. */
  lemma StartedEffect(s: State, t: Tid)
    requires Shape(s) && t in s.init
    ensures s.rows != []
    ensures var u := Started(s, t);
      && t in u.active && t in u.due && u.due[t] == s.now + s.init[t] && OnlyTimer(s, u, t) && u.fired == s.fired
      && u.random == (s.random + 1) % TICKS
  {
    hide Shape, Head, Height, RestSame, Dropped, Armed;
    ShapeRows(s);
    DroppedFields(s, t);
    ArmedFields(Dropped(s, t), t);
    StartedRest(s, t);
  }

  lemma StartedRest(s: State, t: Tid)
    requires Shape(s) && t in s.init && s.rows != []
    ensures RestSame(s, Started(s, t), t)
  {
    hide Head, Height, NextRandom, Nested, Live, Inserted, Minus;
    DroppedShape(s, t);
    var v, u := Dropped(s, t), Started(s, t);
    forall l | 0 <= l < |s.rows|
      ensures |u.rows| == |s.rows| && Minus(u.rows[l], t) == Minus(s.rows[l], t)
    {
      var i := Head(v.rows, u.due, u.due[t], l);
      MinusMembers(s.rows[l], t);
      MinusInserted(v.rows[l], i, t);
      MinusMembers(v.rows[l], t);
    }
  }

  /** Taking out what was just put in. */
  lemma {:induction false} MinusInserted(q: seq<Tid>, i: nat, t: Tid)
    requires i <= |q| && t !in q
    ensures Minus(Inserted(q, i, t), t) == q
  {
    var r := Inserted(q, i, t);
    if i == 0 {
      assert r[0] == t && r[1..] == q;
    } else {
      MinusInserted(q[1..], i - 1, t);
      assert r[1..] == Inserted(q[1..], i - 1, t);
      assert r[0] == q[0];
    }
  }

  /** Stopping a timer takes it out of every row; a timer that is not running is left as it is, and so is every other. */
  lemma StoppedEffect(s: State, t: Tid)
    requires Shape(s)
    ensures var u := Stopped(s, t);
      && (t !in s.active ==> u == s)
      && u.active == s.active - {t} && (forall l :: 0 <= l < |u.rows| ==> t !in u.rows[l])
      && OnlyTimer(s, u, t) && u.due == s.due && u.fired == s.fired
  {
    hide Minus, RestSame, Shape;
    ShapeRows(s);
    if t in s.active {
      DroppedShape(s, t);
      DroppedFields(s, t);
      DroppedRest(s, t);
    } else {
      NotListed(s, t);
      SameRest(s, t);
    }
  }

  lemma SameRest(s: State, t: Tid)
    ensures RestSame(s, s, t)
  {}

  lemma NotListed(s: State, t: Tid)
    requires Shape(s) && t !in s.active
    ensures forall l :: 0 <= l < |s.rows| ==> t !in s.rows[l]
  {
    hide Shape;
    forall l | 0 <= l < |s.rows|
      ensures t !in s.rows[l]
    {
      if t in s.rows[l] { InRow(s, l, t); }
    }
  }

  lemma DroppedRest(s: State, t: Tid)
    requires Shape(s)
    ensures RestSame(s, Dropped(s, t), t)
  {
    hide Minus, Nested, Live;
    DroppedShape(s, t);
    forall l | 0 <= l < |s.rows|
      ensures Minus(Dropped(s, t).rows[l], t) == Minus(s.rows[l], t)
    {
      MinusMembers(s.rows[l], t);
      MinusMembers(Dropped(s, t).rows[l], t);
    }
  }

  /** The bits of the start counter decide the rows: one more for every pair of zero bits at its low end, up to all. */
  lemma {:induction false} HeightIs(tst: nat, levels: nat, h: nat)
    requires levels > 0 && 1 <= h <= levels
    ensures Height(tst, levels) >= h <==> tst % Power4(h - 1) == 0
    decreases levels
  {
    if h > 1 {
      HeightIs(tst / 4, levels - 1, h - 1);
      DivisibleBy4(tst, Power4(h - 2));
    }
  }

  function Power4(n: nat): (r: nat)
    ensures r > 0
  {
    if n == 0 then 1 else 4 * Power4(n - 1)
  }

  lemma DivisibleBy4(x: nat, k: nat)
    requires k > 0
    ensures x % (4 * k) == 0 <==> x % 4 == 0 && x / 4 % k == 0
  {
    if x % (4 * k) == 0 {
      var q := x / (4 * k);
      assert x == q * (4 * k);
      assert x == 4 * (q * k);
      MulMod(q, k);
    }
    if x % 4 == 0 && x / 4 % k == 0 {
      var q := x / 4 / k;
      assert x / 4 == q * k;
      assert x == q * (4 * k);
      MulMod(q, 4 * k);
    }
  }


  lemma StoppedShape(s: State, t: Tid)
    requires Shape(s)
    ensures Shape(Stopped(s, t)) && t !in Stopped(s, t).active
  {
    hide Shape;
    DroppedShape(s, t);
  }

  lemma StoppedInv(s: State, t: Tid)
    requires Inv(s)
    ensures Inv(Stopped(s, t)) && t !in Stopped(s, t).active
  {
    hide Inv;
    DroppedInv(s, t);
  }

  lemma NonEmptyRows(s: State)
    requires Inv(s)
    ensures s.rows != []
  {}

  lemma DroppedFields(s: State, t: Tid)
    requires s.rows != []
    ensures var u := Dropped(s, t);
      u.rows != [] && u.rows == MinusAll(s.rows, t) && u.arrival == s.arrival && u.clock == s.clock && u.active == s.active - {t}
      && u.due == s.due && u.init == s.init && u.now == s.now && u.periodic == s.periodic && u.fired == s.fired && u.random == s.random
  {}

  lemma FiredLogBottom(s: State, f: seq<Tid>)
    ensures Bottom(s.(fired := f)) == Bottom(s)
  {}

  /** The last row after a start: a stable linear insertion by timeout, or the front if the start is out of reach. */
  lemma BottomArmed(s: State, t: Tid)
    requires Inv(s) && t in s.init && forall l :: 0 <= l < |s.rows| ==> t !in s.rows[l]
    ensures s.rows != []
    ensures var d := s.now + s.init[t];
      Bottom(Armed(s, t)) == Inserted(Bottom(s), if Reaches(s, t) then Position(Bottom(s), s.due[t := d], d) else 0, t)
  {
    NonEmptyRows(s);
    BottomIs(s);
    BottomGains(s, t);
    if Reaches(s, t) { ReachedBottom(s, t); } else { MissedRow(s, t); }
  }

  lemma BottomGains(s: State, t: Tid)
    requires s.rows != [] && t in s.init
    ensures var d := s.now + s.init[t];
      Bottom(Armed(s, t)) == Inserted(Bottom(s), Head(s.rows, s.due[t := d], d, |s.rows| - 1), t)
  {
    hide Inserted, Head, Height, NextRandom, Bottom, Armed;
    ArmedFields(s, t);
    BottomIs(s);
    BottomIs(Armed(s, t));
    LastGains(s, t);
  }

  lemma LastGains(s: State, t: Tid)
    requires s.rows != [] && t in s.init
    ensures var d, u, l := s.now + s.init[t], Armed(s, t), |s.rows| - 1;
      |u.rows| == |s.rows| && u.rows[l] == Inserted(s.rows[l], Head(s.rows, s.due[t := d], d, l), t)
  {
    hide Inserted, Head, Height, NextRandom;
  }

  lemma ReachedBottom(s: State, t: Tid)
    requires Inv(s) && t in s.init && forall l :: 0 <= l < |s.rows| ==> t !in s.rows[l]
    requires Reaches(s, t) && s.rows != [] && Bottom(s) == s.rows[|s.rows| - 1]
    ensures var d := s.now + s.init[t]; Head(s.rows, s.due[t := d], d, |s.rows| - 1) == Position(Bottom(s), s.due[t := d], d)
  {
    hide Inv, Position, Head, Searchable, InReach, Bottom;
    var d := s.now + s.init[t];
    StateSearchable(s, t);
    HeadIsPosition(s.rows, s.due[t := d], d, |s.rows| - 1);
  }

  lemma BottomDropped(s: State, t: Tid)
    requires s.rows != []
    ensures Bottom(Dropped(s, t)) == Minus(Bottom(s), t)
  {
    hide Minus;
  }

  // ---- rt_timer_check ------------------------------------------------------------------------------

  /** How many timers are due; in a list in order they stand at the front of the last row. */
  function DueCount(s: State): nat {
    Position(Bottom(s), s.due, s.now)
  }

  ghost predicate IsDue(s: State, t: Tid) {
    t in s.active && t in s.due && s.due[t] <= s.now
  }

  /** A timer that is due has period 0: re-armed, it is due again at once. */
  ghost predicate ZeroDue(s: State) {
    exists t :: t in s.active && t in s.periodic && t in s.due && t in s.init && s.due[t] <= s.now && s.init[t] == 0
  }

  /** Timer `x` is in the list, behind timer `p`. */
  ghost predicate Behind(s: State, p: Tid, x: Tid) {
    && p in s.active && p in s.due && p in s.arrival && x in s.active && x in s.due && x in s.arrival
    && (s.due[p] < s.due[x] || (s.due[p] == s.due[x] && s.arrival[p] < s.arrival[x]))
  }

  /** Every periodic timer that is due can be ordered against the timers still in the list when it is re-armed. */
  ghost predicate RearmsNear(s: State) {
    forall p, x :: Behind(s, p, x) && p in s.periodic && p in s.init && s.due[p] <= s.now ==>
      s.now + s.init[p] + HALF <= s.due[x] + TICKS
  }

  lemma BottomKnown(s: State)
    requires Shape(s)
    ensures forall j :: 0 <= j < |Bottom(s)| ==> Bottom(s)[j] in s.due && Bottom(s)[j] in s.init && Bottom(s)[j] in s.active
  {
    hide NoDoubles, Nested;
    forall j | 0 <= j < |Bottom(s)|
      ensures Bottom(s)[j] in s.active
    {
      assert Bottom(s)[j] in Bottom(s);
    }
  }

  lemma BottomQueued(s: State)
    requires Inv(s)
    ensures Queued(Bottom(s), s.due, s.arrival, s.clock)
  {
    hide Queued, Nested, NoDoubles, InTime;
  }

  /** The due timers are exactly the first DueCount ones. */
  lemma DueIsPrefix(s: State)
    requires Inv(s)
    ensures DueCount(s) <= |Bottom(s)|
    ensures forall j :: 0 <= j < |Bottom(s)| ==> Bottom(s)[j] in s.due && (j < DueCount(s) <==> s.due[Bottom(s)[j]] <= s.now)
  {
    BottomQueued(s);
    BottomKnown(s);
    hide Inv, Queued, Position, IsPosition;
    QueuedKnown(Bottom(s), s.due, s.arrival, s.clock);
    PositionIs(Bottom(s), s.due, s.now);
    PositionSplits(Bottom(s), s.due, s.now, DueCount(s));
  }

  /** They are all the active timers whose moment has come. */
  lemma DueAreActive(s: State)
    requires Inv(s)
    ensures DueCount(s) <= |Bottom(s)|
    ensures forall t :: t in Bottom(s)[..DueCount(s)] <==> IsDue(s, t)
  {
    DueIsPrefix(s);
    BottomKnown(s);
    BottomActive(s);
    hide Inv, Position, Bottom;
    var b := Bottom(s);
    forall t | IsDue(s, t)
      ensures t in b[..DueCount(s)]
    {
      var j :| 0 <= j < |b| && b[j] == t;
      assert b[..DueCount(s)][j] == t;
    }
  }

  lemma BottomActive(s: State)
    requires Shape(s)
    ensures forall t: Tid :: t in Bottom(s) <==> t in s.active
  {}

  /** The test of the loop tells whether any timer is due. */
  lemma HeadDueIs(s: State)
    requires Inv(s)
    ensures HeadDue(s) <==> DueCount(s) > 0
    ensures HeadDue(s) <==> exists t :: IsDue(s, t)
  {
    DueAreActive(s);
    DueIsPrefix(s);
    BottomKnown(s);
    var b := Bottom(s);
    hide Shape, RowsOrdered, Position, Bottom, Reached, Wrap;
    if b != [] {
      assert InWindow(s.now, s.due[b[0]]);
      ReachedIsPast(s.due[b[0]], s.now);
    }
    if DueCount(s) > 0 { assert b[0] in b[..DueCount(s)]; }
  }

  // ---- one round -------------------------------------------------------------------------------------

  /** If the timer that fires in this round is started again, it is in reach. */
  ghost predicate RoundInReach(s: State) {
    HeadDue(s) && Bottom(s)[0] in s.periodic ==> StartInReach(s, Bottom(s)[0])
  }

  lemma LogFree(s: State, f: seq<Tid>)
    ensures Shape(s) ==> Shape(s.(fired := f))
    ensures Inv(s) ==> Inv(s.(fired := f))
  {
    FiredLogBottom(s, f);
    hide Queued, InWindow, Nested, NoDoubles, Bottom;
  }

  lemma LogFreeReach(s: State, t: Tid, f: seq<Tid>)
    requires t in s.init
    ensures Reaches(s.(fired := f), t) <==> Reaches(s, t)
  {
    hide InReach;
  }

  lemma FiredShape(s: State)
    requires Shape(s) && Bottom(s) != []
    ensures s.rows != [] && Bottom(s) != [] && Bottom(s)[0] in s.init && Shape(Fired(s))
  {
    ShapeRows(s);
    BottomKnown(s);
    hide Shape, MinusAll, Armed;
    var t := Bottom(s)[0];
    DroppedShape(s, t);
    LogFree(Dropped(s, t), s.fired + [t]);
    if t in s.periodic { ArmedShape(Dropped(s, t).(fired := s.fired + [t]), t); }
  }

  lemma ShapeRows(s: State)
    requires Shape(s)
    ensures s.rows != []
  {}

  lemma HeadKnown(s: State)
    requires Shape(s) && HeadDue(s)
    ensures s.rows != [] && Bottom(s) != [] && Bottom(s)[0] in s.init && Bottom(s)[0] in s.due && Bottom(s)[0] in s.active
  {
    BottomKnown(s);
  }

  /** A round keeps all rows in order exactly when it is in reach. */
  lemma FiredInv(s: State)
    requires Inv(s) && HeadDue(s)
    ensures s.rows != [] && Bottom(s) != [] && Bottom(s)[0] in s.init && (Inv(Fired(s)) <==> RoundInReach(s))
  {
    HeadKnown(s);
    hide Inv, MinusAll, Armed, Reaches, Bottom;
    var t := Bottom(s)[0];
    DroppedInv(s, t);
    var u := Dropped(s, t).(fired := s.fired + [t]);
    LogFree(Dropped(s, t), u.fired);
    LogFreeReach(Dropped(s, t), t, u.fired);
    if t in s.periodic { ArmedInv(u, t); }
  }

  /** What one round does to the timers themselves. */
  lemma FiredRest(s: State)
    requires s.rows != [] && Bottom(s) != [] && Bottom(s)[0] in s.init
    ensures var t := Bottom(s)[0];
      var f := Fired(s);
      && f.now == s.now && f.init == s.init && f.periodic == s.periodic && f.fired == s.fired + [t]
      && f.active == (if t in s.periodic then s.active - {t} + {t} else s.active - {t})
      && f.arrival == (if t in s.periodic then s.arrival[t := s.clock] else s.arrival)
      && f.due == (if t in s.periodic then s.due[t := s.now + s.init[t]] else s.due)
  {
    hide MinusAll, InsertAll, Bottom;
  }

  /** The last row after a round in reach. */
  lemma FiredBottom(s: State)
    requires Inv(s) && HeadDue(s) && RoundInReach(s)
    ensures s.rows != [] && Bottom(s) != [] && Bottom(s)[0] in s.init
    ensures var t := Bottom(s)[0];
      var r := Bottom(s)[1..];
      var due' := s.due[t := s.now + s.init[t]];
      Bottom(Fired(s)) == if t in s.periodic then Inserted(r, Position(r, due', s.now + s.init[t]), t) else r
  {
    HeadKnown(s);
    hide Bottom, Armed, Dropped, Position, Inserted, Inv, Minus, Reaches;
    FiredBottomIs(s);
  }

  /** The last row after a round: the timer goes behind all due no later, or to the front if it is out of reach. */
  lemma FiredBottomIs(s: State)
    requires Inv(s) && HeadDue(s) && s.rows != [] && Bottom(s)[0] in s.init
    ensures var t := Bottom(s)[0];
      var r := Bottom(s)[1..];
      var due' := s.due[t := s.now + s.init[t]];
      Bottom(Fired(s)) == if t in s.periodic then Inserted(r, if StartInReach(s, t) then Position(r, due', s.now + s.init[t]) else 0, t) else r
  {
    hide Bottom, Armed, Dropped, Position, Inserted, Inv, Minus, Reaches;
    var t := Bottom(s)[0];
    BottomDropped(s, t);
    MinusHead(Bottom(s), t);
    var u := Dropped(s, t).(fired := s.fired + [t]);
    FiredLogBottom(Dropped(s, t), u.fired);
    DroppedFields(s, t);
    DroppedInv(s, t);
    LogFree(Dropped(s, t), u.fired);
    LogFreeReach(Dropped(s, t), t, u.fired);
    if t in s.periodic { BottomArmed(u, t); }
  }

  /** A due time behind all of the first `n` timers leaves them in front. */
  lemma InsertBehind(row: seq<Tid>, due: map<Tid, nat>, t: Tid, d: nat, now: nat, n: nat)
    requires IsPosition(row, due, now, n) && t !in row && d > now
    ensures var due' := due[t := d];
      var r := Inserted(row, Position(row, due', d), t);
      n <= |r| && r[..n] == row[..n] && IsPosition(r, due', now, n)
  {
    hide Inserted;
    var due' := due[t := d];
    PositionIs(row, due', d);
    var p := Position(row, due', d);
    hide Position;
    assert forall j :: 0 <= j < n ==> due'[row[j]] <= now;
    var r := Inserted(row, p, t);
    InsertedAt(row, p, t, n);
    forall j | 0 <= j < n
      ensures r[j] == row[j]
    {
      InsertedAt(row, p, t, j);
    }
    forall j | 0 <= j < |r|
      ensures r[j] in due'
    {
      InsertedAt(row, p, t, j);
    }
    if n < |r| && n != p { assert r[n] == row[n]; }
  }

  lemma InsertedAt(row: seq<Tid>, p: nat, t: Tid, a: nat)
    requires p <= |row| && a <= |row|
    ensures var r := Inserted(row, p, t);
      |r| == |row| + 1 && r[a] == if a < p then row[a] else if a == p then t else row[a - 1]
  {}

  /** A list in order with a due timer in it: its first timer, and the rest. */
  lemma DueHead(s: State)
    requires Inv(s) && DueCount(s) > 0
    ensures HeadDue(s) && s.rows != [] && Bottom(s) != [] && DueCount(s) <= |Bottom(s)|
    ensures Bottom(s)[0] in s.init && IsDue(s, Bottom(s)[0]) && Bottom(s)[0] !in Bottom(s)[1..]
    ensures IsPosition(Bottom(s)[1..], s.due, s.now, DueCount(s) - 1)
  {
    HeadDueIs(s);
    HeadKnown(s);
    DueIsPrefix(s);
    BottomQueued(s);
    hide Queued, Position, IsPosition, Inv, Bottom, Distinct, HeadDue;
    QueuedKnown(Bottom(s), s.due, s.arrival, s.clock);
    TailPosition(Bottom(s), s.due, s.now);
    HeadOnce(Bottom(s));
  }

  /** One round in reach fires the first timer and leaves one due timer less, in the old order. */
  lemma FiredPrefix(s: State)
    requires Inv(s) && RoundInReach(s) && !ZeroDue(s) && DueCount(s) > 0
    ensures Bottom(s) != [] && Bottom(s)[0] in s.init && s.rows != []
    ensures var f := Fired(s);
      && DueCount(f) == DueCount(s) - 1 <= |Bottom(f)| && DueCount(s) <= |Bottom(s)|
      && Bottom(f)[..DueCount(f)] == Bottom(s)[1..DueCount(s)]
  {
    hide Position, IsPosition, Inv, Bottom, Fired, Inserted, HeadDue, RoundInReach;
    DueHead(s);
    var b, n, t := Bottom(s), DueCount(s), Bottom(s)[0];
    var r := b[1..];
    FiredBottom(s);
    FiredRest(s);
    if t in s.periodic {
      InsertBehind(r, s.due, t, s.now + s.init[t], s.now, n - 1);
      PositionUnique(Bottom(Fired(s)), Fired(s).due, s.now, n - 1);
    } else {
      PositionUnique(r, s.due, s.now, n - 1);
    }
    assert b[1..n] == r[..n - 1];
  }

  lemma HeadOnce(b: seq<Tid>)
    requires Distinct(b) && b != []
    ensures b[0] !in b[1..]
  {}

  lemma TailPosition(row: seq<Tid>, due: map<Tid, nat>, d: nat)
    requires Position(row, due, d) > 0 && forall j :: 0 <= j < |row| ==> row[j] in due
    ensures row != [] && Position(row[1..], due, d) == Position(row, due, d) - 1
    ensures IsPosition(row[1..], due, d, Position(row, due, d) - 1)
  {
    PositionIs(row[1..], due, d);
  }

  /** Out of reach, the timer ends up in front of timers that are due, and the loop stops. */
  lemma MissedStops(s: State)
    requires Inv(s) && HeadDue(s) && !RoundInReach(s)
    ensures s.rows != [] && Bottom(s) != [] && Bottom(s)[0] in s.init && !HeadDue(Fired(s)) && exists x :: IsDue(Fired(s), x)
  {
    hide Bottom, Fired, Inv, Reached, Wrap, StartInReach;
    InvShape(s);
    HeadKnown(s);
    var t := Bottom(s)[0];
    var a := OutOfReachOf(s, t);
    FiredRest(s);
    KnownPeriods(s);
    MissedHead(s);
    ReachedIsPast(s.now + s.init[t], s.now);
    assert IsDue(Fired(s), a);
  }

  lemma MissedHead(s: State)
    requires Inv(s) && HeadDue(s) && !RoundInReach(s)
    ensures s.rows != [] && Bottom(s) != [] && Bottom(s)[0] in s.init && Bottom(s)[0] in s.periodic
    ensures Bottom(Fired(s)) != [] && Bottom(Fired(s))[0] == Bottom(s)[0]
  {
    hide Bottom, Fired, Inv, StartInReach, HeadDue;
    InvShape(s);
    HeadKnown(s);
    FiredBottomIs(s);
    FrontOfInserted(Bottom(s)[1..], Bottom(s)[0]);
  }

  lemma FrontOfInserted(r: seq<Tid>, t: Tid)
    ensures Inserted(r, 0, t) != [] && Inserted(r, 0, t)[0] == t
  {}

  lemma InvShape(s: State)
    requires Inv(s)
    ensures Shape(s)
  {}

  /** What makes a start of a listed timer go wrong: another timer that is long overdue. */
  lemma OutOfReachOf(s: State, t: Tid) returns (a: Tid)
    requires Inv(s) && t in s.init && !StartInReach(s, t)
    ensures a in s.active && a != t && a in s.due && s.now + s.init[t] + HALF > s.due[a] + TICKS
    ensures s.due[a] <= s.now < s.now + s.init[t]
  {
    hide Inv, MinusAll, Position;
    DroppedInv(s, t);
    var u := Dropped(s, t);
    var d := s.now + s.init[t];
    var m :| First(u.rows, s.due[t := d], d, m) && d + HALF > s.due[t := d][u.rows[m][0]] + TICKS;
    a := u.rows[m][0];
    ListedIsLive(u, m, a);
    KnownPeriods(s);
  }

  lemma ListedIsLive(s: State, l: nat, x: Tid)
    requires Inv(s) && l < |s.rows| && x in s.rows[l]
    ensures x in s.active && x in s.due && InWindow(s.now, s.due[x])
  {
    hide Shape;
    InRow(s, l, x);
  }

  /** A round brings no timer of period 0 that is due. */
  lemma FiredNotZero(s: State)
    requires Inv(s) && !ZeroDue(s) && HeadDue(s)
    ensures s.rows != [] && Bottom(s) != [] && Bottom(s)[0] in s.init && !ZeroDue(Fired(s))
  {
    HeadKnown(s);
    HeadDueIs(s);
    FiredRest(s);
    DueIsPrefix(s);
    hide Inv, Fired, Queued, Position, Bottom, HeadDue;
    assert IsDue(s, Bottom(s)[0]);
  }

  lemma KnownPeriods(s: State)
    requires Inv(s)
    ensures forall t :: t in s.init ==> s.init[t] < HALF
  {}

  /** All other active timers stand behind the first one. */
  lemma HeadBehind(s: State)
    requires Inv(s) && Bottom(s) != []
    ensures forall x :: x in s.active && x != Bottom(s)[0] ==> Behind(s, Bottom(s)[0], x)
  {
    BottomKnown(s);
    BottomQueued(s);
    BottomActive(s);
    hide Inv, Bottom;
    forall x | x in s.active && x != Bottom(s)[0]
      ensures Behind(s, Bottom(s)[0], x)
    {
      assert x in Bottom(s);
      var j :| 0 <= j < |Bottom(s)| && Bottom(s)[j] == x;
    }
  }
}
