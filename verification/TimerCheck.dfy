/**
 rt_timer_check as a whole: when it ends, when it fires every timer that is due, and what all runs of
 timer operations keep.
 */
module TimerCheck {
  import opened Ring
  import opened IpcList
  import opened TimerSearch
  import opened Timer

  // ---- the whole check ---------------------------------------------------------------------------------

  /** The loop of rt_timer_check after at most `n` rounds. */
  ghost function Rounds(s: State, n: nat): (u: State)
    requires Shape(s)
    ensures Shape(u)
    decreases n
  {
    if n == 0 || !HeadDue(s) then s
    else
      FiredShape(s);
      Rounds(Fired(s), n - 1)
  }

  /** The loop comes to an end. */
  ghost predicate Ends(s: State)
    requires Shape(s)
  {
    exists n: nat :: !HeadDue(Rounds(s, n))
  }

  /** Every timer started again by the check is in reach. */
  ghost predicate Orderly(s: State)
    requires Shape(s)
  {
    forall n: nat :: RoundInReach(Rounds(s, n))
  }

  /** rt_timer_check */
  ghost function Checked(s: State): (u: State)
    requires Shape(s) && Ends(s)
    ensures Shape(u)
  {
    var n: nat :| !HeadDue(Rounds(s, n));
    Rounds(s, n)
  }

  lemma RoundsNext(s: State, n: nat)
    requires Shape(s) && HeadDue(s)
    ensures s.rows != [] && Bottom(s) != [] && Bottom(s)[0] in s.init && Shape(Fired(s)) && Rounds(s, n + 1) == Rounds(Fired(s), n)
  {
    hide Shape, Fired, HeadDue;
    HeadKnown(s);
    FiredShape(s);
  }

  lemma RoundsRest(s: State, n: nat)
    requires Shape(s) && !HeadDue(s)
    ensures Rounds(s, n) == s
  {}

  /** Further rounds change nothing once the loop has stopped. */
  lemma {:induction false} RoundsStop(s: State, m: nat, n: nat)
    requires Shape(s) && !HeadDue(Rounds(s, m)) && m <= n
    ensures Rounds(s, n) == Rounds(s, m)
    decreases m
  {
    hide Shape, Fired, HeadDue, Rounds;
    if !HeadDue(s) {
      RoundsRest(s, m);
      RoundsRest(s, n);
    } else if m == 0 {
      RoundsZero(s);
    } else {
      RoundsNext(s, m - 1);
      RoundsNext(s, n - 1);
      RoundsStop(Fired(s), m - 1, n - 1);
    }
  }

  lemma RoundsZero(s: State)
    requires Shape(s)
    ensures Rounds(s, 0) == s
  {}

  lemma CheckedIs(s: State, n: nat)
    requires Shape(s) && !HeadDue(Rounds(s, n))
    ensures Ends(s) && Checked(s) == Rounds(s, n)
  {
    hide Shape, HeadDue, Rounds;
    var m: nat :| !HeadDue(Rounds(s, m)) && Checked(s) == Rounds(s, m);
    if m <= n { RoundsStop(s, m, n); } else { RoundsStop(s, n, m); }
  }

  /** The check is orderly exactly if its first round is in reach and the rest of it is orderly. */
  lemma OrderlyNext(s: State)
    requires Shape(s) && HeadDue(s)
    ensures s.rows != [] && Bottom(s) != [] && Bottom(s)[0] in s.init && Shape(Fired(s))
    ensures Orderly(s) <==> RoundInReach(s) && Orderly(Fired(s))
  {
    hide Shape, Fired, HeadDue, Rounds, RoundInReach, Bottom;
    RoundsZero(s);
    RoundsNext(s, 0);
    if Orderly(s) {
      forall n: nat
        ensures RoundInReach(Rounds(Fired(s), n))
      {
        RoundsNext(s, n);
        assert RoundInReach(Rounds(s, n + 1));
      }
    }
    if RoundInReach(s) && Orderly(Fired(s)) {
      forall n: nat
        ensures RoundInReach(Rounds(s, n))
      {
        if n > 0 { RoundsNext(s, n - 1); }
      }
    }
  }

  lemma OrderlyRest(s: State)
    requires Shape(s) && !HeadDue(s)
    ensures Orderly(s)
  {
    hide Shape, HeadDue, Rounds;
    forall n: nat
      ensures RoundInReach(Rounds(s, n))
    {
      RoundsRest(s, n);
    }
  }

  /** State of a timer after the check, given what it was before. */
  ghost predicate Settled(s: State, u: State, t: Tid) {
    if t !in s.active then (t in u.active <==> false)
    else if t !in s.due || s.due[t] > s.now then t in u.active && t in u.due && t in s.due && u.due[t] == s.due[t]
    else if t in s.periodic then t in u.active && t in u.due && t in s.init && u.due[t] == s.now + s.init[t]
    else t !in u.active
  }

  lemma {:induction false} FiresDue(s: State)
    requires Inv(s) && !ZeroDue(s) && Orderly(s)
    ensures var u := Rounds(s, DueCount(s));
      && Inv(u) && !HeadDue(u) && u.now == s.now
      && DueCount(s) <= |Bottom(s)| && u.fired == s.fired + Bottom(s)[..DueCount(s)]
      && (forall t :: Settled(s, u, t))
    decreases DueCount(s)
  {
    hide Inv, Bottom, Position, ZeroDue, Fired, HeadDue, Rounds, Orderly, RoundInReach, DueCount;
    InvShape(s);
    HeadDueIs(s);
    DueIsPrefix(s);
    if DueCount(s) == 0 {
      SettledNone(s);
      RoundsZero(s);
    } else {
      OrderlyNext(s);
      FiredPrefix(s);
      FiredInv(s);
      FiredRest(s);
      FiredNotZero(s);
      var f := Fired(s);
      RoundsNext(s, DueCount(s) - 1);
      FiresDue(f);
      var u := Rounds(s, DueCount(s));
      var n := DueCount(s);
      assert Bottom(s)[..n] == [Bottom(s)[0]] + Bottom(s)[1..n];
      forall t
        ensures Settled(s, u, t)
      {
        assert Settled(f, u, t);
        SettledStep(s, f, u, t);
      }
    }
  }

  /**
   An orderly rt_timer_check that ends fires exactly the due timers, once each, in timeout order with
   ties in starting order; it re-arms the periodic ones, drops the others, and leaves no due timer.
   */
  lemma CheckFiresDue(s: State)
    requires Inv(s) && Ends(s) && Orderly(s)
    ensures var u := Checked(s);
      && Inv(u) && u.now == s.now && (forall t :: !IsDue(u, t))
      && DueCount(s) <= |Bottom(s)| && u.fired == s.fired + Bottom(s)[..DueCount(s)]
      && (forall t :: t in Bottom(s)[..DueCount(s)] <==> IsDue(s, t))
      && (forall t :: Settled(s, u, t))
  {
    hide Inv, Bottom, Position, ZeroDue, HeadDue, Rounds, Orderly, Ends, Checked, Settled, DueCount;
    InvShape(s);
    CheckEnds(s);
    FiresDue(s);
    CheckedIs(s, DueCount(s));
    HeadDueIs(Checked(s));
    DueAreActive(s);
  }

  lemma SettledNone(s: State)
    requires Inv(s) && DueCount(s) == 0
    ensures forall t :: Settled(s, s, t)
  {
    hide Inv, Position, Bottom, DueCount;
    DueAreActive(s);
    LiveKnown(s);
    forall t | t in s.active
      ensures t in s.due && s.due[t] > s.now
    {
      assert t !in Bottom(s)[..DueCount(s)];
    }
  }

  lemma LiveKnown(s: State)
    requires Inv(s)
    ensures forall t :: t in s.active ==> t in s.due && t in s.init
  {}

  lemma SettledStep(s: State, f: State, u: State, t: Tid)
    requires Inv(s) && !ZeroDue(s) && DueCount(s) > 0 && HeadDue(s) && s.rows != [] && Bottom(s) != [] && Bottom(s)[0] in s.init && f == Fired(s)
    requires Settled(f, u, t)
    ensures Settled(s, u, t)
  {
    hide Fired, Inv, Bottom, Position, DueCount, HeadDue, ZeroDue, IsPosition;
    DueHead(s);
    FiredRest(s);
    ZeroNot(s);
  }

  lemma ZeroNot(s: State)
    requires Inv(s) && !ZeroDue(s)
    ensures forall t :: IsDue(s, t) && t in s.periodic && t in s.init ==> s.init[t] > 0
  {
    hide Inv;
  }

  // ---- when the check ends -------------------------------------------------------------------------------

  /** A timer of period 0 that is due keeps some timer due after every round in reach. */
  lemma ZeroDueStays(s: State)
    requires Inv(s) && ZeroDue(s)
    ensures HeadDue(s) && s.rows != [] && Bottom(s)[0] in s.init
    ensures ZeroDue(Fired(s)) && |Fired(s).fired| == |s.fired| + 1
  {
    hide Inv, Fired, Position, Bottom, HeadDue;
    var t :| t in s.active && t in s.periodic && t in s.due && t in s.init && s.due[t] <= s.now && s.init[t] == 0;
    assert IsDue(s, t);
    InvShape(s);
    HeadDueIs(s);
    HeadKnown(s);
    FiredRest(s);
    assert t in Fired(s).active && Fired(s).due[t] <= s.now;
  }

  /** With such a timer an orderly loop goes on for any number of rounds, calling one function in each. */
  lemma {:induction false} CheckNeverEnds(s: State, n: nat)
    requires Inv(s) && ZeroDue(s) && Orderly(s)
    ensures var u := Rounds(s, n);
      Inv(u) && HeadDue(u) && |u.fired| == |s.fired| + n
    decreases n
  {
    hide Inv, ZeroDue, Fired, HeadDue, Orderly, Rounds, RoundInReach;
    InvShape(s);
    ZeroDueStays(s);
    RoundsZero(s);
    if n > 0 {
      OrderlyNext(s);
      FiredInv(s);
      RoundsNext(s, n - 1);
      CheckNeverEnds(Fired(s), n - 1);
    }
  }

  /** A check that is not orderly stops behind the first round out of reach, with a due timer unfired and the list out of order. */
  lemma {:induction false} OutOfReachEnds(s: State, n: nat) returns (k: nat)
    requires Inv(s) && !RoundInReach(Rounds(s, n))
    ensures var u := Rounds(s, k); !HeadDue(u) && !Inv(u) && exists x :: IsDue(u, x)
    decreases n
  {
    hide Inv, Fired, HeadDue, Rounds, RoundInReach, IsDue;
    InvShape(s);
    RoundsZero(s);
    if !HeadDue(s) {
      RoundsRest(s, n);
      OrderlyRest(s);
      assert false;
    }
    FiredInv(s);
    if RoundInReach(s) {
      RoundsNext(s, n - 1);
      k := OutOfReachEnds(Fired(s), n - 1);
      RoundsNext(s, k);
      k := k + 1;
    } else {
      RoundsNext(s, 0);
      FiredShape0(s);
      RoundsZero(Fired(s));
      MissedStops(s);
      k := 1;
    }
  }

  lemma FiredShape0(s: State)
    requires Shape(s) && HeadDue(s)
    ensures s.rows != [] && Bottom(s) != [] && Bottom(s)[0] in s.init && Shape(Fired(s))
  {
    hide Shape, Fired, HeadDue;
    HeadKnown(s);
    FiredShape(s);
  }

  /** rt_timer_check goes on for ever exactly if a timer that is due has period 0 and every start is in reach. */
  lemma CheckEnds(s: State)
    requires Inv(s)
    ensures Ends(s) <==> !(ZeroDue(s) && Orderly(s))
  {
    hide Inv, ZeroDue, Rounds, HeadDue, RoundInReach, DueCount, Bottom, Settled;
    InvShape(s);
    if Orderly(s) {
      if ZeroDue(s) {
        forall n: nat
          ensures HeadDue(Rounds(s, n))
        {
          CheckNeverEnds(s, n);
        }
      } else {
        FiresDue(s);
      }
    } else {
      var n: nat :| !RoundInReach(Rounds(s, n));
      var k := OutOfReachEnds(s, n);
    }
  }

  /** A check that ends leaves the list in order, and no due timer, exactly if it is orderly. */
  lemma CheckKeepsOrder(s: State)
    requires Inv(s) && Ends(s)
    ensures Inv(Checked(s)) <==> Orderly(s)
    ensures (exists t :: IsDue(Checked(s), t)) <==> !Orderly(s)
  {
    hide Inv, ZeroDue, Rounds, HeadDue, RoundInReach, DueCount, Bottom, Settled, Checked, Ends, IsDue;
    InvShape(s);
    if Orderly(s) {
      CheckFiresDue(s);
    } else {
      var n: nat :| !RoundInReach(Rounds(s, n));
      var k := OutOfReachEnds(s, n);
      CheckedIs(s, k);
    }
  }

  // ---- when a check is orderly ---------------------------------------------------------------------------

  /** A round leaves the periodic timers that are due in reach of the timers behind them. */
  lemma FiredNear(s: State)
    requires Inv(s) && RearmsNear(s) && HeadDue(s)
    ensures s.rows != [] && Bottom(s) != [] && Bottom(s)[0] in s.init && RearmsNear(Fired(s))
  {
    hide Inv, Fired, Position, Bottom, HeadDue;
    InvShape(s);
    HeadKnown(s);
    FiredRest(s);
    KnownPeriods(s);
    var f := Fired(s);
    var h := Bottom(s)[0];
    forall p, x | Behind(f, p, x) && p in f.periodic && p in f.init && f.due[p] <= f.now
      ensures f.now + f.init[p] + HALF <= f.due[x] + TICKS
    {
      if x != h && p != h { assert Behind(s, p, x); }
    }
  }

  lemma HeadNear(s: State)
    requires Inv(s) && RearmsNear(s)
    ensures RoundInReach(s)
  {
    hide Inv, Position, Bottom, HeadDue, Reached;
    InvShape(s);
    if HeadDue(s) && !RoundInReach(s) {
      HeadKnown(s);
      HeadIsDue(s);
      var a := OutOfReachOf(s, Bottom(s)[0]);
      HeadBehind(s);
      assert false;
    }
  }

  lemma HeadIsDue(s: State)
    requires Inv(s) && HeadDue(s)
    ensures IsDue(s, Bottom(s)[0])
  {
    hide Inv, Position, Bottom, HeadDue, DueCount, IsPosition;
    HeadDueIs(s);
    DueHead(s);
  }

  lemma {:induction false} NearRounds(s: State, n: nat)
    requires Inv(s) && RearmsNear(s)
    ensures RoundInReach(Rounds(s, n))
    decreases n
  {
    hide Inv, Fired, HeadDue, Rounds, RoundInReach, RearmsNear;
    InvShape(s);
    HeadNear(s);
    RoundsZero(s);
    if !HeadDue(s) {
      RoundsRest(s, n);
    } else if n > 0 {
      FiredInv(s);
      FiredNear(s);
      RoundsNext(s, n - 1);
      NearRounds(Fired(s), n - 1);
    }
  }

  /** A check is orderly if every due periodic timer can be compared with the timers behind it. */
  lemma NearIsOrderly(s: State)
    requires Inv(s) && RearmsNear(s)
    ensures Shape(s) && Orderly(s)
  {
    hide Inv, Rounds, RoundInReach, RearmsNear;
    InvShape(s);
    forall n: nat
      ensures RoundInReach(Rounds(s, n))
    {
      NearRounds(s, n);
    }
  }

  // ---- a list of one row, which is the default ---------------------------------------------------------

  lemma OneRowReach(rows: seq<seq<Tid>>, due: map<Tid, nat>, d: nat)
    requires |rows| == 1 && Searchable(rows, due, d)
    ensures var row := rows[0];
      InReach(rows, due, d) <==> row == [] || row[0] !in due || d < due[row[0]] || d + HALF <= due[row[0]] + TICKS
  {
    if Position(rows[0], due, d) > 0 {
      assert First(rows, due, d, 0);
    }
  }

  /** An overdue timer `x` that is out of reach of timer `p` in front of it makes some round go wrong. */
  lemma {:induction false} OutOfReachRound(s: State, p: Tid, x: Tid) returns (n: nat)
    requires Inv(s) && |s.rows| == 1 && Behind(s, p, x) && p in s.periodic && p in s.init && s.due[p] <= s.now
    requires s.now + s.init[p] + HALF > s.due[x] + TICKS && p in Bottom(s)
    ensures Shape(s) && !RoundInReach(Rounds(s, n))
    decreases IndexOf(Bottom(s), p)
  {
    hide Inv, Fired, HeadDue, Rounds, RoundInReach, Bottom, Position, Behind;
    InvShape(s);
    RoundsZero(s);
    n := 0;
    PairDue(s, p, x);
    if RoundInReach(s) {
      HeadKnown(s);
      if Bottom(s)[0] == p {
        HeadOutOfReach(s, x);
        assert false;
      }
      FiredInv(s);
      BehindStays(s, p, x);
      n := OutOfReachRound(Fired(s), p, x);
      RoundsNext(s, n);
      n := n + 1;
    }
  }

  lemma PairDue(s: State, p: Tid, x: Tid)
    requires Inv(s) && Behind(s, p, x) && s.due[p] <= s.now
    ensures HeadDue(s) && x in s.active && x in s.due && x != p
  {
    hide Inv, HeadDue;
    HeadDueIs(s);
    assert IsDue(s, p);
  }

  /** With one row, the first timer of it cannot be started again out of reach of another one. */
  lemma HeadOutOfReach(s: State, x: Tid)
    requires Inv(s) && |s.rows| == 1 && HeadDue(s) && Bottom(s) != [] && Bottom(s)[0] in s.periodic && Bottom(s)[0] in s.init
    requires x in s.active && x in s.due && x != Bottom(s)[0] && s.now + s.init[Bottom(s)[0]] + HALF > s.due[x] + TICKS
    ensures !RoundInReach(s)
  {
    hide Inv, Bottom, InReach, Searchable, HeadDue;
    var t := Bottom(s)[0];
    var u := Dropped(s, t);
    var d := s.now + s.init[t];
    DroppedInv(s, t);
    StateSearchable(u, t);
    OneRowReach(u.rows, s.due[t := d], d);
    InvShape(u);
    BottomActive(u);
    BottomIs(u);
    RowSorted(u.rows, s.due[t := d], d);
    FrontOf(u.rows[0], s.due[t := d], x);
    KnownPeriods(s);
  }

  lemma RowSorted(rows: seq<seq<Tid>>, due: map<Tid, nat>, d: nat)
    requires Searchable(rows, due, d) && rows != []
    ensures Sorted(rows[0], due)
  {}

  /** A round keeps two timers in their order and brings the first of them one place nearer to the front. */
  lemma BehindStays(s: State, p: Tid, x: Tid)
    requires Inv(s) && HeadDue(s) && RoundInReach(s) && Behind(s, p, x) && s.due[p] <= s.now && p in Bottom(s)
    requires Bottom(s) != [] && Bottom(s)[0] != p && p in s.init && |s.rows| == 1
    ensures s.rows != [] && Bottom(s)[0] in s.init && |Fired(s).rows| == 1
    ensures var f := Fired(s);
      && Behind(f, p, x) && f.due[p] == s.due[p] && f.due[x] == s.due[x] && f.now == s.now && f.init == s.init && f.periodic == s.periodic
      && p in Bottom(f) && IndexOf(Bottom(f), p) < IndexOf(Bottom(s), p)
  {
    hide Inv, Bottom, HeadDue, RoundInReach, Fired, Position;
    InvShape(s);
    HeadKnown(s);
    HeadBehind(s);
    FiredRest(s);
    FiredRows(s);
    FiredIndex(s, IndexOf(Bottom(s), p));
    IndexUnder(Bottom(Fired(s)), p, IndexOf(Bottom(s), p) - 1);
  }

  lemma FiredRows(s: State)
    requires s.rows != [] && Bottom(s) != [] && Bottom(s)[0] in s.init
    ensures |Fired(s).rows| == |s.rows|
  {
    hide Bottom, InsertAll, MinusAll;
    assert 0 <= |s.rows| - 1;
  }

  lemma IndexUnder(row: seq<Tid>, x: Tid, i: nat)
    requires i < |row| && row[i] == x
    ensures x in row && IndexOf(row, x) <= i
  {
    if i > 0 && row[0] != x { IndexUnder(row[1..], x, i - 1); }
  }

  lemma FiredIndex(s: State, i: nat)
    requires Inv(s) && HeadDue(s) && RoundInReach(s) && 0 < i < |Bottom(s)| && Bottom(s)[i] in s.due && s.due[Bottom(s)[i]] <= s.now
    ensures s.rows != [] && Bottom(s) != [] && Bottom(s)[0] in s.init
    ensures i - 1 < |Bottom(Fired(s))| && Bottom(Fired(s))[i - 1] == Bottom(s)[i]
  {
    hide Inv, Bottom, HeadDue, RoundInReach, Fired, Position, Inserted, Queued;
    InvShape(s);
    HeadKnown(s);
    BottomQueued(s);
    QueuedKnown(Bottom(s), s.due, s.arrival, s.clock);
    HeadOnce(Bottom(s));
    FiredBottom(s);
    var t := Bottom(s)[0];
    if t in s.periodic {
      InsertBeyond(Bottom(s), s.due, s.now + s.init[t], i);
    }
  }

  /** Inserting the first timer of a list again leaves those due no later in front of it. */
  lemma InsertBeyond(b: seq<Tid>, due: map<Tid, nat>, d: nat, i: nat)
    requires Sorted(b, due) && 0 < i < |b| && b[0] !in b[1..] && due[b[i]] <= d
    ensures var r := b[1..];
      var q := Inserted(r, Position(r, due[b[0] := d], d), b[0]);
      i - 1 < |q| && q[i - 1] == b[i]
  {
    hide Position, Inserted;
    var r, due' := b[1..], due[b[0] := d];
    assert forall j :: 0 <= j < |r| ==> r[j] == b[j + 1] && r[j] in r;
    PositionIs(r, due', d);
    var p := Position(r, due', d);
    PositionSplits(r, due', d, p);
    InsertedAt(r, p, b[0], i - 1);
  }

  /** With one row a check is orderly exactly if every due periodic timer is near the timers behind it. */
  lemma OneRowOrderly(s: State)
    requires Inv(s) && |s.rows| == 1
    ensures Shape(s) && (Orderly(s) <==> RearmsNear(s))
  {
    hide Inv, Rounds, RoundInReach, Bottom;
    InvShape(s);
    if RearmsNear(s) {
      NearIsOrderly(s);
    } else {
      var p, x :| Behind(s, p, x) && p in s.periodic && p in s.init && s.due[p] <= s.now && s.now + s.init[p] + HALF > s.due[x] + TICKS;
      BottomActive(s);
      var n := OutOfReachRound(s, p, x);
    }
  }

  /** If no timer is more than SLACK ticks late, every start is in reach and every check is orderly. */
  lemma PunctualIsInReach(s: State)
    requires Inv(s) && forall t :: t in s.active && t in s.due ==> s.now <= s.due[t] + SLACK
    ensures Shape(s) && Orderly(s) && forall t :: t in s.init ==> StartInReach(s, t)
  {
    hide Inv, Rounds, RoundInReach, StartInReach;
    InvShape(s);
    KnownPeriods(s);
    NearIsOrderly(s);
    forall t | t in s.init
      ensures StartInReach(s, t)
    {
      if !StartInReach(s, t) {
        var a := OutOfReachOf(s, t);
        assert false;
      }
    }
  }

  // ---- all runs ------------------------------------------------------------------------------------------

  datatype Action = Start(t: Tid) | Stop(t: Tid) | Check | Tick | SetTime(t: Tid, time: nat) | SetPeriodic(t: Tid, on: bool)

  ghost predicate Can(s: State, a: Action)
    requires Shape(s)
  {
    match a
    case Start(t) => t in s.init
    case Stop(_) => true
    case Check => Ends(s)
    case Tick => true
    case SetTime(t, time) => t in s.init && time < HALF
    case SetPeriodic(t, _) => t in s.init
  }

  ghost function Does(s: State, a: Action): State
    requires Shape(s) && Can(s, a)
  {
    match a
    case Start(t) => Started(s, t)
    case Stop(t) => Stopped(s, t)
    case Check => Checked(s)
    case Tick => Ticked(s)
    case SetTime(t, time) => s.(init := s.init[t := time])
    case SetPeriodic(t, on) => s.(periodic := if on then s.periodic + {t} else s.periodic - {t})
  }

  /** What an action needs to leave the list in order. */
  ghost predicate Keeps(s: State, a: Action)
    requires Shape(s) && Can(s, a)
  {
    match a
    case Start(t) => StartInReach(s, t)
    case Check => Orderly(s)
    case Tick => forall t :: t in s.active && t in s.due ==> InWindow(s.now + 1, s.due[t])
    case _ => true
  }

  /** Every action keeps the links of the list. */
  lemma StepShape(s: State, a: Action)
    requires Shape(s) && Can(s, a)
    ensures Shape(Does(s, a))
  {
    hide Shape, Started, Stopped, Checked, Ends;
    match a
    case Start(t) => StartedShape(s, t);
    case Stop(t) => StoppedShape(s, t);
    case Check =>
    case Tick => PlainShape(s, a);
    case SetTime(t, time) => PlainShape(s, a);
    case SetPeriodic(t, on) => PlainShape(s, a);
  }

  lemma PlainShape(s: State, a: Action)
    requires Shape(s) && Can(s, a) && (a.Tick? || a.SetTime? || a.SetPeriodic?)
    ensures Shape(Does(s, a)) && Does(s, a).rows == s.rows
  {
    hide NoDoubles, Nested, Ends;
    assert Bottom(Does(s, a)) == Bottom(s);
  }

  /** An action leaves the list in order, and every timer in time, exactly if it has what it needs for that. */
  lemma StepInv(s: State, a: Action)
    requires Inv(s) && Can(s, a)
    ensures Inv(Does(s, a)) <==> Keeps(s, a)
  {
    hide Inv, Started, Stopped, Checked, Ends, Orderly, StartInReach;
    InvShape(s);
    match a
    case Start(t) => StartedInv(s, t);
    case Stop(t) => StoppedInv(s, t);
    case Check => CheckKeepsOrder(s);
    case Tick => TickedInv(s);
    case SetTime(t, time) => SetInv(s, a);
    case SetPeriodic(t, on) => SetInv(s, a);
  }

  lemma TickedInv(s: State)
    requires Inv(s)
    ensures Shape(s) && (Inv(Ticked(s)) <==> Keeps(s, Tick))
  {
    hide Queued, InWindow, NoDoubles, Nested;
    PlainShape(s, Tick);
  }

  lemma SetInv(s: State, a: Action)
    requires Inv(s) && Can(s, a) && (a.SetTime? || a.SetPeriodic?)
    ensures Inv(Does(s, a))
  {
    hide Queued, InWindow, Shape;
    InvShape(s);
    PlainShape(s, a);
  }

  /** No timer is started. */
  function Initial(levels: nat, init: map<Tid, nat>, now: nat): State {
    State(seq(levels, _ => []), map[], init, {}, {}, map[], 0, now, 0, [])
  }

  lemma InitialInv(levels: nat, init: map<Tid, nat>, now: nat)
    requires levels > 0 && forall t :: t in init ==> init[t] < HALF
    ensures Inv(Initial(levels, init, now))
  {}

  ghost predicate Step(s: State, a: Action, s': State) {
    Shape(s) ==> Can(s, a) && s' == Does(s, a)
  }

  ghost predicate IsRun(ss: seq<State>, acts: seq<Action>) {
    && |ss| == |acts| + 1
    && ss[0].rows != [] && (forall t :: t in ss[0].init ==> ss[0].init[t] < HALF)
    && ss[0] == Initial(|ss[0].rows|, ss[0].init, ss[0].now)
    && forall i, j :: 0 <= i < |acts| && j == i + 1 ==> Step(ss[i], acts[i], ss[j])
  }

  /** The links are intact in every state of every run: rows without doubles, each inside the row below, the last one complete. */
  lemma {:induction false} RunShape(ss: seq<State>, acts: seq<Action>, k: nat)
    requires IsRun(ss, acts) && k < |ss|
    ensures Shape(ss[k])
  {
    hide Shape, Does, Can, Initial, Inv;
    if k == 0 {
      InitialInv(|ss[0].rows|, ss[0].init, ss[0].now);
      InvShape(ss[0]);
    } else {
      RunShape(ss, acts, k - 1);
      var i := k - 1;
      assert Step(ss[i], acts[i], ss[k]);
      StepShape(ss[i], acts[i]);
    }
  }

  /** Step `i` of a run has what it needs to leave the list in order. */
  ghost predicate KeepsAt(ss: seq<State>, acts: seq<Action>, i: nat) {
    i < |acts| <= |ss| && Shape(ss[i]) && Can(ss[i], acts[i]) && Keeps(ss[i], acts[i])
  }

  /** All states of a run up to `k` are in order exactly if every start and check before was in reach and every tick in time. */
  lemma {:induction false} RunInv(ss: seq<State>, acts: seq<Action>, k: nat)
    requires IsRun(ss, acts) && k < |ss|
    ensures (forall j :: 0 <= j <= k ==> Inv(ss[j])) <==> forall i :: 0 <= i < k ==> KeepsAt(ss, acts, i)
  {
    hide Shape, Does, Can, Keeps, Initial, Inv;
    if k == 0 {
      InitialInv(|ss[0].rows|, ss[0].init, ss[0].now);
    } else {
      RunInv(ss, acts, k - 1);
      var i := k - 1;
      assert Step(ss[i], acts[i], ss[k]);
      RunShape(ss, acts, i);
      if Inv(ss[i]) { StepInv(ss[i], acts[i]); }
      assert (forall j :: 0 <= j <= k ==> Inv(ss[j])) <==> (forall j :: 0 <= j <= i ==> Inv(ss[j])) && Inv(ss[k]);
      assert (forall j :: 0 <= j < k ==> KeepsAt(ss, acts, j)) <==> (forall j :: 0 <= j < i ==> KeepsAt(ss, acts, j)) && KeepsAt(ss, acts, i);
      assert (forall j :: 0 <= j <= i ==> Inv(ss[j])) ==> Inv(ss[i]);
    }
  }

  // ---- concrete runs -------------------------------------------------------------------------------------

  ghost predicate Reachable(s: State) {
    exists ss, acts :: IsRun(ss, acts) && ss[|acts|] == s
  }

  lemma ReachStart(init: map<Tid, nat>)
    requires forall t :: t in init ==> init[t] < HALF
    ensures Reachable(Initial(1, init, 0))
  {
    assert IsRun([Initial(1, init, 0)], []);
  }

  lemma ReachStep(s: State, a: Action)
    requires Reachable(s)
    ensures Shape(s) && (Can(s, a) ==> Reachable(Does(s, a)))
  {
    hide Shape, Does, Can, Initial;
    var ss, acts :| IsRun(ss, acts) && ss[|acts|] == s;
    RunShape(ss, acts, |acts|);
    if Can(s, a) {
      var u := Does(s, a);
      var tt, bb := ss + [u], acts + [a];
      forall i, j | 0 <= i < |bb| && j == i + 1
        ensures Step(tt[i], bb[i], tt[j])
      {
        if i < |acts| { assert Step(ss[i], acts[i], ss[j]); }
      }
      assert IsRun(tt, bb) && tt[|bb|] == u;
    }
  }

  lemma ReachSet(s: State, t: Tid, time: nat)
    requires Reachable(s) && t in s.init && time < HALF
    ensures Reachable(s.(init := s.init[t := time])) && Reachable(s.(periodic := s.periodic + {t}))
  {
    hide Reachable, Shape;
    ReachStep(s, SetTime(t, time));
    ReachStep(s, SetPeriodic(t, true));
  }

  /** A timer is started in a list of one row, at the place `i`. */
  lemma ReachFirst(s: State, t: Tid, i: nat, u: State)
    requires Reachable(s) && |s.rows| == 1 && t !in s.rows[0] && t in s.init && i <= |s.rows[0]|
    requires Scan(s.rows[0], s.due[t := s.now + s.init[t]], s.now + s.init[t]) == i
    requires u == s.(rows := [Inserted(s.rows[0], i, t)], due := s.due[t := s.now + s.init[t]], active := s.active + {t},
      arrival := s.arrival[t := s.clock], clock := s.clock + 1, random := NextRandom(s.random))
    ensures Reachable(u)
  {
    hide Reachable, Shape, Started, Scan, Inserted, NextRandom;
    ReachStep(s, Start(t));
    OneRowStarted(s, t);
  }

  lemma {:induction false} ReachTicks(s: State, n: nat)
    requires Reachable(s)
    ensures Reachable(s.(now := s.now + n))
    decreases n
  {
    hide Reachable;
    if n > 0 {
      ReachStep(s, Tick);
      ReachTicks(Ticked(s), n - 1);
    }
  }

  /** A start in a list of one row. */
  lemma OneRowStarted(s: State, t: Tid)
    requires |s.rows| == 1 && t !in s.rows[0] && t in s.init
    ensures var d := s.now + s.init[t];
      Started(s, t) == s.(rows := [Inserted(s.rows[0], Scan(s.rows[0], s.due[t := d], d), t)], due := s.due[t := d], active := s.active + {t},
        arrival := s.arrival[t := s.clock], clock := s.clock + 1, random := NextRandom(s.random))
  {
    hide Scan, Inserted, NextRandom;
    var d := s.now + s.init[t];
    MinusAbsent(s.rows[0], t);
    var u := Dropped(s, t);
    assert u.rows == s.rows;
    assert s.rows[0][0..] == s.rows[0];
    assert Head(s.rows, s.due[t := d], d, 0) == Scan(s.rows[0], s.due[t := d], d);
    assert Started(s, t).rows == [Inserted(s.rows[0], Scan(s.rows[0], s.due[t := d], d), t)];
    assert s.active - {t} + {t} == s.active + {t};
  }

  lemma MinusAbsent(q: seq<Tid>, t: Tid)
    requires t !in q
    ensures Minus(q, t) == q
  {}

  /** Timer 1 was due at tick 0 and is still in the list at tick 4; timer 2 has the longest time. */
  function Overdue(): State {
    State([[1]], map[1 := 0], map[1 := 0, 2 := HALF - 1], {}, {1}, map[1 := 0], 1, 4, 1, [])
  }

  lemma OverdueReached()
    ensures Reachable(Overdue())
  {
    hide Reachable;
    var s := Initial(1, map[1 := 0, 2 := HALF - 1], 0);
    ReachStart(s.init);
    assert s.rows == [[]] && Inserted([], 0, 1) == [1];
    ReachFirst(s, 1, 0, Overdue().(now := 0));
    ReachTicks(Overdue().(now := 0), 4);
  }

  /** In that reachable state, which is in order, starting timer 2 puts it in front of timer 1. */
  lemma StartMisorders()
    ensures var s := Overdue();
      && Reachable(s) && Inv(s) && !StartInReach(s, 2)
      && Scan([1], s.due[2 := HALF + 3], HALF + 3) == 0 && Position([1], s.due[2 := HALF + 3], HALF + 3) == 1
      && Started(s, 2).rows == [[2, 1]] && !Inv(Started(s, 2))
  {
    hide Reachable, Started, Scan, Position, StartInReach, Inv;
    var s := Overdue();
    OverdueReached();
    OverdueInv();
    OneRowStarted(s, 2);
    OverdueScan();
    assert Inserted([1], 0, 2) == [2, 1];
    StartedInv(s, 2);
    OutOfOrder(Started(s, 2));
  }

  lemma OverdueScan()
    ensures var due := map[1 := 0, 2 := HALF + 3];
      Overdue().due[2 := HALF + 3] == due && Scan([1], due, HALF + 3) == 0 && Position([1], due, HALF + 3) == 1
  {
    assert [1][1..] == [];
  }

  lemma OutOfOrder(s: State)
    requires s.rows == [[2, 1]] && 1 in s.due && 2 in s.due && s.due[1] < s.due[2]
    ensures !Inv(s)
  {
    assert s.rows[0] == [2, 1];
    assert [2, 1][0] == 2 && [2, 1][1] == 1;
  }

  lemma OverdueInv()
    ensures Inv(Overdue())
  {}

  /** Timers 1 and 2, both periodic, were due at tick 0 and are checked at tick 4; the period of timer 1 is the longest, that of timer 2 is 0. */
  function Late(): State {
    State([[1, 2]], map[1 := 0, 2 := 0], map[1 := HALF - 1, 2 := 0], {1, 2}, {1, 2}, map[1 := 0, 2 := 1], 2, 4, 2, [])
  }

  lemma LateReached()
    ensures Reachable(Late())
  {
    hide Reachable;
    var s0 := Initial(1, map[1 := 0, 2 := 0], 0);
    ReachStart(s0.init);
    ReachSet(s0, 1, 0);
    var s1 := s0.(periodic := {1});
    assert s0.(periodic := s0.periodic + {1}) == s1;
    ReachSet(s1, 2, 0);
    var s2 := s1.(periodic := {1, 2});
    assert s1.(periodic := s1.periodic + {2}) == s2;
    assert s2.rows == [[]] && Inserted([], 0, 1) == [1];
    var s3 := s2.(rows := [[1]], due := map[1 := 0], active := {1}, arrival := map[1 := 0], clock := 1, random := 1);
    ReachFirst(s2, 1, 0, s3);
    LateSecond(s3);
    var s5 := Late().(now := 0);
    ReachTicks(s5, 4);
  }

  lemma LateSecond(s: State)
    requires Reachable(s) && s == State([[1]], map[1 := 0], map[1 := 0, 2 := 0], {1, 2}, {1}, map[1 := 0], 1, 0, 1, [])
    ensures Reachable(Late().(now := 0))
  {
    hide Reachable;
    assert [1][1..] == [];
    assert Scan([1], map[1 := 0, 2 := 0], 0) == 1;
    assert Inserted([1], 1, 2) == [1, 2];
    var u := s.(rows := [[1, 2]], due := map[1 := 0, 2 := 0], active := {1, 2}, arrival := map[1 := 0, 2 := 1], clock := 2, random := 2);
    ReachFirst(s, 2, 1, u);
    ReachSet(u, 1, HALF - 1);
    assert u.init[1 := HALF - 1] == map[1 := HALF - 1, 2 := 0];
  }

  /** In that reachable state the check ends although timer 2 has period 0: it fires timer 1 and leaves timer 2 due. */
  lemma CheckLeavesDue()
    ensures var s := Late();
      && Reachable(s) && Inv(s) && ZeroDue(s) && !RearmsNear(s) && Ends(s)
      && Checked(s).fired == [1] && Checked(s).rows == [[1, 2]] && IsDue(Checked(s), 2)
  {
    var s := Late();
    LateReached();
    LateInv();
    hide Reachable, Inv;
    InvShape(s);
    LateFired();
    assert HeadDue(s);
    FiredShape(s);
    RoundsNext(s, 0);
    RoundsZero(Fired(s));
    CheckedIs(s, 1);
    assert 2 in s.active && 2 in s.periodic;
    assert Behind(s, 1, 2);
  }

  lemma LateInv()
    ensures Inv(Late())
  {}

  lemma LateFired()
    ensures var s := Late();
      && s.rows != [] && Bottom(s) != [] && Bottom(s)[0] in s.init
      && Fired(s).rows == [[1, 2]] && !HeadDue(Fired(s)) && Fired(s).fired == [1] && IsDue(Fired(s), 2)
  {
    var s := Late();
    assert [1, 2][1..] == [2] && [2][0..] == [2];
    var d := HALF + 3;
    var due := s.due[1 := d];
    assert Dropped(s, 1).rows == [[2]];
    assert Scan([2], due, d) == 0;
    assert Head([[2]], due, d, 0) == 0;
    assert Inserted([2], 0, 1) == [1, 2];
    assert Fired(s).rows == [[1, 2]];
  }

  /** A started periodic timer of period 0. */
  function Zero(): State {
    State([[1]], map[1 := 0], map[1 := 0], {1}, {1}, map[1 := 0], 1, 0, 1, [])
  }

  lemma ZeroReached()
    ensures Reachable(Zero())
  {
    hide Reachable;
    var s := Initial(1, map[1 := 0], 0);
    ReachStart(s.init);
    ReachSet(s, 1, 0);
    var u := s.(periodic := {1});
    assert s.(periodic := s.periodic + {1}) == u;
    assert u.rows == [[]] && Inserted([], 0, 1) == [1];
    ReachFirst(u, 1, 0, Zero());
  }

  /** In that reachable state rt_timer_check does not end. */
  lemma ZeroPeriodRun()
    ensures var s := Zero(); Reachable(s) && Inv(s) && ZeroDue(s) && Shape(s) && Orderly(s) && !Ends(s)
  {
    var s := Zero();
    ZeroReached();
    ZeroInv();
    hide Reachable, Inv, Orderly, Ends;
    assert 1 in s.active && s.due[1] <= s.now;
    NearIsOrderly(s);
    CheckEnds(s);
  }

  lemma ZeroInv()
    ensures Inv(Zero())
  {}
}
