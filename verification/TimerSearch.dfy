/**
 The search of rt_timer_start (timer.c:409-438): wrap-around 32-bit ticks, the linear search of one
 row, and the nested search of a skip list.  The main result is when it finds the true place.
 */
module TimerSearch {
  import opened Arith
  import opened IpcList

  /** The range of rt_tick_t, and RT_TICK_MAX / 2. */
  const TICKS: nat := 0x1_0000_0000
  const HALF: nat := 0x7fff_ffff

  /** How late a timer in the list may be to be ordered right against every new one: what halving RT_TICK_MAX leaves. */
  const SLACK: nat := 3

  // ---- wrap-around comparison --------------------------------------------------------------------

  /** A moment as the kernel stores it. */
  function Wrap(a: nat): nat {
    a % TICKS
  }

  /** The test of rt_timer_start: tick `a` comes after tick `b`. */
  predicate After(a: nat, b: nat) {
    0 < (a - b) % TICKS < HALF
  }

  /** The test of rt_timer_check: tick `a` has been reached at tick `now`. */
  predicate Reached(a: nat, now: nat) {
    (now - a) % TICKS < HALF
  }

  lemma WrappedDifference(a: int, b: int)
    ensures (a % TICKS - b % TICKS) % TICKS == (a - b) % TICKS
  {
    var d := (a - b) % TICKS;
    var k := (a - b) / TICKS - a / TICKS + b / TICKS;
    assert a % TICKS - b % TICKS == k * TICKS + d;
    DivUnique(a % TICKS - b % TICKS, TICKS, k, d);
  }

  /** On wrapped ticks the test decides the true order, if the two moments are close enough. */
  lemma AfterIsLater(a: nat, b: nat)
    requires a < b + HALF && b + HALF <= a + TICKS
    ensures After(Wrap(a), Wrap(b)) <==> a > b
  {
    WrappedDifference(a, b);
  }

  lemma ReachedIsPast(a: nat, now: nat)
    requires now < a + HALF && a < now + HALF
    ensures Reached(Wrap(a), Wrap(now)) <==> a <= now
  {
    WrappedDifference(now, a);
  }

  /** For a timer in the list due at `a` and a new one due no earlier, the window is exact. */
  lemma NearIsExact(a: nat, d: nat)
    requires a <= d < a + TICKS
    ensures !After(Wrap(a), Wrap(d)) <==> d + HALF <= a + TICKS
  {
    WrappedDifference(a, d);
    if d > a { DivUnique(a - d, TICKS, -1, TICKS - (d - a)); }
  }

  /**
   How late a check may be: a timer due at `a` that is still in the list at `now` is ordered
   correctly against every timer that can be started now exactly when it is at most SLACK ticks late.
   */
  lemma SlackIsExact(a: nat, now: nat)
    requires a <= now < a + HALF
    ensures (forall b: nat :: now <= b < now + HALF ==> !After(Wrap(a), Wrap(b))) <==> now <= a + SLACK
  {
    if now <= a + SLACK {
      forall b: nat | now <= b < now + HALF
        ensures !After(Wrap(a), Wrap(b))
      {
        AfterIsLater(a, b);
      }
    } else {
      var b := now + HALF - 1;
      WrappedDifference(a, b);
      assert After(Wrap(a), Wrap(b));
    }
  }

  // ---- the search ----------------------------------------------------------------------------------

  /** The first place in `row` behind every timer due no later than `d`. */
  function Position(row: seq<Tid>, due: map<Tid, nat>, d: nat): (i: nat)
    ensures i <= |row|
    ensures i > 0 ==> row != [] && row[0] in due && due[row[0]] <= d
  {
    if row == [] || row[0] !in due || d < due[row[0]] then 0 else 1 + Position(row[1..], due, d)
  }

  /** The inner loop of rt_timer_start in one row: go right while the next timer is not after `d`, on wrapped ticks. */
  function Scan(row: seq<Tid>, due: map<Tid, nat>, d: nat): (i: nat)
    ensures i <= |row|
  {
    if row == [] || row[0] !in due || After(Wrap(due[row[0]]), Wrap(d)) then 0 else 1 + Scan(row[1..], due, d)
  }

  function IndexOf(row: seq<Tid>, x: Tid): (i: nat)
    requires x in row
    ensures i < |row| && row[i] == x
  {
    if row[0] == x then 0 else 1 + IndexOf(row[1..], x)
  }

  /** Where the search of row `l` starts: behind the timer at which the search of the row above stopped. */
  function From(rows: seq<seq<Tid>>, due: map<Tid, nat>, d: nat, l: nat): (i: nat)
    requires l < |rows|
    ensures i <= |rows[l]|
    decreases l, 0
  {
    if l == 0 || Head(rows, due, d, l - 1) == 0 then 0
    else
      var x := rows[l - 1][Head(rows, due, d, l - 1) - 1];
      if x in rows[l] then IndexOf(rows[l], x) + 1 else 0
  }

  /** The place in row `l` that the search of rt_timer_start finds for a timer due at `d`. */
  function Head(rows: seq<seq<Tid>>, due: map<Tid, nat>, d: nat, l: nat): (i: nat)
    requires l < |rows|
    ensures i <= |rows[l]|
    decreases l, 1
  {
    var from := From(rows, due, d, l);
    from + Scan(rows[l][from..], due, d)
  }

  /** Row `m` is the sparsest one that lists a timer due no later than `d`. */
  ghost predicate First(rows: seq<seq<Tid>>, due: map<Tid, nat>, d: nat, m: int) {
    0 <= m < |rows| && Position(rows[m], due, d) > 0 && forall k :: 0 <= k < m ==> Position(rows[k], due, d) == 0
  }

  /** In that row the earliest timer is near enough to `d` to be compared with it. */
  ghost predicate InReach(rows: seq<seq<Tid>>, due: map<Tid, nat>, d: nat) {
    forall m :: First(rows, due, d, m) ==> d + HALF <= due[rows[m][0]] + TICKS
  }

  /** Each row lists a part of the row below. */
  ghost predicate Nested(rows: seq<seq<Tid>>) {
    forall l, m, t: Tid :: 0 <= l && m == l + 1 && m < |rows| && t in rows[l] ==> t in rows[m]
  }

  lemma PositionIs(row: seq<Tid>, due: map<Tid, nat>, d: nat)
    requires forall j :: 0 <= j < |row| ==> row[j] in due
    ensures IsPosition(row, due, d, Position(row, due, d))
  {
    if row != [] {
      PositionIs(row[1..], due, d);
      if d >= due[row[0]] {
        var i := Position(row[1..], due, d);
        forall j | 0 <= j < i + 1
          ensures due[row[j]] <= d
        {
          if j > 0 { assert row[j] == row[1..][j - 1]; }
        }
        if i + 1 < |row| { assert row[i + 1] == row[1..][i]; }
      }
    }
  }

  /** The search of a row on wrapped ticks finds the true place exactly when the earliest timer, if due no later, is near. */
  lemma {:induction false} ScanIsPosition(row: seq<Tid>, due: map<Tid, nat>, d: nat)
    requires Sorted(row, due) && forall j :: 0 <= j < |row| ==> row[j] in due
    requires forall j :: 0 <= j < |row| ==> due[row[j]] < d + HALF && d < due[row[j]] + TICKS
    ensures Scan(row, due, d) == Position(row, due, d) <==>
      row == [] || d < due[row[0]] || d + HALF <= due[row[0]] + TICKS
  {
    if row != [] {
      var a := due[row[0]];
      if a <= d {
        NearIsExact(a, d);
        assert forall j :: 0 <= j < |row[1..]| ==> row[1..][j] == row[j + 1];
        ScanIsPosition(row[1..], due, d);
      } else {
        AfterIsLater(a, d);
      }
    }
  }

  /** There is only one such place. */
  lemma PositionUnique(row: seq<Tid>, due: map<Tid, nat>, d: nat, i: nat)
    requires IsPosition(row, due, d, i)
    ensures i == Position(row, due, d)
  {
    PositionIs(row, due, d);
  }

  // ---- when the search is right --------------------------------------------------------------------

  /** Rows in order, each inside the row below, with no timer a whole range of ticks away from `d`. */
  ghost predicate Searchable(rows: seq<seq<Tid>>, due: map<Tid, nat>, d: nat) {
    && Nested(rows) && (forall l :: 0 <= l < |rows| ==> Sorted(rows[l], due))
    && (forall l, x :: 0 <= l < |rows| && x in rows[l] ==> x in due && due[x] < d + HALF && d < due[x] + TICKS)
  }

  lemma ScanOfRow(rows: seq<seq<Tid>>, due: map<Tid, nat>, d: nat, l: nat, from: nat)
    requires Searchable(rows, due, d) && l < |rows| && from <= |rows[l]|
    ensures var row := rows[l][from..];
      && (Scan(row, due, d) == Position(row, due, d) <==> row == [] || row[0] !in due || d < due[row[0]] || d + HALF <= due[row[0]] + TICKS)
      && (Scan(row, due, d) != Position(row, due, d) ==> Scan(row, due, d) == 0)
  {
    hide Position, Scan;
    var row := rows[l][from..];
    forall j | 0 <= j < |row|
      ensures row[j] == rows[l][from + j] && row[j] in rows[l]
    {}
    ScanIsPosition(row, due, d);
    if row != [] && row[0] in due && d >= due[row[0]] {
      NearIsExact(due[row[0]], d);
      if d + HALF > due[row[0]] + TICKS { ScanStops(row, due, d); }
    }
  }

  lemma ScanStops(row: seq<Tid>, due: map<Tid, nat>, d: nat)
    requires row != [] && row[0] in due && After(Wrap(due[row[0]]), Wrap(d))
    ensures Scan(row, due, d) == 0
  {}

  /** A place counted from a start that has only timers due no later in front of it. */
  lemma PositionFrom(row: seq<Tid>, due: map<Tid, nat>, d: nat, from: nat)
    requires Sorted(row, due) && 0 < from <= |row| && due[row[from - 1]] <= d
    ensures Position(row, due, d) == from + Position(row[from..], due, d)
  {
    var tail := row[from..];
    assert forall j :: 0 <= j < |tail| ==> tail[j] == row[from + j];
    PositionIs(tail, due, d);
    var i := from + Position(tail, due, d);
    hide Position;
    forall j | 0 <= j < i
      ensures due[row[j]] <= d
    {
      if j >= from { assert row[j] == tail[j - from]; } else if j < from - 1 { assert due[row[j]] <= due[row[from - 1]]; }
    }
    if i < |row| { assert row[i] == tail[i - from]; }
    PositionUnique(row, due, d, i);
  }

  /** The last timer in front of the place is due no earlier than any other one due no later than `d`. */
  lemma LastBefore(row: seq<Tid>, due: map<Tid, nat>, d: nat, a: Tid)
    requires Sorted(row, due) && a in row && due[a] <= d
    ensures var p := Position(row, due, d); p > 0 && row[p - 1] in due && due[a] <= due[row[p - 1]] <= d
  {
    PositionIs(row, due, d);
    var p := Position(row, due, d);
    hide Position;
    PositionSplits(row, due, d, p);
    var j :| 0 <= j < |row| && row[j] == a;
    if j < p - 1 { assert due[row[j]] <= due[row[p - 1]]; }
  }

  /** What a row lists, every row below lists. */
  lemma {:induction false} Below(rows: seq<seq<Tid>>, l: nat, m: nat, x: Tid)
    requires Nested(rows) && l <= m < |rows| && x in rows[l]
    ensures x in rows[m]
    decreases m - l
  {
    if l < m {
      var k := l + 1;
      assert x in rows[k];
      Below(rows, k, m, x);
    }
  }

  /** The first timer of a row that lists one due no later than `d`. */
  lemma FirstOf(rows: seq<seq<Tid>>, due: map<Tid, nat>, d: nat, m: nat)
    requires Searchable(rows, due, d) && m < |rows| && Position(rows[m], due, d) > 0
    ensures rows[m] != [] && rows[m][0] in rows[m] && rows[m][0] in due && due[rows[m][0]] <= d
  {}

  /** The row that decides, if there is one. */
  lemma {:induction false} FindFirst(rows: seq<seq<Tid>>, due: map<Tid, nat>, d: nat, l: nat) returns (m: nat)
    requires l < |rows| && Position(rows[l], due, d) > 0
    ensures m <= l && First(rows, due, d, m)
  {
    m := 0;
    while Position(rows[m], due, d) == 0
      invariant m <= l && forall k :: 0 <= k < m ==> Position(rows[k], due, d) == 0
      decreases l - m
    {
      m := m + 1;
    }
  }

  /** Above the deciding row the search rightly stops at once. */
  lemma {:induction false} HeadAbove(rows: seq<seq<Tid>>, due: map<Tid, nat>, d: nat, l: nat)
    requires Searchable(rows, due, d) && l < |rows| && forall k :: 0 <= k <= l ==> Position(rows[k], due, d) == 0
    ensures Head(rows, due, d, l) == 0
  {
    hide Position, Scan;
    if l > 0 { HeadAbove(rows, due, d, l - 1); }
    var row := rows[l];
    assert row[0..] == row;
    ScanOfRow(rows, due, d, l, 0);
    PositionZero(row, due, d);
    if row != [] { assert row[0] in row; }
  }

  lemma PositionZero(row: seq<Tid>, due: map<Tid, nat>, d: nat)
    requires Position(row, due, d) == 0
    ensures row == [] || row[0] !in due || d < due[row[0]]
  {}

  /** From the deciding row on the search is right, if the earliest timer of that row is near. */
  lemma {:induction false} HeadBelow(rows: seq<seq<Tid>>, due: map<Tid, nat>, d: nat, m: nat, l: nat)
    requires Searchable(rows, due, d) && First(rows, due, d, m) && m <= l < |rows|
    requires d + HALF <= due[rows[m][0]] + TICKS
    ensures Head(rows, due, d, l) == Position(rows[l], due, d) > 0
    decreases l
  {
    hide Position, Scan, Searchable, First, Nested;
    FirstIs(rows, due, d, m);
    FirstOf(rows, due, d, m);
    var a := rows[m][0];
    BelowSearchable(rows, due, d, m, l, a);
    LastBefore(rows[l], due, d, a);
    if l == m {
      if l > 0 {
        HeadAbove(rows, due, d, l - 1);
      }
      assert rows[l][0..] == rows[l];
      ScanOfRow(rows, due, d, l, 0);
    } else {
      HeadBelow(rows, due, d, m, l - 1);
      BelowSearchable(rows, due, d, m, l - 1, a);
      LastBefore(rows[l - 1], due, d, a);
      HeadFollows(rows, due, d, l, a);
    }
  }

  lemma FirstIs(rows: seq<seq<Tid>>, due: map<Tid, nat>, d: nat, m: nat)
    requires First(rows, due, d, m)
    ensures m < |rows| && Position(rows[m], due, d) > 0 && forall k :: 0 <= k < m ==> Position(rows[k], due, d) == 0
  {}

  lemma BelowSearchable(rows: seq<seq<Tid>>, due: map<Tid, nat>, d: nat, m: nat, l: nat, a: Tid)
    requires Searchable(rows, due, d) && m <= l < |rows| && a in rows[m]
    ensures a in rows[l] && Sorted(rows[l], due)
  {
    Below(rows, m, l, a);
  }

  /** The search goes on behind a near timer of the row above. */
  lemma HeadFollows(rows: seq<seq<Tid>>, due: map<Tid, nat>, d: nat, l: nat, a: Tid)
    requires Searchable(rows, due, d) && 0 < l < |rows| && a in due && d + HALF <= due[a] + TICKS
    requires var h := Head(rows, due, d, l - 1); h > 0 && rows[l - 1][h - 1] in due && due[a] <= due[rows[l - 1][h - 1]] <= d
    ensures Head(rows, due, d, l) == Position(rows[l], due, d)
  {
    hide Position, Scan, Searchable, Sorted;
    var x := rows[l - 1][Head(rows, due, d, l - 1) - 1];
    assert x in rows[l - 1];
    BelowSearchable(rows, due, d, l - 1, l, x);
    var from := IndexOf(rows[l], x) + 1;
    assert From(rows, due, d, l) == from;
    PositionFrom(rows[l], due, d, from);
    ScanOfRow(rows, due, d, l, from);
    if from < |rows[l]| { NextInRow(rows[l], due, from); }
  }

  lemma NextInRow(row: seq<Tid>, due: map<Tid, nat>, from: nat)
    requires Sorted(row, due) && 0 < from < |row|
    ensures row[from..][0] in due && due[row[from - 1]] <= due[row[from..][0]]
  {}

  /** If it is not, the search stops at the front of that row and of every row below. */
  lemma {:induction false} HeadMissed(rows: seq<seq<Tid>>, due: map<Tid, nat>, d: nat, m: nat, l: nat)
    requires Searchable(rows, due, d) && First(rows, due, d, m) && m <= l < |rows|
    requires d + HALF > due[rows[m][0]] + TICKS
    ensures Head(rows, due, d, l) == 0 < Position(rows[l], due, d)
    decreases l
  {
    hide Position, Scan, Searchable, First, Nested;
    FirstIs(rows, due, d, m);
    FirstOf(rows, due, d, m);
    var a := rows[m][0];
    BelowSearchable(rows, due, d, m, l, a);
    LastBefore(rows[l], due, d, a);
    if l > m {
      HeadMissed(rows, due, d, m, l - 1);
    } else if l > 0 {
      HeadAbove(rows, due, d, l - 1);
    }
    assert rows[l][0..] == rows[l];
    ScanOfRow(rows, due, d, l, 0);
    FrontOf(rows[l], due, a);
  }

  lemma FrontOf(row: seq<Tid>, due: map<Tid, nat>, a: Tid)
    requires Sorted(row, due) && a in row
    ensures row != [] && row[0] in due && a in due && due[row[0]] <= due[a]
  {
    var j :| 0 <= j < |row| && row[j] == a;
    if j > 0 { assert due[row[0]] <= due[row[j]]; }
  }

  /**
   The nested search of rt_timer_start on wrapped ticks finds the true place in every row exactly
   when the timer is in reach: the earliest timer of the sparsest row that lists one due no later is
   near.  Otherwise it misses the place in the last row, which is where it stops at the front.
   */
  lemma SearchIsExact(rows: seq<seq<Tid>>, due: map<Tid, nat>, d: nat)
    requires Searchable(rows, due, d) && rows != []
    ensures InReach(rows, due, d) <==> forall l :: 0 <= l < |rows| ==> Head(rows, due, d, l) == Position(rows[l], due, d)
    ensures var last := |rows| - 1;
      Head(rows, due, d, last) == (if InReach(rows, due, d) then Position(rows[last], due, d) else 0)
      && (InReach(rows, due, d) || Position(rows[last], due, d) > 0)
  {
    hide Position, Scan, Searchable, Head;
    if InReach(rows, due, d) {
      forall l | 0 <= l < |rows|
        ensures Head(rows, due, d, l) == Position(rows[l], due, d)
      {
        HeadIsPosition(rows, due, d, l);
      }
    } else {
      LastMissed(rows, due, d);
    }
  }

  lemma LastMissed(rows: seq<seq<Tid>>, due: map<Tid, nat>, d: nat)
    requires Searchable(rows, due, d) && rows != [] && !InReach(rows, due, d)
    ensures Head(rows, due, d, |rows| - 1) == 0 < Position(rows[|rows| - 1], due, d)
  {
    hide Position, Scan, Searchable, Head;
    var m :| First(rows, due, d, m) && d + HALF > due[rows[m][0]] + TICKS;
    HeadMissed(rows, due, d, m, |rows| - 1);
  }

  lemma HeadIsPosition(rows: seq<seq<Tid>>, due: map<Tid, nat>, d: nat, l: nat)
    requires Searchable(rows, due, d) && InReach(rows, due, d) && l < |rows|
    ensures Head(rows, due, d, l) == Position(rows[l], due, d)
  {
    hide Position, Scan, Searchable, Head, First;
    if k :| 0 <= k <= l && Position(rows[k], due, d) > 0 {
      var m := FindFirst(rows, due, d, k);
      FirstIs(rows, due, d, m);
      HeadBelow(rows, due, d, m, l);
    } else {
      HeadAbove(rows, due, d, l);
    }
  }
}
