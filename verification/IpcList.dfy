/** The suspend list of an IPC object (ipc.c:109-156): where a thread is inserted. */
module IpcList {
  import opened Ring

  type Tid = nat

  /** `i` is behind every waiter at least as urgent as `p`, and in front of the less urgent ones. */
  ghost predicate IsPosition(ws: seq<Tid>, prio: map<Tid, nat>, p: nat, i: nat) {
    && i <= |ws| && (forall j :: 0 <= j < |ws| ==> ws[j] in prio)
    && (forall j :: 0 <= j < i ==> prio[ws[j]] <= p)
    && (i < |ws| ==> p < prio[ws[i]])
  }

  /** The search loop of RT_IPC_FLAG_PRIO. */
  method FindPosition(ws: seq<Tid>, prio: map<Tid, nat>, p: nat) returns (i: nat)
    requires forall j :: 0 <= j < |ws| ==> ws[j] in prio
    ensures IsPosition(ws, prio, p, i)
  {
    i := 0;
    while i < |ws|
      invariant i <= |ws|
      invariant forall j :: 0 <= j < i ==> prio[ws[j]] <= p
    {
      if p < prio[ws[i]] {
        break;
      }
      i := i + 1;
    }
  }

  /** Waiters stand in order of urgency. */
  ghost predicate Sorted(ws: seq<Tid>, prio: map<Tid, nat>) {
    && (forall j :: 0 <= j < |ws| ==> ws[j] in prio)
    && forall i, j :: 0 <= i < j < |ws| ==> prio[ws[i]] <= prio[ws[j]]
  }

  /** In a sorted list the position splits the waiters exactly, so equals stay first come, first served. */
  lemma PositionSplits(ws: seq<Tid>, prio: map<Tid, nat>, p: nat, i: nat)
    requires Sorted(ws, prio) && IsPosition(ws, prio, p, i)
    ensures forall j :: 0 <= j < |ws| ==> (j < i <==> prio[ws[j]] <= p)
  {
    forall j | i <= j < |ws|
      ensures prio[ws[j]] > p
    {
      if j > i { assert prio[ws[i]] <= prio[ws[j]]; }
    }
  }

  lemma InsertKeepsSorted(ws: seq<Tid>, prio: map<Tid, nat>, t: Tid, i: nat)
    requires Sorted(ws, prio) && t in prio && IsPosition(ws, prio, prio[t], i)
    ensures Sorted(Inserted(ws, i, t), prio)
  {
    PositionSplits(ws, prio, prio[t], i);
    var r := Inserted(ws, i, t);
    forall a | 0 <= a < |r|
      ensures r[a] == if a < i then ws[a] else if a == i then t else ws[a - 1]
    {}
  }

  lemma RemoveKeepsSorted(ws: seq<Tid>, prio: map<Tid, nat>, i: nat)
    requires Sorted(ws, prio) && i < |ws|
    ensures Sorted(Removed(ws, i), prio)
  {
    var r := Removed(ws, i);
    forall a | 0 <= a < |r|
      ensures r[a] == if a < i then ws[a] else ws[a + 1]
    {}
  }

  lemma InsertMembers<T>(ws: seq<T>, i: nat, t: T)
    requires i <= |ws|
    ensures forall x :: x in Inserted(ws, i, t) <==> x == t || x in ws
    ensures Distinct(ws) && t !in ws ==> Distinct(Inserted(ws, i, t))
  {
    var r := Inserted(ws, i, t);
    forall a | 0 <= a < |r|
      ensures r[a] == if a < i then ws[a] else if a == i then t else ws[a - 1]
    {}
    assert r[i] == t;
    forall x | x in ws
      ensures x in r
    {
      var j :| 0 <= j < |ws| && ws[j] == x;
      assert r[if j < i then j else j + 1] == x;
    }
  }

  lemma RemoveMembers<T>(ws: seq<T>, i: nat)
    requires i < |ws| && Distinct(ws)
    ensures forall x :: x in Removed(ws, i) <==> x in ws && x != ws[i]
    ensures Distinct(Removed(ws, i))
  {
    var r := Removed(ws, i);
    forall a | 0 <= a < |r|
      ensures r[a] == if a < i then ws[a] else ws[a + 1]
    {}
    forall x | x in ws && x != ws[i]
      ensures x in r
    {
      var j :| 0 <= j < |ws| && ws[j] == x;
      assert r[if j < i then j else j - 1] == x;
    }
  }

  /** More urgent waiters stand in front; among equals, whoever came first. */
  ghost predicate Queued(ws: seq<Tid>, prio: map<Tid, nat>, arrival: map<Tid, nat>, clock: nat) {
    && Distinct(ws)
    && (forall j :: 0 <= j < |ws| ==> ws[j] in prio && ws[j] in arrival && arrival[ws[j]] < clock)
    && (forall i, j :: 0 <= i < j < |ws| ==>
         prio[ws[i]] < prio[ws[j]] || (prio[ws[i]] == prio[ws[j]] && arrival[ws[i]] < arrival[ws[j]]))
  }

  lemma QueuedInsert(ws: seq<Tid>, prio: map<Tid, nat>, arrival: map<Tid, nat>, clock: nat, t: Tid, i: nat)
    requires Queued(ws, prio, arrival, clock) && t in prio && t !in ws && IsPosition(ws, prio, prio[t], i)
    ensures Queued(Inserted(ws, i, t), prio, arrival[t := clock], clock + 1)
  {
    InsertMembers(ws, i, t);
    PositionSplits(ws, prio, prio[t], i);
    var r := Inserted(ws, i, t);
    forall a | 0 <= a < |r|
      ensures r[a] == if a < i then ws[a] else if a == i then t else ws[a - 1]
    {}
  }

  lemma QueuedRemove(ws: seq<Tid>, prio: map<Tid, nat>, arrival: map<Tid, nat>, clock: nat, i: nat)
    requires Queued(ws, prio, arrival, clock) && i < |ws|
    ensures Queued(Removed(ws, i), prio, arrival, clock)
  {
    RemoveMembers(ws, i);
    var r := Removed(ws, i);
    forall a | 0 <= a < |r|
      ensures r[a] == if a < i then ws[a] else ws[a + 1]
    {}
  }

  /** The order of the waiters depends only on their own priorities. */
  lemma QueuedOther(ws: seq<Tid>, prio: map<Tid, nat>, arrival: map<Tid, nat>, clock: nat, o: Tid, p: nat)
    requires Queued(ws, prio, arrival, clock) && o !in ws
    ensures Queued(ws, prio[o := p], arrival, clock)
  {}

  /** rt_list_remove of a thread's node. */
  function Minus(q: seq<Tid>, t: Tid): seq<Tid> {
    if q == [] then [] else if q[0] == t then q[1..] else [q[0]] + Minus(q[1..], t)
  }

  lemma {:induction false} MinusMembers(q: seq<Tid>, t: Tid)
    requires Distinct(q)
    ensures Distinct(Minus(q, t)) && forall x :: x in Minus(q, t) <==> x in q && x != t
    ensures t !in q ==> Minus(q, t) == q
  {
    if q != [] {
      var r := q[1..];
      assert q == [q[0]] + r;
      MinusMembers(r, t);
      assert q[0] !in r;
      if q[0] != t {
        var m := Minus(r, t);
        assert Minus(q, t) == [q[0]] + m;
        assert q[0] !in m;
      }
    }
  }

  lemma AppendMembers(q: seq<Tid>, t: Tid)
    requires Distinct(q) && t !in q
    ensures Distinct(q + [t]) && forall x :: x in q + [t] <==> x in q || x == t
  {}

  lemma MinusHead(q: seq<Tid>, t: Tid)
    requires q != [] && q[0] == t
    ensures Minus(q, t) == q[1..]
  {}

  lemma {:induction false} MinusIsRemoved(q: seq<Tid>, i: nat)
    requires Distinct(q) && i < |q|
    ensures Minus(q, q[i]) == Removed(q, i)
  {
    if i > 0 {
      assert q[1..][i - 1] == q[i];
      MinusIsRemoved(q[1..], i - 1);
      assert q == [q[0]] + q[1..];
    }
  }

  lemma QueuedMinus(ws: seq<Tid>, prio: map<Tid, nat>, arrival: map<Tid, nat>, clock: nat, t: Tid)
    requires Queued(ws, prio, arrival, clock)
    ensures Queued(Minus(ws, t), prio, arrival, clock)
  {
    if t in ws {
      var i :| 0 <= i < |ws| && ws[i] == t;
      MinusIsRemoved(ws, i);
      QueuedRemove(ws, prio, arrival, clock, i);
    } else {
      MinusMembers(ws, t);
    }
  }

  lemma QueuedKnown(ws: seq<Tid>, prio: map<Tid, nat>, arrival: map<Tid, nat>, clock: nat)
    requires Queued(ws, prio, arrival, clock)
    ensures Distinct(ws) && (forall j :: 0 <= j < |ws| ==> ws[j] in prio) && Sorted(ws, prio)
  {}

  lemma PositionFits(ws: seq<Tid>, prio: map<Tid, nat>, p: nat, i: nat)
    requires IsPosition(ws, prio, p, i)
    ensures i <= |ws|
  {}
}
