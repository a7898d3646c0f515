/**
 The history of a message queue: every link and every removal, in the order in which the
 interrupt-locked sections perform them, and what a history says about order of delivery.
 */
module MessageLog {

  /** A message as it was sent; urgent messages go to the front. */
  datatype Message = Message(body: seq<bv8>, urgent: bool)

  datatype Event =
    | Link(msg: Message)                 // rt_mq_send_wait and rt_mq_urgent
    | Take(msg: Message)                 // rt_mq_recv
    | Drop(msg: Message)                 // RT_IPC_CMD_RESET

  /** The queue after linking `m`. */
  function Linked(q: seq<Message>, m: Message): seq<Message> {
    if m.urgent then [m] + q else q + [m]
  }

  /** The history `log` leads from an empty queue to `q`; every Take and every Drop removes the head. */
  ghost predicate Explains(log: seq<Event>, q: seq<Message>)
    decreases |log|
  {
    if log == [] then q == []
    else
      var before, e := log[..|log| - 1], log[|log| - 1];
      match e
      case Link(m) =>
        if m.urgent then q != [] && q[0] == m && Explains(before, q[1..])
        else q != [] && q[|q| - 1] == m && Explains(before, q[..|q| - 1])
      case Take(m) => Explains(before, [m] + q)
      case Drop(m) => Explains(before, [m] + q)
  }

  /** Messages linked by a history, in order. */
  function Links(log: seq<Event>): seq<Message> {
    if log == [] then []
    else
      var e := log[|log| - 1];
      Links(log[..|log| - 1]) + if e.Link? then [e.msg] else []
  }

  /** Messages that have left the queue, in order. */
  function Outs(log: seq<Event>): seq<Message> {
    if log == [] then []
    else
      var e := log[|log| - 1];
      Outs(log[..|log| - 1]) + if e.Link? then [] else [e.msg]
  }

  function Normals(s: seq<Message>): seq<Message> {
    if s == [] then []
    else (if s[0].urgent then [] else [s[0]]) + Normals(s[1..])
  }

  /** No ordinary message stands in front of an urgent one. */
  ghost predicate UrgentFirst(q: seq<Message>) {
    forall i, j :: 0 <= i < j < |q| && q[j].urgent ==> q[i].urgent
  }

  lemma {:induction false} NormalsConcat(a: seq<Message>, b: seq<Message>)
    ensures Normals(a + b) == Normals(a) + Normals(b)
  {
    if a == [] {
      assert a + b == b;
    } else {
      assert (a + b)[1..] == a[1..] + b;
      NormalsConcat(a[1..], b);
    }
  }

  lemma NormalsOne(m: Message)
    ensures Normals([m]) == if m.urgent then [] else [m]
  {
    assert [m][1..] == [];
  }

  /** What the last event of a history adds. */
  lemma LastEvent(log: seq<Event>)
    requires log != []
    ensures var before, e := log[..|log| - 1], log[|log| - 1];
      match e
      case Link(m) => Links(log) == Links(before) + [m] && Outs(log) == Outs(before)
      case Take(m) => Links(log) == Links(before) && Outs(log) == Outs(before) + [m]
      case Drop(m) => Links(log) == Links(before) && Outs(log) == Outs(before) + [m]
  {}

  /** Ordinary messages leave the queue in the order in which they were linked, whatever else happens. */
  lemma {:induction false} OrdinaryFifo(log: seq<Event>, q: seq<Message>)
    requires Explains(log, q)
    ensures Normals(Outs(log)) + Normals(q) == Normals(Links(log))
    decreases |log|
  {
    hide Links, Outs, Normals;
    if log == [] {
      FifoEmpty();
    } else {
      LastEvent(log);
      var before, e := log[..|log| - 1], log[|log| - 1];
      match e
      case Link(m) =>
        NormalsOne(m);
        NormalsConcat(Links(before), [m]);
        if m.urgent {
          OrdinaryFifo(before, q[1..]);
          assert q == [m] + q[1..];
          NormalsConcat([m], q[1..]);
        } else {
          OrdinaryFifo(before, q[..|q| - 1]);
          assert q == q[..|q| - 1] + [m];
          NormalsConcat(q[..|q| - 1], [m]);
        }
      case Take(m) =>
        OrdinaryFifo(before, [m] + q);
        NormalsConcat(Outs(before), [m]);
        NormalsConcat([m], q);
      case Drop(m) =>
        OrdinaryFifo(before, [m] + q);
        NormalsConcat(Outs(before), [m]);
        NormalsConcat([m], q);
    }
  }

  lemma FifoEmpty()
    ensures Normals([]) == [] && Outs([]) == [] && Links([]) == []
  {}

  /** Urgent messages always stand in front of the ordinary ones. */
  lemma {:induction false} UrgentInFront(log: seq<Event>, q: seq<Message>)
    requires Explains(log, q)
    ensures UrgentFirst(q)
    decreases |log|
  {
    if log != [] {
      var before, e := log[..|log| - 1], log[|log| - 1];
      match e
      case Link(m) =>
        if m.urgent {
          UrgentInFront(before, q[1..]);
          assert forall i :: 0 < i < |q| ==> q[i] == q[1..][i - 1];
        } else {
          UrgentInFront(before, q[..|q| - 1]);
          assert forall i :: 0 <= i < |q| - 1 ==> q[i] == q[..|q| - 1][i];
        }
      case Take(m) =>
        UrgentInFront(before, [m] + q);
        assert forall i :: 0 <= i < |q| ==> q[i] == ([m] + q)[i + 1];
      case Drop(m) =>
        UrgentInFront(before, [m] + q);
        assert forall i :: 0 <= i < |q| ==> q[i] == ([m] + q)[i + 1];
    }
  }

  /** No message is lost, duplicated or invented. */
  lemma {:induction false} NothingLost(log: seq<Event>, q: seq<Message>)
    requires Explains(log, q)
    ensures multiset(Links(log)) == multiset(Outs(log)) + multiset(q)
    decreases |log|
  {
    hide Links, Outs;
    if log == [] {
      FifoEmpty();
    } else {
      LastEvent(log);
      var before, e := log[..|log| - 1], log[|log| - 1];
      match e
      case Link(m) =>
        if m.urgent {
          NothingLost(before, q[1..]);
          assert q == [m] + q[1..];
          CountLinked(Links(before), Outs(before), q[1..], m, q);
        } else {
          NothingLost(before, q[..|q| - 1]);
          assert q == q[..|q| - 1] + [m];
          CountLinked(Links(before), Outs(before), q[..|q| - 1], m, q);
        }
      case Take(m) =>
        NothingLost(before, [m] + q);
        CountTaken(Links(before), Outs(before), q, m);
      case Drop(m) =>
        NothingLost(before, [m] + q);
        CountTaken(Links(before), Outs(before), q, m);
    }
  }

  /** Whatever a receiver took was linked by a sender. */
  lemma TakenWasLinked(log: seq<Event>, q: seq<Message>, m: Message)
    requires Explains(log, q) && Take(m) in log
    ensures m in Links(log)
  {
    NothingLost(log, q);
    TakenIsOut(log, m);
    assert multiset(Outs(log))[m] > 0;
    assert multiset(Links(log))[m] > 0;
  }

  lemma {:induction false} TakenIsOut(log: seq<Event>, m: Message)
    requires Take(m) in log
    ensures m in Outs(log)
    decreases |log|
  {
    var before, e := log[..|log| - 1], log[|log| - 1];
    assert log == before + [e];
    if e != Take(m) { TakenIsOut(before, m); }
  }

  lemma CountLinked(links: seq<Message>, outs: seq<Message>, q: seq<Message>, m: Message, q': seq<Message>)
    requires multiset(links) == multiset(outs) + multiset(q) && (q' == [m] + q || q' == q + [m])
    ensures multiset(links + [m]) == multiset(outs) + multiset(q')
  {}

  lemma CountTaken(links: seq<Message>, outs: seq<Message>, q: seq<Message>, m: Message)
    requires multiset(links) == multiset(outs) + multiset([m] + q)
    ensures multiset(links) == multiset(outs + [m]) + multiset(q)
  {}

  // ---- how a history grows -------------------------------------------------------------

  lemma LogLink(log: seq<Event>, q: seq<Message>, m: Message)
    requires Explains(log, q)
    ensures Explains(log + [Link(m)], Linked(q, m))
  {
    var l' := log + [Link(m)];
    assert l'[..|l'| - 1] == log;
    assert ([m] + q)[1..] == q && (q + [m])[..|q|] == q;
  }

  lemma LogTake(log: seq<Event>, q: seq<Message>)
    requires Explains(log, q) && q != []
    ensures Explains(log + [Take(q[0])], q[1..])
  {
    var l' := log + [Take(q[0])];
    assert l'[..|l'| - 1] == log;
    assert [q[0]] + q[1..] == q;
  }

  lemma LogDrop(log: seq<Event>, q: seq<Message>)
    requires Explains(log, q) && q != []
    ensures Explains(log + [Drop(q[0])], q[1..])
  {
    var l' := log + [Drop(q[0])];
    assert l'[..|l'| - 1] == log;
    assert [q[0]] + q[1..] == q;
  }
}
