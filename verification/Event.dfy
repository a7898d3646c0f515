/**
 rt_event: a word of event bits that senders set and receivers wait for, with AND / OR conditions
 and consumption of bits.  A step is a stretch of code that runs with interrupts disabled.
 */
module Event {
  import opened Ring
  import opened IpcList
  import opened Bits

  const FLAG_AND: bv8 := 1
  const FLAG_OR: bv8 := 2
  const FLAG_CLEAR: bv8 := 4

  /** event_set and event_info of a thread. */
  datatype Want = Want(bits: Word, info: bv8)

  predicate IsAnd(w: Want) { w.info & FLAG_AND != 0 }

  predicate IsClear(w: Want) { w.info & FLAG_CLEAR != 0 }

  /** A request that passes the checks of rt_event_recv. */
  predicate Legal(w: Want) {
    w.bits != NONE && (w.info & FLAG_AND != 0 || w.info & FLAG_OR != 0)
  }

  /** The condition of a waiter under the event bits `e`. */
  predicate Met(w: Want, e: Word) {
    if IsAnd(w) then Within(w.bits, e) else !Disjoint(w.bits, e)
  }

  /** What is left of `e` when a satisfied receiver got the bits `got`. */
  function Left(w: Want, e: Word, got: Word): Word {
    if IsClear(w) then Without(e, got) else e
  }

  datatype Result = None | Received(bits: Word) | TimedOut | Error

  datatype Status = Ready(result: Result) | Blocked

  /** What happened to the event bits, in order. */
  datatype Entry = Signal(bits: Word) | Wake(t: Tid, want: Want, got: Word) | Wiped

  datatype State = State(
    bits: Word,                     // event->set
    waiters: seq<Tid>,              // parent.suspend_thread
    want: map<Tid, Want>,
    status: map<Tid, Status>,
    key: map<Tid, nat>,             // priority, or 0 for everybody when the event queues first-in first-out
    arrival: map<Tid, nat>,
    clock: nat,
    log: seq<Entry>)

  // ---- the history explains the bits -----------------------------------------------------------

  /** The effect of one entry on the bits. */
  function Next(e: Word, x: Entry): Word {
    match x
    case Signal(b) => Either(e, b)
    case Wake(_, w, got) => Left(w, e, got)
    case Wiped => NONE
  }

  function Replay(log: seq<Entry>): Word {
    if log == [] then NONE else Next(Replay(log[..|log| - 1]), log[|log| - 1])
  }

  function Sent(x: Entry): Word {
    if x.Signal? then x.bits else NONE
  }

  /** The union of all bits sent. */
  function Signals(log: seq<Entry>): Word {
    if log == [] then NONE else Either(Signals(log[..|log| - 1]), Sent(log[|log| - 1]))
  }

  /** A receiver got the bits it asked for, at a moment when its condition held. */
  ghost predicate Answers(x: Entry, e: Word) {
    x.Wake? ==> Legal(x.want) && Met(x.want, e) && x.got == Both(x.want.bits, e)
  }

  ghost predicate History(log: seq<Entry>) {
    forall i :: 0 <= i < |log| ==> Answers(log[i], Replay(log[..i]))
  }

  lemma ReplayAppend(log: seq<Entry>, x: Entry)
    ensures Replay(log + [x]) == Next(Replay(log), x)
  {
    hide Next;
    assert (log + [x])[..|log|] == log;
  }

  lemma HistoryAppend(log: seq<Entry>, x: Entry)
    requires History(log) && Answers(x, Replay(log))
    ensures History(log + [x])
  {
    hide Answers, Replay;
    var r := log + [x];
    forall i | 0 <= i < |r|
      ensures Answers(r[i], Replay(r[..i]))
    {
      assert r[..i] == log[..i];
      if i == |log| { assert log[..i] == log; }
    }
  }

  /** An AND receiver gets all its bits; an OR receiver gets those of its bits that are set, at least one. */
  lemma AnswerMeaning(x: Entry, e: Word)
    requires x.Wake? && Answers(x, e)
    ensures IsAnd(x.want) ==> x.got == x.want.bits
    ensures !IsAnd(x.want) ==> x.got == Both(x.want.bits, e)
    ensures x.got != NONE && Within(x.got, x.want.bits) && Within(x.got, e)
  {
    WithoutFacts(x.want.bits, e);
    hide IsAnd, IsClear;
  }

  /** An entry adds at most the bits it sends. */
  lemma NextGrows(e: Word, x: Entry)
    ensures Within(Next(e, x), Either(e, Sent(x)))
  {
    hide Within, Either, Without, IsClear, Both, Disjoint;
    WithoutFacts(e, NONE);
    WithoutFacts(e, Sent(x));
    WithoutFacts(Either(e, Sent(x)), NONE);
    match x
    case Signal(b) =>
    case Wiped =>
    case Wake(_, w, got) =>
      WithoutFacts(e, got);
      WithinTransitive(Next(e, x), e, Either(e, Sent(x)));
  }

  /** Of the bits a CLEAR receiver took at `i`, only those sent since are present after `k` entries. */
  lemma {:induction false} TakenBitsNeedSending(log: seq<Entry>, i: nat, k: nat)
    requires i < k <= |log| && log[i].Wake? && IsClear(log[i].want)
    ensures Within(Both(log[i].got, Replay(log[..k])), Signals(log[i + 1..k]))
    decreases k
  {
    hide Within, Either, Both, Disjoint, Without, IsClear, Replay, Sent;
    var x := log[k - 1];
    assert log[..k] == log[..k - 1] + [x];
    ReplayAppend(log[..k - 1], x);
    if k == i + 1 {
      WithoutFacts(Replay(log[..i]), log[i].got);
      DisjointBoth(log[i].got, Replay(log[..k]), Signals(log[i + 1..k]));
    } else {
      hide Next;
      TakenBitsNeedSending(log, i, k - 1);
      assert log[i + 1..k][..k - 1 - (i + 1)] == log[i + 1..k - 1];
      NextGrows(Replay(log[..k - 1]), x);
      GrowsBy(Replay(log[..k - 1]), Replay(log[..k]), log[i].got, Signals(log[i + 1..k - 1]), Sent(x));
    }
  }

  /** A bit that a CLEAR receiver consumed reaches a later receiver only if it was sent again in between. */
  lemma ConsumedOnce(log: seq<Entry>, i: nat, j: nat)
    requires History(log) && i < j < |log| && log[i].Wake? && IsClear(log[i].want) && log[j].Wake?
    ensures Within(Both(log[i].got, log[j].got), Signals(log[i + 1..j]))
  {
    hide Within, Either, Both, Disjoint, Without, IsClear, Replay, Signals, Met, Legal;
    var e := Replay(log[..j]);
    TakenBitsNeedSending(log, i, j);
    assert Answers(log[j], e);
    WithoutFacts(log[j].want.bits, e);
    BothMonotone(log[j].got, e, log[i].got);
    WithinTransitive(Both(log[i].got, log[j].got), Both(log[i].got, e), Signals(log[i + 1..j]));
  }

  lemma {:induction false} BitsWereSent(log: seq<Entry>)
    ensures Within(Replay(log), Signals(log))
  {
    hide Within, Either, Both, Disjoint, Without, Next, Sent;
    WithoutFacts(NONE, NONE);
    if log != [] {
      var l, x := log[..|log| - 1], log[|log| - 1];
      BitsWereSent(l);
      NextGrows(Replay(l), x);
      WithoutFacts(Sent(x), Sent(x));
      EitherMonotone(Replay(l), Signals(l), Sent(x), Sent(x));
      WithinTransitive(Replay(log), Either(Replay(l), Sent(x)), Signals(log));
    }
  }

  /** Nobody receives a bit that was never sent. */
  lemma ReceivedWasSent(log: seq<Entry>, j: nat)
    requires History(log) && j < |log| && log[j].Wake?
    ensures Within(log[j].got, Signals(log[..j]))
  {
    hide Within, Either, Both, Disjoint, Without, Replay, Signals, Met, Legal;
    var e := Replay(log[..j]);
    BitsWereSent(log[..j]);
    assert Answers(log[j], e);
    WithoutFacts(log[j].want.bits, e);
    WithinTransitive(log[j].got, e, Signals(log[..j]));
  }

  // ---- steps -----------------------------------------------------------------------------------

  function Finished(s: State, t: Tid, r: Result): State {
    s.(status := s.status[t := Ready(r)])
  }

  /** Lines 1602-1615 of rt_event_recv: the condition already holds. */
  function TookNow(s: State, t: Tid, w: Want): State {
    var got := Both(w.bits, s.bits);
    s.(bits := if IsClear(w) then Without(s.bits, w.bits) else s.bits,
       want := s.want[t := Want(got, w.info)],
       status := s.status[t := Ready(Received(got))],
       log := s.log + [Wake(t, w, got)])
  }

  /** Lines 1626-1651: wait. */
  function Suspended(s: State, t: Tid, w: Want, i: nat): State
    requires i <= |s.waiters|
  {
    s.(waiters := Inserted(s.waiters, i, t), want := s.want[t := w], status := s.status[t := Blocked],
       arrival := s.arrival[t := s.clock], clock := s.clock + 1)
  }

  /** rt_event_recv by `t`; `i` is its place in the suspend list. */
  function Recv(s: State, t: Tid, w: Want, time: int, i: nat): State
    requires i <= |s.waiters|
  {
    if w.bits == NONE then Finished(s, t, Error)
    else if Met(w, s.bits) then TookNow(s, t, w)
    else if time == 0 then Finished(s, t, TimedOut)
    else Suspended(s, t, w, i)
  }

  /** The waiter at place `k` is satisfied: it takes its bits and leaves the list. */
  function Woken(s: State, k: nat): State
    requires k < |s.waiters| && s.waiters[k] in s.want
  {
    var t := s.waiters[k];
    var w := s.want[t];
    var got := Both(w.bits, s.bits);
    s.(bits := Left(w, s.bits, got), waiters := Removed(s.waiters, k), want := s.want[t := Want(got, w.info)],
       status := s.status[t := Ready(Received(got))], log := s.log + [Wake(t, w, got)])
  }

  ghost predicate WantsKnown(s: State) {
    forall k :: 0 <= k < |s.waiters| ==> s.waiters[k] in s.want
  }

  /** The walk of rt_event_send over the suspend list, from place `k` on. */
  ghost function Walk(s: State, k: nat): State
    requires WantsKnown(s) && k <= |s.waiters|
    decreases |s.waiters| - k
  {
    if k == |s.waiters| then s
    else if Met(s.want[s.waiters[k]], s.bits) then Walk(Woken(s, k), k)
    else Walk(s, k + 1)
  }

  function Signalled(s: State, b: Word): State {
    s.(bits := Either(s.bits, b), log := s.log + [Signal(b)])
  }

  /** rt_event_send */
  ghost function Send(s: State, b: Word): State
    requires WantsKnown(s)
  {
    if b == NONE then s else Walk(Signalled(s, b), 0)
  }

  function Expired(s: State, i: nat): State
    requires i < |s.waiters|
  {
    s.(waiters := Removed(s.waiters, i), status := s.status[s.waiters[i] := Ready(TimedOut)])
  }

  /** RT_IPC_CMD_RESET: everybody leaves with an error. */
  function Reset(s: State): State {
    s.(bits := NONE, waiters := [],
       status := map t | t in s.status :: if s.status[t].Blocked? then Ready(Error) else s.status[t],
       log := s.log + [Wiped])
  }

  // ---- invariant -------------------------------------------------------------------------------

  /** Nobody before place `k` waits for a condition that already holds. */
  ghost predicate NoneMet(s: State, k: nat) {
    k <= |s.waiters| && forall j :: 0 <= j < k ==> s.waiters[j] in s.want && !Met(s.want[s.waiters[j]], s.bits)
  }

  /** Everything but the conditions of the waiters. */
  ghost predicate InvBase(s: State) {
    && Queued(s.waiters, s.key, s.arrival, s.clock)
    && (forall t :: t in s.waiters <==> t in s.status && s.status[t].Blocked?)
    && (forall t :: t in s.waiters ==> t in s.want && Legal(s.want[t]))
    && (forall t :: t in s.status <==> t in s.key)
    && History(s.log) && Replay(s.log) == s.bits
  }

  ghost predicate Inv(s: State) {
    InvBase(s) && NoneMet(s, |s.waiters|)
  }

  /** rt_event_init */
  function Initial(key: map<Tid, nat>): State {
    State(NONE, [], map[], map t | t in key :: Ready(None), key, map[], 0, [])
  }

  lemma InitialInv(key: map<Tid, nat>)
    ensures Inv(Initial(key))
  {}

  /** Fewer bits satisfy fewer waiters. */
  lemma FewerBits(w: Want, e: Word, e': Word)
    requires !Met(w, e) && Within(e', e)
    ensures !Met(w, e')
  {
    hide IsAnd, Within, Disjoint;
    if IsAnd(w) {
      if Within(w.bits, e') { WithinTransitive(w.bits, e', e); }
    } else {
      DisjointSmaller(w.bits, e, e');
    }
  }

  lemma NoneMetFewer(s: State, s': State, k: nat)
    requires NoneMet(s, k) && Within(s'.bits, s.bits) && k <= |s'.waiters|
    requires forall j :: 0 <= j < k ==> s'.waiters[j] == s.waiters[j] && s'.waiters[j] in s'.want && s'.want[s'.waiters[j]] == s.want[s.waiters[j]]
    ensures NoneMet(s', k)
  {
    hide Met, Within;
    forall j | 0 <= j < k
      ensures !Met(s'.want[s'.waiters[j]], s'.bits)
    {
      FewerBits(s.want[s.waiters[j]], s.bits, s'.bits);
    }
  }

  lemma LeftFewer(w: Want, e: Word, got: Word)
    ensures Within(Left(w, e, got), e)
  {
    hide IsClear, Within, Both, Either, Disjoint, Without;
    WithoutFacts(e, got);
  }

  /** Waking one waiter leaves the earlier, unsatisfied ones unsatisfied, although it consumes bits. */
  lemma WokenInv(s: State, k: nat)
    requires InvBase(s) && NoneMet(s, k) && k < |s.waiters| && s.waiters[k] in s.want && Met(s.want[s.waiters[k]], s.bits)
    ensures InvBase(Woken(s, k)) && NoneMet(Woken(s, k), k)
  {
    hide Met, Legal, Left, Replay, Within, Both;
    var t := s.waiters[k];
    var w := s.want[t];
    var s' := Woken(s, k);
    assert t in s.waiters;
    QueuedKnown(s.waiters, s.key, s.arrival, s.clock);
    QueuedRemove(s.waiters, s.key, s.arrival, s.clock, k);
    RemoveMembers(s.waiters, k);
    WokenLog(s, t, w);
    LeftFewer(w, s.bits, Both(w.bits, s.bits));
    assert NoneMet(s', k) by {
      hide Queued, History;
      assert forall j :: 0 <= j < k ==> s'.waiters[j] == s.waiters[j] && s.waiters[j] in s.waiters;
      NoneMetFewer(s, s', k);
    }
    hide Queued, History, Removed;
  }

  lemma WokenLog(s: State, t: Tid, w: Want)
    requires History(s.log) && Replay(s.log) == s.bits && Legal(w) && Met(w, s.bits)
    ensures var l := s.log + [Wake(t, w, Both(w.bits, s.bits))]; History(l) && Replay(l) == Left(w, s.bits, Both(w.bits, s.bits))
  {
    hide Met, Legal, Replay, Left, Both;
    var x := Wake(t, w, Both(w.bits, s.bits));
    HistoryAppend(s.log, x);
    ReplayAppend(s.log, x);
  }

  /** After the walk nobody waits for a condition that holds. */
  lemma {:induction false} WalkInv(s: State, k: nat)
    requires InvBase(s) && NoneMet(s, k) && WantsKnown(s)
    ensures Inv(Walk(s, k))
    decreases |s.waiters| - k
  {
    if k < |s.waiters| {
      hide InvBase, Met, Left, Both;
      if Met(s.want[s.waiters[k]], s.bits) {
        WokenInv(s, k);
        KnownFromInv(Woken(s, k));
        WalkInv(Woken(s, k), k);
      } else {
        WalkInv(s, k + 1);
      }
    }
  }

  lemma KnownFromInv(s: State)
    requires InvBase(s)
    ensures WantsKnown(s)
  {}

  lemma SignalledInv(s: State, b: Word)
    requires InvBase(s)
    ensures InvBase(Signalled(s, b)) && NoneMet(Signalled(s, b), 0) && WantsKnown(Signalled(s, b))
  {
    hide Queued, History, Replay, Legal, Met, Either;
    HistoryAppend(s.log, Signal(b));
    ReplayAppend(s.log, Signal(b));
  }

  lemma SendInv(s: State, b: Word)
    requires Inv(s)
    ensures WantsKnown(s) && Inv(Send(s, b))
  {
    hide InvBase;
    KnownFromInv(s);
    if b != NONE {
      SignalledInv(s, b);
      WalkInv(Signalled(s, b), 0);
    }
  }

  /** Walking again changes nothing. */
  lemma {:induction false} WalkAgain(s: State, k: nat)
    requires NoneMet(s, |s.waiters|) && WantsKnown(s) && k <= |s.waiters|
    ensures Walk(s, k) == s
    decreases |s.waiters| - k
  {
    if k < |s.waiters| { WalkAgain(s, k + 1); }
  }

  /** The walk wakes threads in list order, and every waiter is either woken or still there. */
  lemma {:induction false} WalkLog(s: State, k: nat)
    requires WantsKnown(s) && k <= |s.waiters| && Distinct(s.waiters)
    ensures var r := Walk(s, k);
      && |r.log| >= |s.log| && r.log[..|s.log|] == s.log
      && (forall i :: |s.log| <= i < |r.log| ==> r.log[i].Wake? && r.log[i].t in s.waiters[k..] && r.log[i].t !in r.waiters)
      && (forall t :: t in r.waiters ==> t in s.waiters)
      && (forall t :: t in s.waiters ==> t in r.waiters || exists i :: |s.log| <= i < |r.log| && r.log[i].t == t)
    decreases |s.waiters| - k
  {
    if k < |s.waiters| {
      hide Met, Left, Distinct, Both;
      if Met(s.want[s.waiters[k]], s.bits) {
        var u := Woken(s, k);
        WokenKnown(s, k);
        WalkLog(u, k);
        var r := Walk(u, k);
        assert u.log[|s.log|].t == s.waiters[k] && r.log[|s.log|] == u.log[|s.log|];
        assert s.waiters[k..] == [s.waiters[k]] + s.waiters[k + 1..];
        assert r.log[..|s.log|] == u.log[..|s.log|] == s.log;
      } else {
        WalkLog(s, k + 1);
        assert s.waiters[k..] == [s.waiters[k]] + s.waiters[k + 1..];
      }
    }
  }

  lemma FinishedInv(s: State, t: Tid, r: Result)
    requires Inv(s) && t in s.status && s.status[t].Ready?
    ensures Inv(Finished(s, t, r))
  {
    hide Queued, History, Replay, Met, Legal;
  }

  /** Receiving at once takes bits away, so it satisfies no waiter. */
  lemma TookNowInv(s: State, t: Tid, w: Want)
    requires Inv(s) && t in s.status && s.status[t].Ready? && Legal(w) && Met(w, s.bits)
    ensures Inv(TookNow(s, t, w))
  {
    hide Queued, History, Replay, Met, Legal, IsClear, Within, Both, Either, Without, Disjoint, Left;
    var s' := TookNow(s, t, w);
    assert forall j :: 0 <= j < |s.waiters| ==> s.waiters[j] in s.waiters;
    assert t !in s.waiters;
    WithoutFacts(s.bits, w.bits);
    WithoutFacts(s.bits, s.bits);
    NoneMetFewer(s, s', |s.waiters|);
    WokenLog(s, t, w);
    LeftIs(s, w);
    hide NoneMet;
  }

  lemma LeftIs(s: State, w: Want)
    ensures Left(w, s.bits, Both(w.bits, s.bits)) == if IsClear(w) then Without(s.bits, w.bits) else s.bits
  {
    hide IsClear, Within, Both, Either, Without, Disjoint;
    WithoutFacts(s.bits, w.bits);
  }

  lemma SuspendedInv(s: State, t: Tid, w: Want, i: nat)
    requires Inv(s) && t in s.status && s.status[t].Ready? && Legal(w) && !Met(w, s.bits)
    requires t in s.key && IsPosition(s.waiters, s.key, s.key[t], i)
    ensures Inv(Suspended(s, t, w, i))
  {
    hide Queued, History, Replay, Met, Legal, Inserted, IsPosition;
    var ws := s.waiters;
    PositionFits(ws, s.key, s.key[t], i);
    QueuedInsert(ws, s.key, s.arrival, s.clock, t, i);
    InsertMembers(ws, i, t);
    var s' := Suspended(s, t, w, i);
    forall j | 0 <= j < |s'.waiters|
      ensures s'.waiters[j] in s'.want && !Met(s'.want[s'.waiters[j]], s'.bits)
    {
      assert s'.waiters[j] in s'.waiters;
      var u := s'.waiters[j];
      if u != t {
        var m :| 0 <= m < |ws| && ws[m] == u;
        assert !Met(s.want[ws[m]], s.bits);
      }
    }
  }

  /** Every branch of rt_event_recv keeps the invariant. */
  lemma RecvInv(s: State, t: Tid, w: Want, time: int, i: nat)
    requires Inv(s) && t in s.status && s.status[t].Ready? && (w.bits == NONE || Legal(w))
    requires t in s.key && IsPosition(s.waiters, s.key, s.key[t], i)
    ensures i <= |s.waiters| && Inv(Recv(s, t, w, time, i))
  {
    hide Inv, Finished, TookNow, Suspended, Met, IsPosition;
    PositionFits(s.waiters, s.key, s.key[t], i);
    if w.bits == NONE {
      FinishedInv(s, t, Error);
    } else if Met(w, s.bits) {
      TookNowInv(s, t, w);
    } else if time == 0 {
      FinishedInv(s, t, TimedOut);
    } else {
      SuspendedInv(s, t, w, i);
    }
  }

  lemma ExpiredInv(s: State, i: nat)
    requires Inv(s) && i < |s.waiters|
    ensures Inv(Expired(s, i))
  {
    hide Queued, History, Replay, Met, Legal, Removed;
    var ws := s.waiters;
    QueuedKnown(ws, s.key, s.arrival, s.clock);
    QueuedRemove(ws, s.key, s.arrival, s.clock, i);
    RemoveMembers(ws, i);
    var s' := Expired(s, i);
    forall j | 0 <= j < |s'.waiters|
      ensures s'.waiters[j] in s'.want && !Met(s'.want[s'.waiters[j]], s'.bits)
    {
      assert s'.waiters[j] in s'.waiters;
      var m :| 0 <= m < |ws| && ws[m] == s'.waiters[j];
      assert !Met(s.want[ws[m]], s.bits);
    }
  }

  lemma ResetInv(s: State)
    requires Inv(s)
    ensures Inv(Reset(s))
  {
    HistoryAppend(s.log, Wiped);
    ReplayAppend(s.log, Wiped);
    hide History, Replay, Met, Legal;
  }

  // ---- who gets what ---------------------------------------------------------------------------------

  /** What is left of the bits `e` when the turn of a waiter is over. */
  function After(w: Want, e: Word): Word {
    if Met(w, e) then Left(w, e, Both(w.bits, e)) else e
  }

  /** The bits at the turn of waiter `k` when the waiters are served in order. */
  function BitsAt(ws: seq<Want>, e: Word, k: nat): Word
    requires k <= |ws|
    decreases k
  {
    if k == 0 then e else BitsAt(ws[1..], After(ws[0], e), k - 1)
  }

  /** What the waiters from place `k` on wait for. */
  ghost function Wants(s: State, k: nat): (ws: seq<Want>)
    requires WantsKnown(s) && k <= |s.waiters|
    ensures |ws| == |s.waiters| - k && forall j :: 0 <= j < |ws| ==> ws[j] == s.want[s.waiters[k + j]]
  {
    seq(|s.waiters| - k, j requires 0 <= j < |s.waiters| - k => s.want[s.waiters[k + j]])
  }

  /** A waiter whose turn comes with bits `e` gets its answer and leaves if its condition holds, and goes on waiting if not. */
  ghost predicate Served(s: State, u: State, t: Tid, w: Want, e: Word) {
    if Met(w, e) then t in u.status && u.status[t] == Ready(Received(Both(w.bits, e))) && t !in u.waiters
    else t in u.waiters && Untouched(s, u, t)
  }

  ghost predicate Untouched(s: State, u: State, t: Tid) {
    && (t in u.status <==> t in s.status) && (t in u.want <==> t in s.want)
    && (t in s.status ==> u.status[t] == s.status[t]) && (t in s.want ==> u.want[t] == s.want[t])
  }

  /** The log grows by wake-ups only. */
  ghost predicate Wakes(log: seq<Entry>, log': seq<Entry>) {
    |log| <= |log'| && log'[..|log|] == log && forall i :: |log| <= i < |log'| ==> log'[i].Wake?
  }

  /** The walk serves the waiters from place `k` on in order, each with what those before it have left. */
  ghost predicate ServesFrom(s: State, u: State, k: nat)
    requires WantsKnown(s) && k <= |s.waiters|
  {
    && u.bits == BitsAt(Wants(s, k), s.bits, |s.waiters| - k) && Wakes(s.log, u.log)
    && (forall j :: k <= j < |s.waiters| ==>
      Served(s, u, s.waiters[j], s.want[s.waiters[j]], BitsAt(Wants(s, k), s.bits, j - k)))
    && (forall x :: x in u.waiters ==> x in s.waiters) && (forall x :: x in s.waiters[..k] ==> x in u.waiters)
    && (forall x: Tid :: x !in s.waiters[k..] ==> Untouched(s, u, x))
  }

  lemma {:induction false} WalkServes(s: State, k: nat)
    requires WantsKnown(s) && Distinct(s.waiters) && k <= |s.waiters|
    ensures ServesFrom(s, Walk(s, k), k)
    decreases |s.waiters| - k
  {
    hide Met, Left, Both, ServesFrom;
    if k == |s.waiters| {
      ServesNobody(s, k);
    } else if Met(s.want[s.waiters[k]], s.bits) {
      WokenKnown(s, k);
      WalkServes(Woken(s, k), k);
      ServesMet(s, Walk(Woken(s, k), k), k);
    } else {
      WalkServes(s, k + 1);
      ServesUnmet(s, Walk(s, k + 1), k);
    }
  }

  lemma ServesNobody(s: State, k: nat)
    requires WantsKnown(s) && k == |s.waiters|
    ensures ServesFrom(s, s, k)
  {
    hide Met, Left, Both;
  }

  lemma WokenKnown(s: State, k: nat)
    requires WantsKnown(s) && Distinct(s.waiters) && k < |s.waiters|
    ensures var v := Woken(s, k);
      && WantsKnown(v) && Distinct(v.waiters) && |v.waiters| == |s.waiters| - 1 && v.waiters[..k] == s.waiters[..k]
      && v.waiters[k..] == s.waiters[k + 1..] && s.waiters[k] !in v.waiters
      && (forall x :: x in v.waiters <==> x in s.waiters && x != s.waiters[k])
  {
    hide Met, Left, Both;
    RemoveMembers(s.waiters, k);
    var v := Woken(s, k);
    assert v.waiters == s.waiters[..k] + s.waiters[k + 1..];
    forall j | 0 <= j < |v.waiters|
      ensures v.waiters[j] in v.want
    {
      assert v.waiters[j] == s.waiters[if j < k then j else j + 1];
    }
  }

  lemma ServesMet(s: State, u: State, k: nat)
    requires WantsKnown(s) && Distinct(s.waiters) && k < |s.waiters| && Met(s.want[s.waiters[k]], s.bits)
    requires WantsKnown(Woken(s, k)) && k <= |Woken(s, k).waiters| && ServesFrom(Woken(s, k), u, k)
    ensures ServesFrom(s, u, k)
  {
    hide Met, Left, Both, Woken, Served, Untouched;
    WokenKnown(s, k);
    WokenRest(s, k);
    WokenWants(s, k);
    var v, t := Woken(s, k), s.waiters[k];
    assert After(s.want[t], s.bits) == v.bits;
    ServedNow(s, u, k);
    forall j | k < j < |s.waiters|
      ensures Served(s, u, s.waiters[j], s.want[s.waiters[j]], BitsAt(Wants(s, k), s.bits, j - k))
    {
      ServedLater(s, u, k, j);
    }
    forall x: Tid | x !in s.waiters[k..]
      ensures Untouched(s, u, x)
    {
      UntouchedTwice(s, u, k, x);
    }
  }

  lemma ServedNow(s: State, u: State, k: nat)
    requires WantsKnown(s) && Distinct(s.waiters) && k < |s.waiters| && Met(s.want[s.waiters[k]], s.bits)
    requires WantsKnown(Woken(s, k)) && k <= |Woken(s, k).waiters| && ServesFrom(Woken(s, k), u, k)
    ensures Served(s, u, s.waiters[k], s.want[s.waiters[k]], s.bits)
  {
    hide Met, Left, Both, Woken;
    WokenKnown(s, k);
    WokenRest(s, k);
    var v, t := Woken(s, k), s.waiters[k];
    assert t !in v.waiters[k..];
    assert Untouched(v, u, t);
  }

  lemma ServedLater(s: State, u: State, k: nat, j: nat)
    requires WantsKnown(s) && Distinct(s.waiters) && k < |s.waiters| && Met(s.want[s.waiters[k]], s.bits)
    requires WantsKnown(Woken(s, k)) && k <= |Woken(s, k).waiters| && ServesFrom(Woken(s, k), u, k)
    requires k < j < |s.waiters|
    ensures Served(s, u, s.waiters[j], s.want[s.waiters[j]], BitsAt(Wants(s, k), s.bits, j - k))
  {
    hide Met, Left, Both, Woken;
    WokenKnown(s, k);
    WokenRest(s, k);
    WokenWants(s, k);
    var v, x := Woken(s, k), s.waiters[j];
    assert After(s.want[s.waiters[k]], s.bits) == v.bits;
    assert v.waiters[j - 1] == v.waiters[k..][j - 1 - k] == s.waiters[k + 1..][j - 1 - k] == x;
    assert x in v.waiters;
    assert Untouched(s, v, x);
    assert Served(v, u, v.waiters[j - 1], v.want[v.waiters[j - 1]], BitsAt(Wants(v, k), v.bits, j - 1 - k));
  }

  lemma UntouchedTwice(s: State, u: State, k: nat, x: Tid)
    requires WantsKnown(s) && Distinct(s.waiters) && k < |s.waiters| && Met(s.want[s.waiters[k]], s.bits)
    requires WantsKnown(Woken(s, k)) && k <= |Woken(s, k).waiters| && ServesFrom(Woken(s, k), u, k)
    requires x !in s.waiters[k..]
    ensures Untouched(s, u, x)
  {
    hide Met, Left, Both, Woken;
    WokenKnown(s, k);
    WokenRest(s, k);
    assert s.waiters[k..] == [s.waiters[k]] + s.waiters[k + 1..];
    assert Untouched(s, Woken(s, k), x) && Untouched(Woken(s, k), u, x);
  }

  /** Waking one waiter touches no other. */
  lemma WokenRest(s: State, k: nat)
    requires WantsKnown(s) && k < |s.waiters|
    ensures var v, t := Woken(s, k), s.waiters[k];
      && v.bits == Left(s.want[t], s.bits, Both(s.want[t].bits, s.bits))
      && (forall x :: x != t ==> Untouched(s, v, x)) && v.log == s.log + [Wake(t, s.want[t], Both(s.want[t].bits, s.bits))]
      && t in v.status && v.status[t] == Ready(Received(Both(s.want[t].bits, s.bits)))
  {}

  lemma WokenWants(s: State, k: nat)
    requires WantsKnown(s) && Distinct(s.waiters) && k < |s.waiters| && WantsKnown(Woken(s, k)) && k <= |Woken(s, k).waiters|
    ensures Wants(s, k)[1..] == Wants(Woken(s, k), k)
  {
    hide Met, Left, Both;
    WokenKnown(s, k);
    var v := Woken(s, k);
    forall a | k <= a < |v.waiters|
      ensures v.waiters[a] == s.waiters[a + 1] != s.waiters[k]
    {
      assert v.waiters[a] == v.waiters[k..][a - k] == s.waiters[k + 1..][a - k];
    }
  }

  lemma ServesUnmet(s: State, u: State, k: nat)
    requires WantsKnown(s) && k < |s.waiters| && !Met(s.want[s.waiters[k]], s.bits) && ServesFrom(s, u, k + 1)
    requires Distinct(s.waiters)
    ensures ServesFrom(s, u, k)
  {
    hide Met, Left, Both;
    var t := s.waiters[k];
    assert Wants(s, k)[1..] == Wants(s, k + 1);
    assert After(s.want[t], s.bits) == s.bits;
    assert s.waiters[..k + 1] == s.waiters[..k] + [t];
    assert s.waiters[k..] == [t] + s.waiters[k + 1..];
    assert t in s.waiters[..k + 1];
    NotBehind(s.waiters, k);
  }

  lemma NotBehind(ws: seq<Tid>, k: nat)
    requires Distinct(ws) && k < |ws|
    ensures ws[k] !in ws[k + 1..]
  {}

  /**
   rt_event_send, told without the walk: the bits are added, then the waiters are served in order, each
   by the bits that those before it have left; the history gains the signal and wake-ups only.
   */
  lemma SendOutcome(s: State, b: Word)
    requires Inv(s) && b != NONE
    ensures WantsKnown(s) && Does(s, Raise(b)) == Send(s, b)
    ensures var u, e := Send(s, b), Either(s.bits, b);
      && u.bits == BitsAt(Wants(s, 0), e, |s.waiters|) && Wakes(s.log + [Signal(b)], u.log)
      && (forall j :: 0 <= j < |s.waiters| ==> Served(s, u, s.waiters[j], s.want[s.waiters[j]], BitsAt(Wants(s, 0), e, j)))
      && (forall x :: x in u.waiters ==> x in s.waiters) && (forall x: Tid :: x !in s.waiters ==> Untouched(s, u, x))
  {
    hide Met, Left, Both, Either, InvBase, Walk;
    KnownFromInv(s);
    DistinctWaiters(s);
    var v := Signalled(s, b);
    WalkServes(v, 0);
    assert s.waiters[0..] == s.waiters;
    assert Wants(v, 0) == Wants(s, 0);
  }

  lemma DistinctWaiters(s: State)
    requires InvBase(s)
    ensures Distinct(s.waiters)
  {
    hide History, Legal, Replay;
    QueuedKnown(s.waiters, s.key, s.arrival, s.clock);
  }

  /** The first waiter whose condition holds once the bits are added gets its answer and leaves the list. */
  lemma FirstIsServed(s: State, b: Word, k: nat)
    requires Inv(s) && WantsKnown(s) && b != NONE && k < |s.waiters|
    requires var e := Either(s.bits, b);
      Met(s.want[s.waiters[k]], e) && forall j :: 0 <= j < k ==> !Met(s.want[s.waiters[j]], e)
    ensures var u, t := Send(s, b), s.waiters[k];
      t in u.status && u.status[t] == Ready(Received(Both(s.want[t].bits, Either(s.bits, b)))) && t !in u.waiters
  {
    hide InvBase, Met, Left, Both, Either, Send;
    SendOutcome(s, b);
    UnmetLeave(Wants(s, 0), Either(s.bits, b), k);
  }

  lemma {:induction false} UnmetLeave(ws: seq<Want>, e: Word, k: nat)
    requires k <= |ws| && forall j :: 0 <= j < k ==> !Met(ws[j], e)
    ensures BitsAt(ws, e, k) == e
    decreases k
  {
    hide Met, Left, Both;
    if k > 0 {
      assert forall j :: 0 <= j < k - 1 ==> ws[1..][j] == ws[j + 1];
      UnmetLeave(ws[1..], e, k - 1);
    }
  }

  /** rt_event_recv, told by the bits before: an empty request fails, one that holds is answered at once, any other times out or waits. */
  lemma RecvOutcome(s: State, t: Tid, w: Want, time: int, i: nat)
    requires i <= |s.waiters|
    ensures Can(s, Receive(t, w, time, i)) ==> Does(s, Receive(t, w, time, i)) == Recv(s, t, w, time, i)
    ensures var u := Recv(s, t, w, time, i);
      && (forall x :: x != t ==> Untouched(s, u, x)) && t in u.status
      && (w.bits == NONE ==> u.status[t] == Ready(Error) && u.bits == s.bits && u.waiters == s.waiters && u.log == s.log)
      && (w.bits != NONE && Met(w, s.bits) ==>
        && u.status[t] == Ready(Received(Both(w.bits, s.bits))) && u.waiters == s.waiters
        && u.bits == (if IsClear(w) then Without(s.bits, w.bits) else s.bits) && u.log == s.log + [Wake(t, w, Both(w.bits, s.bits))])
      && (w.bits != NONE && !Met(w, s.bits) && time == 0 ==>
        u.status[t] == Ready(TimedOut) && u.bits == s.bits && u.waiters == s.waiters && u.log == s.log)
      && (w.bits != NONE && !Met(w, s.bits) && time != 0 ==>
        && u.status[t] == Blocked && t in u.want && u.want[t] == w
        && u.waiters == Inserted(s.waiters, i, t) && u.bits == s.bits && u.log == s.log)
  {
    hide Met, Both, Without, IsClear, Inserted;
  }

  /** A timeout takes exactly its waiter out of the list. */
  lemma ExpireOutcome(s: State, i: nat)
    requires Inv(s) && i < |s.waiters|
    ensures Does(s, Expire(i)) == Expired(s, i)
    ensures var u, t := Expired(s, i), s.waiters[i];
      && t in u.status && u.status[t] == Ready(TimedOut) && (forall x :: x != t ==> Untouched(s, u, x))
      && (forall x :: x in u.waiters <==> x in s.waiters && x != t) && u.bits == s.bits && u.log == s.log
  {
    hide Met, Legal, History, Replay;
    QueuedKnown(s.waiters, s.key, s.arrival, s.clock);
    RemoveMembers(s.waiters, i);
  }

  /** A reset clears the bits and makes exactly the waiting calls fail. */
  lemma ResetOutcome(s: State)
    requires Inv(s)
    ensures Does(s, Control) == Reset(s)
    ensures var u := Reset(s);
      && u.bits == NONE && u.waiters == [] && u.status.Keys == s.status.Keys
      && (forall x :: x in s.status ==> u.status[x] == if x in s.waiters then Ready(Error) else s.status[x])
  {
    hide Queued, Met, Legal, History, Replay;
  }

  // ---- all runs ----------------------------------------------------------------------------------

  datatype Action = Receive(t: Tid, w: Want, time: int, i: nat) | Raise(bits: Word) | Expire(i: nat) | Control

  ghost predicate Can(s: State, a: Action) {
    match a
    case Receive(t, w, _, i) =>
      && t in s.status && s.status[t].Ready? && (w.bits == NONE || Legal(w))
      && t in s.key && IsPosition(s.waiters, s.key, s.key[t], i)
    case Raise(_) => WantsKnown(s)
    case Expire(i) => i < |s.waiters|
    case Control => true
  }

  ghost function Does(s: State, a: Action): State
    requires Can(s, a)
  {
    match a
    case Receive(t, w, time, i) => Recv(s, t, w, time, i)
    case Raise(b) => Send(s, b)
    case Expire(i) => Expired(s, i)
    case Control => Reset(s)
  }

  lemma StepInv(s: State, a: Action)
    requires Inv(s) && Can(s, a)
    ensures Inv(Does(s, a))
  {
    hide Inv, Recv, Send, Expired, Reset, Legal, IsPosition;
    match a
    case Receive(t, w, time, i) => RecvInv(s, t, w, time, i);
    case Raise(b) => SendInv(s, b);
    case Expire(i) => ExpiredInv(s, i);
    case Control => ResetInv(s);
  }

  ghost predicate Step(s: State, a: Action, s': State) {
    Can(s, a) && s' == Does(s, a)
  }

  ghost predicate IsRun(ss: seq<State>, acts: seq<Action>) {
    && |ss| == |acts| + 1
    && ss[0] == Initial(ss[0].key)
    && forall i, j :: 0 <= i < |acts| && j == i + 1 ==> Step(ss[i], acts[i], ss[j])
  }

  /** In every state of every run no suspended thread's condition holds, and the history explains the bits. */
  lemma {:induction false} RunInv(ss: seq<State>, acts: seq<Action>, k: nat)
    requires IsRun(ss, acts) && k < |ss|
    ensures Inv(ss[k])
  {
    hide Inv, Does, Can, Initial;
    if k == 0 {
      InitialInv(ss[0].key);
    } else {
      RunInv(ss, acts, k - 1);
      var i := k - 1;
      assert Step(ss[i], acts[i], ss[k]);
      StepInv(ss[i], acts[i]);
    }
  }
}
