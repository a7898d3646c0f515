/**
 rt_messagequeue under interleaving.  Every method below is one stretch of code that runs with
 interrupts disabled, or one unlocked store by the thread that owns a node; between two calls any
 other thread, or an interrupt, may run.  `pcs` says where each thread stands.
 */
module MessageQueue {
  import opened Ring
  import opened IpcList
  import opened MessageLog

  /** RT_MQ_ENTRY_MAX */
  const ENTRY_MAX: nat := 0xffff

  /** A link between message nodes. */
  datatype Ref = Nil | Node(id: nat)

  datatype Status = Fresh | Sent | Received(buffer: seq<bv8>) | Full | TimedOut | Failed

  /** Where a thread stands.  A timeout is negative for ever, zero for a non-blocking call. */
  datatype Pc =
    | Idle(result: Status)
    | SendWait(buf: seq<bv8>, timeout: int)        // in suspend_sender_thread
    | SendWoken(buf: seq<bv8>, timeout: int)       // resumed, not yet back in the loop
    | SendClaimed(node: nat, buf: seq<bv8>)        // lines 2831-2837
    | SendCopy(node: nat, buf: seq<bv8>, done: nat)
    | UrgentCopy(node: nat, buf: seq<bv8>, done: nat)
    | RecvWait(size: nat, timeout: int)            // in parent.suspend_thread
    | RecvWoken(size: nat, timeout: int)
    | RecvCopy(node: nat, size: nat, got: seq<bv8>)

  /** The thread has a node that is in neither list. */
  predicate Holds(pc: Pc) {
    pc.SendClaimed? || pc.SendCopy? || pc.UrgentCopy? || pc.RecvCopy?
  }

  /** Who has a node. */
  datatype Owner = InQueue | InFree | Held(thread: Tid)

  /** The singly linked list from `h` runs through `s` and ends. */
  ghost predicate ListOf(next: map<nat, Ref>, h: Ref, s: seq<nat>) {
    && Distinct(s)
    && (forall i :: 0 <= i < |s| ==> s[i] in next)
    && h == (if s == [] then Nil else Node(s[0]))
    && (forall i, j :: 0 <= i && j == i + 1 && j < |s| ==> next[s[i]] == Node(s[j]))
    && (s != [] ==> next[s[|s| - 1]] == Nil)
  }

  /** Each of the `max` nodes is queued, free, or held by exactly one thread. */
  ghost predicate Owned(owner: map<nat, Owner>, max: nat, qs: seq<nat>, fs: seq<nat>, pcs: map<Tid, Pc>) {
    && (forall n :: n in owner <==> 0 <= n < max)
    && (forall n :: n in owner ==> (owner[n] == InQueue <==> n in qs) && (owner[n] == InFree <==> n in fs))
    && (forall n :: n in qs ==> n in owner) && (forall n :: n in fs ==> n in owner)
    && (forall t :: t in pcs && Holds(pcs[t]) ==> pcs[t].node in owner && owner[pcs[t].node] == Held(t))
    && (forall n :: n in owner && owner[n].Held? ==>
         owner[n].thread in pcs && Holds(pcs[owner[n].thread]) && pcs[owner[n].thread].node == n)
  }

  /** What thread state `pc` has copied so far agrees with its node. */
  ghost predicate Copying(pc: Pc, data: map<nat, seq<bv8>>, next: map<nat, Ref>, size: nat) {
    match pc
    case SendWait(buf, _) => |buf| <= size
    case SendWoken(buf, _) => |buf| <= size
    case SendClaimed(n, buf) => |buf| <= size && n in data && n in next
    case SendCopy(n, buf, k) =>
      k <= |buf| <= size && n in data && |data[n]| == size && buf[..k] == data[n][..k] && n in next && next[n] == Nil
    case UrgentCopy(n, buf, k) => k <= |buf| <= size && n in data && |data[n]| == size && buf[..k] == data[n][..k] && n in next
    case RecvCopy(n, want, got) => n in data && |data[n]| == size && |got| <= size && |got| <= want && got == data[n][..|got|] && n in next
    case _ => true
  }

  /** The buffers hold the queued messages and what is being copied. */
  ghost predicate Buffers(data: map<nat, seq<bv8>>, next: map<nat, Ref>, size: nat, max: nat, qs: seq<nat>, q: seq<Message>,
                          pcs: map<Tid, Pc>, taken: map<Tid, Message>)
  {
    && (forall n :: 0 <= n < max ==> n in data && n in next)
    && (forall n :: n in data ==> |data[n]| == size)
    && |q| == |qs|
    && (forall i :: 0 <= i < |qs| ==> qs[i] in data && q[i].body <= data[qs[i]])
    && (forall t :: t in pcs ==> Copying(pcs[t], data, next, size))
    && (forall t :: t in pcs && pcs[t].RecvCopy? ==> t in taken && taken[t].body <= data[pcs[t].node])
  }

  /** The suspend lists hold exactly the waiting threads, and nobody is left waiting in vain. */
  ghost predicate Waiting(pcs: map<Tid, Pc>, receivers: seq<Tid>, senders: seq<Tid>, wokenR: set<Tid>, wokenS: set<Tid>,
                          queued: nat, avail: nat)
  {
    && Distinct(receivers) && Distinct(senders)
    && (forall t :: t in receivers <==> t in pcs && pcs[t].RecvWait?)
    && (forall t :: t in senders <==> t in pcs && pcs[t].SendWait?)
    && (forall t :: t in wokenR <==> t in pcs && pcs[t].RecvWoken?)
    && (forall t :: t in wokenS <==> t in pcs && pcs[t].SendWoken?)
    && (receivers != [] ==> queued <= |wokenR|)
    && (senders != [] ==> avail <= |wokenS|)
  }

  // ---- ownership -----------------------------------------------------------------------

  /** No thread other than `t` holds `n`. */
  ghost predicate OnlyHolder(pcs: map<Tid, Pc>, t: Tid, n: nat) {
    forall u :: u in pcs && u != t && Holds(pcs[u]) ==> pcs[u].node != n
  }

  lemma HeldIsExclusive(owner: map<nat, Owner>, max: nat, qs: seq<nat>, fs: seq<nat>, pcs: map<Tid, Pc>, t: Tid)
    requires Owned(owner, max, qs, fs, pcs) && t in pcs && Holds(pcs[t])
    ensures pcs[t].node < max && pcs[t].node !in qs && pcs[t].node !in fs && OnlyHolder(pcs, t, pcs[t].node)
  {}

  lemma ListedIsExclusive(owner: map<nat, Owner>, max: nat, qs: seq<nat>, fs: seq<nat>, pcs: map<Tid, Pc>, t: Tid, n: nat)
    requires Owned(owner, max, qs, fs, pcs) && (n in qs || n in fs) && (t in pcs ==> !Holds(pcs[t]))
    ensures n < max && OnlyHolder(pcs, t, n) && !(n in qs && n in fs)
  {}

  /** A thread that holds nothing, and will hold nothing, changes no ownership. */
  lemma OwnedIdle(owner: map<nat, Owner>, max: nat, qs: seq<nat>, fs: seq<nat>, pcs: map<Tid, Pc>, t: Tid, pc: Pc)
    requires Owned(owner, max, qs, fs, pcs) && (t in pcs ==> !Holds(pcs[t])) && !Holds(pc)
    ensures Owned(owner, max, qs, fs, pcs[t := pc])
  {}

  /** Nor does one that goes on holding the same node. */
  lemma OwnedStep(owner: map<nat, Owner>, max: nat, qs: seq<nat>, fs: seq<nat>, pcs: map<Tid, Pc>, t: Tid, pc: Pc)
    requires Owned(owner, max, qs, fs, pcs) && t in pcs && Holds(pcs[t]) && Holds(pc) && pc.node == pcs[t].node
    ensures Owned(owner, max, qs, fs, pcs[t := pc])
  {}

  /** Thread `t` takes a node out of one of the lists. */
  lemma OwnedTake(owner: map<nat, Owner>, max: nat, qs: seq<nat>, fs: seq<nat>, pcs: map<Tid, Pc>, t: Tid, pc: Pc, n: nat,
                  qs': seq<nat>, fs': seq<nat>)
    requires Owned(owner, max, qs, fs, pcs) && (t in pcs ==> !Holds(pcs[t])) && Holds(pc) && pc.node == n
    requires n in qs || n in fs
    requires forall x :: x in qs' <==> x in qs && x != n
    requires forall x :: x in fs' <==> x in fs && x != n
    ensures Owned(owner[n := Held(t)], max, qs', fs', pcs[t := pc])
  {}

  /** Thread `t` puts its node into one of the lists. */
  lemma OwnedPut(owner: map<nat, Owner>, max: nat, qs: seq<nat>, fs: seq<nat>, pcs: map<Tid, Pc>, t: Tid, pc: Pc, o: Owner,
                 qs': seq<nat>, fs': seq<nat>)
    requires Owned(owner, max, qs, fs, pcs) && t in pcs && Holds(pcs[t]) && !Holds(pc) && !o.Held?
    requires forall x :: x in qs' <==> x in qs || (o == InQueue && x == pcs[t].node)
    requires forall x :: x in fs' <==> x in fs || (o == InFree && x == pcs[t].node)
    ensures Owned(owner[pcs[t].node := o], max, qs', fs', pcs[t := pc])
  {}

  // ---- lists ---------------------------------------------------------------------------

  lemma PopList(next: map<nat, Ref>, h: Ref, s: seq<nat>)
    requires ListOf(next, h, s) && h != Nil
    ensures s != [] && h == Node(s[0]) && s[0] in next && ListOf(next, next[s[0]], s[1..])
    ensures forall x :: x in s[1..] <==> x in s && x != s[0]
    ensures |s| > 1 ==> s[1..][|s| - 2] == s[|s| - 1] && s[|s| - 1] != s[0]
  {
    var r := s[1..];
    assert forall i :: 0 <= i < |r| ==> r[i] == s[i + 1];
    forall x | x in s && x != s[0]
      ensures x in r
    {
      var i :| 0 <= i < |s| && s[i] == x;
      assert r[i - 1] == x;
    }
  }

  lemma PushList(next: map<nat, Ref>, h: Ref, s: seq<nat>, n: nat)
    requires ListOf(next, h, s) && n !in s
    ensures ListOf(next[n := h], Node(n), [n] + s)
    ensures forall x :: x in [n] + s <==> x in s || x == n
  {
    var r := [n] + s;
    assert forall i :: 0 < i < |r| ==> r[i] == s[i - 1];
  }

  /** Linking behind the last node, as lines 2844-2854 do. */
  lemma AppendList(next: map<nat, Ref>, h: Ref, s: seq<nat>, n: nat)
    requires ListOf(next, h, s) && n !in s && n in next && next[n] == Nil
    ensures ListOf(if s == [] then next else next[s[|s| - 1] := Node(n)], if s == [] then Node(n) else h, s + [n])
    ensures forall x :: x in s + [n] <==> x in s || x == n
  {}

  /** A list does not see a change of a node outside it. */
  lemma OtherList(next: map<nat, Ref>, h: Ref, s: seq<nat>, n: nat, r: Ref)
    requires ListOf(next, h, s) && n !in s
    ensures ListOf(next[n := r], h, s)
  {}

  // ---- buffers -------------------------------------------------------------------------

  /** Only the state of thread `t` changes. */
  lemma BuffersPc(data: map<nat, seq<bv8>>, next: map<nat, Ref>, size: nat, max: nat, qs: seq<nat>, q: seq<Message>,
                  pcs: map<Tid, Pc>, taken: map<Tid, Message>, t: Tid, pc: Pc)
    requires Buffers(data, next, size, max, qs, q, pcs, taken) && Copying(pc, data, next, size)
    requires pc.RecvCopy? ==> t in taken && pc.node in data && taken[t].body <= data[pc.node]
    ensures Buffers(data, next, size, max, qs, q, pcs[t := pc], taken)
  {}

  /** A link changes in a node that no other thread holds. */
  lemma BuffersNext(data: map<nat, seq<bv8>>, next: map<nat, Ref>, size: nat, max: nat, qs: seq<nat>, q: seq<Message>,
                    pcs: map<Tid, Pc>, taken: map<Tid, Message>, t: Tid, n: nat, r: Ref)
    requires Buffers(data, next, size, max, qs, q, pcs, taken) && OnlyHolder(pcs, t, n)
    requires t in pcs ==> Copying(pcs[t], data, next[n := r], size)
    ensures Buffers(data, next[n := r], size, max, qs, q, pcs, taken)
  {
    forall u | u in pcs
      ensures Copying(pcs[u], data, next[n := r], size)
    {
      assert Copying(pcs[u], data, next, size);
    }
  }

  /** Bytes change in a node that only `t` holds. */
  lemma BuffersData(data: map<nat, seq<bv8>>, next: map<nat, Ref>, size: nat, max: nat, qs: seq<nat>, q: seq<Message>,
                    pcs: map<Tid, Pc>, taken: map<Tid, Message>, t: Tid, n: nat, d: seq<bv8>, pc: Pc)
    requires Buffers(data, next, size, max, qs, q, pcs, taken) && OnlyHolder(pcs, t, n) && n !in qs && |d| == size
    requires Copying(pc, data[n := d], next, size) && !pc.RecvCopy?
    ensures Buffers(data[n := d], next, size, max, qs, q, pcs[t := pc], taken)
  {
    forall u | u in pcs && u != t
      ensures Copying(pcs[u], data[n := d], next, size)
    {
      assert Copying(pcs[u], data, next, size);
    }
  }

  // ---- suspend lists -------------------------------------------------------------------

  predicate InLists(pc: Pc) {
    pc.SendWait? || pc.SendWoken? || pc.RecvWait? || pc.RecvWoken?
  }

  /** A thread outside the suspend lists moves on; the counts may change as long as nobody waits in vain. */
  lemma WaitMove(pcs: map<Tid, Pc>, R: seq<Tid>, S: seq<Tid>, wR: set<Tid>, wS: set<Tid>, qd: nat, av: nat,
                 t: Tid, pc: Pc, qd': nat, av': nat)
    requires Waiting(pcs, R, S, wR, wS, qd, av) && t in pcs && !InLists(pcs[t]) && !InLists(pc)
    requires (R != [] ==> qd' <= |wR|) && (S != [] ==> av' <= |wS|)
    ensures Waiting(pcs[t := pc], R, S, wR, wS, qd', av')
  {}

  /** A sender comes back from the scheduler, or arrives, and does not wait. */
  lemma WaitPassS(pcs: map<Tid, Pc>, R: seq<Tid>, S: seq<Tid>, wR: set<Tid>, wS: set<Tid>, qd: nat, av: nat, t: Tid, pc: Pc, av': nat)
    requires Waiting(pcs, R, S, wR, wS, qd, av) && t in pcs && (pcs[t].Idle? || pcs[t].SendWoken?) && !InLists(pc)
    requires av' == 0 || av' == av - 1
    ensures Waiting(pcs[t := pc], R, S, wR, wS - {t}, qd, av')
  {
    if pcs[t].SendWoken? {
      assert |wS - {t}| == |wS| - 1;
    } else {
      assert wS - {t} == wS;
    }
  }

  lemma WaitPassR(pcs: map<Tid, Pc>, R: seq<Tid>, S: seq<Tid>, wR: set<Tid>, wS: set<Tid>, qd: nat, av: nat, t: Tid, pc: Pc, qd': nat)
    requires Waiting(pcs, R, S, wR, wS, qd, av) && t in pcs && (pcs[t].Idle? || pcs[t].RecvWoken?) && !InLists(pc)
    requires qd' == 0 || qd' == qd - 1
    ensures Waiting(pcs[t := pc], R, S, wR - {t}, wS, qd', av)
  {
    if pcs[t].RecvWoken? {
      assert |wR - {t}| == |wR| - 1;
    } else {
      assert wR - {t} == wR;
    }
  }

  /** A thread suspends on an empty free list, or on an empty queue. */
  lemma WaitSuspendS(pcs: map<Tid, Pc>, R: seq<Tid>, S: seq<Tid>, wR: set<Tid>, wS: set<Tid>, qd: nat, av: nat,
                     t: Tid, buf: seq<bv8>, timeout: int, i: nat)
    requires Waiting(pcs, R, S, wR, wS, qd, av) && t in pcs && (pcs[t].Idle? || pcs[t].SendWoken?) && av == 0 && i <= |S|
    ensures Waiting(pcs[t := SendWait(buf, timeout)], R, Inserted(S, i, t), wR, wS - {t}, qd, av)
  {
    InsertMembers(S, i, t);
  }

  lemma WaitSuspendR(pcs: map<Tid, Pc>, R: seq<Tid>, S: seq<Tid>, wR: set<Tid>, wS: set<Tid>, qd: nat, av: nat,
                     t: Tid, want: nat, timeout: int, i: nat)
    requires Waiting(pcs, R, S, wR, wS, qd, av) && t in pcs && (pcs[t].Idle? || pcs[t].RecvWoken?) && qd == 0 && i <= |R|
    ensures Waiting(pcs[t := RecvWait(want, timeout)], Inserted(R, i, t), S, wR - {t}, wS, qd, av)
  {
    InsertMembers(R, i, t);
  }

  /** The first waiting receiver is resumed because a message has been linked. */
  lemma WaitWakeR(pcs: map<Tid, Pc>, R: seq<Tid>, S: seq<Tid>, wR: set<Tid>, wS: set<Tid>, qd: nat, av: nat)
    requires Waiting(pcs, R, S, wR, wS, qd, av) && R != []
    ensures R[0] in pcs && pcs[R[0]].RecvWait? && R[0] !in wR
    ensures Waiting(pcs[R[0] := RecvWoken(pcs[R[0]].size, pcs[R[0]].timeout)], R[1..], S, wR + {R[0]}, wS, qd + 1, av)
  {
    RemoveMembers(R, 0);
    assert Removed(R, 0) == R[1..];
  }

  lemma WaitWakeS(pcs: map<Tid, Pc>, R: seq<Tid>, S: seq<Tid>, wR: set<Tid>, wS: set<Tid>, qd: nat, av: nat)
    requires Waiting(pcs, R, S, wR, wS, qd, av) && S != []
    ensures S[0] in pcs && pcs[S[0]].SendWait? && S[0] !in wS
    ensures Waiting(pcs[S[0] := SendWoken(pcs[S[0]].buf, pcs[S[0]].timeout)], R, S[1..], wR, wS + {S[0]}, qd, av + 1)
  {
    RemoveMembers(S, 0);
    assert Removed(S, 0) == S[1..];
  }

  /** Nobody waits: any count will do. */
  lemma WaitEmptyR(pcs: map<Tid, Pc>, R: seq<Tid>, S: seq<Tid>, wR: set<Tid>, wS: set<Tid>, qd: nat, av: nat, qd': nat)
    requires Waiting(pcs, R, S, wR, wS, qd, av) && R == []
    ensures Waiting(pcs, R, S, wR, wS, qd', av)
  {}

  lemma WaitEmptyS(pcs: map<Tid, Pc>, R: seq<Tid>, S: seq<Tid>, wR: set<Tid>, wS: set<Tid>, qd: nat, av: nat, av': nat)
    requires Waiting(pcs, R, S, wR, wS, qd, av) && S == []
    ensures Waiting(pcs, R, S, wR, wS, qd, av')
  {}

  /** A waiting thread leaves its list because its timer expired. */
  lemma WaitExpireR(pcs: map<Tid, Pc>, R: seq<Tid>, S: seq<Tid>, wR: set<Tid>, wS: set<Tid>, qd: nat, av: nat, i: nat, r: Status)
    requires Waiting(pcs, R, S, wR, wS, qd, av) && i < |R|
    ensures Waiting(pcs[R[i] := Idle(r)], Removed(R, i), S, wR, wS, qd, av)
  {
    RemoveMembers(R, i);
  }

  lemma WaitExpireS(pcs: map<Tid, Pc>, R: seq<Tid>, S: seq<Tid>, wR: set<Tid>, wS: set<Tid>, qd: nat, av: nat, i: nat, r: Status)
    requires Waiting(pcs, R, S, wR, wS, qd, av) && i < |S|
    ensures Waiting(pcs[S[i] := Idle(r)], R, Removed(S, i), wR, wS, qd, av)
  {
    RemoveMembers(S, i);
  }

  /** The threads on a suspend list have priorities. */
  lemma WaitersKnown(pcs: map<Tid, Pc>, R: seq<Tid>, S: seq<Tid>, wR: set<Tid>, wS: set<Tid>, qd: nat, av: nat, prio: map<Tid, nat>)
    requires Waiting(pcs, R, S, wR, wS, qd, av) && forall t :: t in pcs ==> t in prio
    ensures forall j :: 0 <= j < |R| ==> R[j] in prio
    ensures forall j :: 0 <= j < |S| ==> S[j] in prio
  {}

  lemma WaitNoLoss(pcs: map<Tid, Pc>, R: seq<Tid>, S: seq<Tid>, wR: set<Tid>, wS: set<Tid>, qd: nat, av: nat)
    requires Waiting(pcs, R, S, wR, wS, qd, av)
    ensures (R != [] ==> qd <= |wR|) && (S != [] ==> av <= |wS|)
  {}

  lemma EmptyList(next: map<nat, Ref>, h: Ref, s: seq<nat>)
    requires ListOf(next, h, s)
    ensures h == Nil <==> s == []
    ensures s != [] ==> h == Node(s[0])
  {}

  lemma CopyNothing(pc: Pc, data: map<nat, seq<bv8>>, next: map<nat, Ref>, size: nat)
    requires pc.Idle? || pc.RecvWait? || pc.RecvWoken? || (pc.SendWait? && |pc.buf| <= size) || (pc.SendWoken? && |pc.buf| <= size)
    ensures Copying(pc, data, next, size)
  {}

  lemma CopyClaim(n: nat, buf: seq<bv8>, data: map<nat, seq<bv8>>, next: map<nat, Ref>, size: nat, max: nat, qs: seq<nat>, q: seq<Message>,
                  pcs: map<Tid, Pc>, taken: map<Tid, Message>)
    requires Buffers(data, next, size, max, qs, q, pcs, taken) && n < max && |buf| <= size
    ensures Copying(SendClaimed(n, buf), data, next, size) && Copying(UrgentCopy(n, buf, 0), data, next, size)
  {}

  /** The remaining timeout; a negative one never runs out. */
  function TimeLeft(timeout: int, elapsed: nat): int {
    if timeout > 0 then (if timeout - elapsed < 0 then 0 else timeout - elapsed) else timeout
  }

  // ---- the whole state -------------------------------------------------------------------

  /** The queue object, the threads, and the history. */
  datatype State = State(
    max: nat,                          // max_msgs
    size: nat,                         // msg_size
    fifo: bool,                        // RT_IPC_FLAG_FIFO, else waiters queue by priority
    prio: map<Tid, nat>,
    next: map<nat, Ref>,               // the next field of every node
    data: map<nat, seq<bv8>>,          // the message area behind it
    head: Ref,
    tail: Ref,
    free: Ref,
    entry: nat,
    pcs: map<Tid, Pc>,
    receivers: seq<Tid>,               // parent.suspend_thread
    senders: seq<Tid>,                 // suspend_sender_thread
    qs: seq<nat>,                      // queued nodes
    fs: seq<nat>,                      // free nodes
    q: seq<Message>,                   // queued messages
    owner: map<nat, Owner>,
    taken: map<Tid, Message>,          // the message a receiver is copying
    wokenR: set<Tid>,
    wokenS: set<Tid>,
    log: seq<Event>)

  ghost predicate Inv(s: State) {
    InvBut(s, |s.qs|, |s.fs|)
  }

  function SetPc(s: State, t: Tid, pc: Pc): State {
    s.(pcs := s.pcs[t := pc])
  }

  // ---- the steps -------------------------------------------------------------------------

  /** A sender that arrives or comes back finds no node and does not wait. */
  function GaveUpSend(s: State, t: Tid): State {
    s.(pcs := s.pcs[t := Idle(Full)], wokenS := s.wokenS - {t})
  }

  function SuspendedSender(s: State, t: Tid, buf: seq<bv8>, timeout: int, i: nat): State
    requires i <= |s.senders|
  {
    s.(pcs := s.pcs[t := SendWait(buf, timeout)], senders := Inserted(s.senders, i, t), wokenS := s.wokenS - {t})
  }

  /** A sender takes the first free node. */
  function Claimed(s: State, t: Tid, buf: seq<bv8>, urgent: bool): State
    requires s.fs != [] && s.fs[0] in s.next
  {
    var n := s.fs[0];
    s.(free := s.next[n], fs := s.fs[1..], owner := s.owner[n := Held(t)], wokenS := s.wokenS - {t},
       pcs := s.pcs[t := if urgent then UrgentCopy(n, buf, 0) else SendClaimed(n, buf)])
  }

  /** msg->next = RT_NULL, outside the lock. */
  function Cleared(s: State, t: Tid): State
    requires t in s.pcs && s.pcs[t].SendClaimed?
  {
    var pc := s.pcs[t];
    s.(next := s.next[pc.node := Nil], pcs := s.pcs[t := SendCopy(pc.node, pc.buf, 0)])
  }

  /** One byte of the sender's rt_memcpy. */
  function CopiedIn(s: State, t: Tid): State
    requires t in s.pcs && (s.pcs[t].SendCopy? || s.pcs[t].UrgentCopy?) && s.pcs[t].done < |s.pcs[t].buf|
    requires s.pcs[t].node in s.data && s.pcs[t].done < |s.data[s.pcs[t].node]|
  {
    var pc := s.pcs[t];
    s.(data := s.data[pc.node := s.data[pc.node][pc.done := pc.buf[pc.done]]], pcs := s.pcs[t := pc.(done := pc.done + 1)])
  }

  /** Lines 2843-2860: the message goes to the end of the queue. */
  function LinkedLast(s: State, t: Tid): State
    requires t in s.pcs && s.pcs[t].SendCopy?
  {
    var n, m := s.pcs[t].node, Message(s.pcs[t].buf, false);
    s.(next := if s.tail.Node? then s.next[s.tail.id := Node(n)] else s.next,
       tail := Node(n), head := if s.head == Nil then Node(n) else s.head, entry := s.entry + 1,
       qs := s.qs + [n], q := s.q + [m], owner := s.owner[n := InQueue], log := s.log + [Link(m)],
       pcs := s.pcs[t := Idle(Sent)])
  }

  /** Lines 2977-2989: the message goes to the front. */
  function LinkedFirst(s: State, t: Tid): State
    requires t in s.pcs && s.pcs[t].UrgentCopy?
  {
    var n, m := s.pcs[t].node, Message(s.pcs[t].buf, true);
    s.(next := s.next[n := s.head], head := Node(n), tail := if s.tail == Nil then Node(n) else s.tail, entry := s.entry + 1,
       qs := [n] + s.qs, q := [m] + s.q, owner := s.owner[n := InQueue], log := s.log + [Link(m)],
       pcs := s.pcs[t := Idle(Sent)])
  }

  /** _ipc_list_resume on the receivers, which runs in the same locked section. */
  function WokeReceiver(s: State): State
    requires s.receivers != [] ==> s.receivers[0] in s.pcs && s.pcs[s.receivers[0]].RecvWait?
  {
    if s.receivers == [] then s
    else
      var r := s.receivers[0];
      s.(receivers := s.receivers[1..], wokenR := s.wokenR + {r}, pcs := s.pcs[r := RecvWoken(s.pcs[r].size, s.pcs[r].timeout)])
  }

  function GaveUpRecv(s: State, t: Tid): State {
    s.(pcs := s.pcs[t := Idle(TimedOut)], wokenR := s.wokenR - {t})
  }

  function SuspendedReceiver(s: State, t: Tid, want: nat, timeout: int, i: nat): State
    requires i <= |s.receivers|
  {
    s.(pcs := s.pcs[t := RecvWait(want, timeout)], receivers := Inserted(s.receivers, i, t), wokenR := s.wokenR - {t})
  }

  /** Lines 3136-3148: a receiver takes the first message. */
  function Dequeued(s: State, t: Tid, want: nat): State
    requires s.qs != [] && s.q != [] && s.qs[0] in s.next && s.entry > 0
  {
    var n := s.qs[0];
    s.(head := s.next[n], tail := if s.tail == Node(n) then Nil else s.tail, entry := s.entry - 1,
       qs := s.qs[1..], q := s.q[1..], owner := s.owner[n := Held(t)], taken := s.taken[t := s.q[0]],
       log := s.log + [Take(s.q[0])], wokenR := s.wokenR - {t}, pcs := s.pcs[t := RecvCopy(n, want, [])])
  }

  /** One byte of the receiver's rt_memcpy. */
  function CopiedOut(s: State, t: Tid): State
    requires t in s.pcs && s.pcs[t].RecvCopy? && s.pcs[t].node in s.data && |s.pcs[t].got| < |s.data[s.pcs[t].node]|
  {
    var pc := s.pcs[t];
    s.(pcs := s.pcs[t := pc.(got := pc.got + [s.data[pc.node][|pc.got|]])])
  }

  /** Lines 3158-3160: the node goes back to the free list. */
  function Freed(s: State, t: Tid): State
    requires t in s.pcs && s.pcs[t].RecvCopy?
  {
    var n := s.pcs[t].node;
    s.(next := s.next[n := s.free], free := Node(n), fs := [n] + s.fs, owner := s.owner[n := InFree],
       pcs := s.pcs[t := Idle(Received(s.pcs[t].got))])
  }

  function WokeSender(s: State): State
    requires s.senders != [] ==> s.senders[0] in s.pcs && s.pcs[s.senders[0]].SendWait?
  {
    if s.senders == [] then s
    else
      var r := s.senders[0];
      s.(senders := s.senders[1..], wokenS := s.wokenS + {r}, pcs := s.pcs[r := SendWoken(s.pcs[r].buf, s.pcs[r].timeout)])
  }

  /** A waiting thread leaves its list with an error: its timer expired, or the queue was reset. */
  function DismissedReceiver(s: State, i: nat, r: Status): State
    requires i < |s.receivers|
  {
    s.(receivers := Removed(s.receivers, i), pcs := s.pcs[s.receivers[i] := Idle(r)])
  }

  function DismissedSender(s: State, i: nat, r: Status): State
    requires i < |s.senders|
  {
    s.(senders := Removed(s.senders, i), pcs := s.pcs[s.senders[i] := Idle(r)])
  }

  /** One turn of the release loop of RT_IPC_CMD_RESET. */
  function DroppedFirst(s: State): State
    requires s.qs != [] && s.q != [] && s.qs[0] in s.next && s.entry > 0
  {
    var n := s.qs[0];
    s.(head := s.next[n], tail := if s.tail == Node(n) then Nil else s.tail, entry := s.entry - 1,
       next := s.next[n := s.free], free := Node(n), qs := s.qs[1..], q := s.q[1..], fs := [n] + s.fs,
       owner := s.owner[n := InFree], log := s.log + [Drop(s.q[0])])
  }

  // ---- every step keeps the invariant -------------------------------------------------------

  lemma FinishInv(s: State, t: Tid, r: Status)
    requires Inv(s) && t in s.pcs && s.pcs[t].Idle?
    ensures Inv(SetPc(s, t, Idle(r)))
  {
    hide ListOf, Owned, Buffers, Waiting, Explains, Copying;
    OwnedIdle(s.owner, s.max, s.qs, s.fs, s.pcs, t, Idle(r));
    CopyNothing(Idle(r), s.data, s.next, s.size);
    BuffersPc(s.data, s.next, s.size, s.max, s.qs, s.q, s.pcs, s.taken, t, Idle(r));
    WaitNoLoss(s.pcs, s.receivers, s.senders, s.wokenR, s.wokenS, |s.qs|, |s.fs|);
    WaitMove(s.pcs, s.receivers, s.senders, s.wokenR, s.wokenS, |s.qs|, |s.fs|, t, Idle(r), |s.qs|, |s.fs|);
  }

  lemma GaveUpSendInv(s: State, t: Tid)
    requires Inv(s) && t in s.pcs && (s.pcs[t].Idle? || s.pcs[t].SendWoken?) && s.fs == []
    ensures Inv(GaveUpSend(s, t))
  {
    hide ListOf, Owned, Buffers, Waiting, Explains, Copying;
    var pc := Idle(Full);
    OwnedIdle(s.owner, s.max, s.qs, s.fs, s.pcs, t, pc);
    CopyNothing(pc, s.data, s.next, s.size);
    BuffersPc(s.data, s.next, s.size, s.max, s.qs, s.q, s.pcs, s.taken, t, pc);
    WaitPassS(s.pcs, s.receivers, s.senders, s.wokenR, s.wokenS, |s.qs|, |s.fs|, t, pc, 0);
  }

  lemma SuspendedSenderInv(s: State, t: Tid, buf: seq<bv8>, timeout: int, i: nat)
    requires Inv(s) && t in s.pcs && (s.pcs[t].Idle? || s.pcs[t].SendWoken?) && s.fs == [] && |buf| <= s.size && i <= |s.senders|
    ensures Inv(SuspendedSender(s, t, buf, timeout, i))
  {
    hide ListOf, Owned, Buffers, Waiting, Explains, Copying, Inserted;
    var pc := SendWait(buf, timeout);
    OwnedIdle(s.owner, s.max, s.qs, s.fs, s.pcs, t, pc);
    CopyNothing(pc, s.data, s.next, s.size);
    BuffersPc(s.data, s.next, s.size, s.max, s.qs, s.q, s.pcs, s.taken, t, pc);
    WaitSuspendS(s.pcs, s.receivers, s.senders, s.wokenR, s.wokenS, |s.qs|, |s.fs|, t, buf, timeout, i);
  }

  lemma ClaimedInv(s: State, t: Tid, buf: seq<bv8>, urgent: bool)
    requires Inv(s) && t in s.pcs && (s.pcs[t].Idle? || s.pcs[t].SendWoken?) && s.fs != [] && |buf| <= s.size
    ensures s.fs[0] in s.next && Inv(Claimed(s, t, buf, urgent))
  {
    hide ListOf, Owned, Buffers, Waiting, Explains, Copying;
    EmptyList(s.next, s.free, s.fs);
    PopList(s.next, s.free, s.fs);
    var n := s.fs[0];
    var pc := if urgent then UrgentCopy(n, buf, 0) else SendClaimed(n, buf);
    ListedIsExclusive(s.owner, s.max, s.qs, s.fs, s.pcs, t, n);
    OwnedTake(s.owner, s.max, s.qs, s.fs, s.pcs, t, pc, n, s.qs, s.fs[1..]);
    CopyClaim(n, buf, s.data, s.next, s.size, s.max, s.qs, s.q, s.pcs, s.taken);
    BuffersPc(s.data, s.next, s.size, s.max, s.qs, s.q, s.pcs, s.taken, t, pc);
    WaitPassS(s.pcs, s.receivers, s.senders, s.wokenR, s.wokenS, |s.qs|, |s.fs|, t, pc, |s.fs| - 1);
  }

  lemma ClearedInv(s: State, t: Tid)
    requires Inv(s) && t in s.pcs && s.pcs[t].SendClaimed?
    ensures Inv(Cleared(s, t))
  {
    hide ListOf, Owned, Buffers, Waiting, Explains, Copying, OnlyHolder;
    var pc := s.pcs[t];
    var n, pc' := pc.node, SendCopy(pc.node, pc.buf, 0);
    HeldIsExclusive(s.owner, s.max, s.qs, s.fs, s.pcs, t);
    OtherList(s.next, s.head, s.qs, n, Nil);
    OtherList(s.next, s.free, s.fs, n, Nil);
    OwnedStep(s.owner, s.max, s.qs, s.fs, s.pcs, t, pc');
    ClearedCopy(s, t);
    BuffersNext(s.data, s.next, s.size, s.max, s.qs, s.q, s.pcs, s.taken, t, n, Nil);
    BuffersPc(s.data, s.next[n := Nil], s.size, s.max, s.qs, s.q, s.pcs, s.taken, t, pc');
    WaitNoLoss(s.pcs, s.receivers, s.senders, s.wokenR, s.wokenS, |s.qs|, |s.fs|);
    WaitMove(s.pcs, s.receivers, s.senders, s.wokenR, s.wokenS, |s.qs|, |s.fs|, t, pc', |s.qs|, |s.fs|);
  }

  lemma ClearedCopy(s: State, t: Tid)
    requires Buffers(s.data, s.next, s.size, s.max, s.qs, s.q, s.pcs, s.taken) && t in s.pcs && s.pcs[t].SendClaimed?
    ensures var pc := s.pcs[t]; var next' := s.next[pc.node := Nil];
      Copying(pc, s.data, next', s.size) && Copying(SendCopy(pc.node, pc.buf, 0), s.data, next', s.size)
  {
    assert Copying(s.pcs[t], s.data, s.next, s.size);
  }

  /** A copying sender is inside its node. */
  lemma CopyInReady(s: State, t: Tid)
    requires Buffers(s.data, s.next, s.size, s.max, s.qs, s.q, s.pcs, s.taken) && t in s.pcs
    requires (s.pcs[t].SendCopy? || s.pcs[t].UrgentCopy?) && s.pcs[t].done < |s.pcs[t].buf|
    ensures s.pcs[t].node in s.data && |s.data[s.pcs[t].node]| == s.size && s.pcs[t].done < s.size
    ensures var pc := s.pcs[t]; var d := s.data[pc.node][pc.done := pc.buf[pc.done]];
      Copying(pc.(done := pc.done + 1), s.data[pc.node := d], s.next, s.size)
  {
    hide Buffers;
    CopyingOf(s, t);
    var pc := s.pcs[t];
    var d := s.data[pc.node];
    var d' := d[pc.done := pc.buf[pc.done]];
    assert pc.buf[..pc.done + 1] == pc.buf[..pc.done] + [pc.buf[pc.done]];
    assert d'[..pc.done + 1] == d[..pc.done] + [pc.buf[pc.done]];
  }

  lemma CopiedInInv(s: State, t: Tid)
    requires Inv(s) && t in s.pcs && (s.pcs[t].SendCopy? || s.pcs[t].UrgentCopy?) && s.pcs[t].done < |s.pcs[t].buf|
    ensures s.pcs[t].node in s.data && s.pcs[t].done < |s.data[s.pcs[t].node]| && Inv(CopiedIn(s, t))
  {
    hide ListOf, Owned, Buffers, Waiting, Explains, Copying, OnlyHolder;
    CopyInReady(s, t);
    var pc := s.pcs[t];
    var pc' := pc.(done := pc.done + 1);
    var d := s.data[pc.node][pc.done := pc.buf[pc.done]];
    HeldIsExclusive(s.owner, s.max, s.qs, s.fs, s.pcs, t);
    OwnedStep(s.owner, s.max, s.qs, s.fs, s.pcs, t, pc');
    BuffersData(s.data, s.next, s.size, s.max, s.qs, s.q, s.pcs, s.taken, t, pc.node, d, pc');
    WaitNoLoss(s.pcs, s.receivers, s.senders, s.wokenR, s.wokenS, |s.qs|, |s.fs|);
    WaitMove(s.pcs, s.receivers, s.senders, s.wokenR, s.wokenS, |s.qs|, |s.fs|, t, pc', |s.qs|, |s.fs|);
  }

  // ---- linking ----------------------------------------------------------------------------

  /** The queue changes, the threads do not. */
  lemma BuffersQueue(data: map<nat, seq<bv8>>, next: map<nat, Ref>, size: nat, max: nat, qs: seq<nat>, q: seq<Message>,
                     pcs: map<Tid, Pc>, taken: map<Tid, Message>, qs': seq<nat>, q': seq<Message>)
    requires Buffers(data, next, size, max, qs, q, pcs, taken) && |q'| == |qs'|
    requires forall i :: 0 <= i < |qs'| ==> qs'[i] in data && q'[i].body <= data[qs'[i]]
    ensures Buffers(data, next, size, max, qs', q', pcs, taken)
  {}

  /** A fully copied message is in its node. */
  lemma MessageComplete(s: State, t: Tid)
    requires Buffers(s.data, s.next, s.size, s.max, s.qs, s.q, s.pcs, s.taken) && t in s.pcs
    requires (s.pcs[t].SendCopy? || s.pcs[t].UrgentCopy?) && s.pcs[t].done == |s.pcs[t].buf|
    ensures s.pcs[t].node in s.data && s.pcs[t].buf <= s.data[s.pcs[t].node] && s.pcs[t].node in s.next
    ensures s.pcs[t].SendCopy? ==> s.next[s.pcs[t].node] == Nil
  {
    hide Buffers;
    CopyingOf(s, t);
    var pc := s.pcs[t];
    assert pc.buf[..pc.done] == pc.buf;
  }

  lemma BuffersAppend(s: State, t: Tid, m: Message)
    requires Buffers(s.data, s.next, s.size, s.max, s.qs, s.q, s.pcs, s.taken) && t in s.pcs && Holds(s.pcs[t])
    requires s.pcs[t].node in s.data && m.body <= s.data[s.pcs[t].node]
    ensures Buffers(s.data, s.next, s.size, s.max, s.qs + [s.pcs[t].node], s.q + [m], s.pcs, s.taken)
    ensures Buffers(s.data, s.next, s.size, s.max, [s.pcs[t].node] + s.qs, [m] + s.q, s.pcs, s.taken)
  {
    BuffersQueue(s.data, s.next, s.size, s.max, s.qs, s.q, s.pcs, s.taken, s.qs + [s.pcs[t].node], s.q + [m]);
    BuffersQueue(s.data, s.next, s.size, s.max, s.qs, s.q, s.pcs, s.taken, [s.pcs[t].node] + s.qs, [m] + s.q);
  }

  /** Everything but the waiting condition after linking: one more message may need one more resumed receiver. */
  ghost predicate InvBut(s: State, queued: nat, avail: nat) {
    && s.max <= ENTRY_MAX
    && (forall t :: t in s.pcs ==> t in s.prio)
    && ListOf(s.next, s.head, s.qs) && ListOf(s.next, s.free, s.fs)
    && s.tail == (if s.qs == [] then Nil else Node(s.qs[|s.qs| - 1]))
    && s.entry == |s.qs|
    && Owned(s.owner, s.max, s.qs, s.fs, s.pcs)
    && Buffers(s.data, s.next, s.size, s.max, s.qs, s.q, s.pcs, s.taken)
    && Waiting(s.pcs, s.receivers, s.senders, s.wokenR, s.wokenS, queued, avail)
    && Explains(s.log, s.q)
  }

  lemma LinkedLastInv(s: State, t: Tid)
    requires Inv(s) && t in s.pcs && s.pcs[t].SendCopy? && s.pcs[t].done == |s.pcs[t].buf|
    ensures InvBut(LinkedLast(s, t), |s.qs|, |s.fs|)
  {
    hide ListOf, Owned, Buffers, Waiting, Explains, Copying, OnlyHolder;
    var n, m := s.pcs[t].node, Message(s.pcs[t].buf, false);
    MessageComplete(s, t);
    HeldIsExclusive(s.owner, s.max, s.qs, s.fs, s.pcs, t);
    AppendList(s.next, s.head, s.qs, n);
    EmptyList(s.next, s.head, s.qs);
    OwnedPut(s.owner, s.max, s.qs, s.fs, s.pcs, t, Idle(Sent), InQueue, s.qs + [n], s.fs);
    LogLink(s.log, s.q, m);
    LinkTail(s, t, m);
    WaitNoLoss(s.pcs, s.receivers, s.senders, s.wokenR, s.wokenS, |s.qs|, |s.fs|);
    WaitMove(s.pcs, s.receivers, s.senders, s.wokenR, s.wokenS, |s.qs|, |s.fs|, t, Idle(Sent), |s.qs|, |s.fs|);
  }

  lemma LinkTail(s: State, t: Tid, m: Message)
    requires Inv(s) && t in s.pcs && s.pcs[t].SendCopy? && s.pcs[t].node in s.data && m.body <= s.data[s.pcs[t].node]
    ensures var s' := LinkedLast(s, t);
      && Buffers(s.data, s'.next, s.size, s.max, s.qs + [s.pcs[t].node], s.q + [m], s'.pcs, s.taken)
      && ListOf(s'.next, s.free, s.fs)
  {
    hide ListOf, Owned, Buffers, Waiting, Explains, OnlyHolder;
    var n := s.pcs[t].node;
    CopyNothing(Idle(Sent), s.data, s.next, s.size);
    BuffersAppend(s, t, m);
    BuffersPc(s.data, s.next, s.size, s.max, s.qs + [n], s.q + [m], s.pcs, s.taken, t, Idle(Sent));
    if s.tail.Node? {
      var l := s.tail.id;
      assert l in s.qs;
      ListedIsExclusiveAll(s.owner, s.max, s.qs, s.fs, s.pcs, l);
      OtherList(s.next, s.free, s.fs, l, Node(n));
      StillOnly(s.pcs, t, Idle(Sent), l);
      BuffersNext(s.data, s.next, s.size, s.max, s.qs + [n], s.q + [m], s.pcs[t := Idle(Sent)], s.taken, t, l, Node(n));
    }
  }

  /** A listed node is held by nobody. */
  lemma ListedIsExclusiveAll(owner: map<nat, Owner>, max: nat, qs: seq<nat>, fs: seq<nat>, pcs: map<Tid, Pc>, n: nat)
    requires Owned(owner, max, qs, fs, pcs) && (n in qs || n in fs)
    ensures n < max && !(n in qs && n in fs)
    ensures forall t :: OnlyHolder(pcs, t, n)
  {}

  lemma StillOnly(pcs: map<Tid, Pc>, t: Tid, pc: Pc, n: nat)
    requires OnlyHolder(pcs, t, n)
    ensures OnlyHolder(pcs[t := pc], t, n)
  {}

  lemma LinkedFirstInv(s: State, t: Tid)
    requires Inv(s) && t in s.pcs && s.pcs[t].UrgentCopy? && s.pcs[t].done == |s.pcs[t].buf|
    ensures InvBut(LinkedFirst(s, t), |s.qs|, |s.fs|)
  {
    hide ListOf, Owned, Buffers, Waiting, Explains, OnlyHolder;
    var n, m := s.pcs[t].node, Message(s.pcs[t].buf, true);
    MessageComplete(s, t);
    HeldIsExclusive(s.owner, s.max, s.qs, s.fs, s.pcs, t);
    PushList(s.next, s.head, s.qs, n);
    OtherList(s.next, s.free, s.fs, n, s.head);
    OwnedPut(s.owner, s.max, s.qs, s.fs, s.pcs, t, Idle(Sent), InQueue, [n] + s.qs, s.fs);
    LogLink(s.log, s.q, m);
    BuffersAppend(s, t, m);
    BuffersPc(s.data, s.next, s.size, s.max, [n] + s.qs, [m] + s.q, s.pcs, s.taken, t, Idle(Sent));
    StillOnly(s.pcs, t, Idle(Sent), n);
    BuffersNext(s.data, s.next, s.size, s.max, [n] + s.qs, [m] + s.q, s.pcs[t := Idle(Sent)], s.taken, t, n, s.head);
    WaitNoLoss(s.pcs, s.receivers, s.senders, s.wokenR, s.wokenS, |s.qs|, |s.fs|);
    WaitMove(s.pcs, s.receivers, s.senders, s.wokenR, s.wokenS, |s.qs|, |s.fs|, t, Idle(Sent), |s.qs|, |s.fs|);
  }

  /** Resuming the first receiver restores the waiting condition. */
  lemma WokeReceiverInv(s: State)
    requires |s.qs| > 0 && InvBut(s, |s.qs| - 1, |s.fs|)
    ensures s.receivers != [] ==> s.receivers[0] in s.pcs && s.pcs[s.receivers[0]].RecvWait?
    ensures Inv(WokeReceiver(s))
  {
    hide ListOf, Owned, Buffers, Waiting, Explains, Copying;
    if s.receivers == [] {
      WaitEmptyR(s.pcs, s.receivers, s.senders, s.wokenR, s.wokenS, |s.qs| - 1, |s.fs|, |s.qs|);
    } else {
      var r := s.receivers[0];
      WaitWakeR(s.pcs, s.receivers, s.senders, s.wokenR, s.wokenS, |s.qs| - 1, |s.fs|);
      var pc := RecvWoken(s.pcs[r].size, s.pcs[r].timeout);
      OwnedIdle(s.owner, s.max, s.qs, s.fs, s.pcs, r, pc);
      CopyNothing(pc, s.data, s.next, s.size);
      BuffersPc(s.data, s.next, s.size, s.max, s.qs, s.q, s.pcs, s.taken, r, pc);
    }
  }

  lemma WokeSenderInv(s: State)
    requires |s.fs| > 0 && InvBut(s, |s.qs|, |s.fs| - 1)
    ensures s.senders != [] ==> s.senders[0] in s.pcs && s.pcs[s.senders[0]].SendWait?
    ensures Inv(WokeSender(s))
  {
    hide ListOf, Owned, Buffers, Waiting, Explains;
    if s.senders == [] {
      WaitEmptyS(s.pcs, s.receivers, s.senders, s.wokenR, s.wokenS, |s.qs|, |s.fs| - 1, |s.fs|);
    } else {
      var r := s.senders[0];
      WaitWakeS(s.pcs, s.receivers, s.senders, s.wokenR, s.wokenS, |s.qs|, |s.fs| - 1);
      var pc := SendWoken(s.pcs[r].buf, s.pcs[r].timeout);
      OwnedIdle(s.owner, s.max, s.qs, s.fs, s.pcs, r, pc);
      CopyingOf(s, r);
      BuffersPc(s.data, s.next, s.size, s.max, s.qs, s.q, s.pcs, s.taken, r, pc);
    }
  }

  lemma CopyingOf(s: State, t: Tid)
    requires Buffers(s.data, s.next, s.size, s.max, s.qs, s.q, s.pcs, s.taken) && t in s.pcs
    ensures Copying(s.pcs[t], s.data, s.next, s.size)
    ensures s.pcs[t].RecvCopy? ==> t in s.taken && s.taken[t].body <= s.data[s.pcs[t].node]
  {}

  // ---- receiving ---------------------------------------------------------------------------

  lemma GaveUpRecvInv(s: State, t: Tid)
    requires Inv(s) && t in s.pcs && (s.pcs[t].Idle? || s.pcs[t].RecvWoken?) && s.qs == []
    ensures Inv(GaveUpRecv(s, t))
  {
    hide ListOf, Owned, Buffers, Waiting, Explains, Copying;
    var pc := Idle(TimedOut);
    OwnedIdle(s.owner, s.max, s.qs, s.fs, s.pcs, t, pc);
    CopyNothing(pc, s.data, s.next, s.size);
    BuffersPc(s.data, s.next, s.size, s.max, s.qs, s.q, s.pcs, s.taken, t, pc);
    WaitPassR(s.pcs, s.receivers, s.senders, s.wokenR, s.wokenS, |s.qs|, |s.fs|, t, pc, 0);
  }

  lemma SuspendedReceiverInv(s: State, t: Tid, want: nat, timeout: int, i: nat)
    requires Inv(s) && t in s.pcs && (s.pcs[t].Idle? || s.pcs[t].RecvWoken?) && s.qs == [] && i <= |s.receivers|
    ensures Inv(SuspendedReceiver(s, t, want, timeout, i))
  {
    hide ListOf, Owned, Buffers, Waiting, Explains, Copying, Inserted;
    var pc := RecvWait(want, timeout);
    OwnedIdle(s.owner, s.max, s.qs, s.fs, s.pcs, t, pc);
    CopyNothing(pc, s.data, s.next, s.size);
    BuffersPc(s.data, s.next, s.size, s.max, s.qs, s.q, s.pcs, s.taken, t, pc);
    WaitSuspendR(s.pcs, s.receivers, s.senders, s.wokenR, s.wokenS, |s.qs|, |s.fs|, t, want, timeout, i);
  }

  lemma DequeuedInv(s: State, t: Tid, want: nat)
    requires Inv(s) && t in s.pcs && (s.pcs[t].Idle? || s.pcs[t].RecvWoken?) && s.qs != []
    ensures s.q != [] && s.qs[0] in s.next && s.entry > 0 && Inv(Dequeued(s, t, want))
  {
    hide ListOf, Owned, Waiting, Explains, Copying;
    EmptyList(s.next, s.head, s.qs);
    PopList(s.next, s.head, s.qs);
    var n := s.qs[0];
    var pc := RecvCopy(n, want, []);
    var taken' := s.taken[t := s.q[0]];
    ListedIsExclusive(s.owner, s.max, s.qs, s.fs, s.pcs, t, n);
    OwnedTake(s.owner, s.max, s.qs, s.fs, s.pcs, t, pc, n, s.qs[1..], s.fs);
    LogTake(s.log, s.q);
    BuffersTake(s, t, want);
    WaitPassR(s.pcs, s.receivers, s.senders, s.wokenR, s.wokenS, |s.qs|, |s.fs|, t, pc, |s.qs| - 1);
  }

  lemma BuffersTake(s: State, t: Tid, want: nat)
    requires Buffers(s.data, s.next, s.size, s.max, s.qs, s.q, s.pcs, s.taken) && s.qs != [] && s.qs[0] < s.max && t in s.pcs
    ensures Buffers(s.data, s.next, s.size, s.max, s.qs[1..], s.q[1..], s.pcs[t := RecvCopy(s.qs[0], want, [])], s.taken[t := s.q[0]])
  {
    var qs', q' := s.qs[1..], s.q[1..];
    assert forall i :: 0 <= i < |qs'| ==> qs'[i] == s.qs[i + 1] && q'[i] == s.q[i + 1];
    assert Copying(RecvCopy(s.qs[0], want, []), s.data, s.next, s.size);
  }

  lemma CopiedOutInv(s: State, t: Tid)
    requires Inv(s) && t in s.pcs && s.pcs[t].RecvCopy? && |s.pcs[t].got| < s.size && |s.pcs[t].got| < s.pcs[t].size
    ensures s.pcs[t].node in s.data && |s.pcs[t].got| < |s.data[s.pcs[t].node]| && Inv(CopiedOut(s, t))
  {
    hide ListOf, Owned, Buffers, Waiting, Explains;
    CopyingOf(s, t);
    var pc := s.pcs[t];
    var k := |pc.got|;
    var pc' := pc.(got := pc.got + [s.data[pc.node][k]]);
    assert s.data[pc.node][..k + 1] == s.data[pc.node][..k] + [s.data[pc.node][k]];
    OwnedStep(s.owner, s.max, s.qs, s.fs, s.pcs, t, pc');
    BuffersPc(s.data, s.next, s.size, s.max, s.qs, s.q, s.pcs, s.taken, t, pc');
    WaitNoLoss(s.pcs, s.receivers, s.senders, s.wokenR, s.wokenS, |s.qs|, |s.fs|);
    WaitMove(s.pcs, s.receivers, s.senders, s.wokenR, s.wokenS, |s.qs|, |s.fs|, t, pc', |s.qs|, |s.fs|);
  }

  lemma FreedInv(s: State, t: Tid)
    requires Inv(s) && t in s.pcs && s.pcs[t].RecvCopy?
    ensures InvBut(Freed(s, t), |s.qs|, |s.fs|)
  {
    hide ListOf, Owned, Buffers, Waiting, Explains, OnlyHolder;
    var pc := s.pcs[t];
    var n, done := pc.node, Idle(Received(pc.got));
    HeldIsExclusive(s.owner, s.max, s.qs, s.fs, s.pcs, t);
    PushList(s.next, s.free, s.fs, n);
    OtherList(s.next, s.head, s.qs, n, s.free);
    OwnedPut(s.owner, s.max, s.qs, s.fs, s.pcs, t, done, InFree, s.qs, [n] + s.fs);
    BuffersPc(s.data, s.next, s.size, s.max, s.qs, s.q, s.pcs, s.taken, t, done);
    StillOnly(s.pcs, t, done, n);
    BuffersNext(s.data, s.next, s.size, s.max, s.qs, s.q, s.pcs[t := done], s.taken, t, n, s.free);
    WaitNoLoss(s.pcs, s.receivers, s.senders, s.wokenR, s.wokenS, |s.qs|, |s.fs|);
    WaitMove(s.pcs, s.receivers, s.senders, s.wokenR, s.wokenS, |s.qs|, |s.fs|, t, done, |s.qs|, |s.fs|);
  }

  lemma DismissedReceiverInv(s: State, i: nat, r: Status)
    requires Inv(s) && i < |s.receivers|
    ensures s.receivers[i] in s.pcs && s.pcs[s.receivers[i]].RecvWait? && Inv(DismissedReceiver(s, i, r))
  {
    hide ListOf, Owned, Buffers, Explains, Copying, Removed;
    var t, pc := s.receivers[i], Idle(r);
    assert t in s.receivers;
    OwnedIdle(s.owner, s.max, s.qs, s.fs, s.pcs, t, pc);
    CopyNothing(pc, s.data, s.next, s.size);
    BuffersPc(s.data, s.next, s.size, s.max, s.qs, s.q, s.pcs, s.taken, t, pc);
    WaitExpireR(s.pcs, s.receivers, s.senders, s.wokenR, s.wokenS, |s.qs|, |s.fs|, i, r);
  }

  lemma DismissedSenderInv(s: State, i: nat, r: Status)
    requires Inv(s) && i < |s.senders|
    ensures s.senders[i] in s.pcs && s.pcs[s.senders[i]].SendWait? && Inv(DismissedSender(s, i, r))
  {
    hide ListOf, Owned, Buffers, Explains, Copying, Removed;
    var t, pc := s.senders[i], Idle(r);
    assert t in s.senders;
    OwnedIdle(s.owner, s.max, s.qs, s.fs, s.pcs, t, pc);
    CopyNothing(pc, s.data, s.next, s.size);
    BuffersPc(s.data, s.next, s.size, s.max, s.qs, s.q, s.pcs, s.taken, t, pc);
    WaitExpireS(s.pcs, s.receivers, s.senders, s.wokenR, s.wokenS, |s.qs|, |s.fs|, i, r);
  }

  lemma OwnedShift(owner: map<nat, Owner>, max: nat, qs: seq<nat>, fs: seq<nat>, pcs: map<Tid, Pc>, n: nat, qs': seq<nat>, fs': seq<nat>)
    requires Owned(owner, max, qs, fs, pcs) && n in qs
    requires forall x :: x in qs' <==> x in qs && x != n
    requires forall x :: x in fs' <==> x in fs || x == n
    ensures Owned(owner[n := InFree], max, qs', fs', pcs)
  {}

  lemma DroppedFirstInv(s: State)
    requires Inv(s) && s.qs != [] && s.receivers == [] && s.senders == []
    ensures s.q != [] && s.qs[0] in s.next && s.entry > 0 && Inv(DroppedFirst(s))
  {
    hide ListOf, Owned, Waiting, Explains, Copying, OnlyHolder;
    EmptyList(s.next, s.head, s.qs);
    PopList(s.next, s.head, s.qs);
    var n := s.qs[0];
    ListedIsExclusiveAll(s.owner, s.max, s.qs, s.fs, s.pcs, n);
    assert n !in s.qs[1..] && n !in s.fs;
    PushList(s.next, s.free, s.fs, n);
    OtherList(s.next, s.next[n], s.qs[1..], n, s.free);
    OwnedShift(s.owner, s.max, s.qs, s.fs, s.pcs, n, s.qs[1..], [n] + s.fs);
    LogDrop(s.log, s.q);
    BuffersDrop(s);
    WaitEmptyR(s.pcs, s.receivers, s.senders, s.wokenR, s.wokenS, |s.qs|, |s.fs|, |s.qs| - 1);
    WaitEmptyS(s.pcs, s.receivers, s.senders, s.wokenR, s.wokenS, |s.qs| - 1, |s.fs|, |s.fs| + 1);
  }

  lemma BuffersDrop(s: State)
    requires Buffers(s.data, s.next, s.size, s.max, s.qs, s.q, s.pcs, s.taken) && s.qs != []
    requires forall t :: OnlyHolder(s.pcs, t, s.qs[0])
    ensures Buffers(s.data, s.next[s.qs[0] := s.free], s.size, s.max, s.qs[1..], s.q[1..], s.pcs, s.taken)
  {
    var qs', q', n := s.qs[1..], s.q[1..], s.qs[0];
    assert forall i :: 0 <= i < |qs'| ==> qs'[i] == s.qs[i + 1] && q'[i] == s.q[i + 1];
    BuffersQueue(s.data, s.next, s.size, s.max, s.qs, s.q, s.pcs, s.taken, qs', q');
    forall t | t in s.pcs
      ensures Copying(s.pcs[t], s.data, s.next[n := s.free], s.size)
    {
      assert Copying(s.pcs[t], s.data, s.next, s.size);
      assert OnlyHolder(s.pcs, t + 1, n);
    }
  }

  // ---- what the invariant means --------------------------------------------------------------

  ghost function Holders(pcs: map<Tid, Pc>): set<Tid> {
    set t | t in pcs && Holds(pcs[t])
  }

  ghost function Elems(s: seq<nat>): set<nat> {
    set x | x in s
  }

  lemma {:induction false} DistinctCount(s: seq<nat>)
    requires Distinct(s)
    ensures |Elems(s)| == |s|
  {
    if s != [] {
      var t := s[1..];
      assert s == [s[0]] + t;
      DistinctCount(t);
      assert s[0] !in t;
      assert Elems(s) == Elems(t) + {s[0]};
    }
  }

  ghost function NodesOf(ts: set<Tid>, pcs: map<Tid, Pc>): set<nat> {
    set t | t in ts && t in pcs && Holds(pcs[t]) :: pcs[t].node
  }

  lemma {:induction false} ImageCount(ts: set<Tid>, pcs: map<Tid, Pc>)
    requires forall t :: t in ts ==> t in pcs && Holds(pcs[t])
    requires forall t, u :: t in ts && u in ts && t != u && Holds(pcs[t]) && Holds(pcs[u]) ==> pcs[t].node != pcs[u].node
    ensures |NodesOf(ts, pcs)| == |ts|
    decreases ts
  {
    if ts != {} {
      var t :| t in ts;
      ImageCount(ts - {t}, pcs);
      assert NodesOf(ts, pcs) == NodesOf(ts - {t}, pcs) + {pcs[t].node};
    }
  }

  ghost function Range(n: nat): set<nat> {
    if n == 0 then {} else Range(n - 1) + {n - 1}
  }

  lemma {:induction false} RangeCount(n: nat)
    ensures |Range(n)| == n
    ensures forall x :: x in Range(n) <==> 0 <= x < n
  {
    if n > 0 {
      RangeCount(n - 1);
    }
  }

  lemma OwnedAndDistinct(s: State)
    requires Inv(s)
    ensures Owned(s.owner, s.max, s.qs, s.fs, s.pcs) && Distinct(s.qs) && Distinct(s.fs)
  {
    hide Waiting, Buffers, Explains;
  }

  /** Queued nodes, free nodes and nodes in flight always add up to max_msgs. */
  lemma NodesAddUp(s: State)
    requires Inv(s)
    ensures |s.qs| + |s.fs| + |Holders(s.pcs)| == s.max
  {
    OwnedAndDistinct(s);
    hide *;
    var H := NodesOf(Holders(s.pcs), s.pcs);
    DistinctCount(s.qs);
    DistinctCount(s.fs);
    ImageCount(Holders(s.pcs), s.pcs);
    RangeCount(s.max);
    Partition(s.owner, s.max, s.qs, s.fs, s.pcs);
    assert |Elems(s.qs) + Elems(s.fs) + H| == |Elems(s.qs)| + |Elems(s.fs)| + |H|;
  }

  lemma Partition(owner: map<nat, Owner>, max: nat, qs: seq<nat>, fs: seq<nat>, pcs: map<Tid, Pc>)
    requires Owned(owner, max, qs, fs, pcs)
    ensures var H := NodesOf(Holders(pcs), pcs);
      && Elems(qs) !! Elems(fs) && Elems(qs) !! H && Elems(fs) !! H
      && Elems(qs) + Elems(fs) + H == Range(max)
  {
    RangeCount(max);
    var H := NodesOf(Holders(pcs), pcs);
    forall n | n in Range(max)
      ensures n in Elems(qs) + Elems(fs) + H
    {
      assert n in owner;
      if owner[n].Held? {
        assert owner[n].thread in Holders(pcs);
      }
    }
  }

  /** The overflow branches at ipc.c:2861-2865 and ipc.c:2990-2994 cannot be taken. */
  lemma EntryNeverOverflows(s: State, t: Tid)
    requires Inv(s) && t in s.pcs && Holds(s.pcs[t])
    ensures s.entry < s.max <= ENTRY_MAX
  {
    NodesAddUp(s);
    assert t in Holders(s.pcs);
  }

  /** No lost wake-up: while a message is queued, a waiting receiver has a resumed one in front of it. */
  lemma NoLostWakeup(s: State)
    requires Inv(s)
    ensures s.receivers != [] && s.entry > 0 ==> exists t :: t in s.pcs && s.pcs[t].RecvWoken?
    ensures s.senders != [] && s.free != Nil ==> exists t :: t in s.pcs && s.pcs[t].SendWoken?
  {
    if s.receivers != [] && s.entry > 0 {
      var t :| t in s.wokenR;
      assert t in s.pcs && s.pcs[t].RecvWoken?;
    }
    if s.senders != [] && s.free != Nil {
      var t :| t in s.wokenS;
      assert t in s.pcs && s.pcs[t].SendWoken?;
    }
  }

  /** Every message a receiver has taken is in the history. */
  ghost predicate TakenLogged(s: State) {
    forall t :: t in s.taken ==> Take(s.taken[t]) in s.log
  }

  /** A step that takes no message. */
  ghost predicate OnlyLogs(s: State, s': State) {
    && s'.taken == s.taken && |s.log| <= |s'.log| && s'.log[..|s.log|] == s.log
    && s'.fifo == s.fifo && s'.prio == s.prio
  }

  lemma OnlyLogsKeeps(s: State, s': State)
    requires TakenLogged(s) && OnlyLogs(s, s')
    ensures TakenLogged(s')
  {
    forall t | t in s'.taken
      ensures Take(s'.taken[t]) in s'.log
    {
      assert Take(s.taken[t]) in s'.log[..|s.log|];
    }
  }

  lemma DequeuedLogs(s: State, t: Tid, want: nat)
    requires TakenLogged(s) && s.qs != [] && s.q != [] && s.qs[0] in s.next && s.entry > 0
    ensures TakenLogged(Dequeued(s, t, want))
  {
    var s' := Dequeued(s, t, want);
    assert s'.log == s.log + [Take(s.q[0])];
    assert s'.taken == s.taken[t := s.q[0]];
  }

  lemma {:induction false} DismissedReceiversLogs(s: State)
    ensures OnlyLogs(s, DismissedReceivers(s))
    decreases |s.receivers|
  {
    if s.receivers != [] { DismissedReceiversLogs(DismissedReceiver(s, 0, Failed)); }
  }

  lemma {:induction false} DismissedSendersLogs(s: State)
    ensures OnlyLogs(s, DismissedSenders(s))
    decreases |s.senders|
  {
    if s.senders != [] { DismissedSendersLogs(DismissedSender(s, 0, Failed)); }
  }

  lemma {:induction false} DroppedAllLogs(s: State)
    ensures OnlyLogs(s, DroppedAll(s))
    decreases |s.qs|
  {
    if s.qs != [] && s.q != [] && s.qs[0] in s.next && s.entry > 0 { DroppedAllLogs(DroppedFirst(s)); }
  }

  lemma ResetIs(s: State)
    ensures Reset(s) == DroppedAll(DismissedSenders(DismissedReceivers(s)))
  {}

  /** Every action keeps the messages taken in the history. */
  lemma StepTaken(s: State, a: Action, s': State)
    requires TakenLogged(s) && Can(s, a) && Does(s, a, s')
    ensures TakenLogged(s')
  {
    hide TakenLogged, TriedRecv, Reset, DismissedReceivers, DismissedSenders, DroppedAll;
    match a
    case StartRecv(t, want, timeout, i) => TriedRecvLogs(s, t, want, timeout, i);
    case ResumeRecv(t, e, i) => TriedRecvLogs(s, t, s.pcs[t].size, TimeLeft(s.pcs[t].timeout, e), i);
    case ResetQueue =>
      ResetIs(s);
      DismissedReceiversLogs(s);
      DismissedSendersLogs(DismissedReceivers(s));
      DroppedAllLogs(DismissedSenders(DismissedReceivers(s)));
      OnlyLogsKeeps(s, DismissedReceivers(s));
      OnlyLogsKeeps(DismissedReceivers(s), DismissedSenders(DismissedReceivers(s)));
      OnlyLogsKeeps(DismissedSenders(DismissedReceivers(s)), s');
    case _ =>
      StepOnlyLogs(s, a, s');
      OnlyLogsKeeps(s, s');
  }

  lemma TriedRecvLogs(s: State, t: Tid, want: nat, timeout: int, i: nat)
    requires TakenLogged(s) && i <= |s.receivers| && Followable(s)
    ensures TakenLogged(TriedRecv(s, t, want, timeout, i))
  {
    hide TakenLogged;
    if s.entry > 0 {
      DequeuedLogs(s, t, want);
    } else {
      OnlyLogsKeeps(s, TriedRecv(s, t, want, timeout, i));
    }
  }

  lemma StepOnlyLogs(s: State, a: Action, s': State)
    requires Can(s, a) && Does(s, a, s') && !a.StartRecv? && !a.ResumeRecv? && !a.ResetQueue?
    ensures OnlyLogs(s, s')
  {
    hide Inserted, Removed, OnlyLogs, Claimed, LinkedLast, LinkedFirst, TriedSend, SuspendedSender, GaveUpSend, CopiedIn, CopiedOut, Cleared,
      WokeReceiver, WokeSender, Freed, DismissedReceiver, DismissedSender, SetPc, TimeLeft;
    match a
    case TooLong(t) => SetPcLogs(s, t, Idle(Failed));
    case StartSend(t, buf, timeout, i) => TriedSendLogs(s, t, buf, timeout, i);
    case ResumeSend(t, e, i) => TriedSendLogs(s, t, s.pcs[t].buf, TimeLeft(s.pcs[t].timeout, e), i);
    case Clear(t) => CopyLogs(s, t);
    case CopyIn(t) => CopyLogs(s, t);
    case CopyOut(t) => CopyLogs(s, t);
    case LinkSend(t) => LinkLogs(s, t);
    case LinkUrgent(t) => LinkLogs(s, t);
    case StartUrgent(t, buf) => if s.fs == [] { SetPcLogs(s, t, Idle(Full)); } else { ClaimedLogs(s, t, buf, true); }
    case FinishRecv(t) => FreedLogs(s, t);
    case ExpireReceiver(i) => DismissedLogs(s, i);
    case ExpireSender(i) => DismissedLogs(s, i);
  }

  lemma SetPcLogs(s: State, t: Tid, pc: Pc)
    ensures OnlyLogs(s, SetPc(s, t, pc))
  {}

  lemma ClaimedLogs(s: State, t: Tid, buf: seq<bv8>, urgent: bool)
    requires s.fs != [] && s.fs[0] in s.next
    ensures OnlyLogs(s, Claimed(s, t, buf, urgent))
  {}

  lemma TriedSendLogs(s: State, t: Tid, buf: seq<bv8>, timeout: int, i: nat)
    requires i <= |s.senders| && (s.fs != [] ==> s.fs[0] in s.next)
    ensures OnlyLogs(s, TriedSend(s, t, buf, timeout, i))
  {
    hide Inserted;
  }

  lemma CopyLogs(s: State, t: Tid)
    requires t in s.pcs
    ensures s.pcs[t].SendClaimed? ==> OnlyLogs(s, Cleared(s, t))
    ensures var pc := s.pcs[t];
      (pc.SendCopy? || pc.UrgentCopy?) && pc.node in s.data && pc.done < |pc.buf| && pc.done < |s.data[pc.node]| ==>
        OnlyLogs(s, CopiedIn(s, t))
    ensures s.pcs[t].RecvCopy? && s.pcs[t].node in s.data && |s.pcs[t].got| < |s.data[s.pcs[t].node]| ==> OnlyLogs(s, CopiedOut(s, t))
  {}

  lemma LinkLogs(s: State, t: Tid)
    requires t in s.pcs
    ensures s.pcs[t].SendCopy? && CanWakeReceiver(LinkedLast(s, t)) ==> OnlyLogs(s, WokeReceiver(LinkedLast(s, t)))
    ensures s.pcs[t].UrgentCopy? && CanWakeReceiver(LinkedFirst(s, t)) ==> OnlyLogs(s, WokeReceiver(LinkedFirst(s, t)))
  {}

  lemma FreedLogs(s: State, t: Tid)
    requires t in s.pcs && s.pcs[t].RecvCopy? && CanWakeSender(Freed(s, t))
    ensures OnlyLogs(s, WokeSender(Freed(s, t)))
  {}

  lemma DismissedLogs(s: State, i: nat)
    ensures i < |s.receivers| ==> OnlyLogs(s, DismissedReceiver(s, i, TimedOut))
    ensures i < |s.senders| ==> OnlyLogs(s, DismissedSender(s, i, TimedOut))
  {
    hide Removed;
  }

  /** What a receiver has copied is the beginning of the message it took. */
  lemma CopiedIsTaken(s: State, t: Tid)
    requires Inv(s) && t in s.pcs && s.pcs[t].RecvCopy?
    ensures t in s.taken
    ensures var got, m := s.pcs[t].got, s.taken[t].body;
      if |got| <= |m| then got <= m else m <= got
  {
    hide ListOf, Owned, Waiting, Explains, Buffers;
    CopyingOf(s, t);
  }

  /** What a receiver has copied is the beginning of a message that was sent. */
  lemma ReceivedIsSent(s: State, t: Tid)
    requires Inv(s) && TakenLogged(s) && t in s.pcs && s.pcs[t].RecvCopy?
    ensures t in s.taken && s.taken[t] in MessageLog.Links(s.log)
    ensures var got, m := s.pcs[t].got, s.taken[t].body;
      if |got| <= |m| then got <= m else m <= got
  {
    CopiedIsTaken(s, t);
    hide ListOf, Owned, Waiting, Explains, Buffers;
    TakenWasLinked(s.log, s.q, s.taken[t]);
  }

  // ---- all runs --------------------------------------------------------------------------------

  /** Lines 2756-2834: the loop head of rt_mq_send_wait, entered with interrupts disabled. */
  function TriedSend(s: State, t: Tid, buf: seq<bv8>, timeout: int, i: nat): State
    requires i <= |s.senders| && (s.fs != [] ==> s.fs[0] in s.next)
  {
    if s.fs != [] then Claimed(s, t, buf, false)
    else if timeout == 0 then GaveUpSend(s, t)
    else SuspendedSender(s, t, buf, timeout, i)
  }

  /** Lines 3061-3151: the same for rt_mq_recv. */
  function TriedRecv(s: State, t: Tid, want: nat, timeout: int, i: nat): State
    requires i <= |s.receivers| && (s.entry > 0 ==> s.qs != [] && s.q != [] && s.qs[0] in s.next)
  {
    if s.entry > 0 then Dequeued(s, t, want)
    else if timeout == 0 then GaveUpRecv(s, t)
    else SuspendedReceiver(s, t, want, timeout, i)
  }

  function DismissedReceivers(s: State): (r: State)
    decreases |s.receivers|
  {
    if s.receivers == [] then s else DismissedReceivers(DismissedReceiver(s, 0, Failed))
  }

  function DismissedSenders(s: State): (r: State)
    decreases |s.senders|
  {
    if s.senders == [] then s else DismissedSenders(DismissedSender(s, 0, Failed))
  }

  function DroppedAll(s: State): (r: State)
    decreases |s.qs|
  {
    if s.qs != [] && s.q != [] && s.qs[0] in s.next && s.entry > 0 then DroppedAll(DroppedFirst(s)) else s
  }

  /** RT_IPC_CMD_RESET */
  function Reset(s: State): State {
    DroppedAll(DismissedSenders(DismissedReceivers(s)))
  }

  /** One locked section, or one unlocked store; `i` is a place in a suspend list. */
  datatype Action =
    | TooLong(t: Tid)
    | StartSend(t: Tid, buf: seq<bv8>, timeout: int, i: nat)
    | ResumeSend(t: Tid, elapsed: nat, i: nat)
    | Clear(t: Tid)
    | CopyIn(t: Tid)
    | LinkSend(t: Tid)
    | StartUrgent(t: Tid, buf: seq<bv8>)
    | LinkUrgent(t: Tid)
    | StartRecv(t: Tid, want: nat, timeout: int, i: nat)
    | ResumeRecv(t: Tid, elapsed: nat, i: nat)
    | CopyOut(t: Tid)
    | FinishRecv(t: Tid)
    | ExpireReceiver(i: nat)
    | ExpireSender(i: nat)
    | ResetQueue

  /** Where _ipc_list_suspend puts thread `t`: at the end, or behind all at least as urgent. */
  ghost predicate PlacedAt(s: State, ws: seq<Tid>, t: Tid, i: nat) {
    i <= |ws| && if s.fifo then i == |ws| else t in s.prio && IsPosition(ws, s.prio, s.prio[t], i)
  }

  /** The action is the next thing some thread, timer or interrupt may do in `s`. */
  ghost predicate Can(s: State, a: Action) {
    match a
    case TooLong(t) => t in s.pcs && s.pcs[t].Idle?
    case StartSend(t, buf, _, i) => t in s.pcs && s.pcs[t].Idle? && |buf| <= s.size && PlacedAt(s, s.senders, t, i)
    case ResumeSend(t, _, i) => t in s.pcs && s.pcs[t].SendWoken? && PlacedAt(s, s.senders, t, i)
    case Clear(t) => t in s.pcs && s.pcs[t].SendClaimed?
    case CopyIn(t) => t in s.pcs && (s.pcs[t].SendCopy? || s.pcs[t].UrgentCopy?) && s.pcs[t].done < |s.pcs[t].buf|
    case LinkSend(t) => t in s.pcs && s.pcs[t].SendCopy? && s.pcs[t].done == |s.pcs[t].buf|
    case StartUrgent(t, buf) => t in s.pcs && s.pcs[t].Idle? && |buf| <= s.size
    case LinkUrgent(t) => t in s.pcs && s.pcs[t].UrgentCopy? && s.pcs[t].done == |s.pcs[t].buf|
    case StartRecv(t, _, _, i) => t in s.pcs && s.pcs[t].Idle? && PlacedAt(s, s.receivers, t, i)
    case ResumeRecv(t, _, i) => t in s.pcs && s.pcs[t].RecvWoken? && PlacedAt(s, s.receivers, t, i)
    case CopyOut(t) => t in s.pcs && s.pcs[t].RecvCopy? && |s.pcs[t].got| < s.size && |s.pcs[t].got| < s.pcs[t].size
    case FinishRecv(t) =>
      t in s.pcs && s.pcs[t].RecvCopy? && |s.pcs[t].got| == if s.pcs[t].size < s.size then s.pcs[t].size else s.size
    case ExpireReceiver(i) => i < |s.receivers|
    case ExpireSender(i) => i < |s.senders|
    case ResetQueue => true
  }

  /** The links that the locked sections follow lead somewhere; the invariant implies it. */
  ghost predicate Followable(s: State) {
    && (s.fs != [] ==> s.fs[0] in s.next)
    && (s.entry > 0 ==> s.qs != [] && s.q != [] && s.qs[0] in s.next)
  }

  ghost predicate CanWakeReceiver(s: State) {
    s.receivers != [] ==> s.receivers[0] in s.pcs && s.pcs[s.receivers[0]].RecvWait?
  }

  ghost predicate CanWakeSender(s: State) {
    s.senders != [] ==> s.senders[0] in s.pcs && s.pcs[s.senders[0]].SendWait?
  }

  /** Action `a` leads from `s` to `s'`. */
  ghost predicate Does(s: State, a: Action, s': State)
    requires Can(s, a)
  {
    match a
    case TooLong(t) => s' == SetPc(s, t, Idle(Failed))
    case StartSend(t, buf, timeout, i) => Followable(s) && s' == TriedSend(s, t, buf, timeout, i)
    case ResumeSend(t, e, i) => Followable(s) && s' == TriedSend(s, t, s.pcs[t].buf, TimeLeft(s.pcs[t].timeout, e), i)
    case Clear(t) => s' == Cleared(s, t)
    case CopyIn(t) =>
      s.pcs[t].node in s.data && s.pcs[t].done < |s.data[s.pcs[t].node]| && s' == CopiedIn(s, t)
    case LinkSend(t) => CanWakeReceiver(LinkedLast(s, t)) && s' == WokeReceiver(LinkedLast(s, t))
    case StartUrgent(t, buf) => Followable(s) && s' == if s.fs == [] then SetPc(s, t, Idle(Full)) else Claimed(s, t, buf, true)
    case LinkUrgent(t) => CanWakeReceiver(LinkedFirst(s, t)) && s' == WokeReceiver(LinkedFirst(s, t))
    case StartRecv(t, want, timeout, i) => Followable(s) && s' == TriedRecv(s, t, want, timeout, i)
    case ResumeRecv(t, e, i) => Followable(s) && s' == TriedRecv(s, t, s.pcs[t].size, TimeLeft(s.pcs[t].timeout, e), i)
    case CopyOut(t) =>
      s.pcs[t].node in s.data && |s.pcs[t].got| < |s.data[s.pcs[t].node]| && s' == CopiedOut(s, t)
    case FinishRecv(t) => CanWakeSender(Freed(s, t)) && s' == WokeSender(Freed(s, t))
    case ExpireReceiver(i) => s' == DismissedReceiver(s, i, TimedOut)
    case ExpireSender(i) => s' == DismissedSender(s, i, TimedOut)
    case ResetQueue => s' == Reset(s)
  }

  /** No locked section gets stuck: in every reachable state what can be done has a result. */
  lemma NeverStuck(s: State, a: Action) returns (r: State)
    requires Inv(s) && Can(s, a)
    ensures Does(s, a, r)
  {
    hide InvBut, Claimed, TriedSend, TriedRecv, Cleared, CopiedIn, CopiedOut, LinkedLast, LinkedFirst, Freed, WokeReceiver, WokeSender, Reset, DismissedReceiver, DismissedSender, SetPc;
    Ready(s);
    match a
    case TooLong(t) => r := SetPc(s, t, Idle(Failed));
    case StartSend(t, buf, timeout, i) => r := TriedSend(s, t, buf, timeout, i);
    case ResumeSend(t, e, i) => r := TriedSend(s, t, s.pcs[t].buf, TimeLeft(s.pcs[t].timeout, e), i);
    case Clear(t) => r := Cleared(s, t);
    case CopyIn(t) => CopiedInInv(s, t); r := CopiedIn(s, t);
    case LinkSend(t) => LinkSendInv(s, t); r := WokeReceiver(LinkedLast(s, t));
    case StartUrgent(t, buf) => r := if s.fs == [] then SetPc(s, t, Idle(Full)) else Claimed(s, t, buf, true);
    case LinkUrgent(t) => LinkUrgentInv(s, t); r := WokeReceiver(LinkedFirst(s, t));
    case StartRecv(t, want, timeout, i) => r := TriedRecv(s, t, want, timeout, i);
    case ResumeRecv(t, e, i) => r := TriedRecv(s, t, s.pcs[t].size, TimeLeft(s.pcs[t].timeout, e), i);
    case CopyOut(t) => CopiedOutInv(s, t); r := CopiedOut(s, t);
    case FinishRecv(t) => FinishRecvInv(s, t); r := WokeSender(Freed(s, t));
    case ExpireReceiver(i) => r := DismissedReceiver(s, i, TimedOut);
    case ExpireSender(i) => r := DismissedSender(s, i, TimedOut);
    case ResetQueue => r := Reset(s);
  }

  /** The list heads can be followed. */
  lemma Ready(s: State)
    requires Inv(s)
    ensures s.fs != [] ==> s.fs[0] in s.next
    ensures s.entry > 0 <==> s.qs != []
    ensures s.qs != [] ==> s.q != [] && s.qs[0] in s.next
  {}

  lemma TriedSendInv(s: State, t: Tid, buf: seq<bv8>, timeout: int, i: nat)
    requires Inv(s) && t in s.pcs && (s.pcs[t].Idle? || s.pcs[t].SendWoken?) && |buf| <= s.size && i <= |s.senders|
    ensures (s.fs != [] ==> s.fs[0] in s.next) && Inv(TriedSend(s, t, buf, timeout, i))
  {
    hide InvBut, Inserted;
    if s.fs != [] {
      ClaimedInv(s, t, buf, false);
    } else if timeout == 0 {
      GaveUpSendInv(s, t);
    } else {
      SuspendedSenderInv(s, t, buf, timeout, i);
    }
  }

  lemma TriedRecvInv(s: State, t: Tid, want: nat, timeout: int, i: nat)
    requires Inv(s) && t in s.pcs && (s.pcs[t].Idle? || s.pcs[t].RecvWoken?) && i <= |s.receivers|
    ensures (s.entry > 0 ==> s.qs != [] && s.q != [] && s.qs[0] in s.next) && Inv(TriedRecv(s, t, want, timeout, i))
  {
    hide InvBut, Inserted;
    Ready(s);
    if s.entry > 0 {
      DequeuedInv(s, t, want);
    } else if timeout == 0 {
      GaveUpRecvInv(s, t);
    } else {
      SuspendedReceiverInv(s, t, want, timeout, i);
    }
  }

  lemma {:induction false} DismissedReceiversInv(s: State)
    requires Inv(s)
    ensures Inv(DismissedReceivers(s)) && DismissedReceivers(s).receivers == []
    decreases |s.receivers|
  {
    if s.receivers != [] {
      DismissedReceiverInv(s, 0, Failed);
      DismissedReceiversInv(DismissedReceiver(s, 0, Failed));
    }
  }

  lemma {:induction false} DismissedSendersInv(s: State)
    requires Inv(s) && s.receivers == []
    ensures Inv(DismissedSenders(s)) && DismissedSenders(s).senders == [] && DismissedSenders(s).receivers == []
    decreases |s.senders|
  {
    if s.senders != [] {
      DismissedSenderInv(s, 0, Failed);
      DismissedSendersInv(DismissedSender(s, 0, Failed));
    }
  }

  lemma {:induction false} DroppedAllInv(s: State)
    requires Inv(s) && s.receivers == [] && s.senders == []
    ensures Inv(DroppedAll(s)) && DroppedAll(s).q == [] && DroppedAll(s).entry == 0
    ensures DroppedAll(s).receivers == [] && DroppedAll(s).senders == []
    decreases |s.qs|
  {
    Ready(s);
    if s.qs != [] {
      DroppedFirstInv(s);
      DroppedAllInv(DroppedFirst(s));
    } else {
      QueueLength(s);
    }
  }

  lemma QueueLength(s: State)
    requires Inv(s)
    ensures |s.q| == |s.qs| == s.entry
  {}

  /** A reset empties the queue and both suspend lists. */
  lemma ResetInv(s: State)
    requires Inv(s)
    ensures Inv(Reset(s)) && Reset(s).q == [] && Reset(s).entry == 0 && Reset(s).receivers == [] && Reset(s).senders == []
  {
    hide InvBut, DismissedReceivers, DismissedSenders, DroppedAll;
    DismissedReceiversInv(s);
    DismissedSendersInv(DismissedReceivers(s));
    DroppedAllInv(DismissedSenders(DismissedReceivers(s)));
  }

  /** Every action keeps the invariant. */
  lemma StepInv(s: State, a: Action, s': State)
    requires Inv(s) && Can(s, a) && Does(s, a, s')
    ensures Inv(s')
  {
    hide InvBut, Claimed, TriedSend, TriedRecv, Cleared, CopiedIn, CopiedOut, LinkedLast, LinkedFirst, Freed, WokeReceiver, WokeSender, Reset, DismissedReceiver, DismissedSender, SetPc;
    match a
    case TooLong(t) => FinishInv(s, t, Failed);
    case StartSend(t, buf, timeout, i) => TriedSendInv(s, t, buf, timeout, i);
    case ResumeSend(t, e, i) =>
      BufFits(s, t);
      TriedSendInv(s, t, s.pcs[t].buf, TimeLeft(s.pcs[t].timeout, e), i);
    case Clear(t) => ClearedInv(s, t);
    case CopyIn(t) => CopiedInInv(s, t);
    case LinkSend(t) => LinkSendInv(s, t);
    case StartUrgent(t, buf) => if s.fs == [] { FinishInv(s, t, Full); } else { ClaimedInv(s, t, buf, true); }
    case LinkUrgent(t) => LinkUrgentInv(s, t);
    case StartRecv(t, want, timeout, i) => TriedRecvInv(s, t, want, timeout, i);
    case ResumeRecv(t, e, i) => TriedRecvInv(s, t, s.pcs[t].size, TimeLeft(s.pcs[t].timeout, e), i);
    case CopyOut(t) => CopiedOutInv(s, t);
    case FinishRecv(t) => FinishRecvInv(s, t);
    case ExpireReceiver(i) => DismissedReceiverInv(s, i, TimedOut);
    case ExpireSender(i) => DismissedSenderInv(s, i, TimedOut);
    case ResetQueue => ResetInv(s);
  }

  lemma BufFits(s: State, t: Tid)
    requires Inv(s) && t in s.pcs && (s.pcs[t].SendWoken? || s.pcs[t].SendWait?)
    ensures |s.pcs[t].buf| <= s.size
  {
    hide ListOf, Owned, Waiting, Explains, Buffers;
    CopyingOf(s, t);
  }

  lemma LinkSendInv(s: State, t: Tid)
    requires Inv(s) && t in s.pcs && s.pcs[t].SendCopy? && s.pcs[t].done == |s.pcs[t].buf|
    ensures var l := LinkedLast(s, t);
      (l.receivers != [] ==> l.receivers[0] in l.pcs && l.pcs[l.receivers[0]].RecvWait?) && Inv(WokeReceiver(l))
  {
    hide InvBut, WokeReceiver;
    LinkedLastInv(s, t);
    WokeReceiverInv(LinkedLast(s, t));
  }

  lemma LinkUrgentInv(s: State, t: Tid)
    requires Inv(s) && t in s.pcs && s.pcs[t].UrgentCopy? && s.pcs[t].done == |s.pcs[t].buf|
    ensures var l := LinkedFirst(s, t);
      (l.receivers != [] ==> l.receivers[0] in l.pcs && l.pcs[l.receivers[0]].RecvWait?) && Inv(WokeReceiver(l))
  {
    hide InvBut, WokeReceiver;
    LinkedFirstInv(s, t);
    WokeReceiverInv(LinkedFirst(s, t));
  }

  lemma FinishRecvInv(s: State, t: Tid)
    requires Inv(s) && t in s.pcs && s.pcs[t].RecvCopy?
    ensures var l := Freed(s, t);
      (l.senders != [] ==> l.senders[0] in l.pcs && l.pcs[l.senders[0]].SendWait?) && Inv(WokeSender(l))
  {
    hide InvBut, WokeSender;
    FreedInv(s, t);
    WokeSenderInv(Freed(s, t));
  }

  // ---- what a call leads to ------------------------------------------------------------------------

  /** Only thread `t` moves, to state `pc`. */
  ghost predicate Moves(s: State, s': State, t: Tid, pc: Pc) {
    s'.pcs == s.pcs[t := pc] && s'.receivers == s.receivers
  }

  /** Neither the queue nor the history changes. */
  ghost predicate SameQueue(s: State, s': State) {
    s'.q == s.q && s'.entry == s.entry && s'.log == s.log && s'.data == s.data && s'.taken == s.taken
  }

  /** A send of `buf` finds a free node and takes it, or gives up, or waits at place `i`. */
  ghost predicate EntersSend(s: State, s': State, t: Tid, buf: seq<bv8>, timeout: int, i: nat) {
    && SameQueue(s, s')
    && (s.free != Nil ==>
      s.free.id in s.next && Moves(s, s', t, SendClaimed(s.free.id, buf)) && s'.free == s.next[s.free.id] && s'.senders == s.senders)
    && (s.free == Nil ==> s'.free == Nil)
    && (s.free == Nil && timeout == 0 ==> Moves(s, s', t, Idle(Full)) && s'.senders == s.senders)
    && (s.free == Nil && timeout != 0 ==>
      Moves(s, s', t, SendWait(buf, timeout)) && i <= |s.senders| && s'.senders == Inserted(s.senders, i, t))
  }

  /** An urgent send takes a free node or gives up; it never waits. */
  ghost predicate EntersUrgent(s: State, s': State, t: Tid, buf: seq<bv8>) {
    && SameQueue(s, s') && s'.senders == s.senders
    && (s.free != Nil ==> s.free.id in s.next && Moves(s, s', t, UrgentCopy(s.free.id, buf, 0)) && s'.free == s.next[s.free.id])
    && (s.free == Nil ==> Moves(s, s', t, Idle(Full)) && s'.free == Nil)
  }

  /** A receive takes the first message, whose node it goes on to copy, or gives up, or waits at place `i`. */
  ghost predicate EntersRecv(s: State, s': State, t: Tid, want: nat, timeout: int, i: nat) {
    && s'.data == s.data && s'.free == s.free && s'.senders == s.senders
    && (s.q != [] ==>
      && s.head.Node? && s'.q == s.q[1..] && s'.log == s.log + [Take(s.q[0])] && s'.taken == s.taken[t := s.q[0]]
      && s'.entry == s.entry - 1 && Moves(s, s', t, RecvCopy(s.head.id, want, [])))
    && (s.q == [] ==> SameQueue(s, s'))
    && (s.q == [] && timeout == 0 ==> Moves(s, s', t, Idle(TimedOut)))
    && (s.q == [] && timeout != 0 ==>
      s'.pcs == s.pcs[t := RecvWait(want, timeout)] && i <= |s.receivers| && s'.receivers == Inserted(s.receivers, i, t))
  }

  /** What rt_mq_send_wait, rt_mq_urgent and rt_mq_recv do when they are called or come back, told by the state before. */
  lemma CallOutcome(s: State, a: Action, s': State)
    requires Inv(s) && Can(s, a) && Does(s, a, s')
    ensures a.StartSend? ==> EntersSend(s, s', a.t, a.buf, a.timeout, a.i)
    ensures a.ResumeSend? ==> EntersSend(s, s', a.t, s.pcs[a.t].buf, TimeLeft(s.pcs[a.t].timeout, a.elapsed), a.i)
    ensures a.StartUrgent? ==> EntersUrgent(s, s', a.t, a.buf)
    ensures a.StartRecv? ==> EntersRecv(s, s', a.t, a.want, a.timeout, a.i)
    ensures a.ResumeRecv? ==> EntersRecv(s, s', a.t, s.pcs[a.t].size, TimeLeft(s.pcs[a.t].timeout, a.elapsed), a.i)
    ensures a.TooLong? ==> SameQueue(s, s') && Moves(s, s', a.t, Idle(Failed)) && s'.free == s.free && s'.senders == s.senders
  {
    hide InvBut, EntersSend, EntersRecv, EntersUrgent, TriedSend, TriedRecv, Claimed, TimeLeft;
    match a
    case StartSend(t, buf, timeout, i) => SendOutcome(s, t, buf, timeout, i);
    case ResumeSend(t, e, i) => SendOutcome(s, t, s.pcs[t].buf, TimeLeft(s.pcs[t].timeout, e), i);
    case StartUrgent(t, buf) => UrgentOutcome(s, t, buf);
    case StartRecv(t, want, timeout, i) => RecvOutcome(s, t, want, timeout, i);
    case ResumeRecv(t, e, i) => RecvOutcome(s, t, s.pcs[t].size, TimeLeft(s.pcs[t].timeout, e), i);
    case _ =>
  }

  lemma SendOutcome(s: State, t: Tid, buf: seq<bv8>, timeout: int, i: nat)
    requires Inv(s) && Followable(s) && i <= |s.senders|
    ensures EntersSend(s, TriedSend(s, t, buf, timeout, i), t, buf, timeout, i)
  {
    hide InvBut, Inserted, EntersSend, Claimed;
    ListHeads(s);
    if s.fs != [] {
      ClaimOutcome(s, t, buf, timeout, i);
    } else {
      NoNodeOutcome(s, t, buf, timeout, i);
    }
  }

  lemma ClaimOutcome(s: State, t: Tid, buf: seq<bv8>, timeout: int, i: nat)
    requires s.fs != [] && s.fs[0] in s.next && s.free == Node(s.fs[0])
    ensures EntersSend(s, Claimed(s, t, buf, false), t, buf, timeout, i)
  {
    hide Inserted;
  }

  lemma NoNodeOutcome(s: State, t: Tid, buf: seq<bv8>, timeout: int, i: nat)
    requires s.free == Nil && i <= |s.senders|
    ensures timeout == 0 ==> EntersSend(s, GaveUpSend(s, t), t, buf, timeout, i)
    ensures timeout != 0 ==> EntersSend(s, SuspendedSender(s, t, buf, timeout, i), t, buf, timeout, i)
  {
    hide Inserted;
  }

  lemma UrgentOutcome(s: State, t: Tid, buf: seq<bv8>)
    requires Inv(s) && Followable(s)
    ensures EntersUrgent(s, if s.fs == [] then SetPc(s, t, Idle(Full)) else Claimed(s, t, buf, true), t, buf)
  {
    hide InvBut;
    ListHeads(s);
  }

  lemma RecvOutcome(s: State, t: Tid, want: nat, timeout: int, i: nat)
    requires Inv(s) && Followable(s) && i <= |s.receivers|
    ensures EntersRecv(s, TriedRecv(s, t, want, timeout, i), t, want, timeout, i)
  {
    hide InvBut, Inserted, Dequeued, EntersRecv;
    ListHeads(s);
    if s.entry > 0 {
      TakeOutcome(s, t, want, timeout, i);
    } else {
      NothingOutcome(s, t, want, timeout, i);
    }
  }

  lemma TakeOutcome(s: State, t: Tid, want: nat, timeout: int, i: nat)
    requires Inv(s) && Followable(s) && s.entry > 0
    ensures EntersRecv(s, Dequeued(s, t, want), t, want, timeout, i)
  {
    hide InvBut, Inserted;
    ListHeads(s);
  }

  lemma NothingOutcome(s: State, t: Tid, want: nat, timeout: int, i: nat)
    requires s.entry == 0 && s.q == [] && i <= |s.receivers|
    ensures timeout == 0 ==> EntersRecv(s, GaveUpRecv(s, t), t, want, timeout, i)
    ensures timeout != 0 ==> EntersRecv(s, SuspendedReceiver(s, t, want, timeout, i), t, want, timeout, i)
  {
    hide Inserted;
  }

  /** The list heads name the first free node and the first message. */
  lemma ListHeads(s: State)
    requires Inv(s)
    ensures s.free == (if s.fs == [] then Nil else Node(s.fs[0])) && s.head == (if s.qs == [] then Nil else Node(s.qs[0]))
    ensures s.entry == |s.q| == |s.qs|
  {
    hide Owned, Waiting, Explains;
  }

  /** The first thread of a suspend list is resumed, if there is one; nobody else moves but `t`. */
  ghost predicate Resumes(pcs: map<Tid, Pc>, pcs': map<Tid, Pc>, t: Tid, pc: Pc, list: seq<Tid>, list': seq<Tid>) {
    if list == [] then pcs' == pcs[t := pc] && list' == []
    else
      && list[0] in pcs && list' == list[1..]
      && (pcs[list[0]].RecvWait? ==> pcs' == pcs[t := pc][list[0] := RecvWoken(pcs[list[0]].size, pcs[list[0]].timeout)])
      && (pcs[list[0]].SendWait? ==> pcs' == pcs[t := pc][list[0] := SendWoken(pcs[list[0]].buf, pcs[list[0]].timeout)])
  }

  /** The end of a call: the message is in the queue and the first receiver resumed, or the node is free and the first sender resumed. */
  lemma EndOutcome(s: State, a: Action, s': State)
    requires Inv(s) && Can(s, a) && Does(s, a, s')
    ensures a.LinkSend? || a.LinkUrgent? ==>
      && s'.senders == s.senders && s'.free == s.free && s'.entry == s.entry + 1
      && Resumes(s.pcs, s'.pcs, a.t, Idle(Sent), s.receivers, s'.receivers)
    ensures a.FinishRecv? ==>
      && SameQueue(s, s') && s'.receivers == s.receivers && s'.free == Node(s.pcs[a.t].node)
      && Resumes(s.pcs, s'.pcs, a.t, Idle(Received(s.pcs[a.t].got)), s.senders, s'.senders)
  {
    hide InvBut, LinkedLast, LinkedFirst, Freed, WokeReceiver, WokeSender, Resumes, SameQueue;
    WaitersWait(s);
    match a
    case LinkSend(t) => LinkOutcome(s, t, LinkedLast(s, t));
    case LinkUrgent(t) => LinkOutcome(s, t, LinkedFirst(s, t));
    case FinishRecv(t) => FinishOutcome(s, t);
    case _ =>
  }

  lemma LinkOutcome(s: State, t: Tid, l: State)
    requires t in s.pcs && ((s.pcs[t].SendCopy? && l == LinkedLast(s, t)) || (s.pcs[t].UrgentCopy? && l == LinkedFirst(s, t)))
    requires s.receivers != [] ==> s.receivers[0] in s.pcs && s.pcs[s.receivers[0]].RecvWait?
    ensures CanWakeReceiver(l)
    ensures var s' := WokeReceiver(l);
      && s'.senders == s.senders && s'.free == s.free && s'.entry == s.entry + 1
      && Resumes(s.pcs, s'.pcs, t, Idle(Sent), s.receivers, s'.receivers)
  {}

  lemma FinishOutcome(s: State, t: Tid)
    requires t in s.pcs && s.pcs[t].RecvCopy?
    requires s.senders != [] ==> s.senders[0] in s.pcs && s.pcs[s.senders[0]].SendWait?
    ensures CanWakeSender(Freed(s, t))
    ensures var s' := WokeSender(Freed(s, t));
      && SameQueue(s, s') && s'.receivers == s.receivers && s'.free == Node(s.pcs[t].node)
      && Resumes(s.pcs, s'.pcs, t, Idle(Received(s.pcs[t].got)), s.senders, s'.senders)
  {}

  /** Between the locked sections a call copies one byte after the other, and touches nothing but its own node. */
  lemma CopyOutcome(s: State, a: Action, s': State)
    requires Inv(s) && Can(s, a) && Does(s, a, s')
    ensures a.Clear? ==> s'.pcs == s.pcs[a.t := SendCopy(s.pcs[a.t].node, s.pcs[a.t].buf, 0)] && s'.data == s.data && s'.q == s.q && s'.log == s.log
    ensures a.CopyIn? ==>
      && var pc := s.pcs[a.t];
      && s'.pcs == s.pcs[a.t := pc.(done := pc.done + 1)] && pc.node in s.data && pc.done < |s.data[pc.node]|
      && s'.data == s.data[pc.node := s.data[pc.node][pc.done := pc.buf[pc.done]]] && s'.q == s.q && s'.log == s.log
    ensures a.CopyOut? ==>
      && var pc := s.pcs[a.t];
      && pc.node in s.data && |pc.got| < |s.data[pc.node]| && SameQueue(s, s')
      && s'.pcs == s.pcs[a.t := RecvCopy(pc.node, pc.size, pc.got + [s.data[pc.node][|pc.got|]])]
  {
    hide InvBut;
  }

  /** A timeout takes exactly the thread at place `i` out of its list. */
  lemma TimeoutOutcome(s: State, a: Action, s': State)
    requires Inv(s) && Can(s, a) && Does(s, a, s')
    ensures a.ExpireReceiver? ==>
      && SameQueue(s, s') && s'.pcs == s.pcs[s.receivers[a.i] := Idle(TimedOut)] && s'.receivers == Removed(s.receivers, a.i) && s'.senders == s.senders
    ensures a.ExpireSender? ==>
      && SameQueue(s, s') && s'.pcs == s.pcs[s.senders[a.i] := Idle(TimedOut)] && s'.senders == Removed(s.senders, a.i) && s'.receivers == s.receivers
  {
    hide InvBut;
  }

  /** A reset makes every waiting call fail and no other thread move. */
  lemma ResetOutcome(s: State)
    requires Inv(s)
    ensures Reset(s).pcs.Keys == s.pcs.Keys
    ensures forall t :: t in s.pcs ==>
      Reset(s).pcs[t] == if s.pcs[t].RecvWait? || s.pcs[t].SendWait? then Idle(Failed) else s.pcs[t]
  {
    hide DismissedReceivers, DismissedSenders, DroppedAll, Reset, Owned, Buffers, ListOf, Explains;
    ResetIs(s);
    DismissedReceiversMove(s);
    DismissedSendersMove(DismissedReceivers(s));
    DroppedCarries(DismissedSenders(DismissedReceivers(s)));
  }

  /** Exactly the threads of the list get `pc`. */
  ghost predicate AllMove(pcs: map<Tid, Pc>, pcs': map<Tid, Pc>, list: seq<Tid>, pc: Pc) {
    && (forall t :: t in pcs' <==> t in pcs || t in list)
    && (forall t :: t in pcs' ==> if t in list then pcs'[t] == pc else t in pcs && pcs'[t] == pcs[t])
  }

  lemma {:induction false} DismissedReceiversMove(s: State)
    ensures AllMove(s.pcs, DismissedReceivers(s).pcs, s.receivers, Idle(Failed)) && DismissedReceivers(s).senders == s.senders
    decreases |s.receivers|
  {
    if s.receivers != [] {
      var u := DismissedReceiver(s, 0, Failed);
      assert s.receivers == [s.receivers[0]] + u.receivers;
      DismissedReceiversMove(u);
    }
  }

  lemma {:induction false} DismissedSendersMove(s: State)
    ensures AllMove(s.pcs, DismissedSenders(s).pcs, s.senders, Idle(Failed))
    decreases |s.senders|
  {
    if s.senders != [] {
      var u := DismissedSender(s, 0, Failed);
      assert s.senders == [s.senders[0]] + u.senders;
      DismissedSendersMove(u);
    }
  }

  // ---- the order of the waiters ----------------------------------------------------------------------

  /** Queues by priority keep both suspend lists in order of priority, first come, first served among equals. */
  ghost predicate InOrder(s: State) {
    !s.fifo ==> Sorted(s.receivers, s.prio) && Sorted(s.senders, s.prio)
  }

  lemma Fixed(s: State, a: Action, s': State)
    requires Inv(s) && Can(s, a) && Does(s, a, s')
    ensures s'.fifo == s.fifo && s'.prio == s.prio
  {
    hide InvBut, Reset, TriedRecv, IsPosition;
    match a
    case StartRecv(t, want, timeout, i) => TriedRecvFixed(s, t, want, timeout, i);
    case ResumeRecv(t, e, i) => TriedRecvFixed(s, t, s.pcs[t].size, TimeLeft(s.pcs[t].timeout, e), i);
    case ResetQueue => ResetFixed(s);
    case _ => StepOnlyLogs(s, a, s');
  }

  lemma TriedRecvFixed(s: State, t: Tid, want: nat, timeout: int, i: nat)
    requires i <= |s.receivers| && Followable(s)
    ensures TriedRecv(s, t, want, timeout, i).fifo == s.fifo && TriedRecv(s, t, want, timeout, i).prio == s.prio
  {
    hide Dequeued, GaveUpRecv, SuspendedReceiver;
    RecvStepsFixed(s, t, want, timeout, i);
  }

  lemma RecvStepsFixed(s: State, t: Tid, want: nat, timeout: int, i: nat)
    ensures GaveUpRecv(s, t).fifo == s.fifo && GaveUpRecv(s, t).prio == s.prio
    ensures i <= |s.receivers| ==>
      SuspendedReceiver(s, t, want, timeout, i).fifo == s.fifo && SuspendedReceiver(s, t, want, timeout, i).prio == s.prio
    ensures s.qs != [] && s.q != [] && s.qs[0] in s.next && s.entry > 0 ==>
      Dequeued(s, t, want).fifo == s.fifo && Dequeued(s, t, want).prio == s.prio
  {
    hide Inserted;
  }

  lemma ResetFixed(s: State)
    ensures Reset(s).fifo == s.fifo && Reset(s).prio == s.prio
  {
    hide DismissedReceivers, DismissedSenders, DroppedAll, Reset;
    ResetIs(s);
    DismissedReceiversLogs(s);
    DismissedSendersLogs(DismissedReceivers(s));
    DroppedAllLogs(DismissedSenders(DismissedReceivers(s)));
  }

  /** How a suspend list may change in one action: a thread joins at its place, or one leaves, or all do. */
  ghost predicate ListStep(s: State, ws: seq<Tid>, ws': seq<Tid>) {
    || ws' == ws || ws' == []
    || (exists t, i :: t in s.prio && 0 <= i <= |ws| && PlacedAt(s, ws, t, i) && ws' == Inserted(ws, i, t))
    || (exists i :: 0 <= i < |ws| && ws' == Removed(ws, i))
  }

  lemma ListStepSorted(s: State, ws: seq<Tid>, ws': seq<Tid>)
    requires !s.fifo && Sorted(ws, s.prio) && ListStep(s, ws, ws')
    ensures Sorted(ws', s.prio)
  {
    if t, i :| t in s.prio && 0 <= i <= |ws| && PlacedAt(s, ws, t, i) && ws' == Inserted(ws, i, t) {
      InsertKeepsSorted(ws, s.prio, t, i);
    } else if i :| 0 <= i < |ws| && ws' == Removed(ws, i) {
      RemoveKeepsSorted(ws, s.prio, i);
    }
  }

  lemma StepLists(s: State, a: Action, s': State)
    requires Inv(s) && Can(s, a) && Does(s, a, s')
    ensures ListStep(s, s.receivers, s'.receivers) && ListStep(s, s.senders, s'.senders)
  {
    hide InvBut, Does, Inserted, Removed, SameQueue, PlacedAt, IsPosition;
    ThreadsHavePriorities(s);
    CallOutcome(s, a, s');
    TimeoutOutcome(s, a, s');
    if a.LinkSend? || a.LinkUrgent? || a.FinishRecv? {
      EndOutcome(s, a, s');
      HeadLeaves(s.receivers);
      HeadLeaves(s.senders);
    } else if a.Clear? || a.CopyIn? || a.CopyOut? {
      CopyLists(s, a, s');
    } else if a.ResetQueue? {
      ResetEmpties(s, a, s');
    }
  }

  lemma ThreadsHavePriorities(s: State)
    requires Inv(s)
    ensures forall t :: t in s.pcs ==> t in s.prio
  {
    hide Owned, Buffers, Waiting, ListOf, Explains;
  }

  lemma HeadLeaves(ws: seq<Tid>)
    ensures ws != [] ==> Removed(ws, 0) == ws[1..]
  {}

  lemma CopyLists(s: State, a: Action, s': State)
    requires Can(s, a) && Does(s, a, s') && (a.Clear? || a.CopyIn? || a.CopyOut?)
    ensures s'.receivers == s.receivers && s'.senders == s.senders
  {}

  lemma ResetEmpties(s: State, a: Action, s': State)
    requires Inv(s) && Can(s, a) && Does(s, a, s') && a.ResetQueue?
    ensures s'.receivers == [] && s'.senders == []
  {
    hide InvBut, Reset;
    ResetInv(s);
  }

  lemma StepInOrder(s: State, a: Action, s': State)
    requires Inv(s) && Can(s, a) && Does(s, a, s') && InOrder(s)
    ensures InOrder(s')
  {
    hide InvBut, Does, Can, ListStep, Sorted;
    Fixed(s, a, s');
    StepLists(s, a, s');
    if !s.fifo {
      ListStepSorted(s, s.receivers, s'.receivers);
      ListStepSorted(s, s.senders, s'.senders);
    }
  }

  // ---- what was asked for is what is sent ----------------------------------------------------------

  /** The thread is somewhere between the call of a send and the link. */
  predicate Sending(pc: Pc) {
    pc.SendWait? || pc.SendWoken? || pc.SendClaimed? || pc.SendCopy? || pc.UrgentCopy?
  }

  /** The messages threads have asked to send, by the arguments of their latest calls. */
  function Asked(acts: seq<Action>): map<Tid, Message> {
    if acts == [] then map[] else AlsoAsked(Asked(acts[..|acts| - 1]), acts[|acts| - 1])
  }

  function AlsoAsked(asked: map<Tid, Message>, a: Action): map<Tid, Message> {
    match a
    case StartSend(t, buf, _, _) => asked[t := Message(buf, false)]
    case StartUrgent(t, buf) => asked[t := Message(buf, true)]
    case _ => asked
  }

  /** Every thread on its way to a link carries what it was asked to send, to the end or to the front. */
  ghost predicate CarriesAsked(s: State, asked: map<Tid, Message>) {
    forall t :: t in s.pcs && Sending(s.pcs[t]) ==> t in asked && asked[t] == Message(s.pcs[t].buf, s.pcs[t].UrgentCopy?)
  }

  /** No thread starts to send, and what those that go on carry is unchanged. */
  ghost predicate Carries(pcs: map<Tid, Pc>, pcs': map<Tid, Pc>) {
    forall t :: t in pcs' && Sending(pcs'[t]) ==> t in pcs && Sending(pcs[t]) && pcs'[t].buf == pcs[t].buf && pcs'[t].UrgentCopy? == pcs[t].UrgentCopy?
  }

  lemma {:induction false} ResetReceiversCarries(s: State)
    ensures Carries(s.pcs, DismissedReceivers(s).pcs)
    decreases |s.receivers|
  {
    if s.receivers != [] { ResetReceiversCarries(DismissedReceiver(s, 0, Failed)); }
  }

  lemma {:induction false} ResetSendersCarries(s: State)
    ensures Carries(s.pcs, DismissedSenders(s).pcs)
    decreases |s.senders|
  {
    if s.senders != [] { ResetSendersCarries(DismissedSender(s, 0, Failed)); }
  }

  lemma {:induction false} DroppedCarries(s: State)
    ensures DroppedAll(s).pcs == s.pcs
    decreases |s.qs|
  {
    if s.qs != [] && s.q != [] && s.qs[0] in s.next && s.entry > 0 { DroppedCarries(DroppedFirst(s)); }
  }

  /** Every action keeps what threads carry in step with what they were asked. */
  lemma StepAsked(s: State, a: Action, s': State, asked: map<Tid, Message>)
    requires Inv(s) && Can(s, a) && Does(s, a, s') && CarriesAsked(s, asked)
    ensures CarriesAsked(s', AlsoAsked(asked, a))
  {
    hide InvBut, Does, EntersRecv, EntersSend, EntersUrgent;
    if a.StartSend? || a.StartUrgent? {
      CallOutcome(s, a, s');
      EntersCarries(s, a, s');
    } else {
      StepCarries(s, a, s');
    }
  }

  lemma EntersCarries(s: State, a: Action, s': State)
    ensures a.StartSend? && EntersSend(s, s', a.t, a.buf, a.timeout, a.i) ==>
      a.t in s'.pcs && var pc := s'.pcs[a.t]; s'.pcs == s.pcs[a.t := pc] && (Sending(pc) ==> pc.buf == a.buf && !pc.UrgentCopy?)
    ensures a.StartUrgent? && EntersUrgent(s, s', a.t, a.buf) ==>
      a.t in s'.pcs && var pc := s'.pcs[a.t]; s'.pcs == s.pcs[a.t := pc] && (Sending(pc) ==> pc.buf == a.buf && pc.UrgentCopy?)
  {}

  /** All actions but the calls leave what threads carry. */
  lemma StepCarries(s: State, a: Action, s': State)
    requires Inv(s) && Can(s, a) && Does(s, a, s') && !a.StartSend? && !a.StartUrgent?
    ensures Carries(s.pcs, s'.pcs)
  {
    hide InvBut, Does, Inserted, Removed, SameQueue;
    if a.ResetQueue? {
      ResetCarries(s, a, s');
    } else if a.LinkSend? || a.LinkUrgent? || a.FinishRecv? {
      EndCarries(s, a, s');
    } else if a.ResumeSend? || a.StartRecv? || a.ResumeRecv? || a.TooLong? {
      CallOutcome(s, a, s');
    } else {
      RestCarries(s, a, s');
    }
  }

  lemma EndCarries(s: State, a: Action, s': State)
    requires Inv(s) && Can(s, a) && Does(s, a, s') && (a.LinkSend? || a.LinkUrgent? || a.FinishRecv?)
    ensures Carries(s.pcs, s'.pcs)
  {
    hide InvBut, Does, SameQueue;
    EndOutcome(s, a, s');
    WaitersWait(s);
  }

  lemma RestCarries(s: State, a: Action, s': State)
    requires Inv(s) && Can(s, a) && Does(s, a, s') && (a.Clear? || a.CopyIn? || a.CopyOut? || a.ExpireReceiver? || a.ExpireSender?)
    ensures Carries(s.pcs, s'.pcs)
  {
    hide InvBut, Does, SameQueue, Removed;
    CopyOutcome(s, a, s');
    TimeoutOutcome(s, a, s');
  }

  lemma WaitersWait(s: State)
    requires Inv(s)
    ensures s.receivers != [] ==> s.receivers[0] in s.pcs && s.pcs[s.receivers[0]].RecvWait?
    ensures s.senders != [] ==> s.senders[0] in s.pcs && s.pcs[s.senders[0]].SendWait?
  {
    hide Owned, Buffers, ListOf, Explains;
    if s.receivers != [] { assert s.receivers[0] in s.receivers; }
    if s.senders != [] { assert s.senders[0] in s.senders; }
  }

  lemma ResetCarries(s: State, a: Action, s': State)
    requires Can(s, a) && Does(s, a, s') && a.ResetQueue?
    ensures Carries(s.pcs, s'.pcs)
  {
    hide DismissedReceivers, DismissedSenders, DroppedAll;
    ResetIs(s);
    ResetReceiversCarries(s);
    ResetSendersCarries(DismissedReceivers(s));
    DroppedCarries(DismissedSenders(DismissedReceivers(s)));
  }

  /** A link puts exactly what the thread was asked to send to the end, or to the front; no other action links anything. */
  lemma LinksAsked(s: State, a: Action, s': State, asked: map<Tid, Message>)
    requires Inv(s) && Can(s, a) && Does(s, a, s') && CarriesAsked(s, asked)
    ensures a.LinkSend? ==>
      a.t in asked && !asked[a.t].urgent && s'.q == s.q + [asked[a.t]] && s'.log == s.log + [Link(asked[a.t])]
    ensures a.LinkUrgent? ==>
      a.t in asked && asked[a.t].urgent && s'.q == [asked[a.t]] + s.q && s'.log == s.log + [Link(asked[a.t])]
    ensures !a.LinkSend? && !a.LinkUrgent? ==> MessageLog.Links(s'.log) == MessageLog.Links(s.log)
  {
    hide InvBut, Inserted, Removed, MessageLog.Links;
    if a.LinkSend? || a.LinkUrgent? {
      assert Sending(s.pcs[a.t]);
    } else {
      NoLink(s, a, s');
    }
  }

  lemma NoLink(s: State, a: Action, s': State)
    requires Inv(s) && Can(s, a) && Does(s, a, s') && !a.LinkSend? && !a.LinkUrgent?
    ensures MessageLog.Links(s'.log) == MessageLog.Links(s.log)
  {
    hide InvBut, Does, Inserted, Removed, MessageLog.Links;
    CallOutcome(s, a, s');
    EndOutcome(s, a, s');
    CopyOutcome(s, a, s');
    TimeoutOutcome(s, a, s');
    if a.ResetQueue? {
      ResetLinks(s, a, s');
    } else if s'.log != s.log {
      NoneLinked(s.log, s.q[0]);
    }
  }

  lemma NoneLinked(log: seq<Event>, m: Message)
    ensures MessageLog.Links(log + [Take(m)]) == MessageLog.Links(log) && MessageLog.Links(log + [Drop(m)]) == MessageLog.Links(log)
  {
    assert (log + [Take(m)])[..|log|] == log && (log + [Drop(m)])[..|log|] == log;
  }

  lemma ResetLinks(s: State, a: Action, s': State)
    requires Can(s, a) && Does(s, a, s') && a.ResetQueue?
    ensures MessageLog.Links(s'.log) == MessageLog.Links(s.log)
  {
    hide DismissedReceivers, DismissedSenders, DroppedAll, MessageLog.Links;
    ResetIs(s);
    DismissedReceiversLog(s);
    DismissedSendersLog(DismissedReceivers(s));
    DroppedLinks(DismissedSenders(DismissedReceivers(s)));
  }

  lemma {:induction false} DismissedReceiversLog(s: State)
    ensures DismissedReceivers(s).log == s.log
    decreases |s.receivers|
  {
    if s.receivers != [] { DismissedReceiversLog(DismissedReceiver(s, 0, Failed)); }
  }

  lemma {:induction false} DismissedSendersLog(s: State)
    ensures DismissedSenders(s).log == s.log
    decreases |s.senders|
  {
    if s.senders != [] { DismissedSendersLog(DismissedSender(s, 0, Failed)); }
  }

  lemma {:induction false} DroppedLinks(s: State)
    ensures MessageLog.Links(DroppedAll(s).log) == MessageLog.Links(s.log)
    decreases |s.qs|
  {
    hide MessageLog.Links;
    if s.qs != [] && s.q != [] && s.qs[0] in s.next && s.entry > 0 {
      DroppedLinks(DroppedFirst(s));
      NoneLinked(s.log, s.q[0]);
    }
  }

  /** rt_mq_init: every node is on the free list, every thread idle. */
  ghost predicate Initial(s: State) {
    && s.max <= ENTRY_MAX && ListOf(s.next, s.free, s.fs)
    && (forall n :: n in s.next <==> 0 <= n < s.max) && (forall n :: n in s.fs <==> 0 <= n < s.max)
    && (forall n :: n in s.data <==> 0 <= n < s.max) && (forall n :: n in s.data ==> |s.data[n]| == s.size)
    && (forall n :: n in s.owner <==> 0 <= n < s.max) && (forall n :: n in s.owner ==> s.owner[n] == InFree)
    && (forall t :: t in s.pcs <==> t in s.prio) && (forall t :: t in s.pcs ==> s.pcs[t].Idle?)
    && s.head == Nil && s.tail == Nil && s.entry == 0 && s.receivers == [] && s.senders == [] && s.qs == [] && s.q == []
    && s.taken == map[] && s.wokenR == {} && s.wokenS == {} && s.log == []
  }

  lemma InitialInv(s: State)
    requires Initial(s)
    ensures Inv(s)
  {
    hide Owned, Buffers, Waiting, ListOf, Explains, Initial;
    InitialOwned(s);
    InitialBuffers(s);
    InitialWaiting(s);
  }

  lemma InitialOwned(s: State)
    requires Initial(s)
    ensures Owned(s.owner, s.max, s.qs, s.fs, s.pcs) && s.max <= ENTRY_MAX
  {
    hide ListOf;
  }

  lemma InitialBuffers(s: State)
    requires Initial(s)
    ensures Buffers(s.data, s.next, s.size, s.max, s.qs, s.q, s.pcs, s.taken)
    ensures s.head == Nil && s.tail == Nil && s.qs == [] && s.entry == 0
  {
    hide ListOf;
  }

  lemma InitialWaiting(s: State)
    requires Initial(s)
    ensures Waiting(s.pcs, s.receivers, s.senders, s.wokenR, s.wokenS, 0, |s.fs|)
    ensures ListOf(s.next, s.head, s.qs) && ListOf(s.next, s.free, s.fs) && Explains(s.log, s.q)
    ensures forall t :: t in s.pcs ==> t in s.prio
  {}

  lemma NobodyWaits(s: State)
    requires Initial(s)
    ensures InOrder(s)
  {
    hide ListOf;
  }

  lemma NothingTaken(s: State)
    requires Initial(s)
    ensures TakenLogged(s)
  {
    hide ListOf;
  }

  ghost predicate Step(s: State, a: Action, s': State) {
    Can(s, a) && Does(s, a, s')
  }

  ghost predicate IsRun(ss: seq<State>, acts: seq<Action>) {
    && |ss| == |acts| + 1
    && Initial(ss[0])
    && forall i, j :: 0 <= i < |acts| && j == i + 1 ==> Step(ss[i], acts[i], ss[j])
  }

  /** The invariant holds in every state of every run, every message taken is in the history, and waiters stand in order. */
  lemma {:induction false} RunInv(ss: seq<State>, acts: seq<Action>, k: nat)
    requires IsRun(ss, acts) && k < |ss|
    ensures Inv(ss[k]) && TakenLogged(ss[k]) && InOrder(ss[k])
  {
    hide InvBut, Does, Can, Initial, TakenLogged, InOrder;
    if k == 0 {
      InitialInv(ss[0]);
      NothingTaken(ss[0]);
      NobodyWaits(ss[0]);
    } else {
      RunInv(ss, acts, k - 1);
      var i := k - 1;
      assert Step(ss[i], acts[i], ss[k]);
      StepInv(ss[i], acts[i], ss[k]);
      StepTaken(ss[i], acts[i], ss[k]);
      StepInOrder(ss[i], acts[i], ss[k]);
    }
  }

  lemma {:induction false} RunAsked(ss: seq<State>, acts: seq<Action>, k: nat)
    requires IsRun(ss, acts) && k < |ss|
    ensures CarriesAsked(ss[k], Asked(acts[..k]))
  {
    hide InvBut, Does, Can, Initial, AlsoAsked, CarriesAsked;
    if k == 0 {
      NobodySends(ss[0]);
    } else {
      var i := k - 1;
      RunAsked(ss, acts, i);
      RunInv(ss, acts, i);
      assert Step(ss[i], acts[i], ss[k]);
      StepAsked(ss[i], acts[i], ss[k], Asked(acts[..i]));
      assert acts[..k][..i] == acts[..i];
    }
  }

  lemma NobodySends(s: State)
    requires Initial(s)
    ensures CarriesAsked(s, map[])
  {
    hide ListOf;
  }

  /**
   In every run the end of rt_mq_send_wait puts the very message of the call to the end of the queue, the
   end of rt_mq_urgent puts it to the front, and nothing else puts anything into the queue.
   */
  lemma SentAsAsked(ss: seq<State>, acts: seq<Action>, k: nat)
    requires IsRun(ss, acts) && k < |acts|
    ensures var (s, s', a, asked) := (ss[k], ss[k + 1], acts[k], Asked(acts[..k]));
      && (a.LinkSend? ==> a.t in asked && !asked[a.t].urgent && s'.q == s.q + [asked[a.t]] && s'.log == s.log + [Link(asked[a.t])])
      && (a.LinkUrgent? ==> a.t in asked && asked[a.t].urgent && s'.q == [asked[a.t]] + s.q && s'.log == s.log + [Link(asked[a.t])])
      && (!a.LinkSend? && !a.LinkUrgent? ==> MessageLog.Links(s'.log) == MessageLog.Links(s.log))
  {
    hide InvBut, Does, Can, Initial, Asked, MessageLog.Links, CarriesAsked;
    RunInv(ss, acts, k);
    RunAsked(ss, acts, k);
    var j := k + 1;
    assert Step(ss[k], acts[k], ss[j]);
    LinksAsked(ss[k], acts[k], ss[j], Asked(acts[..k]));
  }
}
