/** struct rt_messagequeue and the locked sections of ipc.c that change it, step by step. */
module MessageQueueObject {
  import opened Ring
  import opened IpcList
  import opened MessageQueue

  class Queue {
    const max: nat
    const size: nat
    const fifo: bool                        // parent.parent.flag
    const prio: map<Tid, nat>
    var next: map<nat, Ref>
    var data: map<nat, seq<bv8>>
    var head: Ref                           // msg_queue_head
    var tail: Ref                           // msg_queue_tail
    var free: Ref                           // msg_queue_free
    var entry: nat
    var pcs: map<Tid, Pc>
    var receivers: seq<Tid>
    var senders: seq<Tid>
    ghost var s: State                      // the same, with the meaning of the links and the history

    ghost predicate Matches()
      reads this
    {
      && s.max == max && s.size == size && s.fifo == fifo && s.prio == prio
      && s.next == next && s.data == data && s.head == head && s.tail == tail && s.free == free
      && s.entry == entry && s.pcs == pcs && s.receivers == receivers && s.senders == senders
    }

    ghost predicate Valid()
      reads this
    {
      Inv(s) && Matches()
    }

    /** While a reset empties the queue, entry is set to 0 only at the end. */
    ghost predicate MatchesButEntry()
      reads this
    {
      && s.max == max && s.size == size && s.fifo == fifo && s.prio == prio
      && s.next == next && s.data == data && s.head == head && s.tail == tail && s.free == free
      && s.pcs == pcs && s.receivers == receivers && s.senders == senders
    }

    /** The first message goes back to the free list. */
    method DropHead()
      requires Inv(s) && MatchesButEntry() && head != Nil && s.qs != [] && s.receivers == [] && s.senders == []
      modifies this`next, this`head, this`tail, this`free, this`s
      ensures old(s.qs != [] && s.q != [] && s.qs[0] in s.next && s.entry > 0)
      ensures Inv(s) && MatchesButEntry() && s == DroppedFirst(old(s))
    {
      hide InvBut;
      HeadsAreNodes(s);
      DroppedFirstInv(s);
      var msg := head.id;
      head := next[msg];
      if tail == Node(msg) {
        tail := Nil;
      }
      next := next[msg := free];
      free := Node(msg);
      s := DroppedFirst(s);
    }

    /** rt_mq_init: the loop that strings the nodes onto the free list. */
    constructor (max: nat, size: nat, fifo: bool, prio: map<Tid, nat>)
      requires max <= ENTRY_MAX
      ensures Valid() && this.max == max && this.size == size && this.prio == prio
      ensures Initial(s) && |s.fs| == max && pcs == map t | t in prio :: Idle(Fresh)
    {
      hide ListOf, InvBut;
      NoNodes();
      this.max, this.size, this.fifo, this.prio := max, size, fifo, prio;
      var blank: seq<bv8> := seq(size, i => 0);
      var area: map<nat, seq<bv8>> := map[];
      var links: map<nat, Ref> := map[];
      var first := Nil;
      ghost var fs: seq<nat>, owner: map<nat, Owner> := [], map[];
      var temp := 0;
      while temp < max
        invariant temp <= max && |fs| == temp && ListOf(links, first, fs)
        invariant forall n :: n in links <==> 0 <= n < temp
        invariant forall n :: n in fs <==> 0 <= n < temp
        invariant forall n :: n in area <==> 0 <= n < temp
        invariant forall n :: n in area ==> |area[n]| == size
        invariant forall n :: n in owner <==> 0 <= n < temp
        invariant forall n :: n in owner ==> owner[n] == InFree
      {
        PushList(links, first, fs, temp);
        links := links[temp := first];
        area := area[temp := blank];
        first := Node(temp);
        fs, owner := [temp] + fs, owner[temp := InFree];
        temp := temp + 1;
      }
      var idle := map t | t in prio :: Idle(Fresh);
      next, data, head, tail, free, entry := links, area, Nil, Nil, first, 0;
      pcs, receivers, senders := idle, [], [];
      ghost var i := State(max, size, fifo, prio, links, area, Nil, Nil, first, 0, idle, [], [], [], fs, [], owner, map[], {}, {}, []);
      assert Initial(i);
      InitialInv(i);
      s := i;
    }

    /** Where _ipc_list_suspend puts thread `t`. */
    method Place(ws: seq<Tid>, t: Tid) returns (i: nat)
      requires t in prio && forall j :: 0 <= j < |ws| ==> ws[j] in prio
      ensures i <= |ws| && (if fifo then i == |ws| else IsPosition(ws, prio, prio[t], i))
    {
      if fifo {
        i := |ws|;
      } else {
        i := FindPosition(ws, prio, prio[t]);
      }
    }

    // ---- sending ---------------------------------------------------------------------------

    /** Lines 2756-2834: the loop head of rt_mq_send_wait, entered with interrupts disabled. */
    method TrySend(t: Tid, buf: seq<bv8>, timeout: int) returns (ghost i: nat)
      requires Valid() && t in pcs && (pcs[t].Idle? || pcs[t].SendWoken?) && |buf| <= size
      modifies this
      ensures Valid() && i <= |old(senders)| && Followable(old(s))
      ensures t in pcs && (pcs[t].SendWait? ==> PlacedAt(old(s), old(senders), t, i))
      ensures s == TriedSend(old(s), t, buf, timeout, i)
    {
      hide InvBut, Inserted;
      Ready(s);
      HeadsAreNodes(s);
      i := 0;
      if free == Nil {
        if timeout == 0 {
          TriedSendInv(s, t, buf, timeout, 0);
          pcs := pcs[t := Idle(Full)];
        } else {
          WaitersHavePriorities(s);
          var k := Place(senders, t);
          i := k;
          TriedSendInv(s, t, buf, timeout, k);
          senders := Inserted(senders, k, t);
          pcs := pcs[t := SendWait(buf, timeout)];
        }
      } else {
        TriedSendInv(s, t, buf, timeout, 0);
        var msg := free.id;
        free := next[msg];
        pcs := pcs[t := SendClaimed(msg, buf)];
      }
      s := TriedSend(s, t, buf, timeout, i);
    }

    /** rt_mq_send_wait from its start. */
    method SendEnter(t: Tid, buf: seq<bv8>, timeout: int) returns (ghost i: nat)
      requires Valid() && t in pcs && pcs[t].Idle? && buf != []
      modifies this
      ensures Valid() && i <= |old(senders)| && Followable(old(s))
      ensures t in pcs && (pcs[t].SendWait? ==> PlacedAt(old(s), old(senders), t, i))
      ensures s == if |buf| > size then SetPc(old(s), t, Idle(Failed)) else TriedSend(old(s), t, buf, timeout, i)
    {
      hide InvBut, TriedSend;
      Ready(s);
      if |buf| > size {
        FinishInv(s, t, Failed);
        pcs := pcs[t := Idle(Failed)];
        s := SetPc(s, t, Idle(Failed));
        return 0;
      }
      i := TrySend(t, buf, timeout);
    }

    /** Lines 2818-2828: a resumed sender, `elapsed` ticks later, goes round the loop again. */
    method SendResume(t: Tid, elapsed: nat) returns (ghost i: nat)
      requires Valid() && t in pcs && pcs[t].SendWoken?
      modifies this
      ensures Valid() && i <= |old(senders)| && Followable(old(s))
      ensures t in pcs && (pcs[t].SendWait? ==> PlacedAt(old(s), old(senders), t, i))
      ensures s == TriedSend(old(s), t, old(pcs)[t].buf, TimeLeft(old(pcs)[t].timeout, elapsed), i)
    {
      hide InvBut, TriedSend;
      BufFits(s, t);
      i := TrySend(t, pcs[t].buf, TimeLeft(pcs[t].timeout, elapsed));
    }

    /** Line 2844. */
    method SendClear(t: Tid)
      requires Valid() && t in pcs && pcs[t].SendClaimed?
      modifies this`next, this`pcs, this`s
      ensures Valid() && s == Cleared(old(s), t)
    {
      hide InvBut;
      ClearedInv(s, t);
      next := next[pcs[t].node := Nil];
      pcs := pcs[t := SendCopy(pcs[t].node, pcs[t].buf, 0)];
      s := Cleared(s, t);
    }

    /** One byte of lines 2839 or 2972. */
    method CopyByteIn(t: Tid)
      requires Valid() && t in pcs && (pcs[t].SendCopy? || pcs[t].UrgentCopy?) && pcs[t].done < |pcs[t].buf|
      modifies this`data, this`pcs, this`s
      ensures Valid() && Can(old(s), CopyIn(t)) && Does(old(s), CopyIn(t), s)
    {
      hide InvBut;
      CopiedInInv(s, t);
      var pc := pcs[t];
      data := data[pc.node := data[pc.node][pc.done := pc.buf[pc.done]]];
      pcs := pcs[t := pc.(done := pc.done + 1)];
      s := CopiedIn(s, t);
    }

    /** _ipc_list_resume on the receivers. */
    method ResumeReceiver()
      requires |s.qs| > 0 && InvBut(s, |s.qs| - 1, |s.fs|) && Matches()
      modifies this`receivers, this`pcs, this`s
      ensures Valid() && CanWakeReceiver(old(s)) && s == WokeReceiver(old(s))
    {
      hide InvBut;
      WokeReceiverInv(s);
      if receivers != [] {
        var r := receivers[0];
        receivers := receivers[1..];
        pcs := pcs[r := RecvWoken(pcs[r].size, pcs[r].timeout)];
      }
      s := WokeReceiver(s);
    }

    /** Lines 2842-2884. */
    method SendLink(t: Tid)
      requires Valid() && t in pcs && pcs[t].SendCopy? && pcs[t].done == |pcs[t].buf|
      modifies this
      ensures Valid() && CanWakeReceiver(LinkedLast(old(s), t)) && s == WokeReceiver(LinkedLast(old(s), t))
    {
      hide InvBut, WokeReceiver;
      LinkedLastInv(s, t);
      var msg := pcs[t].node;
      TailInNext(s);
      if tail != Nil {
        next := next[tail.id := Node(msg)];
      }
      tail := Node(msg);
      if head == Nil {
        head := Node(msg);
      }
      if entry < ENTRY_MAX {
        entry := entry + 1;
      } else {
        EntryNeverOverflows(s, t);
        assert false;
      }
      pcs := pcs[t := Idle(Sent)];
      s := LinkedLast(s, t);
      ResumeReceiver();
    }

    // ---- rt_mq_urgent ------------------------------------------------------------------------

    method UrgentEnter(t: Tid, buf: seq<bv8>)
      requires Valid() && t in pcs && pcs[t].Idle? && buf != []
      modifies this
      ensures Valid() && Followable(old(s))
      ensures s ==
        if |buf| > size then SetPc(old(s), t, Idle(Failed))
        else if old(s).fs == [] then SetPc(old(s), t, Idle(Full))
        else Claimed(old(s), t, buf, true)
    {
      hide InvBut;
      Ready(s);
      HeadsAreNodes(s);
      if |buf| > size {
        FinishInv(s, t, Failed);
        pcs := pcs[t := Idle(Failed)];
        s := SetPc(s, t, Idle(Failed));
        return;
      }
      if free == Nil {
        FinishInv(s, t, Full);
        pcs := pcs[t := Idle(Full)];
        s := SetPc(s, t, Idle(Full));
        return;
      }
      ClaimedInv(s, t, buf, true);
      var msg := free.id;
      free := next[msg];
      pcs := pcs[t := UrgentCopy(msg, buf, 0)];
      s := Claimed(s, t, buf, true);
    }

    /** Lines 2975-3013. */
    method UrgentLink(t: Tid)
      requires Valid() && t in pcs && pcs[t].UrgentCopy? && pcs[t].done == |pcs[t].buf|
      modifies this
      ensures Valid() && CanWakeReceiver(LinkedFirst(old(s), t)) && s == WokeReceiver(LinkedFirst(old(s), t))
    {
      hide InvBut, WokeReceiver;
      LinkedFirstInv(s, t);
      var msg := pcs[t].node;
      next := next[msg := head];
      head := Node(msg);
      if tail == Nil {
        tail := Node(msg);
      }
      if entry < ENTRY_MAX {
        entry := entry + 1;
      } else {
        EntryNeverOverflows(s, t);
        assert false;
      }
      pcs := pcs[t := Idle(Sent)];
      s := LinkedFirst(s, t);
      ResumeReceiver();
    }

    // ---- receiving -----------------------------------------------------------------------------

    /** Lines 3061-3151: the loop head of rt_mq_recv, entered with interrupts disabled. */
    method TryRecv(t: Tid, want: nat, timeout: int) returns (ghost i: nat)
      requires Valid() && t in pcs && (pcs[t].Idle? || pcs[t].RecvWoken?)
      modifies this
      ensures Valid() && i <= |old(receivers)| && Followable(old(s))
      ensures t in pcs && (pcs[t].RecvWait? ==> PlacedAt(old(s), old(receivers), t, i))
      ensures s == TriedRecv(old(s), t, want, timeout, i)
    {
      hide InvBut, Inserted, Dequeued;
      Ready(s);
      i := 0;
      if entry == 0 {
        if timeout == 0 {
          TriedRecvInv(s, t, want, timeout, 0);
          pcs := pcs[t := Idle(TimedOut)];
        } else {
          WaitersHavePriorities(s);
          var k := Place(receivers, t);
          i := k;
          TriedRecvInv(s, t, want, timeout, k);
          receivers := Inserted(receivers, k, t);
          pcs := pcs[t := RecvWait(want, timeout)];
        }
        s := TriedRecv(s, t, want, timeout, i);
      } else {
        Dequeue(t, want);
      }
    }

    /** Lines 3136-3151: the first message leaves the queue. */
    method Dequeue(t: Tid, want: nat)
      requires Valid() && t in pcs && (pcs[t].Idle? || pcs[t].RecvWoken?) && entry > 0
      modifies this`head, this`tail, this`entry, this`pcs, this`s
      ensures old(s.qs != [] && s.q != [] && s.qs[0] in s.next && s.entry > 0)
      ensures Valid() && s == Dequeued(old(s), t, want) && t in pcs && pcs[t].RecvCopy?
    {
      hide InvBut;
      Ready(s);
      HeadsAreNodes(s);
      DequeuedInv(s, t, want);
      var msg := head.id;
      head := next[msg];
      if tail == Node(msg) {
        tail := Nil;
      }
      if entry > 0 {
        entry := entry - 1;
      }
      pcs := pcs[t := RecvCopy(msg, want, [])];
      s := Dequeued(s, t, want);
    }

    method RecvResume(t: Tid, elapsed: nat) returns (ghost i: nat)
      requires Valid() && t in pcs && pcs[t].RecvWoken?
      modifies this
      ensures Valid() && i <= |old(receivers)| && Followable(old(s))
      ensures t in pcs && (pcs[t].RecvWait? ==> PlacedAt(old(s), old(receivers), t, i))
      ensures s == TriedRecv(old(s), t, old(pcs)[t].size, TimeLeft(old(pcs)[t].timeout, elapsed), i)
    {
      hide InvBut, TriedRecv;
      i := TryRecv(t, pcs[t].size, TimeLeft(pcs[t].timeout, elapsed));
    }

    /** One byte of line 3157. */
    method CopyByteOut(t: Tid)
      requires Valid() && t in pcs && pcs[t].RecvCopy? && |pcs[t].got| < size && |pcs[t].got| < pcs[t].size
      modifies this`pcs, this`s
      ensures Valid() && Can(old(s), CopyOut(t)) && Does(old(s), CopyOut(t), s)
    {
      hide InvBut;
      CopiedOutInv(s, t);
      var pc := pcs[t];
      pcs := pcs[t := pc.(got := pc.got + [data[pc.node][|pc.got|]])];
      s := CopiedOut(s, t);
    }

    /** Lines 3157-3183, reached when min(size, msg_size) bytes are copied; the caller gets the message it took. */
    method RecvFinish(t: Tid)
      requires Valid() && t in pcs && pcs[t].RecvCopy?
      requires |pcs[t].got| == if pcs[t].size > size then size else pcs[t].size
      modifies this
      ensures Valid() && CanWakeSender(Freed(old(s), t)) && s == WokeSender(Freed(old(s), t))
      ensures t in old(s).taken && t in pcs && pcs[t] == Idle(Received(old(pcs)[t].got))
      ensures var got, m := old(pcs)[t].got, old(s).taken[t].body; if |got| <= |m| then got <= m else m <= got
    {
      hide InvBut;
      CopiedIsTaken(s, t);
      FreedInv(s, t);
      var msg := pcs[t].node;
      next := next[msg := free];
      free := Node(msg);
      pcs := pcs[t := Idle(Received(pcs[t].got))];
      s := Freed(s, t);
      ResumeSender();
    }

    /** _ipc_list_resume on the senders. */
    method ResumeSender()
      requires |s.fs| > 0 && InvBut(s, |s.qs|, |s.fs| - 1) && Matches()
      modifies this`senders, this`pcs, this`s
      ensures Valid() && CanWakeSender(old(s)) && s == WokeSender(old(s))
    {
      hide InvBut;
      WokeSenderInv(s);
      if senders != [] {
        var r := senders[0];
        senders := senders[1..];
        pcs := pcs[r := SendWoken(pcs[r].buf, pcs[r].timeout)];
      }
      s := WokeSender(s);
    }

    // ---- timers and reset --------------------------------------------------------------------------

    /** rt_thread_timeout of the receiver at place `i`. */
    method ReceiverTimeout(i: nat)
      requires Valid() && i < |receivers|
      modifies this`receivers, this`pcs, this`s
      ensures Valid() && s == DismissedReceiver(old(s), i, TimedOut)
    {
      hide InvBut;
      DismissedReceiverInv(s, i, TimedOut);
      pcs := pcs[receivers[i] := Idle(TimedOut)];
      receivers := Removed(receivers, i);
      s := DismissedReceiver(s, i, TimedOut);
    }

    method SenderTimeout(i: nat)
      requires Valid() && i < |senders|
      modifies this`senders, this`pcs, this`s
      ensures Valid() && s == DismissedSender(old(s), i, TimedOut)
    {
      hide InvBut;
      DismissedSenderInv(s, i, TimedOut);
      pcs := pcs[senders[i] := Idle(TimedOut)];
      senders := Removed(senders, i);
      s := DismissedSender(s, i, TimedOut);
    }

    /** _ipc_list_resume_all on the receivers. */
    method ResumeAllReceivers()
      requires Valid()
      modifies this`receivers, this`pcs, this`s
      ensures Valid() && receivers == [] && s == DismissedReceivers(old(s))
    {
      hide InvBut;
      while receivers != []
        invariant Valid() && DismissedReceivers(s) == DismissedReceivers(old(s))
        decreases |receivers|
      {
        DismissedReceiverInv(s, 0, Failed);
        pcs := pcs[receivers[0] := Idle(Failed)];
        receivers := Removed(receivers, 0);
        s := DismissedReceiver(s, 0, Failed);
      }
    }

    method ResumeAllSenders()
      requires Valid() && receivers == []
      modifies this`senders, this`pcs, this`s
      ensures Valid() && senders == [] && s == DismissedSenders(old(s))
    {
      hide InvBut;
      while senders != []
        invariant Valid() && DismissedSenders(s) == DismissedSenders(old(s))
        decreases |senders|
      {
        DismissedSenderInv(s, 0, Failed);
        pcs := pcs[senders[0] := Idle(Failed)];
        senders := Removed(senders, 0);
        s := DismissedSender(s, 0, Failed);
      }
    }

    /** Lines 3220-3238: the queued nodes go to the free list, entry is cleared at the end. */
    method ReleaseAll()
      requires Valid() && receivers == [] && senders == []
      modifies this`next, this`head, this`tail, this`free, this`entry, this`s
      ensures Valid() && s == DroppedAll(old(s))
    {
      hide InvBut;
      while head != Nil
        invariant Inv(s) && s.receivers == [] && s.senders == []
        invariant MatchesButEntry()
        invariant DroppedAll(s) == DroppedAll(old(s))
        decreases |s.qs|
      {
        HeadsAreNodes(s);
        DropHead();
      }
      HeadsAreNodes(s);
      QueueLength(s);
      entry := 0;
    }

    /** rt_mq_control with RT_IPC_CMD_RESET. */
    method Control()
      requires Valid()
      modifies this
      ensures Valid() && s == Reset(old(s))
      ensures s.q == [] && entry == 0 && receivers == [] && senders == []
    {
      hide InvBut, DismissedReceivers, DismissedSenders, DroppedAll;
      ResetInv(s);
      DismissedReceiversInv(s);
      ResumeAllReceivers();
      DismissedSendersInv(s);
      ResumeAllSenders();
      ReleaseAll();
    }
  }

  lemma NoNodes()
    ensures ListOf(map[], Nil, [])
  {}

  /** The list heads are the first nodes of the lists. */
  lemma HeadsAreNodes(s: State)
    requires Inv(s)
    ensures s.free == (if s.fs == [] then Nil else Node(s.fs[0]))
    ensures s.head == (if s.qs == [] then Nil else Node(s.qs[0]))
  {}

  lemma TailInNext(s: State)
    requires Inv(s)
    ensures s.tail.Node? ==> s.tail.id in s.next
  {}

  lemma WaitersHavePriorities(s: State)
    requires Inv(s)
    ensures forall j :: 0 <= j < |s.receivers| ==> s.receivers[j] in s.prio
    ensures forall j :: 0 <= j < |s.senders| ==> s.senders[j] in s.prio
    ensures forall t :: t in s.pcs ==> t in s.prio
  {}
}
