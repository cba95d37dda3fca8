/** Every system call keeps the invariant of the message system. */
module IpcSteps {
  import opened IpcState
  import opened IpcGraph
  import opened IpcSchedule

  /** Removing a queued process leaves the others in their order, those before
      it where they were and those behind it one place nearer the front. */
  lemma {:induction false} WithoutAt(q: seq<nat>, i: nat)
    requires Distinct(q) && i < |q|
    ensures Without(q, q[i]) == q[..i] + q[i + 1..]
  {
    if i > 0 {
      WithoutAt(q[1..], i - 1);
    }
  }

  lemma WithoutDrops(q: seq<nat>, x: nat)
    requires Distinct(q) && x in q
    ensures Distinct(Without(q, x))
    ensures forall y :: y in Without(q, x) <==> y in q && y != x
    ensures |Without(q, x)| == |q| - 1
  {
    var i :| 0 <= i < |q| && q[i] == x;
    WithoutAt(q, i);
    forall y | y in q && y != x ensures y in q[..i] + q[i + 1..] {
      var j :| 0 <= j < |q| && q[j] == y;
      assert y in if j < i then q[..i] else q[i + 1..];
    }
  }

  lemma StampKeepsInv(s: State, p: nat, m: Ptr)
    requires Inv(s) && p < |s.procs|
    ensures Inv(Stamp(s, p, m))
  {
  }

  /** What a call of `msg_send` must meet: the asserts at its entry, and a
      negative answer of the deadlock test. */
  ghost predicate MaySend(s: State, p: nat, d: nat, m: Ptr) {
    Calls(s, p) && d < |s.procs| && d != p && m != 0 && !Reaches(s.procs, d, p)
  }

  ghost predicate OtherRunnable(s: State, p: nat, q: nat) {
    q != p && Runnable(s.procs, q)
  }

  lemma SendDeliversKeepsInv(s: State, p: nat, d: nat, m: Ptr)
    requires MaySend(s, p, d, m) && Accepts(s.procs, d, p)
    ensures Inv(MsgSend(s, p, d, m))
  {
    var s' := MsgSend(s, p, d, m);
    FewerSends(s.procs, s'.procs);
    forall e: nat, x: nat | e < |s.procs|
      ensures x in s'.queues[e] <==> Sends(s'.procs, x, e)
    {
      assert x in s.queues[e] <==> Sends(s.procs, x, e);
    }
    forall x: nat, e: nat | Sends(s'.procs, x, e) ensures !Accepts(s'.procs, e, x) {
      assert Sends(s.procs, x, e);
    }
  }

  lemma SendBlocksKeepsInv(s: State, p: nat, d: nat, m: Ptr, q: nat)
    requires MaySend(s, p, d, m) && !Accepts(s.procs, d, p) && OtherRunnable(s, p, q)
    ensures Inv(MsgSend(s, p, d, m))
    ensures MsgSend(s, p, d, m).procs[p].flags == SENDING
  {
    var s' := MsgSend(s, p, d, m);
    OneMoreSend(s.procs, s'.procs, p, d);
    assert Runnable(s'.procs, q);
    NextReadyIsNext(s'.procs, s.ready, q);
    assert p !in s.queues[d];
    forall e: nat, x: nat | e < |s.procs|
      ensures x in s'.queues[e] <==> Sends(s'.procs, x, e)
    {
      assert x in s.queues[e] <==> Sends(s.procs, x, e);
    }
    forall x: nat, e: nat | Sends(s'.procs, x, e) ensures !Accepts(s'.procs, e, x) {
      if x != p {
        assert Sends(s.procs, x, e);
      }
    }
  }

  /** A send keeps the invariant: queues match flags, the send graph stays
      acyclic and no rendezvous is missed. */
  lemma SendKeepsInv(s: State, p: nat, d: nat, m: Ptr, q: nat)
    requires MaySend(s, p, d, m) && OtherRunnable(s, p, q)
    ensures Inv(SysSend(s, p, d, m))
  {
    StampKeepsInv(s, p, m);
    var t := Stamp(s, p, m);
    if Accepts(t.procs, d, p) {
      SendDeliversKeepsInv(t, p, d, m);
    } else {
      SendBlocksKeepsInv(t, p, d, m, q);
    }
  }

  ghost predicate MayReceive(s: State, p: nat, src: int, m: Ptr) {
    Calls(s, p) && m != 0 && (src == Any(|s.procs|) || (0 <= src < |s.procs| && src != p))
  }

  /** The sender a receive takes is blocked in a send to the receiver, and if
      there is none then nobody it would accept is. */
  lemma PartnerSends(s: State, p: nat, src: int, m: Ptr)
    requires MayReceive(s, p, src, m)
    ensures var from := Partner(s, p, src);
            if from.At? then Sends(s.procs, from.slot, p) && (src == Any(|s.procs|) || from.slot == src)
            else forall x: nat :: Sends(s.procs, x, p) ==> src != Any(|s.procs|) && src != x
  {
    if src == Any(|s.procs|) {
      if |s.queues[p]| > 0 {
        assert s.queues[p][0] in s.queues[p];
      } else {
        forall x: nat ensures !Sends(s.procs, x, p) {
          assert x !in s.queues[p];
        }
      }
    }
  }

  lemma ReceiveTakesKeepsInv(s: State, p: nat, src: int, m: Ptr)
    requires MayReceive(s, p, src, m) && Partner(s, p, src).At?
    ensures Inv(MsgReceive(s, p, src, m))
  {
    PartnerSends(s, p, src, m);
    var from := Partner(s, p, src).slot;
    var s' := MsgReceive(s, p, src, m);
    FewerSends(s.procs, s'.procs);
    WithoutDrops(s.queues[p], from);
    forall e: nat, x: nat | e < |s.procs|
      ensures x in s'.queues[e] <==> Sends(s'.procs, x, e)
    {
      assert x in s.queues[e] <==> Sends(s.procs, x, e);
    }
    forall x: nat, e: nat | Sends(s'.procs, x, e) ensures !Accepts(s'.procs, e, x) {
      assert Sends(s.procs, x, e);
    }
  }

  lemma ReceiveBlocksKeepsInv(s: State, p: nat, src: int, m: Ptr, q: nat)
    requires MayReceive(s, p, src, m) && Partner(s, p, src).Null? && OtherRunnable(s, p, q)
    ensures Inv(MsgReceive(s, p, src, m))
    ensures MsgReceive(s, p, src, m).procs[p].flags == RECEIVING
  {
    PartnerSends(s, p, src, m);
    var s' := MsgReceive(s, p, src, m);
    FewerSends(s.procs, s'.procs);
    assert Runnable(s'.procs, q);
    NextReadyIsNext(s'.procs, s.ready, q);
    forall e: nat, x: nat | e < |s.procs|
      ensures x in s'.queues[e] <==> Sends(s'.procs, x, e)
    {
      assert x in s.queues[e] <==> Sends(s.procs, x, e);
    }
    forall x: nat, e: nat | Sends(s'.procs, x, e) ensures !Accepts(s'.procs, e, x) {
      assert Sends(s.procs, x, e);
    }
  }

  /** A receive keeps the invariant. */
  lemma ReceiveKeepsInv(s: State, p: nat, src: int, m: Ptr, q: nat)
    requires MayReceive(s, p, src, m) && OtherRunnable(s, p, q)
    ensures Inv(SysReceive(s, p, src, m))
  {
    StampKeepsInv(s, p, m);
    var t := Stamp(s, p, m);
    if Partner(t, p, src).At? {
      ReceiveTakesKeepsInv(t, p, src, m);
    } else {
      ReceiveBlocksKeepsInv(t, p, src, m, q);
    }
  }

  /** A clock tick only moves the scheduler. */
  function Tick(s: State): State
    requires Shaped(s)
  {
    s.(ready := NextReady(s.procs, s.ready))
  }

  lemma TickKeepsInv(s: State)
    requires Inv(s)
    ensures Inv(Tick(s))
  {
    NextReadyIsNext(s.procs, s.ready, s.ready);
  }

  // ---- Boot

  lemma BootIsSound(k: State)
    requires Shaped(k) && |k.procs| >= FIRST_FORKED && k.ready == TASK_TTY
    requires forall p: nat :: p < |k.procs| ==> k.procs[p] == BootProc(|k.procs|, p) && k.queues[p] == []
    ensures Inv(k)
  {
    RankedIsAcyclic(k.procs, seq(|k.procs|, _ => 0));
  }
}
