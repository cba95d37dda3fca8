/** The steps of the process manager: forking, ending and waiting keep every
    promise of the message system and of the protocol. */
module SystemManager {
  import opened IpcState
  import opened IpcGraph
  import opened System
  import opened SystemInv
  import opened SystemCalls

  /** Writing into the table keeps the message system sound when it leaves the
      blocked senders alone and makes nobody accept a message already queued. */
  lemma EditKeepsInv(k: State, t: State)
    requires Inv(k) && Shaped(t) && |t.procs| == |k.procs| && t.queues == k.queues && t.ready == k.ready
    requires forall p: nat :: p < |k.procs| && (k.procs[p].flags.sending || t.procs[p].flags.sending) ==>
               t.procs[p] == k.procs[p]
    requires forall p: nat :: p < |k.procs| ==> SlotOk(|k.procs|, p, t.procs[p])
    requires forall p: nat, d: nat :: Sends(k.procs, p, d) && Accepts(t.procs, d, p) ==> Accepts(k.procs, d, p)
    requires Runnable(t.procs, t.ready)
    ensures Inv(t)
  {
    FewerSends(k.procs, t.procs);
    forall d: nat, p: nat | d < |k.procs| ensures p in t.queues[d] <==> Sends(t.procs, p, d) {
      assert p in k.queues[d] <==> Sends(k.procs, p, d);
    }
    forall p: nat, d: nat | Sends(t.procs, p, d) ensures !Accepts(t.procs, d, p) {
      assert Sends(k.procs, p, d);
    }
  }

  function SysOf(pr: Prepared): Sys {
    Sys(pr.k, pr.pc, pr.story)
  }

  /** The process manager is about to pay a debt, or has made a change of its own. */
  ghost predicate Settles(pr: Prepared) {
    && SysShaped(SysOf(pr)) && Inv(pr.k) && pr.k.ready == TASK_MM && pr.k.procs[TASK_MM].flags == READY
    && match pr.call
       case Send(d, m) =>
         && m != 0 && (pr.pc[TASK_MM].ReplyTo? ==> Load(pr.k.mem[TASK_MM], BUFFER).pid == d)
         && OwesOneMore(SysOf(pr), TASK_MM, d, Debts(SysOf(pr), TASK_SYS), Debts(SysOf(pr), TASK_MM) + {d})
       case NoCall => Protocol(SysOf(pr))
       case Receive(_, _) => false
  }

  /** The process manager runs. */
  ghost predicate AtWork(s: Sys) {
    SysInv(s) && s.k.ready == TASK_MM && s.k.procs[TASK_MM].flags == READY
  }

  /** The process manager holds the request of `d`. */
  ghost predicate Busy(s: Sys, d: nat) {
    && AtWork(s) && s.pc[TASK_MM] == Handle && INIT <= d < |s.k.procs| && Load(s.k.mem[TASK_MM], BUFFER).source == d
  }

  /** A change of status bits and parents of one client. */
  ghost predicate Restyled(k: State, t: State, c: nat)
    requires Shaped(k) && Shaped(t)
  {
    && |t.procs| == |k.procs| && t.queues == k.queues && t.ready == k.ready && t.mem == k.mem && c < |k.procs|
    && t.procs == k.procs[c := t.procs[c]]
    && (t.procs[c].flags.receiving ==>
          k.procs[c].flags.receiving && t.procs[c].recvFrom == k.procs[c].recvFrom)
    && SlotOk(|k.procs|, c, t.procs[c])
    && (k.procs[c].flags.sending || t.procs[c].flags.sending ==>
          t.procs[c] == k.procs[c].(parent := t.procs[c].parent))
  }

  lemma RestyleKeepsInv(k: State, t: State, c: nat)
    requires Inv(k) && Shaped(t) && Restyled(k, t, c) && c != k.ready
    ensures Inv(t)
  {
    FewerSends(k.procs, t.procs);
    forall d: nat, p: nat | d < |k.procs| ensures p in t.queues[d] <==> Sends(t.procs, p, d) {
      assert p in k.queues[d] <==> Sends(k.procs, p, d);
    }
    forall p: nat, d: nat | Sends(t.procs, p, d) ensures !Accepts(t.procs, d, p) {
      assert Sends(k.procs, p, d);
    }
  }

  /** A step of the process manager that touches no client but `x` and `y`. */
  ghost predicate Touches(s: Sys, t: Sys, x: nat, y: nat)
    requires SysShaped(s) && SysShaped(t)
  {
    && |t.k.procs| == |s.k.procs| && t.k.procs[TASK_MM] == s.k.procs[TASK_MM]
    && (forall c: nat :: c < |s.k.procs| && c != x && c != y && c != TASK_MM ==>
          t.k.procs[c] == s.k.procs[c] && t.pc[c] == s.pc[c] && t.k.mem[c] == s.k.mem[c])
  }

  /** All others stay in step with the servers. */
  lemma OthersStay(s: Sys, t: Sys, x: nat, y: nat, mmDebts: set<int>)
    requires SysShaped(s) && SysShaped(t) && Protocol(s) && Touches(s, t, x, y) && x >= INIT && y >= INIT
    requires forall z: int :: z != x && z != y ==>
               (z in mmDebts <==> z in Debts(s, TASK_MM)) && (EndsAt(t.pc[TASK_MM], z) <==> EndsAt(s.pc[TASK_MM], z))
    ensures Debts(t, TASK_SYS) == Debts(s, TASK_SYS)
    ensures forall c: nat :: INIT <= c < |s.k.procs| && c != x && c != y ==>
              ClientOk(t, c, Debts(t, TASK_SYS), mmDebts)
    ensures forall c: nat :: c < |s.k.procs| && c != x && c != y ==> ParentOk(t, c)
  {
    forall c: nat | INIT <= c < |s.k.procs| && c != x && c != y ensures ClientOk(t, c, Debts(t, TASK_SYS), mmDebts) {
      assert ClientOk(s, c, Debts(s, TASK_SYS), Debts(s, TASK_MM));
      ClientStill(s, t, c, Debts(s, TASK_SYS), Debts(s, TASK_MM), Debts(t, TASK_SYS), mmDebts);
    }
    forall c: nat | c < |s.k.procs| && c != x && c != y ensures ParentOk(t, c) {
      assert ParentOk(s, c);
    }
  }

  /** The protocol after a step, from what it does to `x` and `y`. */
  lemma StillInStep(s: Sys, t: Sys, x: nat, y: nat)
    requires SysShaped(s) && SysShaped(t) && Protocol(s) && Touches(s, t, x, y)
    requires INIT <= x < |s.k.procs| && INIT <= y < |s.k.procs|
    requires s.k.procs[TASK_MM].flags == READY && t.pc[TASK_MM] != Handle && ManagerOk(t)
    requires forall z: int :: z != x && z != y ==>
               (z in Debts(t, TASK_MM) <==> z in Debts(s, TASK_MM))
               && (EndsAt(t.pc[TASK_MM], z) <==> EndsAt(s.pc[TASK_MM], z))
    requires ClientOk(t, x, Debts(s, TASK_SYS), Debts(t, TASK_MM)) && ParentOk(t, x)
    requires ClientOk(t, y, Debts(s, TASK_SYS), Debts(t, TASK_MM)) && ParentOk(t, y)
    ensures Protocol(t)
  {
    OthersStay(s, t, x, y, Debts(t, TASK_MM));
    if t.k.mem[TASK_SYS] == s.k.mem[TASK_SYS] {
      RequestStill(s, t, x, y);
    }
  }

  /** The request the system task holds can still be handled. */
  lemma RequestStill(s: Sys, t: Sys, x: nat, y: nat)
    requires SysShaped(s) && SysShaped(t) && Touches(s, t, x, y) && x >= INIT && y >= INIT && ServerOk(s, TASK_SYS)
    ensures ServerOk(t, TASK_SYS)
  {
  }

  // ---- Messages

  /** Sending a message built in the manager's own memory pays one debt. */
  lemma ReplySettles(s: Sys, at: Ptr, m: Message, d: nat, next: Pc, story: seq<Event>)
    requires AtWork(s) && INIT <= d < |s.k.procs| && at != 0 && CanSend(next)
    requires var t := SysOf(Reply(s, at, m, d, next, story));
             && ManagerOk(t) && Debts(s, TASK_MM) == Debts(t, TASK_MM) + {d as int} && d !in Debts(t, TASK_MM)
             && (next.ReplyTo? ==> Load(t.k.mem[TASK_MM], BUFFER).pid == d)
    requires forall z: int :: EndsAt(next, z) <==> EndsAt(s.pc[TASK_MM], z)
    ensures Settles(Reply(s, at, m, d, next, story))
  {
    var t := SysOf(Reply(s, at, m, d, next, story));
    EditKeepsInv(s.k, t.k);
    var mmDebts := Debts(t, TASK_MM) + {d as int};
    forall c: nat | INIT <= c < |s.k.procs| ensures ClientOk(t, c, Debts(t, TASK_SYS), mmDebts) {
      assert ClientOk(s, c, Debts(s, TASK_SYS), Debts(s, TASK_MM));
      ClientStill(s, t, c, Debts(s, TASK_SYS), Debts(s, TASK_MM), Debts(t, TASK_SYS), mmDebts);
    }
    forall c: nat | c < |s.k.procs| ensures ParentOk(t, c) {
      assert ParentOk(s, c);
    }
    RequestStill(s, t, INIT, INIT);
  }

  // ---- fork

  lemma SomeMember(q: seq<nat>)
    requires q != []
    ensures exists x: nat :: x in q
  {
    assert q[0] in q;
  }

  /** Nobody sends to a free slot, nor to a client whose request the process
      manager holds. */
  lemma NobodySendsTo(s: Sys, c: nat)
    requires SysInv(s) && s.k.procs[TASK_MM].flags == READY && INIT <= c < |s.k.procs|
    requires s.k.procs[c].flags.free || c in Debts(s, TASK_MM)
    ensures forall p: nat :: !Sends(s.k.procs, p, c)
    ensures s.k.queues[c] == []
  {
    assert ClientOk(s, c, Debts(s, TASK_SYS), Debts(s, TASK_MM));
    forall p: nat ensures !Sends(s.k.procs, p, c) {
      if p < |s.k.procs| && p >= INIT {
        assert ClientOk(s, p, Debts(s, TASK_SYS), Debts(s, TASK_MM));
      }
    }
    if s.k.queues[c] != [] {
      SomeMember(s.k.queues[c]);
    }
  }

  /** The slot found is one of those that are never filled at the start. */
  lemma FreeIsForked(s: Sys)
    requires SysInv(s)
    ensures FirstFree(s.k.procs, 0) >= FIRST_FORKED
  {
    var c := FirstFree(s.k.procs, 0);
    if c < |s.k.procs| {
      assert ParentOk(s, c);
    }
  }

  /** The table with the child in it is sound. */
  lemma ForkKeepsInv(s: Sys, src: nat)
    requires Busy(s, src) && FirstFree(s.k.procs, 0) < |s.k.procs|
    ensures Inv(Fork(s, src).k)
  {
    var child := FirstFree(s.k.procs, 0);
    var k := Fork(s, src).k;
    FreeIsForked(s);
    assert ClientOk(s, src, Debts(s, TASK_SYS), Debts(s, TASK_MM));
    NobodySendsTo(s, child);
    forall p: nat, d: nat | Sends(s.k.procs, p, d) && Accepts(k.procs, d, p) ensures Accepts(s.k.procs, d, p) {
      assert d != child;
    }
    EditKeepsInv(s.k, k);
  }

  /** Copying the whole record of a parent into a free slot. */
  lemma ForkSettles(s: Sys, src: nat)
    requires Busy(s, src)
    ensures Settles(Fork(s, src))
  {
    if FirstFree(s.k.procs, 0) == |s.k.procs| {
      assert Debts(s, TASK_MM) == {src as int};
      ReplySettles(s, BUFFER, Load(s.k.mem[TASK_MM], BUFFER).(retval := -1, kind := SYSCALL_RET), src, Serve, s.story);
    } else {
      FreeIsForked(s);
      ForkKeepsInv(s, src);
      ChildInStep(s, src, SysOf(Fork(s, src)), FirstFree(s.k.procs, 0));
    }
  }

  lemma ChildInStep(s: Sys, src: nat, t: Sys, child: nat)
    requires Busy(s, src) && FIRST_FORKED <= child < |s.k.procs| && s.k.procs[child].flags.free
    requires SysShaped(t) && t.k == SetProc(s.k, child, s.k.procs[src].(parent := src))
    requires t.pc == s.pc[child := s.pc[src]][TASK_MM := Copying(child, src)]
    ensures Protocol(t)
  {
    assert ClientOk(s, src, Debts(s, TASK_SYS), Debts(s, TASK_MM)) && ParentOk(s, src);
    assert ClientOk(s, child, Debts(s, TASK_SYS), Debts(s, TASK_MM));
    assert Debts(s, TASK_MM) == {src as int} && Debts(t, TASK_MM) == {child as int, src as int};
    assert ClientOk(t, src, Debts(s, TASK_SYS), Debts(t, TASK_MM));
    assert ClientOk(t, child, Debts(s, TASK_SYS), Debts(t, TASK_MM));
    StillInStep(s, t, child, src);
  }

  lemma CopySettles(s: Sys, child: nat, src: nat)
    requires AtWork(s) && s.pc[TASK_MM] == Copying(child, src)
    ensures Settles(CopyMemory(s, child, src))
  {
    var t := SysOf(CopyMemory(s, child, src));
    EditKeepsInv(s.k, t.k);
    assert ClientOk(s, child, Debts(s, TASK_SYS), Debts(s, TASK_MM)) && ParentOk(s, child);
    assert Debts(t, TASK_MM) == Debts(s, TASK_MM);
    assert ClientOk(t, child, Debts(s, TASK_SYS), Debts(t, TASK_MM));
    StillInStep(s, t, child, child);
  }

  lemma StartSettles(s: Sys, child: nat, src: nat)
    requires AtWork(s) && s.pc[TASK_MM] == Start(child, src)
    ensures Settles(ManageRest(Intended, s))
  {
    ReplySettles(s, LOCAL, Message(TASK_MM, SYSCALL_RET, 0, 0), child, ReplyTo(src), s.story);
  }

  lemma ReplyToSettles(s: Sys, c: nat)
    requires AtWork(s) && s.pc[TASK_MM] == ReplyTo(c)
    ensures Settles(ManageRest(Intended, s))
  {
    ReplySettles(s, BUFFER, Load(s.k.mem[TASK_MM], BUFFER).(retval := 0, kind := SYSCALL_RET), c, Serve, s.story);
  }

  // ---- cleanup

  lemma CleanupSettles(s: Sys, child: nat, rest: Rest)
    requires AtWork(s) && s.pc[TASK_MM] == Tell(child, rest)
    ensures Settles(Cleanup(s, child, rest)) && Cleanup(s, child, rest).call.Send?
  {
    var c := s.k.procs[child];
    assert ParentOk(s, child);
    ReplySettles(s, LOCAL, Message(TASK_MM, SYSCALL_RET, c.exitStatus, child), c.parent, Reap(child, rest),
                 s.story + [Reported(child, c.exitStatus, c.parent)]);
  }

  lemma FreeSettles(s: Sys, child: nat, rest: Rest)
    requires AtWork(s) && s.pc[TASK_MM] == Reap(child, rest)
    ensures Settles(Free(s, child, rest))
  {
    var t := SysOf(Free(s, child, rest));
    assert ClientOk(s, child, Debts(s, TASK_SYS), Debts(s, TASK_MM)) && ParentOk(s, child);
    EditKeepsInv(s.k, t.k);
    assert Debts(t, TASK_MM) == {} && Debts(s, TASK_MM) == {child as int};
    assert ClientOk(t, child, Debts(s, TASK_SYS), Debts(t, TASK_MM));
    StillInStep(s, t, child, child);
  }

  // ---- exit

  /** Ending a process whose parent waits. */
  lemma ExitTells(s: Sys, pid: nat, status: int)
    requires Busy(s, pid) && FIRST_FORKED <= pid
    requires 0 <= s.k.procs[pid].parent < |s.k.procs| && s.k.procs[s.k.procs[pid].parent].flags.waiting
    ensures Settles(Exit(Intended, s, pid, status))
  {
    var t := SysOf(Exit(Intended, s, pid, status));
    var q: nat := s.k.procs[pid].parent;
    assert ParentOk(s, pid) && ParentOk(s, q);
    assert ClientOk(s, pid, Debts(s, TASK_SYS), Debts(s, TASK_MM));
    assert ClientOk(s, q, Debts(s, TASK_SYS), Debts(s, TASK_MM));
    EditKeepsInv(s.k, t.k);
    ParentWillBeTold(s, t, pid, q);
  }

  lemma ParentWillBeTold(s: Sys, t: Sys, pid: nat, q: nat)
    requires Busy(s, pid) && FIRST_FORKED <= pid && q == s.k.procs[pid].parent && INIT <= q < |s.k.procs| && q != pid
    requires s.k.procs[q].flags.waiting && SysShaped(t) && Touches(s, t, pid, q)
    requires t.k.procs[pid] == s.k.procs[pid].(exitStatus := t.k.procs[pid].exitStatus)
    requires t.k.procs[q] == s.k.procs[q].(flags := s.k.procs[q].flags.(waiting := false))
    requires t.k.mem == s.k.mem && t.pc == s.pc[TASK_MM := Tell(pid, Orphans(pid, 0))]
    ensures Protocol(t)
  {
    assert ClientOk(s, pid, Debts(s, TASK_SYS), Debts(s, TASK_MM)) && ParentOk(s, pid);
    assert ClientOk(s, q, Debts(s, TASK_SYS), Debts(s, TASK_MM)) && ParentOk(s, q);
    assert Debts(s, TASK_MM) == {pid as int} && Debts(t, TASK_MM) == {pid as int, q as int};
    assert ClientOk(t, pid, Debts(s, TASK_SYS), Debts(t, TASK_MM));
    assert ClientOk(t, q, Debts(s, TASK_SYS), Debts(t, TASK_MM));
    StillInStep(s, t, pid, q);
  }

  /** Ending a process whose parent does not wait: it stays as a zombie. */
  lemma ExitHangs(s: Sys, pid: nat, status: int)
    requires Busy(s, pid) && FIRST_FORKED <= pid
    requires 0 <= s.k.procs[pid].parent < |s.k.procs| && !s.k.procs[s.k.procs[pid].parent].flags.waiting
    ensures Settles(Exit(Intended, s, pid, status))
  {
    var t := SysOf(Exit(Intended, s, pid, status));
    assert ParentOk(s, pid) && ClientOk(s, pid, Debts(s, TASK_SYS), Debts(s, TASK_MM));
    EditKeepsInv(s.k, t.k);
    assert Debts(s, TASK_MM) == {pid as int} && Debts(t, TASK_MM) == {};
    assert ClientOk(t, pid, Debts(s, TASK_SYS), Debts(t, TASK_MM));
    StillInStep(s, t, pid, pid);
  }

  /** One turn of the loop over the orphans. */
  lemma ScanSettles(s: Sys, exiting: nat, i: nat)
    requires AtWork(s) && s.pc[TASK_MM] == Scan(exiting, i)
    ensures Settles(ScanStep(Intended, s, exiting, i))
  {
    var t := SysOf(ScanStep(Intended, s, exiting, i));
    assert ClientOk(s, INIT, Debts(s, TASK_SYS), Debts(s, TASK_MM)) && ParentOk(s, INIT);
    if i >= |s.k.procs| || s.k.procs[i].parent != exiting {
      assert ClientOk(t, INIT, Debts(s, TASK_SYS), Debts(t, TASK_MM)) && ParentOk(t, INIT);
      StillInStep(s, t, INIT, INIT);
    } else {
      AdoptionSettles(s, exiting, i);
    }
  }

  /** The table in which `i` is a child of INIT. */
  function Handed(s: Sys, i: nat): State
    requires SysShaped(s) && i < |s.k.procs|
  {
    SetProc(s.k, i, s.k.procs[i].(parent := INIT))
  }

  lemma AdoptionSettles(s: Sys, exiting: nat, i: nat)
    requires AtWork(s) && s.pc[TASK_MM] == Scan(exiting, i) && i < |s.k.procs| && s.k.procs[i].parent == exiting
    ensures Settles(ScanStep(Intended, s, exiting, i))
  {
    assert ParentOk(s, i) && ParentOk(s, INIT);
    RestyleKeepsInv(s.k, Handed(s, i), i);
    if s.k.procs[INIT].flags.waiting && s.k.procs[i].flags.hanging {
      RestyleInit(s, i);
      AdoptedIsTold(s, SysOf(ScanStep(Intended, s, exiting, i)), exiting, i);
    } else {
      AdoptedIsKept(s, SysOf(ScanStep(Intended, s, exiting, i)), exiting, i);
    }
  }

  lemma RestyleInit(s: Sys, i: nat)
    requires SysInv(s) && FIRST_FORKED <= i < |s.k.procs| && Inv(Handed(s, i)) && s.k.ready == TASK_MM
    requires s.k.procs[INIT].flags.waiting
    ensures Inv(Waiting(Handed(s, i), INIT, false))
  {
    assert ClientOk(s, INIT, Debts(s, TASK_SYS), Debts(s, TASK_MM));
    RestyleKeepsInv(Handed(s, i), Waiting(Handed(s, i), INIT, false), INIT);
  }

  lemma AdoptedIsKept(s: Sys, t: Sys, exiting: nat, i: nat)
    requires AtWork(s) && s.pc[TASK_MM] == Scan(exiting, i) && FIRST_FORKED <= i < |s.k.procs|
    requires SysShaped(t) && t.k == Handed(s, i) && t.pc == s.pc[TASK_MM := Scan(exiting, i + 1)]
    ensures Protocol(t)
  {
    assert ClientOk(s, i, Debts(s, TASK_SYS), Debts(s, TASK_MM)) && ParentOk(s, i);
    assert Debts(t, TASK_MM) == Debts(s, TASK_MM) == {};
    assert ClientOk(t, i, Debts(s, TASK_SYS), Debts(t, TASK_MM));
    StillInStep(s, t, i, i);
  }

  lemma AdoptedIsTold(s: Sys, t: Sys, exiting: nat, i: nat)
    requires AtWork(s) && s.pc[TASK_MM] == Scan(exiting, i) && FIRST_FORKED <= i < |s.k.procs|
    requires s.k.procs[INIT].flags.waiting && s.k.procs[i].flags.hanging
    requires SysShaped(t) && t.k == Waiting(Handed(s, i), INIT, false)
    requires t.pc == s.pc[TASK_MM := Tell(i, Orphans(exiting, i + 1))]
    ensures Protocol(t)
  {
    assert ClientOk(s, i, Debts(s, TASK_SYS), Debts(s, TASK_MM)) && ParentOk(s, i);
    assert ClientOk(s, INIT, Debts(s, TASK_SYS), Debts(s, TASK_MM)) && ParentOk(s, INIT);
    assert Debts(s, TASK_MM) == {} && Debts(t, TASK_MM) == {i as int, INIT as int};
    assert ClientOk(t, i, Debts(s, TASK_SYS), Debts(t, TASK_MM));
    assert ClientOk(t, INIT, Debts(s, TASK_SYS), Debts(t, TASK_MM));
    StillInStep(s, t, i, INIT);
  }

  // ---- wait

  lemma WaitSettles(s: Sys, pid: nat)
    requires Busy(s, pid)
    ensures Settles(Wait(Intended, s, pid))
  {
    var n := |s.k.procs|;
    var z := FirstZombie(Intended, s.k.procs, pid, 0);
    assert ClientOk(s, pid, Debts(s, TASK_SYS), Debts(s, TASK_MM)) && ParentOk(s, pid);
    assert Debts(s, TASK_MM) == {pid as int};
    if z < n {
      WaitTells(s, pid, z);
    } else if HasChild(Intended, s.k.procs, pid) {
      var t := SysOf(Wait(Intended, s, pid));
      EditKeepsInv(s.k, t.k);
      assert Debts(t, TASK_MM) == {};
      assert ClientOk(t, pid, Debts(s, TASK_SYS), Debts(t, TASK_MM));
      StillInStep(s, t, pid, pid);
    } else {
      ReplySettles(s, LOCAL, Message(TASK_MM, SYSCALL_RET, 0, NoTask(n)), pid, Serve, s.story);
    }
  }

  lemma WaitTells(s: Sys, pid: nat, z: nat)
    requires Busy(s, pid) && z < |s.k.procs| && s.k.procs[z].flags.hanging && s.k.procs[z].parent == pid
    ensures Settles(Edits(s, s.k, Tell(z, Done), s.story))
  {
    var t := SysOf(Edits(s, s.k, Tell(z, Done), s.story));
    assert ParentOk(s, z) && ParentOk(s, pid);
    assert ClientOk(s, pid, Debts(s, TASK_SYS), Debts(s, TASK_MM));
    assert ClientOk(s, z, Debts(s, TASK_SYS), Debts(s, TASK_MM));
    assert Debts(s, TASK_MM) == {pid as int} && Debts(t, TASK_MM) == {z as int, pid as int};
    assert ClientOk(t, pid, Debts(s, TASK_SYS), Debts(t, TASK_MM));
    assert ClientOk(t, z, Debts(s, TASK_SYS), Debts(t, TASK_MM));
    StillInStep(s, t, z, pid);
  }

  // ---- exec

  lemma LoadSettles(s: Sys, src: nat, result: int, image: Memory)
    requires Busy(s, src)
    ensures Settles(LoadProgram(s, src, result, image))
  {
    var t := SysOf(LoadProgram(s, src, result, image));
    EditKeepsInv(s.k, t.k);
    assert ClientOk(s, src, Debts(s, TASK_SYS), Debts(s, TASK_MM)) && ParentOk(s, src);
    assert Debts(s, TASK_MM) == {src as int} && Debts(t, TASK_MM) == {src as int};
    assert ClientOk(t, src, Debts(s, TASK_SYS), Debts(t, TASK_MM));
    StillInStep(s, t, src, src);
  }

  lemma EnterSettles(s: Sys, src: nat, result: int)
    requires AtWork(s) && s.pc[TASK_MM] == Loaded(src, result)
    ensures Settles(Enter(Intended, s, src, result))
  {
    var m := Load(s.k.mem[TASK_MM], BUFFER).(retval := result, kind := SYSCALL_RET);
    ReplySettles(s, BUFFER, m, src, Serve, s.story);
  }

  // ---- All steps of the process manager

  /** The request the process manager holds comes from a client and can be handled. */
  lemma HeldIsGood(s: Sys)
    requires SysInv(s) && s.pc[TASK_MM] == Handle && !s.k.procs[TASK_MM].flags.receiving
    ensures var got, n := Load(s.k.mem[TASK_MM], BUFFER), |s.k.procs|;
            && INIT <= got.source < n && got.kind in {FORK, EXIT, WAIT, EXEC}
            && (got.kind == EXIT ==> FIRST_FORKED <= got.source && INIT <= s.k.procs[got.source].parent < n)
  {
    var got := Load(s.k.mem[TASK_MM], BUFFER);
    assert ServerOk(s, TASK_MM);
    assert ParentOk(s, got.source);
    assert ClientOk(s, got.source, Debts(s, TASK_SYS), Debts(s, TASK_MM));
  }

  lemma ManageSettles(s: Sys, r: int, image: Memory)
    requires AtWork(s) && s.pc[TASK_MM] == Handle
    ensures Settles(ManageRequest(Intended, s, r, image))
    ensures Busy(s, Load(s.k.mem[TASK_MM], BUFFER).source)
  {
    var got := Load(s.k.mem[TASK_MM], BUFFER);
    var d: nat := got.source;
    assert Debts(s, TASK_MM) == {d as int};
    if got.kind == FORK {
      ForkSettles(s, d);
    } else if got.kind == EXIT {
      assert ParentOk(s, d) && FIRST_FORKED <= d;
      if s.k.procs[s.k.procs[d].parent].flags.waiting {
        ExitTells(s, d, got.retval);
      } else {
        ExitHangs(s, d, got.retval);
      }
    } else if got.kind == WAIT {
      WaitSettles(s, d);
    } else {
      LoadSettles(s, d, r, image);
    }
  }

  lemma RestSettles(s: Sys)
    requires AtWork(s) && UnderWay(s.pc[TASK_MM])
    ensures Settles(ManageRest(Intended, s))
  {
    match s.pc[TASK_MM]
    case Copying(child, src) => CopySettles(s, child, src);
    case Start(child, src) => StartSettles(s, child, src);
    case ReplyTo(c) => ReplyToSettles(s, c);
    case Tell(child, rest) => CleanupSettles(s, child, rest);
    case Reap(child, rest) => FreeSettles(s, child, rest);
    case Loaded(c, result) => EnterSettles(s, c, result);
    case Scan(exiting, i) => ScanSettles(s, exiting, i);
  }
}
