/** The loops of the process manager over the process table, in place, each
    proved to do what the function of the same purpose in `System` says. */
module ProcessManager {
  import opened IpcState
  import opened KernelTable
  import opened System
  import opened SystemManager

  /** Writing a message into the process manager's own memory. */
  method StoreMessage(kn: Kernel, at: Ptr, m: Message)
    requires kn.Linked() && kn.n >= FIRST_FORKED
    modifies kn.memory
    ensures kn.Linked()
    ensures kn.Abs() == Store(old(kn.Abs()), TASK_MM, at, m)
  {
    kn.memory[TASK_MM] := kn.memory[TASK_MM][at := m];
  }

  method ChangeProc(kn: Kernel, p: nat, pr: Proc)
    requires kn.Linked() && p < kn.n
    modifies kn.table
    ensures kn.Linked()
    ensures kn.Abs() == SetProc(old(kn.Abs()), p, pr)
  {
    kn.SetProc(p, pr);
  }

  /** The search for a free slot. */
  method FindFree(kn: Kernel) returns (i: nat)
    requires kn.Linked()
    ensures i == FirstFree(kn.Abs().procs, 0)
  {
    i := 0;
    while i < kn.n
      invariant i <= kn.n
      invariant FirstFree(kn.Abs().procs, 0) == FirstFree(kn.Abs().procs, i)
    {
      if kn.table[i].proc.flags == FREE_SLOT {
        break;
      }
      i := i + 1;
    }
  }

  /** The whole slot of `src`, links and all, is copied into `child`. */
  method CopySlot(kn: Kernel, src: nat, child: nat)
    requires kn.Linked() && src < kn.n && child < kn.n
    requires kn.queues[src] == [] && kn.queues[child] == [] && (forall e: nat :: e < kn.n ==> child !in kn.queues[e])
    modifies kn.table
    ensures kn.Linked()
    ensures kn.Abs() == SetProc(old(kn.Abs()), child, old(kn.table[src].proc).(parent := src))
  {
    ghost var slots := kn.table[..];
    assert Threads(slots, slots[src].qSending, []);
    kn.table[child] := kn.table[src];
    kn.table[child] := kn.table[child].(proc := kn.table[child].proc.(parent := src));
    ghost var slot := slots[src].(proc := slots[src].proc.(parent := src));
    assert kn.table[..] == slots[child := slot];
    ProcsUpdate(slots, child, slot);
    forall e: nat | e < kn.n ensures Threads(kn.table[..], kn.table[e].qSending, kn.queues[e]) {
      assert Threads(slots, slots[e].qSending, kn.queues[e]);
      ThreadsKept(slots, kn.table[..], slots[e].qSending, kn.queues[e]);
    }
  }

  /** `do_fork` up to the copy of the record. */
  method DoFork(kn: Kernel, src: nat, ghost s: Sys) returns (child: nat)
    requires kn.Linked() && kn.Abs() == s.k && kn.n >= FIRST_FORKED && Busy(s, src)
    modifies kn.table, kn.memory
    ensures kn.Linked() && child == FirstFree(s.k.procs, 0)
    ensures kn.Abs() == Fork(s, src).k
  {
    child := FindFree(kn);
    if child == kn.n {
      StoreMessage(kn, BUFFER, Load(kn.memory[TASK_MM], BUFFER).(retval := -1, kind := SYSCALL_RET));
      return;
    }
    FreeIsForked(s);
    NobodySendsTo(s, src);
    NobodySendsTo(s, child);
    QueuesOwnSenders(s.k);
    CopySlot(kn, src, child);
  }

  /** The memory of the parent is copied, and the child's number put into the reply. */
  method FinishFork(kn: Kernel, child: nat, src: nat, ghost s: Sys)
    requires kn.Linked() && kn.n >= FIRST_FORKED && SysShaped(s) && kn.Abs() == s.k && child < kn.n && src < kn.n
    modifies kn.memory
    ensures kn.Linked()
    ensures kn.Abs() == System.CopyMemory(s, child, src).k
  {
    kn.memory[child] := kn.memory[src];
    StoreMessage(kn, BUFFER, Load(kn.memory[TASK_MM], BUFFER).(pid := child));
  }

  /** `cleanup` up to the report, and behind it. */
  method Report(kn: Kernel, child: nat, rest: Rest, ghost s: Sys) returns (to: nat)
    requires kn.Linked() && kn.n >= FIRST_FORKED && SysShaped(s) && kn.Abs() == s.k && child < kn.n
    requires 0 <= s.k.procs[child].parent < kn.n
    modifies kn.memory
    ensures kn.Linked()
    ensures kn.Abs() == Cleanup(s, child, rest).k && Cleanup(s, child, rest).call == Send(to, LOCAL)
  {
    var c := kn.table[child].proc;
    StoreMessage(kn, LOCAL, Message(TASK_MM, SYSCALL_RET, c.exitStatus, child));
    to := c.parent;
  }

  method FreeSlot(kn: Kernel, child: nat, rest: Rest, ghost s: Sys)
    requires kn.Linked() && kn.n >= FIRST_FORKED && SysShaped(s) && kn.Abs() == s.k && child < kn.n
    modifies kn.table
    ensures kn.Linked()
    ensures kn.Abs() == Free(s, child, rest).k
  {
    ChangeProc(kn, child, kn.table[child].proc.(flags := FREE_SLOT));
  }

  method SetWaiting(kn: Kernel, p: nat, on: bool)
    requires kn.Linked() && p < kn.n
    modifies kn.table
    ensures kn.Linked()
    ensures kn.Abs() == Waiting(old(kn.Abs()), p, on)
  {
    var pr := kn.table[p].proc;
    ChangeProc(kn, p, pr.(flags := pr.flags.(waiting := on)));
  }

  /** The turns of the loop of `do_exit` from slot `i` on, up to the next report or to the end. */
  function ScanAll(v: Variant, s: Sys, exiting: nat, i: nat): (pr: Prepared)
    requires SysShaped(s)
    ensures Complete(pr, |s.k.procs|)
    decreases |s.k.procs| - i
  {
    var pr := ScanStep(v, s, exiting, i);
    if i >= |s.k.procs| || pr.pc[TASK_MM].Tell? then pr else ScanAll(v, SysOf(pr), exiting, i + 1)
  }

  /** What is left to do from slot `i` on is its turn, and the rest unless it reports. */
  lemma ScanAllTurn(v: Variant, s: Sys, exiting: nat, i: nat)
    requires SysShaped(s)
    ensures i >= |s.k.procs| ==> ScanAll(v, s, exiting, i).k == s.k && !ScanAll(v, s, exiting, i).pc[TASK_MM].Tell?
    ensures var pr := ScanStep(v, s, exiting, i);
            i < |s.k.procs| ==>
              ScanAll(v, s, exiting, i) == if pr.pc[TASK_MM].Tell? then pr else ScanAll(v, SysOf(pr), exiting, i + 1)
  {
  }

  /** One turn of the loop. */
  method ScanSlot(v: Variant, kn: Kernel, exiting: nat, i: nat, ghost s: Sys) returns (told: bool)
    requires kn.Linked() && kn.n >= FIRST_FORKED && SysShaped(s) && kn.Abs() == s.k && i < kn.n
    modifies kn.table
    ensures kn.Linked()
    ensures kn.Abs() == ScanStep(v, s, exiting, i).k
    ensures told <==> ScanStep(v, s, exiting, i).pc[TASK_MM].Tell?
  {
    told := false;
    if kn.table[i].proc.parent == exiting {
      if v == Intended {
        ChangeProc(kn, i, kn.table[i].proc.(parent := INIT));
      }
      if kn.table[INIT].proc.flags.waiting && kn.table[i].proc.flags.hanging {
        SetWaiting(kn, INIT, false);
        told := true;
      }
    }
  }

  /** The loop of `do_exit`, as long as nothing is to be reported. */
  method ScanSlots(v: Variant, kn: Kernel, exiting: nat, from: nat, ghost s: Sys) returns (told: bool, i: nat)
    requires kn.Linked() && kn.n >= FIRST_FORKED && SysShaped(s) && kn.Abs() == s.k
    modifies kn.table
    ensures kn.Linked()
    ensures kn.Abs() == ScanAll(v, s, exiting, from).k
    ensures told <==> ScanAll(v, s, exiting, from).pc[TASK_MM].Tell?
  {
    i := from;
    told := false;
    ghost var t, whole := s, ScanAll(v, s, exiting, from);
    while i < kn.n
      invariant kn.Linked() && SysShaped(t) && kn.Abs() == t.k && !told
      invariant whole == ScanAll(v, t, exiting, i)
    {
      ScanAllTurn(v, t, exiting, i);
      told := ScanSlot(v, kn, exiting, i, t);
      if told {
        return;
      }
      t := SysOf(ScanStep(v, t, exiting, i));
      i := i + 1;
    }
    ScanAllTurn(v, t, exiting, i);
  }

  /** `do_exit` up to its loop or to the report to the parent. */
  method DoExit(v: Variant, kn: Kernel, pid: nat, status: int, ghost s: Sys) returns (told: bool)
    requires kn.Linked() && kn.n >= FIRST_FORKED && SysShaped(s) && kn.Abs() == s.k
    requires pid < kn.n && 0 <= s.k.procs[pid].parent < kn.n
    modifies kn.table
    ensures kn.Linked()
    ensures kn.Abs() == Exit(v, s, pid, status).k
    ensures told <==> Exit(v, s, pid, status).pc[TASK_MM].Tell?
  {
    var parent: nat := kn.table[pid].proc.parent;
    ChangeProc(kn, pid, kn.table[pid].proc.(exitStatus := status));
    told := kn.table[parent].proc.flags.waiting;
    if told {
      SetWaiting(kn, parent, false);
    } else {
      var marked := if v == Intended then pid else parent;
      var m := kn.table[marked].proc;
      ChangeProc(kn, marked, m.(flags := m.flags.(hanging := true)));
    }
  }

  /** `do_wait`: one loop that counts children and stops at the first zombie. */
  method DoWait(v: Variant, kn: Kernel, pid: nat, ghost s: Sys) returns (zombie: nat, children: nat)
    requires kn.Linked() && kn.n >= FIRST_FORKED && SysShaped(s) && kn.Abs() == s.k && pid < kn.n
    modifies kn.table, kn.memory
    ensures kn.Linked()
    ensures kn.Abs() == Wait(v, s, pid).k && zombie == FirstZombie(v, s.k.procs, pid, 0)
    ensures zombie == kn.n ==> (children > 0 <==> HasChild(v, s.k.procs, pid))
  {
    ghost var procs := s.k.procs;
    zombie := 0;
    children := 0;
    while zombie < kn.n
      invariant zombie <= kn.n && kn.Abs() == s.k && kn.Linked()
      invariant FirstZombie(v, procs, pid, 0) == FirstZombie(v, procs, pid, zombie)
      invariant children > 0 <==> exists c: nat :: c < zombie && c < |procs| && Counts(v, procs, pid, c)
    {
      if kn.table[zombie].proc.parent == pid && (v == Intended ==> !kn.table[zombie].proc.flags.free) {
        assert Counts(v, procs, pid, zombie);
        children := children + 1;
        if kn.table[zombie].proc.flags.hanging {
          return;
        }
      }
      zombie := zombie + 1;
    }
    if children > 0 {
      SetWaiting(kn, pid, true);
    } else {
      StoreMessage(kn, LOCAL, Message(TASK_MM, SYSCALL_RET, 0, NoTask(kn.n)));
    }
  }
}
