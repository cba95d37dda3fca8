/** What follows when `do_execl` as written finds its caller outside its RECEIVE:
    the process manager is blocked in a send that nobody will ever receive. */
module SystemExec {
  import opened IpcState
  import opened IpcGraph
  import opened IpcSteps
  import opened System
  import opened SystemInv
  import opened SystemCalls
  import opened SystemManager
  import opened SystemSafety
  import opened SystemRuns
  import opened SystemTheorems
  import opened SystemAsWritten

  // ---- An exec that finds its caller receiving

  /** The caller goes on in the new program: it runs, in the memory the program
      was loaded into, with the answer in the buffer it waited with. */
  lemma ExecIsExact(s: Sys, c: nat, result: int)
    requires Good(s) && AtWork(s) && s.pc[TASK_MM] == Loaded(c, result) && s.k.procs[c].flags.receiving
    ensures var t := Finish(Enter(AsWritten, s, c, result));
            && t == Finish(Enter(Intended, s, c, result)) && Good(t)
            && t.pc[c] == User && Runnable(t.k.procs, c) && t.pc[TASK_MM] == Serve && Runnable(t.k.procs, TASK_MM)
            && t.k.mem[c] == s.k.mem[c][s.k.procs[c].msg := Load(t.k.mem[TASK_MM], BUFFER)]
            && Load(t.k.mem[TASK_MM], BUFFER).source == TASK_MM && Load(t.k.mem[TASK_MM], BUFFER).kind == SYSCALL_RET
            && Load(t.k.mem[TASK_MM], BUFFER).retval == result
  {
    ExecAsWritten(s, c, result);
    assert ClientOk(s, c, Debts(s, TASK_SYS), Debts(s, TASK_MM));
    assert Accepts(s.k.procs, c, TASK_MM);
  }

  // ---- An exec that does not

  /** The process manager is blocked in a send to `c`, which is in no call to it. */
  ghost predicate Stuck(s: Sys, c: nat) {
    && SysShaped(s) && Inv(s.k) && s.k.procs[TASK_TTY].flags == READY && s.pc[TASK_TTY] == User
    && INIT <= c < |s.k.procs| && Sends(s.k.procs, TASK_MM, c)
    && (s.pc[c] == User || (s.pc[c].Asked? && s.pc[c].server == TASK_SYS))
  }

  lemma ExecSticks(s: Sys, c: nat, result: int)
    requires Good(s) && AtWork(s) && s.pc[TASK_MM] == Loaded(c, result) && !s.k.procs[c].flags.receiving
    ensures CallSafe(Enter(AsWritten, s, c, result)) && Stuck(Finish(Enter(AsWritten, s, c, result)), c)
  {
    StepKeepsGood(s, Resume);
    ExecAsWritten(s, c, result);
    var pr, meant := Enter(AsWritten, s, c, result), Enter(Intended, s, c, result);
    assert pr.k == meant.k && pr.call == meant.call;
    assert CallSafe(meant) && Inv(Finish(meant).k);
  }

  /** A request of `c` to the process manager meets the deadlock test, and the panic behind it. */
  lemma AskPanics(s: Sys, c: nat, m: Ptr, r: Message)
    requires Stuck(s, c) && Can(s, Ask(TASK_MM, m, r)) && s.k.ready == c
    ensures Reaches(Prepare(AsWritten, s, Ask(TASK_MM, m, r)).k.procs, TASK_MM, c)
    ensures !CallSafe(Prepare(AsWritten, s, Ask(TASK_MM, m, r)))
  {
    ReachesStep(s.k.procs, TASK_MM, c);
  }

  lemma StuckIsIdle(s: Sys, c: nat, a: Action)
    requires Stuck(s, c) && Can(s, a)
    ensures !a.Manage? && !a.Resume? && s.k.ready != TASK_MM
  {
  }

  /** A call that is neither `c` taking a message of the process manager nor one
      of the process manager itself leaves it blocked. */
  lemma CallLeavesBlocked(k: State, call: Call, c: nat)
    requires Inv(k) && TASK_MM < |k.procs| && Sends(k.procs, TASK_MM, c) && k.ready != TASK_MM && k.ready != TASK_TTY
    requires k.procs[TASK_TTY].flags == READY && (call.Send? ==> call.dest < |k.procs|)
    requires call.Receive? ==> k.ready != c || (call.src != TASK_MM && call.src != Any(|k.procs|))
    ensures Sends(Perform(k, call).procs, TASK_MM, c) && Perform(k, call).procs[TASK_TTY].flags == READY
  {
    if call.Receive? && |k.queues[k.ready]| > 0 {
      assert k.queues[k.ready][0] in k.queues[k.ready];
    }
  }

  /** Whatever happens, short of a call that meets a failing assert or the panic,
      it stays so. */
  lemma StuckStays(s: Sys, c: nat, a: Action)
    requires Stuck(s, c) && Can(s, a) && CallSafe(Prepare(AsWritten, s, a))
    ensures Stuck(Finish(Prepare(AsWritten, s, a)), c)
  {
    StuckIsIdle(s, c, a);
    var pr := Prepare(AsWritten, s, a);
    CallKeepsInv(pr);
    if a.Ask? && s.k.ready == c && a.server == TASK_MM {
      AskPanics(s, c, a.m, a.request);
    }
    if pr.call != NoCall {
      CallLeavesBlocked(pr.k, pr.call, c);
    }
  }

  /** Every call from the `i`-th to the `j`-th step meets the asserts and no deadlock. */
  ghost predicate SafeBetween(run: seq<Sys>, acts: seq<Action>, i: nat, j: nat)
    requires |run| == |acts| + 1 && j <= |acts|
  {
    forall k: nat :: i <= k < j ==>
      SysShaped(run[k]) && Can(run[k], acts[k]) && CallSafe(Prepare(AsWritten, run[k], acts[k]))
  }

  lemma {:induction false} StuckForEver(run: seq<Sys>, acts: seq<Action>, i: nat, j: nat, c: nat)
    requires RunAsWritten(run, acts) && i <= j <= |acts| && Stuck(run[i], c) && SafeBetween(run, acts, i, j)
    ensures Stuck(run[j], c)
    decreases j - i
  {
    if i < j {
      StuckForEver(run, acts, i, j - 1, c);
      assert Follows(run, acts, j - 1);
      StuckStays(run[j - 1], c, acts[j - 1]);
    }
  }

  lemma SticksAt(run: seq<Sys>, acts: seq<Action>, i: nat)
    requires |run| == |acts| + 1 && i < |acts| && Good(run[i]) && Follows(run, acts, i)
    requires acts[i] == Resume && run[i].pc[TASK_MM].Loaded? && !StaysOnCourse(run[i], Resume)
    ensures Stuck(run[i + 1], run[i].pc[TASK_MM].client)
  {
    ExecSticks(run[i], run[i].pc[TASK_MM].client, run[i].pc[TASK_MM].result);
  }

  /** A run of the code as written that is on course up to an exec whose caller
      does not receive yet: from there on, as long as no call fails, the process
      manager takes no step, whatever the others do. */
  lemma ExecEndsManager(run: seq<Sys>, acts: seq<Action>, i: nat, j: nat)
    requires RunAsWritten(run, acts) && i < j < |acts| && OnCourse(run, acts, i) && Follows(run, acts, i)
    requires acts[i] == Resume && run[i].pc[TASK_MM].Loaded? && !StaysOnCourse(run[i], Resume)
    requires SafeBetween(run, acts, i + 1, j)
    ensures Sends(run[j].k.procs, TASK_MM, run[i].pc[TASK_MM].client)
    ensures !acts[j].Manage? && !acts[j].Resume?
  {
    RunsAsWritten(run, acts, i);
    var c := run[i].pc[TASK_MM].client;
    SticksAt(run, acts, i);
    StuckForEver(run, acts, i + 1, j, c);
    assert Follows(run, acts, j);
    StuckIsIdle(run[j], c, acts[j]);
  }
}
