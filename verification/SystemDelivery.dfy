/** Every step of the system is a step of the kernel whose messages `Delivery`
    logs: what the manager writes into the table, and then one system call. */
module SystemDelivery {
  import opened IpcState
  import opened IpcSteps
  import opened System
  import opened SystemInv
  import opened SystemCalls
  import opened SystemManager
  import opened SystemRuns
  import D = Delivery

  // ---- The manager leaves blocked senders alone

  /** Blocked processes keep what the kernel needs of them. */
  ghost predicate Spares(k: State, t: State) {
    Shaped(k) && Shaped(t) && D.SendersKept(k, t) && D.WaitersKept(k, t)
  }

  /** Writing into the record of a process that is not blocked in a send, or only its parent. */
  lemma SetProcSpares(k: State, p: nat, pr: Proc)
    requires Shaped(k) && p < |k.procs|
    requires k.procs[p].flags.sending || pr.flags.sending ==>
               pr.flags == k.procs[p].flags && pr.sendTo == k.procs[p].sendTo && pr.msg == k.procs[p].msg
    requires pr.flags.receiving ==>
               !k.procs[p].flags.free && k.procs[p].flags.receiving && pr.msg == k.procs[p].msg
               && pr.recvFrom == k.procs[p].recvFrom
    ensures Spares(k, SetProc(k, p, pr))
  {
  }

  /** A process that waits, has ended or has its request with the manager is not
      blocked in a send. */
  lemma AsideIsNotSending(s: Sys, c: nat)
    requires SysShaped(s) && Protocol(s) && INIT <= c < |s.k.procs|
    requires s.k.procs[c].flags.waiting || s.k.procs[c].flags.hanging || c in Debts(s, TASK_MM)
    ensures !s.k.procs[c].flags.sending
  {
    assert ClientOk(s, c, Debts(s, TASK_SYS), Debts(s, TASK_MM));
  }

  lemma ScanSpares(s: Sys, exiting: nat, i: nat)
    requires AtWork(s) && s.pc[TASK_MM] == Scan(exiting, i)
    ensures Spares(s.k, ScanStep(Intended, s, exiting, i).k)
  {
    if i < |s.k.procs| && s.k.procs[i].parent == exiting {
      assert ParentOk(s, i);
      SetProcSpares(s.k, i, s.k.procs[i].(parent := INIT));
      if s.k.procs[INIT].flags.waiting {
        AsideIsNotSending(s, INIT);
      }
    }
  }

  lemma ExitSpares(s: Sys, pid: nat, status: int)
    requires Busy(s, pid) && FIRST_FORKED <= pid && 0 <= s.k.procs[pid].parent < |s.k.procs|
    ensures Spares(s.k, Exit(Intended, s, pid, status).k)
  {
    assert Debts(s, TASK_MM) == {pid as int} && ParentOk(s, pid);
    AsideIsNotSending(s, pid);
    if s.k.procs[s.k.procs[pid].parent].flags.waiting {
      AsideIsNotSending(s, s.k.procs[pid].parent);
    }
  }

  lemma ForkSpares(s: Sys, src: nat)
    requires Busy(s, src)
    ensures Spares(s.k, Fork(s, src).k)
  {
    assert Debts(s, TASK_MM) == {src as int};
    AsideIsNotSending(s, src);
  }

  lemma WaitSpares(s: Sys, pid: nat)
    requires Busy(s, pid)
    ensures Spares(s.k, Wait(Intended, s, pid).k)
  {
    assert Debts(s, TASK_MM) == {pid as int};
    AsideIsNotSending(s, pid);
  }

  lemma ManageSpares(s: Sys, r: int, image: Memory)
    requires AtWork(s) && s.pc[TASK_MM] == Handle
    ensures Spares(s.k, ManageRequest(Intended, s, r, image).k)
  {
    var got := Load(s.k.mem[TASK_MM], BUFFER);
    ManageSettles(s, r, image);
    var d: nat := got.source;
    if got.kind == FORK {
      ForkSpares(s, d);
    } else if got.kind == EXIT {
      assert ParentOk(s, d);
      ExitSpares(s, d, got.retval);
    } else if got.kind == WAIT {
      WaitSpares(s, d);
    } else {
      AsideIsNotSending(s, d);
    }
  }

  lemma RestSpares(s: Sys)
    requires AtWork(s) && UnderWay(s.pc[TASK_MM])
    ensures Spares(s.k, ManageRest(Intended, s).k)
  {
    match s.pc[TASK_MM]
    case Copying(child, src) => AsideIsNotSending(s, child);
    case Reap(child, rest) => AsideIsNotSending(s, child);
    case Scan(exiting, i) => ScanSpares(s, exiting, i);
    case _ =>
  }

  /** Up to its system call, a step of the system leaves blocked senders alone. */
  lemma PrepareSpares(s: Sys, a: Action)
    requires Good(s) && Can(s, a)
    ensures Spares(s.k, Prepare(Intended, s, a).k)
  {
    match a
    case Manage(r, image) => ManageSpares(s, r, image);
    case Resume => RestSpares(s);
    case _ =>
  }

  // ---- The log of a step

  /** The log after a step: the system call, if there is one, is logged. */
  function LogAfter(l: D.Logged, pr: Prepared): D.Logged
    requires Shaped(l.k) && Shaped(pr.k) && D.Sized(l) && |l.k.procs| == |pr.k.procs|
    requires pr.call.Send? ==> pr.call.dest < |pr.k.procs|
  {
    var l := D.Next(l, D.Update(pr.k));
    match pr.call
    case Send(d, m) => D.Next(l, D.Send(d, m))
    case Receive(src, m) => D.Next(l, D.Receive(src, m))
    case NoCall => l
  }

  /** The terminal task makes no system call, so it can run whenever the caller blocks. */
  lemma CallsLeaveTty(s: Sys, a: Action)
    requires Good(s) && Can(s, a) && Prepare(Intended, s, a).call != NoCall
    ensures var k := Prepare(Intended, s, a).k; k.ready != TASK_TTY && Runnable(k.procs, TASK_TTY)
  {
    match a
    case Manage(r, image) => ManageSettles(s, r, image);
    case Resume => RestSettles(s);
    case _ =>
  }

  lemma StepKeepsLog(l: D.Logged, s: Sys, a: Action)
    requires Good(s) && Can(s, a) && l.k == s.k && D.LogOk(l)
    ensures var pr := Prepare(Intended, s, a);
            && |pr.k.procs| == |s.k.procs| && Shaped(pr.k)
            && LogAfter(l, pr).k == Finish(pr).k && D.LogOk(LogAfter(l, pr))
  {
    var pr := Prepare(Intended, s, a);
    StepKeepsGood(s, a);
    PrepareSpares(s, a);
    var mid := D.Next(l, D.Update(pr.k));
    D.StepKeepsLog(l, D.Update(pr.k));
    if pr.call != NoCall {
      CallsLeaveTty(s, a);
      assert OtherRunnable(pr.k, pr.k.ready, TASK_TTY);
      match pr.call
      case Send(d, m) => D.StepKeepsLog(mid, D.Send(d, m));
      case Receive(src, m) => D.StepKeepsLog(mid, D.Receive(src, m));
      case NoCall =>
    }
  }

  // ---- The story tells every send

  /** What the story says of a call: a server that sends answers, a client asks. */
  predicate IsCallEvent(pr: Prepared, e: Event) {
    && pr.call.Send?
    && e == if IsServer(pr.k.ready) then Answered(pr.call.dest, pr.k.ready) else Requested(pr.k.ready, pr.call.dest)
  }

  predicate IsSend(e: Event) {
    e.Answered? || e.Requested?
  }

  /** The step adds at most the event of its call, and in front of it at most one
      event that is no send; a report comes with the message to the parent that
      carries it, a birth with no message. */
  ghost predicate TellsCall(story: seq<Event>, pr: Prepared) {
    || (!pr.call.Send? && pr.story == story)
    || (!pr.call.Send? && exists e: Event :: !IsSend(e) && !e.Reported? && pr.story == story + [e])
    || (pr.call.Send? && exists e: Event :: IsCallEvent(pr, e) && pr.story == story + [e])
    || (exists r: Event, e: Event :: ReportsIn(story, pr, r, e))
  }

  /** The step reports `r`, with the message that carries its number and status. */
  ghost predicate ReportsIn(story: seq<Event>, pr: Prepared, r: Event, e: Event) {
    && r.Reported? && IsCallEvent(pr, e) && pr.k.ready == TASK_MM && pr.story == story + [r] + [e]
    && pr.call == Send(r.to, LOCAL) && TASK_MM < |pr.k.mem|
    && Load(pr.k.mem[TASK_MM], LOCAL) == Message(TASK_MM, SYSCALL_RET, r.status, r.pid)
  }

  lemma ManageTellsCall(s: Sys, r: int, image: Memory)
    requires AtWork(s) && s.pc[TASK_MM] == Handle
    ensures TellsCall(s.story, ManageRequest(Intended, s, r, image))
  {
    var got, pr := Load(s.k.mem[TASK_MM], BUFFER), ManageRequest(Intended, s, r, image);
    ManageSettles(s, r, image);
    var d: nat := got.source;
    if pr.call.Send? {
      assert IsCallEvent(pr, Answered(d, TASK_MM)) && pr.story == s.story + [Answered(d, TASK_MM)];
    } else if got.kind == FORK {
      assert !IsSend(Born(FirstFree(s.k.procs, 0), d));
      assert pr.story == s.story + [Born(FirstFree(s.k.procs, 0), d)];
    } else if got.kind == EXIT {
      assert ParentOk(s, d);
      assert !IsSend(Exited(d, got.retval)) && pr.story == s.story + [Exited(d, got.retval)];
    }
  }

  lemma RestTellsCall(s: Sys)
    requires AtWork(s) && UnderWay(s.pc[TASK_MM])
    ensures TellsCall(s.story, ManageRest(Intended, s))
  {
    var pr := ManageRest(Intended, s);
    match s.pc[TASK_MM]
    case Copying(child, src) =>
    case Start(child, src) => assert IsCallEvent(pr, Answered(child, TASK_MM));
    case ReplyTo(c) => assert IsCallEvent(pr, Answered(c, TASK_MM));
    case Tell(child, rest) =>
      assert ParentOk(s, child);
      var c := s.k.procs[child];
      assert IsCallEvent(pr, Answered(c.parent, TASK_MM)) && Reported(child, c.exitStatus, c.parent).Reported?;
      assert ReportsIn(s.story, pr, Reported(child, c.exitStatus, c.parent), Answered(c.parent, TASK_MM));
    case Reap(child, rest) => assert !IsSend(Freed(child));
    case Loaded(c, result) => assert IsCallEvent(pr, Answered(c, TASK_MM));
    case Scan(exiting, i) => assert i < |s.k.procs| ==> !IsSend(Adopted(i));
  }

  lemma PrepareTellsCall(s: Sys, a: Action)
    requires Good(s) && Can(s, a)
    ensures TellsCall(s.story, Prepare(Intended, s, a))
  {
    var pr := Prepare(Intended, s, a);
    match a
    case Manage(r, image) => ManageTellsCall(s, r, image);
    case Resume => RestTellsCall(s);
    case Ask(sv, m, r) => assert IsCallEvent(pr, Requested(s.k.ready, sv));
    case Answer(ticks) => assert IsCallEvent(pr, Answered(Load(s.k.mem[TASK_SYS], BUFFER).source, TASK_SYS));
    case _ =>
  }
}
