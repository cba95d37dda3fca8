/** The process manager as it is written: exactly which of its steps keep what
    the intended ones keep, and that a run is good exactly as long as it is made
    of such steps. */
module SystemAsWritten {
  import opened IpcState
  import opened System
  import opened SystemInv
  import opened SystemManager
  import opened SystemStory
  import opened SystemFamily
  import opened SystemRuns
  import opened SystemTheorems

  /** Nobody has `pid` as its parent, free slots included. */
  ghost predicate NoneNames(procs: seq<Proc>, pid: nat) {
    forall c: nat :: c < |procs| ==> procs[c].parent != pid
  }

  /** What can be told before a step: an exit finds its parent waiting, a wait
      finds a child or no slot that ever was one, the loop of an exit finds no
      child left that is not free, and an exec finds its caller receiving. */
  ghost predicate StaysOnCourse(s: Sys, a: Action)
    requires SysShaped(s)
  {
    var n, procs := |s.k.procs|, s.k.procs;
    match a
    case Manage(_, _) =>
      var got := Load(s.k.mem[TASK_MM], BUFFER);
      0 <= got.source < n ==>
        && (got.kind == EXIT && 0 <= procs[got.source].parent < n ==> procs[procs[got.source].parent].flags.waiting)
        && (got.kind == WAIT ==> HasChild(Intended, procs, got.source) || NoneNames(procs, got.source))
    case Resume =>
      var mm := s.pc[TASK_MM];
      && (mm.Scan? && mm.from < n && procs[mm.from].parent == mm.exiting ==> procs[mm.from].flags.free)
      && (mm.Loaded? && mm.client < n ==> procs[mm.client].flags.receiving)
    case _ => true
  }

  // ---- exit

  /** `do_exit` as written marks the parent where it should mark the child: it
      does what it is meant to do exactly when the parent waits.  Otherwise the
      parent cannot run any more, and nobody owes the child the answer it waits for. */
  lemma ExitAsWritten(s: Sys, pid: nat, status: int)
    requires Good(s) && Busy(s, pid) && FIRST_FORKED <= pid
    ensures var parent := s.k.procs[pid].parent;
            0 <= parent < |s.k.procs| &&
            var pr := Exit(AsWritten, s, pid, status);
            && (pr == Exit(Intended, s, pid, status) <==> s.k.procs[parent].flags.waiting)
            && (!s.k.procs[parent].flags.waiting ==>
                  !Runnable(pr.k.procs, parent) && !pr.k.procs[pid].flags.hanging && !Good(Finish(pr)))
  {
    assert ParentOk(s, pid) && ClientOk(s, pid, Debts(s, TASK_SYS), Debts(s, TASK_MM));
    var parent: nat := s.k.procs[pid].parent;
    if !s.k.procs[parent].flags.waiting {
      var t := Finish(Exit(AsWritten, s, pid, status));
      OwedIsAsking(s, pid);
      assert Debts(t, TASK_MM) == {} && PhaseOf(t.k.procs[pid], t.pc[pid]) == Held(TASK_MM);
      assert !ClientOk(t, pid, Debts(t, TASK_SYS), Debts(t, TASK_MM));
    }
  }

  // ---- The loop over the orphans

  /** Going on to the next slot behind one that is free or no child. */
  lemma PassingIsGood(s: Sys, exiting: nat, i: nat)
    requires Good(s) && AtWork(s) && s.pc[TASK_MM] == Scan(exiting, i) && i < |s.k.procs|
    requires s.k.procs[i].parent != exiting || s.k.procs[i].flags.free
    ensures Good(s.(pc := s.pc[TASK_MM := Scan(exiting, i + 1)]))
  {
    var t := s.(pc := s.pc[TASK_MM := Scan(exiting, i + 1)]);
    assert ClientOk(s, INIT, Debts(s, TASK_SYS), Debts(s, TASK_MM)) && ParentOk(s, INIT);
    assert ClientOk(t, INIT, Debts(s, TASK_SYS), Debts(t, TASK_MM)) && ParentOk(t, INIT);
    StillInStep(s, t, INIT, INIT);
    assert Matches(s, INIT, Answering(s), StageOf(|s.k.procs|, s.story, INIT));
    StillTells(s, t, INIT, INIT, Answering(t));
    PassedOver(s.k.procs, exiting, i);
  }

  /** Leaving a child that is not free with the process that has ended. */
  lemma LeavingIsBad(s: Sys, exiting: nat, i: nat)
    requires Good(s) && AtWork(s) && s.pc[TASK_MM] == Scan(exiting, i) && i < |s.k.procs|
    requires s.k.procs[i].parent == exiting && !s.k.procs[i].flags.free
    ensures !Good(Finish(ScanStep(AsWritten, s, exiting, i)))
  {
    var t := Finish(ScanStep(AsWritten, s, exiting, i));
    assert ParentOk(s, i) && ParentOk(s, INIT);
    if s.k.procs[INIT].flags.waiting && s.k.procs[i].flags.hanging {
      AsideIsAsking(s, INIT);
      assert ClientOk(s, INIT, Debts(s, TASK_SYS), Debts(s, TASK_MM));
      assert Debts(t, TASK_MM) == {i as int, exiting as int};
      assert !ClientOk(t, INIT, Debts(t, TASK_SYS), Debts(t, TASK_MM));
    } else {
      assert IsChild(t.k.procs, i, exiting) && !Alive(s.k.procs, s.pc[TASK_MM], exiting);
      assert !Alive(t.k.procs, t.pc[TASK_MM], exiting);
    }
  }

  /** The loop compares where it should assign: its turn at slot `i` does what it
      is meant to do exactly when the slot is no child, and no harm exactly when
      it is no child or free. */
  lemma ScanAsWritten(s: Sys, exiting: nat, i: nat)
    requires Good(s) && AtWork(s) && s.pc[TASK_MM] == Scan(exiting, i)
    ensures ScanStep(AsWritten, s, exiting, i) == ScanStep(Intended, s, exiting, i)
       <==> (i < |s.k.procs| ==> s.k.procs[i].parent != exiting)
    ensures Good(Finish(ScanStep(AsWritten, s, exiting, i)))
       <==> (i < |s.k.procs| && s.k.procs[i].parent == exiting ==> s.k.procs[i].flags.free)
  {
    StepKeepsGood(s, Resume);
    if i < |s.k.procs| && s.k.procs[i].parent == exiting {
      assert ScanStep(AsWritten, s, exiting, i).k.procs[i].parent == exiting;
      assert ScanStep(Intended, s, exiting, i).k.procs[i].parent == INIT;
      if s.k.procs[i].flags.free {
        assert SlotOk(|s.k.procs|, i, s.k.procs[i]);
        PassingIsGood(s, exiting, i);
        assert Finish(ScanStep(AsWritten, s, exiting, i)) == s.(pc := s.pc[TASK_MM := Scan(exiting, i + 1)]);
      } else {
        LeavingIsBad(s, exiting, i);
      }
    }
  }

  // ---- wait

  lemma {:induction false} SameZombie(procs: seq<Proc>, pid: nat, i: nat)
    requires i <= |procs|
    requires forall c: nat :: c < |procs| && procs[c].flags.free ==> !procs[c].flags.hanging
    ensures FirstZombie(AsWritten, procs, pid, i) == FirstZombie(Intended, procs, pid, i)
    decreases |procs| - i
  {
    if i < |procs| {
      SameZombie(procs, pid, i + 1);
    }
  }

  /** `do_wait` as written takes a freed slot for a child: it does what it is
      meant to do unless the caller has no child but freed slots still name it,
      and then the caller waits for a child that never ends. */
  lemma WaitAsWritten(s: Sys, pid: nat)
    requires Good(s) && Busy(s, pid)
    ensures Wait(AsWritten, s, pid) == Wait(Intended, s, pid)
       <==> HasChild(Intended, s.k.procs, pid) || NoneNames(s.k.procs, pid)
    ensures Wait(AsWritten, s, pid) != Wait(Intended, s, pid) ==>
              && Wait(AsWritten, s, pid).call == NoCall && Wait(AsWritten, s, pid).k.procs[pid].flags.waiting
              && (forall c: nat :: !IsChild(s.k.procs, c, pid)) && !Good(Finish(Wait(AsWritten, s, pid)))
  {
    forall c: nat | c < |s.k.procs| && s.k.procs[c].flags.free ensures !s.k.procs[c].flags.hanging {
      assert SlotOk(|s.k.procs|, c, s.k.procs[c]);
    }
    SameZombie(s.k.procs, pid, 0);
    forall c: nat | c < |s.k.procs| ensures Counts(AsWritten, s.k.procs, pid, c) <==> s.k.procs[c].parent == pid {
    }
    forall c: nat | IsChild(s.k.procs, c, pid) ensures Counts(Intended, s.k.procs, pid, c) {
    }
    if Wait(AsWritten, s, pid) != Wait(Intended, s, pid) {
      WaitsForNobody(s, pid);
    }
  }

  lemma WaitsForNobody(s: Sys, pid: nat)
    requires Good(s) && Busy(s, pid) && forall c: nat :: !IsChild(s.k.procs, c, pid)
    requires var pr := Wait(AsWritten, s, pid);
             pr == Edits(s, Waiting(s.k, pid, true), Serve, s.story)
    ensures !Good(Finish(Wait(AsWritten, s, pid)))
  {
    var t := Finish(Wait(AsWritten, s, pid));
    forall c: nat ensures !IsChild(t.k.procs, c, pid) {
      assert !IsChild(s.k.procs, c, pid);
    }
    assert !HasLivingChild(t.k.procs, t.pc[TASK_MM], pid);
  }

  // ---- exec

  /** `do_execl` sets the program counter of its caller wherever the caller
      stands: it does what it is meant to do, and no harm, exactly when the caller
      receives.  Otherwise the caller runs in the new program, which does not
      receive, while the process manager is blocked in a send to it. */
  lemma ExecAsWritten(s: Sys, c: nat, result: int)
    requires Good(s) && AtWork(s) && s.pc[TASK_MM] == Loaded(c, result)
    ensures INIT <= c < |s.k.procs|
    ensures Enter(AsWritten, s, c, result) == Enter(Intended, s, c, result) <==> s.k.procs[c].flags.receiving
    ensures Good(Finish(Enter(AsWritten, s, c, result))) <==> s.k.procs[c].flags.receiving
    ensures !s.k.procs[c].flags.receiving ==>
              var t := Finish(Enter(AsWritten, s, c, result));
              t.pc[c] == User && Runnable(t.k.procs, c) && Sends(t.k.procs, TASK_MM, c)
  {
    StepKeepsGood(s, Resume);
    assert ClientOk(s, c, Debts(s, TASK_SYS), Debts(s, TASK_MM));
    if s.k.procs[c].flags.receiving {
      assert s.pc[c := User] == s.pc;
    } else {
      assert s.pc[c].Asked?;
      assert Enter(AsWritten, s, c, result).pc[c] != Enter(Intended, s, c, result).pc[c];
      var t := Finish(Enter(AsWritten, s, c, result));
      assert PhaseOf(t.k.procs[c], t.pc[c]) == Running && c in Debts(t, TASK_MM);
      assert !ClientOk(t, c, Debts(t, TASK_SYS), Debts(t, TASK_MM));
    }
  }

  // ---- Steps and runs

  lemma ManageAsWritten(s: Sys, a: Action)
    requires Good(s) && Can(s, a) && a.Manage?
    ensures Prepare(AsWritten, s, a) == Prepare(Intended, s, a) <==> StaysOnCourse(s, a)
    ensures !StaysOnCourse(s, a) ==> !Good(Finish(Prepare(AsWritten, s, a)))
  {
    var got := Load(s.k.mem[TASK_MM], BUFFER);
    ManageSettles(s, a.execResult, a.image);
    var d: nat := got.source;
    if got.kind == EXIT {
      assert ParentOk(s, d) && FIRST_FORKED <= d;
      ExitAsWritten(s, d, got.retval);
    } else if got.kind == WAIT {
      WaitAsWritten(s, d);
    }
  }

  lemma ResumeAsWritten(s: Sys)
    requires Good(s) && Can(s, Resume)
    ensures Good(Finish(Prepare(AsWritten, s, Resume))) <==> StaysOnCourse(s, Resume)
    ensures StaysOnCourse(s, Resume) ==> CallSafe(Prepare(AsWritten, s, Resume))
  {
    StepKeepsGood(s, Resume);
    if s.pc[TASK_MM].Scan? {
      ScanAsWritten(s, s.pc[TASK_MM].exiting, s.pc[TASK_MM].from);
      assert Prepare(AsWritten, s, Resume).call == NoCall;
    } else if s.pc[TASK_MM].Loaded? {
      ExecAsWritten(s, s.pc[TASK_MM].client, s.pc[TASK_MM].result);
    }
  }

  /** A step of the code as written keeps a state good exactly when it stays on
      course, and then every call it makes meets what the kernel asserts. */
  lemma StepAsWritten(s: Sys, a: Action)
    requires Good(s) && Can(s, a)
    ensures Good(Finish(Prepare(AsWritten, s, a))) <==> StaysOnCourse(s, a)
    ensures StaysOnCourse(s, a) ==> CallSafe(Prepare(AsWritten, s, a))
  {
    if a.Resume? {
      ResumeAsWritten(s);
    } else {
      StepKeepsGood(s, a);
      if a.Manage? {
        ManageAsWritten(s, a);
      }
    }
  }

  ghost predicate Follows(run: seq<Sys>, acts: seq<Action>, i: nat)
    requires i < |acts| && |run| == |acts| + 1
  {
    SysShaped(run[i]) && Can(run[i], acts[i]) && run[i + 1] == Finish(Prepare(AsWritten, run[i], acts[i]))
  }

  /** A run of the code as written, with the actions that make it. */
  ghost predicate RunAsWritten(run: seq<Sys>, acts: seq<Action>) {
    && |run| == |acts| + 1 && Boots(run[0])
    && (forall i: nat {:trigger Follows(run, acts, i)} :: i < |acts| ==> Follows(run, acts, i))
  }

  /** The first `n` steps stay on course. */
  ghost predicate OnCourse(run: seq<Sys>, acts: seq<Action>, n: nat)
    requires n <= |acts| && |run| == |acts| + 1
  {
    n > 0 ==> OnCourse(run, acts, n - 1) && SysShaped(run[n - 1]) && StaysOnCourse(run[n - 1], acts[n - 1])
  }

  /** The states up to the `n`-th step are good. */
  ghost predicate AllGood(run: seq<Sys>, n: nat)
    requires n < |run|
  {
    Good(run[n]) && (n > 0 ==> AllGood(run, n - 1))
  }

  lemma StepOfRun(run: seq<Sys>, acts: seq<Action>, i: nat)
    requires i < |acts| && |run| == |acts| + 1 && Good(run[i]) && Follows(run, acts, i)
    ensures Good(run[i + 1]) <==> StaysOnCourse(run[i], acts[i])
  {
    StepAsWritten(run[i], acts[i]);
  }

  /** The states of a run as written are good up to any point exactly when its
      steps up to there stay on course. */
  lemma {:induction false} RunsAsWritten(run: seq<Sys>, acts: seq<Action>, n: nat)
    requires RunAsWritten(run, acts) && n <= |acts|
    ensures AllGood(run, n) <==> OnCourse(run, acts, n)
  {
    if n == 0 {
      BootIsGood(run[0]);
    } else {
      RunsAsWritten(run, acts, n - 1);
      assert Follows(run, acts, n - 1);
      if AllGood(run, n - 1) {
        StepOfRun(run, acts, n - 1);
      }
    }
  }

  /** While a run stays on course every call it makes meets every assert. */
  lemma OnCourseRunsAreSafe(run: seq<Sys>, acts: seq<Action>, n: nat)
    requires RunAsWritten(run, acts) && n < |acts| && OnCourse(run, acts, n + 1)
    ensures Follows(run, acts, n) && CallSafe(Prepare(AsWritten, run[n], acts[n]))
  {
    RunsAsWritten(run, acts, n);
    assert Follows(run, acts, n);
    StepAsWritten(run[n], acts[n]);
  }
}
