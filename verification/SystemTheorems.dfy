/** The main results about the system: what holds in every state of every run. */
module SystemTheorems {
  import opened IpcState
  import opened IpcSteps
  import opened System
  import opened SystemInv
  import opened SystemCalls
  import opened SystemManager
  import opened SystemStory
  import opened SystemFamily
  import opened SystemRuns

  // ---- Runs

  /** The table `init_proc` sets up, with both servers at the top of their loops. */
  predicate Boots(s: Sys) {
    && SysShaped(s) && s.story == [] && s.k.ready == TASK_TTY
    && (forall p: nat :: p < |s.k.procs| ==> s.k.queues[p] == [])
    && (forall p: nat :: p < |s.k.procs| ==>
          s.k.procs[p] == BootProc(|s.k.procs|, p) && s.pc[p] == if IsServer(p) then Serve else User)
  }

  lemma BootIsGood(s: Sys)
    requires Boots(s)
    ensures Good(s)
  {
    var n := |s.k.procs|;
    BootIsSound(s.k);
    assert Debts(s, TASK_SYS) == {} && Debts(s, TASK_MM) == {};
    forall c: nat | INIT <= c < n
      ensures ClientOk(s, c, Debts(s, TASK_SYS), Debts(s, TASK_MM))
      ensures Matches(s, c, Answering(s), StageOf(n, s.story, c))
    {
    }
    forall c: nat | c < n ensures ParentOk(s, c) {
    }
  }

  ghost predicate Steps(run: seq<Sys>, i: nat)
    requires i + 1 < |run|
  {
    exists a: Action :: SysShaped(run[i]) && Can(run[i], a) && run[i + 1] == Finish(Prepare(Intended, run[i], a))
  }

  ghost predicate Run(run: seq<Sys>) {
    && |run| > 0 && Boots(run[0])
    && (forall i: nat {:trigger Steps(run, i)} :: i + 1 < |run| ==> Steps(run, i))
  }

  lemma {:induction false} RunStaysGood(run: seq<Sys>, i: nat)
    requires Run(run) && i < |run|
    ensures Good(run[i])
  {
    if i == 0 {
      BootIsGood(run[0]);
    } else {
      RunStaysGood(run, i - 1);
      assert Steps(run, i - 1);
      NextIsGood(run, i - 1);
    }
  }

  lemma NextIsGood(run: seq<Sys>, i: nat)
    requires i + 1 < |run| && Steps(run, i) && Good(run[i])
    ensures Good(run[i + 1])
  {
    var a: Action :| Can(run[i], a) && run[i + 1] == Finish(Prepare(Intended, run[i], a));
    StepKeepsGood(run[i], a);
  }

  /** In every state of every run, whatever the running process does next meets
      the asserts of the message system, and the deadlock test stays silent. */
  lemma RunIsSafe(run: seq<Sys>, i: nat, a: Action)
    requires Run(run) && i < |run| && SysShaped(run[i]) && Can(run[i], a)
    ensures CallSafe(Prepare(Intended, run[i], a))
  {
    RunStaysGood(run, i);
    StepKeepsGood(run[i], a);
  }

  /** A server is blocked in a reply only while the client is between the SEND
      and the RECEIVE of a request to that very server. */
  lemma RepliesReachAskers(s: Sys, sv: nat, c: nat)
    requires Good(s) && IsServer(sv) && Sends(s.k.procs, sv, c)
    ensures INIT <= c && s.pc[c].Asked? && s.pc[c].server == sv && s.k.procs[c].flags == READY
  {
    assert c >= INIT;
    assert ClientOk(s, c, Debts(s, TASK_SYS), Debts(s, TASK_MM));
    assert !Accepts(s.k.procs, c, sv);
  }

  /** The status bits the loops of the process manager look at. */
  ghost predicate SameStatus(procs: seq<Proc>, next: seq<Proc>) {
    && |next| == |procs|
    && (forall c: nat :: c < |procs| ==>
          && next[c].parent == procs[c].parent && next[c].exitStatus == procs[c].exitStatus
          && next[c].flags.free == procs[c].flags.free && next[c].flags.waiting == procs[c].flags.waiting
          && next[c].flags.hanging == procs[c].flags.hanging)
  }

  lemma CallKeepsStatus(k: State, call: Call)
    requires Shaped(k) && (call.Send? ==> call.dest < |k.procs|)
    ensures SameStatus(k.procs, Perform(k, call).procs)
  {
  }

  /** Whatever others do while the process manager is interrupted, its loops find
      the parents, ends, free slots and waiting bits as they left them. */
  lemma LoopsReadSteady(s: Sys, a: Action)
    requires SysShaped(s) && Can(s, a) && !a.Manage? && !a.Resume?
    ensures SameStatus(s.k.procs, Finish(Prepare(Intended, s, a)).k.procs)
    ensures Finish(Prepare(Intended, s, a)).pc[TASK_MM] == s.pc[TASK_MM] || s.k.ready == TASK_MM
  {
    var pr := Prepare(Intended, s, a);
    assert pr.k.procs == s.k.procs;
    CallKeepsStatus(pr.k, pr.call);
  }

  // ---- Stories

  lemma {:induction false} BadStays(n: nat, story: seq<Event>, j: nat, pid: nat)
    requires j <= |story| && StageOf(n, story[..j], pid).mode == Bad
    ensures StageOf(n, story, pid).mode == Bad
    decreases |story| - j
  {
    if j < |story| {
      StageAfter(n, story[..j], story[j], pid);
      assert story[..j + 1] == story[..j] + [story[j]];
      BadStays(n, story, j + 1, pid);
    } else {
      assert story[..j] == story;
    }
  }

  /** At no point of any run does an event happen to a slot that its story so
      far does not allow. */
  lemma StoriesAreLegal(run: seq<Sys>, i: nat, j: nat, c: nat)
    requires Run(run) && i < |run| && SysShaped(run[i]) && INIT <= c < |run[i].k.procs| && j <= |run[i].story|
    ensures StageOf(|run[i].k.procs|, run[i].story[..j], c).mode != Bad
  {
    RunStaysGood(run, i);
    var s := run[i];
    assert ClientOk(s, c, Debts(s, TASK_SYS), Debts(s, TASK_MM));
    assert Matches(s, c, Answering(s), StageOf(|s.k.procs|, s.story, c));
    if StageOf(|s.k.procs|, s.story[..j], c).mode == Bad {
      BadStays(|s.k.procs|, s.story, j, c);
    }
  }

  predicate IsRequest(e: Event, pid: nat) { (e.Requested? || e.Born?) && e.pid == pid }
  predicate IsAnswer(e: Event, pid: nat) { e.Answered? && e.pid == pid }
  predicate IsExit(e: Event, pid: nat) { e.Exited? && e.pid == pid }
  predicate IsReport(e: Event, pid: nat) { e.Reported? && e.pid == pid }

  function Count(story: seq<Event>, pid: nat, what: (Event, nat) -> bool): nat {
    if story == [] then 0
    else Count(story[..|story| - 1], pid, what) + if what(story[|story| - 1], pid) then 1 else 0
  }

  /** In a legal story every request is answered at most once, or its process
      ends instead; and every process that ends is reported exactly once. */
  lemma {:induction false} LegalStoriesBalance(n: nat, story: seq<Event>, pid: nat)
    requires StageOf(n, story, pid).mode != Bad
    ensures Count(story, pid, IsRequest)
         == Count(story, pid, IsAnswer) + Count(story, pid, IsExit)
            + if StageOf(n, story, pid).mode.Asking? then 1 else 0
    ensures Count(story, pid, IsExit)
         == Count(story, pid, IsReport) + if StageOf(n, story, pid).mode.Ended? then 1 else 0
    decreases |story|
  {
    if story != [] {
      LegalStoriesBalance(n, story[..|story| - 1], pid);
    }
  }

  /** A slot is given out again only once its last process has been reported:
      in any run a free slot has as many reports as exits. */
  lemma FreeSlotsAreReported(run: seq<Sys>, i: nat, c: nat)
    requires Run(run) && i < |run| && SysShaped(run[i]) && INIT <= c < |run[i].k.procs|
    requires run[i].k.procs[c].flags.free
    ensures Count(run[i].story, c, IsExit) == Count(run[i].story, c, IsReport)
    ensures Count(run[i].story, c, IsRequest) == Count(run[i].story, c, IsAnswer) + Count(run[i].story, c, IsExit)
  {
    RunStaysGood(run, i);
    var s := run[i];
    assert Matches(s, c, Answering(s), StageOf(|s.k.procs|, s.story, c));
    LegalStoriesBalance(|s.k.procs|, s.story, c);
  }

  // ---- What wait, exit and fork answer

  /** `do_wait` goes on to report a zombie when there is one, waits when there is
      none but a living child, and answers that there is no child exactly when
      there is neither. */
  lemma WaitIsExact(s: Sys, pid: nat)
    requires Good(s) && Busy(s, pid)
    ensures var pr := Wait(Intended, s, pid);
            var procs, mm := s.k.procs, pr.pc[TASK_MM];
            && (mm.Tell? <==> exists c: nat :: IsChild(procs, c, pid) && procs[c].flags.hanging)
            && (mm.Tell? ==> pr.call == NoCall && IsChild(procs, mm.child, pid) && procs[mm.child].flags.hanging)
            && (mm == Serve && pr.call == NoCall <==>
                  HasLivingChild(procs, Handle, pid)
                  && forall c: nat :: IsChild(procs, c, pid) ==> !procs[c].flags.hanging)
            && (pr.call.Send? <==> forall c: nat :: !IsChild(procs, c, pid))
            && (pr.call.Send? ==>
                  pr.call == Send(pid, LOCAL) && Load(pr.k.mem[TASK_MM], LOCAL).pid == NoTask(|procs|))
  {
    var n, procs := |s.k.procs|, s.k.procs;
    forall c: nat | c < n ensures procs[c].parent == pid ==> c >= FIRST_FORKED {
      assert ParentOk(s, c);
    }
    var z := FirstZombie(Intended, procs, pid, 0);
    forall c: nat | IsChild(procs, c, pid) ensures Counts(Intended, procs, pid, c) {
    }
    if z < n {
      assert IsChild(procs, z, pid);
    } else if HasChild(Intended, procs, pid) {
      var c: nat :| c < n && Counts(Intended, procs, pid, c);
      assert IsChild(procs, c, pid) && Alive(procs, Handle, c);
    }
  }

  /** Whatever way a process that has ended comes to be reported, the message goes
      to the parent it has then and carries its own number and the status it
      ended with. */
  lemma ReportIsExact(s: Sys, child: nat, rest: Rest)
    requires Good(s) && AtWork(s) && s.pc[TASK_MM] == Tell(child, rest)
    ensures var pr := ManageRest(Intended, s);
            var q, st := s.k.procs[child].parent, StageOf(|s.k.procs|, s.story, child);
            && INIT <= q < |s.k.procs| && pr.call == Send(q, LOCAL) && st.mode.Ended? && st.parent == q
            && Load(pr.k.mem[TASK_MM], LOCAL) == Message(TASK_MM, SYSCALL_RET, st.mode.status, child)
            && PhaseOf(s.k.procs[q], s.pc[q]) == Held(TASK_MM) && Alive(s.k.procs, s.pc[TASK_MM], q)
  {
    assert ParentOk(s, child);
    OwedIsAsking(s, child);
    OwedIsAsking(s, s.k.procs[child].parent);
    assert ClientOk(s, s.k.procs[child].parent, Debts(s, TASK_SYS), Debts(s, TASK_MM));
  }

  /** The record of the child is its parent's but for the parent field, in a slot
      that was free, and it stands where its parent stood. */
  lemma ForkIsExact(s: Sys, src: nat)
    requires Good(s) && Busy(s, src) && FirstFree(s.k.procs, 0) < |s.k.procs|
    ensures var pr := Fork(s, src);
            var child := FirstFree(s.k.procs, 0);
            && child >= FIRST_FORKED && s.k.procs[child].flags.free && pr.call == NoCall
            && pr.k.procs == s.k.procs[child := s.k.procs[src].(parent := src)] && pr.pc[child] == s.pc[src]
            && pr.pc[TASK_MM] == Copying(child, src)
  {
    FreeIsForked(s);
    assert ClientOk(s, src, Debts(s, TASK_SYS), Debts(s, TASK_MM));
    OwedIsAsking(s, src);
  }

  /** The status word of a record is copied before the fields the kernel's asserts
      look at: in between the child, with fields its slot has from before, can be
      selected exactly when its parent does not receive yet. */
  lemma HalfCopiedChild(s: Sys, src: nat)
    requires Good(s) && Busy(s, src) && FirstFree(s.k.procs, 0) < |s.k.procs|
    ensures var child := FirstFree(s.k.procs, 0);
            var half := s.k.procs[child := s.k.procs[child].(flags := s.k.procs[src].flags)];
            Runnable(half, child) <==> !s.k.procs[src].flags.receiving
  {
    assert ClientOk(s, src, Debts(s, TASK_SYS), Debts(s, TASK_MM));
  }

  /** Until its memory is copied a child can do nothing but issue the receive its
      parent was about to issue, and then it waits. */
  lemma UnfinishedChildWaits(s: Sys, child: nat, src: nat, a: Action)
    requires Good(s) && Can(s, a) && (s.pc[TASK_MM] == Copying(child, src) || s.pc[TASK_MM] == Start(child, src))
    requires s.k.ready == child && a != Clock
    ensures a == Await && !Runnable(Finish(Prepare(Intended, s, a)).k.procs, child)
  {
    assert ClientOk(s, child, Debts(s, TASK_SYS), Debts(s, TASK_MM));
    var pr := Prepare(Intended, s, a);
    assert a.Await? ==> s.pc[child].server == TASK_MM && !Sends(s.k.procs, TASK_MM, child);
  }

  /** The child is answered 0, with its parent's memory copied; the parent is
      answered the number of a slot that is its child. */
  lemma ForkAnswers(s: Sys, child: nat, src: nat)
    requires Good(s) && AtWork(s)
    ensures s.pc[TASK_MM] == Copying(child, src) ==>
              var pr := ManageRest(Intended, s);
              pr.k.mem[child] == s.k.mem[src] && Load(pr.k.mem[TASK_MM], BUFFER).pid == child
              && pr.pc[TASK_MM] == Start(child, src)
    ensures s.pc[TASK_MM] == Start(child, src) ==>
              var pr := ManageRest(Intended, s);
              pr.call == Send(child, LOCAL) && ForkReturns(Load(pr.k.mem[TASK_MM], LOCAL)) == 0
              && pr.pc[TASK_MM] == ReplyTo(src)
    ensures s.pc[TASK_MM] == ReplyTo(src) ==>
              var pr := ManageRest(Intended, s);
              pr.call == Send(src, BUFFER) && IsChild(s.k.procs, ForkReturns(Load(pr.k.mem[TASK_MM], BUFFER)), src)
  {
  }

  // ---- A full table

  /** What the stub `fork` returns for a reply. */
  function ForkReturns(reply: Message): int {
    reply.pid
  }

  /** Without a free slot the process manager puts -1 where the stub does not
      look: the caller gets back what its own request held for a number. */
  lemma ForkWithoutSlot(s: Sys, src: nat)
    requires Good(s) && Busy(s, src)
    requires forall c: nat :: c < |s.k.procs| ==> !s.k.procs[c].flags.free
    ensures var pr := Fork(s, src);
            && pr.call == Send(src, BUFFER) && pr.k.procs == s.k.procs
            && Load(pr.k.mem[TASK_MM], BUFFER).retval == -1
            && ForkReturns(Load(pr.k.mem[TASK_MM], BUFFER)) == Load(s.k.mem[TASK_MM], BUFFER).pid
  {
  }
}
