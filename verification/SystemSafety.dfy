/** Every step of the system is safe, hence every run is. */
module SystemSafety {
  import opened IpcState
  import opened IpcGraph
  import opened IpcSteps
  import opened System
  import opened SystemInv
  import opened SystemCalls
  import opened SystemManager

  // ---- The call itself

  /** A server may send to a client whose request it holds: the client is not
      blocked in a send, so no chain of sends leads back to the server. */
  lemma AnswerIsSafe(pr: Prepared, sv: nat, d: nat, m: Ptr)
    requires pr.call == Send(d, m) && Inv(pr.k) && pr.k.ready == sv && d < |pr.k.procs| && d != sv && m != 0
    requires !pr.k.procs[d].flags.sending
    requires Accepts(pr.k.procs, d, sv) ==> pr.k.procs[d].flags == RECEIVING
    ensures CallSafe(pr)
  {
    ReachesStep(pr.k.procs, d, sv);
  }

  /** A client may send to a server: a chain of sends from there is at most the
      server's own reply, to a client that is not this one. */
  lemma AskIsSafe(s: Sys, p: nat, sv: nat, m: Ptr)
    requires SysInv(s) && s.k.ready == p && INIT <= p && IsServer(sv) && m != 0 && s.pc[p] == User
    ensures MaySend(s.k, p, sv, m)
    ensures Accepts(s.k.procs, sv, p) ==> s.k.procs[sv].flags == RECEIVING
  {
    assert ClientOk(s, p, Debts(s, TASK_SYS), Debts(s, TASK_MM));
    ReachesStep(s.k.procs, sv, p);
    if s.k.procs[sv].flags.sending {
      var c: nat := s.k.procs[sv].sendTo;
      assert ClientOk(s, c, Debts(s, TASK_SYS), Debts(s, TASK_MM));
      ReachesStep(s.k.procs, c, p);
    }
  }

  lemma CallKeepsInv(pr: Prepared)
    requires CallSafe(pr) && |pr.k.procs| >= FIRST_FORKED
    requires pr.call != NoCall ==> pr.k.ready != TASK_TTY && Runnable(pr.k.procs, TASK_TTY)
    ensures Inv(Perform(pr.k, pr.call))
  {
    match pr.call
    case Send(d, m) => SendKeepsInv(pr.k, pr.k.ready, d, m, TASK_TTY);
    case Receive(src, m) => ReceiveKeepsInv(pr.k, pr.k.ready, src, m, TASK_TTY);
    case NoCall =>
  }

  // ---- The steps, one by one

  ghost predicate StepOk(s: Sys, a: Action)
    requires SysShaped(s) && Can(s, a)
  {
    var pr := Prepare(Intended, s, a);
    CallSafe(pr) && |pr.pc| == |pr.k.procs| && SysInv(Finish(pr))
  }

  /** Memory of the running process is its own, unless it is a server. */
  lemma OwnMemoryKeeps(s: Sys, own: Memory)
    requires SysInv(s) && s.k.ready != TASK_SYS && s.k.ready != TASK_MM
    ensures SysInv(s.(k := s.k.(mem := s.k.mem[s.k.ready := own])))
  {
    var t := s.(k := s.k.(mem := s.k.mem[s.k.ready := own]));
    EditKeepsInv(s.k, t.k);
    forall c: nat | INIT <= c < |s.k.procs| ensures ClientOk(t, c, Debts(t, TASK_SYS), Debts(t, TASK_MM)) {
      assert ClientOk(s, c, Debts(s, TASK_SYS), Debts(s, TASK_MM));
    }
    forall c: nat | c < |s.k.procs| ensures ParentOk(t, c) {
      assert ParentOk(s, c);
    }
  }

  lemma ReadyKeeps(s: Sys, r: nat)
    requires SysInv(s) && r < |s.k.procs|
    ensures var t := s.(k := s.k.(ready := r)); Protocol(t)
  {
    var t := s.(k := s.k.(ready := r));
    forall c: nat | INIT <= c < |s.k.procs| ensures ClientOk(t, c, Debts(t, TASK_SYS), Debts(t, TASK_MM)) {
      assert ClientOk(s, c, Debts(s, TASK_SYS), Debts(s, TASK_MM));
    }
    forall c: nat | c < |s.k.procs| ensures ParentOk(t, c) {
      assert ParentOk(s, c);
    }
  }

  lemma ClockIsOk(s: Sys)
    requires SysInv(s)
    ensures StepOk(s, Clock)
  {
    TickKeepsInv(s.k);
    ReadyKeeps(s, NextReady(s.k.procs, s.k.ready));
  }

  lemma StoryIsFree(s: Sys, story: seq<Event>)
    requires SysInv(s)
    ensures SysInv(s.(story := story))
  {
    var t := s.(story := story);
    forall c: nat | INIT <= c < |s.k.procs| ensures ClientOk(t, c, Debts(t, TASK_SYS), Debts(t, TASK_MM)) {
      assert ClientOk(s, c, Debts(s, TASK_SYS), Debts(s, TASK_MM));
    }
    forall c: nat | c < |s.k.procs| ensures ParentOk(t, c) {
      assert ParentOk(s, c);
    }
  }

  lemma AskIsOk(s: Sys, sv: nat, m: Ptr, r: Message)
    requires SysInv(s) && Can(s, Ask(sv, m, r))
    ensures StepOk(s, Ask(sv, m, r))
  {
    var p := s.k.ready;
    var pr := Prepare(Intended, s, Ask(sv, m, r));
    var t := Sys(pr.k, s.pc, pr.story);
    OwnMemoryKeeps(s, s.k.mem[p][m := r]);
    StoryIsFree(s.(k := pr.k), pr.story);
    AskIsSafe(t, p, sv, m);
    CallKeepsInv(pr);
    ClientAsks(t, p, sv, m);
    assert Finish(pr) == Called(t.(pc := t.pc[p := Asked(sv, m)]), Send(sv, m));
  }

  lemma AwaitIsOk(s: Sys)
    requires SysInv(s) && Can(s, Await)
    ensures StepOk(s, Await)
  {
    var p := s.k.ready;
    var pr := Prepare(Intended, s, Await);
    assert p >= INIT;
    ClientAwaits(s, p, s.pc[p].server, s.pc[p].m);
    assert CallSafe(pr);
    CallKeepsInv(pr);
    assert Finish(pr) == Called(s.(pc := s.pc[p := User]), Receive(s.pc[p].server, s.pc[p].m));
  }

  lemma ClientsAsk(s: Sys, p: nat)
    requires SysInv(s) && INIT <= p && Runnable(s.k.procs, p)
    ensures s.pc[p] == User || s.pc[p].Asked?
  {
    assert ClientOk(s, p, Debts(s, TASK_SYS), Debts(s, TASK_MM));
  }

  /** A server clears its buffer before it listens. */
  lemma ClearingKeeps(s: Sys, sv: nat)
    requires SysInv(s) && s.k.ready == sv && IsServer(sv) && s.pc[sv] == Serve
    ensures SysInv(s.(k := Store(s.k, sv, BUFFER, ZERO_MESSAGE)))
  {
    var t := s.(k := Store(s.k, sv, BUFFER, ZERO_MESSAGE));
    EditKeepsInv(s.k, t.k);
    forall c: nat | INIT <= c < |s.k.procs| ensures ClientOk(t, c, Debts(t, TASK_SYS), Debts(t, TASK_MM)) {
      assert ClientOk(s, c, Debts(s, TASK_SYS), Debts(s, TASK_MM));
    }
    forall c: nat | c < |s.k.procs| ensures ParentOk(t, c) {
      assert ParentOk(s, c);
    }
  }

  lemma ListenIsOk(s: Sys)
    requires SysInv(s) && Can(s, Listen)
    ensures StepOk(s, Listen)
  {
    var sv := s.k.ready;
    if sv >= INIT {
      ClientsAsk(s, sv);
    }
    var pr := Prepare(Intended, s, Listen);
    var t := s.(k := pr.k);
    ClearingKeeps(s, sv);
    assert CallSafe(pr);
    CallKeepsInv(pr);
    if |t.k.queues[sv]| > 0 {
      assert t.k.queues[sv][0] in t.k.queues[sv];
    }
    ServerListens(t, sv);
    assert Finish(pr) == Called(t.(pc := t.pc[sv := Handle]), Receive(Any(|s.k.procs|), BUFFER));
  }

  lemma AnswerIsOk(s: Sys, ticks: int)
    requires SysInv(s) && Can(s, Answer(ticks))
    ensures StepOk(s, Answer(ticks))
  {
    var got := Load(s.k.mem[TASK_SYS], BUFFER);
    var d: nat := got.source;
    var pr := Prepare(Intended, s, Answer(ticks));
    var t := SysOf(pr);
    EditKeepsInv(s.k, t.k);
    var sysDebts, mmDebts := Debts(t, TASK_SYS) + {d as int}, Debts(t, TASK_MM);
    forall c: nat | INIT <= c < |s.k.procs| ensures ClientOk(t, c, sysDebts, mmDebts) {
      assert ClientOk(s, c, Debts(s, TASK_SYS), Debts(s, TASK_MM));
    }
    forall c: nat | c < |s.k.procs| ensures ParentOk(t, c) {
      assert ParentOk(s, c);
    }
    ServerAnswers(t, TASK_SYS, d, BUFFER, sysDebts, mmDebts);
    AnswerIsSafe(pr, TASK_SYS, d, BUFFER);
    CallKeepsInv(pr);
    assert Finish(pr) == Called(t, Send(d, BUFFER));
  }

  lemma SettledIsOk(pr: Prepared)
    requires Settles(pr)
    ensures CallSafe(pr) && |pr.pc| == |pr.k.procs| && SysInv(Finish(pr))
  {
    if pr.call.Send? {
      var t := SysOf(pr);
      ServerAnswers(t, TASK_MM, pr.call.dest, pr.call.m, Debts(t, TASK_SYS), Debts(t, TASK_MM) + {pr.call.dest as int});
      AnswerIsSafe(pr, TASK_MM, pr.call.dest, pr.call.m);
      CallKeepsInv(pr);
      assert Finish(pr) == Called(t, pr.call);
    } else {
      assert Finish(pr) == SysOf(pr);
    }
  }

  lemma ManageIsOk(s: Sys, r: int, image: Memory)
    requires SysInv(s) && Can(s, Manage(r, image))
    ensures StepOk(s, Manage(r, image))
  {
    ManageSettles(s, r, image);
    SettledIsOk(Prepare(Intended, s, Manage(r, image)));
  }

  lemma ResumeIsOk(s: Sys)
    requires SysInv(s) && Can(s, Resume)
    ensures StepOk(s, Resume)
  {
    RestSettles(s);
    SettledIsOk(Prepare(Intended, s, Resume));
  }

  /** Whatever a process of the system can do next meets every assert of the
      message system, meets no deadlock, and leads to a state as good as this one. */
  lemma StepIsOk(s: Sys, a: Action)
    requires SysInv(s) && Can(s, a)
    ensures StepOk(s, a)
  {
    match a
    case Compute(own) =>
      OwnMemoryKeeps(s, own);
      assert Finish(Prepare(Intended, s, a)) == s.(k := s.k.(mem := s.k.mem[s.k.ready := own]));
    case Ask(sv, m, r) => AskIsOk(s, sv, m, r);
    case Await => AwaitIsOk(s);
    case Listen => ListenIsOk(s);
    case Answer(ticks) => AnswerIsOk(s, ticks);
    case Manage(r, image) => ManageIsOk(s, r, image);
    case Resume => ResumeIsOk(s);
    case Clock => ClockIsOk(s);
  }
}
