/** What the messages of the servers hold, said in terms of the requests of their
    clients and of the clock, over whole runs. */
module SystemAnswers {
  import opened IpcState
  import opened System
  import opened SystemInv
  import opened SystemCalls
  import opened SystemManager
  import opened SystemRuns
  import opened SystemStory
  import opened SystemTheorems
  import opened SystemDelivery
  import opened SystemReports
  import opened SystemProgress
  import opened SystemReplies
  import D = Delivery

  // ---- get_ticks

  /** How often the clock has struck before the `i`-th step, as the variable `ticks` of 32 bits counts it. */
  function TicksAt(acts: seq<Action>, i: nat): nat
    requires i <= |acts|
  {
    if i == 0 then 0
    else if acts[i - 1] == Clock then (TicksAt(acts, i - 1) + 1) % 0x1_0000_0000 else TicksAt(acts, i - 1)
  }

  /** What the system task reads is what the clock has counted. */
  predicate Timely(acts: seq<Action>) {
    forall i: nat :: i < |acts| && acts[i].Answer? ==> acts[i].ticks == TicksAt(acts, i)
  }

  /** The answer to `get_ticks` goes to the client whose request is held: its own
      message, with the ticks in RETVAL. */
  lemma SysAnswerHolds(s: Sys, ticks: int, asked: seq<Request>, l: D.Logged)
    requires Logged(s, l) && AsksOk(s, asked) && Can(s, Answer(ticks))
    ensures var d := Load(s.k.mem[TASK_SYS], BUFFER).source;
            var sent := LogAfter(l, Prepare(Intended, s, Answer(ticks))).sent;
            && INIT <= d < |asked| && asked[d].server == TASK_SYS && asked[d].text.kind == GET_TICKS
            && sent == l.sent + [D.Packet(TASK_SYS, d, asked[d].text.(source := TASK_SYS, retval := ticks))]
  {
    SysEdits(s, asked, ticks);
    assert ServerOk(s, TASK_SYS);
    LogOfCall(l, Prepare(Intended, s, Answer(ticks)));
  }

  /** Packet `p` is the answer of the system task in step `i`. */
  ghost predicate TicksPacket(run: seq<Sys>, acts: seq<Action>, logs: seq<D.Logged>, i: nat, p: nat, packet: D.Packet)
    requires Acts(run, acts) && |logs| == |run|
  {
    && i < |acts| && acts[i].Answer? && |logs[i].sent| == p && packet.dst < |run[i].k.procs|
    && var q := Requests(run, acts, i)[packet.dst];
       q.server == TASK_SYS && packet.content == q.text.(source := TASK_SYS, retval := TicksAt(acts, i))
  }

  lemma StepSends(s: Sys, a: Action, l: D.Logged)
    requires Logged(s, l) && Can(s, a)
    ensures var sent := LogAfter(l, Prepare(Intended, s, a)).sent;
            && l.sent <= sent && |sent| <= |l.sent| + 1
            && (|sent| > |l.sent| ==> sent[|l.sent|].src == s.k.ready)
            && (|sent| > |l.sent| && s.k.ready == TASK_SYS ==> a.Answer?)
  {
    var pr := Prepare(Intended, s, a);
    LogOfCall(l, pr);
    ReadyBefore(s, a);
  }

  lemma TicksStep(run: seq<Sys>, acts: seq<Action>, logs: seq<D.Logged>, i: nat)
    requires ActedRun(run, acts, logs) && Timely(acts) && i < |acts| && Logged(run[i], logs[i])
    requires |logs[i + 1].sent| > |logs[i].sent| && logs[i + 1].sent[|logs[i].sent|].src == TASK_SYS
    ensures TicksPacket(run, acts, logs, i, |logs[i].sent|, logs[i + 1].sent[|logs[i].sent|])
  {
    RunKeepsAsks(run, acts, i);
    assert LogMoves(run, acts, logs, i);
    StepSends(run[i], acts[i], logs[i]);
    SysAnswerHolds(run[i], acts[i].ticks, Requests(run, acts, i), logs[i]);
  }

  lemma SentGrows(run: seq<Sys>, acts: seq<Action>, logs: seq<D.Logged>, i: nat)
    requires ActedRun(run, acts, logs) && i < |acts|
    ensures Logged(run[i], logs[i]) && logs[i].sent <= logs[i + 1].sent && |logs[i + 1].sent| <= |logs[i].sent| + 1
  {
    ActedIsLogged(run, acts, logs, i);
    assert LogMoves(run, acts, logs, i);
    StepSends(run[i], acts[i], logs[i]);
  }

  /** Over every run each message of the system task is the request it answers
      with the number of clock ticks before the answer in RETVAL. */
  lemma {:induction false} TicksAreCounted(run: seq<Sys>, acts: seq<Action>, logs: seq<D.Logged>, j: nat, p: nat)
    requires ActedRun(run, acts, logs) && Timely(acts) && j <= |acts|
    requires p < |logs[j].sent| && logs[j].sent[p].src == TASK_SYS
    ensures exists i: nat :: i < j && TicksPacket(run, acts, logs, i, p, logs[j].sent[p])
  {
    if j > 0 {
      SentGrows(run, acts, logs, j - 1);
      if p < |logs[j - 1].sent| {
        TicksAreCounted(run, acts, logs, j - 1, p);
      } else {
        TicksStep(run, acts, logs, j - 1);
      }
    }
  }

  /** Over every run, whenever a client's `get_ticks` is answered, the message at
      the address of its request has in RETVAL how often the clock had struck when
      the system task answered. */
  lemma TicksReturn(run: seq<Sys>, acts: seq<Action>, logs: seq<D.Logged>, i: nat) returns (k: nat)
    requires ActedRun(run, acts, logs) && Timely(acts) && i < |acts|
    requires |logs[i + 1].got| > |logs[i].got|
    requires INIT <= logs[i + 1].got[|logs[i].got|].to < |Requests(run, acts, i + 1)|
    requires Requests(run, acts, i + 1)[logs[i + 1].got[|logs[i].got|].to].server == TASK_SYS
    ensures k <= i && acts[k].Answer? && SysShaped(run[i + 1])
    ensures var c := logs[i + 1].got[|logs[i].got|].to;
            Load(run[i + 1].k.mem[c], Requests(run, acts, i + 1)[c].m).retval == TicksAt(acts, k)
  {
    AnswersArrive(run, acts, logs, i);
    var a := logs[i + 1].got[|logs[i].got|];
    TicksAreCounted(run, acts, logs, i + 1, a.ticket);
    k :| k < i + 1 && TicksPacket(run, acts, logs, k, a.ticket, logs[i + 1].sent[a.ticket]);
  }

  // ---- exit

  /** A process ends with the status of its own request. */
  lemma ExitIsAsked(s: Sys, a: Action, asked: seq<Request>, m: nat)
    requires Good(s) && AsksOk(s, asked) && Can(s, a)
    requires var story := Prepare(Intended, s, a).story; |s.story| <= m < |story| && story[m].Exited?
    ensures var e := Prepare(Intended, s, a).story[m];
            && m == |s.story| && e.pid < |asked| && asked[e.pid].server == TASK_MM
            && asked[e.pid].text.kind == EXIT && e.status == asked[e.pid].text.retval
  {
    match a
    case Manage(r, image) =>
      HeldIsGood(s);
      RequestExits(s, r, image, Load(s.k.mem[TASK_MM], BUFFER).source, m);
    case Resume => RestHasNoExit(s);
    case _ =>
  }

  lemma RequestExits(s: Sys, r: int, image: Memory, d: nat, m: nat)
    requires SysShaped(s) && INIT <= d < |s.k.procs| && Load(s.k.mem[TASK_MM], BUFFER).source == d
    requires var story := ManageRequest(Intended, s, r, image).story; |s.story| <= m < |story| && story[m].Exited?
    ensures var got := Load(s.k.mem[TASK_MM], BUFFER);
            && m == |s.story| && got.kind == EXIT
            && ManageRequest(Intended, s, r, image).story[m] == Exited(d, got.retval)
  {
  }

  lemma RestHasNoExit(s: Sys)
    requires SysShaped(s) && UnderWay(s.pc[TASK_MM])
    ensures var story := ManageRest(Intended, s).story; forall m: nat :: |s.story| <= m < |story| ==> !story[m].Exited?
  {
  }

  ghost predicate AskedToExit(run: seq<Sys>, acts: seq<Action>, i: nat, m: nat, e: Event)
    requires Acts(run, acts)
  {
    && i < |acts| && |run[i].story| == m && e.pid < |run[i].k.procs|
    && var q := Requests(run, acts, i)[e.pid];
       q.server == TASK_MM && q.text.kind == EXIT && e == Exited(e.pid, q.text.retval)
  }

  /** Over every run the status a process ends with is the one its last request gave. */
  lemma {:induction false} ExitsAreAsked(run: seq<Sys>, acts: seq<Action>, j: nat, m: nat)
    requires Acts(run, acts) && j <= |acts| && m < |run[j].story| && run[j].story[m].Exited?
    ensures exists i: nat :: i < j && AskedToExit(run, acts, i, m, run[j].story[m])
  {
    if j > 0 {
      StoryGrowsAt(run, acts, j - 1);
      if m < |run[j - 1].story| {
        ExitsAreAsked(run, acts, j - 1, m);
      } else {
        ExitStep(run, acts, j - 1, m);
      }
    }
  }

  lemma StoryGrowsAt(run: seq<Sys>, acts: seq<Action>, i: nat)
    requires Acts(run, acts) && i < |acts|
    ensures run[i].story <= run[i + 1].story
  {
    assert Moves(run, acts, i);
    StoryGrows(run[i], acts[i]);
  }

  lemma ExitStep(run: seq<Sys>, acts: seq<Action>, i: nat, m: nat)
    requires Acts(run, acts) && i < |acts| && |run[i].story| <= m < |run[i + 1].story| && run[i + 1].story[m].Exited?
    ensures AskedToExit(run, acts, i, m, run[i + 1].story[m])
  {
    RunKeepsAsks(run, acts, i);
    assert Moves(run, acts, i);
    ExitIsAsked(run[i], acts[i], Requests(run, acts, i), m);
  }

  lemma StoryGrows(s: Sys, a: Action)
    requires SysShaped(s) && Can(s, a)
    ensures s.story <= Prepare(Intended, s, a).story
  {
  }

  // ---- The process manager's messages

  /** What the process manager sends next, and to whom. */
  ghost predicate IsManagerMessage(s: Sys, asked: seq<Request>, p: D.Packet)
    requires SysShaped(s) && |asked| == |s.k.procs|
  {
    && p.src == TASK_MM && INIT <= p.dst < |asked|
    && var q := asked[p.dst].text;
       match s.pc[TASK_MM]
       case Handle =>
         && asked[p.dst].server == TASK_MM
         && (if q.kind == FORK then p.content == q.(source := TASK_MM, kind := SYSCALL_RET, retval := -1)
             else q.kind == WAIT && p.content == Message(TASK_MM, SYSCALL_RET, 0, NoTask(|asked|)))
       case Start(child, _) => p.dst == child && p.content == Message(TASK_MM, SYSCALL_RET, 0, 0)
       case ReplyTo(c) =>
         p.dst == c && p.content == Message(TASK_MM, SYSCALL_RET, 0, p.content.pid)
         && 0 <= p.content.pid < |asked| && s.k.procs[p.content.pid].parent == c
       case Tell(child, _) =>
         child < |asked| && p.dst == s.k.procs[child].parent
         && p.content == Message(TASK_MM, SYSCALL_RET, s.k.procs[child].exitStatus, child)
       case Loaded(c, result) =>
         p.dst == c && asked[c].server == TASK_MM
         && p.content == q.(source := TASK_MM, kind := SYSCALL_RET, retval := result)
       case _ => false
  }

  /** Every message of the process manager: the failure of a fork is the request
      with -1 in RETVAL, a wait without children is answered NO_TASK, a child 0,
      its parent the child's number, an exec its result, and a report holds the
      child's number and status. */
  lemma ManagerMessage(s: Sys, a: Action, asked: seq<Request>)
    requires Good(s) && AsksOk(s, asked) && Can(s, a) && (a.Manage? || a.Resume?) && Prepare(Intended, s, a).call.Send?
    ensures IsManagerMessage(s, asked, PacketSent(Prepare(Intended, s, a)))
  {
    match a
    case Manage(r, image) =>
      HeldIsGood(s);
      ManageSettles(s, r, image);
      RequestMessage(s, r, image, Load(s.k.mem[TASK_MM], BUFFER).source, asked);
    case Resume =>
      if s.pc[TASK_MM].Tell? {
        assert ParentOk(s, s.pc[TASK_MM].child);
      }
      RestMessage(s, asked);
  }

  lemma RequestMessage(s: Sys, r: int, image: Memory, d: nat, asked: seq<Request>)
    requires SysShaped(s) && |asked| == |s.k.procs| && INIT <= d < |asked|
    requires s.k.ready == TASK_MM && s.pc[TASK_MM] == Handle
    requires var got := Load(s.k.mem[TASK_MM], BUFFER);
             got.source == d && asked[d].server == TASK_MM && got == asked[d].text.(source := d)
    requires ManageRequest(Intended, s, r, image).call.Send?
    ensures IsManagerMessage(s, asked, PacketSent(ManageRequest(Intended, s, r, image)))
  {
  }

  lemma RestMessage(s: Sys, asked: seq<Request>)
    requires SysShaped(s) && ManagerOk(s) && |asked| == |s.k.procs| && s.k.ready == TASK_MM && UnderWay(s.pc[TASK_MM])
    requires s.pc[TASK_MM].Start? ==> s.pc[TASK_MM].child >= INIT
    requires s.pc[TASK_MM].Tell? ==> INIT <= s.k.procs[s.pc[TASK_MM].child].parent
    requires HoldsLast(s, asked, TASK_MM) && ManageRest(Intended, s).call.Send?
    ensures IsManagerMessage(s, asked, PacketSent(ManageRest(Intended, s)))
  {
  }

  // ---- exec

  /** An exec loads the program into its caller's memory and writes nothing else. */
  lemma ProgramIsLoaded(s: Sys, r: int, image: Memory)
    requires Good(s) && AtWork(s) && s.pc[TASK_MM] == Handle && Load(s.k.mem[TASK_MM], BUFFER).kind == EXEC
    ensures var t, d := Finish(ManageRequest(Intended, s, r, image)), Load(s.k.mem[TASK_MM], BUFFER).source;
            && INIT <= d < |s.k.procs| && t.pc == s.pc[TASK_MM := Loaded(d, r)]
            && t.k == s.k.(mem := s.k.mem[d := image])
  {
    HeldIsGood(s);
  }
}
