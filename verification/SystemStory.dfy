/** The story of every slot: each request is answered at most once and by the
    server it went to; each process that ends is reported once, with its own
    status, to the parent it has then, and its slot is reused only after that. */
module SystemStory {
  import opened IpcState
  import opened System
  import opened SystemInv
  import opened SystemCalls
  import opened SystemManager

  /** What the next event of a slot may be. */
  datatype Mode =
    | Gone                  // free: it can only be born
    | AtRest                // it can only make a request
    | Asking(server: nat)   // it can only be answered by that server, or end
    | Ended(status: int)    // it can only be reported, with that status
    | Told                  // it can only be freed
    | Bad                   // something else happened

  datatype Stage = Stage(mode: Mode, parent: int)

  function FirstStage(n: nat, pid: nat): Stage {
    if pid < FIRST_FORKED then Stage(AtRest, NoTask(n)) else Stage(Gone, 0)
  }

  function After(st: Stage, e: Event, pid: nat): Stage {
    if e.pid != pid then st else
    match e
    case Requested(_, sv) => st.(mode := if st.mode == AtRest then Asking(sv) else Bad)
    case Answered(_, sv) => st.(mode := if st.mode == Asking(sv) then AtRest else Bad)
    case Born(_, parent) => Stage(if st.mode == Gone then Asking(TASK_MM) else Bad, parent)
    case Exited(_, status) => st.(mode := if st.mode == Asking(TASK_MM) then Ended(status) else Bad)
    case Adopted(_) => if st.mode == Gone then st.(mode := Bad) else st.(parent := INIT)
    case Reported(_, status, to) => st.(mode := if st.mode == Ended(status) && st.parent == to then Told else Bad)
    case Freed(_) => st.(mode := if st.mode == Told then Gone else Bad)
  }

  function StageOf(n: nat, story: seq<Event>, pid: nat): Stage {
    if story == [] then FirstStage(n, pid)
    else After(StageOf(n, story[..|story| - 1], pid), story[|story| - 1], pid)
  }

  lemma StageAfter(n: nat, story: seq<Event>, e: Event, pid: nat)
    ensures StageOf(n, story + [e], pid) == After(StageOf(n, story, pid), e, pid)
  {
    assert (story + [e])[..|story|] == story;
  }

  /** The clients whose answer is on its way. */
  function Answering(s: Sys): set<int>
    requires SysShaped(s)
  {
    (if s.k.procs[TASK_SYS].flags.sending then {s.k.procs[TASK_SYS].sendTo} else {})
    + (if s.k.procs[TASK_MM].flags.sending then {s.k.procs[TASK_MM].sendTo} else {})
  }

  /** The process manager has reported `c` and is about to free it. */
  predicate ToldAt(mm: Pc, c: int) {
    mm.Reap? && mm.child == c
  }

  predicate SameEnds(mm: Pc, mm': Pc, c: int) {
    (EndsAt(mm, c) <==> EndsAt(mm', c)) && (ToldAt(mm, c) <==> ToldAt(mm', c))
  }

  /** The state of slot `c` is the one its story leads to. */
  predicate Matches(s: Sys, c: nat, answering: set<int>, st: Stage)
    requires SysShaped(s) && c < |s.k.procs|
  {
    var pr := s.k.procs[c];
    && (match PhaseOf(pr, s.pc[c])
        case Vacant => st.mode == Gone
        case Running => st.mode == AtRest
        case Queued(sv) => st.mode == Asking(sv)
        case Held(sv) =>
          if c in answering then st.mode == AtRest
          else if ToldAt(s.pc[TASK_MM], c) then st.mode == Told
          else if pr.flags.hanging || EndsAt(s.pc[TASK_MM], c) then st.mode == Ended(pr.exitStatus)
          else st.mode == Asking(sv)
        case Broken => false)
    && (!pr.flags.free ==> st.parent == pr.parent)
  }

  ghost predicate Tells(s: Sys, answering: set<int>)
    requires SysShaped(s)
  {
    forall c: nat :: INIT <= c < |s.k.procs| ==> Matches(s, c, answering, StageOf(|s.k.procs|, s.story, c))
  }

  ghost predicate StoryOk(s: Sys)
    requires SysShaped(s)
  {
    Tells(s, Answering(s))
  }

  /** Who is no party to a step keeps its stage. */
  lemma MatchesStill(s: Sys, t: Sys, c: nat, before: set<int>, after: set<int>, st: Stage)
    requires SysShaped(s) && SysShaped(t) && c < |s.k.procs| && c < |t.k.procs|
    requires t.k.procs[c] == s.k.procs[c] && t.pc[c] == s.pc[c] && SameEnds(s.pc[TASK_MM], t.pc[TASK_MM], c)
    requires c in before <==> c in after
    ensures Matches(t, c, after, st) <==> Matches(s, c, before, st)
  {
  }

  /** What a step is to a client that is no party to it. */
  ghost predicate NoPart(s: Sys, t: Sys, answering: set<int>, c: nat)
    requires SysShaped(s) && SysShaped(t)
  {
    && (c in Answering(s) <==> c in answering) && SameEnds(s.pc[TASK_MM], t.pc[TASK_MM], c)
    && StageOf(|s.k.procs|, t.story, c) == StageOf(|s.k.procs|, s.story, c)
  }

  /** One more event concerns one slot. */
  lemma OneEvent(s: Sys, t: Sys, e: Event, answering: set<int>)
    requires SysShaped(s) && SysShaped(t) && t.story == s.story + [e]
    requires forall c: int :: c != e.pid ==>
               (c in Answering(s) <==> c in answering) && SameEnds(s.pc[TASK_MM], t.pc[TASK_MM], c)
    ensures forall c: nat :: c != e.pid ==> NoPart(s, t, answering, c)
    ensures StageOf(|s.k.procs|, t.story, e.pid) == After(StageOf(|s.k.procs|, s.story, e.pid), e, e.pid)
  {
    forall c: nat ensures StageOf(|s.k.procs|, t.story, c) == After(StageOf(|s.k.procs|, s.story, c), e, c) {
      StageAfter(|s.k.procs|, s.story, e, c);
    }
  }

  /** The story after a step in which no client but `x` moves. */
  lemma OneMoves(s: Sys, t: Sys, x: nat, answering: set<int>)
    requires SysShaped(s) && SysShaped(t) && StoryOk(s) && |t.k.procs| == |s.k.procs|
    requires forall c: nat :: INIT <= c < |s.k.procs| && c != x ==>
               t.k.procs[c] == s.k.procs[c] && t.pc[c] == s.pc[c] && NoPart(s, t, answering, c)
    requires INIT <= x < |s.k.procs| ==> Matches(t, x, answering, StageOf(|s.k.procs|, t.story, x))
    ensures Tells(t, answering)
  {
    var n := |s.k.procs|;
    forall c: nat | INIT <= c < n ensures Matches(t, c, answering, StageOf(n, t.story, c)) {
      if c != x {
        assert Matches(s, c, Answering(s), StageOf(n, s.story, c)) && NoPart(s, t, answering, c);
        MatchesStill(s, t, c, Answering(s), answering, StageOf(n, s.story, c));
      }
    }
  }

  // ---- System calls

  lemma AnswersTell(s: Sys, sv: nat, d: nat, m: Ptr, answering: set<int>)
    requires SysShaped(s) && s.k.ready == sv && IsServer(sv) && INIT <= d < |s.k.procs|
    requires s.k.procs[sv].flags == READY && PhaseOf(s.k.procs[d], s.pc[d]) == Held(sv) && !s.k.procs[d].flags.sending
    requires Accepts(s.k.procs, d, sv) ==> s.k.procs[d].flags == RECEIVING
    requires answering == Answering(s) + {d} && Tells(s, answering)
    ensures StoryOk(Called(s, Send(d, m)))
  {
    var t := Called(s, Send(d, m));
    forall c: nat | INIT <= c < |s.k.procs| ensures Matches(t, c, Answering(t), StageOf(|s.k.procs|, s.story, c)) {
      assert Matches(s, c, answering, StageOf(|s.k.procs|, s.story, c));
    }
  }

  /** A client that is at rest, or blocked in a send to a server, is not being answered. */
  lemma NotAnswered(s: Sys, c: nat)
    requires SysShaped(s) && Protocol(s) && INIT <= c < |s.k.procs| && !PhaseOf(s.k.procs[c], s.pc[c]).Held?
    ensures c !in Answering(s) && !EndsAt(s.pc[TASK_MM], c)
  {
    assert ClientOk(s, c, Debts(s, TASK_SYS), Debts(s, TASK_MM));
  }

  lemma AsksTell(s: Sys, p: nat, sv: nat, m: Ptr)
    requires SysShaped(s) && StoryOk(s) && s.k.ready == p && INIT <= p && IsServer(sv) && m != 0
    requires s.pc[p] == User && s.k.procs[p].flags == READY && p !in Answering(s)
    requires !EndsAt(s.pc[TASK_MM], p)
    ensures StoryOk(Called(s.(pc := s.pc[p := Asked(sv, m)], story := s.story + [Requested(p, sv)]), Send(sv, m)))
  {
    var t := Called(s.(pc := s.pc[p := Asked(sv, m)], story := s.story + [Requested(p, sv)]), Send(sv, m));
    assert Answering(t) == Answering(s);
    assert Matches(s, p, Answering(s), StageOf(|s.k.procs|, s.story, p));
    OneEvent(s, t, Requested(p, sv), Answering(t));
    OneMoves(s, t, p, Answering(t));
  }

  /** The system task is about to answer `d`. */
  lemma AnsweringTells(s: Sys, t: Sys, d: nat)
    requires SysShaped(s) && SysShaped(t) && StoryOk(s) && t.k.procs == s.k.procs && INIT <= d < |s.k.procs|
    requires t.pc == s.pc[TASK_SYS := Serve] && t.story == s.story + [Answered(d, TASK_SYS)]
    requires PhaseOf(s.k.procs[d], s.pc[d]) == Held(TASK_SYS) && d !in Answering(s)
    requires !s.k.procs[d].flags.hanging && !EndsAt(s.pc[TASK_MM], d)
    ensures Tells(t, Answering(t) + {d as int})
  {
    assert Answering(t) == Answering(s);
    assert Matches(s, d, Answering(s), StageOf(|s.k.procs|, s.story, d));
    OneEvent(s, t, Answered(d, TASK_SYS), Answering(t) + {d as int});
    OneMoves(s, t, d, Answering(t) + {d as int});
  }

  lemma AwaitsTell(s: Sys, p: nat, sv: nat, m: Ptr)
    requires SysShaped(s) && StoryOk(s) && s.k.ready == p && INIT <= p && IsServer(sv) && m != 0
    requires s.pc[p] == Asked(sv, m) && s.k.procs[p].flags == READY
    requires forall z: nat :: IsServer(z) && Sends(s.k.procs, z, p) ==> z == sv
    ensures StoryOk(Called(s.(pc := s.pc[p := User]), Receive(sv, m)))
  {
    var t := Called(s.(pc := s.pc[p := User]), Receive(sv, m));
    assert Sends(s.k.procs, TASK_SYS, p) ==> sv == TASK_SYS;
    assert Sends(s.k.procs, TASK_MM, p) ==> sv == TASK_MM;
    assert Answering(t) == if Sends(s.k.procs, sv, p) then Answering(s) - {p as int} else Answering(s);
    assert Matches(s, p, Answering(s), StageOf(|s.k.procs|, s.story, p));
    OneMoves(s, t, p, Answering(t));
  }

  lemma ListensTell(s: Sys, sv: nat)
    requires SysShaped(s) && StoryOk(s) && s.k.ready == sv && IsServer(sv) && s.pc[sv] == Serve
    requires s.k.procs[sv].flags == READY
    requires |s.k.queues[sv]| > 0 ==>
               var f := s.k.queues[sv][0];
               && INIT <= f < |s.k.procs| && PhaseOf(s.k.procs[f], s.pc[f]) == Queued(sv) && f !in Answering(s)
               && !EndsAt(s.pc[TASK_MM], f)
    ensures StoryOk(Called(s.(pc := s.pc[sv := Handle]), Receive(Any(|s.k.procs|), BUFFER)))
  {
    var t := Called(s.(pc := s.pc[sv := Handle]), Receive(Any(|s.k.procs|), BUFFER));
    assert Answering(t) == Answering(s);
    if |s.k.queues[sv]| == 0 {
      OneMoves(s, t, sv, Answering(t));
    } else {
      var f := s.k.queues[sv][0];
      assert Matches(s, f, Answering(s), StageOf(|s.k.procs|, s.story, f));
      OneMoves(s, t, f, Answering(t));
    }
  }

  // ---- The process manager

  /** The story with the answer the manager is about to send. */
  ghost predicate WillTell(pr: Prepared) {
    SysShaped(SysOf(pr))
    && Tells(SysOf(pr), Answering(SysOf(pr)) + if pr.call.Send? then {pr.call.dest} else {})
  }

  /** The story after a step of the manager, from what it does to `x` and `y`. */
  lemma StillTells(s: Sys, t: Sys, x: nat, y: nat, answering: set<int>)
    requires SysShaped(s) && SysShaped(t) && StoryOk(s) && Touches(s, t, x, y)
    requires forall c: nat :: INIT <= c < |s.k.procs| && c != x && c != y ==> NoPart(s, t, answering, c)
    requires INIT <= x < |s.k.procs| && Matches(t, x, answering, StageOf(|s.k.procs|, t.story, x))
    requires INIT <= y < |s.k.procs| && Matches(t, y, answering, StageOf(|s.k.procs|, t.story, y))
    ensures Tells(t, answering)
  {
    var n := |s.k.procs|;
    forall c: nat | INIT <= c < n ensures Matches(t, c, answering, StageOf(n, t.story, c)) {
      if c != x && c != y {
        assert NoPart(s, t, answering, c);
        assert Matches(s, c, Answering(s), StageOf(n, s.story, c));
        MatchesStill(s, t, c, Answering(s), answering, StageOf(n, s.story, c));
      }
    }
  }

  /** A client the manager owes an answer is on nobody's way to be answered. */
  lemma OwedIsAsking(s: Sys, d: nat)
    requires AtWork(s) && StoryOk(s) && INIT <= d < |s.k.procs| && d in Debts(s, TASK_MM)
    ensures PhaseOf(s.k.procs[d], s.pc[d]) == Held(TASK_MM) && d !in Answering(s) && !s.k.procs[d].flags.waiting
    ensures StageOf(|s.k.procs|, s.story, d).parent == s.k.procs[d].parent
    ensures !EndsAt(s.pc[TASK_MM], d) ==>
              StageOf(|s.k.procs|, s.story, d).mode == Asking(TASK_MM) && !s.k.procs[d].flags.hanging
    ensures s.pc[TASK_MM].Tell? && s.pc[TASK_MM].child == d ==>
              StageOf(|s.k.procs|, s.story, d).mode == Ended(s.k.procs[d].exitStatus)
    ensures ToldAt(s.pc[TASK_MM], d) ==> StageOf(|s.k.procs|, s.story, d).mode == Told
  {
    assert ClientOk(s, d, Debts(s, TASK_SYS), Debts(s, TASK_MM));
    assert Matches(s, d, Answering(s), StageOf(|s.k.procs|, s.story, d));
  }

  /** The same for a client put aside as WAITING or HANGING. */
  lemma AsideIsAsking(s: Sys, d: nat)
    requires AtWork(s) && StoryOk(s) && INIT <= d < |s.k.procs|
    requires s.k.procs[d].flags.waiting || (s.k.procs[d].flags.hanging && d !in Debts(s, TASK_MM))
    ensures PhaseOf(s.k.procs[d], s.pc[d]) == Held(TASK_MM) && d !in Answering(s) && d !in Debts(s, TASK_MM)
    ensures StageOf(|s.k.procs|, s.story, d).parent == s.k.procs[d].parent
    ensures StageOf(|s.k.procs|, s.story, d).mode
         == if s.k.procs[d].flags.hanging then Ended(s.k.procs[d].exitStatus) else Asking(TASK_MM)
  {
    assert ClientOk(s, d, Debts(s, TASK_SYS), Debts(s, TASK_MM));
    assert Matches(s, d, Answering(s), StageOf(|s.k.procs|, s.story, d));
  }

  lemma AnswerTells(s: Sys, at: Ptr, m: Message, d: nat, next: Pc)
    requires AtWork(s) && StoryOk(s) && INIT <= d < |s.k.procs| && d in Debts(s, TASK_MM)
    requires !EndsAt(s.pc[TASK_MM], d) && forall z: int :: SameEnds(s.pc[TASK_MM], next, z)
    ensures WillTell(Reply(s, at, m, d, next, s.story))
  {
    var t := SysOf(Reply(s, at, m, d, next, s.story));
    var answering := Answering(t) + {d as int};
    OwedIsAsking(s, d);
    OneEvent(s, t, Answered(d, TASK_MM), answering);
    StillTells(s, t, d, d, answering);
  }

  lemma CleanupTells(s: Sys, child: nat, rest: Rest)
    requires AtWork(s) && StoryOk(s) && s.pc[TASK_MM] == Tell(child, rest)
    ensures WillTell(Cleanup(s, child, rest))
  {
    var n, t := |s.k.procs|, SysOf(Cleanup(s, child, rest));
    assert ParentOk(s, child);
    var q: nat := s.k.procs[child].parent;
    var reported := Reported(child, s.k.procs[child].exitStatus, q);
    OwedIsAsking(s, child);
    OwedIsAsking(s, q);
    forall c: nat
      ensures StageOf(n, t.story, c) == After(After(StageOf(n, s.story, c), reported, c), Answered(q, TASK_MM), c)
    {
      StageAfter(n, s.story, reported, c);
      StageAfter(n, s.story + [reported], Answered(q, TASK_MM), c);
    }
    var answering := Answering(t) + {q as int};
    forall c: nat | INIT <= c < n && c != q && c != child ensures NoPart(s, t, answering, c) {
    }
    StillTells(s, t, child, q, answering);
  }

  lemma FreeTells(s: Sys, child: nat, rest: Rest)
    requires AtWork(s) && StoryOk(s) && s.pc[TASK_MM] == Reap(child, rest)
    ensures WillTell(Free(s, child, rest))
  {
    var t := SysOf(Free(s, child, rest));
    OwedIsAsking(s, child);
    OneEvent(s, t, Freed(child), Answering(t));
    assert ClientOk(s, child, Debts(s, TASK_SYS), Debts(s, TASK_MM));
    StillTells(s, t, child, child, Answering(t));
  }

  lemma ForkStory(s: Sys, src: nat)
    requires Busy(s, src) && StoryOk(s)
    ensures WillTell(Fork(s, src))
  {
    if FirstFree(s.k.procs, 0) == |s.k.procs| {
      AnswerTells(s, BUFFER, Load(s.k.mem[TASK_MM], BUFFER).(retval := -1, kind := SYSCALL_RET), src, Serve);
    } else {
      BirthTells(s, src);
    }
  }

  lemma BirthTells(s: Sys, src: nat)
    requires Busy(s, src) && StoryOk(s) && FirstFree(s.k.procs, 0) < |s.k.procs|
    ensures WillTell(Fork(s, src))
  {
    var n, child, t := |s.k.procs|, FirstFree(s.k.procs, 0), SysOf(Fork(s, src));
    OwedIsAsking(s, src);
    FreeIsForked(s);
    assert Matches(s, child, Answering(s), StageOf(n, s.story, child));
    OneEvent(s, t, Born(child, src), Answering(t));
    AnsweringNobodyFree(s, child);
    assert Matches(s, src, Answering(s), StageOf(n, s.story, src));
    MatchesStill(s, t, src, Answering(s), Answering(t), StageOf(n, s.story, src));
    StillTells(s, t, child, src, Answering(t));
  }

  /** No server is blocked in a reply to a free slot. */
  lemma AnsweringNobodyFree(s: Sys, c: nat)
    requires SysInv(s) && INIT <= c < |s.k.procs| && s.k.procs[c].flags.free
    ensures c !in Answering(s)
  {
    assert ClientOk(s, c, Debts(s, TASK_SYS), Debts(s, TASK_MM));
  }

  lemma CopyTells(s: Sys, child: nat, src: nat)
    requires AtWork(s) && StoryOk(s) && s.pc[TASK_MM] == Copying(child, src)
    ensures WillTell(CopyMemory(s, child, src))
  {
    var n, t := |s.k.procs|, SysOf(CopyMemory(s, child, src));
    assert Matches(s, child, Answering(s), StageOf(n, s.story, child));
    MatchesStill(s, t, child, Answering(s), Answering(t), StageOf(n, s.story, child));
    StillTells(s, t, child, child, Answering(t));
  }

  lemma ExitStory(s: Sys, pid: nat, status: int)
    requires Busy(s, pid) && StoryOk(s) && FIRST_FORKED <= pid && 0 <= s.k.procs[pid].parent < |s.k.procs|
    ensures WillTell(Exit(Intended, s, pid, status))
  {
    var t := SysOf(Exit(Intended, s, pid, status));
    assert ParentOk(s, pid);
    if s.k.procs[s.k.procs[pid].parent].flags.waiting {
      ExitedIsTold(s, t, pid, s.k.procs[pid].parent, status);
    } else {
      ExitedHangs(s, t, pid, status);
    }
  }

  lemma ExitedIsTold(s: Sys, t: Sys, pid: nat, q: nat, status: int)
    requires Busy(s, pid) && StoryOk(s) && INIT <= q < |s.k.procs| && q != pid && s.k.procs[q].flags.waiting
    requires SysShaped(t) && t.pc == s.pc[TASK_MM := Tell(pid, Orphans(pid, 0))]
    requires t.k == Waiting(SetProc(s.k, pid, s.k.procs[pid].(exitStatus := status)), q, false)
    requires t.story == s.story + [Exited(pid, status)]
    ensures Tells(t, Answering(t))
  {
    OwedIsAsking(s, pid);
    AsideIsAsking(s, q);
    assert ClientOk(s, q, Debts(s, TASK_SYS), Debts(s, TASK_MM));
    OneEvent(s, t, Exited(pid, status), Answering(t));
    StillTells(s, t, pid, q, Answering(t));
  }

  lemma ExitedHangs(s: Sys, t: Sys, pid: nat, status: int)
    requires Busy(s, pid) && StoryOk(s) && SysShaped(t) && t.pc == s.pc[TASK_MM := Scan(pid, 0)]
    requires t.k == Hanging(SetProc(s.k, pid, s.k.procs[pid].(exitStatus := status)), pid)
    requires t.story == s.story + [Exited(pid, status)]
    ensures Tells(t, Answering(t))
  {
    OwedIsAsking(s, pid);
    OneEvent(s, t, Exited(pid, status), Answering(t));
    StillTells(s, t, pid, pid, Answering(t));
  }

  lemma ScanTells(s: Sys, exiting: nat, i: nat)
    requires AtWork(s) && StoryOk(s) && s.pc[TASK_MM] == Scan(exiting, i)
    ensures WillTell(ScanStep(Intended, s, exiting, i))
  {
    var n, t := |s.k.procs|, SysOf(ScanStep(Intended, s, exiting, i));
    assert Matches(s, INIT, Answering(s), StageOf(n, s.story, INIT));
    assert ParentOk(s, INIT);
    if i >= n || s.k.procs[i].parent != exiting {
      StillTells(s, t, INIT, INIT, Answering(t));
    } else {
      assert ParentOk(s, i);
      AdoptionTells(s, t, exiting, i);
    }
  }

  function AdoptedStory(s: Sys, i: nat): seq<Event>
    requires SysShaped(s) && i < |s.k.procs|
  {
    if s.k.procs[i].flags.free then s.story else s.story + [Adopted(i)]
  }

  lemma AdoptionTells(s: Sys, t: Sys, exiting: nat, i: nat)
    requires AtWork(s) && StoryOk(s) && s.pc[TASK_MM] == Scan(exiting, i) && FIRST_FORKED <= i < |s.k.procs|
    requires s.k.procs[i].parent == exiting && t == SysOf(ScanStep(Intended, s, exiting, i))
    ensures Tells(t, Answering(t))
  {
    assert t.story == AdoptedStory(s, i);
    if s.k.procs[INIT].flags.waiting && s.k.procs[i].flags.hanging {
      AdoptedIsTold(s, t, exiting, i);
    } else {
      AdoptedIsKept(s, t, exiting, i);
    }
  }

  lemma AdoptedIsKept(s: Sys, t: Sys, exiting: nat, i: nat)
    requires AtWork(s) && StoryOk(s) && s.pc[TASK_MM] == Scan(exiting, i) && FIRST_FORKED <= i < |s.k.procs|
    requires SysShaped(t) && t.k == Handed(s, i) && t.pc == s.pc[TASK_MM := Scan(exiting, i + 1)]
    requires t.story == AdoptedStory(s, i)
    ensures Tells(t, Answering(t))
  {
    var n := |s.k.procs|;
    assert Matches(s, i, Answering(s), StageOf(n, s.story, i));
    if !s.k.procs[i].flags.free {
      OneEvent(s, t, Adopted(i), Answering(t));
    }
    StillTells(s, t, i, i, Answering(t));
  }

  lemma AdoptedIsTold(s: Sys, t: Sys, exiting: nat, i: nat)
    requires AtWork(s) && StoryOk(s) && s.pc[TASK_MM] == Scan(exiting, i) && FIRST_FORKED <= i < |s.k.procs|
    requires s.k.procs[INIT].flags.waiting && s.k.procs[i].flags.hanging
    requires SysShaped(t) && t.k == Waiting(Handed(s, i), INIT, false)
    requires t.pc == s.pc[TASK_MM := Tell(i, Orphans(exiting, i + 1))] && t.story == AdoptedStory(s, i)
    ensures Tells(t, Answering(t))
  {
    AsideIsAsking(s, INIT);
    AsideIsAsking(s, i);
    assert ClientOk(s, INIT, Debts(s, TASK_SYS), Debts(s, TASK_MM));
    if !s.k.procs[i].flags.free {
      OneEvent(s, t, Adopted(i), Answering(t));
    }
    StillTells(s, t, i, INIT, Answering(t));
  }

  lemma WaitStory(s: Sys, pid: nat)
    requires Busy(s, pid) && StoryOk(s)
    ensures WillTell(Wait(Intended, s, pid))
  {
    var n, t := |s.k.procs|, SysOf(Wait(Intended, s, pid));
    var z := FirstZombie(Intended, s.k.procs, pid, 0);
    if z < n {
      ZombieTells(s, t, pid, z);
    } else if HasChild(Intended, s.k.procs, pid) {
      OwedIsAsking(s, pid);
      StillTells(s, t, pid, pid, Answering(t));
    } else {
      AnswerTells(s, LOCAL, Message(TASK_MM, SYSCALL_RET, 0, NoTask(n)), pid, Serve);
    }
  }

  lemma ZombieTells(s: Sys, t: Sys, pid: nat, z: nat)
    requires Busy(s, pid) && StoryOk(s) && z < |s.k.procs| && Counts(Intended, s.k.procs, pid, z)
    requires s.k.procs[z].flags.hanging && t == s.(pc := s.pc[TASK_MM := Tell(z, Done)])
    ensures Tells(t, Answering(t))
  {
    assert ParentOk(s, pid) && ParentOk(s, z);
    assert ClientOk(s, z, Debts(s, TASK_SYS), Debts(s, TASK_MM));
    AsideIsAsking(s, z);
    StillTells(s, t, z, z, Answering(t));
  }

  lemma LoadTells(s: Sys, src: nat, result: int, image: Memory)
    requires Busy(s, src) && StoryOk(s)
    ensures WillTell(LoadProgram(s, src, result, image))
  {
    var n, t := |s.k.procs|, SysOf(LoadProgram(s, src, result, image));
    assert Matches(s, src, Answering(s), StageOf(n, s.story, src));
    MatchesStill(s, t, src, Answering(s), Answering(t), StageOf(n, s.story, src));
    StillTells(s, t, src, src, Answering(t));
  }

  lemma ManageTells(s: Sys, r: int, image: Memory)
    requires AtWork(s) && StoryOk(s) && s.pc[TASK_MM] == Handle
    ensures WillTell(ManageRequest(Intended, s, r, image))
  {
    var got := Load(s.k.mem[TASK_MM], BUFFER);
    ManageSettles(s, r, image);
    var d: nat := got.source;
    assert Busy(s, d) && d in Debts(s, TASK_MM);
    if got.kind == FORK {
      ForkStory(s, d);
    } else if got.kind == EXIT {
      assert ParentOk(s, d) && FIRST_FORKED <= d;
      ExitStory(s, d, got.retval);
    } else if got.kind == WAIT {
      WaitStory(s, d);
    } else {
      LoadTells(s, d, r, image);
    }
  }

  lemma RestTells(s: Sys)
    requires AtWork(s) && StoryOk(s) && UnderWay(s.pc[TASK_MM])
    ensures WillTell(ManageRest(Intended, s))
  {
    match s.pc[TASK_MM]
    case Copying(child, src) => CopyTells(s, child, src);
    case Start(child, src) => AnswerTells(s, LOCAL, Message(TASK_MM, SYSCALL_RET, 0, 0), child, ReplyTo(src));
    case ReplyTo(c) =>
      AnswerTells(s, BUFFER, Load(s.k.mem[TASK_MM], BUFFER).(retval := 0, kind := SYSCALL_RET), c, Serve);
    case Tell(child, rest) => CleanupTells(s, child, rest);
    case Reap(child, rest) => FreeTells(s, child, rest);
    case Loaded(c, result) =>
      AnswerTells(s, BUFFER, Load(s.k.mem[TASK_MM], BUFFER).(retval := result, kind := SYSCALL_RET), c, Serve);
    case Scan(exiting, i) => ScanTells(s, exiting, i);
  }
}
