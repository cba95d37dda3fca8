/** Runs of the code as written, from boot, into the states in which `do_exit`,
    `do_wait` and `do_execl` do harm and in which `fork` finds the table full. */
module SystemExamples {
  import opened IpcState
  import opened IpcSchedule
  import opened System
  import opened SystemInv
  import opened SystemManager
  import opened SystemFamily
  import opened SystemRuns
  import opened SystemTheorems
  import opened SystemAsWritten
  import opened SystemExec

  // ---- Getting from one state to another

  /** From `s` the actions lead to `t`, and each stays on course. */
  ghost predicate Executes(s: Sys, acts: seq<Action>, t: Sys)
    decreases |acts|
  {
    if acts == [] then s == t
    else
      SysShaped(s) && Can(s, acts[0]) && StaysOnCourse(s, acts[0])
      && Executes(Finish(Prepare(AsWritten, s, acts[0])), acts[1..], t)
  }

  ghost predicate Leads(s: Sys, t: Sys) {
    exists acts :: Executes(s, acts, t)
  }

  lemma {:induction false} ExecutesOn(s: Sys, acts: seq<Action>, t: Sys, a: Action)
    requires Executes(s, acts, t) && SysShaped(t) && Can(t, a) && StaysOnCourse(t, a)
    ensures Executes(s, acts + [a], Finish(Prepare(AsWritten, t, a)))
    decreases |acts|
  {
    if acts == [] {
      assert [a][1..] == [];
    } else {
      ExecutesOn(Finish(Prepare(AsWritten, s, acts[0])), acts[1..], t, a);
      assert (acts + [a])[1..] == acts[1..] + [a];
    }
  }

  /** The step `a` stays on course and leads from `s` to `t`. */
  ghost predicate StepsTo(s: Sys, a: Action, t: Sys) {
    SysShaped(s) && Can(s, a) && StaysOnCourse(s, a) && t == Finish(Prepare(AsWritten, s, a))
  }

  lemma Does(b: Sys, s: Sys, a: Action, t: Sys)
    requires Leads(b, s) && StepsTo(s, a, t)
    ensures Leads(b, t)
  {
    var acts :| Executes(b, acts, s);
    ExecutesOn(b, acts, s, a);
  }

  /** The clock can give the processor to any runnable process. */
  lemma {:induction false} Switches(b: Sys, s: Sys, r: nat)
    requires Leads(b, s) && SysShaped(s) && Runnable(s.k.procs, r)
    ensures Leads(b, s.(k := s.k.(ready := r)))
    decreases if s.k.ready == r then 0 else Distance(|s.k.procs|, s.k.ready, r)
  {
    if s.k.ready == r {
      assert s.(k := s.k.(ready := r)) == s;
    } else {
      var next := NextReady(s.k.procs, s.k.ready);
      NextReadyIsNext(s.k.procs, s.k.ready, r);
      var t := s.(k := s.k.(ready := next));
      Does(b, s, Clock, t);
      Switches(b, t, r);
      assert t.(k := t.k.(ready := r)) == s.(k := s.k.(ready := r));
    }
  }

  lemma {:induction false} ExecutesKeepsGood(s: Sys, acts: seq<Action>, t: Sys)
    requires Good(s) && Executes(s, acts, t)
    ensures Good(t)
    decreases |acts|
  {
    if acts != [] {
      StepAsWritten(s, acts[0]);
      ExecutesKeepsGood(Finish(Prepare(AsWritten, s, acts[0])), acts[1..], t);
    }
  }

  // ---- The scene

  const IDLE := Proc(READY, 0, NoTask(8), NoTask(8), NoTask(8), 0)
  const EMPTY := Proc(FREE_SLOT, 0, 0, 0, 0, 0)
  const LISTENING := IDLE.(flags := RECEIVING, msg := BUFFER, recvFrom := Any(8))

  /** Eight slots; what changes is INIT, the process manager and slot 7. */
  datatype Cast = Cast(init: Proc, ipc: Pc, imem: Memory, mm: Proc, mpc: Pc, mmem: Memory,
                       child: Proc, cpc: Pc, cmem: Memory)

  function Scene(c: Cast, ready: nat, story: seq<Event>): Sys {
    Sys(State([IDLE, IDLE, c.mm, c.init, IDLE, IDLE, IDLE, c.child], [[], [], [], [], [], [], [], []],
              [map[], map[], c.mmem, c.imem, map[], map[], map[], c.cmem], ready),
        [User, Serve, c.mpc, c.ipc, User, User, User, c.cpc], story)
  }

  lemma Turn(b: Sys, c: Cast, r: nat, story: seq<Event>, r': nat)
    requires Leads(b, Scene(c, r, story)) && r < 8 && Runnable(Scene(c, r, story).k.procs, r')
    ensures Leads(b, Scene(c, r', story))
  {
    Switches(b, Scene(c, r, story), r');
    assert Scene(c, r', story) == Scene(c, r, story).(k := Scene(c, r, story).k.(ready := r'));
  }

  function AtBoot(): Cast {
    Cast(IDLE, User, map[], IDLE, Serve, map[], EMPTY, User, map[])
  }

  lemma BootScene()
    ensures Boots(Scene(AtBoot(), TASK_TTY, [])) && Leads(Scene(AtBoot(), TASK_TTY, []), Scene(AtBoot(), TASK_TTY, []))
  {
    assert Executes(Scene(AtBoot(), TASK_TTY, []), [], Scene(AtBoot(), TASK_TTY, []));
  }

  // ---- What each of them can do

  /** Whom the scheduler picks when the running process blocks. */
  function Following(c: Cast, running: nat): (r: nat)
    requires running < 8
    ensures r < 8
  {
    NextReady(Scene(c, running, []).k.procs, running)
  }

  /** The step `a` from one scene to another. */
  lemma Then(b: Sys, c: Cast, r: nat, story: seq<Event>, a: Action, d: Cast, r': nat, story': seq<Event>)
    requires Leads(b, Scene(c, r, story)) && StepsTo(Scene(c, r, story), a, Scene(d, r', story'))
    ensures Leads(b, Scene(d, r', story'))
  {
    Does(b, Scene(c, r, story), a, Scene(d, r', story'));
  }

  function Listened(c: Cast): Cast {
    c.(mm := LISTENING, mpc := Handle, mmem := c.mmem[BUFFER := ZERO_MESSAGE.(source := TASK_MM)])
  }

  lemma MmListens(b: Sys, c: Cast, story: seq<Event>)
    requires Leads(b, Scene(c, TASK_MM, story)) && c.mm == IDLE && c.mpc == Serve
    ensures Leads(b, Scene(Listened(c), Following(Listened(c), TASK_MM), story))
  {
    MmListensStep(c, story);
    Then(b, c, TASK_MM, story, Listen, Listened(c), Following(Listened(c), TASK_MM), story);
  }

  lemma MmListensStep(c: Cast, story: seq<Event>)
    requires c.mm == IDLE && c.mpc == Serve
    ensures StepsTo(Scene(c, TASK_MM, story), Listen, Scene(Listened(c), Following(Listened(c), TASK_MM), story))
  {
    var s, zeroed := Scene(c, TASK_MM, story), c.(mpc := Handle, mmem := c.mmem[BUFFER := ZERO_MESSAGE]);
    assert Prepare(AsWritten, s, Listen).k == Scene(zeroed, TASK_MM, []).k;
    MmBlocks(zeroed, Listened(c));
    assert Finish(Prepare(AsWritten, s, Listen)) == Scene(Listened(c), Following(Listened(c), TASK_MM), story);
  }

  lemma MmBlocks(c: Cast, d: Cast)
    requires c.mm == IDLE && BUFFER in c.mmem && c.mmem[BUFFER] == ZERO_MESSAGE
    requires d == c.(mm := LISTENING, mmem := c.mmem[BUFFER := ZERO_MESSAGE.(source := TASK_MM)])
    ensures SysReceive(Scene(c, TASK_MM, []).k, TASK_MM, Any(8), BUFFER) == Scene(d, Following(d, TASK_MM), []).k
  {
    var t := SysReceive(Scene(c, TASK_MM, []).k, TASK_MM, Any(8), BUFFER);
    assert t.mem[TASK_MM] == d.mmem;
    assert t.procs == Scene(d, TASK_MM, []).k.procs;
    assert t == Scene(d, Following(d, TASK_MM), []).k;
  }

  /** A message of INIT, or of slot 7, to the process manager, which listens. */
  lemma InitDelivers(c: Cast, m: Message)
    requires c.mm == LISTENING && 1 in c.imem && c.imem[1] == m && m.source == INIT
    ensures SysSend(Scene(c, INIT, []).k, INIT, TASK_MM, 1)
         == Scene(c.(mm := IDLE, mmem := c.mmem[BUFFER := m]), INIT, []).k
  {
    var t := SysSend(Scene(c, INIT, []).k, INIT, TASK_MM, 1);
    assert t.mem[INIT] == c.imem && t.mem[TASK_MM] == c.mmem[BUFFER := m];
    assert t == Scene(c.(mm := IDLE, mmem := c.mmem[BUFFER := m]), INIT, []).k;
  }

  lemma ChildDelivers(c: Cast, m: Message)
    requires c.mm == LISTENING && 1 in c.cmem && c.cmem[1] == m && m.source == 7
    ensures SysSend(Scene(c, 7, []).k, 7, TASK_MM, 1) == Scene(c.(mm := IDLE, mmem := c.mmem[BUFFER := m]), 7, []).k
  {
    var t := SysSend(Scene(c, 7, []).k, 7, TASK_MM, 1);
    assert t.mem[7] == c.cmem && t.mem[TASK_MM] == c.mmem[BUFFER := m];
    assert t == Scene(c.(mm := IDLE, mmem := c.mmem[BUFFER := m]), 7, []).k;
  }

  function InitAsked(c: Cast, m: Message): Cast {
    c.(ipc := Asked(TASK_MM, 1), imem := c.imem[1 := m], mm := IDLE, mmem := c.mmem[BUFFER := m])
  }

  lemma InitAsks(c: Cast, story: seq<Event>, m: Message)
    requires c.init.flags == READY && c.ipc == User
    requires c.mm == LISTENING && c.mpc == Handle && m.kind in {FORK, WAIT, EXEC} && m.source == INIT
    ensures StepsTo(Scene(c, INIT, story), Ask(TASK_MM, 1, m),
                    Scene(InitAsked(c, m), INIT, story + [Requested(INIT, TASK_MM)]))
  {
    var s := Scene(c, INIT, story);
    var asked := c.(ipc := Asked(TASK_MM, 1), imem := c.imem[1 := m]);
    assert Prepare(AsWritten, s, Ask(TASK_MM, 1, m)).k == Scene(asked, INIT, []).k;
    InitDelivers(asked, m);
    assert Finish(Prepare(AsWritten, s, Ask(TASK_MM, 1, m)))
        == Scene(InitAsked(c, m), INIT, story + [Requested(INIT, TASK_MM)]);
  }

  function ChildAsked(c: Cast, m: Message): Cast {
    c.(cpc := Asked(TASK_MM, 1), cmem := c.cmem[1 := m], mm := IDLE, mmem := c.mmem[BUFFER := m])
  }

  lemma ChildAsks(c: Cast, story: seq<Event>, m: Message)
    requires c.child.flags == READY && c.cpc == User && c.child.parent == INIT
    requires c.mm == LISTENING && c.mpc == Handle && m.kind == EXIT && m.source == 7
    ensures StepsTo(Scene(c, 7, story), Ask(TASK_MM, 1, m),
                    Scene(ChildAsked(c, m), 7, story + [Requested(7, TASK_MM)]))
  {
    var s := Scene(c, 7, story);
    var asked := c.(cpc := Asked(TASK_MM, 1), cmem := c.cmem[1 := m]);
    assert Prepare(AsWritten, s, Ask(TASK_MM, 1, m)).k == Scene(asked, 7, []).k;
    ChildDelivers(asked, m);
    assert Finish(Prepare(AsWritten, s, Ask(TASK_MM, 1, m)))
        == Scene(ChildAsked(c, m), 7, story + [Requested(7, TASK_MM)]);
  }

  /** What INIT's record is while it waits for an answer. */
  const BLOCKED := IDLE.(flags := RECEIVING, msg := 1, recvFrom := TASK_MM)

  function InitAwaited(c: Cast): Cast {
    c.(init := BLOCKED, ipc := User)
  }

  lemma InitAwaits(c: Cast, story: seq<Event>)
    requires c.init == IDLE && c.ipc == Asked(TASK_MM, 1) && c.mm == IDLE && 1 in c.imem && c.imem[1].source == INIT
    ensures StepsTo(Scene(c, INIT, story), Await, Scene(InitAwaited(c), Following(InitAwaited(c), INIT), story))
  {
    var s, d := Scene(c, INIT, story), InitAwaited(c);
    var t := Finish(Prepare(AsWritten, s, Await));
    assert t.k.mem[INIT] == d.imem && t.k.procs == Scene(d, INIT, []).k.procs;
    assert t == Scene(d, Following(d, INIT), story);
  }

  /** INIT asks the process manager for something and waits for the answer. */
  lemma InitCalls(b: Sys, c: Cast, story: seq<Event>, m: Message)
    requires Leads(b, Scene(c, INIT, story)) && c.init == IDLE && c.ipc == User
    requires c.mm == LISTENING && c.mpc == Handle && m.kind in {FORK, WAIT, EXEC} && m.source == INIT
    ensures Leads(b, Scene(InitAwaited(InitAsked(c, m)), TASK_MM, story + [Requested(INIT, TASK_MM)]))
  {
    var asked, later := InitAsked(c, m), story + [Requested(INIT, TASK_MM)];
    var d := InitAwaited(asked);
    InitAsks(c, story, m);
    Then(b, c, INIT, story, Ask(TASK_MM, 1, m), asked, INIT, later);
    InitAwaits(asked, later);
    Then(b, asked, INIT, later, Await, d, Following(d, INIT), later);
    Turn(b, d, Following(d, INIT), later, TASK_MM);
  }

  function Forked(c: Cast): Cast {
    c.(child := c.init.(parent := INIT), cpc := c.ipc, mpc := Copying(7, INIT))
  }

  lemma MmForks(c: Cast, story: seq<Event>)
    requires c.mm == IDLE && c.mpc == Handle && c.child == EMPTY && c.init.flags != FREE_SLOT
    requires BUFFER in c.mmem && c.mmem[BUFFER].kind == FORK && c.mmem[BUFFER].source == INIT
    ensures StepsTo(Scene(c, TASK_MM, story), Manage(0, map[]), Scene(Forked(c), TASK_MM, story + [Born(7, INIT)]))
  {
    var s := Scene(c, TASK_MM, story);
    assert s.k.procs[7].flags == FREE_SLOT && FirstFree(s.k.procs, 0) == 7;
    assert Finish(Prepare(AsWritten, s, Manage(0, map[]))) == Scene(Forked(c), TASK_MM, story + [Born(7, INIT)]);
  }

  function Copied(c: Cast): Cast
    requires BUFFER in c.mmem
  {
    c.(cmem := c.imem, mmem := c.mmem[BUFFER := c.mmem[BUFFER].(pid := 7)], mpc := Start(7, INIT))
  }

  lemma MmCopies(c: Cast, story: seq<Event>)
    requires c.mm == IDLE && c.mpc == Copying(7, INIT) && BUFFER in c.mmem
    ensures StepsTo(Scene(c, TASK_MM, story), Resume, Scene(Copied(c), TASK_MM, story))
  {
    assert Finish(Prepare(AsWritten, Scene(c, TASK_MM, story), Resume)) == Scene(Copied(c), TASK_MM, story);
  }

  /** A message of the process manager to INIT, or to slot 7, which waits for it. */
  lemma InitReceives(c: Cast, at: Ptr, m: Message)
    requires c.init.flags.receiving && c.init == BLOCKED.(flags := c.init.flags) && at in c.mmem && c.mmem[at] == m
    ensures SysSend(Scene(c, TASK_MM, []).k, TASK_MM, INIT, at)
         == Scene(c.(init := IDLE.(flags := c.init.flags.(receiving := false)),
                     imem := c.imem[1 := m.(source := TASK_MM)], mmem := c.mmem[at := m.(source := TASK_MM)]),
                  TASK_MM, []).k
  {
    var t, stamped := SysSend(Scene(c, TASK_MM, []).k, TASK_MM, INIT, at), m.(source := TASK_MM);
    assert t.mem[INIT] == c.imem[1 := stamped] && t.mem[TASK_MM] == c.mmem[at := stamped];
    assert t == Scene(c.(init := IDLE.(flags := c.init.flags.(receiving := false)), imem := c.imem[1 := stamped],
                         mmem := c.mmem[at := stamped]), TASK_MM, []).k;
  }

  lemma ChildReceives(c: Cast, at: Ptr, m: Message)
    requires c.child == BLOCKED.(parent := INIT) && at in c.mmem && c.mmem[at] == m && m.source == TASK_MM
    ensures SysSend(Scene(c, TASK_MM, []).k, TASK_MM, 7, at)
         == Scene(c.(child := IDLE.(parent := INIT), cmem := c.cmem[1 := m]), TASK_MM, []).k
  {
    var t := SysSend(Scene(c, TASK_MM, []).k, TASK_MM, 7, at);
    assert t.mem[7] == c.cmem[1 := m] && t.mem[TASK_MM] == c.mmem;
    assert t == Scene(c.(child := IDLE.(parent := INIT), cmem := c.cmem[1 := m]), TASK_MM, []).k;
  }

  function Started(c: Cast): Cast {
    var m := Message(TASK_MM, SYSCALL_RET, 0, 0);
    c.(child := IDLE.(parent := INIT), cmem := c.cmem[1 := m], mmem := c.mmem[LOCAL := m], mpc := ReplyTo(INIT))
  }

  lemma MmStarts(c: Cast, story: seq<Event>)
    requires c.mm == IDLE && c.mpc == Start(7, INIT) && c.child == BLOCKED.(parent := INIT)
    ensures StepsTo(Scene(c, TASK_MM, story), Resume, Scene(Started(c), TASK_MM, story + [Answered(7, TASK_MM)]))
  {
    var s, m := Scene(c, TASK_MM, story), Message(TASK_MM, SYSCALL_RET, 0, 0);
    var built := c.(mmem := c.mmem[LOCAL := m], mpc := ReplyTo(INIT));
    assert Prepare(AsWritten, s, Resume).k == Scene(built, TASK_MM, []).k;
    ChildReceives(built, LOCAL, m);
    assert Finish(Prepare(AsWritten, s, Resume)) == Scene(Started(c), TASK_MM, story + [Answered(7, TASK_MM)]);
  }

  function Served(c: Cast): Cast
    requires BUFFER in c.mmem
  {
    var m := c.mmem[BUFFER].(source := TASK_MM, retval := 0, kind := SYSCALL_RET);
    c.(init := IDLE, imem := c.imem[1 := m], mmem := c.mmem[BUFFER := m], mpc := Serve)
  }

  lemma MmAnswers(c: Cast, story: seq<Event>)
    requires c.mm == IDLE && c.mpc == ReplyTo(INIT) && c.init == BLOCKED && BUFFER in c.mmem
    ensures StepsTo(Scene(c, TASK_MM, story), Resume, Scene(Served(c), TASK_MM, story + [Answered(INIT, TASK_MM)]))
  {
    var s, m := Scene(c, TASK_MM, story), c.mmem[BUFFER].(retval := 0, kind := SYSCALL_RET);
    var built := c.(mmem := c.mmem[BUFFER := m], mpc := Serve);
    assert Prepare(AsWritten, s, Resume).k == Scene(built, TASK_MM, []).k;
    InitReceives(built, BUFFER, m);
    assert built.mmem[BUFFER := m.(source := TASK_MM)] == Served(c).mmem;
    assert Finish(Prepare(AsWritten, s, Resume)) == Scene(Served(c), TASK_MM, story + [Answered(INIT, TASK_MM)]);
  }

  // ---- INIT with one child

  /** Where INIT, the process manager and slot 7 stand once INIT has forked. */
  ghost predicate Parented(c: Cast) {
    && c.init == IDLE && c.ipc == User && c.child == IDLE.(parent := INIT) && c.cpc == User
    && c.mm == LISTENING && c.mpc == Handle
  }

  /** From boot INIT can come to have a child, slot 7. */
  lemma InitForks() returns (c: Cast, r: nat, story: seq<Event>)
    ensures r < 8 && Parented(c) && Leads(Scene(AtBoot(), TASK_TTY, []), Scene(c, r, story))
  {
    var b := Scene(AtBoot(), TASK_TTY, []);
    c, story := ChildIsMade();
    MmStarts(c, story);
    Then(b, c, TASK_MM, story, Resume, Started(c), TASK_MM, story + [Answered(7, TASK_MM)]);
    c, story := Started(c), story + [Answered(7, TASK_MM)];
    MmAnswers(c, story);
    Then(b, c, TASK_MM, story, Resume, Served(c), TASK_MM, story + [Answered(INIT, TASK_MM)]);
    c, story := Served(c), story + [Answered(INIT, TASK_MM)];
    MmListens(b, c, story);
    c := Listened(c);
    r := Following(c, TASK_MM);
  }

  lemma ChildIsMade() returns (c: Cast, story: seq<Event>)
    ensures Leads(Scene(AtBoot(), TASK_TTY, []), Scene(c, TASK_MM, story))
    ensures c.init == BLOCKED && c.ipc == User && c.child == BLOCKED.(parent := INIT) && c.cpc == User
    ensures c.mm == IDLE && c.mpc == Start(7, INIT) && BUFFER in c.mmem
  {
    var b := Scene(AtBoot(), TASK_TTY, []);
    c, story := InitAsksToFork();
    MmForks(c, story);
    Then(b, c, TASK_MM, story, Manage(0, map[]), Forked(c), TASK_MM, story + [Born(7, INIT)]);
    c, story := Forked(c), story + [Born(7, INIT)];
    MmCopies(c, story);
    Then(b, c, TASK_MM, story, Resume, Copied(c), TASK_MM, story);
    c := Copied(c);
  }

  /** The process manager listens, and INIT runs. */
  lemma InitRuns()
    ensures Leads(Scene(AtBoot(), TASK_TTY, []), Scene(Listened(AtBoot()), INIT, []))
  {
    var b, c := Scene(AtBoot(), TASK_TTY, []), Listened(AtBoot());
    BootScene();
    Turn(b, AtBoot(), TASK_TTY, [], TASK_MM);
    MmListens(b, AtBoot(), []);
    Turn(b, c, Following(c, TASK_MM), [], INIT);
  }

  lemma InitAsksToFork() returns (c: Cast, story: seq<Event>)
    ensures Leads(Scene(AtBoot(), TASK_TTY, []), Scene(c, TASK_MM, story))
    ensures c.init == BLOCKED && c.ipc == User && c.child == EMPTY && c.mm == IDLE && c.mpc == Handle
    ensures BUFFER in c.mmem && c.mmem[BUFFER].kind == FORK && c.mmem[BUFFER].source == INIT
  {
    var b, m := Scene(AtBoot(), TASK_TTY, []), Message(INIT, FORK, 0, 0);
    InitRuns();
    c := Listened(AtBoot());
    InitCalls(b, c, [], m);
    c, story := InitAwaited(InitAsked(c, m)), [] + [Requested(INIT, TASK_MM)];
  }

  // ---- A run is what leads somewhere

  /** The states the actions lead through. */
  ghost function Trace(s: Sys, acts: seq<Action>, t: Sys): (run: seq<Sys>)
    requires Executes(s, acts, t)
    ensures |run| == |acts| + 1 && run[0] == s && run[|acts|] == t
    decreases |acts|
  {
    if acts == [] then [s] else [s] + Trace(Finish(Prepare(AsWritten, s, acts[0])), acts[1..], t)
  }

  lemma {:induction false} TraceFollows(s: Sys, acts: seq<Action>, t: Sys, i: nat)
    requires Executes(s, acts, t) && i < |acts|
    ensures Follows(Trace(s, acts, t), acts, i) && StaysOnCourse(Trace(s, acts, t)[i], acts[i])
    decreases |acts|
  {
    if i > 0 {
      TraceFollows(Finish(Prepare(AsWritten, s, acts[0])), acts[1..], t, i - 1);
    }
  }

  /** `t` is the last state of a run of the code as written all of whose steps stay on course. */
  ghost predicate Reached(t: Sys) {
    exists run, acts :: RunAsWritten(run, acts) && OnCourse(run, acts, |acts|) && run[|acts|] == t
  }

  lemma {:induction false} TraceOnCourse(run: seq<Sys>, acts: seq<Action>, n: nat)
    requires n <= |acts| && |run| == |acts| + 1
    requires forall i: nat :: i < n ==> SysShaped(run[i]) && StaysOnCourse(run[i], acts[i])
    ensures OnCourse(run, acts, n)
  {
    if n > 0 {
      TraceOnCourse(run, acts, n - 1);
    }
  }

  lemma LeadsIsReached(s: Sys, t: Sys)
    requires Boots(s) && Leads(s, t)
    ensures Reached(t) && Good(t)
  {
    var acts :| Executes(s, acts, t);
    var run := Trace(s, acts, t);
    forall i: nat | i < |acts| ensures Follows(run, acts, i) && StaysOnCourse(run[i], acts[i]) {
      TraceFollows(s, acts, t, i);
    }
    TraceOnCourse(run, acts, |acts|);
    assert RunAsWritten(run, acts);
    BootIsGood(s);
    ExecutesKeepsGood(s, acts, t);
  }

  // ---- exit

  /** The child asks to end. */
  lemma ChildCalls(b: Sys, c: Cast, r: nat, story: seq<Event>, m: Message)
    requires Leads(b, Scene(c, r, story)) && r < 8 && c.child == IDLE.(parent := INIT) && c.cpc == User
    requires c.mm == LISTENING && c.mpc == Handle && m == Message(7, EXIT, 5, 0)
    ensures Leads(b, Scene(ChildAsked(c, m), TASK_MM, story + [Requested(7, TASK_MM)]))
  {
    var asked, later := ChildAsked(c, m), story + [Requested(7, TASK_MM)];
    Turn(b, c, r, story, 7);
    ChildAsks(c, story, m);
    Then(b, c, 7, story, Ask(TASK_MM, 1, m), asked, 7, later);
    Turn(b, asked, 7, later, TASK_MM);
  }

  lemma ParentIsMarked(cast: Cast, story: seq<Event>)
    requires cast.init == IDLE && cast.child == IDLE.(parent := INIT) && cast.mm == IDLE
    ensures var t := Exit(AsWritten, Scene(cast, TASK_MM, story), 7, 5);
            t.call == NoCall && FirstZombie(AsWritten, t.k.procs, INIT, 0) == 8
  {
    var t := Exit(AsWritten, Scene(cast, TASK_MM, story), 7, 5);
    assert t.k.procs[7] == IDLE.(parent := INIT, exitStatus := 5) && t.k.procs[INIT].parent == NoTask(8);
    forall c: nat | c < 7 ensures t.k.procs[c].parent == NoTask(8) {
      assert Scene(cast, TASK_MM, story).k.procs[c].parent == NoTask(8);
    }
    NobodyEnded(t.k.procs, INIT);
  }

  lemma NobodyEnded(procs: seq<Proc>, pid: nat)
    requires forall c: nat :: c < |procs| && procs[c].parent == pid ==> !procs[c].flags.hanging
    ensures FirstZombie(AsWritten, procs, pid, 0) == |procs|
  {
  }

  /** A run, from boot, into a state in which INIT runs and its only child asks to
      end; there `do_exit` as written stops INIT for good and leaves no zombie
      for it to find. */
  lemma ExitFreezesParent() returns (s: Sys)
    ensures Reached(s) && Good(s) && Busy(s, 7) && Runnable(s.k.procs, INIT) && s.pc[INIT] == User
    ensures var t := ManageRequest(AsWritten, s, 0, map[]);
            && t.call == NoCall && !Good(Finish(t)) && !Runnable(t.k.procs, INIT)
            && FirstZombie(AsWritten, t.k.procs, INIT, 0) == 8
  {
    var b, m := Scene(AtBoot(), TASK_TTY, []), Message(7, EXIT, 5, 0);
    var c, r, story := InitForks();
    ChildCalls(b, c, r, story, m);
    c, story := ChildAsked(c, m), story + [Requested(7, TASK_MM)];
    s := Scene(c, TASK_MM, story);
    BootScene();
    LeadsIsReached(b, s);
    assert s.k.procs[INIT] == IDLE && s.k.procs[7].parent == INIT;
    assert ManageRequest(AsWritten, s, 0, map[]) == Exit(AsWritten, s, 7, 5);
    ExitAsWritten(s, 7, 5);
    ParentIsMarked(c, story);
  }

  // ---- wait

  function PutAside(c: Cast): Cast {
    c.(init := BLOCKED.(flags := RECEIVING.(waiting := true)), mpc := Serve)
  }

  lemma MmPutsInitAside(c: Cast, story: seq<Event>)
    requires c.mm == IDLE && c.mpc == Handle && c.child == IDLE.(parent := INIT)
    requires c.init == BLOCKED && BUFFER in c.mmem && c.mmem[BUFFER].kind == WAIT && c.mmem[BUFFER].source == INIT
    ensures StepsTo(Scene(c, TASK_MM, story), Manage(0, map[]), Scene(PutAside(c), TASK_MM, story))
  {
    var s := Scene(c, TASK_MM, story);
    assert s.k.procs[7].parent == INIT && Counts(Intended, s.k.procs, INIT, 7) && Counts(AsWritten, s.k.procs, INIT, 7);
    forall x: nat | x < 8 && s.k.procs[x].parent == INIT ensures !s.k.procs[x].flags.hanging {
      assert x == 7 ==> s.k.procs[x] == c.child;
    }
    NobodyEnded(s.k.procs, INIT);
    assert Finish(Prepare(AsWritten, s, Manage(0, map[]))) == Scene(PutAside(c), TASK_MM, story);
  }

  function ChildEnded(c: Cast): Cast {
    c.(init := BLOCKED, child := c.child.(exitStatus := 5), mpc := Tell(7, Orphans(7, 0)))
  }

  lemma MmEndsChild(c: Cast, story: seq<Event>)
    requires c.mm == IDLE && c.mpc == Handle && c.child == IDLE.(parent := INIT)
    requires c.init == BLOCKED.(flags := RECEIVING.(waiting := true))
    requires BUFFER in c.mmem && c.mmem[BUFFER] == Message(7, EXIT, 5, 0)
    ensures StepsTo(Scene(c, TASK_MM, story), Manage(0, map[]), Scene(ChildEnded(c), TASK_MM, story + [Exited(7, 5)]))
  {
    var s := Scene(c, TASK_MM, story);
    assert s.k.procs[INIT].flags.waiting && s.k.procs[7].parent == INIT;
    assert Finish(Prepare(AsWritten, s, Manage(0, map[]))) == Scene(ChildEnded(c), TASK_MM, story + [Exited(7, 5)]);
  }

  function ReportMade(c: Cast): Cast {
    var m := Message(TASK_MM, SYSCALL_RET, 5, 7);
    c.(init := IDLE, imem := c.imem[1 := m], mmem := c.mmem[LOCAL := m], mpc := Reap(7, Orphans(7, 0)))
  }

  lemma MmReports(c: Cast, story: seq<Event>)
    requires c.mm == IDLE && c.mpc == Tell(7, Orphans(7, 0))
    requires c.init == BLOCKED && c.child == IDLE.(parent := INIT, exitStatus := 5)
    ensures StepsTo(Scene(c, TASK_MM, story), Resume,
                    Scene(ReportMade(c), TASK_MM, story + [Reported(7, 5, INIT)] + [Answered(INIT, TASK_MM)]))
  {
    var s, m := Scene(c, TASK_MM, story), Message(TASK_MM, SYSCALL_RET, 5, 7);
    var built := c.(mmem := c.mmem[LOCAL := m], mpc := Reap(7, Orphans(7, 0)));
    assert Prepare(AsWritten, s, Resume).k == Scene(built, TASK_MM, []).k;
    InitReceives(built, LOCAL, m);
    assert built.mmem[LOCAL := m] == built.mmem && m.(source := TASK_MM) == m;
    assert Finish(Prepare(AsWritten, s, Resume))
        == Scene(ReportMade(c), TASK_MM, story + [Reported(7, 5, INIT)] + [Answered(INIT, TASK_MM)]);
  }

  function ChildFreed(c: Cast): Cast {
    c.(child := c.child.(flags := FREE_SLOT), mpc := Scan(7, 0))
  }

  lemma MmFrees(c: Cast, story: seq<Event>)
    requires c.mm == IDLE && c.mpc == Reap(7, Orphans(7, 0))
    ensures StepsTo(Scene(c, TASK_MM, story), Resume, Scene(ChildFreed(c), TASK_MM, story + [Freed(7)]))
  {
    assert Finish(Prepare(AsWritten, Scene(c, TASK_MM, story), Resume))
        == Scene(ChildFreed(c), TASK_MM, story + [Freed(7)]);
  }

  function Scanned(c: Cast, i: nat): Cast {
    c.(mpc := if i < 8 then Scan(7, i + 1) else Serve)
  }

  lemma MmScansOne(c: Cast, story: seq<Event>, i: nat)
    requires c.mm == IDLE && c.mpc == Scan(7, i) && i <= 8
    requires c.init.parent == NoTask(8) && c.child.parent == INIT
    ensures StepsTo(Scene(c, TASK_MM, story), Resume, Scene(Scanned(c, i), TASK_MM, story))
  {
    var s := Scene(c, TASK_MM, story);
    assert i < 8 ==> s.k.procs[i].parent != 7;
    assert Finish(Prepare(AsWritten, s, Resume)) == Scene(Scanned(c, i), TASK_MM, story);
  }

  lemma {:induction false} MmScans(b: Sys, c: Cast, story: seq<Event>, i: nat)
    requires Leads(b, Scene(c, TASK_MM, story)) && c.mm == IDLE && c.mpc == Scan(7, i) && i <= 8
    requires c.init.parent == NoTask(8) && c.child.parent == INIT
    ensures Leads(b, Scene(c.(mpc := Serve), TASK_MM, story))
    decreases 8 - i
  {
    MmScansOne(c, story, i);
    Then(b, c, TASK_MM, story, Resume, Scanned(c, i), TASK_MM, story);
    if i < 8 {
      MmScans(b, Scanned(c, i), story, i + 1);
    }
  }

  /** INIT waits for its child. */
  lemma InitWaits() returns (c: Cast, r: nat, story: seq<Event>)
    ensures r < 8 && Leads(Scene(AtBoot(), TASK_TTY, []), Scene(c, r, story))
    ensures c.init == BLOCKED.(flags := RECEIVING.(waiting := true)) && c.ipc == User
    ensures c.child == IDLE.(parent := INIT) && c.cpc == User && c.mm == LISTENING && c.mpc == Handle
  {
    var b, m := Scene(AtBoot(), TASK_TTY, []), Message(INIT, WAIT, 0, 0);
    c, r, story := InitForks();
    Turn(b, c, r, story, INIT);
    InitCalls(b, c, story, m);
    c, story := InitAwaited(InitAsked(c, m)), story + [Requested(INIT, TASK_MM)];
    MmPutsInitAside(c, story);
    Then(b, c, TASK_MM, story, Manage(0, map[]), PutAside(c), TASK_MM, story);
    MmListens(b, PutAside(c), story);
    c := Listened(PutAside(c));
    r := Following(c, TASK_MM);
  }

  /** The child has ended and INIT has been told. */
  lemma ChildIsReported() returns (c: Cast, story: seq<Event>)
    ensures Leads(Scene(AtBoot(), TASK_TTY, []), Scene(c, TASK_MM, story))
    ensures c.init == IDLE && c.ipc == User && c.child == IDLE.(parent := INIT, exitStatus := 5)
    ensures c.mm == IDLE && c.mpc == Reap(7, Orphans(7, 0))
  {
    var b, m, r := Scene(AtBoot(), TASK_TTY, []), Message(7, EXIT, 5, 0), 0;
    c, r, story := InitWaits();
    ChildCalls(b, c, r, story, m);
    c, story := ChildAsked(c, m), story + [Requested(7, TASK_MM)];
    MmEndsChild(c, story);
    Then(b, c, TASK_MM, story, Manage(0, map[]), ChildEnded(c), TASK_MM, story + [Exited(7, 5)]);
    c, story := ChildEnded(c), story + [Exited(7, 5)];
    MmReports(c, story);
    var told := story + [Reported(7, 5, INIT)] + [Answered(INIT, TASK_MM)];
    Then(b, c, TASK_MM, story, Resume, ReportMade(c), TASK_MM, told);
    c, story := ReportMade(c), told;
  }

  /** The child's slot is free again. */
  lemma ChildIsFreed() returns (c: Cast, r: nat, story: seq<Event>)
    ensures r < 8 && Leads(Scene(AtBoot(), TASK_TTY, []), Scene(c, r, story))
    ensures c.init == IDLE && c.ipc == User && c.child == IDLE.(parent := INIT, exitStatus := 5, flags := FREE_SLOT)
    ensures c.mm == LISTENING && c.mpc == Handle
  {
    var b := Scene(AtBoot(), TASK_TTY, []);
    c, story := ChildIsReported();
    MmFrees(c, story);
    Then(b, c, TASK_MM, story, Resume, ChildFreed(c), TASK_MM, story + [Freed(7)]);
    c, story := ChildFreed(c), story + [Freed(7)];
    MmScans(b, c, story, 0);
    c := c.(mpc := Serve);
    MmListens(b, c, story);
    c := Listened(c);
    r := Following(c, TASK_MM);
  }

  /** INIT, whose only child has been freed, asks to wait again. */
  lemma InitWaitsAgain() returns (c: Cast, story: seq<Event>)
    ensures Leads(Scene(AtBoot(), TASK_TTY, []), Scene(c, TASK_MM, story))
    ensures c.init == BLOCKED && c.child == IDLE.(parent := INIT, exitStatus := 5, flags := FREE_SLOT)
    ensures c.mm == IDLE && c.mpc == Handle && BUFFER in c.mmem && c.mmem[BUFFER] == Message(INIT, WAIT, 0, 0)
  {
    var b, m, r := Scene(AtBoot(), TASK_TTY, []), Message(INIT, WAIT, 0, 0), 0;
    c, r, story := ChildIsFreed();
    Turn(b, c, r, story, INIT);
    InitCalls(b, c, story, m);
    c, story := InitAwaited(InitAsked(c, m)), story + [Requested(INIT, TASK_MM)];
  }

  lemma InitIsChildless(c: Cast, story: seq<Event>)
    requires c.init == BLOCKED && c.mm == IDLE && c.child.flags.free
    ensures forall x: nat :: !IsChild(Scene(c, TASK_MM, story).k.procs, x, INIT)
  {
    var procs := Scene(c, TASK_MM, story).k.procs;
    forall x: nat ensures !IsChild(procs, x, INIT) {
      assert x == 7 ==> procs[x] == c.child;
    }
  }

  /** A run, from boot, into a state in which INIT has no child left and asks to
      wait; it should be told so, and as written it waits for ever. */
  lemma WaitHangs() returns (s: Sys)
    ensures Reached(s) && Good(s) && Busy(s, INIT) && (forall c: nat :: !IsChild(s.k.procs, c, INIT))
    ensures var t := ManageRequest(AsWritten, s, 0, map[]);
            t.call == NoCall && t.k.procs[INIT].flags.waiting && !Good(Finish(t))
    ensures ManageRequest(Intended, s, 0, map[]).call == Send(INIT, LOCAL)
  {
    var c, story := InitWaitsAgain();
    s := Scene(c, TASK_MM, story);
    BootScene();
    LeadsIsReached(Scene(AtBoot(), TASK_TTY, []), s);
    InitIsChildless(c, story);
    assert s.k.procs[7].parent == INIT;
    WaitAsWritten(s, INIT);
    WaitIsExact(s, INIT);
    assert ManageRequest(AsWritten, s, 0, map[]) == Wait(AsWritten, s, INIT);
  }

  // ---- exec

  function ProgramLoaded(c: Cast): Cast {
    c.(imem := map[], mpc := Loaded(INIT, 0))
  }

  lemma MmLoads(c: Cast, story: seq<Event>)
    requires c.mm == IDLE && c.mpc == Handle
    requires BUFFER in c.mmem && c.mmem[BUFFER].kind == EXEC && c.mmem[BUFFER].source == INIT
    ensures StepsTo(Scene(c, TASK_MM, story), Manage(0, map[]), Scene(ProgramLoaded(c), TASK_MM, story))
  {
    assert Finish(Prepare(AsWritten, Scene(c, TASK_MM, story), Manage(0, map[])))
        == Scene(ProgramLoaded(c), TASK_MM, story);
  }

  /** INIT has asked for a program, which is loaded, and the clock has not let it
      issue its RECEIVE yet. */
  lemma ProgramIsLoaded() returns (c: Cast, story: seq<Event>)
    ensures Leads(Scene(AtBoot(), TASK_TTY, []), Scene(c, TASK_MM, story))
    ensures c.init == IDLE && c.ipc == Asked(TASK_MM, 1) && c.mm == IDLE && c.mpc == Loaded(INIT, 0)
  {
    var b, m := Scene(AtBoot(), TASK_TTY, []), Message(INIT, EXEC, 0, 0);
    InitRuns();
    var asked := InitAsked(Listened(AtBoot()), m);
    story := [] + [Requested(INIT, TASK_MM)];
    InitAsks(Listened(AtBoot()), [], m);
    Then(b, Listened(AtBoot()), INIT, [], Ask(TASK_MM, 1, m), asked, INIT, story);
    Turn(b, asked, INIT, story, TASK_MM);
    MmLoads(asked, story);
    c := ProgramLoaded(asked);
    Then(b, asked, TASK_MM, story, Manage(0, map[]), c, TASK_MM, story);
  }

  /** A run, from boot, into a state from which the next step of `do_execl` as
      written leaves INIT running in the new program and the process manager
      blocked in a send to it; whatever INIT then asks it for meets the panic. */
  lemma ExecPanics() returns (s: Sys)
    ensures Reached(s) && Good(s) && Can(s, Resume) && s.pc[TASK_MM] == Loaded(INIT, 0) && !StaysOnCourse(s, Resume)
    ensures var t := Finish(Prepare(AsWritten, s, Resume));
            && Stuck(t, INIT) && !Good(t) && t.k.ready == INIT && t.pc[INIT] == User
            && forall m: Ptr, r: Message :: m != 0 && r.kind in {FORK, WAIT, EXEC} ==>
                 && Can(t, Ask(TASK_MM, m, r)) && !CallSafe(Prepare(AsWritten, t, Ask(TASK_MM, m, r)))
                 && Reaches(Prepare(AsWritten, t, Ask(TASK_MM, m, r)).k.procs, TASK_MM, INIT)
  {
    var c, story := ProgramIsLoaded();
    s := Scene(c, TASK_MM, story);
    BootScene();
    LeadsIsReached(Scene(AtBoot(), TASK_TTY, []), s);
    assert s.k.procs[INIT] == IDLE;
    ExecAsWritten(s, INIT, 0);
    ExecSticks(s, INIT, 0);
    var t := Finish(Prepare(AsWritten, s, Resume));
    assert Runnable(t.k.procs, 3) && t.k.ready == NextReady(t.k.procs, TASK_MM);
    forall m: Ptr, r: Message | m != 0 && r.kind in {FORK, WAIT, EXEC}
      ensures Can(t, Ask(TASK_MM, m, r)) && !CallSafe(Prepare(AsWritten, t, Ask(TASK_MM, m, r)))
      ensures Reaches(Prepare(AsWritten, t, Ask(TASK_MM, m, r)).k.procs, TASK_MM, INIT)
    {
      AskPanics(t, INIT, m, r);
    }
  }

  // ---- fork

  /** INIT, which has a child in the last slot, asks to fork. */
  lemma InitForksAgain(own: int) returns (c: Cast, story: seq<Event>)
    ensures Leads(Scene(AtBoot(), TASK_TTY, []), Scene(c, TASK_MM, story))
    ensures c.init == BLOCKED && c.child == IDLE.(parent := INIT) && c.mm == IDLE && c.mpc == Handle
    ensures BUFFER in c.mmem && c.mmem[BUFFER] == Message(INIT, FORK, 0, own)
  {
    var b, m, r := Scene(AtBoot(), TASK_TTY, []), Message(INIT, FORK, 0, own), 0;
    c, r, story := InitForks();
    Turn(b, c, r, story, INIT);
    InitCalls(b, c, story, m);
    c, story := InitAwaited(InitAsked(c, m)), story + [Requested(INIT, TASK_MM)];
  }

  lemma NoneIsFree(c: Cast, story: seq<Event>)
    requires c.init == BLOCKED && c.child == IDLE.(parent := INIT) && c.mm == IDLE
    ensures forall x: nat :: x < 8 ==> !Scene(c, TASK_MM, story).k.procs[x].flags.free
  {
  }

  /** A run, from boot, into a state in which INIT asks to fork and no slot is
      free; the stub gives it back whatever its own request held. */
  lemma ForkOnFullTable(own: int) returns (s: Sys)
    ensures Reached(s) && Good(s) && Busy(s, INIT) && (forall c: nat :: c < |s.k.procs| ==> !s.k.procs[c].flags.free)
    ensures Load(s.k.mem[TASK_MM], BUFFER).kind == FORK && Load(s.k.mem[TASK_MM], BUFFER).pid == own
    ensures ForkReturns(Load(Fork(s, INIT).k.mem[TASK_MM], BUFFER)) == own
  {
    var c, story := InitForksAgain(own);
    s := Scene(c, TASK_MM, story);
    BootScene();
    LeadsIsReached(Scene(AtBoot(), TASK_TTY, []), s);
    NoneIsFree(c, story);
    ForkWithoutSlot(s, INIT);
  }
}
