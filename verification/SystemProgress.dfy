/** Progress: within how many turns of the scheduler a process that can run
    takes a step, and a request a server has taken is answered. */
module SystemProgress {
  import opened IpcState
  import opened IpcSchedule
  import opened IpcSteps
  import opened System
  import opened SystemInv
  import opened SystemCalls
  import opened SystemManager
  import opened SystemRuns
  import opened SystemTheorems

  // ---- Stretches of runs

  /** The `i`-th action leads from one state to the next. */
  ghost predicate Moves(run: seq<Sys>, acts: seq<Action>, i: nat)
    requires i < |acts| && |run| == |acts| + 1
  {
    SysShaped(run[i]) && Can(run[i], acts[i]) && run[i + 1] == Finish(Prepare(Intended, run[i], acts[i]))
  }

  /** A stretch of a run: steps from a good state on, as every state of a run is. */
  ghost predicate Stretch(run: seq<Sys>, acts: seq<Action>) {
    && |run| == |acts| + 1 && Good(run[0])
    && (forall i: nat {:trigger Moves(run, acts, i)} :: i < |acts| ==> Moves(run, acts, i))
  }

  lemma {:induction false} StretchIsGood(run: seq<Sys>, acts: seq<Action>, i: nat)
    requires Stretch(run, acts) && i <= |acts|
    ensures Good(run[i]) && |run[i].k.procs| == |run[0].k.procs|
  {
    if i > 0 {
      StretchIsGood(run, acts, i - 1);
      assert Moves(run, acts, i - 1);
      StepKeepsGood(run[i - 1], acts[i - 1]);
      SameSize(Prepare(Intended, run[i - 1], acts[i - 1]));
    }
  }

  lemma SameSize(pr: Prepared)
    requires Shaped(pr.k) && (pr.call.Send? ==> pr.call.dest < |pr.k.procs|)
    ensures |Finish(pr).k.procs| == |pr.k.procs|
  {
  }

  lemma StretchFrom(run: seq<Sys>, acts: seq<Action>, k: nat)
    requires Stretch(run, acts) && k <= |acts|
    ensures Stretch(run[k..], acts[k..]) && |run[k].k.procs| == |run[0].k.procs|
  {
    StretchIsGood(run, acts, k);
    forall i: nat | i < |acts[k..]| ensures Moves(run[k..], acts[k..], i) {
      assert Moves(run, acts, k + i);
    }
  }

  lemma StretchUpTo(run: seq<Sys>, acts: seq<Action>, k: nat)
    requires Stretch(run, acts) && k <= |acts|
    ensures Stretch(run[..k + 1], acts[..k])
  {
    var r, a := run[..k + 1], acts[..k];
    forall i: nat | i < |a| ensures Moves(r, a, i) {
      assert Moves(run, acts, i);
    }
  }

  /** Every run from boot is a stretch from any of its states on. */
  lemma RunGivesStretch(run: seq<Sys>, acts: seq<Action>, i: nat)
    requires |run| == |acts| + 1 && i <= |acts| && Boots(run[0])
    requires forall k: nat {:trigger Moves(run, acts, k)} :: k < |acts| ==> Moves(run, acts, k)
    ensures Stretch(run[i..], acts[i..])
  {
    BootIsGood(run[0]);
    StretchFrom(run, acts, i);
  }

  // ---- Turns of the scheduler

  /** Whether the step calls the scheduler: at a clock tick, or because it blocks. */
  predicate Schedules(s: Sys, a: Action)
    requires SysShaped(s) && Can(s, a)
  {
    var pr := Prepare(Intended, s, a);
    a == Clock || Blocks(pr.k, pr.call)
  }

  predicate Blocks(k: State, call: Call)
    requires Shaped(k)
  {
    match call
    case Send(d, m) => !Accepts(k.procs, d, k.ready)
    case Receive(src, m) => var from := Partner(k, k.ready, src); !(from.At? && from.slot < |k.procs|)
    case NoCall => false
  }

  ghost function Turns(run: seq<Sys>, acts: seq<Action>): nat
    requires Stretch(run, acts)
    decreases |acts|
  {
    if acts == [] then 0 else
      assert Moves(run, acts, 0);
      StretchFrom(run, acts, 1);
      (if Schedules(run[0], acts[0]) then 1 else 0) + Turns(run[1..], acts[1..])
  }

  lemma StepSplits(run: seq<Sys>, acts: seq<Action>)
    requires Stretch(run, acts) && |acts| > 0
    ensures Stretch(run[1..], acts[1..]) && SysShaped(run[0]) && Can(run[0], acts[0])
    ensures Turns(run, acts) == (if Schedules(run[0], acts[0]) then 1 else 0) + Turns(run[1..], acts[1..])
  {
    StretchFrom(run, acts, 1);
    assert Moves(run, acts, 0);
  }

  lemma Slices(run: seq<Sys>, acts: seq<Action>, k: nat)
    requires |run| == |acts| + 1 && 0 < k <= |acts|
    ensures run[1..][..k] == run[..k + 1][1..] && acts[1..][..k - 1] == acts[..k][1..]
    ensures run[1..][k - 1..] == run[k..] && acts[1..][k - 1..] == acts[k..]
  {
  }

  lemma {:induction false} TurnsSplit(run: seq<Sys>, acts: seq<Action>, k: nat)
    requires Stretch(run, acts) && k <= |acts|
    ensures Stretch(run[..k + 1], acts[..k]) && Stretch(run[k..], acts[k..])
    ensures Turns(run, acts) == Turns(run[..k + 1], acts[..k]) + Turns(run[k..], acts[k..])
    decreases |acts|
  {
    StretchUpTo(run, acts, k);
    StretchFrom(run, acts, k);
    if k > 0 {
      StepSplits(run, acts);
      StepSplits(run[..k + 1], acts[..k]);
      TurnsSplit(run[1..], acts[1..], k - 1);
      Slices(run, acts, k);
    } else {
      assert run[0..] == run && acts[0..] == acts;
    }
  }

  /** A process that the scheduler has selected takes a step before the clock
      takes the processor from it again. */
  ghost predicate Diligent(run: seq<Sys>, acts: seq<Action>)
    requires |run| == |acts| + 1
  {
    forall k: nat :: 0 < k < |acts| && acts[k] == Clock ==> acts[k - 1] != Clock && run[k - 1].k.ready == run[k].k.ready
  }

  /** The `k`-th step is one of `p` itself. */
  ghost predicate Own(run: seq<Sys>, acts: seq<Action>, p: nat, k: nat)
    requires k < |acts| && |run| == |acts| + 1
  {
    run[k].k.ready == p && acts[k] != Clock
  }

  ghost predicate Idle(run: seq<Sys>, acts: seq<Action>, p: nat)
    requires |run| == |acts| + 1
  {
    forall k: nat :: k < |acts| ==> !Own(run, acts, p, k)
  }

  ghost predicate Awake(run: seq<Sys>, p: nat) {
    forall k: nat :: k < |run| ==> Runnable(run[k].k.procs, p)
  }

  /** The processor goes from one process to another only at a turn of the
      scheduler, and then to the next that can run. */
  lemma ReadyAfter(s: Sys, a: Action)
    requires SysShaped(s) && Can(s, a)
    ensures var t := Finish(Prepare(Intended, s, a));
            t.k.ready == if Schedules(s, a) then NextReady(t.k.procs, s.k.ready) else s.k.ready
  {
    var pr := Prepare(Intended, s, a);
    ReadyBefore(s, a);
    CallReady(pr.k, pr.call);
  }

  lemma ReadyBefore(s: Sys, a: Action)
    requires SysShaped(s) && Can(s, a)
    ensures var pr := Prepare(Intended, s, a);
            if a == Clock then pr.call == NoCall && pr.k == Tick(s.k) else pr.k.ready == s.k.ready
  {
  }

  lemma CallReady(k: State, call: Call)
    requires Shaped(k) && (call.Send? ==> call.dest < |k.procs|)
    ensures Perform(k, call).ready == if Blocks(k, call) then NextReady(Perform(k, call).procs, k.ready) else k.ready
  {
  }

  lemma Closer(n: nat, cur: nat, r: nat, q: nat)
    requires cur < n && r < n && q < n && r != q && Distance(n, cur, r) <= Distance(n, cur, q)
    ensures Distance(n, r, q) < Distance(n, cur, q)
  {
  }

  lemma NotSelected(run: seq<Sys>, acts: seq<Action>, p: nat)
    requires |run| == |acts| + 1 && |acts| > 1 && Diligent(run, acts) && Idle(run, acts, p)
    ensures run[1].k.ready != p
  {
    assert !Own(run, acts, p, 0) && !Own(run, acts, p, 1);
  }

  /** A process that can run and takes no step lies further ahead than the turns
      the scheduler has taken. */
  lemma {:induction false} IdleBound(run: seq<Sys>, acts: seq<Action>, p: nat)
    requires Stretch(run, acts) && Diligent(run, acts) && Idle(run, acts, p) && Awake(run, p)
    ensures p < |run[0].k.procs| && Turns(run, acts) <= Distance(|run[0].k.procs|, run[0].k.ready, p)
    decreases |acts|
  {
    var n := |run[0].k.procs|;
    assert Runnable(run[0].k.procs, p);
    if acts != [] {
      assert Moves(run, acts, 0);
      StretchFrom(run, acts, 1);
      ReadyAfter(run[0], acts[0]);
      assert Runnable(run[1].k.procs, p) && !Own(run, acts, p, 0);
      var rest, racts := run[1..], acts[1..];
      if run[1].k.ready == p && Schedules(run[0], acts[0]) {
        if |acts| > 1 {
          NotSelected(run, acts, p);
        }
        assert racts == [];
      } else {
        forall k: nat | k < |racts| ensures !Own(rest, racts, p, k) {
          assert !Own(run, acts, p, k + 1);
        }
        assert Idle(rest, racts, p) && Diligent(rest, racts) && Awake(rest, p);
        IdleBound(rest, racts, p);
        if Schedules(run[0], acts[0]) {
          NextReadyIsNext(run[1].k.procs, run[0].k.ready, p);
          Closer(n, run[0].k.ready, run[1].k.ready, p);
        }
      }
    }
  }

  /** In every stretch of a run, a process that stays runnable takes a step of its
      own within as many turns of the scheduler as the table has slots. */
  lemma RunnableSteps(run: seq<Sys>, acts: seq<Action>, p: nat)
    requires Stretch(run, acts) && Diligent(run, acts) && Awake(run, p) && Turns(run, acts) > |run[0].k.procs|
    ensures exists k: nat :: k < |acts| && Own(run, acts, p, k)
  {
    if Idle(run, acts, p) {
      IdleBound(run, acts, p);
    }
  }

  // ---- Servers

  /** The server waits for a request. */
  predicate Listening(s: Sys, sv: nat)
    requires SysShaped(s) && sv < |s.k.procs|
  {
    s.pc[sv] == Handle && s.k.procs[sv].flags.receiving
  }

  /** The steps of the process manager leave the system task alone. */
  lemma ManagerSpares(s: Sys, a: Action)
    requires Good(s) && Can(s, a) && (a.Manage? || a.Resume?)
    ensures var t := Finish(Prepare(Intended, s, a));
            t.k.procs[TASK_SYS] == s.k.procs[TASK_SYS] && t.pc[TASK_SYS] == s.pc[TASK_SYS]
            && t.k.mem[TASK_SYS] == s.k.mem[TASK_SYS]
  {
    match a
    case Manage(r, image) =>
      ManageEditSpares(s, r, image);
      ManageSettles(s, r, image);
    case Resume =>
      RestEditSpares(s);
      RestSettles(s);
    ManagerCallSpares(Prepare(Intended, s, a));
  }

  lemma ManagerCallSpares(pr: Prepared)
    requires Settles(pr)
    ensures Finish(pr).k.procs[TASK_SYS] == pr.k.procs[TASK_SYS] && Finish(pr).k.mem[TASK_SYS] == pr.k.mem[TASK_SYS]
  {
  }

  ghost predicate EditSpares(s: Sys, pr: Prepared)
    requires SysShaped(s)
  {
    && Complete(pr, |s.k.procs|) && pr.k.procs[TASK_SYS] == s.k.procs[TASK_SYS] && pr.pc[TASK_SYS] == s.pc[TASK_SYS]
    && pr.k.mem[TASK_SYS] == s.k.mem[TASK_SYS]
  }

  lemma ManageEditSpares(s: Sys, r: int, image: Memory)
    requires AtWork(s) && s.pc[TASK_MM] == Handle
    ensures EditSpares(s, ManageRequest(Intended, s, r, image))
  {
    HeldIsGood(s);
    var got := Load(s.k.mem[TASK_MM], BUFFER);
    FreeIsForked(s);
    RequestEditSpares(s, r, image, got.source);
  }

  lemma RequestEditSpares(s: Sys, r: int, image: Memory, d: nat)
    requires SysShaped(s) && FirstFree(s.k.procs, 0) >= FIRST_FORKED && INIT <= d < |s.k.procs|
    requires Load(s.k.mem[TASK_MM], BUFFER).source == d
    requires Load(s.k.mem[TASK_MM], BUFFER).kind == EXIT ==> INIT <= s.k.procs[d].parent
    ensures EditSpares(s, ManageRequest(Intended, s, r, image))
  {
  }

  lemma RestEditSpares(s: Sys)
    requires AtWork(s) && UnderWay(s.pc[TASK_MM])
    ensures EditSpares(s, ManageRest(Intended, s))
  {
    match s.pc[TASK_MM]
    case Scan(_, i) => assert i < |s.k.procs| ==> ParentOk(s, i);
    case _ =>
  }

  /** The steps of the other processes, and the clock, leave a server alone that
      neither listens nor is blocked. */
  lemma OthersSpare(s: Sys, a: Action, sv: nat)
    requires Good(s) && Can(s, a) && IsServer(sv) && s.k.procs[sv].flags == READY && !(s.k.ready == sv && a != Clock)
    requires !a.Manage? && !a.Resume?
    ensures var t := Finish(Prepare(Intended, s, a));
            t.k.procs[sv].flags == READY && t.pc[sv] == s.pc[sv] && t.k.mem[sv] == s.k.mem[sv]
  {
    if a != Clock {
      var pr := Prepare(Intended, s, a);
      PrepareKeepsTable(s, a);
      CallSpares(pr.k, pr.call, sv);
    }
  }

  /** A server that neither listens nor is blocked stays where it is until its own
      next step. */
  lemma ServerStays(s: Sys, a: Action, sv: nat)
    requires Good(s) && Can(s, a) && IsServer(sv) && s.k.procs[sv].flags == READY && !(s.k.ready == sv && a != Clock)
    ensures var t := Finish(Prepare(Intended, s, a));
            t.k.procs[sv].flags == READY && t.pc[sv] == s.pc[sv] && t.k.mem[sv] == s.k.mem[sv]
  {
    if a.Manage? || a.Resume? {
      ManagerSpares(s, a);
    } else {
      OthersSpare(s, a, sv);
    }
  }

  /** A server that is blocked in its reply stays so until the client's next step,
      which takes the reply. */
  lemma BlockedStays(s: Sys, a: Action, sv: nat, c: nat)
    requires Good(s) && Can(s, a) && IsServer(sv) && Sends(s.k.procs, sv, c)
    ensures var t := Finish(Prepare(Intended, s, a));
            && t.pc[sv] == s.pc[sv]
            && if s.k.ready == c && a != Clock then t.k.procs[sv].flags == READY else Sends(t.k.procs, sv, c)
  {
    RepliesReachAskers(s, sv, c);
    if s.k.ready == c && a != Clock {
      ReplyIsTaken(s, a, sv, c);
    } else if a.Manage? || a.Resume? {
      ManagerSpares(s, a);
    } else if a != Clock {
      BlockedWaits(s, a, sv, c);
    }
  }

  lemma ReplyIsTaken(s: Sys, a: Action, sv: nat, c: nat)
    requires SysShaped(s) && Inv(s.k) && Can(s, a) && IsServer(sv) && Sends(s.k.procs, sv, c) && s.k.ready == c >= INIT
    requires s.pc[c].Asked? && s.pc[c].server == sv && a != Clock
    ensures var t := Finish(Prepare(Intended, s, a)); t.pc[sv] == s.pc[sv] && t.k.procs[sv].flags == READY
  {
    assert a == Await && s.k.procs[sv].flags == SENDING;
  }

  lemma BlockedWaits(s: Sys, a: Action, sv: nat, c: nat)
    requires SysShaped(s) && Inv(s.k) && Can(s, a) && IsServer(sv) && Sends(s.k.procs, sv, c)
    requires !a.Manage? && !a.Resume? && a != Clock && s.k.ready != c
    ensures var t := Finish(Prepare(Intended, s, a)); t.pc[sv] == s.pc[sv] && Sends(t.k.procs, sv, c)
  {
    var pr := Prepare(Intended, s, a);
    PrepareKeepsTable(s, a);
    CallSpares(pr.k, pr.call, sv);
  }

  // ---- The next step of a process

  ghost predicate IdleUpTo(run: seq<Sys>, acts: seq<Action>, p: nat, j: nat)
    requires j <= |acts| && |run| == |acts| + 1
  {
    forall i: nat :: i < j ==> !Own(run, acts, p, i)
  }

  /** `p` can run as long as it takes no step. */
  ghost predicate Wakeful(run: seq<Sys>, acts: seq<Action>, p: nat)
    requires |run| == |acts| + 1
  {
    forall j: nat :: j <= |acts| && IdleUpTo(run, acts, p, j) ==> Runnable(run[j].k.procs, p)
  }

  lemma {:induction false} FirstOwn(run: seq<Sys>, acts: seq<Action>, p: nat, j: nat) returns (k: nat)
    requires |run| == |acts| + 1 && j <= |acts|
    ensures k <= j && IdleUpTo(run, acts, p, k) && (k < j ==> Own(run, acts, p, k))
  {
    if j == 0 {
      k := 0;
    } else {
      k := FirstOwn(run, acts, p, j - 1);
      if k == j - 1 && !Own(run, acts, p, k) {
        k := j;
      }
    }
  }

  lemma PrefixIsIdle(run: seq<Sys>, acts: seq<Action>, p: nat, k: nat)
    requires Stretch(run, acts) && Diligent(run, acts) && Wakeful(run, acts, p) && k <= |acts|
    requires IdleUpTo(run, acts, p, k)
    ensures Stretch(run[..k + 1], acts[..k]) && Turns(run[..k + 1], acts[..k]) <= |run[0].k.procs|
  {
    StretchUpTo(run, acts, k);
    var r, a := run[..k + 1], acts[..k];
    forall i: nat | i < |a| ensures !Own(r, a, p, i) {
      assert !Own(run, acts, p, i);
    }
    forall i: nat | i < |r| ensures Runnable(r[i].k.procs, p) {
      assert IdleUpTo(run, acts, p, i);
    }
    IdleBound(r, a, p);
  }

  lemma FirstStep(run: seq<Sys>, acts: seq<Action>, p: nat) returns (k: nat)
    requires Stretch(run, acts) && Diligent(run, acts) && Wakeful(run, acts, p) && Turns(run, acts) > |run[0].k.procs|
    ensures k < |acts| && Own(run, acts, p, k) && IdleUpTo(run, acts, p, k)
    ensures Stretch(run[..k + 1], acts[..k]) && Turns(run[..k + 1], acts[..k]) <= |run[0].k.procs|
  {
    assert run[..|acts| + 1] == run && acts[..|acts|] == acts;
    k := FirstOwn(run, acts, p, |acts|);
    PrefixIsIdle(run, acts, p, k);
  }

  // ---- The next step of a server

  ghost predicate ServerAt(s: Sys, sv: nat, pc: Pc) {
    SysShaped(s) && sv < |s.pc| && s.k.procs[sv].flags == READY && s.pc[sv] == pc
  }

  lemma {:induction false} ServerAwaits(run: seq<Sys>, acts: seq<Action>, sv: nat, j: nat)
    requires Stretch(run, acts) && IsServer(sv) && run[0].k.procs[sv].flags == READY
    requires j <= |acts| && IdleUpTo(run, acts, sv, j)
    ensures ServerAt(run[j], sv, run[0].pc[sv]) && run[j].k.mem[sv] == run[0].k.mem[sv]
  {
    if j > 0 {
      ServerAwaits(run, acts, sv, j - 1);
      assert !Own(run, acts, sv, j - 1);
      ServerStill(run, acts, sv, j - 1);
    }
  }

  lemma ServerStill(run: seq<Sys>, acts: seq<Action>, sv: nat, j: nat)
    requires Stretch(run, acts) && IsServer(sv) && j < |acts| && !Own(run, acts, sv, j)
    requires SysShaped(run[j]) && ServerAt(run[j], sv, run[j].pc[sv])
    ensures ServerAt(run[j + 1], sv, run[j].pc[sv]) && run[j + 1].k.mem[sv] == run[j].k.mem[sv]
  {
    StretchIsGood(run, acts, j);
    StretchIsGood(run, acts, j + 1);
    assert Moves(run, acts, j) && SysShaped(run[j + 1]);
    ServerStays(run[j], acts[j], sv);
  }

  lemma {:induction false} ReplyAwaits(run: seq<Sys>, acts: seq<Action>, sv: nat, c: nat, j: nat)
    requires Stretch(run, acts) && IsServer(sv) && Sends(run[0].k.procs, sv, c)
    requires j <= |acts| && IdleUpTo(run, acts, c, j)
    ensures Good(run[j]) && Sends(run[j].k.procs, sv, c) && run[j].pc[sv] == run[0].pc[sv]
    ensures Runnable(run[j].k.procs, c)
  {
    StretchIsGood(run, acts, j);
    if j > 0 {
      ReplyAwaits(run, acts, sv, c, j - 1);
      assert Moves(run, acts, j - 1) && !Own(run, acts, c, j - 1);
      BlockedStays(run[j - 1], acts[j - 1], sv, c);
    }
    RepliesReachAskers(run[j], sv, c);
  }

  /** A server that can run takes its next step within as many turns as there are slots. */
  lemma ReadyServerSteps(run: seq<Sys>, acts: seq<Action>, sv: nat) returns (k: nat)
    requires Stretch(run, acts) && Diligent(run, acts) && IsServer(sv) && run[0].k.procs[sv].flags == READY
    requires Turns(run, acts) > |run[0].k.procs|
    ensures k < |acts| && Own(run, acts, sv, k) && ServerAt(run[k], sv, run[0].pc[sv])
    ensures run[k].k.mem[sv] == run[0].k.mem[sv] && IdleUpTo(run, acts, sv, k)
    ensures Stretch(run[..k + 1], acts[..k]) && Turns(run[..k + 1], acts[..k]) <= |run[0].k.procs|
  {
    ServerIsWakeful(run, acts, sv);
    k := FirstStep(run, acts, sv);
    ServerAwaits(run, acts, sv, k);
  }

  lemma ServerIsWakeful(run: seq<Sys>, acts: seq<Action>, sv: nat)
    requires Stretch(run, acts) && IsServer(sv) && run[0].k.procs[sv].flags == READY
    ensures Wakeful(run, acts, sv)
  {
    forall j: nat | j <= |acts| && IdleUpTo(run, acts, sv, j) ensures Runnable(run[j].k.procs, sv) {
      ServerAwaits(run, acts, sv, j);
    }
  }

  /** A server that is blocked in a reply is released within as many turns. */
  lemma BlockedServerWakes(run: seq<Sys>, acts: seq<Action>, sv: nat, c: nat) returns (k: nat)
    requires Stretch(run, acts) && Diligent(run, acts) && IsServer(sv) && Sends(run[0].k.procs, sv, c)
    requires Turns(run, acts) > |run[0].k.procs|
    ensures k < |acts| && ServerAt(run[k + 1], sv, run[0].pc[sv]) && IdleUpTo(run, acts, sv, k + 1)
    ensures Stretch(run[..k + 1], acts[..k]) && Turns(run[..k + 1], acts[..k]) <= |run[0].k.procs|
  {
    AskerIsWakeful(run, acts, sv, c);
    k := FirstStep(run, acts, c);
    ReplyAwaits(run, acts, sv, c, k);
    StretchIsGood(run, acts, k + 1);
    assert Moves(run, acts, k);
    BlockedStays(run[k], acts[k], sv, c);
    BlockedIsIdle(run, acts, sv, c, k);
  }

  lemma AskerIsWakeful(run: seq<Sys>, acts: seq<Action>, sv: nat, c: nat)
    requires Stretch(run, acts) && IsServer(sv) && Sends(run[0].k.procs, sv, c)
    ensures Wakeful(run, acts, c)
  {
    forall j: nat | j <= |acts| && IdleUpTo(run, acts, c, j) ensures Runnable(run[j].k.procs, c) {
      ReplyAwaits(run, acts, sv, c, j);
    }
  }

  lemma {:induction false} BlockedIsIdle(run: seq<Sys>, acts: seq<Action>, sv: nat, c: nat, k: nat)
    requires Stretch(run, acts) && IsServer(sv) && Sends(run[0].k.procs, sv, c)
    requires k < |acts| && IdleUpTo(run, acts, c, k)
    ensures IdleUpTo(run, acts, sv, k + 1)
  {
    if k > 0 {
      BlockedIsIdle(run, acts, sv, c, k - 1);
    }
    ReplyAwaits(run, acts, sv, c, k);
  }

  /** Behind the `k`-th step the stretch goes on, and at most `spent` turns are gone. */
  ghost predicate GoesOn(run: seq<Sys>, acts: seq<Action>, k: nat, spent: nat)
    requires Stretch(run, acts)
  {
    && k < |acts| && Stretch(run[k + 1..], acts[k + 1..]) && Diligent(run[k + 1..], acts[k + 1..])
    && |run[k + 1].k.procs| == |run[0].k.procs| && Turns(run, acts) <= spent + Turns(run[k + 1..], acts[k + 1..])
  }

  lemma Behind(run: seq<Sys>, acts: seq<Action>, k: nat, spent: nat)
    requires Stretch(run, acts) && Diligent(run, acts) && k < |acts|
    requires Stretch(run[..k + 1], acts[..k]) && Turns(run[..k + 1], acts[..k]) <= spent
    ensures GoesOn(run, acts, k, spent + 1)
  {
    StretchFrom(run, acts, k + 1);
    DiligentFrom(run, acts, k + 1);
    TurnsSplit(run, acts, k);
    StepSplits(run[k..], acts[k..]);
    assert run[k..][1..] == run[k + 1..] && acts[k..][1..] == acts[k + 1..];
  }

  lemma DiligentFrom(run: seq<Sys>, acts: seq<Action>, k: nat)
    requires |run| == |acts| + 1 && Diligent(run, acts) && k <= |acts|
    ensures Diligent(run[k..], acts[k..])
  {
    var r, a := run[k..], acts[k..];
    forall i: nat | 0 < i < |a| && a[i] == Clock ensures a[i - 1] != Clock && r[i - 1].k.ready == r[i].k.ready {
      assert acts[k + i] == Clock;
    }
  }

  lemma GoesOnTwice(run: seq<Sys>, acts: seq<Action>, w: nat, j: nat, spent: nat, more: nat, k: nat, total: nat)
    requires Stretch(run, acts) && GoesOn(run, acts, w, spent) && GoesOn(run[w + 1..], acts[w + 1..], j, more)
    requires k == w + 1 + j && total == spent + more
    ensures GoesOn(run, acts, k, total) && run[w + 1..][j] == run[k] && acts[w + 1..][j] == acts[k]
  {
    var r, a := run[w + 1..], acts[w + 1..];
    assert r[j + 1..] == run[k + 1..] && a[j + 1..] == acts[k + 1..] && r[j + 1] == run[k + 1];
  }

  /** How many turns of the scheduler a server that does not listen needs for one step. */
  function PerStep(n: nat): nat {
    2 * (n + 1)
  }

  /** A server that does not wait for a request takes its next step within that
      many turns; until then it is where it was. */
  lemma ServerSteps(run: seq<Sys>, acts: seq<Action>, sv: nat) returns (k: nat)
    requires Stretch(run, acts) && Diligent(run, acts) && IsServer(sv) && !Listening(run[0], sv)
    requires Turns(run, acts) >= PerStep(|run[0].k.procs|)
    ensures GoesOn(run, acts, k, PerStep(|run[0].k.procs|))
    ensures Own(run, acts, sv, k) && ServerAt(run[k], sv, run[0].pc[sv]) && IdleUpTo(run, acts, sv, k)
    ensures run[0].k.procs[sv].flags == READY ==> run[k].k.mem[sv] == run[0].k.mem[sv]
  {
    var n := |run[0].k.procs|;
    if run[0].k.procs[sv].flags == READY {
      k := ReadyServerSteps(run, acts, sv);
      Behind(run, acts, k, n);
    } else {
      assert ServerOk(run[0], sv);
      k := BlockedServerSteps(run, acts, sv, run[0].k.procs[sv].sendTo);
    }
  }

  lemma IdleTwice(run: seq<Sys>, acts: seq<Action>, p: nat, w: nat, j: nat)
    requires |run| == |acts| + 1 && w + j <= |acts| && IdleUpTo(run, acts, p, w)
    requires IdleUpTo(run[w..], acts[w..], p, j)
    ensures IdleUpTo(run, acts, p, w + j)
  {
    forall i: nat | i < w + j ensures !Own(run, acts, p, i) {
      assert i >= w ==> !Own(run[w..], acts[w..], p, i - w);
    }
  }

  lemma BlockedServerSteps(run: seq<Sys>, acts: seq<Action>, sv: nat, c: nat) returns (k: nat)
    requires Stretch(run, acts) && Diligent(run, acts) && IsServer(sv) && Sends(run[0].k.procs, sv, c)
    requires Turns(run, acts) >= PerStep(|run[0].k.procs|)
    ensures GoesOn(run, acts, k, PerStep(|run[0].k.procs|))
    ensures Own(run, acts, sv, k) && ServerAt(run[k], sv, run[0].pc[sv]) && IdleUpTo(run, acts, sv, k)
  {
    var n := |run[0].k.procs|;
    var w := BlockedServerWakes(run, acts, sv, c);
    Behind(run, acts, w, n);
    k := StepsBehind(run, acts, sv, w);
  }

  lemma StepsBehind(run: seq<Sys>, acts: seq<Action>, sv: nat, w: nat) returns (k: nat)
    requires Stretch(run, acts) && IsServer(sv) && GoesOn(run, acts, w, |run[0].k.procs| + 1)
    requires ServerAt(run[w + 1], sv, run[0].pc[sv]) && IdleUpTo(run, acts, sv, w + 1)
    requires Turns(run, acts) >= PerStep(|run[0].k.procs|)
    ensures GoesOn(run, acts, k, PerStep(|run[0].k.procs|))
    ensures Own(run, acts, sv, k) && ServerAt(run[k], sv, run[0].pc[sv]) && IdleUpTo(run, acts, sv, k)
  {
    var n, r, a := |run[0].k.procs|, run[w + 1..], acts[w + 1..];
    assert r[0] == run[w + 1];
    var j := ReadyServerSteps(r, a, sv);
    Behind(r, a, j, n);
    k := w + 1 + j;
    GoesOnTwice(run, acts, w, j, n + 1, n + 1, k, PerStep(n));
    IdleTwice(run, acts, sv, w + 1, j);
  }

  // ---- The system task answers

  /** A client whose request the system task has taken is answered within as many
      turns of the scheduler as the table has slots. */
  lemma SysAnswers(run: seq<Sys>, acts: seq<Action>, d: nat) returns (k: nat)
    requires Stretch(run, acts) && Diligent(run, acts) && run[0].pc[TASK_SYS] == Handle && !Listening(run[0], TASK_SYS)
    requires Load(run[0].k.mem[TASK_SYS], BUFFER).source == d && Turns(run, acts) > |run[0].k.procs|
    ensures k < |acts| && run[k + 1].story == run[k].story + [Answered(d, TASK_SYS)]
  {
    assert ServerOk(run[0], TASK_SYS);
    k := ReadyServerSteps(run, acts, TASK_SYS);
    StretchIsGood(run, acts, k);
    assert Moves(run, acts, k);
    SysStep(run[k], acts[k]);
  }

  lemma SysStep(s: Sys, a: Action)
    requires Good(s) && Can(s, a) && s.k.ready == TASK_SYS && s.pc[TASK_SYS] == Handle && a != Clock
    ensures Finish(Prepare(Intended, s, a)).story
         == s.story + [Answered(Load(s.k.mem[TASK_SYS], BUFFER).source, TASK_SYS)]
  {
    assert a.Answer? && ServerOk(s, TASK_SYS);
  }

  // ---- The process manager

  /** How many steps the process manager has still to take before it is through
      with a request, at most. */
  function Left(n: nat, mm: Pc): nat {
    match mm
    case Handle => 3 * n + 4
    case Copying(_, _) => 3
    case Start(_, _) => 2
    case ReplyTo(_) => 1
    case Loaded(_, _) => 1
    case Tell(_, rest) => 2 + LeftBehind(n, rest)
    case Reap(_, rest) => 1 + LeftBehind(n, rest)
    case Scan(_, i) => LeftToScan(n, i)
    case _ => 0
  }

  function LeftToScan(n: nat, i: nat): nat {
    if i < n then 3 * (n - i) + 1 else 1
  }

  function LeftBehind(n: nat, rest: Rest): nat {
    if rest.Orphans? then LeftToScan(n, rest.from) else 0
  }

  /** Every step of the process manager brings it closer to the end of its work. */
  lemma StepsGoDown(s: Sys, a: Action)
    requires Good(s) && Can(s, a) && (a.Manage? || a.Resume?)
    ensures Left(|s.k.procs|, Prepare(Intended, s, a).pc[TASK_MM]) < Left(|s.k.procs|, s.pc[TASK_MM])
  {
    match a
    case Manage(r, image) => ManageGoesDown(s, r, image);
    case Resume => RestGoesDown(s);
  }

  lemma ManageGoesDown(s: Sys, r: int, image: Memory)
    requires AtWork(s) && s.pc[TASK_MM] == Handle
    ensures Left(|s.k.procs|, ManageRequest(Intended, s, r, image).pc[TASK_MM]) < Left(|s.k.procs|, Handle)
  {
    HeldIsGood(s);
    RequestGoesDown(s, r, image, Load(s.k.mem[TASK_MM], BUFFER).source);
  }

  lemma RequestGoesDown(s: Sys, r: int, image: Memory, d: nat)
    requires SysShaped(s) && INIT <= d < |s.k.procs| && Load(s.k.mem[TASK_MM], BUFFER).source == d
    requires var got := Load(s.k.mem[TASK_MM], BUFFER);
             got.kind in {FORK, EXIT, WAIT, EXEC} && (got.kind == EXIT ==> 0 <= s.k.procs[d].parent < |s.k.procs|)
    ensures Left(|s.k.procs|, ManageRequest(Intended, s, r, image).pc[TASK_MM]) < Left(|s.k.procs|, Handle)
  {
  }

  lemma RestGoesDown(s: Sys)
    requires SysShaped(s) && UnderWay(s.pc[TASK_MM])
    ensures Left(|s.k.procs|, ManageRest(Intended, s).pc[TASK_MM]) < Left(|s.k.procs|, s.pc[TASK_MM])
  {
  }

  lemma ManagerActs(run: seq<Sys>, acts: seq<Action>, k: nat)
    requires Stretch(run, acts) && k < |acts| && Own(run, acts, TASK_MM, k)
    requires SysShaped(run[k]) && run[k].pc[TASK_MM] != Serve
    ensures SysShaped(run[k + 1])
    ensures acts[k].Manage? || acts[k].Resume?
    ensures Left(|run[k].k.procs|, run[k + 1].pc[TASK_MM]) < Left(|run[k].k.procs|, run[k].pc[TASK_MM])
  {
    StretchIsGood(run, acts, k);
    StretchIsGood(run, acts, k + 1);
    assert Moves(run, acts, k) && ManagerOk(run[k]);
    StepsGoDown(run[k], acts[k]);
  }

  /** The next step of the process manager in a stretch. */
  lemma NextOfManager(run: seq<Sys>, acts: seq<Action>) returns (j: nat)
    requires Stretch(run, acts) && Diligent(run, acts)
    requires run[0].pc[TASK_MM] != Serve && !Listening(run[0], TASK_MM)
    requires Turns(run, acts) >= PerStep(|run[0].k.procs|)
    ensures GoesOn(run, acts, j, PerStep(|run[0].k.procs|)) && SysShaped(run[j + 1])
    ensures Left(|run[0].k.procs|, run[j + 1].pc[TASK_MM]) < Left(|run[0].k.procs|, run[0].pc[TASK_MM])
  {
    j := ServerSteps(run, acts, TASK_MM);
    StretchIsGood(run, acts, j);
    ManagerActs(run, acts, j);
  }

  /** From wherever it is, the process manager is at the top of its loop again
      within a bounded number of turns, for any request. */
  lemma {:induction false} ManagerReturns(run: seq<Sys>, acts: seq<Action>) returns (k: nat)
    requires Stretch(run, acts) && Diligent(run, acts)
    requires Turns(run, acts) >= PerStep(|run[0].k.procs|) * Left(|run[0].k.procs|, run[0].pc[TASK_MM])
    ensures k <= |acts| && SysShaped(run[k]) && (run[k].pc[TASK_MM] == Serve || Listening(run[k], TASK_MM))
    decreases Left(|run[0].k.procs|, run[0].pc[TASK_MM])
  {
    if run[0].pc[TASK_MM] == Serve || Listening(run[0], TASK_MM) {
      k := 0;
    } else {
      var n, left := |run[0].k.procs|, Left(|run[0].k.procs|, run[0].pc[TASK_MM]);
      assert left > 0 by {
        assert ManagerOk(run[0]);
      }
      Times(PerStep(n), left, 1);
      var j := NextOfManager(run, acts);
      var r, a := run[j + 1..], acts[j + 1..];
      assert r[0] == run[j + 1];
      Times(PerStep(n), left, Left(n, r[0].pc[TASK_MM]) + 1);
      var i := ManagerReturns(r, a);
      k := j + 1 + i;
      assert r[i] == run[k];
    }
  }

  lemma Times(x: nat, a: nat, b: nat)
    requires a >= b
    ensures x * a >= x * b
    ensures b > 0 ==> x * b == x + x * (b - 1)
  {
  }

  // ---- What becomes of a request to the process manager

  /** The process manager is at the request of `d`, or about to report a child to it. */
  predicate Pending(s: Sys, d: nat)
    requires SysShaped(s)
  {
    match s.pc[TASK_MM]
    case Handle => !s.k.procs[TASK_MM].flags.receiving && Load(s.k.mem[TASK_MM], BUFFER).source == d
    case Copying(_, parent) => parent == d
    case Start(_, parent) => parent == d
    case ReplyTo(c) => c == d
    case Loaded(c, _) => c == d
    case Tell(c, _) => c < |s.k.procs| && s.k.procs[c].parent == d
    case _ => false
  }

  /** How many steps of the process manager `d` has to wait for, at most. */
  function StepsTo(mm: Pc): nat {
    match mm case Handle => 4 case Copying(_, _) => 3 case Start(_, _) => 2 case _ => 1
  }

  /** Since the story was `before` long, `d` has been answered or has ended, or it
      has been told to wait for a child. */
  ghost predicate Resolved(before: nat, s: Sys, d: nat)
    requires SysShaped(s) && d < |s.k.procs|
  {
    || s.k.procs[d].flags.waiting
    || exists m: nat :: before <= m < |s.story| && s.story[m].pid == d
         && (s.story[m].Exited? || s.story[m] == Answered(d, TASK_MM))
  }

  lemma Resolves(before: nat, t: Sys, d: nat, m: nat)
    requires SysShaped(t) && d < |t.k.procs| && before <= m < |t.story| && t.story[m].pid == d
    requires t.story[m].Exited? || t.story[m] == Answered(d, TASK_MM)
    ensures Resolved(before, t, d)
  {
  }

  lemma WaitResolves(s: Sys, d: nat)
    requires SysShaped(s) && d < |s.k.procs|
    ensures var t := Finish(Wait(Intended, s, d));
            SysShaped(t) && d < |t.k.procs| && |s.story| <= |t.story|
            && (Resolved(|s.story|, t, d) || (t.pc[TASK_MM].Tell? && Pending(t, d)))
  {
    var pr := Wait(Intended, s, d);
    var t := Finish(pr);
    if pr.call.Send? {
      assert t.story == s.story + [Answered(d, TASK_MM)] && t.story[|s.story|] == Answered(d, TASK_MM);
      Resolves(|s.story|, t, d, |s.story|);
    }
  }

  lemma ManageResolves(s: Sys, r: int, image: Memory, d: nat)
    requires SysShaped(s) && INIT <= d < |s.k.procs| && Load(s.k.mem[TASK_MM], BUFFER).source == d
    requires var got := Load(s.k.mem[TASK_MM], BUFFER);
             got.kind in {FORK, EXIT, WAIT, EXEC} && (got.kind == EXIT ==> 0 <= s.k.procs[d].parent < |s.k.procs|)
    ensures var t := Finish(ManageRequest(Intended, s, r, image));
            SysShaped(t) && d < |t.k.procs| && |s.story| <= |t.story|
            && (Resolved(|s.story|, t, d) || (Pending(t, d) && StepsTo(t.pc[TASK_MM]) < StepsTo(Handle)))
  {
    var got := Load(s.k.mem[TASK_MM], BUFFER);
    var t := Finish(ManageRequest(Intended, s, r, image));
    if got.kind == WAIT {
      WaitResolves(s, d);
    } else if got.kind == EXIT {
      assert t.story == s.story + [Exited(d, got.retval)] && t.story[|s.story|] == Exited(d, got.retval);
      Resolves(|s.story|, t, d, |s.story|);
    } else if got.kind == FORK && FirstFree(s.k.procs, 0) == |s.k.procs| {
      assert t.story == s.story + [Answered(d, TASK_MM)] && t.story[|s.story|] == Answered(d, TASK_MM);
      Resolves(|s.story|, t, d, |s.story|);
    }
  }

  lemma RestResolves(s: Sys, d: nat)
    requires SysShaped(s) && ManagerOk(s) && UnderWay(s.pc[TASK_MM]) && Pending(s, d) && d < |s.k.procs|
    ensures var t := Finish(ManageRest(Intended, s));
            SysShaped(t) && d < |t.k.procs| && |s.story| <= |t.story|
            && (Resolved(|s.story|, t, d) || (Pending(t, d) && StepsTo(t.pc[TASK_MM]) < StepsTo(s.pc[TASK_MM])))
  {
    var t := Finish(ManageRest(Intended, s));
    var answer := Answered(d, TASK_MM);
    match s.pc[TASK_MM]
    case Tell(c, _) =>
      assert t.story == s.story + [Reported(c, s.k.procs[c].exitStatus, d)] + [answer];
      assert t.story[|s.story| + 1] == answer;
      Resolves(|s.story|, t, d, |s.story| + 1);
    case ReplyTo(_) =>
      assert t.story == s.story + [answer] && t.story[|s.story|] == answer;
      Resolves(|s.story|, t, d, |s.story|);
    case Loaded(_, _) =>
      assert t.story == s.story + [answer] && t.story[|s.story|] == answer;
      Resolves(|s.story|, t, d, |s.story|);
    case _ =>
  }

  lemma PendingInTable(s: Sys, d: nat)
    requires Good(s) && Pending(s, d)
    ensures INIT <= d < |s.k.procs| && ManagerOk(s)
  {
    assert ServerOk(s, TASK_MM);
    if s.pc[TASK_MM].Tell? {
      assert ParentOk(s, s.pc[TASK_MM].child);
    }
  }

  /** A step of the process manager on a request of `d` resolves it or brings it closer. */
  lemma PendingStep(s: Sys, a: Action, d: nat)
    requires Good(s) && Can(s, a) && (a.Manage? || a.Resume?) && Pending(s, d)
    ensures var t := Finish(Prepare(Intended, s, a));
            SysShaped(t) && d < |t.k.procs| && |s.story| <= |t.story|
            && (Resolved(|s.story|, t, d) || (Pending(t, d) && StepsTo(t.pc[TASK_MM]) < StepsTo(s.pc[TASK_MM])))
  {
    PendingInTable(s, d);
    match a
    case Manage(r, image) =>
      HeldIsGood(s);
      ManageResolves(s, r, image, d);
    case Resume => RestResolves(s, d);
  }

  lemma PendingSame(s: Sys, t: Sys, d: nat)
    requires SysShaped(s) && SysShaped(t) && |t.k.procs| == |s.k.procs| && Pending(s, d)
    requires t.pc[TASK_MM] == s.pc[TASK_MM] && SameStatus(s.k.procs, t.k.procs)
    requires s.pc[TASK_MM] == Handle ==>
               !t.k.procs[TASK_MM].flags.receiving && t.k.mem[TASK_MM] == s.k.mem[TASK_MM]
    ensures Pending(t, d)
  {
  }

  /** The steps of others leave it as it is. */
  lemma PendingStays(s: Sys, a: Action, d: nat)
    requires Good(s) && Can(s, a) && Pending(s, d) && !(s.k.ready == TASK_MM && a != Clock)
    ensures var t := Finish(Prepare(Intended, s, a));
            SysShaped(t) && Pending(t, d) && t.pc[TASK_MM] == s.pc[TASK_MM] && |s.story| <= |t.story|
  {
    var t := Finish(Prepare(Intended, s, a));
    LoopsReadSteady(s, a);
    if s.k.procs[TASK_MM].flags == READY {
      ServerStays(s, a, TASK_MM);
    } else {
      PendingIsBlocked(s, d);
      BlockedStays(s, a, TASK_MM, s.k.procs[TASK_MM].sendTo);
    }
    PendingSame(s, t, d);
  }

  lemma PendingIsBlocked(s: Sys, d: nat)
    requires Good(s) && Pending(s, d) && s.k.procs[TASK_MM].flags != READY
    ensures s.k.procs[TASK_MM].sendTo >= 0 && Sends(s.k.procs, TASK_MM, s.k.procs[TASK_MM].sendTo)
    ensures s.pc[TASK_MM] != Handle
  {
    assert ServerOk(s, TASK_MM);
  }

  lemma {:induction false} PendingAwaits(run: seq<Sys>, acts: seq<Action>, d: nat, j: nat)
    requires Stretch(run, acts) && j <= |acts| && IdleUpTo(run, acts, TASK_MM, j) && Pending(run[0], d)
    ensures SysShaped(run[j]) && Pending(run[j], d) && run[j].pc[TASK_MM] == run[0].pc[TASK_MM]
    ensures |run[0].story| <= |run[j].story|
  {
    if j > 0 {
      PendingAwaits(run, acts, d, j - 1);
      assert !Own(run, acts, TASK_MM, j - 1);
      StretchIsGood(run, acts, j - 1);
      assert Moves(run, acts, j - 1);
      PendingStays(run[j - 1], acts[j - 1], d);
    }
  }

  lemma ResolvedBefore(a: nat, b: nat, s: Sys, d: nat)
    requires SysShaped(s) && d < |s.k.procs| && a <= b && Resolved(b, s, d)
    ensures Resolved(a, s, d)
  {
  }

  /** The next step of the process manager in a stretch. */
  lemma NextOnRequest(run: seq<Sys>, acts: seq<Action>, d: nat) returns (j: nat)
    requires Stretch(run, acts) && Diligent(run, acts) && Pending(run[0], d)
    requires Turns(run, acts) >= PerStep(|run[0].k.procs|)
    ensures GoesOn(run, acts, j, PerStep(|run[0].k.procs|)) && SysShaped(run[j + 1]) && d < |run[j + 1].k.procs|
    ensures Resolved(|run[0].story|, run[j + 1], d)
         || (Pending(run[j + 1], d) && StepsTo(run[j + 1].pc[TASK_MM]) < StepsTo(run[0].pc[TASK_MM]))
    ensures |run[0].story| <= |run[j + 1].story|
  {
    j := ServerSteps(run, acts, TASK_MM);
    PendingAwaits(run, acts, d, j);
    StretchIsGood(run, acts, j);
    ManagerActs(run, acts, j);
    assert Moves(run, acts, j);
    PendingStep(run[j], acts[j], d);
    if Resolved(|run[j].story|, run[j + 1], d) {
      ResolvedBefore(|run[0].story|, |run[j].story|, run[j + 1], d);
    }
  }

  /** A client whose request the process manager has taken is answered, has ended
      or has been told to wait within a bounded number of turns. */
  lemma {:induction false} RequestIsResolved(run: seq<Sys>, acts: seq<Action>, d: nat) returns (k: nat)
    requires Stretch(run, acts) && Diligent(run, acts) && Pending(run[0], d)
    requires Turns(run, acts) >= PerStep(|run[0].k.procs|) * StepsTo(run[0].pc[TASK_MM])
    ensures k <= |acts| && SysShaped(run[k]) && d < |run[k].k.procs| && Resolved(|run[0].story|, run[k], d)
    decreases StepsTo(run[0].pc[TASK_MM])
  {
    var n, left := |run[0].k.procs|, StepsTo(run[0].pc[TASK_MM]);
    Times(PerStep(n), left, 1);
    var j := NextOnRequest(run, acts, d);
    k := j + 1;
    if !Resolved(|run[0].story|, run[k], d) {
      var r, a := run[j + 1..], acts[j + 1..];
      assert r[0] == run[j + 1];
      Times(PerStep(n), left, StepsTo(r[0].pc[TASK_MM]) + 1);
      var i := RequestIsResolved(r, a, d);
      k := j + 1 + i;
      assert r[i] == run[k];
      ResolvedBefore(|run[0].story|, |r[0].story|, run[k], d);
    }
  }
}
