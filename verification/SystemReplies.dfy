/** Which request every process is in, and that its answer is found where the
    request said, over whole runs. */
module SystemReplies {
  import opened IpcState
  import opened IpcSteps
  import opened System
  import opened SystemInv
  import opened SystemCalls
  import opened SystemManager
  import opened SystemSafety
  import opened SystemRuns
  import opened SystemTheorems
  import opened SystemDelivery
  import opened SystemReports
  import opened SystemProgress
  import D = Delivery

  // ---- The last request of every process

  /** What a stub asked which server, with the message at which address. */
  datatype Request = Request(server: nat, m: Ptr, text: Message)

  /** The requests after a step; a process that is born is in its parent's. */
  function NextAsked(s: Sys, a: Action, asked: seq<Request>): (next: seq<Request>)
    requires SysShaped(s) && Can(s, a) && |asked| == |s.k.procs|
    ensures |next| == |asked|
  {
    var k := Prepare(Intended, s, a).k;
    if a.Ask? then asked[s.k.ready := Request(a.server, a.m, a.request)] else Passed(s.k, k, asked)
  }

  function Passed(k: State, t: State, asked: seq<Request>): (next: seq<Request>)
    requires |t.procs| == |k.procs| == |asked|
    ensures |next| == |asked|
  {
    seq(|asked|, p requires 0 <= p < |asked| =>
      var o := D.Origin(k, t, p);
      if 0 <= o < |asked| then asked[o] else asked[p])
  }

  /** Client `c` is in the call its last request began: blocked with the request,
      which it still holds, or about to receive, or waiting for the answer at the
      address of the request. */
  predicate InCall(s: Sys, asked: seq<Request>, c: nat)
    requires SysShaped(s) && c < |s.k.procs| == |asked|
  {
    var pr, q := s.k.procs[c], asked[c];
    match PhaseOf(pr, s.pc[c])
    case Queued(sv) => s.pc[c] == Asked(q.server, q.m) && Load(s.k.mem[c], q.m) == q.text.(source := c)
    case Held(sv) => q.server == sv && if s.pc[c].Asked? then s.pc[c].m == q.m else pr.msg == q.m
    case _ => true
  }

  /** The request server `sv` holds is the last one of the client it is from. */
  predicate HoldsLast(s: Sys, asked: seq<Request>, sv: nat)
    requires SysShaped(s) && sv < |s.k.procs| == |asked|
  {
    var got := Load(s.k.mem[sv], BUFFER);
    (s.pc[sv] == Handle && !s.k.procs[sv].flags.receiving) || s.pc[sv].Loaded? ==>
      0 <= got.source < |asked| && asked[got.source].server == sv
      && got == asked[got.source].text.(source := got.source)
      && (s.pc[sv].Loaded? ==> got.source == s.pc[sv].client)
  }

  ghost predicate AsksOk(s: Sys, asked: seq<Request>) {
    && SysShaped(s) && |asked| == |s.k.procs| && HoldsLast(s, asked, TASK_SYS) && HoldsLast(s, asked, TASK_MM)
    && forall c: nat :: INIT <= c < |asked| ==> InCall(s, asked, c)
  }

  // ---- What a step writes before its call

  /** Clients stand where they stood, or where their parent stood when they were born. */
  ghost predicate PcsKept(s: Sys, t: Sys)
    requires SysShaped(s) && SysShaped(t)
  {
    && |t.k.procs| == |s.k.procs|
    && forall c: nat :: INIT <= c < |s.k.procs| && !t.k.procs[c].flags.free ==>
         var o := D.Origin(s.k, t.k, c);
         INIT <= o < |s.k.procs| && !s.k.procs[o].flags.free && t.pc[c] == s.pc[o]
  }

  lemma EditKeepsCall(s: Sys, t: Sys, asked: seq<Request>, c: nat)
    requires SysShaped(s) && SysShaped(t) && Spares(s.k, t.k) && PcsKept(s, t) && AsksOk(s, asked)
    requires INIT <= c < |s.k.procs|
    requires forall x: nat :: INIT <= x < |s.k.procs| ==> PhaseOf(s.k.procs[x], s.pc[x]) != Broken
    requires PhaseOf(t.k.procs[c], t.pc[c]) != Broken
    ensures InCall(t, Passed(s.k, t.k, asked), c)
  {
    if !t.k.procs[c].flags.free {
      assert InCall(s, asked, D.Origin(s.k, t.k, c));
    }
  }

  lemma PassedStays(k: State, t: State, asked: seq<Request>)
    requires |t.procs| == |k.procs| == |asked| && forall p: nat :: p < |k.procs| ==> D.Origin(k, t, p) == p
    ensures Passed(k, t, asked) == asked
  {
  }

  // ---- The calls

  /** A server's answer. */
  lemma AnswerKeepsCalls(t: Sys, asked: seq<Request>, d: nat, m: Ptr)
    requires SysShaped(t) && Inv(t.k) && AsksOk(t, asked) && IsServer(t.k.ready) && INIT <= d < |t.k.procs|
    requires t.pc[t.k.ready] != Handle && !t.pc[t.k.ready].Loaded?
    requires t.k.procs[d].flags.receiving ==> t.pc[d] == User
    ensures AsksOk(Called(t, Send(d, m)), asked)
  {
    var u := Called(t, Send(d, m));
    forall c: nat | INIT <= c < |asked| ensures InCall(u, asked, c) {
      assert InCall(t, asked, c);
    }
  }

  /** A client's request. */
  lemma AskKeepsCalls(s: Sys, asked: seq<Request>, sv: nat, m: Ptr, r: Message)
    requires Good(s) && AsksOk(s, asked) && Can(s, Ask(sv, m, r))
    ensures AsksOk(Finish(Prepare(Intended, s, Ask(sv, m, r))), NextAsked(s, Ask(sv, m, r), asked))
  {
    var p := s.k.ready;
    var u, next := Finish(Prepare(Intended, s, Ask(sv, m, r))), NextAsked(s, Ask(sv, m, r), asked);
    forall c: nat | INIT <= c < |asked| ensures InCall(u, next, c) {
      assert InCall(s, asked, c);
    }
    HeldStays(s, u, asked, next, p, sv);
  }

  /** Another request from `p` leaves those the servers hold the last ones of their clients. */
  lemma HeldStays(s: Sys, u: Sys, asked: seq<Request>, next: seq<Request>, p: nat, sv: nat)
    requires Good(s) && AsksOk(s, asked) && INIT <= p < |s.k.procs| && s.k.ready == p && s.pc[p] == User && IsServer(sv)
    requires |next| == |asked| && (forall c: nat :: c < |asked| && c != p ==> next[c] == asked[c])
    requires SysShaped(u) && |u.k.procs| == |s.k.procs| && next[p].server == sv
    requires forall x: nat :: IsServer(x) ==> u.pc[x] == s.pc[x]
    requires forall x: nat :: IsServer(x) && (x != sv || !s.k.procs[sv].flags.receiving) ==>
               u.k.procs[x] == s.k.procs[x] && u.k.mem[x] == s.k.mem[x]
    requires s.k.procs[sv].flags.receiving ==> Load(u.k.mem[sv], BUFFER) == next[p].text.(source := p)
    ensures HoldsLast(u, next, TASK_SYS) && HoldsLast(u, next, TASK_MM)
  {
    assert ClientOk(s, p, Debts(s, TASK_SYS), Debts(s, TASK_MM));
    assert ServerOk(s, TASK_SYS) && ServerOk(s, TASK_MM);
  }

  /** A receive leaves everybody alone but the receiver and whom it takes a message from. */
  lemma ReceiveLeaves(k: State, src: int, m: Ptr, c: nat)
    requires Shaped(k) && c < |k.procs| && c != k.ready && Partner(k, k.ready, src) != At(c)
    ensures var t := Perform(k, Receive(src, m)); t.procs[c] == k.procs[c] && t.mem[c] == k.mem[c]
  {
  }

  /** The RECEIVE half of a client's call. */
  lemma AwaitKeepsCalls(s: Sys, asked: seq<Request>)
    requires Good(s) && AsksOk(s, asked) && Can(s, Await)
    ensures AsksOk(Finish(Prepare(Intended, s, Await)), asked)
  {
    var p := s.k.ready;
    assert p >= INIT;
    assert ClientOk(s, p, Debts(s, TASK_SYS), Debts(s, TASK_MM)) && InCall(s, asked, p);
    assert ServerOk(s, TASK_SYS) && ServerOk(s, TASK_MM) && ManagerOk(s);
    AwaitKeeps(s, asked, s.pc[p].server, s.pc[p].m);
  }

  lemma AwaitKeeps(s: Sys, asked: seq<Request>, sv: nat, m: Ptr)
    requires SysShaped(s) && AsksOk(s, asked) && s.k.ready >= INIT && IsServer(sv)
    requires s.k.procs[s.k.ready].flags == READY && s.pc[s.k.ready] == Asked(sv, m) && asked[s.k.ready].server == sv
    requires asked[s.k.ready].m == m
    requires s.k.procs[sv].flags.sending ==> s.pc[sv] != Handle && !s.pc[sv].Loaded?
    ensures AsksOk(Called(s.(pc := s.pc[s.k.ready := User]), Receive(sv, m)), asked)
  {
    var p := s.k.ready;
    var u := Called(s.(pc := s.pc[p := User]), Receive(sv, m));
    forall c: nat | INIT <= c < |asked| ensures InCall(u, asked, c) {
      assert InCall(s, asked, c);
      if c != p {
        ReceiveLeaves(s.k, sv, m, c);
      }
    }
    ReceiveLeaves(s.k, sv, m, Other(sv));
  }

  /** A server that listens. */
  lemma ListenKeepsCalls(s: Sys, asked: seq<Request>)
    requires Good(s) && AsksOk(s, asked) && Can(s, Listen)
    ensures AsksOk(Finish(Prepare(Intended, s, Listen)), asked)
  {
    var sv := s.k.ready;
    if sv >= INIT {
      ClientsAsk(s, sv);
    }
    var t := s.(k := Store(s.k, sv, BUFFER, ZERO_MESSAGE));
    if |s.k.queues[sv]| > 0 {
      var f := s.k.queues[sv][0];
      assert f in s.k.queues[sv];
      SendersAreClients(s, f, sv);
      assert InCall(s, asked, f);
    }
    forall c: nat | INIT <= c < |asked| ensures InCall(t, asked, c) {
      assert InCall(s, asked, c);
    }
    assert HoldsLast(t, asked, Other(sv));
    ListenKeeps(t, asked, sv);
  }

  lemma ListenKeeps(s: Sys, asked: seq<Request>, sv: nat)
    requires SysShaped(s) && |asked| == |s.k.procs| && IsServer(sv) && s.k.ready == sv && HoldsLast(s, asked, Other(sv))
    requires forall c: nat :: INIT <= c < |asked| ==> InCall(s, asked, c)
    requires |s.k.queues[sv]| > 0 ==>
               var f := s.k.queues[sv][0];
               INIT <= f < |asked| && PhaseOf(s.k.procs[f], s.pc[f]) == Queued(sv)
    ensures AsksOk(Called(s.(pc := s.pc[sv := Handle]), Receive(Any(|asked|), BUFFER)), asked)
  {
    var n := |asked|;
    var u := Called(s.(pc := s.pc[sv := Handle]), Receive(Any(n), BUFFER));
    forall c: nat | INIT <= c < n ensures InCall(u, asked, c) {
      assert InCall(s, asked, c);
      if |s.k.queues[sv]| == 0 || c != s.k.queues[sv][0] {
        ReceiveLeaves(s.k, Any(n), BUFFER, c);
      }
    }
    ReceiveLeaves(s.k, Any(n), BUFFER, Other(sv));
    if |s.k.queues[sv]| > 0 {
      var f := s.k.queues[sv][0];
      assert InCall(s, asked, f);
      assert Load(u.k.mem[sv], BUFFER) == Load(s.k.mem[f], s.k.procs[f].msg) == asked[f].text.(source := f);
    }
    assert HoldsLast(u, asked, Other(sv));
    assert HoldsLast(u, asked, sv);
  }

  // ---- The servers' steps

  /** What the system task writes before its answer. */
  lemma SysKeepsCalls(s: Sys, asked: seq<Request>, ticks: int)
    requires Good(s) && AsksOk(s, asked) && Can(s, Answer(ticks))
    ensures AsksOk(Finish(Prepare(Intended, s, Answer(ticks))), asked)
  {
    SysEdits(s, asked, ticks);
    var t, d := SysOf(Prepare(Intended, s, Answer(ticks))), Load(s.k.mem[TASK_SYS], BUFFER).source;
    AnswerKeepsCalls(t, asked, d, BUFFER);
  }

  lemma SysEdits(s: Sys, asked: seq<Request>, ticks: int)
    requires Good(s) && AsksOk(s, asked) && Can(s, Answer(ticks))
    ensures var t, d := SysOf(Prepare(Intended, s, Answer(ticks))), Load(s.k.mem[TASK_SYS], BUFFER).source;
            && SysShaped(t) && Inv(t.k) && AsksOk(t, asked) && INIT <= d < |t.k.procs|
            && Prepare(Intended, s, Answer(ticks)).call == Send(d, BUFFER)
            && PhaseOf(t.k.procs[d], t.pc[d]) == Held(TASK_SYS) && t.k.procs == s.k.procs
            && (Accepts(t.k.procs, d, TASK_SYS) ==> t.k.procs[d].flags == RECEIVING)
  {
    assert ServerOk(s, TASK_SYS);
    var d: nat := Load(s.k.mem[TASK_SYS], BUFFER).source;
    var t := SysOf(Prepare(Intended, s, Answer(ticks)));
    forall c: nat | INIT <= c < |asked| ensures InCall(t, asked, c) {
      assert InCall(s, asked, c);
    }
    assert ClientOk(s, d, Debts(s, TASK_SYS), Debts(s, TASK_MM));
    assert Inv(t.k) && HoldsLast(t, asked, TASK_MM);
  }

  lemma ManagePcs(s: Sys, r: int, image: Memory)
    requires AtWork(s) && s.pc[TASK_MM] == Handle
    ensures PcsKept(s, SysOf(ManageRequest(Intended, s, r, image)))
  {
    HeldIsGood(s);
    var d: nat := Load(s.k.mem[TASK_MM], BUFFER).source;
    assert ClientOk(s, d, Debts(s, TASK_SYS), Debts(s, TASK_MM));
    RequestPcs(s, r, image, Load(s.k.mem[TASK_MM], BUFFER).source);
  }

  lemma RequestPcs(s: Sys, r: int, image: Memory, d: nat)
    requires SysShaped(s) && INIT <= d < |s.k.procs| && Load(s.k.mem[TASK_MM], BUFFER).source == d
    requires !s.k.procs[d].flags.free
    ensures PcsKept(s, SysOf(ManageRequest(Intended, s, r, image)))
  {
  }

  lemma RestPcs(s: Sys)
    requires SysShaped(s) && UnderWay(s.pc[TASK_MM])
    ensures PcsKept(s, SysOf(ManageRest(Intended, s)))
  {
  }

  /** The program the process manager has loaded is for the client whose request it holds. */
  lemma ManagerHolds(s: Sys, a: Action, asked: seq<Request>)
    requires Good(s) && AsksOk(s, asked) && Can(s, a) && (a.Manage? || a.Resume?)
    ensures HoldsLast(SysOf(Prepare(Intended, s, a)), asked, TASK_MM)
  {
    match a
    case Manage(r, image) =>
      HeldIsGood(s);
      RequestHolds(s, r, image, Load(s.k.mem[TASK_MM], BUFFER).source, asked);
    case Resume => RestHolds(s, asked);
  }

  lemma RequestHolds(s: Sys, r: int, image: Memory, d: nat, asked: seq<Request>)
    requires SysShaped(s) && |asked| == |s.k.procs| && INIT <= d < |asked| && s.pc[TASK_MM] == Handle
    requires var got := Load(s.k.mem[TASK_MM], BUFFER);
             && got.source == d && asked[d].server == TASK_MM && got == asked[d].text.(source := d)
             && got.kind in {FORK, EXIT, WAIT, EXEC} && (got.kind == EXIT ==> 0 <= s.k.procs[d].parent < |asked|)
    ensures HoldsLast(SysOf(ManageRequest(Intended, s, r, image)), asked, TASK_MM)
  {
  }

  lemma RestHolds(s: Sys, asked: seq<Request>)
    requires SysShaped(s) && |asked| == |s.k.procs| && UnderWay(s.pc[TASK_MM])
    ensures HoldsLast(SysOf(ManageRest(Intended, s)), asked, TASK_MM)
  {
  }

  lemma ManagerPcs(s: Sys, a: Action)
    requires Good(s) && Can(s, a) && (a.Manage? || a.Resume?)
    ensures PcsKept(s, SysOf(Prepare(Intended, s, a))) && EditSpares(s, Prepare(Intended, s, a))
  {
    match a
    case Manage(r, image) =>
      ManagePcs(s, r, image);
      ManageEditSpares(s, r, image);
    case Resume =>
      RestPcs(s);
      RestEditSpares(s);
  }

  lemma ManagerEdits(s: Sys, a: Action, asked: seq<Request>)
    requires Good(s) && AsksOk(s, asked) && Can(s, a) && (a.Manage? || a.Resume?)
    ensures var t := SysOf(Prepare(Intended, s, a)); AsksOk(t, NextAsked(s, a, asked))
  {
    var pr := Prepare(Intended, s, a);
    ManagerStepTells(s, a);
    PrepareSpares(s, a);
    ManagerPcs(s, a);
    ManagerHolds(s, a, asked);
    ManagerGoesOn(s, a);
    EditKeepsAsks(s, pr, asked);
  }

  /** Behind its step the process manager holds no unread request, and a program
      only for a client that lives. */
  lemma ManagerGoesOn(s: Sys, a: Action)
    requires Good(s) && Can(s, a) && (a.Manage? || a.Resume?)
    ensures var mm := Prepare(Intended, s, a).pc[TASK_MM];
            mm != Handle && (mm.Loaded? ==> INIT <= mm.client < |s.k.procs| && !s.k.procs[mm.client].flags.free)
  {
    match a
    case Manage(r, image) =>
      HeldIsGood(s);
      assert ClientOk(s, Load(s.k.mem[TASK_MM], BUFFER).source, Debts(s, TASK_SYS), Debts(s, TASK_MM));
    case Resume =>
  }

  lemma EditKeepsAsks(s: Sys, pr: Prepared, asked: seq<Request>)
    requires Good(s) && AsksOk(s, asked) && Settles(pr) && EditSpares(s, pr) && Spares(s.k, pr.k)
    requires PcsKept(s, SysOf(pr)) && HoldsLast(SysOf(pr), asked, TASK_MM)
    requires pr.pc[TASK_MM] != Handle && (pr.pc[TASK_MM].Loaded? ==>
               INIT <= pr.pc[TASK_MM].client < |s.k.procs| && !s.k.procs[pr.pc[TASK_MM].client].flags.free)
    ensures AsksOk(SysOf(pr), Passed(s.k, pr.k, asked))
  {
    var t := SysOf(pr);
    forall c: nat | INIT <= c < |asked| ensures InCall(t, Passed(s.k, t.k, asked), c) {
      Unbroken(s, pr, c);
      EditKeepsCall(s, t, asked, c);
    }
    HeldByLiving(s, t, asked);
  }

  lemma Unbroken(s: Sys, pr: Prepared, c: nat)
    requires Good(s) && Settles(pr) && |pr.k.procs| == |s.k.procs| && INIT <= c < |s.k.procs|
    ensures forall x: nat :: INIT <= x < |s.k.procs| ==> PhaseOf(s.k.procs[x], s.pc[x]) != Broken
    ensures PhaseOf(pr.k.procs[c], pr.pc[c]) != Broken
  {
    forall x: nat | INIT <= x < |s.k.procs| ensures PhaseOf(s.k.procs[x], s.pc[x]) != Broken {
      assert ClientOk(s, x, Debts(s, TASK_SYS), Debts(s, TASK_MM));
    }
    var t := SysOf(pr);
    if pr.call.Send? {
      assert ClientOk(t, c, Debts(t, TASK_SYS), Debts(t, TASK_MM) + {pr.call.dest as int});
    } else {
      assert ClientOk(t, c, Debts(t, TASK_SYS), Debts(t, TASK_MM));
    }
  }

  /** Nobody is born in the slot of a client whose request a server holds. */
  lemma HeldByLiving(s: Sys, t: Sys, asked: seq<Request>)
    requires Good(s) && SysShaped(t) && |t.k.procs| == |s.k.procs| == |asked|
    requires HoldsLast(s, asked, TASK_SYS) && HoldsLast(t, asked, TASK_MM)
    requires EditSpares(s, Prepared(t.k, NoCall, t.pc, t.story))
    requires t.pc[TASK_MM] != Handle && (t.pc[TASK_MM].Loaded? ==>
               INIT <= t.pc[TASK_MM].client < |s.k.procs| && !s.k.procs[t.pc[TASK_MM].client].flags.free)
    ensures HoldsLast(t, Passed(s.k, t.k, asked), TASK_SYS) && HoldsLast(t, Passed(s.k, t.k, asked), TASK_MM)
  {
    assert ServerOk(s, TASK_SYS);
    if s.pc[TASK_SYS] == Handle && !s.k.procs[TASK_SYS].flags.receiving {
      var d: nat := Load(s.k.mem[TASK_SYS], BUFFER).source;
      assert ClientOk(s, d, Debts(s, TASK_SYS), Debts(s, TASK_MM));
    }
  }

  /** A step of the process manager. */
  lemma ManagerKeepsCalls(s: Sys, a: Action, asked: seq<Request>)
    requires Good(s) && AsksOk(s, asked) && Can(s, a) && (a.Manage? || a.Resume?)
    ensures AsksOk(Finish(Prepare(Intended, s, a)), NextAsked(s, a, asked))
  {
    var pr := Prepare(Intended, s, a);
    ManagerEdits(s, a, asked);
    ManagerStepTells(s, a);
    if pr.call.Send? {
      var t, d := SysOf(pr), pr.call.dest;
      assert ClientOk(t, d, Debts(t, TASK_SYS), Debts(t, TASK_MM) + {d as int});
      AnswerKeepsCalls(t, NextAsked(s, a, asked), d, pr.call.m);
    }
  }

  lemma StepKeepsAsks(s: Sys, a: Action, asked: seq<Request>)
    requires Good(s) && AsksOk(s, asked) && Can(s, a)
    ensures AsksOk(Finish(Prepare(Intended, s, a)), NextAsked(s, a, asked))
  {
    if a.Ask? {
      AskKeepsCalls(s, asked, a.server, a.m, a.request);
    } else if a.Manage? || a.Resume? {
      ManagerKeepsCalls(s, a, asked);
    } else {
      PassedStays(s.k, Prepare(Intended, s, a).k, asked);
      OthersKeepAsks(s, a, asked);
    }
  }

  lemma OthersKeepAsks(s: Sys, a: Action, asked: seq<Request>)
    requires Good(s) && AsksOk(s, asked) && Can(s, a) && !a.Ask? && !a.Manage? && !a.Resume?
    ensures AsksOk(Finish(Prepare(Intended, s, a)), asked)
  {
    match a
    case Await => AwaitKeepsCalls(s, asked);
    case Listen => ListenKeepsCalls(s, asked);
    case Answer(ticks) => SysKeepsCalls(s, asked, ticks);
    case Compute(own) => OwnMemoryKeepsAsks(s, asked, own);
    case Clock =>
      forall c: nat | INIT <= c < |asked| ensures InCall(Finish(Prepare(Intended, s, Clock)), asked, c) {
        assert InCall(s, asked, c);
      }
  }

  lemma OwnMemoryKeepsAsks(s: Sys, asked: seq<Request>, own: Memory)
    requires Good(s) && AsksOk(s, asked) && Can(s, Compute(own))
    ensures AsksOk(Finish(Prepare(Intended, s, Compute(own))), asked)
  {
    var t := Finish(Prepare(Intended, s, Compute(own)));
    forall c: nat | INIT <= c < |asked| ensures InCall(t, asked, c) {
      assert InCall(s, asked, c);
    }
  }

  // ---- Runs

  /** A run with the actions that make it. */
  ghost predicate Acts(run: seq<Sys>, acts: seq<Action>) {
    && |run| == |acts| + 1 && Boots(run[0])
    && (forall i: nat {:trigger Moves(run, acts, i)} :: i < |acts| ==> Moves(run, acts, i))
  }

  lemma ActsAreStretch(run: seq<Sys>, acts: seq<Action>)
    requires Acts(run, acts)
    ensures Stretch(run, acts)
  {
    BootIsGood(run[0]);
  }

  /** The last requests when the run has come to its `i`-th state. */
  ghost function Requests(run: seq<Sys>, acts: seq<Action>, i: nat): (asked: seq<Request>)
    requires Acts(run, acts) && i <= |acts|
    ensures |asked| == |run[0].k.procs| == |run[i].k.procs|
  {
    ActsAreStretch(run, acts);
    StretchIsGood(run, acts, i);
    if i == 0 then seq(|run[0].k.procs|, _ => Request(0, 0, ZERO_MESSAGE))
    else
      assert Moves(run, acts, i - 1);
      NextAsked(run[i - 1], acts[i - 1], Requests(run, acts, i - 1))
  }

  /** In every state of every run everybody is in the call its last request began. */
  lemma {:induction false} RunKeepsAsks(run: seq<Sys>, acts: seq<Action>, i: nat)
    requires Acts(run, acts) && i <= |acts|
    ensures Good(run[i]) && AsksOk(run[i], Requests(run, acts, i))
  {
    ActsAreStretch(run, acts);
    StretchIsGood(run, acts, i);
    if i > 0 {
      RunKeepsAsks(run, acts, i - 1);
      assert Moves(run, acts, i - 1);
      StepKeepsAsks(run[i - 1], acts[i - 1], Requests(run, acts, i - 1));
    }
  }

  /** A run with its actions and the log of its messages. */
  ghost predicate ActedRun(run: seq<Sys>, acts: seq<Action>, logs: seq<D.Logged>) {
    && Acts(run, acts) && |logs| == |run|
    && logs[0].k == run[0].k && logs[0].sent == [] && logs[0].got == [] && D.Sized(logs[0])
    && (forall i: nat {:trigger LogMoves(run, acts, logs, i)} :: i < |acts| ==> LogMoves(run, acts, logs, i))
  }

  ghost predicate LogMoves(run: seq<Sys>, acts: seq<Action>, logs: seq<D.Logged>, i: nat)
    requires i < |acts| && |run| == |acts| + 1 == |logs|
  {
    Moves(run, acts, i) && Logs(run[i], acts[i], run[i + 1], logs[i], logs[i + 1])
  }

  lemma ActedIsLogged(run: seq<Sys>, acts: seq<Action>, logs: seq<D.Logged>, i: nat)
    requires ActedRun(run, acts, logs) && i <= |acts|
    ensures LoggedRun(run, logs) && Logged(run[i], logs[i])
  {
    forall k: nat | k + 1 < |run| ensures LoggedAt(run, logs, k) {
      assert LogMoves(run, acts, logs, k);
    }
    RunKeepsLog(run, logs, i);
  }

  // ---- Answers

  /** Message number `a.ticket` has just arrived at a client: it is from the server
      of the client's last request, and is now at the address of that request. */
  ghost predicate Answers(t: Sys, asked: seq<Request>, l: D.Logged, a: D.Arrival) {
    && SysShaped(t) && INIT <= a.to < |t.k.procs| == |asked| && a.ticket < |l.sent|
    && var q := asked[a.to];
       && a.want == D.Want(q.server, q.m)
       && l.sent[a.ticket] == D.Packet(q.server, a.to, Load(t.k.mem[a.to], q.m))
       && t.pc[a.to] == User && Runnable(t.k.procs, a.to)
  }

  lemma SendArrives(s: Sys, asked: seq<Request>, l: D.Logged, sv: nat, d: nat, m: Ptr)
    requires SysShaped(s) && AsksOk(s, asked) && l.k == s.k && D.LogOk(l) && s.k.ready == sv && IsServer(sv)
    requires INIT <= d < |s.k.procs| && PhaseOf(s.k.procs[d], s.pc[d]) == Held(sv) && Accepts(s.k.procs, d, sv)
    requires s.k.procs[d].flags == RECEIVING && D.LogOk(D.Next(l, D.Send(d, m)))
    ensures var l', t := D.Next(l, D.Send(d, m)), Called(s, Send(d, m));
            |l'.got| == |l.got| + 1 && Answers(t, asked, l', l'.got[|l.got|])
  {
    var l', t := D.Next(l, D.Send(d, m)), Called(s, Send(d, m));
    assert InCall(s, asked, d) && D.Faithful(l', |l.got|);
  }

  lemma AwaitArrives(s: Sys, asked: seq<Request>, l: D.Logged, sv: nat, m: Ptr)
    requires SysShaped(s) && AsksOk(s, asked) && l.k == s.k && D.LogOk(l) && INIT <= s.k.ready && IsServer(sv)
    requires s.pc[s.k.ready] == Asked(sv, m) && PhaseOf(s.k.procs[s.k.ready], s.pc[s.k.ready]) == Held(sv)
    requires s.k.procs[s.k.ready].flags == READY && Sends(s.k.procs, sv, s.k.ready)
    requires D.LogOk(D.Next(l, D.Receive(sv, m)))
    ensures var l', t := D.Next(l, D.Receive(sv, m)), Called(s.(pc := s.pc[s.k.ready := User]), Receive(sv, m));
            |l'.got| == |l.got| + 1 && Answers(t, asked, l', l'.got[|l.got|])
  {
    var l' := D.Next(l, D.Receive(sv, m));
    assert InCall(s, asked, s.k.ready) && D.Faithful(l', |l.got|);
  }

  /** The step with its call. */
  lemma StepArrives(s: Sys, a: Action, asked: seq<Request>, l: D.Logged, pr: Prepared, l': D.Logged)
    requires Good(s) && l.k == s.k && D.LogOk(l) && AsksOk(s, asked) && Can(s, a)
    requires pr == Prepare(Intended, s, a) && l' == LogAfter(l, pr)
    requires |l'.got| > |l.got| && l'.got[|l.got|].to >= INIT
    ensures |l'.got| == |l.got| + 1 && Answers(Finish(pr), NextAsked(s, a, asked), l', l'.got[|l.got|])
  {
    var mid := D.Next(l, D.Update(pr.k));
    UpdateIsLogged(s, a, l);
    StepKeepsLog(l, s, a);
    if a.Manage? || a.Resume? {
      ManagerStepTells(s, a);
      ManagerArrives(s, a, asked, pr, mid, l');
    } else if !a.Ask? {
      PassedStays(s.k, pr.k, asked);
      OthersArrive(s, a, asked, pr, mid, l');
    }
  }

  lemma OthersArrive(s: Sys, a: Action, asked: seq<Request>, pr: Prepared, mid: D.Logged, l': D.Logged)
    requires Good(s) && AsksOk(s, asked) && Can(s, a) && !a.Manage? && !a.Resume? && pr == Prepare(Intended, s, a)
    requires Shaped(pr.k) && mid.k == pr.k && D.LogOk(mid) && D.LogOk(l') && |l'.got| > |mid.got|
    requires l' == match pr.call
                   case Send(d, m) => D.Next(mid, D.Send(d, m))
                   case Receive(src, m) => D.Next(mid, D.Receive(src, m))
                   case NoCall => mid
    requires l'.got[|mid.got|].to >= INIT && !a.Ask?
    ensures |l'.got| == |mid.got| + 1 && Answers(Finish(pr), asked, l', l'.got[|mid.got|])
  {
    match a
    case Answer(ticks) =>
      SysEdits(s, asked, ticks);
      SendArrives(SysOf(pr), asked, mid, TASK_SYS, pr.call.dest, BUFFER);
    case Await =>
      assert ClientOk(s, s.k.ready, Debts(s, TASK_SYS), Debts(s, TASK_MM));
      AwaitArrives(s, asked, mid, s.pc[s.k.ready].server, s.pc[s.k.ready].m);
    case Listen =>
      if s.k.ready >= INIT {
        ClientsAsk(s, s.k.ready);
      }
    case _ =>
  }

  lemma UpdateIsLogged(s: Sys, a: Action, l: D.Logged)
    requires Good(s) && Can(s, a) && l.k == s.k && D.LogOk(l)
    ensures var k := Prepare(Intended, s, a).k;
            D.LogOk(D.Next(l, D.Update(k))) && D.Next(l, D.Update(k)).k == k && D.Next(l, D.Update(k)).got == l.got
  {
    StepKeepsGood(s, a);
    PrepareSpares(s, a);
    D.StepKeepsLog(l, D.Update(Prepare(Intended, s, a).k));
  }

  lemma SettledArrives(pr: Prepared, asked: seq<Request>, mid: D.Logged)
    requires Settles(pr) && AsksOk(SysOf(pr), asked) && mid.k == pr.k && D.LogOk(mid) && pr.call.Send?
    requires var l' := D.Next(mid, D.Send(pr.call.dest, pr.call.m)); D.LogOk(l') && |l'.got| > |mid.got|
    ensures var l' := D.Next(mid, D.Send(pr.call.dest, pr.call.m));
            |l'.got| == |mid.got| + 1 && Answers(Called(SysOf(pr), pr.call), asked, l', l'.got[|mid.got|])
  {
    var t, d := SysOf(pr), pr.call.dest;
    ServerAnswers(t, TASK_MM, d, pr.call.m, Debts(t, TASK_SYS), Debts(t, TASK_MM) + {d as int});
    SendArrives(t, asked, mid, TASK_MM, d, pr.call.m);
  }

  lemma ManagerArrives(s: Sys, a: Action, asked: seq<Request>, pr: Prepared, mid: D.Logged, l': D.Logged)
    requires Good(s) && AsksOk(s, asked) && Can(s, a) && (a.Manage? || a.Resume?) && pr == Prepare(Intended, s, a)
    requires Shaped(pr.k) && mid.k == pr.k && D.LogOk(mid) && D.LogOk(l') && |l'.got| > |mid.got|
    requires pr.call.Send? && pr.call.dest < |pr.k.procs| && l' == D.Next(mid, D.Send(pr.call.dest, pr.call.m))
    ensures |l'.got| == |mid.got| + 1 && Answers(Finish(pr), NextAsked(s, a, asked), l', l'.got[|mid.got|])
  {
    ManagerEdits(s, a, asked);
    ManagerStepTells(s, a);
    SettledArrives(pr, NextAsked(s, a, asked), mid);
    assert Finish(pr) == Called(SysOf(pr), pr.call);
  }

  /** Over every run: whenever a message arrives at a client, it is the answer of
      the server of the client's last request, it is now at the address of that
      request, and the client goes on. */
  lemma AnswersArrive(run: seq<Sys>, acts: seq<Action>, logs: seq<D.Logged>, i: nat)
    requires ActedRun(run, acts, logs) && i < |acts|
    requires |logs[i + 1].got| > |logs[i].got| && logs[i + 1].got[|logs[i].got|].to >= INIT
    ensures |logs[i + 1].got| == |logs[i].got| + 1 && SysShaped(run[i + 1])
    ensures Answers(run[i + 1], Requests(run, acts, i + 1), logs[i + 1], logs[i + 1].got[|logs[i].got|])
  {
    ActedIsLogged(run, acts, logs, i);
    ActedIsLogged(run, acts, logs, i + 1);
    RunKeepsAsks(run, acts, i);
    assert LogMoves(run, acts, logs, i);
    StepArrives(run[i], acts[i], Requests(run, acts, i), logs[i], Prepare(Intended, run[i], acts[i]), logs[i + 1]);
  }

  // ---- Nobody goes on without an answer

  predicate InsideCall(s: Sys, c: nat)
    requires SysShaped(s) && c < |s.k.procs|
  {
    PhaseOf(s.k.procs[c], s.pc[c]).Queued? || PhaseOf(s.k.procs[c], s.pc[c]).Held?
  }

  lemma RequestEndsNoCall(s: Sys, r: int, image: Memory, c: nat)
    requires SysShaped(s) && c < |s.k.procs| && InsideCall(s, c)
    ensures var t := SysOf(ManageRequest(Intended, s, r, image)); PhaseOf(t.k.procs[c], t.pc[c]) != Running
  {
  }

  lemma RestEndsNoCall(s: Sys, c: nat)
    requires SysShaped(s) && UnderWay(s.pc[TASK_MM]) && c < |s.k.procs| && InsideCall(s, c)
    ensures var t := SysOf(ManageRest(Intended, s)); PhaseOf(t.k.procs[c], t.pc[c]) != Running
  {
  }

  /** A call of somebody else lets `c` go on only by handing it a message. */
  lemma CallLetsGo(t: Sys, l: D.Logged, call: Call, c: nat)
    requires SysShaped(t) && l.k == t.k && D.Sized(l) && c < |t.k.procs| && c != t.k.ready && call != NoCall
    requires call.Send? ==> call.dest < |t.k.procs|
    requires PhaseOf(t.k.procs[c], t.pc[c]) != Running && Inv(t.k) && t.k.procs[t.k.ready].flags == READY
    requires var u := Called(t, call); PhaseOf(u.k.procs[c], u.pc[c]) == Running
    requires t.k.procs[c].flags.sending ==> t.pc[c] != User
    ensures var l' := match call
                      case Send(d, m) => D.Next(l, D.Send(d, m))
                      case Receive(src, m) => D.Next(l, D.Receive(src, m));
            |l'.got| > |l.got| && l'.got[|l.got|].to == c
  {
  }

  /** Its own RECEIVE lets `c` go on only with a message. */
  lemma AwaitLetsGo(s: Sys, l: D.Logged, c: nat)
    requires Good(s) && Can(s, Await) && l.k == s.k && D.Sized(l) && c == s.k.ready
    requires var t := Finish(Prepare(Intended, s, Await)); PhaseOf(t.k.procs[c], t.pc[c]) == Running
    ensures var l' := LogAfter(l, Prepare(Intended, s, Await)); |l'.got| > |l.got| && l'.got[|l.got|].to == c
  {
  }

  lemma ManagerLetsGo(s: Sys, a: Action, l: D.Logged, c: nat)
    requires Good(s) && Can(s, a) && (a.Manage? || a.Resume?) && l.k == s.k && D.Sized(l)
    requires INIT <= c < |s.k.procs| && InsideCall(s, c)
    requires var t := Finish(Prepare(Intended, s, a)); PhaseOf(t.k.procs[c], t.pc[c]) == Running
    ensures var l' := LogAfter(l, Prepare(Intended, s, a)); |l'.got| > |l.got| && l'.got[|l.got|].to == c
  {
    ManagerStepTells(s, a);
    ManagerEndsNoCall(s, a, c);
    SettledLetsGo(Prepare(Intended, s, a), l, c);
  }

  lemma ManagerEndsNoCall(s: Sys, a: Action, c: nat)
    requires SysShaped(s) && Can(s, a) && (a.Manage? || a.Resume?) && c < |s.k.procs| && InsideCall(s, c)
    ensures var t := SysOf(Prepare(Intended, s, a)); PhaseOf(t.k.procs[c], t.pc[c]) != Running
  {
    match a
    case Manage(r, image) => RequestEndsNoCall(s, r, image, c);
    case Resume => RestEndsNoCall(s, c);
  }

  lemma SettledLetsGo(pr: Prepared, l: D.Logged, c: nat)
    requires Settles(pr) && Shaped(l.k) && D.Sized(l) && |l.k.procs| == |pr.k.procs| && INIT <= c < |pr.k.procs|
    requires PhaseOf(pr.k.procs[c], pr.pc[c]) != Running
    requires var t := Finish(pr); PhaseOf(t.k.procs[c], t.pc[c]) == Running
    ensures var l' := LogAfter(l, pr); |l'.got| > |l.got| && l'.got[|l.got|].to == c
  {
    CallLetsGo(SysOf(pr), D.Next(l, D.Update(pr.k)), pr.call, c);
  }

  lemma OthersLetGo(s: Sys, a: Action, l: D.Logged, c: nat)
    requires Good(s) && Can(s, a) && !a.Manage? && !a.Resume? && l.k == s.k && D.Sized(l)
    requires INIT <= c < |s.k.procs| && InsideCall(s, c) && c != s.k.ready
    requires var t := Finish(Prepare(Intended, s, a)); PhaseOf(t.k.procs[c], t.pc[c]) == Running
    ensures var l' := LogAfter(l, Prepare(Intended, s, a)); |l'.got| > |l.got| && l'.got[|l.got|].to == c
  {
    var pr := Prepare(Intended, s, a);
    if pr.call != NoCall {
      CallLetsGo(SysOf(pr), D.Next(l, D.Update(pr.k)), pr.call, c);
    }
  }

  /** Over every run: whoever is inside a call goes on only in the step in which
      the answer to its last request arrives at the address of that request. */
  lemma AnsweredGoOn(run: seq<Sys>, acts: seq<Action>, logs: seq<D.Logged>, i: nat, c: nat)
    requires ActedRun(run, acts, logs) && i < |acts| && SysShaped(run[i]) && SysShaped(run[i + 1])
    requires INIT <= c < |run[i].k.procs| == |run[i + 1].k.procs|
    requires InsideCall(run[i], c) && PhaseOf(run[i + 1].k.procs[c], run[i + 1].pc[c]) == Running
    ensures |logs[i + 1].got| == |logs[i].got| + 1 && logs[i + 1].got[|logs[i].got|].to == c
    ensures Answers(run[i + 1], Requests(run, acts, i + 1), logs[i + 1], logs[i + 1].got[|logs[i].got|])
  {
    ActedIsLogged(run, acts, logs, i);
    assert LogMoves(run, acts, logs, i);
    var s, a, l := run[i], acts[i], logs[i];
    if a.Manage? || a.Resume? {
      ManagerLetsGo(s, a, l, c);
    } else if c != s.k.ready {
      OthersLetGo(s, a, l, c);
    } else if a.Await? {
      AwaitLetsGo(s, l, c);
    }
    AnswersArrive(run, acts, logs, i);
  }

  /** Until its own next step a client that goes on finds its memory as it was. */
  lemma AnswerStays(s: Sys, a: Action, c: nat)
    requires Good(s) && Can(s, a) && INIT <= c < |s.k.procs| && PhaseOf(s.k.procs[c], s.pc[c]) == Running
    requires !(s.k.ready == c && a != Clock)
    ensures var t := Finish(Prepare(Intended, s, a));
            SysShaped(t) && |t.k.procs| == |s.k.procs| && t.k.mem[c] == s.k.mem[c]
            && PhaseOf(t.k.procs[c], t.pc[c]) == Running
  {
    var t := Finish(Prepare(Intended, s, a));
    StepKeepsGood(s, a);
    assert ClientOk(s, c, Debts(s, TASK_SYS), Debts(s, TASK_MM));
    if a.Manage? || a.Resume? {
      ManagerSparesRunning(s, a, c);
    } else if a != Clock {
      PrepareKeepsTable(s, a);
      CallSpares(Prepare(Intended, s, a).k, Prepare(Intended, s, a).call, c);
    }
  }

  lemma ManagerSparesRunning(s: Sys, a: Action, c: nat)
    requires Good(s) && Can(s, a) && INIT <= c < |s.k.procs| && PhaseOf(s.k.procs[c], s.pc[c]) == Running
    requires (a.Manage? || a.Resume?) && c !in Debts(s, TASK_MM)
    ensures var t := Finish(Prepare(Intended, s, a));
            SysShaped(t) && |t.k.procs| == |s.k.procs| && t.k.mem[c] == s.k.mem[c]
            && PhaseOf(t.k.procs[c], t.pc[c]) == Running
  {
    match a
    case Manage(r, image) =>
      HeldIsGood(s);
      RequestSparesRunning(s, r, image, Load(s.k.mem[TASK_MM], BUFFER).source, c);
    case Resume => RestSparesRunning(s, c);
  }

  /** `c` runs in its own code, in the same memory. */
  predicate RunsOn(s: Sys, t: Sys, c: nat)
    requires SysShaped(s) && c < |s.k.procs|
  {
    && SysShaped(t) && |t.k.procs| == |s.k.procs| && t.k.mem[c] == s.k.mem[c]
    && t.k.procs[c].flags == READY && t.pc[c] == User
  }

  lemma RequestSparesRunning(s: Sys, r: int, image: Memory, d: nat, c: nat)
    requires SysShaped(s) && INIT <= d < |s.k.procs| && INIT <= c < |s.k.procs| && d != c && s.k.ready == TASK_MM
    requires Load(s.k.mem[TASK_MM], BUFFER).source == d && s.k.procs[c].flags == READY && s.pc[c] == User
    ensures RunsOn(s, Finish(ManageRequest(Intended, s, r, image)), c)
  {
  }

  lemma RestSparesRunning(s: Sys, c: nat)
    requires SysShaped(s) && s.k.ready == TASK_MM && UnderWay(s.pc[TASK_MM]) && INIT <= c < |s.k.procs|
    requires s.k.procs[c].flags == READY && s.pc[c] == User && c !in Debts(s, TASK_MM)
    ensures RunsOn(s, Finish(ManageRest(Intended, s)), c)
  {
    var pr := ManageRest(Intended, s);
    assert pr.call.Send? ==> pr.call.dest != c;
    assert RunsOn(s, SysOf(pr), c) && pr.k.ready == TASK_MM;
  }
}
