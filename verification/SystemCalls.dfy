/** The four kinds of system call the system makes, and that each keeps clients
    and servers in step. */
module SystemCalls {
  import opened IpcState
  import opened System
  import opened SystemInv

  /** The protocol with these lists of debts, which may hold one more than the
      servers' states show: the one the running server is about to pay. */
  ghost predicate Owing(s: Sys, sysDebts: set<int>, mmDebts: set<int>)
    requires SysShaped(s)
  {
    && s.k.procs[TASK_TTY].flags == READY && s.pc[TASK_TTY] == User
    && ServerOk(s, TASK_SYS) && ServerOk(s, TASK_MM) && ManagerOk(s)
    && (s.pc[TASK_SYS] == Serve || s.pc[TASK_SYS] == Handle)
    && (forall c: nat :: INIT <= c < |s.k.procs| ==> ClientOk(s, c, sysDebts, mmDebts))
    && (forall c: nat :: c < |s.k.procs| ==> ParentOk(s, c))
  }

  function Called(s: Sys, call: Call): Sys
    requires SysShaped(s) && (call.Send? ==> call.dest < |s.k.procs|)
  {
    s.(k := Perform(s.k, call))
  }

  predicate IsServer(sv: nat) {
    sv == TASK_SYS || sv == TASK_MM
  }

  function Other(sv: nat): nat {
    if sv == TASK_SYS then TASK_MM else TASK_SYS
  }

  /** `t` differs from `s` only in `p` and `q`. */
  ghost predicate OnlyTouches(s: Sys, t: Sys, p: nat, q: nat)
    requires SysShaped(s) && SysShaped(t)
  {
    && |t.k.procs| == |s.k.procs|
    && (forall x: nat :: x < |s.k.procs| && x != p && x != q ==>
          t.k.procs[x] == s.k.procs[x] && t.pc[x] == s.pc[x] && t.k.mem[x] == s.k.mem[x])
    && (forall x: nat :: x < |s.k.procs| ==> t.k.procs[x].parent == s.k.procs[x].parent)
    && (forall x: nat :: x < |s.k.procs| ==>
          && t.k.procs[x].flags.free == s.k.procs[x].flags.free
          && t.k.procs[x].flags.hanging == s.k.procs[x].flags.hanging)
  }

  /** Who is no party to a step stays in step with the servers. */
  lemma ClientStill(s: Sys, t: Sys, c: nat, sysBefore: set<int>, mmBefore: set<int>,
                    sysAfter: set<int>, mmAfter: set<int>)
    requires SysShaped(s) && SysShaped(t) && |t.k.procs| == |s.k.procs| && c < |s.k.procs|
    requires t.k.procs[c] == s.k.procs[c] && t.pc[c] == s.pc[c] && t.k.mem[c] == s.k.mem[c]
    requires EndsAt(t.pc[TASK_MM], c) <==> EndsAt(s.pc[TASK_MM], c)
    requires (c in sysBefore <==> c in sysAfter) && (c in mmBefore <==> c in mmAfter)
    ensures ClientOk(t, c, sysAfter, mmAfter) <==> ClientOk(s, c, sysBefore, mmBefore)
  {
  }

  /** The process manager where it was, in a table with the same parents. */
  lemma ManagerStill(s: Sys, t: Sys, p: nat, q: nat)
    requires SysShaped(s) && SysShaped(t) && OnlyTouches(s, t, p, q) && t.pc[TASK_MM] == s.pc[TASK_MM] && ManagerOk(s)
    requires t.k.procs[TASK_MM].flags.sending ==>
               s.k.procs[TASK_MM].flags.sending && t.k.procs[TASK_MM].sendTo == s.k.procs[TASK_MM].sendTo
    requires Load(t.k.mem[TASK_MM], BUFFER).pid == Load(s.k.mem[TASK_MM], BUFFER).pid
    ensures ManagerOk(t)
  {
  }

  /** Who is neither party to a step stays in step with the servers, as long as
      nobody but `p` enters or leaves the list of debts. */
  lemma OthersKept(s: Sys, t: Sys, sv: nat, p: nat)
    requires SysShaped(s) && SysShaped(t) && IsServer(sv) && OnlyTouches(s, t, sv, p)
    requires Protocol(s) && (forall x: int :: EndsAt(s.pc[TASK_MM], x) <==> EndsAt(t.pc[TASK_MM], x))
    requires s.pc[TASK_MM].Tell? ==> t.pc[TASK_MM] == s.pc[TASK_MM]
    requires INIT <= p < |s.k.procs|
    requires forall x: int :: x != p ==> (x in Debts(t, sv) <==> x in Debts(s, sv))
    ensures forall c: nat :: INIT <= c < |s.k.procs| && c != p ==>
              ClientOk(t, c, Debts(t, TASK_SYS), Debts(t, TASK_MM))
    ensures forall c: nat :: c < |s.k.procs| ==> ParentOk(t, c)
    ensures Debts(t, Other(sv)) == Debts(s, Other(sv))
  {
    forall c: nat | INIT <= c < |s.k.procs| && c != p
      ensures ClientOk(t, c, Debts(t, TASK_SYS), Debts(t, TASK_MM))
    {
      assert ClientOk(s, c, Debts(s, TASK_SYS), Debts(s, TASK_MM));
      ClientStill(s, t, c, Debts(s, TASK_SYS), Debts(s, TASK_MM), Debts(t, TASK_SYS), Debts(t, TASK_MM));
    }
    forall c: nat | c < |s.k.procs| ensures ParentOk(t, c) {
      assert ParentOk(s, c);
    }
  }

  /** Where the process manager can be while it is blocked in a send of its own. */
  predicate CanSend(mm: Pc) {
    mm == Serve || mm.ReplyTo? || mm.Reap?
  }

  /** Server `sv` owes `d` one answer more than its state shows. */
  ghost predicate OwesOneMore(s: Sys, sv: nat, d: nat, sysDebts: set<int>, mmDebts: set<int>)
    requires SysShaped(s)
  {
    && IsServer(sv) && INIT <= d < |s.k.procs| && d !in Debts(s, sv)
    && sysDebts == Debts(s, TASK_SYS) + (if sv == TASK_SYS then {d} else {})
    && mmDebts == Debts(s, TASK_MM) + (if sv == TASK_MM then {d} else {})
    && Owing(s, sysDebts, mmDebts) && s.k.procs[sv].flags == READY && CanSend(s.pc[sv])
  }

  /** Everybody but `d` after the answer to `d`. */
  lemma OthersOwed(s: Sys, t: Sys, sv: nat, d: nat, sysDebts: set<int>, mmDebts: set<int>)
    requires SysShaped(s) && SysShaped(t) && OwesOneMore(s, sv, d, sysDebts, mmDebts)
    requires OnlyTouches(s, t, sv, d) && t.pc == s.pc
    requires forall x: int :: x != d ==> (x in Debts(t, sv) <==> x in Debts(s, sv))
    ensures forall c: nat :: INIT <= c < |s.k.procs| && c != d ==>
              ClientOk(t, c, Debts(t, TASK_SYS), Debts(t, TASK_MM))
    ensures forall c: nat :: c < |s.k.procs| ==> ParentOk(t, c)
    ensures Debts(t, Other(sv)) == Debts(s, Other(sv))
  {
    forall c: nat | INIT <= c < |s.k.procs| && c != d
      ensures ClientOk(t, c, Debts(t, TASK_SYS), Debts(t, TASK_MM))
    {
      assert ClientOk(s, c, sysDebts, mmDebts);
      ClientStill(s, t, c, sysDebts, mmDebts, Debts(t, TASK_SYS), Debts(t, TASK_MM));
    }
    forall c: nat | c < |s.k.procs| ensures ParentOk(t, c) {
      assert ParentOk(s, c);
    }
  }

  /** An answer that reaches the waiting client. */
  lemma AnsweredNow(s: Sys, t: Sys, sv: nat, d: nat, sysDebts: set<int>, mmDebts: set<int>)
    requires SysShaped(s) && SysShaped(t) && OwesOneMore(s, sv, d, sysDebts, mmDebts)
    requires OnlyTouches(s, t, sv, d) && t.pc == s.pc && t.k.procs[sv] == s.k.procs[sv]
    requires Load(t.k.mem[sv], BUFFER).pid == Load(s.k.mem[sv], BUFFER).pid
    requires s.k.procs[d].flags.receiving && t.k.procs[d] == AfterReceiving(|s.k.procs|, s.k.procs[d])
    ensures Protocol(t)
  {
    assert Debts(t, sv) == Debts(s, sv);
    OthersOwed(s, t, sv, d, sysDebts, mmDebts);
    ManagerStill(s, t, sv, d);
    assert ClientOk(s, d, sysDebts, mmDebts);
    assert ClientOk(t, d, Debts(t, TASK_SYS), Debts(t, TASK_MM));
  }

  /** An answer that has to wait for its client. */
  lemma AnsweredLater(s: Sys, t: Sys, sv: nat, d: nat, m: Ptr, sysDebts: set<int>, mmDebts: set<int>)
    requires SysShaped(s) && SysShaped(t) && OwesOneMore(s, sv, d, sysDebts, mmDebts)
    requires OnlyTouches(s, t, sv, sv) && t.pc == s.pc
    requires t.k.procs[sv] == s.k.procs[sv].(flags := SENDING, sendTo := d, msg := m)
    requires Load(t.k.mem[sv], BUFFER).pid == Load(s.k.mem[sv], BUFFER).pid
    requires s.pc[sv].ReplyTo? ==> Load(s.k.mem[sv], BUFFER).pid == d
    ensures Protocol(t)
  {
    assert Debts(t, sv) == Debts(s, sv) + {d as int};
    OthersOwed(s, t, sv, d, sysDebts, mmDebts);
    assert ClientOk(s, d, sysDebts, mmDebts);
    ClientStill(s, t, d, sysDebts, mmDebts, Debts(t, TASK_SYS), Debts(t, TASK_MM));
  }

  /** A server that sends a client its answer has paid that debt. */
  lemma ServerAnswers(s: Sys, sv: nat, d: nat, m: Ptr, sysDebts: set<int>, mmDebts: set<int>)
    requires SysShaped(s) && s.k.ready == sv && m != 0
    requires OwesOneMore(s, sv, d, sysDebts, mmDebts)
    requires s.pc[sv].ReplyTo? ==> Load(s.k.mem[sv], BUFFER).pid == d
    ensures Protocol(Called(s, Send(d, m)))
    ensures !s.k.procs[d].flags.sending && PhaseOf(s.k.procs[d], s.pc[d]) == Held(sv)
    ensures Accepts(s.k.procs, d, sv) ==> s.k.procs[d].flags == RECEIVING
  {
    var t := Called(s, Send(d, m));
    assert ClientOk(s, d, sysDebts, mmDebts);
    if Accepts(s.k.procs, d, sv) {
      AnsweredNow(s, t, sv, d, sysDebts, mmDebts);
    } else {
      AnsweredLater(s, t, sv, d, m, sysDebts, mmDebts);
    }
  }

  /** A request that reaches the waiting server. */
  lemma AskedNow(s: Sys, t: Sys, p: nat, sv: nat, m: Ptr)
    requires SysShaped(s) && SysShaped(t) && INIT <= p < |s.k.procs| && IsServer(sv) && OnlyTouches(s, t, sv, p)
    requires Protocol(s) && s.pc[p] == User && s.k.procs[p].flags == READY && m != 0
    requires s.k.procs[sv].flags.receiving
    requires t.k.procs[sv] == AfterReceiving(|s.k.procs|, s.k.procs[sv]) && t.k.procs[p] == s.k.procs[p]
    requires t.pc[sv] == s.pc[sv] && t.pc[p] == Asked(sv, m)
    requires Load(t.k.mem[sv], BUFFER).source == p
    requires GoodRequest(s.k.procs[p], sv, |s.k.procs|, Load(t.k.mem[sv], BUFFER))
    ensures Protocol(t)
  {
    assert ClientOk(s, p, Debts(s, TASK_SYS), Debts(s, TASK_MM));
    assert Debts(s, sv) == {} && Debts(t, sv) == {p as int};
    OthersKept(s, t, sv, p);
    if sv == TASK_SYS {
      ManagerStill(s, t, sv, p);
    }
    assert ClientOk(t, p, Debts(t, TASK_SYS), Debts(t, TASK_MM));
  }

  /** A request that queues behind others. */
  lemma AskedLater(s: Sys, t: Sys, p: nat, sv: nat, m: Ptr)
    requires SysShaped(s) && SysShaped(t) && INIT <= p < |s.k.procs| && IsServer(sv) && OnlyTouches(s, t, p, p)
    requires Protocol(s) && s.pc[p] == User && s.k.procs[p].flags == READY && m != 0
    requires t.k.procs[p] == s.k.procs[p].(flags := SENDING, sendTo := sv, msg := m)
    requires t.pc[p] == Asked(sv, m)
    requires Load(t.k.mem[p], m).source == p && GoodRequest(s.k.procs[p], sv, |s.k.procs|, Load(t.k.mem[p], m))
    ensures Protocol(t)
  {
    assert ClientOk(s, p, Debts(s, TASK_SYS), Debts(s, TASK_MM));
    OthersKept(s, t, sv, p);
    ManagerStill(s, t, p, p);
    assert ClientOk(t, p, Debts(t, TASK_SYS), Debts(t, TASK_MM));
  }

  /** A client's request either reaches the waiting server or queues behind it. */
  lemma ClientAsks(s: Sys, p: nat, sv: nat, m: Ptr)
    requires SysShaped(s) && s.k.ready == p && INIT <= p < |s.k.procs| && IsServer(sv)
    requires Protocol(s) && s.pc[p] == User && s.k.procs[p].flags == READY && m != 0
    requires GoodRequest(s.k.procs[p], sv, |s.k.procs|, Load(s.k.mem[p], m))
    ensures Protocol(Called(s.(pc := s.pc[p := Asked(sv, m)]), Send(sv, m)))
  {
    var t := Called(s.(pc := s.pc[p := Asked(sv, m)]), Send(sv, m));
    if Accepts(s.k.procs, sv, p) {
      AskedNow(s, t, p, sv, m);
    } else {
      AskedLater(s, t, p, sv, m);
    }
  }

  /** A client takes the answer its server is blocked with. */
  lemma AwaitedNow(s: Sys, t: Sys, p: nat, sv: nat)
    requires SysShaped(s) && SysShaped(t) && INIT <= p < |s.k.procs| && IsServer(sv) && OnlyTouches(s, t, sv, p)
    requires Protocol(s) && s.pc[p].Asked? && s.pc[p].server == sv && s.k.procs[p].flags == READY
    requires Sends(s.k.procs, sv, p)
    requires t.k.procs[sv] == AfterSending(|s.k.procs|, s.k.procs[sv]) && t.k.procs[p] == s.k.procs[p]
    requires t.pc[sv] == s.pc[sv] && t.pc[p] == User && t.k.mem[sv] == s.k.mem[sv]
    ensures Protocol(t)
  {
    assert ClientOk(s, p, Debts(s, TASK_SYS), Debts(s, TASK_MM));
    assert Debts(t, sv) == Debts(s, sv) - {p as int};
    OthersKept(s, t, sv, p);
    assert ClientOk(t, p, Debts(t, TASK_SYS), Debts(t, TASK_MM));
  }

  /** A client whose answer is not there yet waits for it. */
  lemma AwaitedLater(s: Sys, t: Sys, p: nat, sv: nat)
    requires SysShaped(s) && SysShaped(t) && INIT <= p < |s.k.procs| && IsServer(sv) && OnlyTouches(s, t, p, p)
    requires Protocol(s) && s.pc[p].Asked? && s.pc[p].server == sv && s.k.procs[p].flags == READY
    requires t.k.procs[p].flags == RECEIVING && t.k.procs[p].recvFrom == sv
    requires t.pc[p] == User
    ensures Protocol(t)
  {
    assert ClientOk(s, p, Debts(s, TASK_SYS), Debts(s, TASK_MM));
    OthersKept(s, t, sv, p);
    ManagerStill(s, t, p, p);
    assert ClientOk(t, p, Debts(t, TASK_SYS), Debts(t, TASK_MM));
  }

  /** A client that receives takes the server's answer or waits for it. */
  lemma ClientAwaits(s: Sys, p: nat, sv: nat, m: Ptr)
    requires SysShaped(s) && s.k.ready == p && INIT <= p < |s.k.procs|
    requires Protocol(s) && s.pc[p] == Asked(sv, m) && s.k.procs[p].flags == READY
    ensures IsServer(sv) && m != 0
    ensures Protocol(Called(s.(pc := s.pc[p := User]), Receive(sv, m)))
  {
    var t := Called(s.(pc := s.pc[p := User]), Receive(sv, m));
    assert ClientOk(s, p, Debts(s, TASK_SYS), Debts(s, TASK_MM));
    if Sends(s.k.procs, sv, p) {
      AwaitedNow(s, t, p, sv);
    } else {
      AwaitedLater(s, t, p, sv);
    }
  }

  /** Only clients are ever blocked in a send to a server. */
  lemma SendersAreClients(s: Sys, f: nat, sv: nat)
    requires SysShaped(s) && Protocol(s) && Sends(s.k.procs, f, sv) && IsServer(sv)
    ensures INIT <= f && s.pc[f] == Asked(sv, s.k.procs[f].msg) && s.k.procs[f].msg != 0
    ensures s.k.procs[f].flags == SENDING && PhaseOf(s.k.procs[f], s.pc[f]) == Queued(sv)
    ensures var m := Load(s.k.mem[f], s.k.procs[f].msg);
            m.source == f && GoodRequest(s.k.procs[f], sv, |s.k.procs|, m)
  {
    if f >= INIT {
      assert ClientOk(s, f, Debts(s, TASK_SYS), Debts(s, TASK_MM));
    }
  }

  /** A server that listens takes the oldest request. */
  lemma HeardNow(s: Sys, t: Sys, sv: nat, f: nat)
    requires SysShaped(s) && SysShaped(t) && IsServer(sv) && f < |s.k.procs| && OnlyTouches(s, t, sv, f)
    requires Protocol(s) && s.pc[sv] == Serve && s.k.procs[sv].flags == READY && Sends(s.k.procs, f, sv)
    requires t.k.procs[sv] == s.k.procs[sv] && t.k.procs[f] == AfterSending(|s.k.procs|, s.k.procs[f])
    requires t.pc[sv] == Handle && t.pc[f] == s.pc[f]
    requires Load(t.k.mem[sv], BUFFER) == Load(s.k.mem[f], s.k.procs[f].msg)
    ensures Protocol(t)
  {
    SendersAreClients(s, f, sv);
    assert ClientOk(s, f, Debts(s, TASK_SYS), Debts(s, TASK_MM));
    assert Debts(s, sv) == {} && Debts(t, sv) == {f as int};
    OthersKept(s, t, sv, f);
    assert ClientOk(t, f, Debts(t, TASK_SYS), Debts(t, TASK_MM));
  }

  /** A server that listens and finds nobody waits. */
  lemma HeardLater(s: Sys, t: Sys, sv: nat)
    requires SysShaped(s) && SysShaped(t) && IsServer(sv) && OnlyTouches(s, t, sv, INIT)
    requires Protocol(s) && s.pc[sv] == Serve && s.k.procs[sv].flags == READY
    requires t.k.procs[sv] == s.k.procs[sv].(flags := RECEIVING, msg := BUFFER, recvFrom := Any(|s.k.procs|))
    requires t.k.procs[INIT] == s.k.procs[INIT] && t.pc[INIT] == s.pc[INIT] && t.k.mem[INIT] == s.k.mem[INIT]
    requires t.pc[sv] == Handle
    ensures Protocol(t)
  {
    assert ClientOk(s, INIT, Debts(s, TASK_SYS), Debts(s, TASK_MM));
    assert Debts(s, sv) == {} && Debts(t, sv) == {};
    OthersKept(s, t, sv, INIT);
    assert ClientOk(t, INIT, Debts(t, TASK_SYS), Debts(t, TASK_MM));
  }

  lemma ServerListens(s: Sys, sv: nat)
    requires SysShaped(s) && s.k.ready == sv && IsServer(sv)
    requires Protocol(s) && s.pc[sv] == Serve && s.k.procs[sv].flags == READY
    requires |s.k.queues[sv]| > 0 ==> Sends(s.k.procs, s.k.queues[sv][0], sv)
    ensures Protocol(Called(s.(pc := s.pc[sv := Handle]), Receive(Any(|s.k.procs|), BUFFER)))
  {
    var t := Called(s.(pc := s.pc[sv := Handle]), Receive(Any(|s.k.procs|), BUFFER));
    if |s.k.queues[sv]| > 0 {
      SendersAreClients(s, s.k.queues[sv][0], sv);
      HeardNow(s, t, sv, s.k.queues[sv][0]);
    } else {
      HeardLater(s, t, sv);
    }
  }

  // ---- Third parties

  /** A call leaves a third process alone that waits for nobody, unless it takes
      the message that process is blocked with; and that leaves its memory alone. */
  lemma CallSpares(k: State, call: Call, sv: nat)
    requires Inv(k) && sv < |k.procs| && sv != k.ready && !k.procs[sv].flags.receiving
    requires call.Send? ==> call.dest < |k.procs|
    ensures Perform(k, call).mem[sv] == k.mem[sv]
    ensures (call.Receive? ==> !Sends(k.procs, sv, k.ready) || (call.src != sv && call.src != Any(|k.procs|))) ==>
              Perform(k, call).procs[sv] == k.procs[sv]
  {
    if call.Receive? && |k.queues[k.ready]| > 0 {
      assert k.queues[k.ready][0] in k.queues[k.ready];
    }
  }

  /** Up to its call, a step of anybody but the process manager writes into its own memory only. */
  lemma PrepareKeepsTable(s: Sys, a: Action)
    requires SysShaped(s) && Inv(s.k) && Can(s, a) && !a.Manage? && !a.Resume? && a != Clock
    ensures var pr := Prepare(Intended, s, a);
            && Inv(pr.k) && pr.k.procs == s.k.procs && pr.k.queues == s.k.queues && pr.k.ready == s.k.ready
            && forall x: nat :: x < |s.k.procs| && x != s.k.ready ==> pr.k.mem[x] == s.k.mem[x] && pr.pc[x] == s.pc[x]
  {
  }
}
