/** Whole runs with their logs: which message each request, answer, report and
    birth of the story is. */
module SystemReports {
  import opened IpcState
  import opened System
  import opened SystemInv
  import opened SystemCalls
  import opened SystemManager
  import opened SystemStory
  import opened SystemRuns
  import opened SystemTheorems
  import opened SystemDelivery
  import D = Delivery

  // ---- The log entry of every send in the story

  predicate PacketOf(p: D.Packet, e: Event)
    requires IsSend(e)
  {
    if e.Answered? then p.src == e.server && p.dst == e.pid else p.src == e.pid && p.dst == e.server
  }

  function Last(story: seq<Event>): Event
    requires story != []
  {
    story[|story| - 1]
  }

  /** The sends of the story are the messages of the log, in order; a report is
      followed by the answer to the parent, and that message carries it. */
  ghost predicate Ledger(sent: seq<D.Packet>, story: seq<Event>)
    decreases |story|
  {
    if story == [] then sent == []
    else
      var e, before := Last(story), story[..|story| - 1];
      if !IsSend(e) then !e.Reported? && Ledger(sent, before)
      else
        && sent != [] && PacketOf(sent[|sent| - 1], e)
        && if before != [] && Last(before).Reported?
           then Carries(sent[|sent| - 1], Last(before), e) && Ledger(sent[..|sent| - 1], before[..|before| - 1])
           else Ledger(sent[..|sent| - 1], before)
  }

  /** The answer `e` to the parent of `r`'s process is the report `r`. */
  predicate Carries(p: D.Packet, r: Event, e: Event)
    requires r.Reported?
  {
    e == Answered(r.to, TASK_MM) && p == D.Packet(TASK_MM, r.to, Message(TASK_MM, SYSCALL_RET, r.status, r.pid))
  }

  lemma QuietKeepsLedger(sent: seq<D.Packet>, story: seq<Event>, e: Event)
    requires Ledger(sent, story) && !IsSend(e) && !e.Reported?
    ensures Ledger(sent, story + [e])
  {
    assert (story + [e])[..|story|] == story;
  }

  lemma SendKeepsLedger(sent: seq<D.Packet>, story: seq<Event>, e: Event, p: D.Packet)
    requires Ledger(sent, story) && IsSend(e) && PacketOf(p, e)
    ensures Ledger(sent + [p], story + [e])
  {
    assert (story + [e])[..|story|] == story && (sent + [p])[..|sent|] == sent;
  }

  lemma ReportKeepsLedger(sent: seq<D.Packet>, story: seq<Event>, r: Event, e: Event, p: D.Packet)
    requires Ledger(sent, story) && r.Reported? && Carries(p, r, e)
    ensures Ledger(sent + [p], story + [r] + [e])
  {
    assert (story + [r] + [e])[..|story| + 1] == story + [r] && (story + [r])[..|story|] == story;
    assert (sent + [p])[..|sent|] == sent;
  }

  /** The log entry of the message a call sends. */
  function PacketSent(pr: Prepared): D.Packet
    requires Shaped(pr.k) && pr.call.Send?
  {
    var p := pr.k.ready;
    D.Packet(p, pr.call.dest, Load(pr.k.mem[p], pr.call.m).(source := p))
  }

  lemma LogOfCall(l: D.Logged, pr: Prepared)
    requires Shaped(l.k) && Shaped(pr.k) && D.Sized(l) && |l.k.procs| == |pr.k.procs|
    requires pr.call.Send? ==> pr.call.dest < |pr.k.procs|
    ensures LogAfter(l, pr).sent == l.sent + if pr.call.Send? then [PacketSent(pr)] else []
  {
  }

  lemma SendIsTold(sent: seq<D.Packet>, story: seq<Event>, pr: Prepared)
    requires Shaped(pr.k) && pr.call.Send? && Ledger(sent, story) && TellsCall(story, pr)
    ensures Ledger(sent + [PacketSent(pr)], pr.story) && story <= pr.story
  {
    if e: Event :| IsCallEvent(pr, e) && pr.story == story + [e] {
      SendKeepsLedger(sent, story, e, PacketSent(pr));
    } else {
      var r: Event, e: Event :| ReportsIn(story, pr, r, e);
      ReportKeepsLedger(sent, story, r, e, PacketSent(pr));
    }
  }

  lemma QuietIsTold(sent: seq<D.Packet>, story: seq<Event>, pr: Prepared)
    requires !pr.call.Send? && Ledger(sent, story) && TellsCall(story, pr)
    ensures Ledger(sent, pr.story) && story <= pr.story
  {
    if pr.story != story {
      var e: Event :| !IsSend(e) && !e.Reported? && pr.story == story + [e];
      QuietKeepsLedger(sent, story, e);
    }
  }

  lemma CallKeepsLedger(l: D.Logged, story: seq<Event>, pr: Prepared)
    requires Shaped(l.k) && Shaped(pr.k) && D.Sized(l) && |l.k.procs| == |pr.k.procs|
    requires pr.call.Send? ==> pr.call.dest < |pr.k.procs|
    requires Ledger(l.sent, story) && TellsCall(story, pr)
    ensures Ledger(LogAfter(l, pr).sent, pr.story) && l.sent <= LogAfter(l, pr).sent && story <= pr.story
  {
    LogOfCall(l, pr);
    if pr.call.Send? {
      SendIsTold(l.sent, story, pr);
    } else {
      QuietIsTold(l.sent, story, pr);
    }
  }

  // ---- What the ledger says

  /** How many sends the story tells. */
  function SendsIn(story: seq<Event>): nat {
    if story == [] then 0 else SendsIn(story[..|story| - 1]) + if IsSend(Last(story)) then 1 else 0
  }

  lemma {:induction false} LedgerCounts(sent: seq<D.Packet>, story: seq<Event>)
    requires Ledger(sent, story)
    ensures |sent| == SendsIn(story)
    decreases |story|
  {
    if story != [] {
      var e, before := Last(story), story[..|story| - 1];
      if IsSend(e) && before != [] && Last(before).Reported? {
        LedgerCounts(sent[..|sent| - 1], before[..|before| - 1]);
      } else {
        LedgerCounts(if IsSend(e) then sent[..|sent| - 1] else sent, before);
      }
    }
  }

  /** The send at place `i` of the story is the message numbered by the sends before it. */
  lemma {:induction false} SendIsLogged(sent: seq<D.Packet>, story: seq<Event>, i: nat)
    requires Ledger(sent, story) && i < |story| && IsSend(story[i])
    ensures SendsIn(story[..i]) < |sent| && PacketOf(sent[SendsIn(story[..i])], story[i])
    decreases |story|
  {
    LedgerCounts(sent, story);
    var e, before := Last(story), story[..|story| - 1];
    if i == |story| - 1 {
      assert story[..i] == before;
    } else if IsSend(e) && before != [] && Last(before).Reported? {
      var earlier := before[..|before| - 1];
      assert i < |earlier| && earlier[..i] == story[..i];
      SendIsLogged(sent[..|sent| - 1], earlier, i);
    } else {
      assert before[..i] == story[..i];
      SendIsLogged(if IsSend(e) then sent[..|sent| - 1] else sent, before, i);
    }
  }

  /** The report at place `i` of the story is the message numbered by the sends before it. */
  lemma {:induction false} ReportIsLogged(sent: seq<D.Packet>, story: seq<Event>, i: nat)
    requires Ledger(sent, story) && i < |story| && story[i].Reported?
    ensures i + 1 < |story| && SendsIn(story[..i]) < |sent|
    ensures Carries(sent[SendsIn(story[..i])], story[i], story[i + 1])
    decreases |story|
  {
    LedgerCounts(sent, story);
    var e, before := Last(story), story[..|story| - 1];
    if IsSend(e) && before != [] && Last(before).Reported? {
      var earlier := before[..|before| - 1];
      if i == |earlier| {
        assert story[..i] == earlier;
        LedgerCounts(sent[..|sent| - 1], earlier);
      } else {
        assert i < |earlier| && earlier[..i] == story[..i];
        ReportIsLogged(sent[..|sent| - 1], earlier, i);
      }
    } else {
      assert before[..i] == story[..i];
      ReportIsLogged(if IsSend(e) then sent[..|sent| - 1] else sent, before, i);
    }
  }

  function Occurs(story: seq<Event>, e: Event): nat {
    if story == [] then 0 else Occurs(story[..|story| - 1], e) + if Last(story) == e then 1 else 0
  }

  /** How many messages `from` has sent to `to`. */
  function Packets(sent: seq<D.Packet>, from: nat, to: nat): nat {
    if sent == [] then 0
    else Packets(sent[..|sent| - 1], from, to)
         + if sent[|sent| - 1].src == from && sent[|sent| - 1].dst == to then 1 else 0
  }

  /** Every event is a client's, and every send is from a client to a server or back. */
  predicate Paired(n: nat, story: seq<Event>) {
    forall i :: 0 <= i < |story| ==> INIT <= story[i].pid < n && (IsSend(story[i]) ==> IsServer(story[i].server))
  }

  /** Log and story agree on how many requests a client has sent to a server and
      how many answers it was sent. */
  lemma {:induction false} CountsAgree(n: nat, sent: seq<D.Packet>, story: seq<Event>, sv: nat, c: nat)
    requires Ledger(sent, story) && Paired(n, story) && IsServer(sv) && c >= INIT
    ensures Packets(sent, sv, c) == Occurs(story, Answered(c, sv))
    ensures Packets(sent, c, sv) == Occurs(story, Requested(c, sv))
    decreases |story|
  {
    if story != [] {
      var e, before := Last(story), story[..|story| - 1];
      assert e == story[|story| - 1] && Paired(n, before);
      if !IsSend(e) {
        CountsAgree(n, sent, before, sv, c);
      } else if before != [] && Last(before).Reported? {
        var earlier := before[..|before| - 1];
        assert Occurs(before, Answered(c, sv)) == Occurs(earlier, Answered(c, sv));
        assert Occurs(before, Requested(c, sv)) == Occurs(earlier, Requested(c, sv));
        assert Paired(n, earlier);
        CountsAgree(n, sent[..|sent| - 1], earlier, sv, c);
      } else {
        CountsAgree(n, sent[..|sent| - 1], before, sv, c);
      }
    }
  }

  // ---- Births

  /** The first answer of the process manager to `c` behind place `i`. */
  ghost predicate FirstAnswer(story: seq<Event>, i: nat, j: nat, c: nat) {
    && i < j < |story| && story[j] == Answered(c, TASK_MM)
    && forall m: nat :: i < m < j ==> story[m] != Answered(c, TASK_MM)
  }

  ghost predicate Unanswered(story: seq<Event>, i: nat, c: nat) {
    forall m: nat :: i < m < |story| ==> story[m] != Answered(c, TASK_MM)
  }

  /** A fork has two answers: the child's number for the parent, and 0 for the child. */
  datatype Kin = Parent | Child

  function Addressee(e: Event, kin: Kin): nat
    requires e.Born?
  {
    if kin == Parent then e.parent else e.pid
  }

  function Number(e: Event, kin: Kin): int
    requires e.Born?
  {
    if kin == Parent then e.pid else 0
  }

  /** The process manager still has that answer to give. */
  predicate Making(s: Sys, e: Event, kin: Kin)
    requires SysShaped(s) && e.Born?
  {
    || s.pc[TASK_MM] == Copying(e.pid, e.parent) || s.pc[TASK_MM] == Start(e.pid, e.parent)
    || (kin == Parent && s.pc[TASK_MM] == ReplyTo(e.parent) && Load(s.k.mem[TASK_MM], BUFFER).pid == e.pid)
  }

  /** The first answer to `to` behind place `i` is at place `j`, and gives it `number`. */
  ghost predicate AnsweredWith(story: seq<Event>, sent: seq<D.Packet>, i: nat, j: nat, to: nat, number: int) {
    && FirstAnswer(story, i, j, to) && SendsIn(story[..j]) < |sent|
    && sent[SendsIn(story[..j])] == D.Packet(TASK_MM, to, Message(TASK_MM, SYSCALL_RET, 0, number))
  }

  /** The first answer parent or child get behind a birth is the one of the fork;
      until then the process manager is at it. */
  ghost predicate BirthOk(s: Sys, sent: seq<D.Packet>, i: nat, kin: Kin)
    requires SysShaped(s) && i < |s.story| && s.story[i].Born?
  {
    var to := Addressee(s.story[i], kin);
    || (exists j: nat :: AnsweredWith(s.story, sent, i, j, to, Number(s.story[i], kin)))
    || (Making(s, s.story[i], kin) && Unanswered(s.story, i, to))
  }

  ghost predicate BirthsOk(s: Sys, sent: seq<D.Packet>)
    requires SysShaped(s)
  {
    forall i: nat, kin: Kin {:trigger BirthOk(s, sent, i, kin)} ::
      i < |s.story| && s.story[i].Born? ==> BirthOk(s, sent, i, kin)
  }

  /** While the manager is at a fork nobody else writes into its buffer. */
  lemma BufferStays(s: Sys, a: Action)
    requires Good(s) && Can(s, a) && UnderWay(s.pc[TASK_MM]) && !a.Resume?
    ensures var t := Finish(Prepare(Intended, s, a));
            t.pc[TASK_MM] == s.pc[TASK_MM] && Load(t.k.mem[TASK_MM], BUFFER) == Load(s.k.mem[TASK_MM], BUFFER)
  {
    if a != Clock {
      assert ServerOk(s, TASK_MM) && s.k.ready != TASK_MM;
      var pr := Prepare(Intended, s, a);
      PrepareKeepsTable(s, a);
      CallSpares(pr.k, pr.call, TASK_MM);
    }
  }

  /** What a step other than the manager's adds to the story is no answer of the manager. */
  lemma OthersDoNotAnswer(s: Sys, a: Action, c: nat)
    requires Good(s) && Can(s, a) && UnderWay(s.pc[TASK_MM]) && !a.Resume?
    ensures var story := Prepare(Intended, s, a).story;
            s.story <= story && forall m: nat :: |s.story| <= m < |story| ==> story[m] != Answered(c, TASK_MM)
  {
  }

  lemma AnsweredStays(story: seq<Event>, story': seq<Event>, sent: seq<D.Packet>, sent': seq<D.Packet>,
                      i: nat, j: nat, to: nat, number: int)
    requires story <= story' && sent <= sent' && AnsweredWith(story, sent, i, j, to, number)
    ensures AnsweredWith(story', sent', i, j, to, number)
  {
    assert story'[..j] == story[..j];
  }

  /** A birth that is known of, through a step of the system. */
  lemma StepKeepsBirth(s: Sys, a: Action, t: Sys, l: D.Logged, l': D.Logged, i: nat, kin: Kin)
    requires Good(s) && Can(s, a) && t == Finish(Prepare(Intended, s, a)) && SysShaped(t)
    requires D.Sized(l) && l.k == s.k && l' == LogAfter(l, Prepare(Intended, s, a)) && Ledger(l.sent, s.story)
    requires s.story <= t.story && l.sent <= l'.sent
    requires i < |s.story| && s.story[i].Born? && BirthOk(s, l.sent, i, kin)
    ensures BirthOk(t, l'.sent, i, kin)
  {
    var e := s.story[i];
    var to := Addressee(e, kin);
    if j: nat :| AnsweredWith(s.story, l.sent, i, j, to, Number(e, kin)) {
      AnsweredStays(s.story, t.story, l.sent, l'.sent, i, j, to, Number(e, kin));
    } else if a.Resume? {
      ResumeKeepsBirth(s, t, l, l', i, kin);
    } else {
      BufferStays(s, a);
      OthersDoNotAnswer(s, a, to);
    }
  }

  lemma ResumeKeepsBirth(s: Sys, t: Sys, l: D.Logged, l': D.Logged, i: nat, kin: Kin)
    requires Good(s) && Can(s, Resume) && t == Finish(Prepare(Intended, s, Resume)) && SysShaped(t)
    requires D.Sized(l) && l.k == s.k && l' == LogAfter(l, Prepare(Intended, s, Resume)) && Ledger(l.sent, s.story)
    requires i < |s.story| && s.story[i].Born? && Making(s, s.story[i], kin)
    requires Unanswered(s.story, i, Addressee(s.story[i], kin))
    ensures BirthOk(t, l'.sent, i, kin)
  {
    var e := s.story[i];
    if s.pc[TASK_MM].Copying? {
      assert Making(t, e, kin);
    } else if s.pc[TASK_MM].Start? && kin == Parent {
      ParentIsNotChild(s, e.pid, e.parent);
      assert Making(t, e, kin);
    } else {
      AnswerIsGiven(s, t, l, l', i, Addressee(e, kin), Number(e, kin));
    }
  }

  /** The step that gives the answer. */
  lemma AnswerIsGiven(s: Sys, t: Sys, l: D.Logged, l': D.Logged, i: nat, to: nat, number: int)
    requires Good(s) && Can(s, Resume) && t == Finish(Prepare(Intended, s, Resume)) && SysShaped(t)
    requires D.Sized(l) && l.k == s.k && l' == LogAfter(l, Prepare(Intended, s, Resume)) && Ledger(l.sent, s.story)
    requires i < |s.story| && Unanswered(s.story, i, to)
    requires (s.pc[TASK_MM].Start? && s.pc[TASK_MM].child == to && number == 0)
          || (s.pc[TASK_MM] == ReplyTo(to) && Load(s.k.mem[TASK_MM], BUFFER).pid == number)
    ensures AnsweredWith(t.story, l'.sent, i, |s.story|, to, number)
  {
    var pr := Prepare(Intended, s, Resume);
    LogOfCall(l, pr);
    LedgerCounts(l.sent, s.story);
    assert t.story == s.story + [Answered(to, TASK_MM)] && t.story[..|s.story|] == s.story;
    assert PacketSent(pr) == D.Packet(TASK_MM, to, Message(TASK_MM, SYSCALL_RET, 0, number));
  }

  lemma ParentIsNotChild(s: Sys, child: nat, parent: nat)
    requires Good(s) && AtWork(s) && s.pc[TASK_MM] == Start(child, parent)
    ensures child != parent && Load(s.k.mem[TASK_MM], BUFFER).pid == child
  {
  }

  predicate NoBirth(story: seq<Event>, from: nat) {
    forall i: nat :: from <= i < |story| ==> !story[i].Born?
  }

  lemma ManageBirth(s: Sys, r: int, image: Memory)
    requires AtWork(s) && s.pc[TASK_MM] == Handle
    ensures var pr := ManageRequest(Intended, s, r, image);
            || NoBirth(pr.story, |s.story|)
            || exists child: nat, parent: nat ::
                 && pr.story == s.story + [Born(child, parent)] && pr.call == NoCall
                 && pr.pc[TASK_MM] == Copying(child, parent)
  {
    var got, pr := Load(s.k.mem[TASK_MM], BUFFER), ManageRequest(Intended, s, r, image);
    ManageSettles(s, r, image);
    var d: nat := got.source;
    if got.kind == FORK && FirstFree(s.k.procs, 0) < |s.k.procs| {
      assert pr.story == s.story + [Born(FirstFree(s.k.procs, 0), d)];
      assert pr.pc[TASK_MM] == Copying(FirstFree(s.k.procs, 0), d);
    }
  }

  lemma RestHasNoBirth(s: Sys)
    requires AtWork(s) && UnderWay(s.pc[TASK_MM])
    ensures NoBirth(ManageRest(Intended, s).story, |s.story|)
  {
  }

  lemma OthersHaveNoBirth(s: Sys, a: Action)
    requires SysShaped(s) && Can(s, a) && !a.Manage? && !a.Resume?
    ensures NoBirth(Prepare(Intended, s, a).story, |s.story|)
  {
  }

  /** A birth is followed by the work on it. */
  lemma NewBirth(s: Sys, a: Action, i: nat)
    requires Good(s) && Can(s, a)
    requires var story := Prepare(Intended, s, a).story; |s.story| <= i < |story| && story[i].Born?
    ensures var t := Finish(Prepare(Intended, s, a));
            && i == |t.story| - 1 && SysShaped(t) && forall kin: Kin :: Making(t, t.story[i], kin)
  {
    match a
    case Manage(r, image) => ManageBirth(s, r, image);
    case Resume => RestHasNoBirth(s);
    case _ => OthersHaveNoBirth(s, a);
  }

  // ---- Runs and their logs

  ghost predicate Logs(s: Sys, a: Action, t: Sys, l: D.Logged, l': D.Logged)
    requires SysShaped(s) && Can(s, a)
  {
    var pr := Prepare(Intended, s, a);
    t == Finish(pr) && D.Sized(l) && l.k == s.k && l' == LogAfter(l, pr)
  }

  ghost predicate LoggedStep(s: Sys, t: Sys, l: D.Logged, l': D.Logged) {
    exists a: Action :: SysShaped(s) && Can(s, a) && Logs(s, a, t, l, l')
  }

  ghost predicate LoggedAt(run: seq<Sys>, logs: seq<D.Logged>, i: nat)
    requires i + 1 < |run| == |logs|
  {
    LoggedStep(run[i], run[i + 1], logs[i], logs[i + 1])
  }

  /** A run together with the log of its messages. */
  ghost predicate LoggedRun(run: seq<Sys>, logs: seq<D.Logged>) {
    && |logs| == |run| > 0 && Boots(run[0])
    && logs[0].k == run[0].k && logs[0].sent == [] && logs[0].got == [] && D.Sized(logs[0])
    && (forall i: nat {:trigger LoggedAt(run, logs, i)} :: i + 1 < |run| ==> LoggedAt(run, logs, i))
  }

  ghost predicate Logged(s: Sys, l: D.Logged) {
    && Good(s) && l.k == s.k && D.LogOk(l)
    && Ledger(l.sent, s.story) && Paired(|s.k.procs|, s.story) && BirthsOk(s, l.sent)
  }

  lemma BootIsLogged(s: Sys, l: D.Logged)
    requires Boots(s) && l.k == s.k && l.sent == [] && l.got == [] && D.Sized(l)
    ensures Logged(s, l)
  {
    BootIsGood(s);
  }

  /** The events a step of the process manager adds are those of clients. */
  lemma ManageIsPaired(s: Sys, r: int, image: Memory)
    requires AtWork(s) && s.pc[TASK_MM] == Handle && Paired(|s.k.procs|, s.story)
    ensures Paired(|s.k.procs|, ManageRequest(Intended, s, r, image).story)
  {
    HeldIsGood(s);
    FreeIsForked(s);
    RequestIsPaired(s, r, image, Load(s.k.mem[TASK_MM], BUFFER).source);
  }

  lemma RequestIsPaired(s: Sys, r: int, image: Memory, d: nat)
    requires SysShaped(s) && FirstFree(s.k.procs, 0) >= FIRST_FORKED && Paired(|s.k.procs|, s.story)
    requires INIT <= d < |s.k.procs| && Load(s.k.mem[TASK_MM], BUFFER).source == d
    ensures Paired(|s.k.procs|, ManageRequest(Intended, s, r, image).story)
  {
    var got, pr := Load(s.k.mem[TASK_MM], BUFFER), ManageRequest(Intended, s, r, image);
    if pr.call.Send? {
      assert pr.story == s.story + [Answered(d, TASK_MM)];
    } else if got.kind == FORK {
      assert pr.story == s.story + [Born(FirstFree(s.k.procs, 0), d)];
    } else if got.kind == EXIT && 0 <= s.k.procs[d].parent < |s.k.procs| {
      assert pr.story == s.story + [Exited(d, got.retval)];
    }
  }

  lemma RestIsPaired(s: Sys)
    requires AtWork(s) && UnderWay(s.pc[TASK_MM]) && Paired(|s.k.procs|, s.story)
    ensures Paired(|s.k.procs|, ManageRest(Intended, s).story)
  {
    RestSettles(s);
    match s.pc[TASK_MM]
    case Scan(exiting, i) => assert i < |s.k.procs| ==> ParentOk(s, i);
    case _ =>
  }

  lemma StepIsPaired(s: Sys, a: Action)
    requires Good(s) && Can(s, a) && Paired(|s.k.procs|, s.story)
    ensures Paired(|s.k.procs|, Prepare(Intended, s, a).story)
  {
    match a
    case Manage(r, image) => ManageIsPaired(s, r, image);
    case Resume => RestIsPaired(s);
    case _ =>
  }

  lemma StepKeepsBirths(s: Sys, a: Action, t: Sys, l: D.Logged, l': D.Logged)
    requires Good(s) && Can(s, a) && t == Finish(Prepare(Intended, s, a)) && SysShaped(t)
    requires D.Sized(l) && l.k == s.k && l' == LogAfter(l, Prepare(Intended, s, a)) && Ledger(l.sent, s.story)
    requires s.story <= t.story && l.sent <= l'.sent && BirthsOk(s, l.sent)
    ensures BirthsOk(t, l'.sent)
  {
    forall i: nat, kin: Kin | i < |t.story| && t.story[i].Born? ensures BirthOk(t, l'.sent, i, kin) {
      if i < |s.story| {
        assert BirthOk(s, l.sent, i, kin);
        StepKeepsBirth(s, a, t, l, l', i, kin);
      } else {
        NewBirth(s, a, i);
      }
    }
  }

  lemma StepIsLogged(s: Sys, t: Sys, l: D.Logged, l': D.Logged)
    requires Logged(s, l) && LoggedStep(s, t, l, l')
    ensures Logged(t, l')
  {
    var a: Action :| Can(s, a) && Logs(s, a, t, l, l');
    StepKeepsGood(s, a);
    StepKeepsLog(l, s, a);
    PrepareTellsCall(s, a);
    CallKeepsLedger(l, s.story, Prepare(Intended, s, a));
    StepIsPaired(s, a);
    StepKeepsBirths(s, a, t, l, l');
  }

  /** In every state of every run the log is in order, and the story's sends,
      reports and births are what its messages say. */
  lemma {:induction false} RunKeepsLog(run: seq<Sys>, logs: seq<D.Logged>, i: nat)
    requires LoggedRun(run, logs) && i < |run|
    ensures Logged(run[i], logs[i])
  {
    if i == 0 {
      BootIsLogged(run[0], logs[0]);
    } else {
      RunKeepsLog(run, logs, i - 1);
      assert LoggedAt(run, logs, i - 1);
      StepIsLogged(run[i - 1], run[i], logs[i - 1], logs[i]);
    }
  }

  // ---- What a run's messages say

  predicate IsBirth(e: Event, pid: nat) { e.Born? && e.pid == pid }

  /** A server answers a client at most once for each request, where a child
      starts with its parent's request to the process manager. */
  lemma {:induction false} AnswersAreAsked(n: nat, story: seq<Event>, c: nat, sv: nat)
    requires StageOf(n, story, c).mode != Bad
    ensures Occurs(story, Answered(c, sv)) + (if StageOf(n, story, c).mode == Asking(sv) then 1 else 0)
         <= Occurs(story, Requested(c, sv)) + if sv == TASK_MM then Count(story, c, IsBirth) else 0
    decreases |story|
  {
    if story != [] {
      AnswersAreAsked(n, story[..|story| - 1], c, sv);
    }
  }

  lemma {:induction false} SendsGrow(story: seq<Event>, a: nat, b: nat)
    requires a < b <= |story| && IsSend(story[a])
    ensures SendsIn(story[..a]) < SendsIn(story[..b])
  {
    assert story[..b][..b - 1] == story[..b - 1];
    if a < b - 1 {
      SendsGrow(story, a, b - 1);
    }
  }

  lemma LoggedRunIsRun(run: seq<Sys>, logs: seq<D.Logged>)
    requires LoggedRun(run, logs)
    ensures Run(run)
  {
    forall i: nat | i + 1 < |run| ensures Steps(run, i) {
      assert LoggedAt(run, logs, i);
    }
  }

  /** Every reply a server sends to a client has a request of that client to that
      server to pay for, and it arrives at most once, at that client, with the
      content and the source it was sent with. */
  lemma RepliesAreDelivered(run: seq<Sys>, logs: seq<D.Logged>, i: nat, c: nat, sv: nat)
    requires LoggedRun(run, logs) && i < |run| && SysShaped(run[i]) && INIT <= c < |run[i].k.procs| && IsServer(sv)
    ensures Packets(logs[i].sent, sv, c)
         <= Packets(logs[i].sent, c, sv) + if sv == TASK_MM then Count(run[i].story, c, IsBirth) else 0
    ensures D.ArrivesOnce(logs[i]) && D.NothingLost(logs[i]) && D.Authentic(logs[i])
  {
    LoggedRunIsRun(run, logs);
    RunKeepsLog(run, logs, i);
    var story := run[i].story;
    assert story[..|story|] == story;
    StoriesAreLegal(run, i, |story|, c);
    AnswersAreAsked(|run[i].k.procs|, story, c, sv);
    CountsAgree(|run[i].k.procs|, logs[i].sent, story, sv, c);
  }

  /** Every report of the story is one message: it goes to the parent the child
      has then, and carries the child's own number and the status it ended with.
      Different reports are different messages. */
  lemma ReportsAreMessages(run: seq<Sys>, logs: seq<D.Logged>, i: nat, j: nat)
    requires LoggedRun(run, logs) && i < |run| && SysShaped(run[i]) && j < |run[i].story| && run[i].story[j].Reported?
    ensures var story, sent, r := run[i].story, logs[i].sent, run[i].story[j];
            && r.pid < |run[i].k.procs|
            && StageOf(|run[i].k.procs|, story[..j], r.pid) == Stage(Ended(r.status), r.to)
            && SendsIn(story[..j]) < |sent|
            && sent[SendsIn(story[..j])] == D.Packet(TASK_MM, r.to, Message(TASK_MM, SYSCALL_RET, r.status, r.pid))
    ensures forall k: nat :: j < k < |run[i].story| && run[i].story[k].Reported? ==>
              SendsIn(run[i].story[..j]) < SendsIn(run[i].story[..k])
  {
    LoggedRunIsRun(run, logs);
    RunKeepsLog(run, logs, i);
    var story, r := run[i].story, run[i].story[j];
    ReportIsLogged(logs[i].sent, story, j);
    StageAfter(|run[i].k.procs|, story[..j], r, r.pid);
    assert story[..j + 1] == story[..j] + [r];
    StoriesAreLegal(run, i, j + 1, r.pid);
    forall k: nat | j < k < |story| && story[k].Reported? ensures SendsIn(story[..j]) < SendsIn(story[..k]) {
      assert k != j + 1 && story[..j + 1][..j] == story[..j];
      SendsGrow(story, j + 1, k);
    }
  }

  /** The first answer a parent gets from the process manager behind the birth of
      a child carries the child's number, and the first one the child gets carries
      0, once they are given; until then the process manager is at it. */
  lemma BirthsAreAnswered(run: seq<Sys>, logs: seq<D.Logged>, i: nat, j: nat)
    requires LoggedRun(run, logs) && i < |run| && SysShaped(run[i]) && j < |run[i].story| && run[i].story[j].Born?
    ensures BirthOk(run[i], logs[i].sent, j, Parent) && BirthOk(run[i], logs[i].sent, j, Child)
  {
    RunKeepsLog(run, logs, i);
  }
}
