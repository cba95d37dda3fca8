/** What holds between clients and servers in every reachable state. */
module SystemInv {
  import opened IpcState
  import opened IpcSteps
  import opened System

  /** What a client is doing, as its slot and its program counter tell. */
  datatype Phase =
    | Vacant              // the slot is free
    | Running             // no request under way
    | Queued(server: nat) // blocked in the SEND of a request
    | Held(server: nat)   // the request is with the server, the reply is still to come
    | Broken

  function PhaseOf(pr: Proc, pc: Pc): Phase {
    if pr.flags.free then Vacant
    else match pc
      case User =>
        if pr.flags.receiving then
          if !pr.flags.sending && pr.recvFrom == TASK_SYS then Held(TASK_SYS)
          else if !pr.flags.sending && pr.recvFrom == TASK_MM then Held(TASK_MM)
          else Broken
        else if pr.flags == READY then Running else Broken
      case Asked(sv, m) =>
        if (sv != TASK_SYS && sv != TASK_MM) || m == 0 || pr.flags.receiving then Broken
        else if pr.flags.sending then
          if pr.flags == SENDING && pr.sendTo == sv && pr.msg == m then Queued(sv) else Broken
        else Held(sv)
      case _ => Broken
  }

  /** The process manager is about to report or to free `c`. */
  predicate EndsAt(mm: Pc, c: int) {
    (mm.Tell? || mm.Reap?) && mm.child == c
  }

  /** The clients a server still has to answer, apart from those the process
      manager has put aside as WAITING or HANGING: the sender of the request it
      holds, those it has on hand, and the process it is blocked in a reply to. */
  function Debts(s: Sys, sv: nat): set<int>
    requires SysShaped(s) && sv < |s.k.procs|
  {
    var pr := s.k.procs[sv];
    (if pr.flags.sending then {pr.sendTo} else {})
    + (match s.pc[sv]
       case Handle => if pr.flags.receiving then {} else {Load(s.k.mem[sv], BUFFER).source}
       case Copying(c, p) => {c, p}
       case Start(c, p) => {c, p}
       case ReplyTo(c) => {c}
       case Tell(c, _) => if c < |s.k.procs| then {c, s.k.procs[c].parent} else {c}
       case Reap(c, _) => {c}
       case Loaded(c, _) => {c}
       case _ => {})
  }

  /** `c` waits for exactly the server that owes it an answer. */
  predicate ClientOk(s: Sys, c: nat, sysDebts: set<int>, mmDebts: set<int>)
    requires SysShaped(s) && c < |s.k.procs|
  {
    var pr := s.k.procs[c];
    var ph := PhaseOf(pr, s.pc[c]);
    && ph != Broken
    && (pr.flags.free ==> pr.flags == FREE_SLOT)
    && (ph == Held(TASK_SYS) <==> c in sysDebts)
    && (ph == Held(TASK_MM) <==> c in mmDebts || pr.flags.waiting || pr.flags.hanging)
    && (pr.flags.waiting ==> !pr.flags.hanging && c !in mmDebts)
    && (pr.flags.hanging && c in mmDebts ==> EndsAt(s.pc[TASK_MM], c))
    && (ph.Queued? ==>
          var m := Load(s.k.mem[c], pr.msg);
          m.source == c && GoodRequest(pr, ph.server, |s.k.procs|, m))
  }

  predicate ServerFlags(f: Flags) {
    f == READY || f == SENDING || f == RECEIVING
  }

  /** A server is READY, blocked in a reply, or waiting for anybody's request;
      and a request it holds is one it can handle. */
  predicate ServerOk(s: Sys, sv: nat)
    requires SysShaped(s) && sv < |s.k.procs|
  {
    var pr := s.k.procs[sv];
    && ServerFlags(pr.flags)
    && (pr.flags.receiving ==> s.pc[sv] == Handle && pr.recvFrom == Any(|s.k.procs|) && pr.msg == BUFFER)
    && (pr.flags.sending ==> s.pc[sv] != Handle && pr.sendTo >= INIT)
    && (s.pc[sv] == Handle && !pr.flags.receiving ==>
          var m := Load(s.k.mem[sv], BUFFER);
          INIT <= m.source < |s.k.procs| && GoodRequest(s.k.procs[m.source], sv, |s.k.procs|, m))
  }

  /** A child in the making, not answered yet. */
  predicate ChildOf(s: Sys, c: nat, p: nat)
    requires SysShaped(s)
  {
    && FIRST_FORKED <= c < |s.k.procs| && INIT <= p < |s.k.procs| && c != p
    && s.k.procs[c].parent == p && !s.k.procs[c].flags.free
  }

  predicate RestOk(rest: Rest, n: nat) {
    rest.Orphans? ==> FIRST_FORKED <= rest.exiting < n
  }

  /** The process manager's own program counters.  When it is about to answer
      a parent, that answer carries the number of the parent's new child. */
  predicate ManagerOk(s: Sys)
    requires SysShaped(s)
  {
    var pr, n := s.k.procs[TASK_MM], |s.k.procs|;
    match s.pc[TASK_MM]
    case Serve => true
    case Handle => true
    case Copying(c, p) => !pr.flags.sending && ChildOf(s, c, p)
    case Start(c, p) => !pr.flags.sending && ChildOf(s, c, p) && Load(s.k.mem[TASK_MM], BUFFER).pid == c
    case ReplyTo(p) =>
      var child := Load(s.k.mem[TASK_MM], BUFFER).pid;
      && INIT <= p < n && (pr.flags.sending ==> pr.sendTo == child) && p != child
      && FIRST_FORKED <= child < n && s.k.procs[child].parent == p && !s.k.procs[child].flags.free
    case Tell(c, rest) => !pr.flags.sending && FIRST_FORKED <= c < n && !s.k.procs[c].flags.free && RestOk(rest, n)
    case Reap(c, rest) => FIRST_FORKED <= c < n && (pr.flags.sending ==> pr.sendTo != c) && RestOk(rest, n)
    case Loaded(c, _) => !pr.flags.sending && INIT <= c < n
    case Scan(e, _) => !pr.flags.sending && FIRST_FORKED <= e < n
    case _ => false
  }

  /** The processes that are never forked never end, and the forked ones have a
      client for a parent. */
  predicate ParentOk(s: Sys, c: nat)
    requires SysShaped(s) && c < |s.k.procs|
  {
    var pr := s.k.procs[c];
    if c < FIRST_FORKED then pr.parent == NoTask(|s.k.procs|) && !pr.flags.free && !pr.flags.hanging
    else !pr.flags.free ==> INIT <= pr.parent < |s.k.procs| && pr.parent != c
  }

  ghost predicate Protocol(s: Sys)
    requires SysShaped(s)
  {
    && s.k.procs[TASK_TTY].flags == READY && s.pc[TASK_TTY] == User
    && ServerOk(s, TASK_SYS) && ServerOk(s, TASK_MM) && ManagerOk(s)
    && (s.pc[TASK_SYS] == Serve || s.pc[TASK_SYS] == Handle)
    && (forall c: nat :: INIT <= c < |s.k.procs| ==> ClientOk(s, c, Debts(s, TASK_SYS), Debts(s, TASK_MM)))
    && (forall c: nat :: c < |s.k.procs| ==> ParentOk(s, c))
  }

  ghost predicate SysInv(s: Sys) {
    SysShaped(s) && Inv(s.k) && Protocol(s)
  }

  /** The call a process is about to make meets what `msg_send`, `msg_receive`
      and `unblock` assert, and the deadlock test stays silent. */
  ghost predicate CallSafe(pr: Prepared) {
    && Inv(pr.k)
    && match pr.call
       case Send(d, m) =>
         && MaySend(pr.k, pr.k.ready, d, m)
         && (Accepts(pr.k.procs, d, pr.k.ready) ==> pr.k.procs[d].flags == RECEIVING)
       case Receive(src, m) => MayReceive(pr.k, pr.k.ready, src, m)
       case NoCall => true
  }
}
