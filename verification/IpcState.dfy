/** The state of the message system: what each process slot, each queue of
    blocked senders and each message buffer holds, and the effect of one
    system call on it.  The links between slots are not here: a queue is a
    sequence, and `Kernel` shows that the linked slots refine it. */
module IpcState {

  const TASK_TTY: nat := 0
  const TASK_SYS: nat := 1
  const TASK_MM: nat := 2

  /** The slots below this one are filled when the system starts. */
  const FIRST_FORKED: nat := 7

  /** The status bits of a slot; `READY` is the word zero. */
  datatype Flags = Flags(sending: bool, receiving: bool, waiting: bool, hanging: bool, free: bool)

  const READY := Flags(false, false, false, false, false)
  const SENDING := READY.(sending := true)
  const RECEIVING := READY.(receiving := true)
  const FREE_SLOT := READY.(free := true)

  datatype Message = Message(source: int, kind: int, retval: int, pid: int)

  const ZERO_MESSAGE := Message(0, 0, 0, 0)

  /** A pointer to a message in the memory of one process; 0 is the null pointer. */
  type Ptr = int

  type Memory = map<Ptr, Message>

  /** A pointer to a process slot. */
  datatype Link = Null | At(slot: nat)

  function Load(m: Memory, p: Ptr): Message {
    if p in m then m[p] else ZERO_MESSAGE
  }

  datatype Proc = Proc(flags: Flags, msg: Ptr, recvFrom: int, sendTo: int, parent: int, exitStatus: int)

  /** `queues[d]` lists the processes blocked in a send to `d`, oldest first. */
  datatype State = State(procs: seq<Proc>, queues: seq<seq<nat>>, mem: seq<Memory>, ready: nat)

  /** The two values above every slot number that `p_recvfrom` and `p_sendto` can hold. */
  function Any(n: nat): int { n + 10 }

  function NoTask(n: nat): int { n + 20 }

  predicate Shaped(s: State) {
    |s.queues| == |s.procs| && |s.mem| == |s.procs| && s.ready < |s.procs|
  }

  /** The slot `init_proc` sets up at place `p` of a table of `n`: the native ones
      ready, the others free and otherwise zero, as static memory is. */
  function BootProc(n: nat, p: nat): Proc {
    if p < FIRST_FORKED then Proc(READY, 0, NoTask(n), NoTask(n), NoTask(n), 0) else Proc(FREE_SLOT, 0, 0, 0, 0, 0)
  }

  // ---- Scheduling

  /** The slot `k` places after `cur` in cyclic order. */
  function Ahead(n: nat, cur: nat, k: nat): (r: nat)
    requires cur < n && k <= n
    ensures r < n
  {
    if cur + k < n then cur + k else cur + k - n
  }

  predicate Runnable(procs: seq<Proc>, p: nat) {
    p < |procs| && procs[p].flags == READY
  }

  /** The first runnable slot at distance `k` or more after `cur`. */
  function NextFrom(procs: seq<Proc>, cur: nat, k: nat): (r: nat)
    requires cur < |procs| && k <= |procs|
    ensures r < |procs|
    decreases |procs| - k
  {
    var r := Ahead(|procs|, cur, k);
    if k == |procs| || Runnable(procs, r) then r else NextFrom(procs, cur, k + 1)
  }

  function NextReady(procs: seq<Proc>, cur: nat): (r: nat)
    requires cur < |procs|
    ensures r < |procs|
  {
    NextFrom(procs, cur, 1)
  }

  // ---- The send graph

  /** The process at place `i` of `path` is blocked in a send to the one behind it. */
  ghost predicate Hop(procs: seq<Proc>, path: seq<nat>, i: nat)
    requires i + 1 < |path|
  {
    path[i] < |procs| && procs[path[i]].flags.sending && procs[path[i]].sendTo == path[i + 1]
  }

  /** `path` follows, from each of its processes, the send that process is blocked in. */
  ghost predicate Path(procs: seq<Proc>, path: seq<nat>) {
    && |path| >= 1 && path[|path| - 1] < |procs|
    && (forall i: nat {:trigger Hop(procs, path, i)} :: i + 1 < |path| ==> Hop(procs, path, i))
  }

  ghost predicate PathBetween(procs: seq<Proc>, path: seq<nat>, a: nat, b: nat) {
    Path(procs, path) && |path| >= 2 && path[0] == a && path[|path| - 1] == b
  }

  /** Some chain of one or more blocked sends leads from `a` to `b`. */
  ghost predicate Reaches(procs: seq<Proc>, a: nat, b: nat) {
    exists path :: PathBetween(procs, path, a, b)
  }

  ghost predicate Acyclic(procs: seq<Proc>) {
    forall p: nat :: !Reaches(procs, p, p)
  }

  // ---- The invariant of the message system

  /** Which fields a slot's status bits leave meaningful. */
  predicate SlotOk(n: nat, p: nat, pr: Proc) {
    && (pr.flags.sending ==>
          pr.flags == SENDING && pr.msg != 0 && pr.recvFrom == NoTask(n) && 0 <= pr.sendTo < n && pr.sendTo != p)
    && (pr.flags.receiving ==>
          !pr.flags.free && pr.msg != 0 && pr.sendTo == NoTask(n)
          && (pr.recvFrom == Any(n) || 0 <= pr.recvFrom < n) && pr.recvFrom != p)
    && (pr.flags.free ==> pr.flags == FREE_SLOT)
    && (!pr.flags.sending && !pr.flags.receiving && !pr.flags.free ==>
          pr.msg == 0 && pr.recvFrom == NoTask(n) && pr.sendTo == NoTask(n))
  }

  predicate Sends(procs: seq<Proc>, p: nat, d: nat) {
    p < |procs| && procs[p].flags.sending && procs[p].sendTo == d
  }

  /** `d` waits for a message that `p` may deliver. */
  predicate Accepts(procs: seq<Proc>, d: nat, p: nat) {
    d < |procs| && procs[d].flags.receiving && (procs[d].recvFrom == p || procs[d].recvFrom == Any(|procs|))
  }

  ghost predicate Distinct(q: seq<nat>) {
    forall i, j :: 0 <= i < j < |q| ==> q[i] != q[j]
  }

  /** Every queue holds exactly the processes blocked in a send to its owner, each once. */
  ghost predicate QueuesMatch(s: State)
    requires Shaped(s)
  {
    && (forall d: nat :: d < |s.procs| ==> Distinct(s.queues[d]))
    && (forall d: nat, p: nat :: d < |s.procs| ==> (p in s.queues[d] <==> Sends(s.procs, p, d)))
  }

  /** No process waits for a sender that is already blocked on it. */
  ghost predicate NoMissedRendezvous(procs: seq<Proc>) {
    forall p: nat, d: nat :: Sends(procs, p, d) ==> !Accepts(procs, d, p)
  }

  ghost predicate Inv(s: State) {
    && Shaped(s)
    && (forall p: nat :: p < |s.procs| ==> SlotOk(|s.procs|, p, s.procs[p]))
    && QueuesMatch(s)
    && NoMissedRendezvous(s.procs)
    && Acyclic(s.procs)
    && Runnable(s.procs, s.ready)
  }

  // ---- One system call

  /** `sys_sendrec` stamps the caller's number into the caller's own buffer. */
  function Stamp(s: State, p: nat, m: Ptr): State
    requires Shaped(s) && p < |s.procs|
  {
    s.(mem := s.mem[p := s.mem[p][m := Load(s.mem[p], m).(source := p)]])
  }

  /** The buffer of `d` at `at` receives the message that `p` holds at `m`. */
  function Copy(mem: seq<Memory>, p: nat, m: Ptr, d: nat, at: Ptr): seq<Memory>
    requires p < |mem| && d < |mem|
  {
    mem[d := mem[d][at := Load(mem[p], m)]]
  }

  function AfterReceiving(n: nat, pr: Proc): Proc {
    pr.(flags := pr.flags.(receiving := false), msg := 0, recvFrom := NoTask(n))
  }

  function AfterSending(n: nat, pr: Proc): Proc {
    pr.(flags := pr.flags.(sending := false), msg := 0, sendTo := NoTask(n))
  }

  /** What a caller of a system call is: the process the scheduler selected. */
  ghost predicate Calls(s: State, p: nat) {
    Inv(s) && p == s.ready
  }

  /** `msg_send` after its deadlock test has passed. */
  function MsgSend(s: State, p: nat, d: nat, m: Ptr): State
    requires Shaped(s) && p < |s.procs| && d < |s.procs|
  {
    if Accepts(s.procs, d, p) then
      s.(procs := s.procs[d := AfterReceiving(|s.procs|, s.procs[d])],
         mem := Copy(s.mem, p, m, d, s.procs[d].msg))
    else
      var procs := s.procs[p := s.procs[p].(flags := s.procs[p].flags.(sending := true), sendTo := d, msg := m)];
      s.(procs := procs, queues := s.queues[d := s.queues[d] + [p]], ready := NextReady(procs, s.ready))
  }

  /** The sender a receive takes: the oldest for `ANY`, the named one otherwise. */
  function Partner(s: State, p: nat, src: int): Link
    requires Shaped(s) && p < |s.procs|
  {
    if src == Any(|s.procs|) then
      if |s.queues[p]| > 0 then At(s.queues[p][0]) else Null
    else if 0 <= src && Sends(s.procs, src, p) then At(src)
    else Null
  }

  function Without(q: seq<nat>, x: nat): (r: seq<nat>)
    ensures x !in q ==> r == q
  {
    if q == [] then []
    else if q[0] == x then q[1..]
    else [q[0]] + Without(q[1..], x)
  }

  /** `p` takes the message `from` is blocked with, and `from` goes on. */
  function Taken(s: State, p: nat, from: nat, m: Ptr): State
    requires Shaped(s) && p < |s.procs| && from < |s.procs|
  {
    s.(procs := s.procs[from := AfterSending(|s.procs|, s.procs[from])],
       queues := s.queues[p := Without(s.queues[p], from)],
       mem := Copy(s.mem, from, s.procs[from].msg, p, m))
  }

  /** `p` waits for a message from `src`. */
  function Awaiting(s: State, p: nat, src: int, m: Ptr): State
    requires Shaped(s) && p < |s.procs|
  {
    var pr := s.procs[p];
    var procs := s.procs[p := pr.(flags := pr.flags.(receiving := true), msg := m, recvFrom := src)];
    s.(procs := procs, ready := NextReady(procs, s.ready))
  }

  function MsgReceive(s: State, p: nat, src: int, m: Ptr): State
    requires Shaped(s) && p < |s.procs|
  {
    var from := Partner(s, p, src);
    if from.At? && from.slot < |s.procs| then Taken(s, p, from.slot, m) else Awaiting(s, p, src, m)
  }

  function SysSend(s: State, p: nat, d: nat, m: Ptr): State
    requires Shaped(s) && p < |s.procs| && d < |s.procs|
  {
    MsgSend(Stamp(s, p, m), p, d, m)
  }

  function SysReceive(s: State, p: nat, src: int, m: Ptr): State
    requires Shaped(s) && p < |s.procs|
  {
    MsgReceive(Stamp(s, p, m), p, src, m)
  }
}
