/** The whole system above the kernel: clients that use the request stubs, the
    system task and the process manager, each stepping from one system call to
    the next. */
module System {
  import opened IpcState
  import opened IpcSteps

  const INIT: nat := 3

  const GET_TICKS := 2
  const FORK := 3
  const SYSCALL_RET := 4
  const EXIT := 5
  const WAIT := 6
  const EXEC := 7

  /** The buffer each server receives into, and the one the process manager
      builds its other messages in. */
  const BUFFER: Ptr := 1
  const LOCAL: Ptr := 2

  /** `do_exit`, `do_wait` and `do_execl` as they stand in the source, or as they
      are meant: the exiting child is the one marked HANGING, an orphan gets INIT
      as its parent, a freed slot is nobody's child, and a caller of `execl` that
      has not issued its RECEIVE yet does so before it goes on in the new program. */
  datatype Variant = AsWritten | Intended

  /** Where the process manager goes on once it has freed a slot. */
  datatype Rest = Done | Orphans(exiting: nat, from: nat)

  /** Where a process stands.  The process manager stops wherever what it has
      written into the table shows to others, because the clock can take the
      processor from it there. */
  datatype Pc =
    | User                                // in its own code
    | Asked(server: nat, m: Ptr)          // the SEND of a request is issued, its RECEIVE comes next
    | Serve                               // a server about to receive from ANY
    | Handle                              // that receive is issued
    | Copying(child: nat, parent: nat)    // do_fork has copied the record, the memory comes next
    | Start(child: nat, parent: nat)      // do_fork is about to answer the child
    | ReplyTo(client: nat)                // the child is answered, the parent comes next
    | Tell(child: nat, rest: Rest)        // cleanup is about to report the child
    | Reap(child: nat, rest: Rest)        // the child is reported, its slot is freed next
    | Loaded(client: nat, result: int)    // do_execl has loaded the program, the client's program counter comes next
    | Scan(exiting: nat, from: nat)       // do_exit is about to look at slot `from` for an orphan

  /** What happens to the process in slot `pid`, in the order it happens. */
  datatype Event =
    | Requested(pid: nat, server: nat)
    | Answered(pid: nat, server: nat)
    | Born(pid: nat, parent: nat)
    | Exited(pid: nat, status: int)
    | Adopted(pid: nat)
    | Reported(pid: nat, status: int, to: nat)
    | Freed(pid: nat)

  datatype Sys = Sys(k: State, pc: seq<Pc>, story: seq<Event>)

  datatype Action =
    | Compute(own: Memory)
    | Ask(server: nat, m: Ptr, request: Message)
    | Await
    | Listen
    | Answer(ticks: int)
    | Manage(execResult: int, image: Memory)
    | Resume
    | Clock

  datatype Call = Send(dest: nat, m: Ptr) | Receive(src: int, m: Ptr) | NoCall

  /** A step up to its system call: the table and memory as the caller left
      them, the call, and where everybody stands afterwards. */
  datatype Prepared = Prepared(k: State, call: Call, pc: seq<Pc>, story: seq<Event>)

  predicate Complete(pr: Prepared, n: nat) {
    Shaped(pr.k) && |pr.k.procs| == n && |pr.pc| == n && (pr.call.Send? ==> pr.call.dest < n)
  }

  predicate SysShaped(s: Sys) {
    Shaped(s.k) && |s.pc| == |s.k.procs| && |s.k.procs| >= FIRST_FORKED
  }

  function Perform(k: State, call: Call): State
    requires Shaped(k) && (call.Send? ==> call.dest < |k.procs|)
  {
    match call
    case Send(d, m) => SysSend(k, k.ready, d, m)
    case Receive(src, m) => SysReceive(k, k.ready, src, m)
    case NoCall => k
  }

  function Store(k: State, p: nat, at: Ptr, m: Message): State
    requires Shaped(k) && p < |k.procs|
  {
    k.(mem := k.mem[p := k.mem[p][at := m]])
  }

  function SetProc(k: State, p: nat, pr: Proc): State
    requires Shaped(k) && p < |k.procs|
  {
    k.(procs := k.procs[p := pr])
  }

  // ---- Requests

  /** What the stubs put into a request, and what each server can handle. */
  predicate GoodRequest(pr: Proc, server: nat, n: nat, m: Message) {
    if server == TASK_SYS then m.kind == GET_TICKS
    else m.kind in {FORK, EXIT, WAIT, EXEC} && (m.kind == EXIT ==> 0 <= pr.parent < n)
  }

  /** The process manager is in the middle of a request. */
  predicate UnderWay(mm: Pc) {
    mm.Copying? || mm.Start? || mm.ReplyTo? || mm.Tell? || mm.Reap? || mm.Loaded? || mm.Scan?
  }

  /** Which action the running process can take next. */
  predicate Can(s: Sys, a: Action)
    requires SysShaped(s)
  {
    var p := s.k.ready;
    match a
    case Compute(own) => p != TASK_SYS && p != TASK_MM && s.pc[p] == User
    case Ask(sv, m, r) =>
      p >= INIT && s.pc[p] == User && m != 0 && (sv == TASK_SYS || sv == TASK_MM)
      && GoodRequest(s.k.procs[p], sv, |s.k.procs|, r)
    case Await => s.pc[p].Asked?
    case Listen => s.pc[p] == Serve
    case Answer(ticks) => p == TASK_SYS && s.pc[p] == Handle
    case Manage(r, image) => p == TASK_MM && s.pc[p] == Handle
    case Resume => p == TASK_MM && UnderWay(s.pc[p])
    case Clock => true
  }

  // ---- The process manager

  /** The first free slot, or `n`. */
  function FirstFree(procs: seq<Proc>, i: nat): (r: nat)
    requires i <= |procs|
    ensures i <= r <= |procs|
    ensures r < |procs| ==> procs[r].flags == FREE_SLOT
    ensures forall j :: i <= j < r ==> procs[j].flags != FREE_SLOT
    decreases |procs| - i
  {
    if i == |procs| || procs[i].flags == FREE_SLOT then i else FirstFree(procs, i + 1)
  }

  /** A message of the process manager built at `at` in its own memory. */
  function Reply(s: Sys, at: Ptr, m: Message, dest: nat, next: Pc, story: seq<Event>): (pr: Prepared)
    requires SysShaped(s) && dest < |s.k.procs|
    ensures Complete(pr, |s.k.procs|)
  {
    Prepared(Store(s.k, TASK_MM, at, m), Send(dest, at), s.pc[TASK_MM := next], story + [Answered(dest, TASK_MM)])
  }

  /** A change of the table by the process manager. */
  function Edits(s: Sys, k: State, next: Pc, story: seq<Event>): (pr: Prepared)
    requires SysShaped(s) && Shaped(k) && |k.procs| == |s.k.procs|
    ensures Complete(pr, |s.k.procs|)
  {
    Prepared(k, NoCall, s.pc[TASK_MM := next], story)
  }

  /** `do_fork` up to the copy of the parent's record, or the reply that there is no free slot. */
  function Fork(s: Sys, src: nat): (pr: Prepared)
    requires SysShaped(s) && src < |s.k.procs|
    ensures Complete(pr, |s.k.procs|)
  {
    var n := |s.k.procs|;
    var child := FirstFree(s.k.procs, 0);
    if child == n then
      Reply(s, BUFFER, Load(s.k.mem[TASK_MM], BUFFER).(retval := -1, kind := SYSCALL_RET), src, Serve, s.story)
    else
      Edits(s.(pc := s.pc[child := s.pc[src]]), SetProc(s.k, child, s.k.procs[src].(parent := src)),
            Copying(child, src), s.story + [Born(child, src)])
  }

  /** The memory of the parent is copied, and the child's number put into the reply. */
  function CopyMemory(s: Sys, child: nat, src: nat): (pr: Prepared)
    requires SysShaped(s) && child < |s.k.procs| && src < |s.k.procs|
    ensures Complete(pr, |s.k.procs|)
  {
    var k := s.k.(mem := s.k.mem[child := s.k.mem[src]]);
    Edits(s, Store(k, TASK_MM, BUFFER, Load(k.mem[TASK_MM], BUFFER).(pid := child)), Start(child, src), s.story)
  }

  /** `cleanup` up to the report of `child` to its parent. */
  function Cleanup(s: Sys, child: nat, rest: Rest): (pr: Prepared)
    requires SysShaped(s) && child < |s.k.procs|
    ensures Complete(pr, |s.k.procs|)
  {
    var c := s.k.procs[child];
    if 0 <= c.parent < |s.k.procs| then
      Reply(s, LOCAL, Message(TASK_MM, SYSCALL_RET, c.exitStatus, child), c.parent, Reap(child, rest),
            s.story + [Reported(child, c.exitStatus, c.parent)])
    else
      Edits(s, s.k, Reap(child, rest), s.story)
  }

  /** `cleanup` behind the report. */
  function Free(s: Sys, child: nat, rest: Rest): (pr: Prepared)
    requires SysShaped(s) && child < |s.k.procs|
    ensures Complete(pr, |s.k.procs|)
  {
    Edits(s, SetProc(s.k, child, s.k.procs[child].(flags := FREE_SLOT)),
          match rest { case Done => Serve case Orphans(exiting, from) => Scan(exiting, from) },
          s.story + [Freed(child)])
  }

  function Waiting(k: State, p: nat, on: bool): State
    requires Shaped(k) && p < |k.procs|
  {
    SetProc(k, p, k.procs[p].(flags := k.procs[p].flags.(waiting := on)))
  }

  function Hanging(k: State, p: nat): State
    requires Shaped(k) && p < |k.procs|
  {
    SetProc(k, p, k.procs[p].(flags := k.procs[p].flags.(hanging := true)))
  }

  /** One turn of the loop of `do_exit` over the children of the process that ends. */
  function ScanStep(v: Variant, s: Sys, exiting: nat, i: nat): (pr: Prepared)
    requires SysShaped(s)
    ensures Complete(pr, |s.k.procs|)
  {
    if i >= |s.k.procs| then Edits(s, s.k, Serve, s.story)
    else if s.k.procs[i].parent != exiting then Edits(s, s.k, Scan(exiting, i + 1), s.story)
    else
      var story := if v == Intended && !s.k.procs[i].flags.free then s.story + [Adopted(i)] else s.story;
      var k := if v == Intended then SetProc(s.k, i, s.k.procs[i].(parent := INIT)) else s.k;
      if k.procs[INIT].flags.waiting && k.procs[i].flags.hanging then
        Edits(s, Waiting(k, INIT, false), Tell(i, Orphans(exiting, i + 1)), story)
      else
        Edits(s, k, Scan(exiting, i + 1), story)
  }

  /** `do_exit` up to its loop or to the report to the parent. */
  function Exit(v: Variant, s: Sys, pid: nat, status: int): (pr: Prepared)
    requires SysShaped(s) && pid < |s.k.procs| && 0 <= s.k.procs[pid].parent < |s.k.procs|
    ensures Complete(pr, |s.k.procs|)
  {
    var parent: nat := s.k.procs[pid].parent;
    var k := SetProc(s.k, pid, s.k.procs[pid].(exitStatus := status));
    var story := s.story + [Exited(pid, status)];
    if k.procs[parent].flags.waiting then
      Edits(s, Waiting(k, parent, false), Tell(pid, Orphans(pid, 0)), story)
    else
      Edits(s, Hanging(k, if v == Intended then pid else parent), Scan(pid, 0), story)
  }

  /** Whether `do_wait` takes slot `i` for a child of `pid`. */
  predicate Counts(v: Variant, procs: seq<Proc>, pid: nat, i: nat)
    requires i < |procs|
  {
    procs[i].parent == pid && (v == Intended ==> !procs[i].flags.free)
  }

  /** The first child of `pid` that has exited, or `n`. */
  function FirstZombie(v: Variant, procs: seq<Proc>, pid: nat, i: nat): (r: nat)
    requires i <= |procs|
    ensures i <= r <= |procs|
    ensures r < |procs| ==> Counts(v, procs, pid, r) && procs[r].flags.hanging
    ensures forall j :: i <= j < r ==> !(Counts(v, procs, pid, j) && procs[j].flags.hanging)
    decreases |procs| - i
  {
    if i == |procs| || (Counts(v, procs, pid, i) && procs[i].flags.hanging) then i
    else FirstZombie(v, procs, pid, i + 1)
  }

  predicate HasChild(v: Variant, procs: seq<Proc>, pid: nat) {
    exists i: nat :: i < |procs| && Counts(v, procs, pid, i)
  }

  /** `do_wait`. */
  function Wait(v: Variant, s: Sys, pid: nat): (pr: Prepared)
    requires SysShaped(s) && pid < |s.k.procs|
    ensures Complete(pr, |s.k.procs|)
  {
    var n := |s.k.procs|;
    var zombie := FirstZombie(v, s.k.procs, pid, 0);
    if zombie < n then Edits(s, s.k, Tell(zombie, Done), s.story)
    else if HasChild(v, s.k.procs, pid) then Edits(s, Waiting(s.k, pid, true), Serve, s.story)
    else Reply(s, LOCAL, Message(TASK_MM, SYSCALL_RET, 0, NoTask(n)), pid, Serve, s.story)
  }

  /** `do_execl` up to the last segment of the program: `image` is what it leaves in the caller's memory. */
  function LoadProgram(s: Sys, src: nat, result: int, image: Memory): (pr: Prepared)
    requires SysShaped(s) && src < |s.k.procs|
    ensures Complete(pr, |s.k.procs|)
  {
    Edits(s, s.k.(mem := s.k.mem[src := image]), Loaded(src, result), s.story)
  }

  /** The caller's program counter is set to the start of the program, wherever
      it stands, and the caller is answered.  As it is meant, a caller that has
      still to issue its RECEIVE does so first. */
  function Enter(v: Variant, s: Sys, src: nat, result: int): (pr: Prepared)
    requires SysShaped(s) && src < |s.k.procs|
    ensures Complete(pr, |s.k.procs|)
  {
    Reply(if v == AsWritten then s.(pc := s.pc[src := User]) else s, BUFFER,
          Load(s.k.mem[TASK_MM], BUFFER).(retval := result, kind := SYSCALL_RET), src, Serve, s.story)
  }

  /** What `task_mm` does with the message it got. */
  function ManageRequest(v: Variant, s: Sys, execResult: int, image: Memory): (pr: Prepared)
    requires SysShaped(s)
    ensures Complete(pr, |s.k.procs|)
  {
    var n := |s.k.procs|;
    var got := Load(s.k.mem[TASK_MM], BUFFER);
    if !(0 <= got.source < n) then Edits(s, s.k, Handle, s.story)
    else if got.kind == FORK then Fork(s, got.source)
    else if got.kind == EXIT && 0 <= s.k.procs[got.source].parent < n then Exit(v, s, got.source, got.retval)
    else if got.kind == WAIT then Wait(v, s, got.source)
    else if got.kind == EXEC then LoadProgram(s, got.source, execResult, image)
    else Edits(s, s.k, Handle, s.story)
  }

  /** How it goes on. */
  function ManageRest(v: Variant, s: Sys): (pr: Prepared)
    requires SysShaped(s)
    ensures Complete(pr, |s.k.procs|)
  {
    var n := |s.k.procs|;
    match s.pc[TASK_MM]
    case Copying(child, src) =>
      if child >= n || src >= n then Edits(s, s.k, Serve, s.story) else CopyMemory(s, child, src)
    case Start(child, src) =>
      if child >= n then Edits(s, s.k, Serve, s.story) else
      Reply(s, LOCAL, Message(TASK_MM, SYSCALL_RET, 0, 0), child, ReplyTo(src), s.story)
    case ReplyTo(c) =>
      if c >= n then Edits(s, s.k, Serve, s.story) else
      Reply(s, BUFFER, Load(s.k.mem[TASK_MM], BUFFER).(retval := 0, kind := SYSCALL_RET), c, Serve, s.story)
    case Tell(child, rest) => if child >= n then Edits(s, s.k, Serve, s.story) else Cleanup(s, child, rest)
    case Reap(child, rest) => if child >= n then Edits(s, s.k, Serve, s.story) else Free(s, child, rest)
    case Loaded(c, result) => if c >= n then Edits(s, s.k, Serve, s.story) else Enter(v, s, c, result)
    case Scan(exiting, i) => ScanStep(v, s, exiting, i)
    case _ => Edits(s, s.k, s.pc[TASK_MM], s.story)
  }

  // ---- One step

  function Prepare(v: Variant, s: Sys, a: Action): (pr: Prepared)
    requires SysShaped(s) && Can(s, a)
    ensures Complete(pr, |s.k.procs|)
  {
    var p := s.k.ready;
    match a
    case Compute(own) => Prepared(s.k.(mem := s.k.mem[p := own]), NoCall, s.pc, s.story)
    case Ask(sv, m, r) => Prepared(Store(s.k, p, m, r), Send(sv, m), s.pc[p := Asked(sv, m)],
                                    s.story + [Requested(p, sv)])
    case Await => Prepared(s.k, Receive(s.pc[p].server, s.pc[p].m), s.pc[p := User], s.story)
    case Listen =>
      Prepared(Store(s.k, p, BUFFER, ZERO_MESSAGE), Receive(Any(|s.k.procs|), BUFFER), s.pc[p := Handle], s.story)
    case Answer(ticks) =>
      var got := Load(s.k.mem[p], BUFFER);
      if !(0 <= got.source < |s.k.procs|) then Prepared(s.k, NoCall, s.pc, s.story) else
      Prepared(Store(s.k, p, BUFFER, got.(retval := ticks)), Send(got.source, BUFFER), s.pc[p := Serve],
               s.story + [Answered(got.source, p)])
    case Manage(r, image) => ManageRequest(v, s, r, image)
    case Resume => ManageRest(v, s)
    case Clock => Prepared(Tick(s.k), NoCall, s.pc, s.story)
  }

  function Finish(pr: Prepared): Sys
    requires Shaped(pr.k) && (pr.call.Send? ==> pr.call.dest < |pr.k.procs|)
  {
    Sys(Perform(pr.k, pr.call), pr.pc, pr.story)
  }
}
