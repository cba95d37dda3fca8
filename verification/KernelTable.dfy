/** The process table as the kernel keeps it: an array of slots whose queues
    are threaded through the slots themselves.  Each method changes the array
    in place and is proved to do to the abstract state what the function of
    the same name in `IpcState` does. */
module KernelTable {
  import opened IpcState
  import opened IpcGraph
  import opened IpcSchedule
  import opened IpcSteps

  /** The function codes of `sys_sendrec`. */
  const SEND := 1
  const RECEIVE := 2

  /** One record of the process table: the fields of `Proc`, the head of the
      queue of processes blocked in a send to it, and the link to the process
      behind it in the queue it is in itself. */
  datatype Slot = Slot(proc: Proc, qSending: Link, nextSending: Link)

  function Procs(slots: seq<Slot>): (procs: seq<Proc>)
    ensures |procs| == |slots|
    ensures forall i :: 0 <= i < |slots| ==> procs[i] == slots[i].proc
  {
    seq(|slots|, i requires 0 <= i < |slots| => slots[i].proc)
  }

  lemma ProcsUpdate(slots: seq<Slot>, i: nat, slot: Slot)
    requires i < |slots|
    ensures Procs(slots[i := slot]) == Procs(slots)[i := slot.proc]
  {
  }

  /** The link to place `i` of the queue `q`. */
  function LinkAt(q: seq<nat>, i: nat): Link {
    if i < |q| then At(q[i]) else Null
  }

  /** The slot at place `i` of `q` is linked to the one behind it, the last to nothing. */
  ghost predicate LinkedOn(slots: seq<Slot>, q: seq<nat>, i: nat)
    requires i < |q|
  {
    q[i] < |slots| && slots[q[i]].nextSending == LinkAt(q, i + 1)
  }

  /** Starting at `head`, the links of `slots` run through exactly `q`. */
  ghost predicate Threads(slots: seq<Slot>, head: Link, q: seq<nat>) {
    && head == LinkAt(q, 0)
    && (forall i: nat {:trigger LinkedOn(slots, q, i)} :: i < |q| ==> LinkedOn(slots, q, i))
  }

  ghost predicate AllThread(slots: seq<Slot>, queues: seq<seq<nat>>) {
    && |queues| == |slots|
    && (forall d: nat :: d < |slots| ==> Threads(slots, slots[d].qSending, queues[d]))
  }

  /** No process is in two queues. */
  ghost predicate Disjoint(queues: seq<seq<nat>>) {
    forall d: nat, e: nat, x: nat :: d < |queues| && e < |queues| && x in queues[d] && x in queues[e] ==> d == e
  }

  function Relinked(slots: seq<Slot>, p: nat, next: Link): seq<Slot>
    requires p < |slots|
  {
    slots[p := slots[p].(nextSending := next)]
  }

  function Reheaded(slots: seq<Slot>, d: nat, head: Link): seq<Slot>
    requires d < |slots|
  {
    slots[d := slots[d].(qSending := head)]
  }

  /** A queue whose slots kept their links is still threaded. */
  lemma ThreadsKept(slots: seq<Slot>, next: seq<Slot>, head: Link, q: seq<nat>)
    requires Threads(slots, head, q) && |next| == |slots|
    requires forall x: nat :: x in q && x < |slots| ==> next[x].nextSending == slots[x].nextSending
    ensures Threads(next, head, q)
  {
    forall i: nat | i < |q| ensures LinkedOn(next, q, i) {
      assert LinkedOn(slots, q, i);
      assert q[i] in q;
    }
  }

  /** Hooking `sender` behind the last slot of a queue, or making it the head
      of an empty one, appends it to that queue and to no other. */
  lemma AppendThreads(slots: seq<Slot>, queues: seq<seq<nat>>, d: nat, sender: nat)
    requires AllThread(slots, queues) && Disjoint(queues) && d < |slots| && sender < |slots|
    requires forall e: nat :: e < |slots| ==> sender !in queues[e]
    requires Distinct(queues[d])
    ensures |queues[d]| > 0 ==> LinkedOn(slots, queues[d], |queues[d]| - 1)
    ensures var q := queues[d];
            AllThread(Relinked(if q == [] then Reheaded(slots, d, At(sender))
                               else Relinked(slots, q[|q| - 1], At(sender)), sender, Null),
                      queues[d := q + [sender]])
  {
    var q := queues[d];
    assert Threads(slots, slots[d].qSending, q);
    assert |q| > 0 ==> LinkedOn(slots, q, |q| - 1);
    var next := Relinked(if q == [] then Reheaded(slots, d, At(sender))
                         else Relinked(slots, q[|q| - 1], At(sender)), sender, Null);
    forall e: nat | e < |slots| ensures Threads(next, next[e].qSending, queues[d := q + [sender]][e]) {
      assert Threads(slots, slots[e].qSending, queues[e]);
      if e == d {
        forall i: nat | i < |q + [sender]| ensures LinkedOn(next, q + [sender], i) {
          assert i < |q| ==> LinkedOn(slots, q, i) && q[i] in q;
        }
      } else {
        assert |q| > 0 ==> q[|q| - 1] in q;
        ThreadsKept(slots, next, slots[e].qSending, queues[e]);
      }
    }
  }

  /** Linking the slot before place `i` of a queue, or the head, past it removes
      that place from the queue and changes no other. */
  lemma RemoveThreads(slots: seq<Slot>, queues: seq<seq<nat>>, d: nat, i: nat)
    requires AllThread(slots, queues) && Disjoint(queues) && d < |slots|
    requires Distinct(queues[d]) && i < |queues[d]|
    ensures LinkedOn(slots, queues[d], i) && (i > 0 ==> LinkedOn(slots, queues[d], i - 1))
    ensures var q := queues[d];
            AllThread(Relinked(if i == 0 then Reheaded(slots, d, LinkAt(q, 1))
                               else Relinked(slots, q[i - 1], LinkAt(q, i + 1)), q[i], Null),
                      queues[d := q[..i] + q[i + 1..]])
  {
    var q := queues[d];
    assert Threads(slots, slots[d].qSending, q);
    assert LinkedOn(slots, q, i) && (i > 0 ==> LinkedOn(slots, q, i - 1));
    var next := Relinked(if i == 0 then Reheaded(slots, d, LinkAt(q, 1))
                         else Relinked(slots, q[i - 1], LinkAt(q, i + 1)), q[i], Null);
    var r := q[..i] + q[i + 1..];
    forall e: nat | e < |slots| ensures Threads(next, next[e].qSending, queues[d := r][e]) {
      assert Threads(slots, slots[e].qSending, queues[e]);
      if e == d {
        forall k: nat | k < |r| ensures LinkedOn(next, r, k) {
          assert LinkedOn(slots, q, if k < i then k else k + 1);
        }
      } else {
        assert q[i] in q && (i > 0 ==> q[i - 1] in q);
        ThreadsKept(slots, next, slots[e].qSending, queues[e]);
      }
    }
  }

  lemma QueuesOwnSenders(s: State)
    requires Inv(s)
    ensures Disjoint(s.queues) && (forall e: nat :: e < |s.queues| ==> Distinct(s.queues[e]))
    ensures forall e: nat, x: nat :: e < |s.queues| && x in s.queues[e] ==> Sends(s.procs, x, e)
  {
  }

  class Kernel {
    const n: nat
    const table: array<Slot>
    const memory: array<Memory>
    var ready: nat
    ghost var queues: seq<seq<nat>>

    ghost function Abs(): State
      reads this, table, memory
    {
      State(Procs(table[..]), queues, memory[..], ready)
    }

    ghost predicate Linked()
      reads this, table, memory
    {
      && table.Length == n && memory.Length == n && |queues| == n && ready < n
      && AllThread(table[..], queues)
    }

    ghost predicate Valid()
      reads this, table, memory
    {
      Linked() && Inv(Abs())
    }

    /** `init_proc`, for the fields of the message system. */
    constructor (n: nat)
      requires n >= FIRST_FORKED
      ensures Valid() && fresh(table) && fresh(memory) && this.n == n && ready == TASK_TTY
      ensures Abs().procs == seq(n, p requires 0 <= p => BootProc(n, p))
    {
      this.n := n;
      table := new Slot[n](_ => Slot(Proc(READY, 0, 0, 0, 0, 0), Null, Null));
      memory := new Memory[n](_ => map[]);
      ready := TASK_TTY;
      queues := seq(n, _ => []);
      new;
      var i := 0;
      while i < n
        modifies table
        invariant 0 <= i <= n
        invariant forall p: nat :: p < i ==> table[p] == Slot(BootProc(n, p), Null, Null)
        invariant forall p: nat :: i <= p < n ==> table[p] == Slot(Proc(READY, 0, 0, 0, 0, 0), Null, Null)
      {
        var pr := table[i].proc;
        if i >= FIRST_FORKED {
          table[i] := table[i].(proc := pr.(flags := FREE_SLOT));
        } else {
          table[i] := Slot(pr.(parent := NoTask(n), flags := READY, msg := 0, recvFrom := NoTask(n),
                               sendTo := NoTask(n)), Null, Null);
        }
        i := i + 1;
      }
      assert forall d: nat :: d < n ==> Threads(table[..], table[d].qSending, queues[d]);
      assert Abs().procs == seq(n, p requires 0 <= p => BootProc(n, p));
      BootIsSound(Abs());
    }

    /** What the walks along blocked sends rely on. */
    ghost predicate TableOk()
      reads this, table
    {
      && table.Length == n && InRange(Procs(table[..])) && Acyclic(Procs(table[..]))
      && (forall p: nat :: p < n && table[p].proc.flags.sending ==> table[p].proc.msg != 0)
    }

    /** `deadlock`: whether a chain of blocked sends leads from `dest` back to
        `src`.  When it does, a second loop walks the cycle to print it. */
    method Deadlock(src: nat, dest: nat) returns (r: bool)
      requires TableOk() && src < n && dest < n && src != dest
      ensures r <==> Reaches(Procs(table[..]), dest, src)
    {
      ghost var procs := Procs(table[..]);
      AcyclicIffRanked(procs);
      ghost var rank :| Ranked(procs, rank);
      var p: nat := dest;
      while true
        invariant p < n && p != src
        invariant Reaches(procs, dest, src) <==> Reaches(procs, p, src)
        decreases rank[p]
      {
        ReachesStep(procs, p, src);
        if table[p].proc.flags.sending {
          if table[p].proc.sendTo == src {
            var printed := PrintCycle(src, dest);
            return true;
          }
          p := table[p].proc.sendTo;
        } else {
          break;
        }
      }
      return false;
    }

    /** The loop of `deadlock` that names the members of the cycle. */
    method PrintCycle(src: nat, dest: nat) returns (printed: seq<nat>)
      requires TableOk() && src < n && dest < n && src != dest && Reaches(Procs(table[..]), dest, src)
      ensures PathBetween(Procs(table[..]), printed, dest, src)
    {
      ghost var procs := Procs(table[..]);
      AcyclicIffRanked(procs);
      ghost var rank :| Ranked(procs, rank);
      var p: nat := dest;
      printed := [p];
      ReachesStep(procs, p, src);
      while p != src || |printed| == 1
        invariant p < n && Path(procs, printed) && printed[0] == dest && printed[|printed| - 1] == p
        invariant p != src ==>
                    procs[p].flags.sending && (procs[p].sendTo == src || Reaches(procs, procs[p].sendTo, src))
        invariant |printed| == 1 ==> p == dest
        decreases rank[p]
      {
        assert table[p].proc.msg != 0;
        PathOnward(procs, printed, procs[p].sendTo);
        p := table[p].proc.sendTo;
        printed := printed + [p];
        if p != src {
          ReachesStep(procs, p, src);
        }
      }
    }

    /** `schedule`. */
    method Schedule(ghost q: nat)
      requires table.Length == n && ready < n && Runnable(Procs(table[..]), q)
      modifies this`ready
      ensures ready == NextReady(Procs(table[..]), old(ready))
    {
      ghost var procs := Procs(table[..]);
      ghost var k: nat := 0;
      NextReadyIsNext(procs, ready, q);
      while true
        invariant 0 <= k < Distance(n, old(ready), q) && ready == Ahead(n, old(ready), k)
        invariant NextReady(procs, old(ready)) == NextFrom(procs, old(ready), k + 1)
        decreases n - k
      {
        ready := ready + 1;
        if ready >= n {
          ready := 0;
        }
        k := k + 1;
        if table[ready].proc.flags == FREE_SLOT {
          continue;
        }
        if table[ready].proc.flags == READY {
          break;
        }
      }
    }

    method SetProc(i: nat, pr: Proc)
      requires Linked() && i < n
      modifies table
      ensures Linked()
      ensures table[..] == old(table[..])[i := Slot(pr, old(table[i].qSending), old(table[i].nextSending))]
      ensures Procs(table[..]) == old(Procs(table[..]))[i := pr]
    {
      ghost var slots := table[..];
      ProcsUpdate(slots, i, slots[i].(proc := pr));
      table[i] := table[i].(proc := pr);
      assert table[..] == slots[i := slots[i].(proc := pr)];
      forall d: nat | d < n ensures Threads(table[..], table[d].qSending, queues[d]) {
        ThreadsKept(slots, table[..], slots[d].qSending, queues[d]);
      }
    }

    /** `p_asm_memcpy` of one message from `p`'s buffer `m` to `d`'s buffer `to`. */
    method CopyMessage(p: nat, m: Ptr, d: nat, to: Ptr)
      requires p < memory.Length && d < memory.Length
      modifies memory
      ensures memory[..] == Copy(old(memory[..]), p, m, d, to)
    {
      memory[d] := memory[d][to := Load(memory[p], m)];
    }

    method MsgSend(current: nat, dest: nat, m: Ptr, ghost q: nat) returns (panic: bool)
      requires Valid() && current == ready && dest < n && dest != current && m != 0
      requires OtherRunnable(Abs(), current, q)
      requires Accepts(Abs().procs, dest, current) ==> Abs().procs[dest].flags == RECEIVING
      modifies this`ready, this`queues, table, memory
      ensures Valid()
      ensures panic <==> Reaches(old(Abs()).procs, dest, current)
      ensures Abs() == if panic then old(Abs()) else IpcState.MsgSend(old(Abs()), current, dest, m)
    {
      ghost var s := Abs();
      panic := Deadlock(current, dest);
      if panic {
        return;
      }
      if table[dest].proc.flags.receiving
         && (table[dest].proc.recvFrom == current || table[dest].proc.recvFrom == Any(n)) {
        SendDeliversKeepsInv(s, current, dest, m);
        HandOver(current, dest, m);
      } else {
        SendBlocksKeepsInv(s, current, dest, m, q);
        QueuesOwnSenders(s);
        BlockInSend(current, dest, m, q);
      }
    }

    /** The branch of `msg_send` that finds the destination waiting. */
    method HandOver(current: nat, dest: nat, m: Ptr)
      requires Linked() && current < n && dest < n && current != dest && Accepts(Abs().procs, dest, current)
      requires SlotOk(n, dest, table[dest].proc) && table[dest].proc.flags == RECEIVING
      requires SlotOk(n, current, table[current].proc) && table[current].proc.flags == READY
      modifies table, memory
      ensures Linked()
      ensures Abs() == IpcState.MsgSend(old(Abs()), current, dest, m)
    {
      var d := table[dest].proc;
      assert d.msg != 0;
      CopyMessage(current, m, dest, d.msg);
      d := d.(msg := 0);
      d := d.(flags := d.flags.(receiving := false));
      d := d.(recvFrom := NoTask(n));
      SetProc(dest, d);
      assert table[dest].proc.flags == READY && table[dest].proc.msg == 0;
      assert table[dest].proc.recvFrom == NoTask(n) && table[dest].proc.sendTo == NoTask(n);
      assert table[current].proc.flags == READY && table[current].proc.msg == 0;
      assert table[current].proc.recvFrom == NoTask(n) && table[current].proc.sendTo == NoTask(n);
    }

    /** The branch of `msg_send` that queues the sender and gives up the processor. */
    method BlockInSend(current: nat, dest: nat, m: Ptr, ghost q: nat)
      requires Linked() && Disjoint(queues) && dest < n && Distinct(queues[dest])
      requires forall e: nat :: e < n ==> current !in queues[e]
      requires current < n && current != dest && m != 0 && !Accepts(Abs().procs, dest, current)
      requires SlotOk(n, current, table[current].proc) && table[current].proc.flags == READY
      requires OtherRunnable(Abs(), current, q)
      modifies this`ready, this`queues, table
      ensures Linked()
      ensures Abs() == IpcState.MsgSend(old(Abs()), current, dest, m)
    {
      var c := table[current].proc;
      c := c.(flags := c.flags.(sending := true));
      assert c.flags == SENDING;
      c := c.(sendTo := dest);
      c := c.(msg := m);
      SetProc(current, c);
      Enqueue(current, dest);
      assert Runnable(Procs(table[..]), q);
      Schedule(q);
      assert table[current].proc.flags == SENDING && table[current].proc.msg != 0;
      assert table[current].proc.recvFrom == NoTask(n) && table[current].proc.sendTo == dest;
    }

    /** The tail of the queue is found by walking the links, and the sender is
        hooked behind it. */
    method Enqueue(sender: nat, dest: nat)
      requires Linked() && sender < n && dest < n
      requires Disjoint(queues) && Distinct(queues[dest]) && (forall e: nat :: e < n ==> sender !in queues[e])
      modifies this`queues, table
      ensures Linked() && queues == old(queues)[dest := old(queues)[dest] + [sender]]
      ensures Procs(table[..]) == old(Procs(table[..]))
    {
      ghost var q := queues[dest];
      ghost var slots := table[..];
      AppendThreads(slots, queues, dest, sender);
      assert Threads(slots, slots[dest].qSending, q);
      if table[dest].qSending.At? {
        var p := table[dest].qSending.slot;
        ghost var i: nat := 0;
        assert LinkedOn(slots, q, 0);
        while table[p].nextSending.At?
          invariant i < |q| && p == q[i] && LinkedOn(slots, q, i)
          decreases |q| - i
        {
          p := table[p].nextSending.slot;
          i := i + 1;
          assert LinkedOn(slots, q, i);
        }
        table[p] := table[p].(nextSending := At(sender));
        assert table[..] == Relinked(slots, q[|q| - 1], At(sender));
      } else {
        table[dest] := table[dest].(qSending := At(sender));
        assert table[..] == Reheaded(slots, dest, At(sender));
      }
      ghost var hooked := table[..];
      table[sender] := table[sender].(nextSending := Null);
      assert table[..] == Relinked(hooked, sender, Null);
      queues := queues[dest := q + [sender]];
    }

    method MsgReceive(current: nat, src: int, m: Ptr, ghost q: nat)
      requires Valid() && current == ready && m != 0
      requires src == Any(n) || (0 <= src < n && src != current)
      requires OtherRunnable(Abs(), current, q)
      modifies this`ready, this`queues, table, memory
      ensures Valid()
      ensures Abs() == IpcState.MsgReceive(old(Abs()), current, src, m)
    {
      ghost var s := Abs();
      PartnerSends(s, current, src, m);
      QueuesOwnSenders(s);
      var copyok := false;
      var from: nat := 0;
      var prev: Link := Null;
      ghost var i: nat := 0;
      if src == Any(n) {
        if table[current].qSending.At? {
          from := table[current].qSending.slot;
          copyok := true;
        }
      } else {
        from := src;
        if table[src].proc.flags.sending && table[src].proc.sendTo == current {
          copyok := true;
          assert src in s.queues[current];
          prev, i := FindSender(current, src);
        }
      }
      if copyok {
        ReceiveTakesKeepsInv(s, current, src, m);
        TakeFrom(current, from, prev, i, m);
      } else {
        ReceiveBlocksKeepsInv(s, current, src, m, q);
        BlockInReceive(current, if src == Any(n) then Any(n) else from, m, q);
      }
    }

    /** The branch of `msg_receive` that found a blocked sender. */
    method TakeFrom(current: nat, from: nat, prev: Link, ghost i: nat, m: Ptr)
      requires Linked() && Disjoint(queues) && current < n && from < n
      requires i < |queues[current]| && queues[current][i] == from && Distinct(queues[current])
      requires prev == if i == 0 then Null else At(queues[current][i - 1])
      requires SlotOk(n, from, table[from].proc) && Sends(Abs().procs, from, current)
      requires SlotOk(n, current, table[current].proc) && table[current].proc.flags == READY
      modifies this`queues, table, memory
      ensures Linked()
      ensures Abs() == Taken(old(Abs()), current, from, m)
    {
      assert table[current].proc.msg == 0 && table[current].proc.recvFrom == NoTask(n);
      assert table[current].proc.sendTo == NoTask(n) && table[current].qSending != Null;
      assert table[from].proc.flags == SENDING && table[from].proc.msg != 0;
      assert table[from].proc.recvFrom == NoTask(n) && table[from].proc.sendTo == current;
      Dequeue(current, from, prev, i);
      assert table[from].proc.msg != 0;
      CopyMessage(from, table[from].proc.msg, current, m);
      var f := table[from].proc;
      f := f.(msg := 0);
      f := f.(sendTo := NoTask(n));
      f := f.(flags := f.flags.(sending := false));
      SetProc(from, f);
      assert table[from].proc.flags == READY;
    }

    /** The branch of `msg_receive` that found nobody and gives up the processor. */
    method BlockInReceive(current: nat, src: int, m: Ptr, ghost q: nat)
      requires Linked() && current < n && m != 0 && src != NoTask(n)
      requires SlotOk(n, current, table[current].proc) && table[current].proc.flags == READY
      requires OtherRunnable(Abs(), current, q)
      modifies this`ready, table
      ensures Linked()
      ensures Abs() == Awaiting(old(Abs()), current, src, m)
    {
      var c := table[current].proc;
      c := c.(flags := c.flags.(receiving := true));
      c := c.(msg := m);
      c := c.(recvFrom := src);
      SetProc(current, c);
      assert Runnable(Procs(table[..]), q);
      Schedule(q);
      assert table[current].proc.flags == RECEIVING && table[current].proc.msg != 0;
      assert table[current].proc.recvFrom != NoTask(n) && table[current].proc.sendTo == NoTask(n);
    }

    /** The walk of `msg_receive` to the named sender, remembering the one before it. */
    method FindSender(current: nat, src: nat) returns (prev: Link, ghost i: nat)
      requires Linked() && current < n && src < n && src in queues[current] && table[src].proc.flags.sending
      ensures i < |queues[current]| && queues[current][i] == src
      ensures prev == if i == 0 then Null else At(queues[current][i - 1])
    {
      ghost var q := queues[current];
      assert Threads(table[..], table[current].qSending, q);
      i := 0;
      prev := Null;
      var p := table[current].qSending;
      assert p.At?;
      while p.At?
        invariant i <= |q| && p == LinkAt(q, i) && src !in q[..i]
        invariant prev == if i == 0 then Null else At(q[i - 1])
        decreases |q| - i
      {
        assert table[src].proc.flags.sending;
        if p.slot == src {
          return;
        }
        assert LinkedOn(table[..], q, i);
        prev := p;
        p := table[p.slot].nextSending;
        i := i + 1;
      }
    }

    /** Unhooking the sender at place `i` of the queue of `current`: from the
        head, or from behind `prev`. */
    method Dequeue(current: nat, from: nat, prev: Link, ghost i: nat)
      requires Linked() && Disjoint(queues) && current < n && Distinct(queues[current])
      requires i < |queues[current]| && queues[current][i] == from
      requires prev == if i == 0 then Null else At(queues[current][i - 1])
      modifies this`queues, table
      ensures Linked() && queues == old(queues)[current := Without(old(queues)[current], from)]
      ensures Procs(table[..]) == old(Procs(table[..]))
    {
      ghost var q := queues[current];
      ghost var slots := table[..];
      RemoveThreads(slots, queues, current, i);
      WithoutAt(q, i);
      assert Threads(slots, slots[current].qSending, q);
      var next := table[from].nextSending;
      if table[current].qSending == At(from) {
        assert prev == Null;
        table[current] := table[current].(qSending := next);
        assert table[..] == Reheaded(slots, current, LinkAt(q, 1));
      } else {
        assert prev.At?;
        table[prev.slot] := table[prev.slot].(nextSending := next);
        assert table[..] == Relinked(slots, q[i - 1], LinkAt(q, i + 1));
      }
      ghost var hooked := table[..];
      table[from] := table[from].(nextSending := Null);
      assert table[..] == Relinked(hooked, from, Null);
      queues := queues[current := q[..i] + q[i + 1..]];
    }

    /** `sys_sendrec`: the caller's number is stamped into its message, and the
        function code selects the half of the exchange; any other code panics. */
    method SysSendrec(code: int, srcDest: int, m: Ptr, p: nat, ghost q: nat) returns (panic: bool)
      requires Valid() && p == ready && m != 0 && OtherRunnable(Abs(), p, q)
      requires 0 <= srcDest < n || (code != SEND && srcDest == Any(n))
      requires srcDest != p
      requires code == SEND && Accepts(Abs().procs, srcDest, p) ==> Abs().procs[srcDest].flags == RECEIVING
      modifies this`ready, this`queues, table, memory
      ensures Valid()
      ensures panic <==> if code == SEND then Reaches(old(Abs()).procs, srcDest, p) else code != RECEIVE
      ensures !panic ==> Abs() == if code == SEND then SysSend(old(Abs()), p, srcDest, m)
                                  else SysReceive(old(Abs()), p, srcDest, m)
      ensures panic ==> Abs() == Stamp(old(Abs()), p, m)
    {
      ghost var s := Abs();
      memory[p] := memory[p][m := Load(memory[p], m).(source := p)];
      StampKeepsInv(s, p, m);
      assert Abs() == Stamp(s, p, m);
      if code == SEND {
        panic := MsgSend(p, srcDest, m, q);
      } else if code == RECEIVE {
        MsgReceive(p, srcDest, m, q);
        panic := false;
      } else {
        panic := true;
      }
    }

    /** `clock_handler`: the scheduler moves only when the clock did not interrupt
        the kernel itself. */
    method ClockHandler(reentered: bool, ticks: nat) returns (now: nat)
      requires Valid() && ticks < 0x1_0000_0000
      modifies this`ready
      ensures now == (ticks + 1) % 0x1_0000_0000
      ensures Valid() && Abs() == if reentered then old(Abs()) else Tick(old(Abs()))
    {
      ghost var s := Abs();
      now := (ticks + 1) % 0x1_0000_0000;
      if reentered {
        return;
      }
      TickKeepsInv(s);
      Schedule(ready);
      assert Abs() == Tick(s);
    }
  }
}
