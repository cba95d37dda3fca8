/** Parents, children and zombies: in every reachable state a waiting parent has
    a living child to wait for and no zombie to collect, and everybody's parent
    is alive. */
module SystemFamily {
  import opened IpcState
  import opened System
  import opened SystemInv
  import opened SystemManager

  /** `q` has not ended: it is neither free, nor a zombie, nor about to be reported or freed. */
  predicate Alive(procs: seq<Proc>, mm: Pc, q: int) {
    0 <= q < |procs| && !procs[q].flags.free && !procs[q].flags.hanging && !EndsAt(mm, q)
  }

  /** While the children of a process that ends are still being handed to INIT,
      those not reached yet still have it as their parent. */
  predicate NotYetAdopted(rest: Rest, c: nat, parent: int) {
    rest.Orphans? && parent == rest.exiting && c >= rest.from
  }

  predicate IsChild(procs: seq<Proc>, c: nat, q: int) {
    FIRST_FORKED <= c < |procs| && !procs[c].flags.free && procs[c].parent == q
  }

  ghost predicate HasLivingChild(procs: seq<Proc>, mm: Pc, q: nat) {
    exists c: nat :: IsChild(procs, c, q) && Alive(procs, mm, c)
  }

  ghost predicate Family(procs: seq<Proc>, mm: Pc, rest: Rest) {
    && (forall c: nat, q: nat :: IsChild(procs, c, q) && procs[c].flags.hanging && q < |procs| ==>
          !procs[q].flags.waiting)
    && (forall q: nat :: q < |procs| && procs[q].flags.waiting ==> HasLivingChild(procs, mm, q))
    && (forall c: nat, q: nat :: IsChild(procs, c, q) ==> Alive(procs, mm, q) || NotYetAdopted(rest, c, q))
    && (rest.Orphans? && rest.exiting < |procs| ==>
          !procs[rest.exiting].flags.waiting && !Alive(procs, mm, rest.exiting))
  }

  function RestOf(mm: Pc): Rest {
    if mm.Tell? || mm.Reap? then mm.rest else if mm.Scan? then Orphans(mm.exiting, mm.from) else Done
  }

  ghost predicate FamilyOk(s: Sys)
    requires SysShaped(s)
  {
    Family(s.k.procs, s.pc[TASK_MM], RestOf(s.pc[TASK_MM]))
  }

  /** The table after a system call: nobody was born, ended or was told to wait. */
  ghost predicate SameFamily(procs: seq<Proc>, next: seq<Proc>) {
    && |next| == |procs|
    && (forall c: nat :: c < |procs| ==>
          && next[c].parent == procs[c].parent && next[c].flags.free == procs[c].flags.free
          && next[c].flags.waiting == procs[c].flags.waiting && next[c].flags.hanging == procs[c].flags.hanging)
  }

  lemma SameFamilyKeeps(procs: seq<Proc>, next: seq<Proc>, mm: Pc, mm': Pc, rest: Rest)
    requires Family(procs, mm, rest) && SameFamily(procs, next)
    requires forall z: int :: EndsAt(mm, z) <==> EndsAt(mm', z)
    ensures Family(next, mm', rest)
  {
    forall c: nat, q: nat | IsChild(next, c, q)
      ensures Alive(next, mm', q) || NotYetAdopted(rest, c, q)
      ensures next[c].flags.hanging && q < |next| ==> !next[q].flags.waiting
    {
      assert IsChild(procs, c, q);
    }
    forall q: nat | q < |next| && next[q].flags.waiting ensures HasLivingChild(next, mm', q) {
      assert HasLivingChild(procs, mm, q);
      var c: nat :| IsChild(procs, c, q) && Alive(procs, mm, c);
      assert IsChild(next, c, q) && Alive(next, mm', c);
    }
  }

  lemma CallKeepsFamily(k: State, call: Call)
    requires Shaped(k) && (call.Send? ==> call.dest < |k.procs|)
    ensures SameFamily(k.procs, Perform(k, call).procs)
  {
  }

  // ---- The process manager

  /** A child handed to INIT, who does not both wait for it and find it ended. */
  lemma AdoptedKeepsFamily(s: Sys, next: seq<Proc>, exiting: nat, i: nat)
    requires SysInv(s) && s.pc[TASK_MM] == Scan(exiting, i) && FIRST_FORKED <= exiting < |s.k.procs| && FamilyOk(s)
    requires FIRST_FORKED <= i < |s.k.procs| && s.k.procs[i].parent == exiting && next == Handed(s, i).procs
    requires !(s.k.procs[INIT].flags.waiting && s.k.procs[i].flags.hanging)
    ensures Family(next, Scan(exiting, i + 1), Orphans(exiting, i + 1))
  {
    var procs, mm := s.k.procs, Scan(exiting, i + 1);
    assert ParentOk(s, i) && ParentOk(s, INIT);
    forall c: nat, q: nat | IsChild(next, c, q)
      ensures Alive(next, mm, q) || NotYetAdopted(Orphans(exiting, i + 1), c, q)
      ensures next[c].flags.hanging && q < |next| ==> !next[q].flags.waiting
    {
      if c != i {
        assert IsChild(procs, c, q);
      }
    }
    forall q: nat | q < |next| && next[q].flags.waiting ensures HasLivingChild(next, mm, q) {
      var c: nat :| IsChild(procs, c, q) && Alive(procs, s.pc[TASK_MM], c);
      assert IsChild(next, c, q) && Alive(next, mm, c);
    }
  }

  /** A zombie handed to a waiting INIT: INIT will be told at once. */
  lemma ToldKeepsFamily(s: Sys, next: seq<Proc>, exiting: nat, i: nat)
    requires SysInv(s) && s.pc[TASK_MM] == Scan(exiting, i) && FIRST_FORKED <= exiting < |s.k.procs| && FamilyOk(s)
    requires FIRST_FORKED <= i < |s.k.procs| && s.k.procs[i].parent == exiting
    requires next == Waiting(Handed(s, i), INIT, false).procs
    requires s.k.procs[INIT].flags.waiting && s.k.procs[i].flags.hanging
    ensures Family(next, Tell(i, Orphans(exiting, i + 1)), Orphans(exiting, i + 1))
  {
    var procs, rest := s.k.procs, Orphans(exiting, i + 1);
    var mm := Tell(i, rest);
    assert ParentOk(s, i) && ParentOk(s, INIT);
    forall c: nat, q: nat | IsChild(next, c, q)
      ensures Alive(next, mm, q) || NotYetAdopted(rest, c, q)
      ensures next[c].flags.hanging && q < |next| ==> !next[q].flags.waiting
    {
      if c != i {
        assert IsChild(procs, c, q);
      }
    }
    forall q: nat | q < |next| && next[q].flags.waiting ensures HasLivingChild(next, mm, q) {
      var c: nat :| IsChild(procs, c, q) && Alive(procs, s.pc[TASK_MM], c);
      assert IsChild(next, c, q) && Alive(next, mm, c);
    }
  }

  /** Once everybody has been reached nobody is left with the process that ends. */
  lemma AllAdopted(procs: seq<Proc>, exiting: nat, i: nat)
    requires Family(procs, Scan(exiting, i), Orphans(exiting, i)) && i >= |procs|
    ensures Family(procs, Serve, Done)
  {
    forall q: nat | q < |procs| && procs[q].flags.waiting ensures HasLivingChild(procs, Serve, q) {
      var c: nat :| IsChild(procs, c, q) && Alive(procs, Scan(exiting, i), c);
      assert IsChild(procs, c, q) && Alive(procs, Serve, c);
    }
  }

  lemma PassedOver(procs: seq<Proc>, exiting: nat, i: nat)
    requires Family(procs, Scan(exiting, i), Orphans(exiting, i)) && i < |procs|
    requires procs[i].parent != exiting || procs[i].flags.free
    ensures Family(procs, Scan(exiting, i + 1), Orphans(exiting, i + 1))
  {
    forall q: nat | q < |procs| && procs[q].flags.waiting ensures HasLivingChild(procs, Scan(exiting, i + 1), q) {
      var c: nat :| IsChild(procs, c, q) && Alive(procs, Scan(exiting, i), c);
      assert IsChild(procs, c, q) && Alive(procs, Scan(exiting, i + 1), c);
    }
  }

  lemma ScanKeepsFamily(s: Sys, exiting: nat, i: nat)
    requires AtWork(s) && s.pc[TASK_MM] == Scan(exiting, i) && FamilyOk(s)
    ensures FamilyOk(SysOf(ScanStep(Intended, s, exiting, i)))
  {
    if i >= |s.k.procs| {
      AllAdopted(s.k.procs, exiting, i);
    } else if s.k.procs[i].parent != exiting {
      PassedOver(s.k.procs, exiting, i);
    } else {
      assert ParentOk(s, i);
      var next := SysOf(ScanStep(Intended, s, exiting, i)).k.procs;
      if s.k.procs[INIT].flags.waiting && s.k.procs[i].flags.hanging {
        ToldKeepsFamily(s, next, exiting, i);
      } else {
        AdoptedKeepsFamily(s, next, exiting, i);
      }
    }
  }

  lemma ExitTellsKeepsFamily(s: Sys, pid: nat, status: int)
    requires Busy(s, pid) && FamilyOk(s) && FIRST_FORKED <= pid
    requires 0 <= s.k.procs[pid].parent < |s.k.procs| && s.k.procs[s.k.procs[pid].parent].flags.waiting
    ensures FamilyOk(SysOf(Exit(Intended, s, pid, status)))
  {
    var procs := s.k.procs;
    var t := SysOf(Exit(Intended, s, pid, status));
    var next, mm, rest := t.k.procs, t.pc[TASK_MM], Orphans(pid, 0);
    assert ParentOk(s, pid) && ClientOk(s, pid, Debts(s, TASK_SYS), Debts(s, TASK_MM));
    assert mm == Tell(pid, rest);
    forall c: nat, q: nat | IsChild(next, c, q)
      ensures Alive(next, mm, q) || NotYetAdopted(rest, c, q)
      ensures next[c].flags.hanging && q < |next| ==> !next[q].flags.waiting
    {
      assert IsChild(procs, c, q);
    }
    forall q: nat | q < |next| && next[q].flags.waiting ensures HasLivingChild(next, mm, q) {
      var c: nat :| IsChild(procs, c, q) && Alive(procs, Handle, c);
      assert IsChild(next, c, q) && Alive(next, mm, c);
    }
  }

  lemma ExitHangsKeepsFamily(s: Sys, pid: nat, status: int)
    requires Busy(s, pid) && FamilyOk(s) && FIRST_FORKED <= pid
    requires 0 <= s.k.procs[pid].parent < |s.k.procs| && !s.k.procs[s.k.procs[pid].parent].flags.waiting
    ensures FamilyOk(SysOf(Exit(Intended, s, pid, status)))
  {
    var procs := s.k.procs;
    var t := SysOf(Exit(Intended, s, pid, status));
    var next, mm, rest := t.k.procs, t.pc[TASK_MM], Orphans(pid, 0);
    assert ParentOk(s, pid) && ClientOk(s, pid, Debts(s, TASK_SYS), Debts(s, TASK_MM));
    assert mm == Scan(pid, 0);
    forall c: nat, q: nat | IsChild(next, c, q)
      ensures Alive(next, mm, q) || NotYetAdopted(rest, c, q)
      ensures next[c].flags.hanging && q < |next| ==> !next[q].flags.waiting
    {
      assert IsChild(procs, c, q);
    }
    forall q: nat | q < |next| && next[q].flags.waiting ensures HasLivingChild(next, mm, q) {
      var c: nat :| IsChild(procs, c, q) && Alive(procs, Handle, c);
      assert IsChild(next, c, q) && Alive(next, mm, c);
    }
  }

  lemma WaitKeepsFamily(s: Sys, pid: nat)
    requires Busy(s, pid) && FamilyOk(s)
    ensures FamilyOk(SysOf(Wait(Intended, s, pid)))
  {
    var n := |s.k.procs|;
    var procs := s.k.procs;
    var z := FirstZombie(Intended, procs, pid, 0);
    var t := SysOf(Wait(Intended, s, pid));
    var next, mm := t.k.procs, t.pc[TASK_MM];
    assert ClientOk(s, pid, Debts(s, TASK_SYS), Debts(s, TASK_MM));
    forall c: nat | c < n ensures ParentOk(s, c) {
    }
    forall c: nat, q: nat | IsChild(next, c, q)
      ensures Alive(next, mm, q)
      ensures next[c].flags.hanging && q < |next| ==> !next[q].flags.waiting
    {
      assert IsChild(procs, c, q);
      assert c < z ==> !(Counts(Intended, procs, pid, c) && procs[c].flags.hanging);
    }
    forall q: nat | q < n && next[q].flags.waiting ensures HasLivingChild(next, mm, q) {
      if procs[q].flags.waiting {
        var c: nat :| IsChild(procs, c, q) && Alive(procs, Handle, c);
        assert IsChild(next, c, q) && Alive(next, mm, c);
      } else {
        var c: nat :| c < n && Counts(Intended, procs, pid, c);
        assert ParentOk(s, c);
        assert IsChild(next, c, q) && Alive(next, mm, c);
      }
    }
  }

  lemma ForkKeepsFamily(s: Sys, src: nat)
    requires Busy(s, src) && FamilyOk(s)
    ensures FamilyOk(SysOf(Fork(s, src)))
  {
    var n, procs, child := |s.k.procs|, s.k.procs, FirstFree(s.k.procs, 0);
    var t := SysOf(Fork(s, src));
    var next, mm := t.k.procs, t.pc[TASK_MM];
    assert ClientOk(s, src, Debts(s, TASK_SYS), Debts(s, TASK_MM));
    if child == n {
      SameFamilyKeeps(procs, next, Handle, mm, Done);
    } else {
      forall c: nat, q: nat | IsChild(next, c, q)
        ensures Alive(next, mm, q)
        ensures next[c].flags.hanging && q < |next| ==> !next[q].flags.waiting
      {
        if c != child {
          assert IsChild(procs, c, q);
        }
      }
      forall q: nat | q < n && next[q].flags.waiting ensures HasLivingChild(next, mm, q) {
        var c: nat :| IsChild(procs, c, q) && Alive(procs, Handle, c);
        assert IsChild(next, c, q) && Alive(next, mm, c);
      }
    }
  }

  lemma FreeKeepsFamily(s: Sys, child: nat, rest: Rest)
    requires AtWork(s) && FamilyOk(s) && s.pc[TASK_MM] == Reap(child, rest)
    ensures FamilyOk(SysOf(Free(s, child, rest)))
  {
    var procs := s.k.procs;
    var t := SysOf(Free(s, child, rest));
    var next, mm := t.k.procs, t.pc[TASK_MM];
    assert RestOf(mm) == rest;
    forall c: nat, q: nat | IsChild(next, c, q)
      ensures Alive(next, mm, q) || NotYetAdopted(rest, c, q)
      ensures next[c].flags.hanging && q < |next| ==> !next[q].flags.waiting
    {
      assert IsChild(procs, c, q);
    }
    forall q: nat | q < |next| && next[q].flags.waiting ensures HasLivingChild(next, mm, q) {
      var c: nat :| IsChild(procs, c, q) && Alive(procs, s.pc[TASK_MM], c);
      assert IsChild(next, c, q) && Alive(next, mm, c);
    }
  }

  lemma ManageKeepsFamily(s: Sys, r: int, image: Memory)
    requires AtWork(s) && FamilyOk(s) && s.pc[TASK_MM] == Handle
    ensures FamilyOk(SysOf(ManageRequest(Intended, s, r, image)))
  {
    var got := Load(s.k.mem[TASK_MM], BUFFER);
    ManageSettles(s, r, image);
    var d: nat := got.source;
    if got.kind == FORK {
      ForkKeepsFamily(s, d);
    } else if got.kind == EXIT {
      assert ParentOk(s, d) && FIRST_FORKED <= d;
      if s.k.procs[s.k.procs[d].parent].flags.waiting {
        ExitTellsKeepsFamily(s, d, got.retval);
      } else {
        ExitHangsKeepsFamily(s, d, got.retval);
      }
    } else if got.kind == WAIT {
      WaitKeepsFamily(s, d);
    } else {
      SameFamilyKeeps(s.k.procs, s.k.procs, Handle, Loaded(d, r), Done);
    }
  }

  lemma RestKeepsFamily(s: Sys)
    requires AtWork(s) && FamilyOk(s) && UnderWay(s.pc[TASK_MM])
    ensures FamilyOk(SysOf(ManageRest(Intended, s)))
  {
    var mm, t := s.pc[TASK_MM], SysOf(ManageRest(Intended, s));
    match mm
    case Reap(child, rest) => FreeKeepsFamily(s, child, rest);
    case Scan(exiting, i) => ScanKeepsFamily(s, exiting, i);
    case Tell(child, rest) =>
      CleanupSettles(s, child, rest);
      SameFamilyKeeps(s.k.procs, t.k.procs, mm, t.pc[TASK_MM], rest);
    case Copying(child, src) => SameFamilyKeeps(s.k.procs, t.k.procs, mm, Start(child, src), Done);
    case Start(child, src) => SameFamilyKeeps(s.k.procs, t.k.procs, mm, ReplyTo(src), Done);
    case ReplyTo(c) => SameFamilyKeeps(s.k.procs, t.k.procs, mm, Serve, Done);
    case Loaded(c, result) => SameFamilyKeeps(s.k.procs, t.k.procs, mm, Serve, Done);
  }
}
