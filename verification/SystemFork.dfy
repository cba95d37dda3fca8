/** What a process learns from the answer of `fork` when the table is full. */
module SystemFork {
  import opened IpcState
  import opened IpcGraph
  import opened System
  import opened SystemInv
  import opened SystemManager
  import opened SystemStory
  import opened SystemFamily
  import opened SystemRuns
  import opened SystemTheorems

  // ---- INIT with any number of children asks for one more

  function Births(k: nat): seq<Event> {
    if k <= FIRST_FORKED then [] else Births(k - 1) + [Born(k - 1, INIT)] + [Answered(k - 1, TASK_MM)]
  }

  lemma {:induction false} StageOfBirths(n: nat, k: nat, c: nat)
    ensures StageOf(n, Births(k), c) == if FIRST_FORKED <= c < k then Stage(AtRest, INIT) else FirstStage(n, c)
  {
    if k > FIRST_FORKED {
      StageOfBirths(n, k - 1, c);
      StageAfter(n, Births(k - 1), Born(k - 1, INIT), c);
      StageAfter(n, Births(k - 1) + [Born(k - 1, INIT)], Answered(k - 1, TASK_MM), c);
    }
  }

  function NurserySlot(n: nat, x: nat, p: nat): Proc {
    if p < FIRST_FORKED then Proc(READY, 0, NoTask(n), NoTask(n), NoTask(n), 0)
    else if p < x then Proc(READY, 0, NoTask(n), NoTask(n), INIT, 0)
    else Proc(FREE_SLOT, 0, 0, 0, 0, 0)
  }

  function NurseryPc(p: nat): Pc {
    if p == TASK_SYS then Serve else if p == TASK_MM then Handle else if p == INIT then Asked(TASK_MM, 1) else User
  }

  /** All slots below `x` are taken, those for children by children of INIT, and
      the others are free; `own` is what INIT's request holds for a number. */
  function Nursery(n: nat, x: nat, own: int): Sys
    requires FIRST_FORKED <= x <= n
  {
    Sys(State(seq(n, p requires 0 <= p < n => NurserySlot(n, x, p)), seq(n, _ => []),
              seq(n, p requires 0 <= p < n =>
                if p == TASK_MM then map[BUFFER := Message(INIT, FORK, 0, own)] else map[]),
              TASK_MM),
        seq(n, p requires 0 <= p < n => NurseryPc(p)), Births(x) + [Requested(INIT, TASK_MM)])
  }

  lemma NurseryIsSound(n: nat, x: nat, own: int)
    requires FIRST_FORKED <= x <= n
    ensures Inv(Nursery(n, x, own).k) && FirstFree(Nursery(n, x, own).k.procs, 0) == x
  {
    var k := Nursery(n, x, own).k;
    RankedIsAcyclic(k.procs, seq(n, _ => 0));
    assert x < n ==> k.procs[x].flags == FREE_SLOT;
    forall p: nat | p < x ensures k.procs[p].flags != FREE_SLOT {
    }
  }

  lemma NurseryIsInStep(n: nat, x: nat, own: int)
    requires FIRST_FORKED <= x <= n
    ensures Protocol(Nursery(n, x, own))
  {
    var s := Nursery(n, x, own);
    assert Debts(s, TASK_SYS) == {} && Debts(s, TASK_MM) == {INIT as int};
    forall c: nat | INIT <= c < n ensures ClientOk(s, c, Debts(s, TASK_SYS), Debts(s, TASK_MM)) {
    }
    forall c: nat | c < n ensures ParentOk(s, c) {
    }
  }

  lemma NurseryIsGood(n: nat, x: nat, own: int)
    requires FIRST_FORKED <= x <= n
    ensures Good(Nursery(n, x, own)) && Busy(Nursery(n, x, own), INIT) && FirstFree(Nursery(n, x, own).k.procs, 0) == x
  {
    var s := Nursery(n, x, own);
    NurseryIsSound(n, x, own);
    NurseryIsInStep(n, x, own);
    assert Answering(s) == {};
    forall c: nat | INIT <= c < n ensures Matches(s, c, Answering(s), StageOf(n, s.story, c)) {
      StageOfBirths(n, x, c);
      StageAfter(n, Births(x), Requested(INIT, TASK_MM), c);
    }
    assert Alive(s.k.procs, Handle, INIT);
  }

  // ---- Failure and success

  /** A fork of a table of `n` slots that succeeds gives `r` to the parent, or to the child. */
  ghost predicate SuccessReturns(n: nat, r: int) {
    r == 0
    || exists s, src: nat ::
         Good(s) && |s.k.procs| == n && Busy(s, src) && FirstFree(s.k.procs, 0) < n && r == FirstFree(s.k.procs, 0)
  }

  /** The parents of successful forks are given the numbers of the slots that are
      not filled at the start, each of them in some state. */
  lemma SuccessGivesSlots(n: nat, r: int)
    requires n > FIRST_FORKED
    ensures SuccessReturns(n, r) <==> r == 0 || FIRST_FORKED <= r < n
  {
    if FIRST_FORKED <= r < n {
      NurseryIsGood(n, r, 0);
    }
    if s, src: nat :| Good(s) && |s.k.procs| == n && Busy(s, src) && FirstFree(s.k.procs, 0) < n
                      && r == FirstFree(s.k.procs, 0) {
      FreeIsForked(s);
    }
  }

  /** The caller of `fork` can tell a full table from every success exactly when
      the number field of its own request was set to something that is neither 0
      nor a slot for children; the stub does not set it. */
  lemma ForkFailureShows(s: Sys, src: nat)
    requires Good(s) && Busy(s, src) && |s.k.procs| > FIRST_FORKED
    requires forall c: nat :: c < |s.k.procs| ==> !s.k.procs[c].flags.free
    ensures var n, own := |s.k.procs|, Load(s.k.mem[TASK_MM], BUFFER).pid;
            var returned := ForkReturns(Load(Fork(s, src).k.mem[TASK_MM], BUFFER));
            !SuccessReturns(n, returned) <==> own != 0 && !(FIRST_FORKED <= own < n)
  {
    ForkWithoutSlot(s, src);
    SuccessGivesSlots(|s.k.procs|, ForkReturns(Load(Fork(s, src).k.mem[TASK_MM], BUFFER)));
  }

  /** The table can be full, however many slots it has and whatever the request holds. */
  lemma FullTableOccurs(n: nat, own: int) returns (s: Sys)
    requires n >= FIRST_FORKED
    ensures |s.k.procs| == n && Good(s) && Busy(s, INIT) && (forall c: nat :: c < n ==> !s.k.procs[c].flags.free)
    ensures Load(s.k.mem[TASK_MM], BUFFER).kind == FORK && Load(s.k.mem[TASK_MM], BUFFER).pid == own
  {
    NurseryIsGood(n, n, own);
    s := Nursery(n, n, own);
  }
}
