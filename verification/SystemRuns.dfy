/** Whole runs of the system, from the table `init_proc` sets up. */
module SystemRuns {
  import opened IpcState
  import opened System
  import opened SystemInv
  import opened SystemCalls
  import opened SystemManager
  import opened SystemSafety
  import opened SystemStory
  import opened SystemFamily

  ghost predicate Good(s: Sys) {
    SysInv(s) && StoryOk(s) && FamilyOk(s)
  }

  // ---- One step

  lemma ManagerStepTells(s: Sys, a: Action)
    requires Good(s) && Can(s, a) && (a.Manage? || a.Resume?)
    ensures var pr := Prepare(Intended, s, a); Settles(pr) && WillTell(pr) && FamilyOk(SysOf(pr))
  {
    match a
    case Manage(r, image) =>
      ManageSettles(s, r, image);
      ManageTells(s, r, image);
      ManageKeepsFamily(s, r, image);
    case Resume =>
      RestSettles(s);
      RestTells(s);
      RestKeepsFamily(s);
  }

  /** Once the manager's call is made, its story is told. */
  lemma ManagerFinishes(pr: Prepared)
    requires Settles(pr) && WillTell(pr) && FamilyOk(SysOf(pr))
    ensures Good(Finish(pr))
  {
    SettledIsOk(pr);
    var t := SysOf(pr);
    var u := Finish(pr);
    assert u == Called(t, pr.call);
    CallKeepsFamily(pr.k, pr.call);
    SameFamilyKeeps(t.k.procs, u.k.procs, t.pc[TASK_MM], t.pc[TASK_MM], RestOf(t.pc[TASK_MM]));
    if pr.call.Send? {
      var d := pr.call.dest;
      ServerAnswers(t, TASK_MM, d, pr.call.m, Debts(t, TASK_SYS), Debts(t, TASK_MM) + {d as int});
      AnswersTell(t, TASK_MM, d, pr.call.m, Answering(t) + {d as int});
    }
  }

  lemma AnswerStepTells(s: Sys, ticks: int)
    requires Good(s) && Can(s, Answer(ticks))
    ensures StoryOk(Finish(Prepare(Intended, s, Answer(ticks))))
  {
    var d: nat := Load(s.k.mem[TASK_SYS], BUFFER).source;
    var pr := Prepare(Intended, s, Answer(ticks));
    var t := SysOf(pr);
    assert ClientOk(s, d, Debts(s, TASK_SYS), Debts(s, TASK_MM));
    AnsweringTells(s, t, d);
    AnswersTell(t, TASK_SYS, d, BUFFER, Answering(t) + {d as int});
    assert Finish(pr) == Called(t, Send(d, BUFFER));
  }

  /** Changing memory or the scheduler does not change the story. */
  lemma SilentTells(s: Sys, t: Sys)
    requires SysShaped(s) && SysShaped(t) && StoryOk(s)
    requires t.k.procs == s.k.procs && t.pc == s.pc && t.story == s.story
    ensures StoryOk(t)
  {
    assert Answering(t) == Answering(s);
    forall c: nat | INIT <= c < |t.k.procs| ensures Matches(t, c, Answering(t), StageOf(|t.k.procs|, t.story, c)) {
      assert Matches(s, c, Answering(s), StageOf(|s.k.procs|, s.story, c));
    }
  }

  lemma AskStepTells(s: Sys, sv: nat, m: Ptr, r: Message)
    requires Good(s) && Can(s, Ask(sv, m, r))
    ensures StoryOk(Finish(Prepare(Intended, s, Ask(sv, m, r))))
  {
    var p := s.k.ready;
    var t := s.(k := Store(s.k, p, m, r));
    OwnMemoryKeeps(s, s.k.mem[p][m := r]);
    SilentTells(s, t);
    assert ClientOk(s, p, Debts(s, TASK_SYS), Debts(s, TASK_MM));
    NotAnswered(s, p);
    AsksTell(t, p, sv, m);
    assert Finish(Prepare(Intended, s, Ask(sv, m, r)))
        == Called(t.(pc := t.pc[p := Asked(sv, m)], story := t.story + [Requested(p, sv)]), Send(sv, m));
  }

  lemma AwaitStepTells(s: Sys)
    requires Good(s) && Can(s, Await)
    ensures StoryOk(Finish(Prepare(Intended, s, Await)))
  {
    var p := s.k.ready;
    assert p >= INIT;
    assert ClientOk(s, p, Debts(s, TASK_SYS), Debts(s, TASK_MM));
    forall z: nat | IsServer(z) && Sends(s.k.procs, z, p) ensures z == s.pc[p].server {
      assert p in Debts(s, z);
    }
    AwaitsTell(s, p, s.pc[p].server, s.pc[p].m);
    assert Finish(Prepare(Intended, s, Await)) == Called(s.(pc := s.pc[p := User]), Receive(s.pc[p].server, s.pc[p].m));
  }

  lemma ListenStepTells(s: Sys)
    requires Good(s) && Can(s, Listen)
    ensures StoryOk(Finish(Prepare(Intended, s, Listen)))
  {
    var sv := s.k.ready;
    if sv >= INIT {
      ClientsAsk(s, sv);
    }
    var t := s.(k := Store(s.k, sv, BUFFER, ZERO_MESSAGE));
    ClearingKeeps(s, sv);
    SilentTells(s, t);
    if |s.k.queues[sv]| > 0 {
      var f := s.k.queues[sv][0];
      assert f in s.k.queues[sv];
      SendersAreClients(s, f, sv);
      NotAnswered(s, f);
    }
    ListensTell(t, sv);
    assert Finish(Prepare(Intended, s, Listen))
        == Called(t.(pc := t.pc[sv := Handle]), Receive(Any(|s.k.procs|), BUFFER));
  }

  lemma OthersTell(s: Sys, a: Action)
    requires Good(s) && Can(s, a) && !a.Manage? && !a.Resume?
    ensures StoryOk(Finish(Prepare(Intended, s, a)))
  {
    match a
    case Compute(own) => SilentTells(s, Finish(Prepare(Intended, s, a)));
    case Ask(sv, m, r) => AskStepTells(s, sv, m, r);
    case Await => AwaitStepTells(s);
    case Listen => ListenStepTells(s);
    case Answer(ticks) => AnswerStepTells(s, ticks);
    case Clock => SilentTells(s, Finish(Prepare(Intended, s, a)));
  }

  lemma OthersKeepFamily(s: Sys, a: Action)
    requires Good(s) && Can(s, a) && !a.Manage? && !a.Resume?
    ensures FamilyOk(Finish(Prepare(Intended, s, a)))
  {
    var pr := Prepare(Intended, s, a);
    var t := Finish(pr);
    CallKeepsFamily(pr.k, pr.call);
    assert SameFamily(s.k.procs, t.k.procs);
    SameFamilyKeeps(s.k.procs, t.k.procs, s.pc[TASK_MM], t.pc[TASK_MM], RestOf(s.pc[TASK_MM]));
  }

  lemma StepKeepsGood(s: Sys, a: Action)
    requires Good(s) && Can(s, a)
    ensures CallSafe(Prepare(Intended, s, a)) && Good(Finish(Prepare(Intended, s, a)))
  {
    StepIsOk(s, a);
    match a
    case Manage(r, image) =>
      ManagerStepTells(s, a);
      ManagerFinishes(Prepare(Intended, s, a));
    case Resume =>
      ManagerStepTells(s, a);
      ManagerFinishes(Prepare(Intended, s, a));
    case _ =>
      OthersTell(s, a);
      OthersKeepFamily(s, a);
  }
}
