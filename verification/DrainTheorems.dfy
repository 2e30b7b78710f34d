/** What the request invariant means for every run of the server. */
module DrainTheorems {

  import opened Wrappers
  import opened GenerationSwitch
  import opened SchedulerSafety
  import SchedulerTheorems
  import opened DrainSafety

  // ----- requests -----

  /**
    A request is answered at most once, and exactly once when it is done: by the
    handler of the last generation it tried, or by one 503 if it may write. The
    generations it tries strictly increase, so it retries fewer times than
    generations were activated.
  */
  lemma AnsweredOnce(env: Env, acts: seq<Action>, s: State, r: nat)
    requires Reaches(env, acts, s) && r in s.reqs
    ensures |s.reqs[r].answers| <= 1
    ensures s.reqs[r].pc == Done ==>
              && s.reqs[r].tried != []
              && var last := s.reqs[r].tried[|s.reqs[r].tried| - 1];
                 || s.reqs[r].answers == [Handled(last)]
                 || (s.reqs[r].answers == [Refused(last)] && s.reqs[r].mayWrite)
    ensures Increasing(s.reqs[r].tried) && |s.reqs[r].tried| <= |s.gates|
  {
    DrainSafety.RunKeeps(env, acts, s);
    assert RequestOk(s, s.reqs[r]);
    var tried := s.reqs[r].tried;
    if tried != [] {
      IncreasingBound(tried, |tried| - 1);
    }
  }

  lemma {:induction false} IncreasingBound(tried: seq<nat>, i: nat)
    requires Increasing(tried) && i < |tried|
    ensures i <= tried[i]
  {
    if i > 0 {
      IncreasingBound(tried, i - 1);
    }
  }

  // ----- drain -----

  lemma DrainedIsStable(env: Env, s: State, a: Action, k: nat)
    requires Shape(s) && Enabled(env, s, a) && k < |s.ret| && s.ret[k].drained
    ensures k < |Apply(env, s, a).ret| && Apply(env, s, a).ret[k].drained
  {
    if a.RequestStep? {
      assert Apply(env, s, a).ret == s.ret;
    }
  }

  /**
    If a retirement read inflight = 0, then no request is inside that
    generation's handler, or can still get there, then or ever after.
  */
  lemma {:induction false} DrainedForGood(
    env: Env, acts: seq<Action>, more: seq<Action>, s: State, t: State, k: nat)
    requires Reaches(env, acts, s) && Reaches(env, acts + more, t)
    requires k < |s.ret| && s.ret[k].drained
    ensures k < |t.ret| && t.ret[k].drained
    ensures forall r :: r in t.reqs ==> !Admitted(t.reqs[r], k)
  {
    DrainSafety.RunKeeps(env, acts + more, t);
    if more == [] {
      assert acts + more == acts;
    } else {
      var last := |more| - 1;
      assert (acts + more)[..|acts + more| - 1] == acts + more[..last];
      var before := Exec(env, acts + more[..last]).value;
      DrainedForGood(env, acts, more[..last], s, before, k);
      DrainSafety.RunKeeps(env, acts + more[..last], before);
      DrainedIsStable(env, before, more[last], k);
    }
    forall r | r in t.reqs ensures !Admitted(t.reqs[r], k) {
      assert Excluded(t, t.reqs[r]);
    }
  }

  // ----- closing -----

  /** Close has run for exactly the finished retirements, in their order. */
  ghost predicate ClosesInv(s: State) {
    && |s.closes| <= |s.ret|
    && (forall i :: 0 <= i < |s.closes| ==> s.closes[i] == i)
    && (forall k :: 0 <= k < |s.ret| ==> (s.ret[k].pc == Finished <==> k < |s.closes|))
  }

  lemma CloseKeeps(s: State, k: nat)
    requires Shape(s) && Ordered(s) && ClosesInv(s)
    requires k < |s.ret| && s.ret[k].pc == Closing
    ensures ClosesInv(StepRetire(s, k, false, false))
  {
    assert k > 0 ==> s.ret[k - 1].pc == Finished;
    assert k == |s.closes|;
  }

  lemma ClosesStep(env: Env, s: State, a: Action)
    requires Shape(s) && Ordered(s) && ClosesInv(s) && Enabled(env, s, a)
    ensures ClosesInv(Apply(env, s, a))
  {
    var t := Apply(env, s, a);
    match a
    case RequestStep(_) => assert t.ret == s.ret && t.closes == s.closes;
    case RetireStep(k, alt) =>
      if s.ret[k].pc == Closing {
        CloseKeeps(s, k);
      } else {
        RetireCloses(s, k, alt, env.binderFails && alt);
      }
    case SaveStep(alt) => SaveCloses(s, alt, env.binderFails && alt);
    case _ =>
  }

  lemma RetireCloses(s: State, k: nat, alt: bool, binderErr: bool)
    requires RetireEnabled(s, k) && s.ret[k].pc != Closing && ClosesInv(s)
    ensures ClosesInv(StepRetire(s, k, alt, binderErr))
  {
    var t := StepRetire(s, k, alt, binderErr);
    if s.ret[k].pc == HandingOver {
      StartShape(s, k + 1, binderErr);
    }
    assert t.closes == s.closes && t.ret == s.ret[k := t.ret[k]] && t.ret[k].pc != Finished;
  }

  lemma SaveCloses(s: State, alt: bool, binderErr: bool)
    requires SaveEnabled(s) && ClosesInv(s) && Ordered(s)
    ensures ClosesInv(StepSave(s, alt, binderErr))
  {
    var t := StepSave(s, alt, binderErr);
    if s.save.Restarting? {
      StartShape(s, s.save.gen, binderErr);
    }
    assert t.closes == s.closes;
  }

  lemma {:induction false} ClosesKept(env: Env, acts: seq<Action>, s: State)
    requires Reaches(env, acts, s)
    ensures ClosesInv(s)
  {
    if acts != [] {
      var last := |acts| - 1;
      var before := Exec(env, acts[..last]).value;
      ClosesKept(env, acts[..last], before);
      SchedulerSafety.RunKeeps(env, acts[..last], before);
      ClosesStep(env, before, acts[last]);
    }
  }

  /**
    Generations are closed in activation order, each once, and the serving one
    never; a closed generation runs no scheduler; and a request is inside a
    closed generation only when its retirement gave up at the drain deadline.
  */
  lemma ClosedInOrder(env: Env, acts: seq<Action>, s: State)
    requires Reaches(env, acts, s)
    ensures forall i :: 0 <= i < |s.closes| ==> s.closes[i] == i && i < Cur(s)
    ensures forall i :: i in s.live ==> s.live[i].gen !in s.closes
    ensures forall r :: r in s.reqs && s.reqs[r].pc == InHandler && s.reqs[r].gen in s.closes ==>
              s.reqs[r].gen < |s.ret| && !s.ret[s.reqs[r].gen].drained
  {
    ClosesKept(env, acts, s);
    SchedulerSafety.RunKeeps(env, acts, s);
    DrainSafety.RunKeeps(env, acts, s);
    forall i | i in s.live ensures s.live[i].gen !in s.closes {
      var g := s.live[i].gen;
      assert InstanceOk(s, i);
      assert g < |s.ret| ==> OldOk(s, g);
    }
    forall r | r in s.reqs && s.reqs[r].pc == InHandler && s.reqs[r].gen in s.closes
      ensures s.reqs[r].gen < |s.ret| && !s.ret[s.reqs[r].gen].drained
    {
      assert Excluded(s, s.reqs[r]);
    }
  }

  // ----- pause -----

  /**
    From pause reading writes = 0 until resume clears frozen, and for ever once
    the paused generation is replaced, no record write is inside its handler.
  */
  lemma PauseExcludesWriters(env: Env, acts: seq<Action>, s: State, r: nat)
    requires Reaches(env, acts, s) && r in s.reqs
    requires s.reqs[r].pc == InHandler && s.reqs[r].mayWrite
    ensures !Sealed(s, s.reqs[r].gen)
  {
    DrainSafety.RunKeeps(env, acts, s);
    assert Excluded(s, s.reqs[r]);
  }

  /** A migration runs alone: no scheduler, and no record write in any generation. */
  ghost predicate MigrationAlone(s: State) {
    s.save.Paused? || s.save.Remigrating? ==>
      && s.live == map[]
      && (forall r :: r in s.reqs ==> !(s.reqs[r].pc == InHandler && s.reqs[r].mayWrite))
  }

  lemma MigrationRunsAlone(env: Env, acts: seq<Action>, s: State)
    requires Reaches(env, acts, s) && !env.retry
    ensures MigrationAlone(s)
  {
    SchedulerSafety.RunKeeps(env, acts, s);
    if s.save.Paused? {
      SchedulerTheorems.MigrationHasNoScheduler(env, acts, s);
      DrainSafety.RunKeeps(env, acts, s);
      forall r | r in s.reqs ensures !(s.reqs[r].pc == InHandler && s.reqs[r].mayWrite) {
        assert Excluded(s, s.reqs[r]) && RequestOk(s, s.reqs[r]);
      }
    }
  }

  /**
    Records are migrated alone in every run exactly when every migration and
    activation is made under a pause, which Service.Retry does not do.
  */
  lemma MigrationAloneExactly(env: Env)
    ensures (forall acts, s :: Reaches(env, acts, s) ==> MigrationAlone(s)) <==> !env.retry
  {
    if env.retry {
      var acts, s := SchedulerTheorems.RetryMigratesBesideScheduler(env);
      assert 0 in s.live;
      assert Reaches(env, acts, s) && !MigrationAlone(s);
    } else {
      forall acts, s | Reaches(env, acts, s) ensures MigrationAlone(s) {
        MigrationRunsAlone(env, acts, s);
      }
    }
  }

  // ----- no deadlock -----

  ghost predicate CanExit(s: State, i: nat) { i in s.live && s.live[i].cancelled }

  ghost predicate CanMove(s: State, k: nat) {
    RetireEnabled(s, k) || exists i :: CanExit(s, i)
  }

  /**
    Something can always move: every unanswered request can step; a running
    save can step or its cancelled scheduler can exit; and when a retirement is
    unfinished, some retirement up to it can step or the scheduler it waits for
    can exit.
  */
  lemma NoDeadlock(env: Env, acts: seq<Action>, s: State)
    requires Reaches(env, acts, s)
    ensures forall r :: r in s.reqs && s.reqs[r].pc != Done ==> RequestEnabled(s, r)
    ensures s.save != Idle ==> SaveEnabled(s) || exists i :: CanExit(s, i)
    ensures forall k :: 0 <= k < |s.ret| && s.ret[k].pc != Finished && s.ret[k].pc != Unspawned ==>
              exists j :: 0 <= j <= k && CanMove(s, j)
  {
    SchedulerSafety.RunKeeps(env, acts, s);
    DrainSafety.RunKeeps(env, acts, s);
    forall r | r in s.reqs && s.reqs[r].pc != Done ensures RequestEnabled(s, r) {
      assert RequestOk(s, s.reqs[r]);
    }
    if s.save.Halting? && s.save.halt.Await? && s.save.halt.inst in s.live {
      assert CanExit(s, s.save.halt.inst);
    }
    forall k | 0 <= k < |s.ret| && s.ret[k].pc != Finished && s.ret[k].pc != Unspawned
      ensures exists j :: 0 <= j <= k && CanMove(s, j)
    {
      HeadMoves(env, s, k);
    }
  }

  lemma {:induction false} HeadMoves(env: Env, s: State, k: nat)
    requires SchedInv(env, s) && k < |s.ret|
    requires s.ret[k].pc != Finished && s.ret[k].pc != Unspawned
    ensures exists j :: 0 <= j <= k && CanMove(s, j)
  {
    assert OldOk(s, k);
    if s.ret[k].pc == Chained && k > 0 && s.ret[k - 1].pc != Finished {
      HeadMoves(env, s, k - 1);
    } else {
      if !RetireEnabled(s, k) {
        assert CanExit(s, s.ret[k].pc.halt.inst);
      }
      assert CanMove(s, k);
    }
  }
}
