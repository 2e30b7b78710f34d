/** What the scheduler invariant means for every run of the server. */
module SchedulerTheorems {

  import opened Wrappers
  import opened GenerationSwitch
  import opened SchedulerSafety

  /** Not started or fully stopped, for all but one scheduler of the process. */
  ghost predicate AtMostOne(s: State) {
    forall i, j :: i in s.live && j in s.live ==> i == j
  }

  /** A generation never has two schedulers, whatever the environment does. */
  lemma OnePerGeneration(env: Env, acts: seq<Action>, s: State, i: nat, j: nat)
    requires Reaches(env, acts, s)
    requires i in s.live && j in s.live && s.live[i].gen == s.live[j].gen
    ensures i == j
  {
    RunKeeps(env, acts, s);
    assert InstanceOk(s, i) && InstanceOk(s, j);
    var g := s.live[i].gen;
    assert g < |s.ret| ==> OldOk(s, g);
  }

  /** Without unpaused activations, only the serving generation has one. */
  lemma OnlyServing(env: Env, acts: seq<Action>, s: State, i: nat)
    requires Reaches(env, acts, s) && !env.retry && i in s.live
    ensures s.live[i].gen == Cur(s)
  {
    RunKeeps(env, acts, s);
    assert InstanceOk(s, i);
    var g := s.live[i].gen;
    assert g < |s.ret| ==> OldOk(s, g);
  }

  lemma OneScheduler(env: Env, acts: seq<Action>, s: State)
    requires Reaches(env, acts, s) && !env.retry
    ensures AtMostOne(s)
  {
    forall i, j | i in s.live && j in s.live ensures i == j {
      OnlyServing(env, acts, s, i);
      OnlyServing(env, acts, s, j);
      OnePerGeneration(env, acts, s, i, j);
    }
  }

  /** A pause stops its own generation's scheduler in every environment. */
  lemma PauseStopsScheduler(env: Env, acts: seq<Action>, s: State, i: nat)
    requires Reaches(env, acts, s) && i in s.live
    requires s.save.Paused? || s.save.Thawing? || s.save.Releasing?
    ensures s.live[i].gen != s.save.gen
  {
    RunKeeps(env, acts, s);
    assert InstanceOk(s, i);
  }

  /** While a save holds the paused server and migrates, no scheduler runs at all. */
  lemma MigrationHasNoScheduler(env: Env, acts: seq<Action>, s: State)
    requires Reaches(env, acts, s) && !env.retry && s.save.Paused?
    ensures s.live == map[]
  {
    RunKeeps(env, acts, s);
    forall i | i in s.live ensures false {
      OnlyServing(env, acts, s, i);
      PauseStopsScheduler(env, acts, s, i);
    }
  }

  /**
    No lost scheduler: once no save is running and the last retirement has made
    its start call, the serving generation is not held and its scheduler runs,
    also when a pause overtook that retirement.
  */
  lemma NoLostScheduler(env: Env, acts: seq<Action>, s: State)
    requires Reaches(env, acts, s) && !env.binderFails
    requires s.save == Idle && (|s.ret| == 0 || PastStart(s.ret[|s.ret| - 1].pc))
    ensures 0 <= Cur(s) < |s.slots| && !s.slots[Cur(s)].held
    ensures s.slots[Cur(s)].running.Some?
    ensures var i := s.slots[Cur(s)].running.value;
            i in s.live && s.live[i] == Instance(Cur(s), false)
  {
    RunKeeps(env, acts, s);
    assert SlotOk(s, Cur(s));
  }

  // ----- every environment -----

  /** The retirement's haltScheduler call has returned. */
  ghost predicate PastHalt(pc: RetirePc) { PastTake(pc) && !pc.Stopping? }

  /** Every replaced generation that was activated without a pause has been halted. */
  ghost predicate UnpausedHalted(s: State) {
    forall k :: 0 <= k < |s.ret| && !s.ret[k].underPause ==> PastHalt(s.ret[k].pc)
  }

  /**
    In every environment, a replaced generation's scheduler runs only if it was
    activated without a pause and its retirement has not halted it yet.
  */
  lemma ReplacedSchedulerLives(env: Env, acts: seq<Action>, s: State, i: nat)
    requires Reaches(env, acts, s) && i in s.live
    ensures s.live[i].gen <= |s.ret| == Cur(s)
    ensures var k := s.live[i].gen;
            k < |s.ret| ==> !s.ret[k].underPause && !PastHalt(s.ret[k].pc)
  {
    RunKeeps(env, acts, s);
    assert InstanceOk(s, i);
    var k := s.live[i].gen;
    assert k < |s.ret| ==> OldOk(s, k);
  }

  /** So at most one scheduler runs once every unpaused retirement is past its halt. */
  lemma OneWhenHalted(env: Env, acts: seq<Action>, s: State)
    requires Reaches(env, acts, s) && UnpausedHalted(s)
    ensures AtMostOne(s)
    ensures s.save.Paused? ==> s.live == map[]
  {
    forall i, j | i in s.live && j in s.live ensures i == j {
      ReplacedSchedulerLives(env, acts, s, i);
      ReplacedSchedulerLives(env, acts, s, j);
      OnePerGeneration(env, acts, s, i, j);
    }
    if s.save.Paused? {
      RunKeeps(env, acts, s);
      forall i | i in s.live ensures false {
        ReplacedSchedulerLives(env, acts, s, i);
        PauseStopsScheduler(env, acts, s, i);
      }
    }
  }

  // ----- a stopped generation stays stopped -----

  lemma PastHaltIsStable(env: Env, s: State, a: Action, k: nat)
    requires Shape(s) && Ordered(s) && Enabled(env, s, a)
    requires k < |s.ret| && PastHalt(s.ret[k].pc)
    ensures k < |Apply(env, s, a).ret| && PastHalt(Apply(env, s, a).ret[k].pc)
  {
    if a.RequestStep? {
      assert Apply(env, s, a).ret == s.ret;
    }
  }

  lemma {:induction false} StaysHalted(
    env: Env, acts: seq<Action>, more: seq<Action>, s: State, t: State, k: nat)
    requires Reaches(env, acts, s) && Reaches(env, acts + more, t)
    requires k < |s.ret| && PastHalt(s.ret[k].pc)
    ensures k < |t.ret| && PastHalt(t.ret[k].pc)
  {
    if more == [] {
      assert acts + more == acts;
    } else {
      var last := |more| - 1;
      assert (acts + more)[..|acts + more| - 1] == acts + more[..last];
      var before := Exec(env, acts + more[..last]).value;
      StaysHalted(env, acts, more[..last], s, before, k);
      RunKeeps(env, acts + more[..last], before);
      PastHaltIsStable(env, before, more[last], k);
    }
  }

  /**
    Once retire has halted a replaced generation, no scheduler of it runs then
    or at any later point of the run: it is never started again.
  */
  lemma StoppedForGood(env: Env, acts: seq<Action>, more: seq<Action>, s: State, t: State, k: nat)
    requires Reaches(env, acts, s) && Reaches(env, acts + more, t)
    requires k < |s.ret| && PastHalt(s.ret[k].pc)
    ensures k < |t.ret| && PastHalt(t.ret[k].pc)
    ensures forall i :: i in t.live ==> t.live[i].gen != k
  {
    StaysHalted(env, acts, more, s, t, k);
    forall i | i in t.live ensures t.live[i].gen != k {
      ReplacedSchedulerLives(env, acts + more, t, i);
    }
  }

  // ----- the activation that is not made under a pause -----

  lemma Take1(env: Env, acts: seq<Action>, s: State, a: Action) returns (acts': seq<Action>, t: State)
    requires Reaches(env, acts, s) && Enabled(env, s, a)
    ensures acts' == acts + [a] && t == Apply(env, s, a) && Reaches(env, acts', t)
  {
    Extend(env, acts, s, a);
    acts', t := acts + [a], Apply(env, s, a);
  }

  /** Service.Retry migrates while the serving generation's scheduler runs. */
  lemma RetryMigratesBesideScheduler(env: Env) returns (acts: seq<Action>, s: State)
    requires env.retry
    ensures Reaches(env, acts, s) && s == INIT.(save := Remigrating(0))
  {
    acts, s := Take1(env, [], INIT, BeginRetry);
  }

  /** Then it swaps the serving generation; the old one keeps its scheduler. */
  lemma RetrySwapRun(env: Env) returns (acts: seq<Action>, s: State)
    requires env.retry
    ensures Reaches(env, acts, s)
    ensures s == State(
              [Gate(0, true, 0, false), Gate(0, false, 0, false)],
              [Slot(false, Some(0)), Slot(false, None)],
              [Retirement(Chained, false, false)], Idle,
              map[0 := Instance(0, false)], 1, map[], [])
  {
    acts, s := RetryMigratesBesideScheduler(env);
    acts, s := Take1(env, acts, s, SaveStep(true));    // migrated: swap
    acts, s := Take1(env, acts, s, SaveStep(false));   // old.retired
    acts, s := Take1(env, acts, s, SaveStep(false));   // spawn the retirement
  }

  /**
    Service.Retry activates without pausing. A later save then pauses the new
    generation and migrates while the old scheduler still runs, because the
    retirement has not halted it yet.
  */
  lemma RetryMigrationRun(env: Env) returns (acts: seq<Action>, s: State)
    requires env.retry
    ensures Reaches(env, acts, s)
    ensures s == State(
              [Gate(0, true, 0, false), Gate(0, false, 0, true)],
              [Slot(false, Some(0)), Slot(true, None)],
              [Retirement(Chained, false, false)], Paused(1),
              map[0 := Instance(0, false)], 1, map[], [])
  {
    acts, s := RetrySwapRun(env);
    acts, s := Take1(env, acts, s, BeginSave);
    acts, s := Take1(env, acts, s, SaveStep(false));   // freeze
    acts, s := Take1(env, acts, s, SaveStep(false));   // no writes
    acts, s := Take1(env, acts, s, SaveStep(false));   // take the empty slot
  }

  /**
    When that save then fails, its resume starts the new generation's scheduler
    beside the old one.
  */
  lemma RetryRun(env: Env) returns (acts: seq<Action>, s: State)
    requires env.retry
    ensures Reaches(env, acts, s)
    ensures s.save == Idle && s.live == map[0 := Instance(0, false), 1 := Instance(1, false)]
  {
    acts, s := RetryMigrationRun(env);
    acts, s := Take1(env, acts, s, SaveStep(false));   // the save failed: resume
    acts, s := Take1(env, acts, s, SaveStep(false));   // thaw
    acts, s := Take1(env, acts, s, SaveStep(false));   // release
    acts, s := Take1(env, acts, s, SaveStep(false));   // start
  }

  /** Two schedulers never run at once exactly when every activation is paused. */
  lemma OneSchedulerExactly(env: Env)
    ensures (forall acts, s :: Reaches(env, acts, s) ==> AtMostOne(s)) <==> !env.retry
  {
    if env.retry {
      var acts, s := RetryRun(env);
      assert 0 in s.live && 1 in s.live;
      assert Reaches(env, acts, s) && !AtMostOne(s);
    } else {
      forall acts, s | Reaches(env, acts, s) ensures AtMostOne(s) {
        OneScheduler(env, acts, s);
      }
    }
  }

  // ----- the guard that restores one scheduler -----

  /** Saves and retries begin only when every unpaused retirement is past its halt. */
  ghost predicate Guarded(env: Env, acts: seq<Action>) {
    forall i :: 0 <= i < |acts| && (acts[i].BeginSave? || acts[i].BeginRetry?) ==> BeginsHalted(env, acts[..i])
  }

  ghost predicate BeginsHalted(env: Env, acts: seq<Action>) {
    var s := Exec(env, acts);
    s.Some? && UnpausedHalted(s.value)
  }

  ghost predicate Settled(save: SavePc) { save.Idle? || Switching(save) }

  /** An unhalted unpaused generation is the last one replaced, and its successor runs nothing. */
  ghost predicate AloneUnhalted(s: State, k: nat)
    requires Shape(s) && k < |s.ret|
  {
    !s.ret[k].underPause && !PastHalt(s.ret[k].pc) ==>
      k + 1 == |s.ret| && Settled(s.save) && s.slots[k + 1].running.None?
  }

  ghost predicate GuardInv(s: State) { Shape(s) && forall k :: 0 <= k < |s.ret| ==> AloneUnhalted(s, k) }

  lemma SaveKeepsGuard(s: State, alt: bool, binderErr: bool)
    requires GuardInv(s) && SaveEnabled(s) && Ordered(s)
    ensures GuardInv(StepSave(s, alt, binderErr))
  {
    var t := StepSave(s, alt, binderErr);
    if s.save.Restarting? {
      StartShape(s, s.save.gen, binderErr);
    }
    forall k | 0 <= k < |t.ret| ensures AloneUnhalted(t, k) {
      assert k < |s.ret| ==> AloneUnhalted(s, k);
    }
  }

  lemma RetireKeepsGuard(s: State, j: nat, alt: bool, binderErr: bool)
    requires GuardInv(s) && RetireEnabled(s, j)
    ensures GuardInv(StepRetire(s, j, alt, binderErr))
  {
    var t := StepRetire(s, j, alt, binderErr);
    RetireSlots(s, j, alt, binderErr);
    forall k | 0 <= k < |t.ret| ensures AloneUnhalted(t, k) {
      assert AloneUnhalted(s, k);
    }
  }

  /** A retirement fills no slot but its successor's, and that only once it is past its halt. */
  lemma RetireSlots(s: State, j: nat, alt: bool, binderErr: bool)
    requires RetireEnabled(s, j)
    ensures var t := StepRetire(s, j, alt, binderErr);
            && |t.gates| == |s.gates| && |t.slots| == |s.slots| && |t.ret| == |s.ret| && t.save == s.save
            && t.ret[j].underPause == s.ret[j].underPause && t.ret == s.ret[j := t.ret[j]]
            && (PastHalt(s.ret[j].pc) ==> PastHalt(t.ret[j].pc))
            && (forall g :: 0 <= g < |s.slots| && s.slots[g].running.None? && t.slots[g].running.Some? ==>
                  g == j + 1 && PastHalt(s.ret[j].pc))
  {
    if s.ret[j].pc == HandingOver {
      StartShape(s, j + 1, binderErr);
    }
  }

  lemma StepKeepsGuard(env: Env, s: State, a: Action)
    requires GuardInv(s) && Ordered(s) && Enabled(env, s, a)
    requires a.BeginSave? || a.BeginRetry? ==> UnpausedHalted(s)
    ensures GuardInv(Apply(env, s, a))
  {
    match a
    case SaveStep(alt) => SaveKeepsGuard(s, alt, env.binderFails && alt);
    case RetireStep(j, alt) => RetireKeepsGuard(s, j, alt, env.binderFails && alt);
    case _ =>
      var t := Apply(env, s, a);
      assert t.ret == s.ret && t.slots == s.slots;
      forall k | 0 <= k < |t.ret| ensures AloneUnhalted(t, k) {
        assert AloneUnhalted(s, k);
      }
  }

  lemma {:induction false} GuardKept(env: Env, acts: seq<Action>, s: State)
    requires Reaches(env, acts, s) && Guarded(env, acts)
    ensures GuardInv(s)
  {
    if acts != [] {
      var last := |acts| - 1;
      var before := Exec(env, acts[..last]).value;
      forall i | 0 <= i < last && (acts[..last][i].BeginSave? || acts[..last][i].BeginRetry?)
        ensures BeginsHalted(env, acts[..last][..i])
      {
        assert acts[..last][..i] == acts[..i];
      }
      GuardKept(env, acts[..last], before);
      RunKeeps(env, acts[..last], before);
      StepKeepsGuard(env, before, acts[last]);
    }
  }

  /**
    With that guard on saves and retries, at most one scheduler ever runs, and none
    while a save migrates, also in runs where Service.Retry activates unpaused.
  */
  lemma GuardedRunsHaveOne(env: Env, acts: seq<Action>, s: State)
    requires Reaches(env, acts, s) && Guarded(env, acts)
    ensures AtMostOne(s)
    ensures s.save.Paused? ==> s.live == map[]
  {
    GuardKept(env, acts, s);
    if UnpausedHalted(s) {
      OneWhenHalted(env, acts, s);
    } else {
      var k :| 0 <= k < |s.ret| && !s.ret[k].underPause && !PastHalt(s.ret[k].pc);
      assert AloneUnhalted(s, k);
      forall i, j | i in s.live && j in s.live ensures i == j {
        LivesUnhalted(env, acts, s, k, i);
        LivesUnhalted(env, acts, s, k, j);
        OnePerGeneration(env, acts, s, i, j);
      }
    }
  }

  lemma LivesUnhalted(env: Env, acts: seq<Action>, s: State, k: nat, i: nat)
    requires Reaches(env, acts, s) && GuardInv(s) && i in s.live
    requires k < |s.ret| && !s.ret[k].underPause && !PastHalt(s.ret[k].pc)
    ensures s.live[i].gen == k
  {
    ReplacedSchedulerLives(env, acts, s, i);
    RunKeeps(env, acts, s);
    assert InstanceOk(s, i) && AloneUnhalted(s, k);
    var g := s.live[i].gen;
    assert g < |s.ret| ==> AloneUnhalted(s, g);
  }
}
