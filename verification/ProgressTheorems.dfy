/**
  How long requests, saves and retirements can go on: apart from polls that find
  requests still running, every thread takes a bounded number of steps.
*/
module ProgressTheorems {

  import opened Wrappers
  import opened GenerationSwitch
  import opened SchedulerSafety
  import opened DrainSafety
  import opened DrainTheorems

  // ----- requests -----

  /** How often an action occurs in a run. */
  function Times(acts: seq<Action>, a: Action): nat {
    if acts == [] then 0
    else Times(acts[..|acts| - 1], a) + if acts[|acts| - 1] == a then 1 else 0
  }

  /** The steps of one pass through the ServeHTTP loop, up to here. */
  function PassSteps(q: Request): nat {
    match q.pc
    case LoadCur => 4
    case AddInflight => 1
    case ReadRetired => 2
    case AddWrites => 3
    case ReadFrozen => 4
    case InHandler => 5
    case SubWrites => 6
    case SubInflight => if q.served then 7 else 3
    case Done => 8
  }

  /** Four steps for each generation that had retired, and the pass under way. */
  function RequestBudget(q: Request): int {
    if q.tried == [] then 0 else 4 * (|q.tried| - 1) + PassSteps(q)
  }

  lemma BudgetStep(s: State, r: nat)
    requires Shape(s) && RequestEnabled(s, r) && RequestOk(s, s.reqs[r])
    ensures RequestBudget(StepRequest(s, r).reqs[r]) >= RequestBudget(s.reqs[r]) + 1
  {
  }

  lemma {:induction false} StepsWithinBudget(env: Env, acts: seq<Action>, s: State, r: nat)
    requires Reaches(env, acts, s)
    ensures Times(acts, RequestStep(r)) <= if r in s.reqs then RequestBudget(s.reqs[r]) else 0
  {
    if acts != [] {
      var last := |acts| - 1;
      var before := Exec(env, acts[..last]).value;
      StepsWithinBudget(env, acts[..last], before, r);
      DrainSafety.RunKeeps(env, acts[..last], before);
      BudgetKept(env, before, acts[last], r);
    }
  }

  lemma BudgetKept(env: Env, s: State, a: Action, r: nat)
    requires GateInv(s) && Enabled(env, s, a)
    ensures var t := Apply(env, s, a);
            && (r in s.reqs ==>
                  r in t.reqs
                  && RequestBudget(t.reqs[r]) >= RequestBudget(s.reqs[r]) + if a == RequestStep(r) then 1 else 0)
            && (r !in s.reqs ==> a != RequestStep(r))
            && (r !in s.reqs && r in t.reqs ==> RequestBudget(t.reqs[r]) == 0)
  {
    match a
    case RequestStep(o) =>
      assert RequestOk(s, s.reqs[o]);
      RequestCountsItself(s, o);
      if o == r {
        BudgetStep(s, r);
      }
    case SaveStep(alt) => SaveKeepsRequests(s, alt, env.binderFails && alt);
    case RetireStep(k, alt) => RetireShape(s, k, alt, env.binderFails && alt);
    case _ =>
  }

  lemma SaveKeepsRequests(s: State, alt: bool, binderErr: bool)
    requires SaveEnabled(s)
    ensures StepSave(s, alt, binderErr).reqs == s.reqs
  {
    if s.save.Restarting? {
      StartShape(s, s.save.gen, binderErr);
    }
  }

  /** A request takes at most four steps for each generation ever activated, and four more. */
  lemma RequestsAreBounded(env: Env, acts: seq<Action>, s: State, r: nat)
    requires Reaches(env, acts, s)
    ensures Times(acts, RequestStep(r)) <= 4 * |s.gates| + 4
  {
    StepsWithinBudget(env, acts, s, r);
    DrainSafety.RunKeeps(env, acts, s);
    if r in s.reqs {
      AnsweredOnce(env, acts, s, r);
    }
  }

  // ----- retirements -----

  /** A poll of the drain loop that found requests and time left. */
  ghost predicate IsDrainPoll(s: State, k: nat, alt: bool) {
    k < |s.ret| && k < |s.gates| && s.ret[k].pc == Draining && s.gates[k].inflight > 0 && !alt
  }

  /** The steps a retirement still has before it. */
  function RetireRank(pc: RetirePc): nat {
    match pc
    case Unspawned => 9
    case Chained => 8
    case Stopping(Take) => 7
    case Stopping(Cancel(_)) => 6
    case Stopping(Await(_)) => 5
    case HandingOver => 4
    case Draining => 3
    case Rechecking => 2
    case Closing => 1
    case Finished => 0
  }

  lemma RetireStepLowers(s: State, k: nat, alt: bool, binderErr: bool)
    requires RetireEnabled(s, k)
    ensures |StepRetire(s, k, alt, binderErr).ret| == |s.ret|
    ensures var t := StepRetire(s, k, alt, binderErr);
            if IsDrainPoll(s, k, alt) then t == s else RetireRank(t.ret[k].pc) < RetireRank(s.ret[k].pc)
  {
    if s.ret[k].pc == HandingOver {
      StartShape(s, k + 1, binderErr);
    }
  }

  // ----- saves -----

  /** A poll of pause that found writes and time left. */
  ghost predicate IsWritesPoll(s: State, alt: bool) {
    s.save.Counting? && s.save.gen < |s.gates| && s.gates[s.save.gen].writes > 0 && !alt
  }

  /** The steps a save still has before it. */
  function SaveRank(save: SavePc): nat {
    match save
    case Idle => 0
    case Spawning(_) => 1
    case Storing(_) => 2
    case Restarting(_) => 3
    case Releasing(_) => 4
    case Thawing(_) => 5
    case Paused(_) => 6
    case Halting(_, Await(_)) => 7
    case Halting(_, Cancel(_)) => 8
    case Halting(_, Take) => 9
    case GivingUp(_) => 9
    case Counting(_) => 10
    case Freezing(_) => 11
    case Remigrating(_) => 3
  }

  lemma SaveStepLowers(s: State, alt: bool, binderErr: bool)
    requires SaveEnabled(s)
    ensures var t := StepSave(s, alt, binderErr);
            if IsWritesPoll(s, alt) then t == s else SaveRank(t.save) < SaveRank(s.save)
  {
  }

  // ----- over a run -----

  /** The steps of retirement k that were not polls. */
  ghost function RetireWork(env: Env, acts: seq<Action>, k: nat): nat {
    if acts == [] then 0
    else
      var last := |acts| - 1;
      var before := Exec(env, acts[..last]);
      RetireWork(env, acts[..last], k)
      + if acts[last].RetireStep? && acts[last].k == k && before.Some?
           && !IsDrainPoll(before.value, k, acts[last].alt) then 1 else 0
  }

  lemma {:induction false} WorkWithinRank(env: Env, acts: seq<Action>, s: State, k: nat)
    requires Reaches(env, acts, s)
    ensures k < |s.ret| ==> RetireWork(env, acts, k) + RetireRank(s.ret[k].pc) <= 9
    ensures k >= |s.ret| ==> RetireWork(env, acts, k) == 0
  {
    if acts != [] {
      var last := |acts| - 1;
      var before := Exec(env, acts[..last]).value;
      WorkWithinRank(env, acts[..last], before, k);
      DrainSafety.RunKeeps(env, acts[..last], before);
      SchedulerSafety.RunKeeps(env, acts[..last], before);
      RankKept(env, before, acts[last], k);
    }
  }

  lemma RankKept(env: Env, s: State, a: Action, k: nat)
    requires GateInv(s) && Ordered(s) && Enabled(env, s, a)
    ensures var t := Apply(env, s, a);
            var work := if a.RetireStep? && a.k == k && !IsDrainPoll(s, k, a.alt) then 1 else 0;
            && (k < |s.ret| ==> k < |t.ret| && RetireRank(t.ret[k].pc) + work <= RetireRank(s.ret[k].pc))
            && (k >= |s.ret| ==> work == 0 && (k < |t.ret| ==> RetireRank(t.ret[k].pc) <= 9))
  {
    match a
    case RequestStep(r) =>
      assert RequestOk(s, s.reqs[r]);
      RequestCountsItself(s, r);
    case SaveStep(alt) => SaveKeepsRanks(s, alt, env.binderFails && alt, k);
    case RetireStep(j, alt) =>
      RetireStepLowers(s, j, alt, env.binderFails && alt);
      RetireShape(s, j, alt, env.binderFails && alt);
    case _ =>
  }

  lemma SaveKeepsRanks(s: State, alt: bool, binderErr: bool, k: nat)
    requires SaveEnabled(s) && Ordered(s)
    ensures var t := StepSave(s, alt, binderErr);
            k < |s.ret| ==> k < |t.ret| && RetireRank(t.ret[k].pc) <= RetireRank(s.ret[k].pc)
  {
    if s.save.Restarting? {
      StartShape(s, s.save.gen, binderErr);
    }
  }

  /** Besides polls that find requests still in flight, a retirement takes at most nine steps. */
  lemma RetirementsAreBounded(env: Env, acts: seq<Action>, s: State, k: nat)
    requires Reaches(env, acts, s)
    ensures RetireWork(env, acts, k) <= 9
  {
    WorkWithinRank(env, acts, s, k);
  }

  /** The steps of saves and of Retry that were not polls. */
  ghost function SaveWork(env: Env, acts: seq<Action>): nat {
    if acts == [] then 0
    else
      var last := |acts| - 1;
      var before := Exec(env, acts[..last]);
      SaveWork(env, acts[..last])
      + if acts[last].SaveStep? && before.Some? && !IsWritesPoll(before.value, acts[last].alt) then 1 else 0
  }

  lemma SaveUntouched(env: Env, s: State, a: Action)
    requires Enabled(env, s, a) && !a.SaveStep? && !a.BeginSave? && !a.BeginRetry?
    ensures Apply(env, s, a).save == s.save
  {
    match a
    case RetireStep(k, alt) =>
      if s.ret[k].pc == HandingOver {
        StartShape(s, k + 1, env.binderFails && alt);
      }
    case _ =>
  }

  /** What beginning a save or a Retry adds to the steps ahead. */
  function Allowance(a: Action): nat { if a.BeginSave? then 11 else if a.BeginRetry? then 3 else 0 }

  lemma SaveRankKept(env: Env, s: State, a: Action)
    requires Enabled(env, s, a)
    ensures var work := if a.SaveStep? && !IsWritesPoll(s, a.alt) then 1 else 0;
            SaveRank(Apply(env, s, a).save) + work <= SaveRank(s.save) + Allowance(a)
  {
    match a
    case SaveStep(alt) => SaveStepLowers(s, alt, env.binderFails && alt);
    case BeginSave =>
    case BeginRetry =>
    case _ => SaveUntouched(env, s, a);
  }

  /** Besides polls that find writes still running, a save takes at most eleven steps, and a Retry three. */
  lemma {:induction false} SavesAreBounded(env: Env, acts: seq<Action>, s: State)
    requires Reaches(env, acts, s)
    ensures SaveWork(env, acts) + SaveRank(s.save) <= 11 * Times(acts, BeginSave) + 3 * Times(acts, BeginRetry)
  {
    if acts != [] {
      var last := |acts| - 1;
      var before := Exec(env, acts[..last]).value;
      SavesAreBounded(env, acts[..last], before);
      SaveRankKept(env, before, acts[last]);
      TimesNext(acts);
    }
  }

  lemma TimesNext(acts: seq<Action>)
    requires acts != []
    ensures var start := acts[..|acts| - 1];
            11 * Times(acts, BeginSave) + 3 * Times(acts, BeginRetry)
            == 11 * Times(start, BeginSave) + 3 * Times(start, BeginRetry) + Allowance(acts[|acts| - 1])
  {
  }
}
