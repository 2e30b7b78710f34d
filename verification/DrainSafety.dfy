/**
  The request half of the generation switch: the two "count up, then read the
  flag" handshakes, and what a drained or paused generation can rely on.
*/
module DrainSafety {

  import opened Wrappers
  import opened GenerationSwitch

  // ----- who is counted -----

  predicate CountsInflight(q: Request, g: nat) {
    && q.gen == g
    && q.pc in {ReadRetired, AddWrites, ReadFrozen, InHandler, SubWrites, SubInflight}
  }

  predicate CountsWrites(q: Request, g: nat) {
    && q.gen == g
    && (q.pc in {ReadFrozen, SubWrites} || (q.pc == InHandler && q.mayWrite))
  }

  /** Past the retired check and not answered: may enter the handler, or is in it. */
  predicate Admitted(q: Request, g: nat) {
    q.gen == g && q.pc in {AddWrites, ReadFrozen, InHandler}
  }

  /** A record write inside g's handler. */
  predicate Writing(q: Request, g: nat) { q.gen == g && q.pc == InHandler && q.mayWrite }

  ghost function Inflight(reqs: map<nat, Request>, g: nat): set<nat> {
    set r | r in reqs && CountsInflight(reqs[r], g)
  }

  ghost function Writes(reqs: map<nat, Request>, g: nat): set<nat> {
    set r | r in reqs && CountsWrites(reqs[r], g)
  }

  function One(b: bool): nat { if b then 1 else 0 }

  lemma InflightStep(reqs: map<nat, Request>, r: nat, q: Request, g: nat)
    requires r in reqs
    ensures |Inflight(reqs[r := q], g)| + One(CountsInflight(reqs[r], g))
            == |Inflight(reqs, g)| + One(CountsInflight(q, g))
  {
    var others := Inflight(reqs, g) - {r};
    assert Inflight(reqs[r := q], g) == if CountsInflight(q, g) then others + {r} else others;
    assert Inflight(reqs, g) == if CountsInflight(reqs[r], g) then others + {r} else others;
  }

  lemma WritesStep(reqs: map<nat, Request>, r: nat, q: Request, g: nat)
    requires r in reqs
    ensures |Writes(reqs[r := q], g)| + One(CountsWrites(reqs[r], g))
            == |Writes(reqs, g)| + One(CountsWrites(q, g))
  {
    var others := Writes(reqs, g) - {r};
    assert Writes(reqs[r := q], g) == if CountsWrites(q, g) then others + {r} else others;
    assert Writes(reqs, g) == if CountsWrites(reqs[r], g) then others + {r} else others;
  }

  // ----- the inductive invariant -----

  ghost predicate Increasing(tried: seq<nat>) {
    forall i, j :: 0 <= i < j < |tried| ==> tried[i] < tried[j]
  }

  /** A request's own history: generations tried in order, answers given. */
  ghost predicate RequestOk(s: State, q: Request) {
    && Increasing(q.tried)
    && (q.pc == LoadCur ==>
          q.answers == [] && (q.tried != [] ==> q.tried[|q.tried| - 1] + 1 < |s.gates|))
    && (q.pc != LoadCur ==>
          q.tried != [] && q.tried[|q.tried| - 1] == q.gen && q.gen < |s.gates|)
    && (q.pc in {AddWrites, ReadFrozen, SubWrites} ==> q.mayWrite)
    && (q.pc in {AddInflight, ReadRetired, AddWrites, ReadFrozen, InHandler} ==> q.answers == [])
    && (q.pc == SubWrites ==> q.served)
    && (q.pc == SubInflight && !q.served ==> q.answers == [] && q.gen + 1 < |s.gates|)
    && (q.pc in {SubWrites, SubInflight, Done} && (q.pc != Done ==> q.served) ==>
          q.answers == [Handled(q.gen)] || (q.answers == [Refused(q.gen)] && q.mayWrite))
  }

  ghost predicate GateOk(s: State, g: nat)
    requires g < |s.gates|
  {
    && s.gates[g].inflight == |Inflight(s.reqs, g)|
    && s.gates[g].writes == |Writes(s.reqs, g)|
    && (s.gates[g].retired ==> g + 1 < |s.gates|)
  }

  /** The save has read writes = 0 on g and not cleared frozen since. */
  ghost predicate PauseHolds(save: SavePc, g: nat) {
    (save.Halting? || save.Paused? || save.Thawing?) && save.gen == g
  }

  ghost predicate Sealed(s: State, g: nat) {
    PauseHolds(s.save, g) || (g < |s.ret| && s.ret[g].underPause)
  }

  ghost predicate FrozenRight(s: State, g: nat)
    requires g < |s.gates|
  {
    Sealed(s, g) || s.save == Counting(g) || s.save == GivingUp(g) ==> s.gates[g].frozen
  }

  ghost predicate RetiredRight(s: State, k: nat)
    requires Shape(s) && k < |s.ret|
  {
    s.ret[k].pc != Unspawned || s.ret[k].drained || s.save == Spawning(k) ==> s.gates[k].retired
  }

  /** What no request may be doing any more. */
  ghost predicate Excluded(s: State, q: Request) {
    && (q.pc != LoadCur && Sealed(s, q.gen) ==> !Writing(q, q.gen))
    && (q.pc != LoadCur && q.gen < |s.ret| && s.ret[q.gen].drained ==> !Admitted(q, q.gen))
  }

  ghost predicate GateInv(s: State) {
    && Shape(s)
    && (forall g :: 0 <= g < |s.gates| ==> GateOk(s, g))
    && (forall g :: 0 <= g < |s.gates| ==> FrozenRight(s, g))
    && (forall k :: 0 <= k < |s.ret| ==> RetiredRight(s, k))
    && (forall r :: r in s.reqs ==> RequestOk(s, s.reqs[r]))
    && (forall r :: r in s.reqs ==> Excluded(s, s.reqs[r]))
  }

  // ----- request steps -----

  /** A request step counts exactly itself in or out, and sets no flag. */
  ghost predicate CountsItself(s: State, t: State, r: nat) {
    && r in s.reqs && r in t.reqs && t.reqs == s.reqs[r := t.reqs[r]]
    && t.ret == s.ret && t.save == s.save && t.slots == s.slots && |t.gates| == |s.gates|
    && (forall g :: 0 <= g < |s.gates| ==> CountsOn(s.gates[g], t.gates[g], s.reqs[r], t.reqs[r], g))
  }

  ghost predicate CountsOn(old': Gate, new': Gate, q: Request, q': Request, g: nat) {
    && new'.retired == old'.retired && new'.frozen == old'.frozen
    && new'.inflight + One(CountsInflight(q, g)) == old'.inflight + One(CountsInflight(q', g))
    && new'.writes + One(CountsWrites(q, g)) == old'.writes + One(CountsWrites(q', g))
  }

  lemma RequestCountsItself(s: State, r: nat)
    requires Shape(s) && RequestEnabled(s, r) && RequestOk(s, s.reqs[r])
    ensures CountsItself(s, StepRequest(s, r), r)
  {
    var t := StepRequest(s, r);
    assert t.reqs == s.reqs[r := t.reqs[r]];
    forall g | 0 <= g < |s.gates|
      ensures CountsOn(s.gates[g], t.gates[g], s.reqs[r], t.reqs[r], g)
    {
    }
  }

  lemma CountedStepKeeps(s: State, t: State, r: nat)
    requires GateInv(s) && CountsItself(s, t, r)
    requires RequestOk(t, t.reqs[r]) && Excluded(t, t.reqs[r])
    ensures GateInv(t)
  {
    forall g | 0 <= g < |t.gates| ensures GateOk(t, g) && FrozenRight(t, g) {
      InflightStep(s.reqs, r, t.reqs[r], g);
      WritesStep(s.reqs, r, t.reqs[r], g);
      assert CountsOn(s.gates[g], t.gates[g], s.reqs[r], t.reqs[r], g);
      assert GateOk(s, g) && FrozenRight(s, g);
    }
    forall k | 0 <= k < |t.ret| ensures RetiredRight(t, k) {
      assert RetiredRight(s, k);
      assert CountsOn(s.gates[k], t.gates[k], s.reqs[r], t.reqs[r], k);
    }
    forall o | o in t.reqs ensures RequestOk(t, t.reqs[o]) && Excluded(t, t.reqs[o]) {
      if o != r {
        assert RequestOk(s, s.reqs[o]) && Excluded(s, s.reqs[o]);
      }
    }
  }

  lemma RequestKeeps(s: State, r: nat)
    requires GateInv(s) && RequestEnabled(s, r)
    ensures GateInv(StepRequest(s, r))
  {
    assert RequestOk(s, s.reqs[r]);
    RequestCountsItself(s, r);
    OwnStepKeeps(s, r);
    CountedStepKeeps(s, StepRequest(s, r), r);
  }

  /** The stepping request itself: the flag it reads rules out what follows. */
  lemma OwnStepKeeps(s: State, r: nat)
    requires GateInv(s) && RequestEnabled(s, r)
    ensures var t := StepRequest(s, r);
            RequestOk(t, t.reqs[r]) && Excluded(t, t.reqs[r])
  {
    var q := s.reqs[r];
    assert RequestOk(s, q) && Excluded(s, q);
    assert q.pc != LoadCur ==> GateOk(s, q.gen);
    OwnStepOk(s, r);
    if q.pc != LoadCur {
      assert FrozenRight(s, q.gen);
      assert q.gen < |s.ret| ==> RetiredRight(s, q.gen);
      OwnStepExcluded(s, r);
    }
  }

  lemma OwnStepOk(s: State, r: nat)
    requires Shape(s) && RequestEnabled(s, r) && RequestOk(s, s.reqs[r])
    requires s.reqs[r].pc != LoadCur && s.gates[s.reqs[r].gen].retired ==> s.reqs[r].gen + 1 < |s.gates|
    ensures var t := StepRequest(s, r); RequestOk(t, t.reqs[r])
  {
    if s.reqs[r].pc == LoadCur {
      LoadOk(s, r);
    } else {
      assert StepRequest(s, r).reqs[r].tried == s.reqs[r].tried;
    }
  }

  lemma LoadOk(s: State, r: nat)
    requires Shape(s) && RequestEnabled(s, r) && RequestOk(s, s.reqs[r]) && s.reqs[r].pc == LoadCur
    ensures var t := StepRequest(s, r); RequestOk(t, t.reqs[r])
  {
    var tried := s.reqs[r].tried;
    assert StepRequest(s, r).reqs[r].tried == tried + [|s.gates| - 1];
  }

  lemma OwnStepExcluded(s: State, r: nat)
    requires Shape(s) && RequestEnabled(s, r) && s.reqs[r].pc != LoadCur
    requires RequestOk(s, s.reqs[r]) && Excluded(s, s.reqs[r]) && FrozenRight(s, s.reqs[r].gen)
    requires s.reqs[r].gen < |s.ret| ==> RetiredRight(s, s.reqs[r].gen)
    ensures var t := StepRequest(s, r); Excluded(t, t.reqs[r])
  {
  }

  lemma ArriveKeeps(s: State, r: nat, w: bool)
    requires GateInv(s) && r !in s.reqs
    ensures GateInv(s.(reqs := s.reqs[r := Request(w, LoadCur, 0, false, [], [])]))
  {
    var t := s.(reqs := s.reqs[r := Request(w, LoadCur, 0, false, [], [])]);
    forall g | 0 <= g < |t.gates| ensures GateOk(t, g) && FrozenRight(t, g) {
      assert GateOk(s, g) && FrozenRight(s, g);
      assert Inflight(t.reqs, g) == Inflight(s.reqs, g);
      assert Writes(t.reqs, g) == Writes(s.reqs, g);
    }
    forall k | 0 <= k < |t.ret| ensures RetiredRight(t, k) {
      assert RetiredRight(s, k);
    }
    forall o | o in t.reqs ensures RequestOk(t, t.reqs[o]) && Excluded(t, t.reqs[o]) {
      if o != r {
        assert RequestOk(s, s.reqs[o]) && Excluded(s, s.reqs[o]);
      }
    }
  }

  // ----- steps of saves and retirements -----

  /** A step that only closes gates: no count or request changes. */
  lemma GateStepKeeps(s: State, t: State)
    requires GateInv(s) && Shape(t) && t.reqs == s.reqs
    requires |t.gates| == |s.gates|
    requires forall g :: 0 <= g < |s.gates| ==>
      t.gates[g].inflight == s.gates[g].inflight && t.gates[g].writes == s.gates[g].writes
      && (t.gates[g].retired ==> s.gates[g].retired || g + 1 < |s.gates|)
    requires forall g :: 0 <= g < |t.gates| ==> FrozenRight(t, g)
    requires forall k :: 0 <= k < |t.ret| ==> RetiredRight(t, k)
    requires forall r :: r in t.reqs ==> Excluded(t, t.reqs[r])
    ensures GateInv(t)
  {
    forall g | 0 <= g < |t.gates| ensures GateOk(t, g) {
      assert GateOk(s, g);
    }
    forall r | r in t.reqs ensures RequestOk(t, t.reqs[r]) {
      assert RequestOk(s, s.reqs[r]);
    }
  }

  /** Reading a zero count proves that nobody it counts is left. */
  lemma ZeroMeansNone(s: State, g: nat)
    requires GateInv(s) && g < |s.gates|
    ensures s.gates[g].inflight <= 0 ==>
              forall r :: r in s.reqs ==> !Admitted(s.reqs[r], g)
    ensures s.gates[g].writes <= 0 ==>
              forall r :: r in s.reqs ==> !Writing(s.reqs[r], g)
  {
    assert GateOk(s, g);
    forall r | r in s.reqs
      ensures s.gates[g].inflight <= 0 ==> !Admitted(s.reqs[r], g)
      ensures s.gates[g].writes <= 0 ==> !Writing(s.reqs[r], g)
    {
      if s.gates[g].inflight <= 0 {
        assert r !in Inflight(s.reqs, g);
      }
      if s.gates[g].writes <= 0 {
        assert r !in Writes(s.reqs, g);
      }
    }
  }

  lemma FreezeKeeps(s: State, alt: bool)
    requires GateInv(s)
    requires s.save.Freezing? || s.save.GivingUp? || s.save.Thawing?
    ensures GateInv(StepSave(s, alt, false))
  {
    var t := StepSave(s, alt, false);
    forall g | 0 <= g < |t.gates| ensures FrozenRight(t, g) {
      assert FrozenRight(s, g);
    }
    forall k | 0 <= k < |t.ret| ensures RetiredRight(t, k) {
      assert RetiredRight(s, k);
    }
    forall r | r in t.reqs ensures Excluded(t, t.reqs[r]) {
      assert Excluded(s, s.reqs[r]);
    }
    GateStepKeeps(s, t);
  }

  lemma CountingKeeps(s: State, alt: bool)
    requires GateInv(s) && s.save.Counting?
    ensures GateInv(StepSave(s, alt, false))
  {
    var t := StepSave(s, alt, false);
    ZeroMeansNone(s, s.save.gen);
    forall g | 0 <= g < |t.gates| ensures FrozenRight(t, g) {
      assert FrozenRight(s, g);
    }
    forall k | 0 <= k < |t.ret| ensures RetiredRight(t, k) {
      assert RetiredRight(s, k);
    }
    forall r | r in t.reqs ensures Excluded(t, t.reqs[r]) {
      assert Excluded(s, s.reqs[r]);
    }
    GateStepKeeps(s, t);
  }

  /** A save step that keeps every gate and moves within or out of the pause. */
  lemma SaveMoveKeeps(s: State, t: State)
    requires GateInv(s) && Shape(t) && t.gates == s.gates && t.reqs == s.reqs && t.ret == s.ret
    requires !t.save.Counting? && !t.save.GivingUp? && !t.save.Spawning?
    requires forall g :: PauseHolds(t.save, g) ==> PauseHolds(s.save, g)
    ensures GateInv(t)
  {
    forall g | 0 <= g < |t.gates| ensures FrozenRight(t, g) {
      assert FrozenRight(s, g);
    }
    forall k | 0 <= k < |t.ret| ensures RetiredRight(t, k) {
      assert RetiredRight(s, k);
    }
    forall r | r in t.reqs ensures Excluded(t, t.reqs[r]) {
      assert Excluded(s, s.reqs[r]);
    }
    GateStepKeeps(s, t);
  }

  lemma StoreKeeps(s: State, alt: bool)
    requires GateInv(s) && (s.save.Storing? || s.save.Spawning?)
    ensures GateInv(StepSave(s, alt, false))
  {
    var t := StepSave(s, alt, false);
    assert s.save.Spawning? ==> RetiredRight(s, s.save.gen);
    forall g | 0 <= g < |t.gates| ensures FrozenRight(t, g) {
      assert FrozenRight(s, g);
    }
    forall k | 0 <= k < |t.ret| ensures RetiredRight(t, k) {
      assert RetiredRight(s, k);
    }
    forall r | r in t.reqs ensures Excluded(t, t.reqs[r]) {
      assert Excluded(s, s.reqs[r]);
    }
    GateStepKeeps(s, t);
  }

  lemma SwapKeeps(s: State, underPause: bool)
    requires GateInv(s)
    requires if underPause then s.save == Paused(|s.ret|) else s.save == Remigrating(|s.ret|)
    ensures GateInv(Swap(s, underPause))
  {
    var t := Swap(s, underPause);
    assert FrozenRight(s, |s.ret|);
    forall g | 0 <= g < |t.gates| ensures GateOk(t, g) && FrozenRight(t, g) {
      if g < |s.gates| {
        assert GateOk(s, g) && FrozenRight(s, g);
      } else {
        forall r | r in s.reqs ensures s.reqs[r].gen < g || s.reqs[r].pc == LoadCur {
          assert RequestOk(s, s.reqs[r]);
        }
        assert Inflight(t.reqs, g) == {} && Writes(t.reqs, g) == {};
      }
    }
    forall k | 0 <= k < |t.ret| ensures RetiredRight(t, k) {
      assert k < |s.ret| ==> RetiredRight(s, k);
    }
    forall r | r in t.reqs ensures RequestOk(t, t.reqs[r]) && Excluded(t, t.reqs[r]) {
      assert RequestOk(s, s.reqs[r]) && Excluded(s, s.reqs[r]);
    }
  }

  /** The save steps around haltScheduler and the migration, which touch no gate. */
  lemma HoldKeeps(s: State, alt: bool, binderErr: bool)
    requires GateInv(s) && SaveEnabled(s)
    requires s.save.Halting? || s.save.Releasing? || s.save.Restarting?
             || ((s.save.Paused? || s.save.Remigrating?) && !alt)
    ensures GateInv(StepSave(s, alt, binderErr))
  {
    var t := StepSave(s, alt, binderErr);
    HoldShape(s, alt, binderErr);
    SaveMoveKeeps(s, t);
  }

  lemma HoldShape(s: State, alt: bool, binderErr: bool)
    requires SaveEnabled(s)
    requires s.save.Halting? || s.save.Releasing? || s.save.Restarting?
             || ((s.save.Paused? || s.save.Remigrating?) && !alt)
    ensures var t := StepSave(s, alt, binderErr);
            && t.gates == s.gates && t.reqs == s.reqs && t.ret == s.ret && Shape(t)
            && !t.save.Counting? && !t.save.GivingUp? && !t.save.Spawning?
            && forall g :: PauseHolds(t.save, g) ==> PauseHolds(s.save, g)
  {
    if s.save.Restarting? {
      StartShape(s, s.save.gen, binderErr);
    }
  }

  lemma SaveKeeps(s: State, alt: bool, binderErr: bool)
    requires GateInv(s) && SaveEnabled(s)
    ensures GateInv(StepSave(s, alt, binderErr))
  {
    match s.save
    case Freezing(_) => FreezeKeeps(s, alt);
    case GivingUp(_) => FreezeKeeps(s, alt);
    case Thawing(_) => FreezeKeeps(s, alt);
    case Counting(_) => CountingKeeps(s, alt);
    case Storing(_) => StoreKeeps(s, alt);
    case Spawning(_) => StoreKeeps(s, alt);
    case Paused(_) => if alt { SwapKeeps(s, true); } else { HoldKeeps(s, alt, binderErr); }
    case Remigrating(_) => if alt { SwapKeeps(s, false); } else { HoldKeeps(s, alt, binderErr); }
    case _ => HoldKeeps(s, alt, binderErr);
  }

  /** drained is only ever set on a zero count of a retired generation. */
  lemma RetireKeeps(s: State, k: nat, alt: bool, binderErr: bool)
    requires GateInv(s) && RetireEnabled(s, k)
    ensures GateInv(StepRetire(s, k, alt, binderErr))
  {
    var t := StepRetire(s, k, alt, binderErr);
    RetireShape(s, k, alt, binderErr);
    ZeroMeansNone(s, k);
    assert RetiredRight(s, k);
    forall g | 0 <= g < |t.gates| ensures FrozenRight(t, g) {
      assert FrozenRight(s, g);
    }
    forall j | 0 <= j < |t.ret| ensures RetiredRight(t, j) {
      assert RetiredRight(s, j);
    }
    forall r | r in t.reqs ensures Excluded(t, t.reqs[r]) {
      assert Excluded(s, s.reqs[r]);
    }
    GateStepKeeps(s, t);
  }

  lemma RetireShape(s: State, k: nat, alt: bool, binderErr: bool)
    requires Shape(s) && RetireEnabled(s, k)
    ensures var t := StepRetire(s, k, alt, binderErr);
            && t.gates == s.gates && t.reqs == s.reqs && t.save == s.save && Shape(t)
            && t.ret == s.ret[k := t.ret[k]] && t.ret[k].pc != Unspawned
            && t.ret[k].underPause == s.ret[k].underPause
            && (t.ret[k].drained ==> s.ret[k].drained || s.gates[k].inflight <= 0)
  {
    var t := StepRetire(s, k, alt, binderErr);
    if s.ret[k].pc == HandingOver {
      StartShape(s, k + 1, binderErr);
    } else if s.ret[k].pc.Stopping? {
      StopShape(s, k);
    } else {
      QuietShape(s, k, alt);
    }
  }

  /** Waiting for the chain, draining and closing. */
  lemma QuietShape(s: State, k: nat, alt: bool)
    requires RetireEnabled(s, k) && !s.ret[k].pc.Stopping? && s.ret[k].pc != HandingOver
    ensures var t := StepRetire(s, k, alt, false);
            && t.gates == s.gates && t.reqs == s.reqs && t.save == s.save && t.slots == s.slots
            && t.ret == s.ret[k := t.ret[k]] && t.ret[k].pc != Unspawned
            && t.ret[k].underPause == s.ret[k].underPause
            && (t.ret[k].drained ==> s.ret[k].drained || s.gates[k].inflight <= 0)
  {
  }

  lemma StopShape(s: State, k: nat)
    requires RetireEnabled(s, k) && s.ret[k].pc.Stopping?
    ensures var t := StepRetire(s, k, false, false);
            && t.gates == s.gates && t.reqs == s.reqs && t.save == s.save && |t.slots| == |s.slots|
            && t.ret == s.ret[k := t.ret[k]] && (t.ret[k].pc.Stopping? || t.ret[k].pc == HandingOver)
            && t.ret[k].underPause == s.ret[k].underPause && t.ret[k].drained == s.ret[k].drained
  {
  }


  lemma StepKeeps(env: Env, s: State, a: Action)
    requires GateInv(s) && Enabled(env, s, a)
    ensures GateInv(Apply(env, s, a))
  {
    match a
    case Arrive(r, w) => ArriveKeeps(s, r, w);
    case RequestStep(r) => RequestKeeps(s, r);
    case BeginSave => SaveMoveKeeps(s, s.(save := Freezing(Cur(s))));
    case BeginRetry => SaveMoveKeeps(s, s.(save := Remigrating(Cur(s))));
    case SaveStep(alt) => SaveKeeps(s, alt, env.binderFails && alt);
    case RetireStep(k, alt) => RetireKeeps(s, k, alt, env.binderFails && alt);
    case Exit(i) => ExitKeeps(s, i);
  }

  lemma ExitKeeps(s: State, i: nat)
    requires GateInv(s) && i in s.live
    ensures GateInv(s.(live := s.live - {i}))
  {
    var t := s.(live := s.live - {i});
    forall g | 0 <= g < |t.gates| ensures FrozenRight(t, g) {
      assert FrozenRight(s, g);
    }
    forall k | 0 <= k < |t.ret| ensures RetiredRight(t, k) {
      assert RetiredRight(s, k);
    }
    forall r | r in t.reqs ensures Excluded(t, t.reqs[r]) {
      assert Excluded(s, s.reqs[r]);
    }
    GateStepKeeps(s, t);
  }

  lemma {:induction false} RunKeeps(env: Env, acts: seq<Action>, s: State)
    requires Reaches(env, acts, s)
    ensures GateInv(s)
  {
    if acts == [] {
      assert Inflight(s.reqs, 0) == {} && Writes(s.reqs, 0) == {};
    } else {
      var last := |acts| - 1;
      var before := Exec(env, acts[..last]).value;
      RunKeeps(env, acts[..last], before);
      StepKeeps(env, before, acts[last]);
    }
  }
}
