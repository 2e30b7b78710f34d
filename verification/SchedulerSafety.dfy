/**
  The scheduler half of the generation switch: which schedulers run, who may
  start or stop them, and when none may run at all.
*/
module SchedulerSafety {

  import opened Wrappers
  import opened GenerationSwitch

  // ----- the inductive invariant -----

  /** A pause has emptied g's slot and resume has not released it yet. */
  ghost predicate Window(save: SavePc, g: nat) {
    match save
    case Halting(h, halt) => h == g && !halt.Take?
    case Paused(h) => h == g
    case Thawing(h) => h == g
    case Releasing(h) => h == g
    case _ => false
  }

  ghost predicate HaltHolds(halt: Halt, i: nat) { halt == Cancel(i) || halt == Await(i) }

  ghost predicate SaveHolds(s: State, i: nat, g: nat) {
    s.save.Halting? && s.save.gen == g && HaltHolds(s.save.halt, i)
  }

  ghost predicate RetirementHolds(s: State, i: nat, g: nat) {
    g < |s.ret| && s.ret[g].pc.Stopping? && HaltHolds(s.ret[g].pc.halt, i)
  }

  /** haltScheduler has passed its critical section in this retirement. */
  ghost predicate PastTake(pc: RetirePc) {
    !pc.Unspawned? && !pc.Chained? && pc != Stopping(Take)
  }

  /** The retirement has made its startScheduler call. */
  ghost predicate PastStart(pc: RetirePc) {
    pc.Draining? || pc.Rechecking? || pc.Closing? || pc.Finished?
  }

  ghost predicate Begun(pc: RetirePc) { !pc.Unspawned? && !pc.Chained? }

  ghost predicate Switching(save: SavePc) { save.Storing? || save.Spawning? }

  /** Retirements run one at a time, in activation order. */
  ghost predicate Ordered(s: State)
    requires Shape(s)
  {
    && (forall j, k :: 0 <= j < k < |s.ret| && Begun(s.ret[k].pc) ==> s.ret[j].pc == Finished)
    && (forall k :: 0 <= k < |s.ret| ==>
          (s.ret[k].pc == Unspawned <==> Switching(s.save) && k + 1 == |s.ret|))
  }

  /** The scheduler a haltScheduler call holds is still the one it took. */
  ghost predicate HaltFits(s: State, halt: Halt, g: nat) {
    match halt
    case Take => true
    case Cancel(i) => i in s.live && s.live[i] == Instance(g, false)
    case Await(i) => i < s.nextInst && (i in s.live ==> s.live[i] == Instance(g, true))
  }

  /** A full slot names a live scheduler that nobody has cancelled. */
  ghost predicate SlotOk(s: State, g: nat)
    requires g < |s.slots|
  {
    s.slots[g].running.Some? ==>
      var i := s.slots[g].running.value;
      i in s.live && s.live[i] == Instance(g, false)
  }

  /** Every live scheduler is in its generation's slot or in a halt's hands. */
  ghost predicate InstanceOk(s: State, i: nat)
    requires i in s.live
  {
    var g := s.live[i].gen;
    && i < s.nextInst && g < |s.slots|
    && (s.slots[g].running == Some(i) || SaveHolds(s, i, g) || RetirementHolds(s, i, g))
  }

  /** A replaced generation: held for good once halted or activated paused. */
  ghost predicate OldOk(s: State, k: nat)
    requires k < |s.ret| && Shape(s)
  {
    && (PastTake(s.ret[k].pc) || s.ret[k].underPause ==> s.slots[k] == Slot(true, None))
    && (s.ret[k].pc.Stopping? ==>
          HaltFits(s, s.ret[k].pc.halt, k) && (s.ret[k].underPause ==> s.ret[k].pc.halt.Take?))
  }

  /** The serving generation: held, and empty, exactly during a pause. */
  ghost predicate CurOk(env: Env, s: State)
    requires Shape(s)
  {
    var slot := s.slots[|s.ret|];
    && (slot.held <==> Window(s.save, |s.ret|))
    && (slot.held ==> slot.running == None)
    && (s.save.Halting? ==> HaltFits(s, s.save.halt, s.save.gen))
    && (!env.binderFails && !slot.held && !s.save.Restarting?
        && (|s.ret| == 0 || PastStart(s.ret[|s.ret| - 1].pc))
        ==> slot.running.Some?)
  }

  ghost predicate SchedInv(env: Env, s: State) {
    && Shape(s) && Ordered(s) && CurOk(env, s)
    && (forall g :: 0 <= g < |s.slots| ==> SlotOk(s, g))
    && (forall i :: i in s.live ==> InstanceOk(s, i))
    && (forall k :: 0 <= k < |s.ret| ==> OldOk(s, k))
    && (!env.retry ==> !s.save.Remigrating? && forall k :: 0 <= k < |s.ret| ==> s.ret[k].underPause)
  }

  // ----- each action keeps it -----

  /** Steps that leave the slots and schedulers alone, and drop no live one. */
  ghost predicate SameSlots(s: State, t: State) {
    && Shape(s) && Shape(t)
    && t.slots == s.slots && t.live == s.live && t.nextInst == s.nextInst
    && |t.ret| == |s.ret|
    && (forall i, g :: i in s.live && SaveHolds(s, i, g) ==> SaveHolds(t, i, g))
    && (forall i, g :: i in s.live && RetirementHolds(s, i, g) ==> RetirementHolds(t, i, g))
  }

  lemma SameSlotsKeeps(s: State, t: State)
    requires SameSlots(s, t)
    requires forall g :: 0 <= g < |s.slots| ==> SlotOk(s, g)
    requires forall i :: i in s.live ==> InstanceOk(s, i)
    ensures forall g :: 0 <= g < |t.slots| ==> SlotOk(t, g)
    ensures forall i :: i in t.live ==> InstanceOk(t, i)
  {
    forall g | 0 <= g < |t.slots| ensures SlotOk(t, g) {
      assert SlotOk(s, g);
    }
    forall i | i in t.live ensures InstanceOk(t, i) {
      assert InstanceOk(s, i);
    }
  }

  lemma UnchangedKeeps(env: Env, s: State, t: State)
    requires SchedInv(env, s)
    requires t.slots == s.slots && t.live == s.live && t.nextInst == s.nextInst
    requires t.ret == s.ret && t.save == s.save && |t.gates| == |s.gates|
    ensures SchedInv(env, t)
  {
    SameSlotsKeeps(s, t);
    forall k | 0 <= k < |t.ret| ensures OldOk(t, k) {
      assert OldOk(s, k);
    }
  }

  lemma BeginKeeps(env: Env, s: State, save: SavePc)
    requires SchedInv(env, s) && s.save == Idle
    requires save == Freezing(Cur(s)) || (env.retry && save == Remigrating(Cur(s)))
    ensures SchedInv(env, s.(save := save))
  {
    var t := s.(save := save);
    SameSlotsKeeps(s, t);
    forall k | 0 <= k < |t.ret| ensures OldOk(t, k) {
      assert OldOk(s, k);
    }
  }

  lemma SwapKeeps(env: Env, s: State, underPause: bool)
    requires SchedInv(env, s)
    requires if underPause then s.save == Paused(|s.ret|) else s.save == Remigrating(|s.ret|) && env.retry
    ensures SchedInv(env, Swap(s, underPause))
  {
    var t := Swap(s, underPause);
    forall g | 0 <= g < |t.slots| ensures SlotOk(t, g) {
      assert g < |s.slots| ==> SlotOk(s, g);
    }
    forall i | i in t.live ensures InstanceOk(t, i) {
      assert i in s.live ==> InstanceOk(s, i);
    }
    forall k | 0 <= k < |t.ret| ensures OldOk(t, k) {
      assert k < |s.ret| ==> OldOk(s, k);
    }
  }

  lemma TakeKeeps(env: Env, s: State)
    requires SchedInv(env, s) && s.save.Halting? && s.save.halt.Take?
    ensures SchedInv(env, StepSave(s, false, false))
  {
    var t := StepSave(s, false, false);
    assert SlotOk(s, s.save.gen);
    forall g | 0 <= g < |t.slots| ensures SlotOk(t, g) {
      assert g < |s.slots| ==> SlotOk(s, g);
    }
    forall i | i in t.live ensures InstanceOk(t, i) {
      assert i in s.live ==> InstanceOk(s, i);
    }
    forall k | 0 <= k < |t.ret| ensures OldOk(t, k) {
      assert k < |s.ret| ==> OldOk(s, k);
    }
  }

  lemma CancelKeeps(env: Env, s: State)
    requires SchedInv(env, s) && s.save.Halting? && s.save.halt.Cancel?
    ensures SchedInv(env, StepSave(s, false, false))
  {
    var t := StepSave(s, false, false);
    assert InstanceOk(s, s.save.halt.inst);
    forall g | 0 <= g < |t.slots| ensures SlotOk(t, g) {
      assert g < |s.slots| ==> SlotOk(s, g);
    }
    forall i | i in t.live ensures InstanceOk(t, i) {
      assert i in s.live ==> InstanceOk(s, i);
    }
    forall k | 0 <= k < |t.ret| ensures OldOk(t, k) {
      assert k < |s.ret| ==> OldOk(s, k);
    }
  }

  lemma StartInstances(s: State, g: nat, binderErr: bool)
    requires Shape(s) && g < |s.slots|
    requires forall i :: i in s.live ==> InstanceOk(s, i)
    ensures var t := StartSlot(s, g, binderErr);
            forall i :: i in t.live ==> InstanceOk(t, i)
  {
    var t := StartSlot(s, g, binderErr);
    forall i | i in t.live ensures InstanceOk(t, i) {
      assert i in s.live ==> InstanceOk(s, i);
    }
  }

  /** startScheduler keeps the invariant for any generation it is given. */
  lemma StartKeeps(env: Env, s: State, g: nat, binderErr: bool)
    requires SchedInv(env, s) && g < |s.slots|
    ensures SchedInv(env, StartSlot(s, g, binderErr))
  {
    var t := StartSlot(s, g, binderErr);
    StartShape(s, g, binderErr);
    StartInstances(s, g, binderErr);
    assert s.nextInst in s.live ==> InstanceOk(s, s.nextInst);
    assert g < |s.ret| ==> OldOk(s, g);
    forall h | 0 <= h < |t.slots| ensures SlotOk(t, h) {
      assert SlotOk(s, h);
    }
    forall k | 0 <= k < |t.ret| ensures OldOk(t, k) {
      assert OldOk(s, k);
    }
  }

  lemma ReleaseKeeps(env: Env, s: State)
    requires SchedInv(env, s) && s.save.Releasing?
    ensures SchedInv(env, StepSave(s, false, false))
  {
    var t := StepSave(s, false, false);
    forall g | 0 <= g < |t.slots| ensures SlotOk(t, g) {
      assert SlotOk(s, g);
    }
    forall i | i in t.live ensures InstanceOk(t, i) {
      assert InstanceOk(s, i);
    }
    forall k | 0 <= k < |t.ret| ensures OldOk(t, k) {
      assert OldOk(s, k);
    }
  }

  /** A save step that touches no slot, scheduler or retirement. */
  lemma SaveMoveKeeps(env: Env, s: State, t: State)
    requires SchedInv(env, s) && SameSlots(s, t) && t.ret == s.ret
    requires Ordered(t) && CurOk(env, t) && !t.save.Remigrating?
    ensures SchedInv(env, t)
  {
    SameSlotsKeeps(s, t);
    forall k | 0 <= k < |t.ret| ensures OldOk(t, k) {
      assert OldOk(s, k);
    }
  }

  lemma RestartKeeps(env: Env, s: State, binderErr: bool)
    requires SchedInv(env, s) && s.save.Restarting? && (binderErr ==> env.binderFails)
    ensures SchedInv(env, StepSave(s, false, binderErr))
  {
    StartKeeps(env, s, s.save.gen, binderErr);
    var u := StartSlot(s, s.save.gen, binderErr);
    SaveMoveKeeps(env, u, u.(save := Idle));
  }

  lemma SpawnKeeps(env: Env, s: State)
    requires SchedInv(env, s) && s.save.Spawning?
    ensures SchedInv(env, StepSave(s, false, false))
  {
    var t := StepSave(s, false, false);
    SameSlotsKeeps(s, t);
    forall k | 0 <= k < |t.ret| ensures OldOk(t, k) {
      assert OldOk(s, k);
    }
  }

  lemma GateMoveShape(s: State, alt: bool)
    requires Shape(s)
    requires s.save.Freezing? || s.save.Counting? || s.save.GivingUp? || s.save.Storing?
    ensures var t := StepSave(s, alt, false);
            && Shape(t) && t.slots == s.slots && t.live == s.live && t.nextInst == s.nextInst && t.ret == s.ret
            && (Switching(t.save) <==> Switching(s.save)) && !t.save.Remigrating? && !t.save.Restarting?
            && (t.save.Halting? ==> t.save.halt.Take?)
            && !Window(t.save, |s.ret|)
  {
  }

  lemma GateMoveKeeps(env: Env, s: State, alt: bool)
    requires SchedInv(env, s)
    requires s.save.Freezing? || s.save.Counting? || s.save.GivingUp? || s.save.Storing?
    ensures SchedInv(env, StepSave(s, alt, false))
  {
    GateMoveShape(s, alt);
    SaveMoveKeeps(env, s, StepSave(s, alt, false));
  }

  lemma PauseMoveKeeps(env: Env, s: State)
    requires SchedInv(env, s) && SaveEnabled(s)
    requires s.save.Thawing? || s.save.Paused? || s.save.Remigrating? || (s.save.Halting? && s.save.halt.Await?)
    ensures SchedInv(env, StepSave(s, false, false))
  {
    SaveMoveKeeps(env, s, StepSave(s, false, false));
  }

  lemma SaveKeeps(env: Env, s: State, alt: bool)
    requires SchedInv(env, s) && SaveEnabled(s)
    ensures SchedInv(env, StepSave(s, alt, env.binderFails && alt))
  {
    match s.save
    case Halting(_, Take) => TakeKeeps(env, s);
    case Halting(_, Cancel(_)) => CancelKeeps(env, s);
    case Halting(_, Await(_)) => PauseMoveKeeps(env, s);
    case Paused(_) => if alt { SwapKeeps(env, s, true); } else { PauseMoveKeeps(env, s); }
    case Thawing(_) => PauseMoveKeeps(env, s);
    case Releasing(_) => ReleaseKeeps(env, s);
    case Restarting(_) => RestartKeeps(env, s, env.binderFails && alt);
    case Spawning(_) => SpawnKeeps(env, s);
    case Remigrating(_) => if alt { SwapKeeps(env, s, false); } else { PauseMoveKeeps(env, s); }
    case _ => GateMoveKeeps(env, s, alt);
  }

  /** The scheduler of a slot passes from it to the retirement that takes it. */
  lemma RetireTakeInstances(s: State, k: nat)
    requires Shape(s) && k < |s.ret| && s.ret[k].pc == Stopping(Take) && SlotOk(s, k)
    requires forall i :: i in s.live ==> InstanceOk(s, i)
    ensures forall i :: i in s.live ==> InstanceOk(StepRetire(s, k, false, false), i)
  {
    forall i | i in s.live ensures InstanceOk(StepRetire(s, k, false, false), i) {
      assert InstanceOk(s, i);
    }
  }

  lemma RetireTakeOld(s: State, k: nat)
    requires Shape(s) && k < |s.ret| && s.ret[k].pc == Stopping(Take) && SlotOk(s, k)
    requires forall j :: 0 <= j < |s.ret| ==> OldOk(s, j)
    ensures Shape(StepRetire(s, k, false, false))
    ensures forall j :: 0 <= j < |s.ret| ==> OldOk(StepRetire(s, k, false, false), j)
  {
    forall j | 0 <= j < |s.ret| ensures OldOk(StepRetire(s, k, false, false), j) {
      assert OldOk(s, j);
    }
  }

  lemma RetireTakeKeeps(env: Env, s: State, k: nat)
    requires SchedInv(env, s) && k < |s.ret| && s.ret[k].pc == Stopping(Take)
    ensures SchedInv(env, StepRetire(s, k, false, false))
  {
    var t := StepRetire(s, k, false, false);
    assert SlotOk(s, k);
    RetireTakeInstances(s, k);
    RetireTakeOld(s, k);
    forall g | 0 <= g < |t.slots| ensures SlotOk(t, g) {
      assert SlotOk(s, g);
    }
  }

  lemma RetireCancelKeeps(env: Env, s: State, k: nat)
    requires SchedInv(env, s) && k < |s.ret|
    requires s.ret[k].pc.Stopping? && s.ret[k].pc.halt.Cancel?
    ensures SchedInv(env, StepRetire(s, k, false, false))
  {
    var t := StepRetire(s, k, false, false);
    assert OldOk(s, k);
    forall g | 0 <= g < |t.slots| ensures SlotOk(t, g) {
      assert g < |s.slots| ==> SlotOk(s, g);
    }
    forall i | i in t.live ensures InstanceOk(t, i) {
      assert i in s.live ==> InstanceOk(s, i);
    }
    forall j | 0 <= j < |t.ret| ensures OldOk(t, j) {
      assert j < |s.ret| ==> OldOk(s, j);
    }
  }

  /** A retirement step that touches no slot or scheduler. */
  lemma RetireMoveKeeps(env: Env, s: State, t: State, k: nat)
    requires SchedInv(env, s) && SameSlots(s, t) && t.save == s.save && k < |s.ret|
    requires t.ret == s.ret[k := t.ret[k]]
    requires t.ret[k].underPause == s.ret[k].underPause
    requires t.ret[k].pc.Stopping? ==> t.ret[k].pc.halt.Take?
    requires PastTake(t.ret[k].pc) ==> PastTake(s.ret[k].pc)
    requires Ordered(t) && CurOk(env, t)
    ensures SchedInv(env, t)
  {
    SameSlotsKeeps(s, t);
    forall j | 0 <= j < |t.ret| ensures OldOk(t, j) {
      assert OldOk(s, j);
    }
  }

  lemma HandOverKeeps(env: Env, s: State, k: nat, binderErr: bool)
    requires SchedInv(env, s) && k < |s.ret| && s.ret[k].pc == HandingOver
    requires binderErr ==> env.binderFails
    ensures SchedInv(env, StepRetire(s, k, false, binderErr))
  {
    StartKeeps(env, s, k + 1, binderErr);
    StartShape(s, k + 1, binderErr);
    var u := StartSlot(s, k + 1, binderErr);
    StartFills(env, s, k + 1, binderErr);
    StartedMove(env, u, k);
  }

  /** After startScheduler a slot is filled, unless it is held or the binder failed. */
  lemma StartFills(env: Env, s: State, g: nat, binderErr: bool)
    requires g < |s.slots| && (binderErr ==> env.binderFails)
    ensures var slot := StartSlot(s, g, binderErr).slots[g];
            !env.binderFails && !slot.held ==> slot.running.Some?
  {
  }

  lemma StartedMove(env: Env, u: State, k: nat)
    requires SchedInv(env, u) && k < |u.ret| && u.ret[k].pc == HandingOver
    requires !env.binderFails && !u.slots[k + 1].held ==> u.slots[k + 1].running.Some?
    ensures SchedInv(env, AtRetirePc(u, k, Draining))
  {
    RetireMoveKeeps(env, u, AtRetirePc(u, k, Draining), k);
  }

  lemma ChainKeeps(env: Env, s: State, k: nat)
    requires SchedInv(env, s) && RetireEnabled(s, k)
    requires s.ret[k].pc.Chained? || (s.ret[k].pc.Stopping? && s.ret[k].pc.halt.Await?)
    ensures SchedInv(env, StepRetire(s, k, false, false))
  {
    var t := StepRetire(s, k, false, false);
    RetireMoveKeeps(env, s, t, k);
  }

  lemma DrainShape(s: State, k: nat, alt: bool)
    requires Shape(s) && RetireEnabled(s, k)
    requires s.ret[k].pc.Draining? || s.ret[k].pc.Rechecking? || s.ret[k].pc.Closing?
    ensures var t := StepRetire(s, k, alt, false);
            && Shape(t) && t.slots == s.slots && t.live == s.live && t.nextInst == s.nextInst && t.save == s.save
            && t.ret == s.ret[k := t.ret[k]] && t.ret[k].underPause == s.ret[k].underPause
            && PastStart(t.ret[k].pc)
  {
  }

  lemma DrainKeeps(env: Env, s: State, k: nat, alt: bool)
    requires SchedInv(env, s) && RetireEnabled(s, k)
    requires s.ret[k].pc.Draining? || s.ret[k].pc.Rechecking? || s.ret[k].pc.Closing?
    ensures SchedInv(env, StepRetire(s, k, alt, false))
  {
    DrainShape(s, k, alt);
    RetireMoveKeeps(env, s, StepRetire(s, k, alt, false), k);
  }

  lemma RetireKeeps(env: Env, s: State, k: nat, alt: bool)
    requires SchedInv(env, s) && RetireEnabled(s, k)
    ensures SchedInv(env, StepRetire(s, k, alt, env.binderFails && alt))
  {
    match s.ret[k].pc
    case Chained => ChainKeeps(env, s, k);
    case Stopping(Take) => RetireTakeKeeps(env, s, k);
    case Stopping(Cancel(_)) => RetireCancelKeeps(env, s, k);
    case Stopping(Await(_)) => ChainKeeps(env, s, k);
    case HandingOver => HandOverKeeps(env, s, k, env.binderFails && alt);
    case _ => DrainKeeps(env, s, k, alt);
  }

  lemma ExitKeeps(env: Env, s: State, i: nat)
    requires SchedInv(env, s) && i in s.live && s.live[i].cancelled
    ensures SchedInv(env, s.(live := s.live - {i}))
  {
    var t := s.(live := s.live - {i});
    forall g | 0 <= g < |t.slots| ensures SlotOk(t, g) {
      assert g < |s.slots| ==> SlotOk(s, g);
    }
    forall j | j in t.live ensures InstanceOk(t, j) {
      assert j in s.live ==> InstanceOk(s, j);
    }
    forall k | 0 <= k < |t.ret| ensures OldOk(t, k) {
      assert k < |s.ret| ==> OldOk(s, k);
    }
  }

  lemma StepKeeps(env: Env, s: State, a: Action)
    requires SchedInv(env, s) && Enabled(env, s, a)
    ensures SchedInv(env, Apply(env, s, a))
  {
    match a
    case Arrive(_, _) => UnchangedKeeps(env, s, Apply(env, s, a));
    case RequestStep(_) => UnchangedKeeps(env, s, Apply(env, s, a));
    case BeginSave => BeginKeeps(env, s, Freezing(Cur(s)));
    case BeginRetry => BeginKeeps(env, s, Remigrating(Cur(s)));
    case SaveStep(alt) => SaveKeeps(env, s, alt);
    case RetireStep(k, alt) => RetireKeeps(env, s, k, alt);
    case Exit(i) => ExitKeeps(env, s, i);
  }

  lemma {:induction false} RunKeeps(env: Env, acts: seq<Action>, s: State)
    requires Reaches(env, acts, s)
    ensures SchedInv(env, s)
  {
    if acts != [] {
      var last := |acts| - 1;
      var before := Exec(env, acts[..last]).value;
      RunKeeps(env, acts[..last], before);
      StepKeeps(env, before, acts[last]);
    }
  }
}
