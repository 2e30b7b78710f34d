/**
  The generation switch of rela-server (cmd/rela-server/serve.go) as a
  transition system.

  Request threads, the one Configure save and the background retirements
  interleave freely. Every action is one atomic load, store or add, or one
  critical section under a generation's schedMu. Generations are numbered in
  activation order, so the serving generation is the last one.
*/
module GenerationSwitch {

  import opened Wrappers

  // ----- state -----

  /** The lock-free half of a generation: two counters and their flags. */
  datatype Gate = Gate(inflight: int, retired: bool, writes: int, frozen: bool)

  /** The half under schedMu. `running` is schedStop and schedDone together. */
  datatype Slot = Slot(held: bool, running: Option<nat>)

  /** One started scheduler, from its start until its done channel closes. */
  datatype Instance = Instance(gen: nat, cancelled: bool)

  datatype Answer = Handled(gen: nat) | Refused(gen: nat)

  datatype Pc =
    | LoadCur | AddInflight | ReadRetired | AddWrites | ReadFrozen
    | InHandler | SubWrites | SubInflight | Done

  /** A request thread. `tried` lists the generations it has loaded. */
  datatype Request = Request(
    mayWrite: bool, pc: Pc, gen: nat, served: bool, tried: seq<nat>, answers: seq<Answer>)

  /** Where a haltScheduler call stands; `inst` is the scheduler it took. */
  datatype Halt = Take | Cancel(inst: nat) | Await(inst: nat)

  datatype SavePc =
    | Idle
    | Freezing(gen: nat)              // pause: about to set frozen
    | Counting(gen: nat)              // pause: polling writes
    | GivingUp(gen: nat)              // pause: writes did not drain
    | Halting(gen: nat, halt: Halt)   // pause: haltScheduler
    | Paused(gen: nat)                // the save migrates records
    | Thawing(gen: nat)               // resume: about to clear frozen
    | Releasing(gen: nat)             // resume: about to clear held
    | Restarting(gen: nat)            // resume: about to start the scheduler
    | Storing(gen: nat)               // activate: cur swapped, retired not set
    | Spawning(gen: nat)              // activate: retired set, goroutine not started
    | Remigrating(gen: nat)           // Retry: migrating the records, nothing paused

  datatype RetirePc =
    | Unspawned | Chained | Stopping(halt: Halt) | HandingOver
    | Draining | Rechecking | Closing | Finished

  /** The retirement of generation k, which hands over to k + 1. */
  datatype Retirement = Retirement(pc: RetirePc, underPause: bool, drained: bool)

  datatype State = State(
    gates: seq<Gate>,
    slots: seq<Slot>,
    ret: seq<Retirement>,
    save: SavePc,
    live: map<nat, Instance>,
    nextInst: nat,
    reqs: map<nat, Request>,
    closes: seq<nat>)

  /**
    What the environment may do. `retry` lets Service.Retry migrate and activate
    without a pause (internal/configedit/service.go:358-386); `binderFails` lets
    startScheduler return early on an IdentityBinder error.
  */
  datatype Env = Env(retry: bool, binderFails: bool)

  /** `alt` resolves a thread's nondeterministic choice, such as a deadline. */
  datatype Action =
    | Arrive(req: nat, mayWrite: bool)
    | RequestStep(req: nat)
    | BeginSave
    | BeginRetry
    | SaveStep(alt: bool)
    | RetireStep(k: nat, alt: bool)
    | Exit(inst: nat)

  const INIT: State := State(
    [Gate(0, false, 0, false)], [Slot(false, Some(0))], [], Idle,
    map[0 := Instance(0, false)], 1, map[], [])

  ghost predicate Shape(s: State) {
    && |s.gates| == |s.slots| == |s.ret| + 1
    && match s.save
       case Idle => true
       case Storing(g) => g + 2 == |s.slots|
       case Spawning(g) => g + 2 == |s.slots|
       case _ => s.save.gen + 1 == |s.slots|
  }

  function Cur(s: State): int { |s.slots| - 1 }

  // ----- the two schedMu critical sections -----

  /** haltScheduler's critical section: empty the slot and hold it. */
  function TakeSlot(s: State, g: nat): State
    requires g < |s.slots|
  {
    s.(slots := s.slots[g := Slot(true, None)])
  }

  /** startScheduler: a no-op when held, running, or the binder failed. */
  function StartSlot(s: State, g: nat, binderErr: bool): State
    requires g < |s.slots|
  {
    if s.slots[g].held || s.slots[g].running.Some? || binderErr then s
    else s.(slots := s.slots[g := s.slots[g].(running := Some(s.nextInst))],
            live := s.live[s.nextInst := Instance(g, false)],
            nextInst := s.nextInst + 1)
  }

  lemma StartShape(s: State, g: nat, binderErr: bool)
    requires g < |s.slots|
    ensures var t := StartSlot(s, g, binderErr);
            t.gates == s.gates && t.reqs == s.reqs && t.save == s.save && t.ret == s.ret
            && |t.slots| == |s.slots|
  {
  }

  function CancelInstance(s: State, i: nat): State {
    if i in s.live then s.(live := s.live[i := s.live[i].(cancelled := true)]) else s
  }

  // ----- request threads -----

  ghost predicate RequestEnabled(s: State, r: nat) {
    && r in s.reqs
    && s.reqs[r].pc != Done
    && s.gates != []
    && (s.reqs[r].pc != LoadCur ==> s.reqs[r].gen < |s.gates|)
  }

  /** One step of ServeHTTP and generation.serve. */
  function StepRequest(s: State, r: nat): State
    requires RequestEnabled(s, r)
  {
    var q := s.reqs[r];
    match q.pc
    case LoadCur =>
      var g := |s.gates| - 1;
      s.(reqs := s.reqs[r := q.(pc := AddInflight, gen := g, tried := q.tried + [g])])
    case AddInflight =>
      var gate := s.gates[q.gen];
      s.(gates := s.gates[q.gen := gate.(inflight := gate.inflight + 1)],
         reqs := s.reqs[r := q.(pc := ReadRetired)])
    case ReadRetired =>
      s.(reqs := s.reqs[r :=
        if s.gates[q.gen].retired then q.(pc := SubInflight, served := false)
        else if q.mayWrite then q.(pc := AddWrites)
        else q.(pc := InHandler)])
    case AddWrites =>
      var gate := s.gates[q.gen];
      s.(gates := s.gates[q.gen := gate.(writes := gate.writes + 1)],
         reqs := s.reqs[r := q.(pc := ReadFrozen)])
    case ReadFrozen =>
      s.(reqs := s.reqs[r :=
        if s.gates[q.gen].frozen
        then q.(pc := SubWrites, served := true, answers := q.answers + [Refused(q.gen)])
        else q.(pc := InHandler)])
    case InHandler =>
      s.(reqs := s.reqs[r :=
        q.(pc := if q.mayWrite then SubWrites else SubInflight,
           served := true, answers := q.answers + [Handled(q.gen)])])
    case SubWrites =>
      var gate := s.gates[q.gen];
      s.(gates := s.gates[q.gen := gate.(writes := gate.writes - 1)],
         reqs := s.reqs[r := q.(pc := SubInflight)])
    case SubInflight =>
      var gate := s.gates[q.gen];
      s.(gates := s.gates[q.gen := gate.(inflight := gate.inflight - 1)],
         reqs := s.reqs[r := q.(pc := if q.served then Done else LoadCur)])
    case Done => s
  }

  // ----- the save -----

  /** activate's swap of cur, which also registers the retirement in the chain. */
  function Swap(s: State, underPause: bool): State
    requires |s.slots| > 0
  {
    s.(gates := s.gates + [Gate(0, false, 0, false)],
       slots := s.slots + [Slot(false, None)],
       ret := s.ret + [Retirement(Unspawned, underPause, false)],
       save := Storing(|s.slots| - 1))
  }

  ghost predicate SaveEnabled(s: State) {
    && Shape(s)
    && s.save != Idle
    && (s.save.Halting? && s.save.halt.Await? ==> s.save.halt.inst !in s.live)
  }

  /** One step of server.pause, its resume, Retry's migration, or server.activate. */
  function StepSave(s: State, alt: bool, binderErr: bool): State
    requires SaveEnabled(s)
  {
    match s.save
    case Freezing(g) =>
      s.(gates := s.gates[g := s.gates[g].(frozen := true)], save := Counting(g))
    case Counting(g) =>
      if s.gates[g].writes > 0 then s.(save := if alt then GivingUp(g) else Counting(g))
      else s.(save := Halting(g, Take))
    case GivingUp(g) =>
      s.(gates := s.gates[g := s.gates[g].(frozen := false)], save := Idle)
    case Halting(g, Take) =>
      TakeSlot(s, g).(save :=
        match s.slots[g].running
        case Some(i) => Halting(g, Cancel(i))
        case None => Paused(g))
    case Halting(g, Cancel(i)) => CancelInstance(s, i).(save := Halting(g, Await(i)))
    case Halting(g, Await(_)) => s.(save := Paused(g))
    case Paused(g) => if alt then Swap(s, true) else s.(save := Thawing(g))
    case Thawing(g) =>
      s.(gates := s.gates[g := s.gates[g].(frozen := false)], save := Releasing(g))
    case Releasing(g) =>
      s.(slots := s.slots[g := s.slots[g].(held := false)], save := Restarting(g))
    case Restarting(g) => StartSlot(s, g, binderErr).(save := Idle)
    case Storing(g) =>
      s.(gates := s.gates[g := s.gates[g].(retired := true)], save := Spawning(g))
    case Remigrating(_) => if alt then Swap(s, false) else s.(save := Idle)
    case Spawning(g) =>
      s.(ret := s.ret[g := s.ret[g].(pc := Chained)], save := Idle)
    case Idle => s
  }

  // ----- retirements -----

  ghost predicate RetireEnabled(s: State, k: nat) {
    && Shape(s)
    && k < |s.ret|
    && match s.ret[k].pc
       case Unspawned => false
       case Finished => false
       case Chained => k == 0 || s.ret[k - 1].pc == Finished
       case Stopping(h) => h.Await? ==> h.inst !in s.live
       case _ => true
  }

  function AtRetirePc(s: State, k: nat, pc: RetirePc): State
    requires k < |s.ret|
  {
    s.(ret := s.ret[k := s.ret[k].(pc := pc)])
  }

  /** One step of the goroutine in activate, and of server.retire. */
  function StepRetire(s: State, k: nat, alt: bool, binderErr: bool): State
    requires RetireEnabled(s, k)
  {
    match s.ret[k].pc
    case Chained => AtRetirePc(s, k, Stopping(Take))
    case Stopping(Take) =>
      AtRetirePc(TakeSlot(s, k), k,
        match s.slots[k].running
        case Some(i) => Stopping(Cancel(i))
        case None => HandingOver)
    case Stopping(Cancel(i)) => AtRetirePc(CancelInstance(s, i), k, Stopping(Await(i)))
    case Stopping(Await(_)) => AtRetirePc(s, k, HandingOver)
    case HandingOver => AtRetirePc(StartSlot(s, k + 1, binderErr), k, Draining)
    case Draining =>
      if s.gates[k].inflight > 0 then
        if alt then AtRetirePc(s, k, Rechecking) else s
      else s.(ret := s.ret[k := s.ret[k].(pc := Rechecking, drained := true)])
    case Rechecking =>
      s.(ret := s.ret[k := s.ret[k].(pc := Closing,
           drained := s.ret[k].drained || s.gates[k].inflight <= 0)])
    case Closing => AtRetirePc(s.(closes := s.closes + [k]), k, Finished)
    case _ => s
  }

  // ----- runs -----

  ghost predicate Enabled(env: Env, s: State, a: Action) {
    match a
    case Arrive(r, _) => r !in s.reqs
    case RequestStep(r) => RequestEnabled(s, r)
    case BeginSave => Shape(s) && s.save == Idle
    case BeginRetry => env.retry && Shape(s) && s.save == Idle
    case SaveStep(_) => SaveEnabled(s)
    case RetireStep(k, _) => RetireEnabled(s, k)
    case Exit(i) => i in s.live && s.live[i].cancelled
  }

  ghost function Apply(env: Env, s: State, a: Action): State
    requires Enabled(env, s, a)
  {
    match a
    case Arrive(r, w) => s.(reqs := s.reqs[r := Request(w, LoadCur, 0, false, [], [])])
    case RequestStep(r) => StepRequest(s, r)
    case BeginSave => s.(save := Freezing(Cur(s)))
    case BeginRetry => s.(save := Remigrating(Cur(s)))
    case SaveStep(alt) => StepSave(s, alt, env.binderFails && alt)
    case RetireStep(k, alt) => StepRetire(s, k, alt, env.binderFails && alt)
    case Exit(i) => s.(live := s.live - {i})
  }

  /** The state after `acts`, or None when one of them was not enabled. */
  ghost function Exec(env: Env, acts: seq<Action>): Option<State> {
    if acts == [] then Some(INIT)
    else
      var last := |acts| - 1;
      match Exec(env, acts[..last])
      case None => None
      case Some(s) => if Enabled(env, s, acts[last]) then Some(Apply(env, s, acts[last])) else None
  }

  ghost predicate Reaches(env: Env, acts: seq<Action>, s: State) {
    Exec(env, acts) == Some(s)
  }

  lemma Extend(env: Env, acts: seq<Action>, s: State, a: Action)
    requires Reaches(env, acts, s) && Enabled(env, s, a)
    ensures Reaches(env, acts + [a], Apply(env, s, a))
  {
    assert (acts + [a])[..|acts|] == acts;
  }
}
