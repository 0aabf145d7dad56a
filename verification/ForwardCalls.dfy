/** `forward_tcp_conn` of `src/proxy.rs`: connect, register, open a stream, pump, close. Any
    number of calls interleave with each other and with the rest of the daemon; a call may
    be cancelled at each `await`, as it is when its listener's join set is dropped. The
    registry and the pump are the machines of `Connections` and `Pump`. */
module ForwardCalls {
  import opened Wrappers
  import opened IdCounter
  import Registry = Connections
  import Pump

  /** What a call is given: its registry entry, what both sides will send, the timeout. */
  datatype Task = Task(info: Registry.Connection, upload: seq<Pump.Byte>, download: seq<Pump.Byte>, timeout: nat)

  /** `Connecting`, `AwaitingStream` and `Pumping` are the awaits. The guard is dropped in
      `Leaving` and `Unlisted`. */
  datatype Stage = Connecting | Connected | HasId | Inserted | AwaitingStream | Pumping | Leaving | Unlisted | Over

  datatype Exit = NotConnected | NoStream | PumpReturned(outcome: Pump.Outcome) | Cancelled

  /** `reg` names the call's registration, `pump` is the state of its pump; the pump's
      download task can outlive the call. */
  datatype Call = Call(task: Task, stage: Stage, reg: Option<nat>, pump: Option<Pump.State>, exit: Option<Exit>)

  datatype State = State(registry: Registry.State, calls: seq<Call>)

  const INITIAL := State(Registry.INITIAL, [])

  /** `CloseConnection` is the `close` call on the iroh connection. */
  datatype Move =
    | Connect(ok: bool)
    | FetchAdd
    | Insert
    | SendOpened
    | OpenBi(ok: bool)
    | PumpMove(step: Pump.Step)
    | CloseConnection
    | Cancel
    | Remove
    | SendClosed

  /** `Elsewhere` is a registry step of some other connection of the daemon. */
  datatype Step =
    | Start(task: Task)
    | Move(c: nat, move: Move)
    | Elsewhere(step: Registry.Step)

  /** Dropping the pump is left to `Cancel`. */
  predicate MoveEnabled(call: Call, m: Move) {
    match m
    case Connect(_) => call.stage == Connecting
    case FetchAdd => call.stage == Connected
    case Insert => call.stage == HasId && call.reg.Some?
    case SendOpened => call.stage == Inserted && call.reg.Some?
    case OpenBi(_) => call.stage == AwaitingStream
    case PumpMove(step) => call.pump.Some? && step != Pump.DropPump && Pump.Enabled(call.pump.value, step)
    case CloseConnection => call.stage == Pumping && call.pump.Some? && call.pump.value.main.Returned?
    case Cancel =>
      call.stage == Connecting || call.stage == AwaitingStream
      || (call.stage == Pumping && call.pump.Some? && Pump.Enabled(call.pump.value, Pump.DropPump))
    case Remove => call.stage == Leaving && call.reg.Some?
    case SendClosed => call.stage == Unlisted && call.reg.Some?
  }

  /** `next` is the place a new registration gets. */
  function MoveApply(call: Call, m: Move, next: nat): Call
    requires MoveEnabled(call, m)
  {
    match m
    case Connect(ok) => if ok then call.(stage := Connected) else call.(stage := Over, exit := Some(NotConnected))
    case FetchAdd => call.(stage := HasId, reg := Some(next))
    case Insert => call.(stage := Inserted)
    case SendOpened => call.(stage := AwaitingStream)
    case OpenBi(ok) =>
      if ok then
        call.(stage := Pumping, pump := Some(Pump.Init(call.task.upload, call.task.download, Some(call.task.timeout))))
      else call.(stage := Leaving, exit := Some(NoStream))
    case PumpMove(step) => call.(pump := Some(Pump.Apply(call.pump.value, step)))
    case CloseConnection => call.(stage := Leaving, exit := Some(PumpReturned(call.pump.value.main.outcome)))
    case Cancel =>
      if call.stage == Connecting then call.(stage := Over, exit := Some(Cancelled))
      else if call.stage == AwaitingStream then call.(stage := Leaving, exit := Some(Cancelled))
      else
        call.(stage := Leaving, exit := Some(Cancelled), pump := Some(Pump.Apply(call.pump.value, Pump.DropPump)))
    case Remove => call.(stage := Unlisted)
    case SendClosed => call.(stage := Over)
  }

  /** What a move does to the registry. */
  function RegistryMove(call: Call, m: Move): Option<Registry.Step> {
    match m
    case FetchAdd => Some(Registry.FetchAdd(call.task.info))
    case Insert => Some(Registry.Insert(call.reg.GetOr(0)))
    case SendOpened => Some(Registry.SendOpened(call.reg.GetOr(0)))
    case Remove => Some(Registry.Remove(call.reg.GetOr(0)))
    case SendClosed => Some(Registry.SendClosed(call.reg.GetOr(0)))
    case _ => None
  }

  predicate RegistryEnabled(registry: Registry.State, step: Option<Registry.Step>) {
    step.None? || Registry.Enabled(registry, step.value)
  }

  function RegistryApply(registry: Registry.State, step: Option<Registry.Step>): Registry.State
    requires RegistryEnabled(registry, step)
  {
    if step.None? then registry else Registry.Apply(registry, step.value)
  }

  /** The step is about a registration of no call of this machine. */
  predicate Foreign(s: State, step: Registry.Step) {
    step.FetchAdd? || forall c :: 0 <= c < |s.calls| ==> s.calls[c].reg != Some(step.k)
  }

  predicate Enabled(s: State, step: Step) {
    match step
    case Start(_) => true
    case Move(c, m) =>
      c < |s.calls| && MoveEnabled(s.calls[c], m) && RegistryEnabled(s.registry, RegistryMove(s.calls[c], m))
    case Elsewhere(r) => Registry.Enabled(s.registry, r) && Foreign(s, r)
  }

  function Apply(s: State, step: Step): State
    requires Enabled(s, step)
  {
    match step
    case Start(task) => s.(calls := s.calls + [Call(task, Connecting, None, None, None)])
    case Move(c, m) =>
      State(RegistryApply(s.registry, RegistryMove(s.calls[c], m)),
            s.calls[c := MoveApply(s.calls[c], m, |s.registry.regs|)])
    case Elsewhere(r) => s.(registry := Registry.Apply(s.registry, r))
  }

  predicate Runs(s: State, steps: seq<Step>)
    decreases |steps|
  {
    steps == [] || (Enabled(s, steps[0]) && Runs(Apply(s, steps[0]), steps[1..]))
  }

  function Final(s: State, steps: seq<Step>): State
    requires Runs(s, steps)
    decreases |steps|
  {
    if steps == [] then s else Final(Apply(s, steps[0]), steps[1..])
  }

  // ----- Invariants -----

  predicate Early(stage: Stage) {
    stage == Connecting || stage == Connected || stage == HasId || stage == Inserted || stage == AwaitingStream
  }

  predicate CallInv(call: Call) {
    && (call.stage == Connecting || call.stage == Connected ==> call.reg == None)
    && (call.reg == None ==> call.stage == Connecting || call.stage == Connected || call.stage == Over)
    && (call.exit.Some? <==> !Early(call.stage) && call.stage != Pumping)
    && (call.pump.Some? ==> call.reg.Some? && !Early(call.stage))
    && (call.stage == Pumping ==> call.pump.Some? && call.pump.value.main != Pump.Dropped)
    && PumpInv(call)
    && match call.exit
       case None => true
       case Some(NotConnected) => call.reg == None
       case Some(NoStream) => call.reg.Some? && call.pump == None
       case Some(PumpReturned(outcome)) =>
         call.pump.Some? && call.pump.value.main.Returned? && call.pump.value.main.outcome == outcome
       case Some(Cancelled) => call.pump.Some? ==> call.pump.value.main == Pump.Dropped
  }

  predicate PumpInv(call: Call) {
    call.pump.Some? ==>
      Pump.Inv(call.pump.value, call.task.upload, call.task.download) && call.pump.value.timeout == Some(call.task.timeout)
  }

  /** Where the call's registration is when the call is in a stage. */
  function PhaseOf(stage: Stage): Registry.Phase {
    match stage
    case HasId => Registry.Allocated
    case Inserted => Registry.Inserted
    case Unlisted => Registry.Removed
    case Over => Registry.Gone
    case _ => Registry.Open
  }

  predicate RegistrationInv(registry: Registry.State, call: Call) {
    call.reg.Some? ==>
      Registry.InPhase(registry, call.reg.value, PhaseOf(call.stage)) && registry.regs[call.reg.value].info == call.task.info
  }

  /** What the steps of the run so far tell about call `c`. */
  predicate TraceInv(past: seq<Step>, c: nat, call: Call) {
    && (Move(c, Connect(true)) in past <==> call.stage == Connected || call.reg.Some?)
    && (Move(c, OpenBi(true)) in past <==> call.pump.Some?)
    && (Move(c, CloseConnection) in past <==> call.exit.Some? && call.exit.value.PumpReturned?)
    && (Move(c, Cancel) in past <==> call.exit == Some(Cancelled))
  }

  predicate OneEach(calls: seq<Call>) {
    forall c, d :: 0 <= c < d < |calls| && calls[c].reg.Some? ==> calls[c].reg != calls[d].reg
  }

  predicate MovesKnown(past: seq<Step>, n: nat) {
    forall x :: x in past && x.Move? ==> x.c < n
  }

  predicate CallsInv(s: State, past: seq<Step>) {
    forall c :: 0 <= c < |s.calls| ==>
      CallInv(s.calls[c]) && RegistrationInv(s.registry, s.calls[c]) && TraceInv(past, c, s.calls[c])
  }

  ghost predicate Inv(s: State, past: seq<Step>) {
    Registry.Inv(s.registry) && CallsInv(s, past) && OneEach(s.calls) && MovesKnown(past, |s.calls|)
  }

  lemma PumpKept(call: Call, m: Move, next: nat)
    requires PumpInv(call) && MoveEnabled(call, m)
    ensures PumpInv(MoveApply(call, m, next))
  {
    if m.PumpMove? {
      Pump.StepKeeps(call.pump.value, m.step, call.task.upload, call.task.download);
    } else if m.Cancel? && call.stage == Pumping {
      Pump.StepKeeps(call.pump.value, Pump.DropPump, call.task.upload, call.task.download);
    }
  }

  /** A pump that has returned or was dropped stays so, whatever its download still does. */
  lemma MainStays(s: Pump.State, step: Pump.Step)
    requires Pump.Enabled(s, step) && step != Pump.DropPump
    ensures s.main.Returned? || s.main == Pump.Dropped ==> Pump.Apply(s, step).main == s.main
    ensures s.main != Pump.Dropped ==> Pump.Apply(s, step).main != Pump.Dropped
  {
  }

  lemma CallKept(call: Call, m: Move, next: nat)
    requires CallInv(call) && MoveEnabled(call, m)
    ensures CallInv(MoveApply(call, m, next))
  {
    PumpKept(call, m, next);
    if m.PumpMove? {
      MainStays(call.pump.value, m.step);
    }
  }

  lemma TraceKept(past: seq<Step>, c: nat, call: Call, m: Move, next: nat)
    requires CallInv(call) && MoveEnabled(call, m) && TraceInv(past, c, call)
    ensures TraceInv(past + [Move(c, m)], c, MoveApply(call, m, next))
  {
    assert forall x :: x in past + [Move(c, m)] <==> x in past || x == Move(c, m);
  }

  lemma OtherTraceKept(past: seq<Step>, c: nat, call: Call, step: Step)
    requires TraceInv(past, c, call) && !(step.Move? && step.c == c)
    ensures TraceInv(past + [step], c, call)
  {
    assert forall x :: x in past + [step] <==> x in past || x == step;
  }

  /** A call's own move takes its registration along. */
  lemma RegistrationKept(registry: Registry.State, call: Call, m: Move)
    requires CallInv(call) && RegistrationInv(registry, call) && MoveEnabled(call, m)
    requires RegistryEnabled(registry, RegistryMove(call, m))
    ensures RegistrationInv(RegistryApply(registry, RegistryMove(call, m)), MoveApply(call, m, |registry.regs|))
  {
  }

  /** Any other registry step leaves it where it is. */
  lemma OtherRegistrationKept(registry: Registry.State, step: Registry.Step, call: Call)
    requires RegistrationInv(registry, call) && Registry.Enabled(registry, step)
    requires step.FetchAdd? || call.reg != Some(step.k)
    ensures RegistrationInv(Registry.Apply(registry, step), call)
  {
  }

  lemma MoveKeepsOthers(s: State, c: nat, m: Move, past: seq<Step>, d: nat)
    requires CallsInv(s, past) && OneEach(s.calls) && Enabled(s, Move(c, m)) && d < |s.calls| && d != c
    ensures RegistrationInv(Apply(s, Move(c, m)).registry, s.calls[d])
  {
    var r := RegistryMove(s.calls[c], m);
    if r.Some? {
      assert CallInv(s.calls[c]) && RegistrationInv(s.registry, s.calls[d]);
      assert r.value.FetchAdd? || s.calls[d].reg != Some(r.value.k);
      OtherRegistrationKept(s.registry, r.value, s.calls[d]);
    }
  }

  lemma CallsKept(s: State, step: Step, past: seq<Step>)
    requires CallsInv(s, past) && OneEach(s.calls) && MovesKnown(past, |s.calls|) && Enabled(s, step)
    ensures CallsInv(Apply(s, step), past + [step])
  {
    var t := Apply(s, step);
    forall c | 0 <= c < |t.calls|
      ensures CallInv(t.calls[c]) && RegistrationInv(t.registry, t.calls[c]) && TraceInv(past + [step], c, t.calls[c])
    {
      if c == |s.calls| {
        assert forall x :: x in past + [step] ==> x in past || x == step;
      } else if step.Move? && step.c == c {
        CallKept(s.calls[c], step.move, |s.registry.regs|);
        RegistrationKept(s.registry, s.calls[c], step.move);
        TraceKept(past, c, s.calls[c], step.move, |s.registry.regs|);
      } else {
        OtherTraceKept(past, c, s.calls[c], step);
        if step.Move? {
          MoveKeepsOthers(s, step.c, step.move, past, c);
        } else if step.Elsewhere? {
          OtherRegistrationKept(s.registry, step.step, s.calls[c]);
        }
      }
    }
  }

  lemma OneEachKept(s: State, step: Step, past: seq<Step>)
    requires CallsInv(s, past) && OneEach(s.calls) && Enabled(s, step)
    ensures OneEach(Apply(s, step).calls)
  {
    if step.Move? && step.move.FetchAdd? {
      forall c | 0 <= c < |s.calls| && s.calls[c].reg.Some? ensures s.calls[c].reg.value < |s.registry.regs| {
        assert RegistrationInv(s.registry, s.calls[c]);
      }
    } else {
      SameRegistrations(s, step);
    }
  }

  lemma SameRegistrations(s: State, step: Step)
    requires Enabled(s, step) && !(step.Move? && step.move.FetchAdd?)
    ensures |s.calls| <= |Apply(s, step).calls|
    ensures forall c :: 0 <= c < |s.calls| ==> Apply(s, step).calls[c].reg == s.calls[c].reg
    ensures forall c :: |s.calls| <= c < |Apply(s, step).calls| ==> Apply(s, step).calls[c].reg == None
  {
  }

  lemma RegistryKept(s: State, step: Step)
    requires Registry.Inv(s.registry) && Enabled(s, step) && |Apply(s, step).registry.regs| <= WRAP
    ensures Registry.Inv(Apply(s, step).registry)
  {
    if step.Move? {
      var r := RegistryMove(s.calls[step.c], step.move);
      if r.Some? {
        Registry.StepKeeps(s.registry, r.value);
      }
    } else if step.Elsewhere? {
      Registry.StepKeeps(s.registry, step.step);
    }
  }

  lemma StepKeeps(s: State, step: Step, past: seq<Step>)
    requires Inv(s, past) && Enabled(s, step) && |Apply(s, step).registry.regs| <= WRAP
    ensures Inv(Apply(s, step), past + [step])
  {
    RegistryKept(s, step);
    CallsKept(s, step, past);
    OneEachKept(s, step, past);
  }

  lemma {:induction false} RegistrationsGrow(s: State, steps: seq<Step>)
    requires Runs(s, steps)
    ensures |s.registry.regs| <= |Final(s, steps).registry.regs| && |s.calls| <= |Final(s, steps).calls|
    decreases |steps|
  {
    if steps != [] {
      RegistrationsGrow(Apply(s, steps[0]), steps[1..]);
    }
  }

  lemma {:induction false} RunKeeps(s: State, steps: seq<Step>, past: seq<Step>)
    requires Inv(s, past) && Runs(s, steps) && |Final(s, steps).registry.regs| <= WRAP
    ensures Inv(Final(s, steps), past + steps)
    decreases |steps|
  {
    if steps == [] {
      assert past + steps == past;
    } else {
      var t := Apply(s, steps[0]);
      assert past + [steps[0]] + steps[1..] == past + steps;
      assert |t.registry.regs| <= WRAP by {
        RegistrationsGrow(t, steps[1..]);
      }
      StepKeeps(s, steps[0], past);
      RunKeeps(t, steps[1..], past + [steps[0]]);
    }
  }

  lemma RunsInv(steps: seq<Step>)
    requires Runs(INITIAL, steps) && |Final(INITIAL, steps).registry.regs| <= WRAP
    ensures Inv(Final(INITIAL, steps), steps)
  {
    Registry.EmptyInv();
    RunKeeps(INITIAL, steps, []);
    assert [] + steps == steps;
  }

  // ----- What follows -----

  /** Over every run of any number of calls: once a call has left, it has called `close` on
      its connection if and only if it opened a stream and was not cancelled. Its doc
      comment promises the call on every exit path. */
  lemma ClosedIff(steps: seq<Step>, c: nat)
    requires Runs(INITIAL, steps) && |Final(INITIAL, steps).registry.regs| <= WRAP
    requires c < |Final(INITIAL, steps).calls| && Final(INITIAL, steps).calls[c].exit.Some?
    ensures Move(c, CloseConnection) in steps <==> Move(c, OpenBi(true)) in steps && Move(c, Cancel) !in steps
  {
    RunsInv(steps);
    var s := Final(INITIAL, steps);
    assert CallInv(s.calls[c]) && TraceInv(steps, c, s.calls[c]);
  }

  /** Once a call is over, cancelled or not: it had registered exactly if it had connected;
      then both its events were sent and the table no longer holds its entry. */
  lemma RegistrationGone(steps: seq<Step>, c: nat)
    requires Runs(INITIAL, steps) && |Final(INITIAL, steps).registry.regs| <= WRAP
    requires c < |Final(INITIAL, steps).calls| && Final(INITIAL, steps).calls[c].stage == Over
    ensures var s := Final(INITIAL, steps); var reg := s.calls[c].reg;
      && (reg.Some? <==> Move(c, Connect(true)) in steps)
      && (reg.Some? ==>
            reg.value < |s.registry.regs| && s.registry.regs[reg.value].info == s.calls[c].task.info
            && Registry.Opened(reg.value) in s.registry.sent && Registry.Closed(reg.value) in s.registry.sent
            && s.registry.regs[reg.value].id !in s.registry.active)
  {
    RunsInv(steps);
    var s := Final(INITIAL, steps);
    assert CallInv(s.calls[c]) && TraceInv(steps, c, s.calls[c]) && RegistrationInv(s.registry, s.calls[c]);
    if s.calls[c].reg.Some? {
      assert Registry.EventsOf(s.registry, s.calls[c].reg.value);
      Registry.IdsUnique(s.registry);
      Registry.ListedIff(s.registry, s.calls[c].reg.value);
    }
  }

  /** While a call awaits its stream or pumps, the table holds its entry. */
  lemma ListedWhilePumping(steps: seq<Step>, c: nat)
    requires Runs(INITIAL, steps) && |Final(INITIAL, steps).registry.regs| <= WRAP
    requires c < |Final(INITIAL, steps).calls|
    requires Final(INITIAL, steps).calls[c].stage == AwaitingStream || Final(INITIAL, steps).calls[c].stage == Pumping
    ensures var s := Final(INITIAL, steps); var reg := s.calls[c].reg;
      reg.Some? && reg.value < |s.registry.regs| && s.registry.regs[reg.value].id in s.registry.active
      && s.registry.active[s.registry.regs[reg.value].id] == s.calls[c].task.info
  {
    RunsInv(steps);
    var s := Final(INITIAL, steps);
    assert CallInv(s.calls[c]) && RegistrationInv(s.registry, s.calls[c]);
  }

  /** A call that returned the statistics of a complete transfer delivered everything. */
  lemma CompleteTransfer(steps: seq<Step>, c: nat, up: nat, down: nat)
    requires Runs(INITIAL, steps) && |Final(INITIAL, steps).registry.regs| <= WRAP
    requires c < |Final(INITIAL, steps).calls|
    requires Final(INITIAL, steps).calls[c].exit == Some(PumpReturned(Pump.Stats(up, down, false)))
    ensures var call := Final(INITIAL, steps).calls[c];
      && call.pump.Some? && call.pump.value.up.sink == call.task.upload && call.pump.value.down.sink == call.task.download
      && up == |call.task.upload| && down == |call.task.download|
  {
    RunsInv(steps);
    var call := Final(INITIAL, steps).calls[c];
    assert CallInv(call);
    Pump.InvMeans(call.pump.value, call.task.upload, call.task.download);
  }

  /** A call that was cut off had uploaded everything and then waited for exactly its own
      close-on-request timeout. */
  lemma CutOffTransfer(steps: seq<Step>, c: nat, up: nat, down: nat)
    requires Runs(INITIAL, steps) && |Final(INITIAL, steps).registry.regs| <= WRAP
    requires c < |Final(INITIAL, steps).calls|
    requires Final(INITIAL, steps).calls[c].exit == Some(PumpReturned(Pump.Stats(up, down, true)))
    ensures var call := Final(INITIAL, steps).calls[c];
      && call.pump.Some? && call.pump.value.up.sink == call.task.upload && up == |call.task.upload| && down == 0
      && call.pump.value.main.Returned? && call.pump.value.uploadEnded.Some?
      && call.pump.value.main.at == call.pump.value.uploadEnded.value + call.task.timeout
  {
    RunsInv(steps);
    var call := Final(INITIAL, steps).calls[c];
    assert CallInv(call);
    Pump.InvMeans(call.pump.value, call.task.upload, call.task.download);
  }

  // ----- The two exits without a close, by example -----

  lemma {:induction false} RunsAppend(s: State, steps: seq<Step>, step: Step)
    requires Runs(s, steps) && Enabled(Final(s, steps), step)
    ensures Runs(s, steps + [step]) && Final(s, steps + [step]) == Apply(Final(s, steps), step)
    decreases |steps|
  {
    if steps == [] {
      assert [] + [step] == [step] && [step][1..] == [];
      assert Runs(Apply(s, step), []);
    } else {
      RunsAppend(Apply(s, steps[0]), steps[1..], step);
      assert (steps + [step])[1..] == steps[1..] + [step];
    }
  }

  lemma LoneCallConnects(task: Task) returns (steps: seq<Step>)
    ensures Runs(INITIAL, steps) && Move(0, CloseConnection) !in steps
    ensures Final(INITIAL, steps) == State(Registry.INITIAL, [Call(task, Connected, None, None, None)])
  {
    RunsAppend(INITIAL, [], Start(task));
    RunsAppend(INITIAL, [Start(task)], Move(0, Connect(true)));
    steps := [Start(task)] + [Move(0, Connect(true))];
  }

  /** A lone call up to where it awaits its stream. */
  lemma LoneCallRegisters(task: Task) returns (steps: seq<Step>)
    ensures Runs(INITIAL, steps) && Move(0, CloseConnection) !in steps
    ensures var s := Final(INITIAL, steps);
      && s.calls == [Call(task, AwaitingStream, Some(0), None, None)]
      && s.registry.regs == [Registry.Registration(1, task.info, Registry.Open)]
  {
    steps := LoneCallConnects(task);
    RunsAppend(INITIAL, steps, Move(0, FetchAdd));
    steps := steps + [Move(0, FetchAdd)];
    assert Final(INITIAL, steps).calls == [Call(task, HasId, Some(0), None, None)];
    assert Final(INITIAL, steps).registry.regs == [Registry.Registration(1, task.info, Registry.Allocated)];
    RunsAppend(INITIAL, steps, Move(0, Insert));
    steps := steps + [Move(0, Insert)];
    assert Final(INITIAL, steps).registry.regs == [Registry.Registration(1, task.info, Registry.Inserted)];
    RunsAppend(INITIAL, steps, Move(0, SendOpened));
    steps := steps + [Move(0, SendOpened)];
  }

  /** The guard is dropped, and the lone call is over. */
  lemma LoneCallLeaves(before: seq<Step>) returns (steps: seq<Step>)
    requires Runs(INITIAL, before)
    requires var s := Final(INITIAL, before);
      |s.calls| == 1 && s.calls[0].stage == Leaving && s.calls[0].reg == Some(0) && Registry.InPhase(s.registry, 0, Registry.Open)
    ensures before <= steps && Runs(INITIAL, steps)
    ensures Move(0, CloseConnection) in steps <==> Move(0, CloseConnection) in before
    ensures Final(INITIAL, steps).calls == [Final(INITIAL, before).calls[0].(stage := Over)]
  {
    steps := before;
    RunsAppend(INITIAL, steps, Move(0, Remove));
    steps := steps + [Move(0, Remove)];
    RunsAppend(INITIAL, steps, Move(0, SendClosed));
    steps := steps + [Move(0, SendClosed)];
  }

  /** A connection without a stream: `open_bi` fails, and the call returns without a close. */
  lemma FailedOpenLeavesOpen(task: Task) returns (steps: seq<Step>)
    ensures Runs(INITIAL, steps) && Move(0, CloseConnection) !in steps
    ensures Final(INITIAL, steps).calls == [Call(task, Over, Some(0), None, Some(NoStream))]
  {
    steps := LoneCallRegisters(task);
    RunsAppend(INITIAL, steps, Move(0, OpenBi(false)));
    steps := steps + [Move(0, OpenBi(false))];
    steps := LoneCallLeaves(steps);
  }

  /** A run of a call's pump alone is a run of the machine. */
  lemma {:induction false} PumpRunLifts(before: seq<Step>, c: nat, pumping: seq<Pump.Step>) returns (steps: seq<Step>)
    requires Runs(INITIAL, before) && c < |Final(INITIAL, before).calls| && Final(INITIAL, before).calls[c].pump.Some?
    requires Pump.Runs(Final(INITIAL, before).calls[c].pump.value, pumping)
    requires Final(INITIAL, before).calls[c].pump.value.main == Pump.Dropped || Pump.DropPump !in pumping
    ensures before <= steps && Runs(INITIAL, steps)
    ensures Move(c, CloseConnection) in steps <==> Move(c, CloseConnection) in before
    ensures var s, t := Final(INITIAL, before), Final(INITIAL, steps);
      t == s.(calls := s.calls[c := s.calls[c].(pump := Some(Pump.Final(s.calls[c].pump.value, pumping)))])
    decreases |pumping|
  {
    steps := before;
    if pumping != [] {
      var step := Move(c, PumpMove(pumping[0]));
      RunsAppend(INITIAL, steps, step);
      MainStays(Final(INITIAL, before).calls[c].pump.value, pumping[0]);
      steps := PumpRunLifts(before + [step], c, pumping[1..]);
    }
  }

  /** The lone call, cancelled as soon as it pumps. */
  lemma LoneCallCancelled(task: Task) returns (steps: seq<Step>)
    ensures Runs(INITIAL, steps) && Move(0, OpenBi(true)) in steps && Move(0, CloseConnection) !in steps
    ensures var pump := Pump.Init(task.upload, task.download, Some(task.timeout));
      Pump.Enabled(pump, Pump.DropPump)
      && Final(INITIAL, steps).calls == [Call(task, Over, Some(0), Some(Pump.Apply(pump, Pump.DropPump)), Some(Cancelled))]
  {
    steps := LoneCallRegisters(task);
    RunsAppend(INITIAL, steps, Move(0, OpenBi(true)));
    steps := steps + [Move(0, OpenBi(true))];
    var last := |steps| - 1;
    RunsAppend(INITIAL, steps, Move(0, Cancel));
    steps := steps + [Move(0, Cancel)];
    steps := LoneCallLeaves(steps);
    assert steps[last] == Move(0, OpenBi(true));
  }

  /** A cancelled pump: the call is dropped while pumping and never closes its connection,
      while its download task goes on to deliver everything. */
  lemma CancelledPumpLeavesOpen(task: Task) returns (steps: seq<Step>)
    ensures Runs(INITIAL, steps) && Move(0, OpenBi(true)) in steps && Move(0, CloseConnection) !in steps
    ensures var calls := Final(INITIAL, steps).calls;
      && |calls| == 1 && calls[0].stage == Over && calls[0].exit == Some(Cancelled) && calls[0].pump.Some?
      && calls[0].pump.value.down.sink == task.download && !calls[0].pump.value.abortRequested
  {
    var cancelled := LoneCallCancelled(task);
    var pump := Pump.Init(task.upload, task.download, Some(task.timeout));
    var pumping := Pump.DroppedPumpDetaches(pump, task.upload, task.download);
    steps := PumpRunLifts(cancelled, 0, pumping[1..]);
  }

  /** Other connections register in between, at any point of any run. */
  lemma OthersRegister(before: seq<Step>, info: Registry.Connection) returns (steps: seq<Step>)
    requires Runs(INITIAL, before) && |Final(INITIAL, before).registry.regs| < WRAP
    ensures Runs(INITIAL, steps)
    ensures var s, t := Final(INITIAL, before), Final(INITIAL, steps);
      && t.calls == s.calls && t.registry.active == s.registry.active[s.registry.nextId := info]
      && t.registry.sent == s.registry.sent + [Registry.Opened(|s.registry.regs|)]
  {
    RunsInv(before);
    var s := Final(INITIAL, before);
    var k := |s.registry.regs|;
    forall c | 0 <= c < |s.calls| ensures s.calls[c].reg != Some(k) {
      assert RegistrationInv(s.registry, s.calls[c]);
    }
    RunsAppend(INITIAL, before, Elsewhere(Registry.FetchAdd(info)));
    steps := before + [Elsewhere(Registry.FetchAdd(info))];
    RunsAppend(INITIAL, steps, Elsewhere(Registry.Insert(k)));
    steps := steps + [Elsewhere(Registry.Insert(k))];
    RunsAppend(INITIAL, steps, Elsewhere(Registry.SendOpened(k)));
    steps := steps + [Elsewhere(Registry.SendOpened(k))];
  }

  /** And a call that closes: undisturbed, it delivers both streams in full, closes its
      connection and returns their lengths. */
  lemma LoneCallCompletes(task: Task) returns (steps: seq<Step>)
    ensures Runs(INITIAL, steps) && Move(0, CloseConnection) in steps
    ensures var calls := Final(INITIAL, steps).calls;
      && |calls| == 1 && calls[0].stage == Over && calls[0].reg == Some(0)
      && calls[0].exit == Some(PumpReturned(Pump.Stats(|task.upload|, |task.download|, false)))
  {
    var ready := LoneCallOpens(task);
    var pump := Pump.Init(task.upload, task.download, Some(task.timeout));
    var pumping := Pump.CanComplete(task.upload, task.download, Some(task.timeout), true);
    var pumped := PumpRunLifts(ready, 0, pumping);
    assert Final(INITIAL, pumped).calls == [Call(task, Pumping, Some(0), Some(Pump.Final(pump, pumping)), None)];
    RunsAppend(INITIAL, pumped, Move(0, CloseConnection));
    steps := LoneCallLeaves(pumped + [Move(0, CloseConnection)]);
  }

  lemma LoneCallOpens(task: Task) returns (steps: seq<Step>)
    ensures Runs(INITIAL, steps) && Move(0, CloseConnection) !in steps
    ensures Final(INITIAL, steps).registry.regs == [Registry.Registration(1, task.info, Registry.Open)]
    ensures var pump := Pump.Init(task.upload, task.download, Some(task.timeout));
      Final(INITIAL, steps).calls == [Call(task, Pumping, Some(0), Some(pump), None)]
  {
    steps := LoneCallRegisters(task);
    RunsAppend(INITIAL, steps, Move(0, OpenBi(true)));
    steps := steps + [Move(0, OpenBi(true))];
  }
}
