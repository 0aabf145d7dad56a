/** `src/daemon/forwards.rs` and the forward calls of `src/daemon/service.rs`, step by
    step: calls that share the forwards mutex, listener tasks owned through their join
    handles, and the forward tasks in each listener's `JoinSet`. All calls and tasks
    interleave freely. */
module Listeners {

  /** Who owns a listener's join handle: the entry in the table, a call that has just
      spawned or removed it, or nobody any more. */
  datatype Owner = Table | Call(c: nat) | Nobody

  /** `aborted`: the task was told to stop; it is `running` until it does. */
  datatype Listener = Listener(key: string, owner: Owner, running: bool, aborted: bool)

  datatype Progress = Connecting | Registered | Over

  /** A task forwarding one accepted connection, in the join set of its listener. */
  datatype Forward = Forward(listener: nat, progress: Progress, aborted: bool)

  datatype Call =
    | AddWaiting(key: string)
    | AddLocked(key: string)
    | AddChecked(key: string)
    | AddBound(key: string)
    | AddSpawned(key: string, task: nat)
    | AddInserted(key: string)
    | Added(key: string)
    | AddFailed
    | DelWaiting(key: string)
    | DelHolding(task: nat)
    | Deleted(task: nat)
    | DelFailed

  datatype State = State(
    lock: set<nat>,
    table: map<string, nat>,
    calls: seq<Call>,
    listeners: seq<Listener>,
    forwards: seq<Forward>,
    registry: set<nat>)

  const INITIAL := State({}, map[], [], [], [], {})

  datatype Step =
    | StartAdd(key: string)
    | StartDel(key: string)
    | Lock(c: nat)
    | Check(c: nat)
    | Bind(c: nat, ok: bool)
    | Spawn(c: nat)
    | Insert(c: nat)
    | Unlock(c: nat)
    | CancelAdd(c: nat)
    | RemoveEntry(c: nat)
    | DropRuntime(c: nat)
    | Accept(l: nat)
    | ListenerFails(l: nat)
    | ListenerStops(l: nat)
    | Register(f: nat)
    | ForwardEnds(f: nat)
    | ForwardStops(f: nat)

  /** Calls that hold the mutex guard. */
  predicate HoldsLock(call: Call) {
    call.AddLocked? || call.AddChecked? || call.AddBound? || call.AddSpawned? || call.AddInserted?
  }

  predicate Enabled(s: State, step: Step) {
    match step
    case StartAdd(_) => true
    case StartDel(_) => true
    case Lock(c) => c < |s.calls| && s.calls[c].AddWaiting? && s.lock == {}
    case Check(c) => c < |s.calls| && s.calls[c].AddLocked?
    case Bind(c, _) => c < |s.calls| && s.calls[c].AddChecked?
    case Spawn(c) => c < |s.calls| && s.calls[c].AddBound?
    case Insert(c) => c < |s.calls| && s.calls[c].AddSpawned? && s.calls[c].task < |s.listeners|
    case Unlock(c) => c < |s.calls| && s.calls[c].AddInserted?
    case CancelAdd(c) => c < |s.calls| && (s.calls[c].AddWaiting? || s.calls[c].AddChecked?)
    case RemoveEntry(c) =>
      c < |s.calls| && s.calls[c].DelWaiting? && s.lock == {}
      && (s.calls[c].key in s.table ==> s.table[s.calls[c].key] < |s.listeners|)
    case DropRuntime(c) => c < |s.calls| && s.calls[c].DelHolding? && s.calls[c].task < |s.listeners|
    case Accept(l) => l < |s.listeners| && s.listeners[l].running
    case ListenerFails(l) => l < |s.listeners| && s.listeners[l].running
    case ListenerStops(l) => l < |s.listeners| && s.listeners[l].running && s.listeners[l].aborted
    case Register(f) => f < |s.forwards| && s.forwards[f].progress == Connecting
    case ForwardEnds(f) => f < |s.forwards| && s.forwards[f].progress != Over
    case ForwardStops(f) => f < |s.forwards| && s.forwards[f].progress != Over && s.forwards[f].aborted
  }

  function AbortSet(forwards: seq<Forward>, l: nat): (r: seq<Forward>)
    ensures |r| == |forwards|
    ensures forall f :: 0 <= f < |r| ==>
      r[f] == if forwards[f].listener == l then forwards[f].(aborted := true) else forwards[f]
  {
    if forwards == [] then []
    else
      var last := forwards[|forwards| - 1];
      AbortSet(forwards[..|forwards| - 1], l) + [if last.listener == l then last.(aborted := true) else last]
  }

  /** A listener task ends; dropping its join set aborts what is left in it. */
  function EndListener(s: State, l: nat): State
    requires l < |s.listeners|
  {
    s.(listeners := s.listeners[l := s.listeners[l].(running := false)], forwards := AbortSet(s.forwards, l))
  }

  /** A forward task ends, finished or stopped; its guard leaves the registry. */
  function EndForward(s: State, f: nat): State
    requires f < |s.forwards|
  {
    s.(forwards := s.forwards[f := s.forwards[f].(progress := Over)], registry := s.registry - {f})
  }

  function Apply(s: State, step: Step): State
    requires Enabled(s, step)
  {
    match step
    case StartAdd(key) => s.(calls := s.calls + [AddWaiting(key)])
    case StartDel(key) => s.(calls := s.calls + [DelWaiting(key)])
    case Lock(c) => s.(lock := {c}, calls := s.calls[c := AddLocked(s.calls[c].key)])
    case Check(c) =>
      if s.calls[c].key in s.table then s.(lock := s.lock - {c}, calls := s.calls[c := AddFailed])
      else s.(calls := s.calls[c := AddChecked(s.calls[c].key)])
    case Bind(c, ok) =>
      if ok then s.(calls := s.calls[c := AddBound(s.calls[c].key)])
      else s.(lock := s.lock - {c}, calls := s.calls[c := AddFailed])
    case Spawn(c) =>
      s.(calls := s.calls[c := AddSpawned(s.calls[c].key, |s.listeners|)],
         listeners := s.listeners + [Listener(s.calls[c].key, Call(c), true, false)])
    case Insert(c) =>
      var key, l := s.calls[c].key, s.calls[c].task;
      s.(table := s.table[key := l], listeners := s.listeners[l := s.listeners[l].(owner := Table)],
         calls := s.calls[c := AddInserted(key)])
    case Unlock(c) => s.(lock := s.lock - {c}, calls := s.calls[c := Added(s.calls[c].key)])
    case CancelAdd(c) => s.(lock := s.lock - {c}, calls := s.calls[c := AddFailed])
    case RemoveEntry(c) =>
      var key := s.calls[c].key;
      if key !in s.table then s.(calls := s.calls[c := DelFailed])
      else
        var l := s.table[key];
        s.(table := s.table - {key}, listeners := s.listeners[l := s.listeners[l].(owner := Call(c))],
           calls := s.calls[c := DelHolding(l)])
    case DropRuntime(c) =>
      var l := s.calls[c].task;
      s.(listeners := s.listeners[l := s.listeners[l].(owner := Nobody, aborted := true)],
         calls := s.calls[c := Deleted(l)])
    case Accept(l) => s.(forwards := s.forwards + [Forward(l, Connecting, false)])
    case ListenerFails(l) => EndListener(s, l)
    case ListenerStops(l) => EndListener(s, l)
    case Register(f) =>
      s.(forwards := s.forwards[f := s.forwards[f].(progress := Registered)], registry := s.registry + {f})
    case ForwardEnds(f) => EndForward(s, f)
    case ForwardStops(f) => EndForward(s, f)
  }

  predicate Runs(s: State, steps: seq<Step>)
    decreases |steps|
  {
    steps == [] || (Enabled(s, steps[0]) && Runs(Apply(s, steps[0]), steps[1..]))
  }

  function Final(s: State, steps: seq<Step>): State
    requires Runs(s, steps)
    decreases |steps|
  {
    if steps == [] then s else Final(Apply(s, steps[0]), steps[1..])
  }

  // ----- Invariants -----

  /** The table and the join handles agree, and exactly the listeners nobody owns were aborted. */
  predicate TableInv(s: State) {
    && (forall k :: k in s.table ==>
          s.table[k] < |s.listeners| && s.listeners[s.table[k]].key == k && s.listeners[s.table[k]].owner == Table)
    && (forall l :: 0 <= l < |s.listeners| && s.listeners[l].owner == Table ==>
          s.listeners[l].key in s.table && s.table[s.listeners[l].key] == l)
    && (forall l :: 0 <= l < |s.listeners| ==> (s.listeners[l].owner == Nobody <==> s.listeners[l].aborted))
  }

  predicate CallInv(s: State, c: nat)
    requires c < |s.calls|
  {
    && (c in s.lock <==> HoldsLock(s.calls[c]))
    && (s.calls[c].AddChecked? || s.calls[c].AddBound? || s.calls[c].AddSpawned? ==> s.calls[c].key !in s.table)
    && (s.calls[c].AddSpawned? ==>
          s.calls[c].task < |s.listeners| && s.listeners[s.calls[c].task].owner == Call(c)
          && s.listeners[s.calls[c].task].key == s.calls[c].key)
    && (s.calls[c].DelHolding? ==>
          s.calls[c].task < |s.listeners| && s.listeners[s.calls[c].task].owner == Call(c))
    && (s.calls[c].Deleted? ==>
          s.calls[c].task < |s.listeners| && s.listeners[s.calls[c].task].aborted
          && s.listeners[s.calls[c].task].owner == Nobody)
  }

  /** A handle owned by a call is the one that call has in hand. */
  predicate HandInv(s: State) {
    forall l :: 0 <= l < |s.listeners| && s.listeners[l].owner.Call? ==>
      var c := s.listeners[l].owner.c;
      c < |s.calls| && (s.calls[c].AddSpawned? || s.calls[c].DelHolding?) && s.calls[c].task == l
  }

  predicate LockInv(s: State) {
    && (forall c, d :: c in s.lock && d in s.lock ==> c == d)
    && (forall c :: c in s.lock ==> c < |s.calls|)
  }

  /** A forward task without a running listener has ended or was told to. */
  predicate TaskInv(s: State, f: nat)
    requires f < |s.forwards|
  {
    s.forwards[f].listener < |s.listeners|
    && (s.listeners[s.forwards[f].listener].running || s.forwards[f].aborted || s.forwards[f].progress == Over)
  }

  ghost predicate ForwardInv(s: State) {
    && (forall f :: 0 <= f < |s.forwards| ==> TaskInv(s, f))
    && (forall f: nat :: f in s.registry <==> f < |s.forwards| && s.forwards[f].progress == Registered)
  }

  predicate CallsInv(s: State) {
    forall c :: 0 <= c < |s.calls| ==> CallInv(s, c)
  }

  ghost predicate Inv(s: State) {
    TableInv(s) && CallsInv(s) && HandInv(s) && LockInv(s) && ForwardInv(s)
  }

  /** The call a step belongs to keeps its own part of the invariant in view. */
  predicate OwnCall(s: State, step: Step)
    requires Enabled(s, step)
  {
    (step.Insert? || step.DropRuntime? || step.Lock? ==> CallInv(s, step.c))
  }

  lemma TableKept(s: State, step: Step)
    requires TableInv(s) && Enabled(s, step) && OwnCall(s, step)
    ensures TableInv(Apply(s, step))
  {
    if step.Insert? || step.RemoveEntry? || step.DropRuntime? {
      HandleMoves(s, step);
    }
  }

  lemma HandleMoves(s: State, step: Step)
    requires TableInv(s) && Enabled(s, step) && OwnCall(s, step)
    requires step.Insert? || step.RemoveEntry? || step.DropRuntime?
    ensures TableInv(Apply(s, step))
  {
  }

  lemma HandsKept(s: State, step: Step)
    requires TableInv(s) && HandInv(s) && Enabled(s, step) && OwnCall(s, step)
    ensures HandInv(Apply(s, step))
  {
  }

  lemma CallKept(s: State, step: Step, c: nat)
    requires TableInv(s) && HandInv(s) && LockInv(s) && Enabled(s, step) && OwnCall(s, step)
    requires c < |s.calls| && CallInv(s, c)
    ensures CallInv(Apply(s, step), c)
  {
    if step.Insert? || step.RemoveEntry? || step.DropRuntime? {
      CallKeptByHandle(s, step, c);
    }
  }

  lemma CallKeptByHandle(s: State, step: Step, c: nat)
    requires TableInv(s) && HandInv(s) && LockInv(s) && Enabled(s, step) && OwnCall(s, step)
    requires c < |s.calls| && CallInv(s, c) && (step.Insert? || step.RemoveEntry? || step.DropRuntime?)
    ensures CallInv(Apply(s, step), c)
  {
  }

  lemma CallsKept(s: State, step: Step)
    requires TableInv(s) && CallsInv(s) && HandInv(s) && LockInv(s) && Enabled(s, step) && OwnCall(s, step)
    ensures CallsInv(Apply(s, step))
  {
    var t := Apply(s, step);
    forall c | 0 <= c < |t.calls| ensures CallInv(t, c) {
      if c < |s.calls| {
        CallKept(s, step, c);
      }
    }
  }

  lemma LockKept(s: State, step: Step)
    requires LockInv(s) && Enabled(s, step)
    ensures LockInv(Apply(s, step))
  {
  }

  lemma ForwardsKept(s: State, step: Step)
    requires ForwardInv(s) && Enabled(s, step)
    ensures ForwardInv(Apply(s, step))
  {
    var t := Apply(s, step);
    forall f | 0 <= f < |t.forwards| ensures TaskInv(t, f) {
      if f < |s.forwards| {
        TaskKept(s, step, f);
      }
    }
  }

  lemma TaskKept(s: State, step: Step, f: nat)
    requires f < |s.forwards| && TaskInv(s, f) && Enabled(s, step)
    ensures f < |Apply(s, step).forwards| && TaskInv(Apply(s, step), f)
  {
  }

  lemma StepKeeps(s: State, step: Step)
    requires Inv(s) && Enabled(s, step)
    ensures Inv(Apply(s, step))
  {
    assert OwnCall(s, step);
    TableKept(s, step);
    HandsKept(s, step);
    CallsKept(s, step);
    LockKept(s, step);
    ForwardsKept(s, step);
  }

  lemma {:induction false} RunKeeps(s: State, steps: seq<Step>)
    requires Inv(s) && Runs(s, steps)
    ensures Inv(Final(s, steps))
    decreases |steps|
  {
    if steps != [] {
      StepKeeps(s, steps[0]);
      RunKeeps(Apply(s, steps[0]), steps[1..]);
    }
  }

  // ----- What follows -----

  predicate Active(s: State, l: nat) {
    l < |s.listeners| && s.listeners[l].running && !s.listeners[l].aborted
  }

  /** The one entry of the table that is about listener `l`. */
  predicate Listed(s: State, l: nat) {
    l < |s.listeners| && s.listeners[l].key in s.table && s.table[s.listeners[l].key] == l
    && forall k :: k in s.table && s.table[k] == l ==> k == s.listeners[l].key
  }

  predicate AllListed(s: State) {
    forall l :: 0 <= l < |s.listeners| && Active(s, l) ==> Listed(s, l)
  }

  predicate KeysDiffer(s: State) {
    forall l, m :: 0 <= l < m < |s.listeners| && Active(s, l) && Active(s, m) ==> s.listeners[l].key != s.listeners[m].key
  }

  /** Some `DelForward` has taken an entry out of the table and released the mutex, but has
      not yet dropped what it took, and that listener is still running. */
  predicate DeletionUnderWay(s: State) {
    exists c :: 0 <= c < |s.calls| && s.calls[c].DelHolding?
      && s.calls[c].task < |s.listeners| && s.listeners[s.calls[c].task].running
  }

  /** Whenever the mutex is free, every running listener that was not told to stop has
      exactly one entry in the table, and no two share a key, unless a deletion is under
      way; and while one is, the first of these is false. */
  lemma ListedUnlessDeleting(steps: seq<Step>)
    requires Runs(INITIAL, steps) && Final(INITIAL, steps).lock == {}
    ensures AllListed(Final(INITIAL, steps)) <==> !DeletionUnderWay(Final(INITIAL, steps))
    ensures !DeletionUnderWay(Final(INITIAL, steps)) ==> KeysDiffer(Final(INITIAL, steps))
  {
    RunKeeps(INITIAL, steps);
    var s := Final(INITIAL, steps);
    if DeletionUnderWay(s) {
      var c :| 0 <= c < |s.calls| && s.calls[c].DelHolding?
        && s.calls[c].task < |s.listeners| && s.listeners[s.calls[c].task].running;
      assert CallInv(s, c);
      assert Active(s, s.calls[c].task) && !Listed(s, s.calls[c].task);
    } else {
      forall l | 0 <= l < |s.listeners| && Active(s, l) ensures Listed(s, l) {
        assert forall c :: 0 <= c < |s.calls| && CallInv(s, c) ==> !HoldsLock(s.calls[c]);
      }
    }
  }

  /** Once a removed or failed listener is gone, every forward task it spawned has ended or
      been aborted; when they have all ended, the registry lists none of them. */
  lemma TeardownComplete(steps: seq<Step>, l: nat)
    requires Runs(INITIAL, steps) && l < |Final(INITIAL, steps).listeners|
    requires !Final(INITIAL, steps).listeners[l].running
    ensures var s := Final(INITIAL, steps);
      forall f :: 0 <= f < |s.forwards| && s.forwards[f].listener == l ==> s.forwards[f].aborted || s.forwards[f].progress == Over
    ensures var s := Final(INITIAL, steps);
      (forall f :: 0 <= f < |s.forwards| && s.forwards[f].listener == l ==> s.forwards[f].progress == Over) ==>
        forall f :: f in s.registry ==> f < |s.forwards| && s.forwards[f].listener != l
  {
    RunKeeps(INITIAL, steps);
    var s := Final(INITIAL, steps);
    forall f | 0 <= f < |s.forwards| && s.forwards[f].listener == l
      ensures s.forwards[f].aborted || s.forwards[f].progress == Over
    {
      assert TaskInv(s, f);
    }
  }

  /** A `DelForward` that has returned has told its listener to stop, and the table no
      longer names that listener. */
  lemma DeletedIsStopped(steps: seq<Step>, c: nat)
    requires Runs(INITIAL, steps) && c < |Final(INITIAL, steps).calls| && Final(INITIAL, steps).calls[c].Deleted?
    ensures var s := Final(INITIAL, steps); var l := s.calls[c].task;
      l < |s.listeners| && s.listeners[l].aborted && forall k :: k in s.table ==> s.table[k] != l
  {
    RunKeeps(INITIAL, steps);
    assert CallInv(Final(INITIAL, steps), c);
  }

  // ----- What a run did, and where that shows -----

  /** Accepted connections of listener `l` in a run, and forward tasks of it. */
  function Accepts(steps: seq<Step>, l: nat): nat {
    if steps == [] then 0
    else Accepts(steps[..|steps| - 1], l) + (if steps[|steps| - 1] == Accept(l) then 1 else 0)
  }

  function TasksOf(forwards: seq<Forward>, l: nat): nat {
    if forwards == [] then 0
    else TasksOf(forwards[..|forwards| - 1], l) + (if forwards[|forwards| - 1].listener == l then 1 else 0)
  }

  lemma {:induction false} TasksOfSame(a: seq<Forward>, b: seq<Forward>, l: nat)
    requires |a| == |b| && forall f :: 0 <= f < |a| ==> a[f].listener == b[f].listener
    ensures TasksOf(a, l) == TasksOf(b, l)
  {
    if a != [] {
      TasksOfSame(a[..|a| - 1], b[..|b| - 1], l);
    }
  }

  lemma AcceptsKept(s: State, step: Step, past: seq<Step>, l: nat)
    requires Enabled(s, step) && TasksOf(s.forwards, l) == Accepts(past, l)
    ensures TasksOf(Apply(s, step).forwards, l) == Accepts(past + [step], l)
  {
    assert (past + [step])[..|past|] == past;
    if step.Accept? {
      OneTaskMore(s.forwards, Forward(step.l, Connecting, false), l);
    } else {
      SameTasks(s, step);
      TasksOfSame(s.forwards, Apply(s, step).forwards, l);
    }
  }

  lemma OneTaskMore(forwards: seq<Forward>, f: Forward, l: nat)
    ensures TasksOf(forwards + [f], l) == TasksOf(forwards, l) + (if f.listener == l then 1 else 0)
  {
    assert (forwards + [f])[..|forwards|] == forwards;
  }

  lemma SameTasks(s: State, step: Step)
    requires Enabled(s, step) && !step.Accept?
    ensures var t := Apply(s, step);
      |t.forwards| == |s.forwards| && forall f :: 0 <= f < |s.forwards| ==> s.forwards[f].listener == t.forwards[f].listener
  {
  }

  predicate TaskTrace(s: State, past: seq<Step>, f: nat) {
    if f < |s.forwards| then
      && (s.forwards[f].progress == Over <==> ForwardEnds(f) in past || ForwardStops(f) in past)
      && (s.forwards[f].progress == Registered ==> Register(f) in past)
      && (s.forwards[f].progress == Connecting ==> Register(f) !in past)
    else ForwardEnds(f) !in past && ForwardStops(f) !in past && Register(f) !in past
  }

  predicate ListenerTrace(s: State, past: seq<Step>, l: nat) {
    if l < |s.listeners| then
      !s.listeners[l].running <==> ListenerFails(l) in past || ListenerStops(l) in past
    else ListenerFails(l) !in past && ListenerStops(l) !in past
  }

  predicate CallTrace(s: State, past: seq<Step>, c: nat) {
    if c < |s.calls| then Bind(c, false) in past || CancelAdd(c) in past ==> s.calls[c] == AddFailed
    else Bind(c, false) !in past && CancelAdd(c) !in past
  }

  ghost predicate TraceInv(s: State, past: seq<Step>) {
    && (forall f: nat :: TaskTrace(s, past, f))
    && (forall l: nat :: ListenerTrace(s, past, l))
    && (forall c: nat :: CallTrace(s, past, c))
    && (forall l: nat :: TasksOf(s.forwards, l) == Accepts(past, l))
  }

  ghost predicate OneMore(more: seq<Step>, past: seq<Step>, step: Step) {
    forall x :: x in more <==> x in past || x == step
  }

  lemma TaskTraceKept(s: State, step: Step, past: seq<Step>, f: nat)
    requires TaskTrace(s, past, f) && Enabled(s, step)
    ensures TaskTrace(Apply(s, step), past + [step], f)
  {
    assert OneMore(past + [step], past, step);
  }

  lemma ListenerTraceKept(s: State, step: Step, past: seq<Step>, l: nat)
    requires ListenerTrace(s, past, l) && Enabled(s, step)
    ensures ListenerTrace(Apply(s, step), past + [step], l)
  {
    assert OneMore(past + [step], past, step);
  }

  lemma CallTraceKept(s: State, step: Step, past: seq<Step>, c: nat)
    requires CallTrace(s, past, c) && Enabled(s, step)
    ensures CallTrace(Apply(s, step), past + [step], c)
  {
    assert OneMore(past + [step], past, step);
  }

  lemma TraceKept(s: State, step: Step, past: seq<Step>)
    requires TraceInv(s, past) && Enabled(s, step)
    ensures TraceInv(Apply(s, step), past + [step])
  {
    var t, more := Apply(s, step), past + [step];
    forall f: nat ensures TaskTrace(t, more, f) {
      TaskTraceKept(s, step, past, f);
    }
    forall l: nat ensures ListenerTrace(t, more, l) && TasksOf(t.forwards, l) == Accepts(more, l) {
      ListenerTraceKept(s, step, past, l);
      AcceptsKept(s, step, past, l);
    }
    forall c: nat ensures CallTrace(t, more, c) {
      CallTraceKept(s, step, past, c);
    }
  }

  lemma {:induction false} TraceRuns(s: State, steps: seq<Step>, past: seq<Step>)
    requires TraceInv(s, past) && Runs(s, steps)
    ensures TraceInv(Final(s, steps), past + steps)
    decreases |steps|
  {
    if steps == [] {
      assert past + steps == past;
    } else {
      assert past + [steps[0]] + steps[1..] == past + steps;
      TraceKept(s, steps[0], past);
      TraceRuns(Apply(s, steps[0]), steps[1..], past + [steps[0]]);
    }
  }

  lemma RunsTrace(steps: seq<Step>)
    requires Runs(INITIAL, steps)
    ensures TraceInv(Final(INITIAL, steps), steps)
  {
    TraceRuns(INITIAL, steps, []);
    assert [] + steps == steps;
  }

  /** Over every run: a listener has as many forward tasks as it accepted connections; it is
      gone exactly if its accept failed or it was stopped; and the registry lists exactly
      the tasks that registered and have neither ended nor been stopped. */
  lemma OneTaskPerConnection(steps: seq<Step>, l: nat, f: nat)
    requires Runs(INITIAL, steps)
    ensures var s := Final(INITIAL, steps);
      && TasksOf(s.forwards, l) == Accepts(steps, l)
      && (l < |s.listeners| ==> (s.listeners[l].running <==> ListenerFails(l) !in steps && ListenerStops(l) !in steps))
      && (f in s.registry <==> Register(f) in steps && ForwardEnds(f) !in steps && ForwardStops(f) !in steps)
  {
    RunsTrace(steps);
    RunKeeps(INITIAL, steps);
    var s := Final(INITIAL, steps);
    assert TaskTrace(s, steps, f) && ListenerTrace(s, steps, l);
  }

  /** An `AddForward` whose bind failed, or that was cancelled, holds neither the mutex nor a
      listener. */
  lemma FailedAddLeavesNothing(steps: seq<Step>, c: nat)
    requires Runs(INITIAL, steps) && (Bind(c, false) in steps || CancelAdd(c) in steps)
    ensures var s := Final(INITIAL, steps);
      && c < |s.calls| && s.calls[c] == AddFailed && c !in s.lock
      && forall l :: 0 <= l < |s.listeners| ==> s.listeners[l].owner != Call(c)
  {
    RunsTrace(steps);
    RunKeeps(INITIAL, steps);
    var s := Final(INITIAL, steps);
    assert CallTrace(s, steps, c);
    assert CallInv(s, c);
  }

  // ----- The window between removal and abort, by example -----

  lemma {:induction false} RunsAppend(s: State, steps: seq<Step>, step: Step)
    requires Runs(s, steps) && Enabled(Final(s, steps), step)
    ensures Runs(s, steps + [step]) && Final(s, steps + [step]) == Apply(Final(s, steps), step)
    decreases |steps|
  {
    if steps == [] {
      assert [] + [step] == [step] && [step][1..] == [];
      assert Runs(Apply(s, step), []);
    } else {
      RunsAppend(Apply(s, steps[0]), steps[1..], step);
      assert (steps + [step])[1..] == steps[1..] + [step];
    }
  }

  lemma AddRunsToSpawn(before: seq<Step>, key: string) returns (steps: seq<Step>)
    requires Runs(INITIAL, before)
    requires Final(INITIAL, before).lock == {} && key !in Final(INITIAL, before).table
    ensures Runs(INITIAL, steps)
    ensures var s := Final(INITIAL, before); var c := |s.calls|;
      Final(INITIAL, steps) == s.(lock := {c}, calls := s.calls + [AddBound(key)])
  {
    var s := Final(INITIAL, before);
    var c := |s.calls|;
    RunsAppend(INITIAL, before, StartAdd(key));
    steps := before + [StartAdd(key)];
    RunsAppend(INITIAL, steps, Lock(c));
    steps := steps + [Lock(c)];
    assert Final(INITIAL, steps) == s.(lock := {c}, calls := s.calls + [AddLocked(key)]);
    RunsAppend(INITIAL, steps, Check(c));
    steps := steps + [Check(c)];
    assert Final(INITIAL, steps) == s.(lock := {c}, calls := s.calls + [AddChecked(key)]);
    RunsAppend(INITIAL, steps, Bind(c, true));
    steps := steps + [Bind(c, true)];
  }

  /** An `AddForward` that nothing disturbs. */
  lemma AddRuns(before: seq<Step>, key: string) returns (steps: seq<Step>)
    requires Runs(INITIAL, before)
    requires Final(INITIAL, before).lock == {} && key !in Final(INITIAL, before).table
    ensures Runs(INITIAL, steps)
    ensures var s, t := Final(INITIAL, before), Final(INITIAL, steps);
      && t.lock == {} && t.table == s.table[key := |s.listeners|]
      && t.listeners == s.listeners + [Listener(key, Table, true, false)]
      && t.calls == s.calls + [Added(key)]
  {
    var s := Final(INITIAL, before);
    var c, l := |s.calls|, |s.listeners|;
    steps := AddRunsToSpawn(before, key);
    RunsAppend(INITIAL, steps, Spawn(c));
    steps := steps + [Spawn(c)];
    RunsAppend(INITIAL, steps, Insert(c));
    steps := steps + [Insert(c)];
    RunsAppend(INITIAL, steps, Unlock(c));
    steps := steps + [Unlock(c)];
  }

  lemma TableNames(steps: seq<Step>, key: string)
    requires Runs(INITIAL, steps) && key in Final(INITIAL, steps).table
    ensures Final(INITIAL, steps).table[key] < |Final(INITIAL, steps).listeners|
  {
    RunKeeps(INITIAL, steps);
  }

  lemma NewTaskUnlisted(steps: seq<Step>)
    requires Runs(INITIAL, steps)
    ensures |Final(INITIAL, steps).forwards| !in Final(INITIAL, steps).registry
  {
    RunKeeps(INITIAL, steps);
  }

  /** A `DelForward` of a listed key that nothing disturbs: its entry goes, its listener is
      told to stop and can stop, and no other entry or listener changes. */
  lemma DelRuns(before: seq<Step>, key: string) returns (steps: seq<Step>)
    requires Runs(INITIAL, before) && Final(INITIAL, before).lock == {} && key in Final(INITIAL, before).table
    ensures Runs(INITIAL, steps)
    ensures var s, t := Final(INITIAL, before), Final(INITIAL, steps);
      var l := s.table[key];
      && t.lock == {} && t.table == s.table - {key} && l < |s.listeners|
      && t.calls == s.calls + [Deleted(l)]
      && t.listeners == s.listeners[l := s.listeners[l].(owner := Nobody, aborted := true)]
      && (s.listeners[l].running ==> Enabled(t, ListenerStops(l)))
  {
    TableNames(before, key);
    var s := Final(INITIAL, before);
    var c, l := |s.calls|, s.table[key];
    RunsAppend(INITIAL, before, StartDel(key));
    steps := before + [StartDel(key)];
    RunsAppend(INITIAL, steps, RemoveEntry(c));
    steps := steps + [RemoveEntry(c)];
    assert Final(INITIAL, steps).calls == s.calls + [DelHolding(l)];
    RunsAppend(INITIAL, steps, DropRuntime(c));
    steps := steps + [DropRuntime(c)];
  }

  /** One of a key that is not listed fails and changes nothing else. */
  lemma DelMisses(before: seq<Step>, key: string) returns (steps: seq<Step>)
    requires Runs(INITIAL, before) && Final(INITIAL, before).lock == {} && key !in Final(INITIAL, before).table
    ensures Runs(INITIAL, steps)
    ensures var s := Final(INITIAL, before); Final(INITIAL, steps) == s.(calls := s.calls + [DelFailed])
  {
    RunsAppend(INITIAL, before, StartDel(key));
    steps := before + [StartDel(key)];
    RunsAppend(INITIAL, steps, RemoveEntry(|Final(INITIAL, before).calls|));
    steps := steps + [RemoveEntry(|Final(INITIAL, before).calls|)];
  }

  /** A running listener can accept, and the task it spawns register and end. */
  lemma AcceptedForwardRuns(before: seq<Step>, l: nat) returns (steps: seq<Step>, f: nat)
    requires Runs(INITIAL, before) && l < |Final(INITIAL, before).listeners| && Final(INITIAL, before).listeners[l].running
    ensures before <= steps && Runs(INITIAL, steps) && Register(f) in steps
    ensures var s, t := Final(INITIAL, before), Final(INITIAL, steps);
      t == s.(forwards := s.forwards + [Forward(l, Over, false)])
  {
    NewTaskUnlisted(before);
    var s := Final(INITIAL, before);
    f := |s.forwards|;
    RunsAppend(INITIAL, before, Accept(l));
    steps := before + [Accept(l)];
    RunsAppend(INITIAL, steps, Register(f));
    steps := steps + [Register(f)];
    var at := |steps| - 1;
    RunsAppend(INITIAL, steps, ForwardEnds(f));
    steps := steps + [ForwardEnds(f)];
    assert steps[at] == Register(f);
    assert s.registry + {f} - {f} == s.registry;
  }

  /** A listener whose accept fails takes its forward tasks down with it, entries included. */
  lemma FailureTearsDown(before: seq<Step>, f: nat) returns (steps: seq<Step>)
    requires Runs(INITIAL, before) && f < |Final(INITIAL, before).forwards|
    requires var s := Final(INITIAL, before);
      s.forwards[f].progress != Over && s.forwards[f].listener < |s.listeners| && s.listeners[s.forwards[f].listener].running
    ensures Runs(INITIAL, steps)
    ensures var s, t := Final(INITIAL, before), Final(INITIAL, steps); var l := s.forwards[f].listener;
      && |t.forwards| == |s.forwards| && |t.listeners| == |s.listeners|
      && !t.listeners[l].running && t.forwards[f] == Forward(l, Over, true) && t.registry == s.registry - {f}
  {
    var l := Final(INITIAL, before).forwards[f].listener;
    RunsAppend(INITIAL, before, ListenerFails(l));
    steps := before + [ListenerFails(l)];
    RunsAppend(INITIAL, steps, ForwardStops(f));
    steps := steps + [ForwardStops(f)];
  }

  /** An `AddForward` that is cancelled while it binds gives the mutex back. */
  lemma CancelFreesLock(before: seq<Step>, c: nat)
    requires Runs(INITIAL, before) && c < |Final(INITIAL, before).calls| && Final(INITIAL, before).calls[c].AddChecked?
    ensures Runs(INITIAL, before + [CancelAdd(c)])
    ensures var s, t := Final(INITIAL, before), Final(INITIAL, before + [CancelAdd(c)]);
      t.lock == {} && t.table == s.table && t.listeners == s.listeners && |t.calls| == |s.calls| && t.calls[c] == AddFailed
  {
    RunKeeps(INITIAL, before);
    assert CallInv(Final(INITIAL, before), c);
    RunsAppend(INITIAL, before, CancelAdd(c));
  }

  /** After `DelForward` has released the mutex its listener can still be running, not
      told to stop and in no entry. The run `both` goes on to add a second listener under
      the same key; its bind succeeds only for an address that can be bound twice at a
      time, such as port 0 or a host name of several addresses. */
  lemma RemovedListenerStillRuns(key: string) returns (window: seq<Step>, both: seq<Step>)
    ensures Runs(INITIAL, window) && Final(INITIAL, window).lock == {} && !AllListed(Final(INITIAL, window))
    ensures Runs(INITIAL, both) && Final(INITIAL, both).lock == {} && !KeysDiffer(Final(INITIAL, both))
  {
    var added := AddRuns([], key);
    var s := Final(INITIAL, added);
    RunsAppend(INITIAL, added, StartDel(key));
    window := added + [StartDel(key)];
    RunsAppend(INITIAL, window, RemoveEntry(1));
    window := window + [RemoveEntry(1)];
    var t := Final(INITIAL, window);
    assert t.listeners[0] == Listener(key, Call(1), true, false) && t.table == map[];
    assert Active(t, 0) && !Listed(t, 0);
    both := AddRuns(window, key);
    var u := Final(INITIAL, both);
    assert u.listeners[0] == t.listeners[0] && u.listeners[1] == Listener(key, Table, true, false);
    assert Active(u, 0) && Active(u, 1);
  }
}
