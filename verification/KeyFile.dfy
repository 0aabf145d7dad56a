/** `src/keys.rs`: how processes that start at the same time settle on one secret key in
    one file. Clients (`load_or_create_secret_key`) rely on exclusive creation, servers
    (`load_or_create_serve_key_and_lock`) on an advisory lock that clients ignore. Every
    system call is a step; reads and writes may be short; any process may fail or crash
    at any point. Nobody deletes the file. */
module KeyFile {
  import opened Wrappers

  type Byte = bv8

  const KEY_LEN := 32

  type Key = k: seq<Byte> | |k| == 32 witness seq(32, _ => 0)

  /** `SecretKey::try_from` */
  function Parse(raw: seq<Byte>): Option<Key> {
    if |raw| == KEY_LEN then Some(raw) else None
  }

  /** Where a process is. `depth` counts its recursive retries, `acc` is what it has read,
      `pos` its write position. */
  datatype Proc =
    | ClientStart(depth: nat)
    | ClientReading(depth: nat, acc: seq<Byte>)
    | ClientCreating(depth: nat, key: Key)
    | ClientWriting(key: Key, pos: nat)
    | ClientDone(key: Key)
    | ServerStart
    | ServerOpened
    | ServerReading(acc: seq<Byte>)
    | ServerTruncating(key: Key)
    | ServerWriting(key: Key, pos: nat)
    | ServerDone(key: Key)
    | ServerExited(key: Key)
    | Failed
    | Crashed

  datatype State = State(file: Option<seq<Byte>>, lock: Option<nat>, procs: seq<Proc>)

  datatype Step =
    | SpawnClient
    | SpawnServer
    | Open(p: nat, generated: Key)
    | ReadSome(p: nat, n: nat)
    | ReadEnd(p: nat, generated: Key)
    | CreateNew(p: nat)
    | TryLock(p: nat)
    | Truncate(p: nat)
    | WriteSome(p: nat, n: nat)
    | Finish(p: nat)
    | Exit(p: nat)
    | Fail(p: nat)
    | Crash(p: nat)

  function Init(file: Option<seq<Byte>>): State {
    State(file, None, [])
  }

  function Contents(s: State): seq<Byte> {
    s.file.GetOr([])
  }

  function Zeros(n: nat): seq<Byte> {
    seq(n, _ => 0)
  }

  /** A write at an offset; a gap before it reads as zeros. */
  function WriteAt(content: seq<Byte>, pos: nat, data: seq<Byte>): seq<Byte> {
    var padded := if |content| < pos then content + Zeros(pos - |content|) else content;
    padded[..pos] + data + (if |padded| > pos + |data| then padded[pos + |data|..] else [])
  }

  predicate Alive(proc: Proc) {
    !proc.ClientDone? && !proc.ServerDone? && !proc.ServerExited? && !proc.Failed? && !proc.Crashed?
  }

  predicate Enabled(s: State, step: Step) {
    match step
    case SpawnClient => true
    case SpawnServer => true
    case Open(p, _) => p < |s.procs| && (s.procs[p].ClientStart? || s.procs[p].ServerStart?)
    case ReadSome(p, n) =>
      p < |s.procs| && (s.procs[p].ClientReading? || s.procs[p].ServerReading?)
      && 0 < n && |s.procs[p].acc| + n <= |Contents(s)|
    case ReadEnd(p, _) =>
      p < |s.procs| && (s.procs[p].ClientReading? || s.procs[p].ServerReading?) && |s.procs[p].acc| >= |Contents(s)|
    case CreateNew(p) => p < |s.procs| && s.procs[p].ClientCreating?
    case TryLock(p) => p < |s.procs| && s.procs[p].ServerOpened?
    case Truncate(p) => p < |s.procs| && s.procs[p].ServerTruncating?
    case WriteSome(p, n) =>
      p < |s.procs| && (s.procs[p].ClientWriting? || s.procs[p].ServerWriting?)
      && 0 < n && s.procs[p].pos + n <= KEY_LEN
    case Finish(p) => p < |s.procs| && (s.procs[p].ClientWriting? || s.procs[p].ServerWriting?) && s.procs[p].pos == KEY_LEN
    case Exit(p) => p < |s.procs| && s.procs[p].ServerDone?
    case Fail(p) => p < |s.procs| && Alive(s.procs[p])
    case Crash(p) => p < |s.procs| && Alive(s.procs[p])
  }

  function Unlock(s: State, p: nat): Option<nat> {
    if s.lock == Some(p) then None else s.lock
  }

  function Becomes(s: State, p: nat, proc: Proc): State
    requires p < |s.procs|
  {
    s.(procs := s.procs[p := proc])
  }

  function Apply(s: State, step: Step): State
    requires Enabled(s, step)
  {
    match step
    case SpawnClient => s.(procs := s.procs + [ClientStart(0)])
    case SpawnServer => s.(procs := s.procs + [ServerStart])
    case Open(p, generated) =>
      if s.procs[p].ServerStart? then Becomes(s, p, ServerOpened).(file := Some(Contents(s)))
      else if s.file.Some? then Becomes(s, p, ClientReading(s.procs[p].depth, []))
      else Becomes(s, p, ClientCreating(s.procs[p].depth, generated))
    case ReadSome(p, n) =>
      var acc := s.procs[p].acc;
      var more := acc + Contents(s)[|acc|..|acc| + n];
      Becomes(s, p, if s.procs[p].ClientReading? then ClientReading(s.procs[p].depth, more) else ServerReading(more))
    case ReadEnd(p, generated) =>
      var acc := s.procs[p].acc;
      if s.procs[p].ClientReading? then
        Becomes(s, p, if Parse(acc).Some? then ClientDone(acc) else Failed)
      else if acc == [] then Becomes(s, p, ServerTruncating(generated))
      else if Parse(acc).Some? then Becomes(s, p, ServerDone(acc))
      else Becomes(s, p, Failed).(lock := Unlock(s, p))
    case CreateNew(p) =>
      if s.file.None? then Becomes(s, p, ClientWriting(s.procs[p].key, 0)).(file := Some([]))
      else Becomes(s, p, ClientStart(s.procs[p].depth + 1))
    case TryLock(p) =>
      if s.lock.None? then Becomes(s, p, ServerReading([])).(lock := Some(p)) else Becomes(s, p, Failed)
    case Truncate(p) => Becomes(s, p, ServerWriting(s.procs[p].key, 0)).(file := Some([]))
    case WriteSome(p, n) =>
      var key, pos := s.procs[p].key, s.procs[p].pos;
      Becomes(s, p, if s.procs[p].ClientWriting? then ClientWriting(key, pos + n) else ServerWriting(key, pos + n))
      .(file := Some(WriteAt(Contents(s), pos, key[pos..pos + n])))
    case Finish(p) =>
      Becomes(s, p, if s.procs[p].ClientWriting? then ClientDone(s.procs[p].key) else ServerDone(s.procs[p].key))
    case Exit(p) => Becomes(s, p, ServerExited(s.procs[p].key)).(lock := Unlock(s, p))
    case Fail(p) => Becomes(s, p, Failed).(lock := Unlock(s, p))
    case Crash(p) => Becomes(s, p, Crashed).(lock := Unlock(s, p))
  }

  predicate Runs(s: State, steps: seq<Step>)
    decreases |steps|
  {
    steps == [] || (Enabled(s, steps[0]) && Runs(Apply(s, steps[0]), steps[1..]))
  }

  function Final(s: State, steps: seq<Step>): State
    requires Runs(s, steps)
    decreases |steps|
  {
    if steps == [] then s else Final(Apply(s, steps[0]), steps[1..])
  }

  predicate Succeeded(proc: Proc) {
    proc.ClientDone? || proc.ServerDone? || proc.ServerExited?
  }

  /** All successful returns give the same key. */
  predicate Agreement(s: State) {
    forall p, q :: 0 <= p < |s.procs| && 0 <= q < |s.procs| && Succeeded(s.procs[p]) && Succeeded(s.procs[q]) ==>
      s.procs[p].key == s.procs[q].key
  }

  predicate Filling(proc: Proc) {
    proc.ServerTruncating? || proc.ServerWriting?
  }

  /** A server fills in a key while a client that created the file is still writing its own. */
  predicate Overlap(s: State) {
    exists p, q :: 0 <= p < |s.procs| && 0 <= q < |s.procs| && s.procs[p].ClientWriting? && Filling(s.procs[q])
  }

  predicate NeverOverlaps(s: State, steps: seq<Step>)
    requires Runs(s, steps)
    decreases |steps|
  {
    !Overlap(s) && (steps == [] || NeverOverlaps(Apply(s, steps[0]), steps[1..]))
  }

  // ----- Invariants -----

  predicate HoldsLock(proc: Proc) {
    proc.ServerReading? || Filling(proc) || proc.ServerDone?
  }

  predicate UsesFile(proc: Proc) {
    proc.ClientReading? || proc.ClientWriting? || proc.ServerOpened? || HoldsLock(proc) || Succeeded(proc)
  }

  /** What the file must hold for a process to be where it is. */
  predicate ProcInv(s: State, p: nat)
    requires p < |s.procs|
  {
    var proc := s.procs[p];
    && (UsesFile(proc) ==> s.file.Some?)
    && (HoldsLock(proc) <==> s.lock == Some(p))
    && (Succeeded(proc) ==> Contents(s) == proc.key)
    && (proc.ClientReading? || proc.ServerReading? ==> proc.acc <= Contents(s))
    && (proc.ClientWriting? || proc.ServerWriting? ==> proc.pos <= KEY_LEN && Contents(s) == proc.key[..proc.pos])
    && (proc.ServerTruncating? ==> Contents(s) == [])
  }

  predicate MayWrite(proc: Proc) {
    proc.ClientWriting? || Filling(proc)
  }

  predicate OneWriter(s: State) {
    forall p, q :: 0 <= p < |s.procs| && 0 <= q < |s.procs| && s.procs[p].ClientWriting? && MayWrite(s.procs[q]) ==> p == q
  }

  predicate Inv(s: State) {
    (forall p :: 0 <= p < |s.procs| ==> ProcInv(s, p)) && OneWriter(s)
    && (s.lock.Some? ==> s.lock.value < |s.procs|)
  }

  lemma WriteExtends(key: Key, pos: nat, n: nat)
    requires pos + n <= KEY_LEN
    ensures WriteAt(key[..pos], pos, key[pos..pos + n]) == key[..pos + n]
  {
  }

  /** The file as seen by the other processes only ever grows. */
  lemma FileGrows(s: State, step: Step)
    requires Inv(s) && Enabled(s, step)
    ensures Contents(s) <= Contents(Apply(s, step))
    ensures s.file.Some? ==> Apply(s, step).file.Some?
    ensures |Contents(s)| == KEY_LEN ==> Contents(Apply(s, step)) == Contents(s)
  {
    match step
    case WriteSome(p, n) =>
      assert ProcInv(s, p);
      WriteExtends(s.procs[p].key, s.procs[p].pos, n);
    case Truncate(p) => assert ProcInv(s, p);
    case _ =>
  }

  /** The process a step belongs to. */
  function Actor(step: Step): Option<nat> {
    match step
    case SpawnClient => None
    case SpawnServer => None
    case Open(p, _) => Some(p)
    case ReadSome(p, _) => Some(p)
    case ReadEnd(p, _) => Some(p)
    case CreateNew(p) => Some(p)
    case TryLock(p) => Some(p)
    case Truncate(p) => Some(p)
    case WriteSome(p, _) => Some(p)
    case Finish(p) => Some(p)
    case Exit(p) => Some(p)
    case Fail(p) => Some(p)
    case Crash(p) => Some(p)
  }

  lemma ActorKept(s: State, step: Step, p: nat)
    requires p < |s.procs| && ProcInv(s, p) && Enabled(s, step) && Actor(step) == Some(p)
    ensures ProcInv(Apply(s, step), p)
  {
    match step
    case WriteSome(_, n) => WritingKept(s, p, n);
    case ReadSome(_, n) => ReaderKept(s, p, n);
    case ReadEnd(_, generated) => EndOfFileKept(s, p, generated);
    case Open(_, generated) => OpenKept(s, p, generated);
    case _ =>
  }

  lemma OpenKept(s: State, p: nat, generated: Key)
    requires p < |s.procs| && ProcInv(s, p) && Enabled(s, Open(p, generated))
    ensures ProcInv(Apply(s, Open(p, generated)), p)
  {
  }

  lemma WritingKept(s: State, p: nat, n: nat)
    requires p < |s.procs| && ProcInv(s, p) && Enabled(s, WriteSome(p, n))
    ensures ProcInv(Apply(s, WriteSome(p, n)), p)
  {
    WriteExtends(s.procs[p].key, s.procs[p].pos, n);
  }

  lemma ReaderKept(s: State, p: nat, n: nat)
    requires p < |s.procs| && ProcInv(s, p) && Enabled(s, ReadSome(p, n))
    ensures ProcInv(Apply(s, ReadSome(p, n)), p)
  {
    var acc := s.procs[p].acc;
    assert acc == Contents(s)[..|acc|];
    assert acc + Contents(s)[|acc|..|acc| + n] == Contents(s)[..|acc| + n];
  }

  lemma EndOfFileKept(s: State, p: nat, generated: Key)
    requires p < |s.procs| && ProcInv(s, p) && Enabled(s, ReadEnd(p, generated))
    ensures ProcInv(Apply(s, ReadEnd(p, generated)), p)
  {
  }

  lemma OtherKept(s: State, step: Step, q: nat)
    requires Inv(s) && Enabled(s, step) && Actor(step) != Some(q) && q < |s.procs|
    ensures q < |Apply(s, step).procs| && ProcInv(Apply(s, step), q)
  {
    assert ProcInv(s, q);
    FileGrows(s, step);
    if Actor(step).Some? {
      assert ProcInv(s, Actor(step).value);
    }
  }

  lemma WriterKept(s: State, step: Step)
    requires Inv(s) && Enabled(s, step) && !Overlap(Apply(s, step))
    ensures OneWriter(Apply(s, step))
  {
    var t := Apply(s, step);
    forall p, q | 0 <= p < |t.procs| && 0 <= q < |t.procs| && t.procs[p].ClientWriting? && MayWrite(t.procs[q])
      ensures p == q
    {
      if p < |s.procs| && q < |s.procs| {
        assert ProcInv(s, p) && ProcInv(s, q);
      }
    }
  }

  lemma StepKeeps(s: State, step: Step)
    requires Inv(s) && Enabled(s, step) && !Overlap(Apply(s, step))
    ensures Inv(Apply(s, step))
  {
    var t := Apply(s, step);
    forall p | 0 <= p < |t.procs| ensures ProcInv(t, p) {
      if Actor(step) == Some(p) {
        ActorKept(s, step, p);
      } else if p < |s.procs| {
        OtherKept(s, step, p);
      }
    }
    WriterKept(s, step);
  }

  lemma {:induction false} RunKeeps(s: State, steps: seq<Step>)
    requires Inv(s) && Runs(s, steps) && NeverOverlaps(s, steps)
    ensures Inv(Final(s, steps))
    decreases |steps|
  {
    if steps != [] {
      assert !Overlap(Apply(s, steps[0]));
      StepKeeps(s, steps[0]);
      RunKeeps(Apply(s, steps[0]), steps[1..]);
    }
  }

  // ----- Agreement -----

  /** Clients and servers mixed in any number, over any file found at the start: as long
      as no server fills the file while a client that created it is still writing, all
      successful returns give the same key, and it is the one in the file. */
  lemma AgreeWithoutOverlap(file: Option<seq<Byte>>, steps: seq<Step>)
    requires Runs(Init(file), steps) && NeverOverlaps(Init(file), steps)
    ensures var s := Final(Init(file), steps);
      Agreement(s) && forall p :: 0 <= p < |s.procs| && Succeeded(s.procs[p]) ==> s.file == Some(s.procs[p].key)
  {
    RunKeeps(Init(file), steps);
    var s := Final(Init(file), steps);
    forall p | 0 <= p < |s.procs| && Succeeded(s.procs[p]) ensures s.file == Some(s.procs[p].key) {
      assert ProcInv(s, p);
    }
  }

  predicate IsClient(proc: Proc) {
    proc.ClientStart? || proc.ClientReading? || proc.ClientCreating? || proc.ClientWriting? || proc.ClientDone?
  }

  predicate IsServer(proc: Proc) {
    !IsClient(proc) && !proc.Failed? && !proc.Crashed?
  }

  predicate NoServers(s: State) {
    forall p :: 0 <= p < |s.procs| ==> !IsServer(s.procs[p])
  }

  predicate NoClients(s: State) {
    forall p :: 0 <= p < |s.procs| ==> !IsClient(s.procs[p])
  }

  lemma {:induction false} OneFamilyNeverOverlaps(s: State, steps: seq<Step>)
    requires Runs(s, steps)
    requires (NoServers(s) && SpawnServer !in steps) || (NoClients(s) && SpawnClient !in steps)
    ensures NeverOverlaps(s, steps)
    decreases |steps|
  {
    if steps != [] {
      assert forall x :: x in steps[1..] ==> x in steps;
      OneFamilyNeverOverlaps(Apply(s, steps[0]), steps[1..]);
    }
  }

  /** Clients alone always agree. */
  lemma ClientsAgree(file: Option<seq<Byte>>, steps: seq<Step>)
    requires Runs(Init(file), steps) && SpawnServer !in steps
    ensures Agreement(Final(Init(file), steps))
  {
    OneFamilyNeverOverlaps(Init(file), steps);
    AgreeWithoutOverlap(file, steps);
  }

  /** Servers alone always agree. */
  lemma ServersAgree(file: Option<seq<Byte>>, steps: seq<Step>)
    requires Runs(Init(file), steps) && SpawnClient !in steps
    ensures Agreement(Final(Init(file), steps))
  {
    OneFamilyNeverOverlaps(Init(file), steps);
    AgreeWithoutOverlap(file, steps);
  }

  predicate DepthInv(s: State) {
    forall p :: 0 <= p < |s.procs| ==>
      && (s.procs[p].ClientStart? ==> s.procs[p].depth <= 1 && (s.procs[p].depth == 1 ==> s.file.Some?))
      && (s.procs[p].ClientReading? ==> s.procs[p].depth <= 1)
      && (s.procs[p].ClientCreating? ==> s.procs[p].depth == 0)
  }

  lemma {:induction false} DepthKept(s: State, steps: seq<Step>)
    requires Runs(s, steps) && DepthInv(s)
    ensures DepthInv(Final(s, steps))
    decreases |steps|
  {
    if steps != [] {
      DepthKept(Apply(s, steps[0]), steps[1..]);
    }
  }

  /** A client retries at most once, whoever else is at work: the file its exclusive create
      ran into is still there when it reads again. */
  lemma RetriesAtMostOnce(file: Option<seq<Byte>>, steps: seq<Step>)
    requires Runs(Init(file), steps)
    ensures forall p :: 0 <= p < |Final(Init(file), steps).procs| ==>
      var proc := Final(Init(file), steps).procs[p];
      proc.ClientStart? || proc.ClientReading? || proc.ClientCreating? ==> proc.depth <= 1
  {
    DepthKept(Init(file), steps);
  }

  // ----- How processes end -----

  /** The lock is in the hands of exactly the process that is past taking it. */
  predicate LockTrace(s: State, past: seq<Step>, p: nat) {
    if p < |s.procs| then
      && (HoldsLock(s.procs[p]) <==> s.lock == Some(p))
      && (s.procs[p].Crashed? <==> Crash(p) in past)
      && (Fail(p) in past ==> s.procs[p].Failed?)
      && (s.procs[p].ServerExited? <==> Exit(p) in past)
    else s.lock != Some(p) && Crash(p) !in past && Fail(p) !in past && Exit(p) !in past
  }

  lemma LockTraceKept(s: State, step: Step, past: seq<Step>, p: nat)
    requires LockTrace(s, past, p) && Enabled(s, step)
    requires Actor(step).Some? ==> Actor(step).value < |s.procs| && LockTrace(s, past, Actor(step).value)
    ensures LockTrace(Apply(s, step), past + [step], p)
  {
    if Actor(step) == Some(p) {
      OwnLockTrace(s, step, past, p);
    } else {
      OtherLockTrace(s, step, past, p);
    }
  }

  lemma OwnLockTrace(s: State, step: Step, past: seq<Step>, p: nat)
    requires p < |s.procs| && LockTrace(s, past, p) && Enabled(s, step) && Actor(step) == Some(p)
    ensures LockTrace(Apply(s, step), past + [step], p)
  {
    assert forall x :: x in past + [step] <==> x in past || x == step;
  }

  lemma OtherLockTrace(s: State, step: Step, past: seq<Step>, p: nat)
    requires LockTrace(s, past, p) && Enabled(s, step) && Actor(step) != Some(p)
    requires Actor(step).Some? ==> Actor(step).value < |s.procs| && LockTrace(s, past, Actor(step).value)
    ensures LockTrace(Apply(s, step), past + [step], p)
  {
    assert forall x :: x in past + [step] <==> x in past || x == step;
  }

  lemma {:induction false} LockTraceRuns(s: State, steps: seq<Step>, past: seq<Step>)
    requires Runs(s, steps) && forall p: nat :: LockTrace(s, past, p)
    ensures forall p: nat :: LockTrace(Final(s, steps), past + steps, p)
    decreases |steps|
  {
    if steps == [] {
      assert past + steps == past;
    } else {
      forall p: nat ensures LockTrace(Apply(s, steps[0]), past + [steps[0]], p) {
        LockTraceKept(s, steps[0], past, p);
      }
      LockTraceRuns(Apply(s, steps[0]), steps[1..], past + [steps[0]]);
      assert past + [steps[0]] + steps[1..] == past + steps;
    }
  }

  /** Over every run, clients and servers mixed: at most one process holds the lock, and one
      that failed, crashed or exited has ended as such and does not hold it. */
  lemma LockIsReleased(file: Option<seq<Byte>>, steps: seq<Step>, p: nat)
    requires Runs(Init(file), steps) && p < |Final(Init(file), steps).procs|
    ensures var s := Final(Init(file), steps);
      && (HoldsLock(s.procs[p]) <==> s.lock == Some(p))
      && (s.procs[p].Crashed? <==> Crash(p) in steps)
      && (s.procs[p].ServerExited? <==> Exit(p) in steps)
      && (Fail(p) in steps ==> s.procs[p].Failed?)
      && (Crash(p) in steps || Exit(p) in steps || Fail(p) in steps ==> s.lock != Some(p))
  {
    LockTraceRuns(Init(file), steps, []);
    assert [] + steps == steps;
    assert LockTrace(Final(Init(file), steps), steps, p);
  }

  // ----- Where the families meet -----

  lemma {:induction false} RunsAppend(s: State, steps: seq<Step>, step: Step)
    requires Runs(s, steps) && Enabled(Final(s, steps), step)
    ensures Runs(s, steps + [step]) && Final(s, steps + [step]) == Apply(Final(s, steps), step)
    decreases |steps|
  {
    if steps == [] {
      assert [] + [step] == [step] && [step][1..] == [];
      assert Runs(Apply(s, step), []);
    } else {
      RunsAppend(Apply(s, steps[0]), steps[1..], step);
      assert (steps + [step])[1..] == steps[1..] + [step];
    }
  }

  /** A writer left to itself writes what is missing and returns its key; nobody else moves. */
  lemma WriterReturns(s0: State, before: seq<Step>, p: nat) returns (steps: seq<Step>)
    requires Runs(s0, before) && p < |Final(s0, before).procs|
    requires var proc := Final(s0, before).procs[p];
      (proc.ClientWriting? || proc.ServerWriting?) && proc.pos <= KEY_LEN
    ensures Runs(s0, steps)
    ensures var s, t := Final(s0, before), Final(s0, steps); var key := s.procs[p].key;
      t.procs == s.procs[p := if s.procs[p].ClientWriting? then ClientDone(key) else ServerDone(key)]
  {
    var s := Final(s0, before);
    steps := before;
    if s.procs[p].pos < KEY_LEN {
      var write := WriteSome(p, KEY_LEN - s.procs[p].pos);
      RunsAppend(s0, steps, write);
      steps := steps + [write];
    }
    RunsAppend(s0, steps, Finish(p));
    steps := steps + [Finish(p)];
  }

  /** A client that nobody disturbs returns: with the stored key where a whole one is there,
      with its own, which it then has stored, where there is no file. */
  lemma ClientReturns(s0: State, before: seq<Step>, p: nat, generated: Key) returns (steps: seq<Step>)
    requires Runs(s0, before) && p < |Final(s0, before).procs| && Final(s0, before).procs[p].ClientStart?
    requires var file := Final(s0, before).file; file.None? || |file.value| == KEY_LEN
    ensures Runs(s0, steps)
    ensures var s := Final(s0, before); var key := s.file.GetOr(generated);
      Final(s0, steps) == State(Some(key), s.lock, s.procs[p := ClientDone(key)])
  {
    var s := Final(s0, before);
    RunsAppend(s0, before, Open(p, generated));
    steps := before + [Open(p, generated)];
    if s.file.Some? {
      steps := ReaderReturns(s0, steps, p, generated);
    } else {
      RunsAppend(s0, steps, CreateNew(p));
      steps := steps + [CreateNew(p)];
      steps := WritesWhole(s0, steps, p);
    }
  }

  /** A process that is about to read a whole key reads it and returns it. */
  lemma ReaderReturns(s0: State, before: seq<Step>, p: nat, generated: Key) returns (steps: seq<Step>)
    requires Runs(s0, before) && p < |Final(s0, before).procs| && |Contents(Final(s0, before))| == KEY_LEN
    requires var proc := Final(s0, before).procs[p]; (proc.ClientReading? || proc.ServerReading?) && proc.acc == []
    ensures Runs(s0, steps)
    ensures var s := Final(s0, before); var key := Contents(s);
      Final(s0, steps) == s.(procs := s.procs[p := if s.procs[p].ClientReading? then ClientDone(key) else ServerDone(key)])
  {
    var s := Final(s0, before);
    assert Contents(s)[0..KEY_LEN] == Contents(s) && [] + Contents(s) == Contents(s);
    RunsAppend(s0, before, ReadSome(p, KEY_LEN));
    steps := before + [ReadSome(p, KEY_LEN)];
    assert Final(s0, steps).procs[p].acc == Contents(s);
    RunsAppend(s0, steps, ReadEnd(p, generated));
    steps := steps + [ReadEnd(p, generated)];
  }

  /** A writer at the start of an empty file writes its whole key and returns it. */
  lemma WritesWhole(s0: State, before: seq<Step>, p: nat) returns (steps: seq<Step>)
    requires Runs(s0, before) && p < |Final(s0, before).procs| && Final(s0, before).file == Some([])
    requires var proc := Final(s0, before).procs[p]; (proc.ClientWriting? || proc.ServerWriting?) && proc.pos == 0
    ensures Runs(s0, steps)
    ensures var s := Final(s0, before); var key := s.procs[p].key;
      Final(s0, steps)
        == State(Some(key), s.lock, s.procs[p := if s.procs[p].ClientWriting? then ClientDone(key) else ServerDone(key)])
  {
    var key := Final(s0, before).procs[p].key;
    WriteExtends(key, 0, KEY_LEN);
    assert key[..0] == [] && key[..KEY_LEN] == key;
    RunsAppend(s0, before, WriteSome(p, KEY_LEN));
    steps := before + [WriteSome(p, KEY_LEN)];
    assert Final(s0, steps).file == Some(key);
    RunsAppend(s0, steps, Finish(p));
    steps := steps + [Finish(p)];
  }

  /** A client that loses the race to create the file retries, and returns the key that the
      winner has stored. */
  lemma LoserReturnsStored(s0: State, before: seq<Step>, p: nat, generated: Key) returns (steps: seq<Step>)
    requires Runs(s0, before) && p < |Final(s0, before).procs| && Final(s0, before).procs[p].ClientCreating?
    requires |Contents(Final(s0, before))| == KEY_LEN
    ensures Runs(s0, steps)
    ensures var s := Final(s0, before);
      Final(s0, steps) == s.(procs := s.procs[p := ClientDone(Contents(s))])
  {
    var s := Final(s0, before);
    RunsAppend(s0, before, CreateNew(p));
    assert Final(s0, before + [CreateNew(p)]) == s.(procs := s.procs[p := ClientStart(s.procs[p].depth + 1)]);
    steps := ClientReturns(s0, before + [CreateNew(p)], p, generated);
  }

  /** A server that nobody disturbs and that finds the lock free returns too, and holds it:
      with the stored key where a whole one is there, with its own where the file is empty
      or missing. One that finds the lock taken fails and leaves the contents alone. */
  lemma ServerReturns(s0: State, before: seq<Step>, p: nat, generated: Key) returns (steps: seq<Step>)
    requires Runs(s0, before) && p < |Final(s0, before).procs| && Final(s0, before).procs[p].ServerStart?
    requires var raw := Contents(Final(s0, before)); raw == [] || |raw| == KEY_LEN
    ensures Runs(s0, steps)
    ensures var s := Final(s0, before); var key := if Contents(s) == [] then generated else Contents(s);
      Final(s0, steps) ==
        if s.lock.None? then State(Some(key), Some(p), s.procs[p := ServerDone(key)])
        else State(Some(Contents(s)), s.lock, s.procs[p := Failed])
  {
    var s := Final(s0, before);
    RunsAppend(s0, before, Open(p, generated));
    steps := before + [Open(p, generated)];
    RunsAppend(s0, steps, TryLock(p));
    steps := steps + [TryLock(p)];
    if s.lock.None? {
      var t := Final(s0, steps);
      assert t == State(Some(Contents(s)), Some(p), s.procs[p := ServerReading([])]);
      if Contents(s) == [] {
        RunsAppend(s0, steps, ReadEnd(p, generated));
        steps := steps + [ReadEnd(p, generated)];
        RunsAppend(s0, steps, Truncate(p));
        steps := steps + [Truncate(p)];
        assert Final(s0, steps) == State(Some([]), Some(p), s.procs[p := ServerWriting(generated, 0)]);
        steps := WritesWhole(s0, steps, p);
      } else {
        steps := ReaderReturns(s0, steps, p, generated);
      }
    }
  }

  /** The lock passes on however its holder ends: by exit once it is done, or by a failure or
      crash anywhere before; a server started then returns the stored key, or fills a file
      that is still empty. */
  lemma LockPassesOn(s0: State, before: seq<Step>, p: nat, ends: Step, generated: Key) returns (steps: seq<Step>)
    requires Runs(s0, before) && p < |Final(s0, before).procs| && Final(s0, before).lock == Some(p)
    requires var proc := Final(s0, before).procs[p];
      if proc.ServerDone? then ends == Exit(p) else Alive(proc) && (ends == Fail(p) || ends == Crash(p))
    requires var raw := Contents(Final(s0, before)); raw == [] || |raw| == KEY_LEN
    ensures Runs(s0, steps)
    ensures var s, t := Final(s0, before), Final(s0, steps); var q := |s.procs|;
      var key := if Contents(s) == [] then generated else Contents(s);
      t.file == Some(key) && t.lock == Some(q) && q < |t.procs| && t.procs[q] == ServerDone(key)
  {
    RunsAppend(s0, before, ends);
    steps := before + [ends];
    RunsAppend(s0, steps, SpawnServer);
    steps := steps + [SpawnServer];
    steps := ServerReturns(s0, steps, |Final(s0, before).procs|, generated);
  }

  /** The condition is exact: wherever a server has begun to fill in one key while a client
      is still writing another, the two can both go on to return, with different keys. */
  lemma OverlapCanDisagree(s0: State, before: seq<Step>, p: nat, q: nat) returns (steps: seq<Step>)
    requires Runs(s0, before)
    requires var s := Final(s0, before);
      && p < |s.procs| && q < |s.procs| && s.procs[p].ClientWriting? && Filling(s.procs[q])
      && s.procs[p].key != s.procs[q].key && s.procs[p].pos <= KEY_LEN
      && (s.procs[q].ServerWriting? ==> s.procs[q].pos <= KEY_LEN)
    ensures Runs(s0, steps) && !Agreement(Final(s0, steps))
  {
    var s := Final(s0, before);
    steps := before;
    if s.procs[q].ServerTruncating? {
      RunsAppend(s0, steps, Truncate(q));
      steps := steps + [Truncate(q)];
    }
    steps := WriterReturns(s0, steps, q);
    steps := WriterReturns(s0, steps, p);
    var t := Final(s0, steps);
    assert Succeeded(t.procs[p]) && Succeeded(t.procs[q]);
  }

  /** Such a moment is reached from an empty directory by one client and one server: the
      client has created the file and written nothing, the server reads it as empty. */
  lemma MixedFamiliesCanDisagree(a: Key, b: Key) returns (steps: seq<Step>)
    requires a != b
    ensures Runs(Init(None), steps) && !Agreement(Final(Init(None), steps))
  {
    var s0 := Init(None);
    steps := [];
    RunsAppend(s0, steps, SpawnClient);
    steps := steps + [SpawnClient];
    RunsAppend(s0, steps, Open(0, a));
    steps := steps + [Open(0, a)];
    RunsAppend(s0, steps, CreateNew(0));
    steps := steps + [CreateNew(0)];
    assert Final(s0, steps) == State(Some([]), None, [ClientWriting(a, 0)]);
    RunsAppend(s0, steps, SpawnServer);
    steps := steps + [SpawnServer];
    RunsAppend(s0, steps, Open(1, b));
    steps := steps + [Open(1, b)];
    RunsAppend(s0, steps, TryLock(1));
    steps := steps + [TryLock(1)];
    assert Final(s0, steps) == State(Some([]), Some(1), [ClientWriting(a, 0), ServerReading([])]);
    RunsAppend(s0, steps, ReadEnd(1, b));
    steps := steps + [ReadEnd(1, b)];
    steps := OverlapCanDisagree(s0, steps, 0, 1);
  }

  // ----- The two functions as one process runs them -----

  /** The key file in the hands of one process. `appears` is what another process may put
      there between this one's failed read and its exclusive create. */
  class KeyStore {
    var content: Option<seq<Byte>>

    method LoadOrCreateSecretKey(generated: Key, appears: Option<seq<Byte>>) returns (key: Option<Key>)
      modifies this
      ensures content == if old(content).Some? then old(content) else if appears.Some? then appears else Some(generated)
      ensures key == Parse(content.value)
      decreases content.None?
    {
      if content.Some? {
        return Parse(content.value);
      }
      content := appears;
      if content.Some? {
        key := LoadOrCreateSecretKey(generated, None);
        return;
      }
      content := Some([]);
      content := Some(content.value + generated);
      assert [] + generated == generated;
      return Some(generated);
    }

    /** With the lock held: an empty or missing file is filled, any other is only read. */
    method LoadOrCreateServeKey(generated: Key) returns (key: Option<Key>)
      modifies this
      ensures content == if old(content).GetOr([]) == [] then Some(generated) else old(content)
      ensures key == Parse(content.value)
    {
      content := Some(content.GetOr([]));
      var raw := content.value;
      if raw == [] {
        content := Some([]);
        content := Some(content.value + generated);
        assert [] + generated == generated;
        return Some(generated);
      }
      return Parse(raw);
    }
  }
}
