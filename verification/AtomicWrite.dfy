/** `write_config_atomic`, `temp_config_path` and `replace_file` of `src/config.rs`: any
    number of writers that prepare a temporary file and rename it over the configuration,
    with I/O errors, killed processes and power loss at every point. */
module AtomicWrite {
  import opened Wrappers
  import opened Decimal
  import opened IdCounter

  type Byte = bv8

  /** File contents; until they are `durable` a power loss may leave anything. */
  datatype File = File(data: seq<Byte>, durable: bool)

  datatype Phase = Starting | Writing(pos: nat) | Synced | OldRemoved | Failing | Succeeded | Errored | Killed

  /** `temp` is the writer's temporary name, `bytes` the configuration it writes, `renamed`
      whether its rename took place. */
  datatype Writer = Writer(temp: string, bytes: seq<Byte>, phase: Phase, renamed: bool)

  /** `config` is the directory's present entry for the configuration; `earlier` holds the
      entries it had before, any of which a power loss may bring back. */
  datatype State = State(
    windows: bool, config: Option<File>, earlier: seq<Option<File>>, temps: map<string, File>, writers: seq<Writer>)

  datatype Step =
    | Begin(temp: string, bytes: seq<Byte>)
    | CreateTemp(w: nat)
    | WriteSome(w: nat, n: nat)
    | SyncAll(w: nat)
    | RemoveOld(w: nat)
    | Rename(w: nat)
    | IoError(w: nat)
    | Cleanup(w: nat, removed: bool)
    | Kill(w: nat)
    | PowerLoss(entry: nat, garbage: map<string, seq<Byte>>)

  function Init(windows: bool, config: Option<seq<Byte>>): State {
    State(windows, if config.Some? then Some(File(config.value, true)) else None, [], map[], [])
  }

  predicate Running(phase: Phase) {
    phase == Starting || phase.Writing? || phase == Synced || phase == OldRemoved || phase == Failing
  }

  /** Temporary names of writers under way differ: see `TempNamesDiffer`. */
  predicate FreeName(s: State, temp: string) {
    forall w :: 0 <= w < |s.writers| && Running(s.writers[w].phase) ==> s.writers[w].temp != temp
  }

  predicate Owns(s: State, w: nat) {
    w < |s.writers| && s.writers[w].temp in s.temps
  }

  predicate Enabled(s: State, step: Step) {
    match step
    case Begin(temp, _) => FreeName(s, temp)
    case CreateTemp(w) => w < |s.writers| && s.writers[w].phase == Starting
    case WriteSome(w, n) =>
      Owns(s, w) && s.writers[w].phase.Writing? && 0 < n && s.writers[w].phase.pos + n <= |s.writers[w].bytes|
    case SyncAll(w) => Owns(s, w) && s.writers[w].phase == Writing(|s.writers[w].bytes|)
    case RemoveOld(w) => s.windows && w < |s.writers| && s.writers[w].phase == Synced && s.config.Some?
    case Rename(w) =>
      Owns(s, w) && (s.writers[w].phase == OldRemoved || (s.writers[w].phase == Synced && (!s.windows || s.config.None?)))
    case IoError(w) => w < |s.writers| && Running(s.writers[w].phase) && s.writers[w].phase != Failing
    case Cleanup(w, _) => w < |s.writers| && s.writers[w].phase == Failing
    case Kill(w) => w < |s.writers| && Running(s.writers[w].phase)
    case PowerLoss(entry, garbage) => entry <= |s.earlier|
  }

  function Moved(s: State, w: nat, phase: Phase): State
    requires w < |s.writers|
  {
    s.(writers := s.writers[w := s.writers[w].(phase := phase)])
  }

  function Replaced(s: State, config: Option<File>): State {
    s.(config := config, earlier := s.earlier + [s.config])
  }

  function Survives(file: File, garbage: seq<Byte>): File {
    if file.durable then file else File(garbage, true)
  }

  function KillAll(writers: seq<Writer>): (r: seq<Writer>)
    ensures |r| == |writers|
    ensures forall w :: 0 <= w < |r| ==>
      r[w] == if Running(writers[w].phase) then writers[w].(phase := Killed) else writers[w]
  {
    if writers == [] then []
    else
      var last := writers[|writers| - 1];
      KillAll(writers[..|writers| - 1]) + [if Running(last.phase) then last.(phase := Killed) else last]
  }

  function Apply(s: State, step: Step): State
    requires Enabled(s, step)
  {
    match step
    case Begin(temp, bytes) => s.(writers := s.writers + [Writer(temp, bytes, Starting, false)])
    case CreateTemp(w) =>
      var temp := s.writers[w].temp;
      if temp in s.temps then Moved(s, w, Failing)
      else Moved(s, w, Writing(0)).(temps := s.temps[temp := File([], false)])
    case WriteSome(w, n) =>
      var temp, pos := s.writers[w].temp, s.writers[w].phase.pos;
      Moved(s, w, Writing(pos + n))
      .(temps := s.temps[temp := File(s.temps[temp].data + s.writers[w].bytes[pos..pos + n], false)])
    case SyncAll(w) =>
      var temp := s.writers[w].temp;
      Moved(s, w, Synced).(temps := s.temps[temp := s.temps[temp].(durable := true)])
    case RemoveOld(w) => Moved(Replaced(s, None), w, OldRemoved)
    case Rename(w) =>
      var writer := s.writers[w];
      Replaced(s, Some(s.temps[writer.temp]))
      .(temps := s.temps - {writer.temp}, writers := s.writers[w := writer.(phase := Succeeded, renamed := true)])
    case IoError(w) => Moved(s, w, Failing)
    case Cleanup(w, removed) =>
      Moved(s, w, Errored).(temps := if removed then s.temps - {s.writers[w].temp} else s.temps)
    case Kill(w) => Moved(s, w, Killed)
    case PowerLoss(entry, garbage) =>
      var config := if entry < |s.earlier| then s.earlier[entry] else s.config;
      s.(config := if config.Some? then Some(Survives(config.value, if "" in garbage then garbage[""] else [])) else None,
         temps := map t | t in s.temps :: Survives(s.temps[t], if t in garbage then garbage[t] else []),
         writers := KillAll(s.writers))
  }

  predicate Runs(s: State, steps: seq<Step>)
    decreases |steps|
  {
    steps == [] || (Enabled(s, steps[0]) && Runs(Apply(s, steps[0]), steps[1..]))
  }

  function Final(s: State, steps: seq<Step>): State
    requires Runs(s, steps)
    decreases |steps|
  {
    if steps == [] then s else Final(Apply(s, steps[0]), steps[1..])
  }

  /** An entry the configuration may have: on disk in full, and either what was there in
      the beginning or the whole content of a writer whose rename took place. */
  predicate WholeEntry(s: State, initial: Option<seq<Byte>>, entry: Option<File>) {
    match entry
    case None => initial == None || s.windows
    case Some(f) => f.durable && (initial == Some(f.data) || WrittenBy(s, f.data))
  }

  predicate WrittenBy(s: State, data: seq<Byte>) {
    exists w :: 0 <= w < |s.writers| && s.writers[w].renamed && s.writers[w].bytes == data
  }

  predicate WriterInv(s: State, w: nat)
    requires w < |s.writers|
  {
    var writer := s.writers[w];
    && (writer.phase.Writing? ==>
          Owns(s, w) && writer.phase.pos <= |writer.bytes| && s.temps[writer.temp].data == writer.bytes[..writer.phase.pos])
    && (writer.phase == Synced || writer.phase == OldRemoved ==> Owns(s, w) && s.temps[writer.temp] == File(writer.bytes, true))
    && (writer.renamed ==> writer.phase == Succeeded)
    && (writer.phase == Succeeded ==> writer.renamed)
    && (writer.phase == OldRemoved ==> s.windows)
  }

  predicate NamesDiffer(s: State) {
    forall v, w :: 0 <= v < w < |s.writers| && Running(s.writers[v].phase) && Running(s.writers[w].phase) ==>
      s.writers[v].temp != s.writers[w].temp
  }

  predicate EntriesInv(s: State, initial: Option<seq<Byte>>) {
    && WholeEntry(s, initial, s.config)
    && (forall i :: 0 <= i < |s.earlier| ==> WholeEntry(s, initial, s.earlier[i]))
  }

  predicate WritersInv(s: State) {
    forall w :: 0 <= w < |s.writers| ==> WriterInv(s, w)
  }

  predicate Inv(s: State, initial: Option<seq<Byte>>) {
    EntriesInv(s, initial) && WritersInv(s) && NamesDiffer(s)
  }

  lemma WritersKept(s: State, step: Step)
    requires WritersInv(s) && NamesDiffer(s) && Enabled(s, step)
    ensures WritersInv(Apply(s, step)) && NamesDiffer(Apply(s, step))
  {
    var t := Apply(s, step);
    forall w | 0 <= w < |t.writers| ensures WriterInv(t, w) {
      if w < |s.writers| {
        WriterKept(s, step, w);
      }
    }
  }

  /** The writer a step belongs to. */
  function Actor(step: Step): Option<nat> {
    match step
    case Begin(_, _) => None
    case CreateTemp(w) => Some(w)
    case WriteSome(w, _) => Some(w)
    case SyncAll(w) => Some(w)
    case RemoveOld(w) => Some(w)
    case Rename(w) => Some(w)
    case IoError(w) => Some(w)
    case Cleanup(w, _) => Some(w)
    case Kill(w) => Some(w)
    case PowerLoss(_, _) => None
  }

  lemma WriterKept(s: State, step: Step, w: nat)
    requires w < |s.writers| && WriterInv(s, w) && NamesDiffer(s) && Enabled(s, step)
    ensures WriterInv(Apply(s, step), w)
  {
    if Actor(step) == Some(w) {
      ActorKept(s, step, w);
    } else {
      OtherKept(s, step, w);
    }
  }

  lemma ActorKept(s: State, step: Step, w: nat)
    requires w < |s.writers| && WriterInv(s, w) && Enabled(s, step) && Actor(step) == Some(w)
    ensures WriterInv(Apply(s, step), w)
  {
    if step.WriteSome? {
      var bytes, pos := s.writers[w].bytes, s.writers[w].phase.pos;
      assert bytes[..pos] + bytes[pos..pos + step.n] == bytes[..pos + step.n];
    }
  }

  lemma OtherKept(s: State, step: Step, w: nat)
    requires w < |s.writers| && WriterInv(s, w) && NamesDiffer(s) && Enabled(s, step) && Actor(step) != Some(w)
    ensures WriterInv(Apply(s, step), w)
  {
  }

  lemma EntriesKept(s: State, step: Step, initial: Option<seq<Byte>>)
    requires Inv(s, initial) && Enabled(s, step)
    ensures EntriesInv(Apply(s, step), initial)
  {
    forall entry | WholeEntry(s, initial, entry) ensures WholeEntry(Apply(s, step), initial, entry) {
      WrittenKept(s, step);
    }
    if step.Rename? {
      RenamedIsWhole(s, step.w, initial);
    }
  }

  lemma RenamedIsWhole(s: State, w: nat, initial: Option<seq<Byte>>)
    requires WritersInv(s) && Enabled(s, Rename(w))
    ensures WholeEntry(Apply(s, Rename(w)), initial, Apply(s, Rename(w)).config)
  {
    assert WriterInv(s, w);
    assert Apply(s, Rename(w)).writers[w].renamed;
  }

  lemma WrittenKept(s: State, step: Step)
    requires WritersInv(s) && Enabled(s, step)
    ensures forall data :: WrittenBy(s, data) ==> WrittenBy(Apply(s, step), data)
  {
    var t := Apply(s, step);
    forall data | WrittenBy(s, data) ensures WrittenBy(t, data) {
      var w :| 0 <= w < |s.writers| && s.writers[w].renamed && s.writers[w].bytes == data;
      assert WriterInv(s, w);
      assert t.writers[w].renamed && t.writers[w].bytes == data;
    }
  }

  lemma {:induction false} RunKeeps(s: State, steps: seq<Step>, initial: Option<seq<Byte>>)
    requires Inv(s, initial) && Runs(s, steps)
    ensures Inv(Final(s, steps), initial) && Final(s, steps).windows == s.windows
    decreases |steps|
  {
    if steps != [] {
      WritersKept(s, steps[0]);
      EntriesKept(s, steps[0], initial);
      RunKeeps(Apply(s, steps[0]), steps[1..], initial);
    }
  }

  /** At every moment of every run, before and after any number of crashes, the
      configuration is whole: what it was at first, or all that some writer wrote. Only
      the Windows variant can also leave it absent. A writer that returned an error, or
      was stopped, has not replaced it; one that returned `Ok` has. */
  lemma ConfigAlwaysWhole(windows: bool, initial: Option<seq<Byte>>, steps: seq<Step>)
    requires Runs(Init(windows, initial), steps)
    ensures var s := Final(Init(windows, initial), steps);
      && (s.config.None? ==> initial == None || windows)
      && (s.config.Some? ==>
            s.config.value.durable && (initial == Some(s.config.value.data) || WrittenBy(s, s.config.value.data)))
      && (forall w :: 0 <= w < |s.writers| ==> (s.writers[w].renamed <==> s.writers[w].phase == Succeeded))
  {
    RunKeeps(Init(windows, initial), steps, initial);
    var s := Final(Init(windows, initial), steps);
    forall w | 0 <= w < |s.writers| ensures s.writers[w].renamed <==> s.writers[w].phase == Succeeded {
      assert WriterInv(s, w);
    }
  }

  /** For a single writer: an error means the old configuration (or, on Windows, none). */
  lemma SingleWriterErrMeansOld(windows: bool, initial: Option<seq<Byte>>, steps: seq<Step>)
    requires Runs(Init(windows, initial), steps)
    requires |Final(Init(windows, initial), steps).writers| == 1
    requires Final(Init(windows, initial), steps).writers[0].phase != Succeeded
    ensures var s := Final(Init(windows, initial), steps);
      s.config == (if initial.Some? then Some(File(initial.value, true)) else None) || (windows && s.config == None)
  {
    ConfigAlwaysWhole(windows, initial, steps);
  }

  /** What a writer was given when it began, it still writes. */
  lemma {:induction false} WritersStay(s: State, steps: seq<Step>, w: nat)
    requires Runs(s, steps) && w < |s.writers|
    ensures w < |Final(s, steps).writers|
    ensures Final(s, steps).writers[w].bytes == s.writers[w].bytes && Final(s, steps).writers[w].temp == s.writers[w].temp
    decreases |steps|
  {
    if steps != [] {
      WritersStay(Apply(s, steps[0]), steps[1..], w);
    }
  }

  /** Steps that leave the directory's entry for the configuration alone. */
  predicate Leaves(steps: seq<Step>) {
    forall i :: 0 <= i < |steps| ==> !steps[i].Rename? && !steps[i].RemoveOld? && !steps[i].PowerLoss?
  }

  lemma {:induction false} ConfigStays(s: State, steps: seq<Step>)
    requires Runs(s, steps) && Leaves(steps)
    ensures Final(s, steps).config == s.config
    decreases |steps|
  {
    if steps != [] {
      ConfigStays(Apply(s, steps[0]), steps[1..]);
    }
  }

  /** In every run: right after the rename of a writer, and until another writer renames or
      removes or the power fails, the configuration is exactly what that writer wrote. */
  lemma RenamePutsBytes(windows: bool, initial: Option<seq<Byte>>, before: seq<Step>, w: nat, after: seq<Step>)
    requires Runs(Init(windows, initial), before) && Enabled(Final(Init(windows, initial), before), Rename(w))
    requires Runs(Apply(Final(Init(windows, initial), before), Rename(w)), after) && Leaves(after)
    ensures var t := Final(Apply(Final(Init(windows, initial), before), Rename(w)), after);
      w < |t.writers| && t.writers[w].phase == Succeeded && t.config == Some(File(t.writers[w].bytes, true))
  {
    RunKeeps(Init(windows, initial), before, initial);
    var s := Final(Init(windows, initial), before);
    assert WriterInv(s, w);
    ConfigStays(Apply(s, Rename(w)), after);
    WritersStay(Apply(s, Rename(w)), after, w);
    SucceededStays(Apply(s, Rename(w)), after, w);
  }

  lemma {:induction false} SucceededStays(s: State, steps: seq<Step>, w: nat)
    requires Runs(s, steps) && w < |s.writers| && s.writers[w].phase == Succeeded
    ensures w < |Final(s, steps).writers| && Final(s, steps).writers[w].phase == Succeeded
    decreases |steps|
  {
    if steps != [] {
      SucceededStays(Apply(s, steps[0]), steps[1..], w);
    }
  }

  lemma {:induction false} RunsAppend(s: State, steps: seq<Step>, step: Step)
    requires Runs(s, steps) && Enabled(Final(s, steps), step)
    ensures Runs(s, steps + [step]) && Final(s, steps + [step]) == Apply(Final(s, steps), step)
    decreases |steps|
  {
    if steps == [] {
      assert [] + [step] == [step] && [step][1..] == [];
      assert Runs(Apply(s, step), []);
    } else {
      RunsAppend(Apply(s, steps[0]), steps[1..], step);
      assert (steps + [step])[1..] == steps[1..] + [step];
    }
  }

  /** A lone writer that meets no error puts its bytes in place and leaves no temp file. */
  lemma LoneWriterWrites(windows: bool, initial: Option<seq<Byte>>, temp: string, bytes: seq<Byte>) returns (steps: seq<Step>)
    ensures Runs(Init(windows, initial), steps)
    ensures var t := Final(Init(windows, initial), steps);
      && t.config == Some(File(bytes, true)) && t.temps == map[]
      && t.writers == [Writer(temp, bytes, Succeeded, true)]
      && |t.earlier| > 0 && t.earlier[0] == Init(windows, initial).config
  {
    var s0 := Init(windows, initial);
    steps := LoneWriterSyncs(s0, temp, bytes);
    if windows && initial.Some? {
      RunsAppend(s0, steps, RemoveOld(0));
      steps := steps + [RemoveOld(0)];
      assert Final(s0, steps).earlier == [s0.config];
    }
    RunsAppend(s0, steps, Rename(0));
    steps := steps + [Rename(0)];
  }

  lemma LoneWriterSyncs(s0: State, temp: string, bytes: seq<Byte>) returns (steps: seq<Step>)
    requires s0.writers == [] && s0.temps == map[]
    ensures Runs(s0, steps)
    ensures Final(s0, steps) == s0.(temps := map[temp := File(bytes, true)], writers := [Writer(temp, bytes, Synced, false)])
  {
    RunsAppend(s0, [], Begin(temp, bytes));
    steps := [Begin(temp, bytes)];
    RunsAppend(s0, steps, CreateTemp(0));
    steps := steps + [CreateTemp(0)];
    assert Final(s0, steps) == s0.(temps := map[temp := File([], false)], writers := [Writer(temp, bytes, Writing(0), false)]);
    if bytes != [] {
      RunsAppend(s0, steps, WriteSome(0, |bytes|));
      steps := steps + [WriteSome(0, |bytes|)];
      assert [] + bytes[0..0 + |bytes|] == bytes;
    }
    assert Final(s0, steps)
      == s0.(temps := map[temp := File(bytes, false)], writers := [Writer(temp, bytes, Writing(|bytes|), false)]);
    RunsAppend(s0, steps, SyncAll(0));
    steps := steps + [SyncAll(0)];
  }

  /** A writer that meets an error, wherever it is, removes its temp file and leaves the
      configuration as it is. */
  lemma ErrorCleansUp(s0: State, before: seq<Step>, w: nat) returns (steps: seq<Step>)
    requires Runs(s0, before) && w < |Final(s0, before).writers|
    requires var phase := Final(s0, before).writers[w].phase; Running(phase) && phase != Failing
    ensures Runs(s0, steps)
    ensures var s := Final(s0, before);
      Final(s0, steps) == s.(temps := s.temps - {s.writers[w].temp}, writers := s.writers[w := s.writers[w].(phase := Errored)])
  {
    RunsAppend(s0, before, IoError(w));
    steps := before + [IoError(w)];
    RunsAppend(s0, steps, Cleanup(w, true));
    steps := steps + [Cleanup(w, true)];
  }

  /** A writer can be killed wherever it is; the configuration and its temp file stay. */
  lemma KilledLeavesAll(s0: State, before: seq<Step>, w: nat)
    requires Runs(s0, before) && w < |Final(s0, before).writers| && Running(Final(s0, before).writers[w].phase)
    ensures Runs(s0, before + [Kill(w)])
    ensures var s, t := Final(s0, before), Final(s0, before + [Kill(w)]);
      |t.writers| == |s.writers| && t.writers[w].phase == Killed && t.config == s.config && t.temps == s.temps
  {
    RunsAppend(s0, before, Kill(w));
  }

  /** What the steps of a run tell about how a writer ended. */
  predicate EndTrace(s: State, past: seq<Step>, w: nat) {
    if w < |s.writers| then
      && (s.writers[w].phase == Succeeded <==> Rename(w) in past)
      && (s.writers[w].phase == Errored <==> Cleanup(w, true) in past || Cleanup(w, false) in past)
      && (Kill(w) in past ==> s.writers[w].phase == Killed)
      && (IoError(w) in past ==> s.writers[w].phase == Failing || s.writers[w].phase == Errored || s.writers[w].phase == Killed)
    else
      Rename(w) !in past && Cleanup(w, true) !in past && Cleanup(w, false) !in past && Kill(w) !in past && IoError(w) !in past
  }

  lemma EndTraceKept(s: State, step: Step, past: seq<Step>, w: nat)
    requires EndTrace(s, past, w) && Enabled(s, step)
    ensures EndTrace(Apply(s, step), past + [step], w)
  {
    assert forall x :: x in past + [step] <==> x in past || x == step;
  }

  lemma {:induction false} EndTraceRuns(s: State, steps: seq<Step>, past: seq<Step>, w: nat)
    requires Runs(s, steps) && EndTrace(s, past, w)
    ensures EndTrace(Final(s, steps), past + steps, w)
    decreases |steps|
  {
    if steps == [] {
      assert past + steps == past;
    } else {
      EndTraceKept(s, steps[0], past, w);
      EndTraceRuns(Apply(s, steps[0]), steps[1..], past + [steps[0]], w);
      assert past + [steps[0]] + steps[1..] == past + steps;
    }
  }

  /** Over every run: a writer returns `Ok` exactly if its rename took place, an error exactly
      after its cleanup, and one that met an error or was killed never returns `Ok`. */
  lemma HowWritersEnd(windows: bool, initial: Option<seq<Byte>>, steps: seq<Step>, w: nat)
    requires Runs(Init(windows, initial), steps) && w < |Final(Init(windows, initial), steps).writers|
    ensures EndTrace(Final(Init(windows, initial), steps), steps, w)
    ensures Kill(w) in steps || IoError(w) in steps ==> Rename(w) !in steps
  {
    EndTraceRuns(Init(windows, initial), steps, [], w);
    assert [] + steps == steps;
  }

  /** `Ok` does not outlive a power loss: the file is synced but its directory is not, so
      the old configuration can be back afterwards, whole. */
  lemma OkCanRevert(windows: bool, initial: Option<seq<Byte>>, temp: string, bytes: seq<Byte>) returns (steps: seq<Step>)
    ensures Runs(Init(windows, initial), steps)
    ensures var t := Final(Init(windows, initial), steps);
      && |t.writers| == 1 && t.writers[0].phase == Succeeded && t.writers[0].bytes == bytes
      && t.config == (if initial.Some? then Some(File(initial.value, true)) else None)
  {
    steps := LoneWriterWrites(windows, initial, temp, bytes);
    RunsAppend(Init(windows, initial), steps, PowerLoss(0, map[]));
    steps := steps + [PowerLoss(0, map[])];
  }

  // ----- Temporary names -----

  function TempName(file: string, pid: nat, counter: nat): string {
    "." + file + "." + Dec(pid) + "." + Dec(counter) + ".tmp"
  }

  function DotAt(s: string): nat {
    if s == "" || s[0] == '.' then 0 else 1 + DotAt(s[1..])
  }

  lemma {:induction false} DotAfterDigits(a: string, x: string)
    requires Digits(a)
    ensures DotAt(a + "." + x) == |a|
  {
    if a == "" {
      assert a + "." + x == "." + x;
    } else {
      assert IsDigit(a[0]);
      DotAfterDigits(a[1..], x);
      assert (a + "." + x)[1..] == a[1..] + "." + x;
    }
  }

  lemma FirstDot(a: string, b: string, x: string, y: string)
    requires Digits(a) && Digits(b) && a + "." + x == b + "." + y
    ensures a == b && x == y
  {
    DotAfterDigits(a, x);
    DotAfterDigits(b, y);
    var l, r := a + "." + x, b + "." + y;
    assert l[..|a|] == a && r[..|a|] == b;
    assert l[|a| + 1..] == x && r[|a| + 1..] == y;
  }

  /** Temporary names of one configuration coincide only for the same process and the same
      counter value, and none is the configuration's own name. */
  lemma TempNamesDiffer(file: string, pid: nat, counter: nat, pid': nat, counter': nat)
    ensures TempName(file, pid, counter) == TempName(file, pid', counter') <==> pid == pid' && counter == counter'
    ensures TempName(file, pid, counter) != file
  {
    assert |TempName(file, pid, counter)| > |file|;
    if TempName(file, pid, counter) == TempName(file, pid', counter') {
      TempNameParts(file, pid, counter);
      TempNameParts(file, pid', counter');
      TwoNumbers(pid, counter, pid', counter');
    }
  }

  /** The two numbers of a name and what stands around them. */
  function Numbers(pid: nat, counter: nat): string {
    Dec(pid) + "." + (Dec(counter) + "." + "tmp")
  }

  lemma TempNameParts(file: string, pid: nat, counter: nat)
    ensures |TempName(file, pid, counter)| >= |file| + 2
    ensures TempName(file, pid, counter)[|file| + 2..] == Numbers(pid, counter)
  {
    var name := TempName(file, pid, counter);
    assert name == ("." + file + ".") + Numbers(pid, counter);
  }

  lemma TwoNumbers(pid: nat, counter: nat, pid': nat, counter': nat)
    requires Numbers(pid, counter) == Numbers(pid', counter')
    ensures pid == pid' && counter == counter'
  {
    DecReads(pid);
    DecReads(pid');
    DecReads(counter);
    DecReads(counter');
    FirstDot(Dec(pid), Dec(pid'), Dec(counter) + "." + "tmp", Dec(counter') + "." + "tmp");
    FirstDot(Dec(counter), Dec(counter'), "tmp", "tmp");
    DecInjective(pid, pid');
    DecInjective(counter, counter');
  }

  /** One process draws different names for up to 2^64 writes, and no further. */
  lemma NamesDistinctIff(file: string, pid: nat, n: nat)
    ensures (forall i, j :: 0 <= i < j < n ==> TempName(file, pid, IdAt(0, i)) != TempName(file, pid, IdAt(0, j)))
      <==> n <= WRAP
  {
    DistinctIff(0, n);
    forall i: nat, j: nat
      ensures TempName(file, pid, IdAt(0, i)) == TempName(file, pid, IdAt(0, j)) <==> IdAt(0, i) == IdAt(0, j)
    {
      TempNamesDiffer(file, pid, IdAt(0, i), pid, IdAt(0, j));
    }
  }

  // ----- One writer, uninterrupted -----

  /** Which of its system calls fail. */
  datatype Faults = Faults(create: bool, write: Option<nat>, sync: bool, remove: bool, rename: bool)

  /** What a write comes to: the new content is in place, the old one still is, or, on
      Windows only, the old one was removed and the new one did not follow. */
  datatype Outcome = Written | Kept | Vanished

  function AfterWrite<T>(outcome: Outcome, before: Option<T>, after: T): Option<T> {
    match outcome
    case Written => Some(after)
    case Kept => before
    case Vanished => None
  }

  /** `existed` is about the configuration, `taken` about the temporary name. */
  function OutcomeOf(windows: bool, existed: bool, taken: bool, faults: Faults): Outcome {
    if taken || faults.create || faults.write.Some? || faults.sync then Kept
    else if windows && existed && faults.remove then Kept
    else if !faults.rename then Written
    else if windows && existed then Vanished
    else Kept
  }

  /** A configuration vanishes only where there was one and only on Windows; there, any
      of the three outcomes can occur. */
  lemma PossibleOutcomes(windows: bool, existed: bool, outcome: Outcome)
    ensures (exists taken, faults :: OutcomeOf(windows, existed, taken, faults) == outcome)
      <==> (outcome == Vanished ==> windows && existed)
  {
    var fine := Faults(false, None, false, false, false);
    assert OutcomeOf(windows, existed, false, fine) == Written;
    assert OutcomeOf(windows, existed, false, fine.(create := true)) == Kept;
    assert windows && existed ==> OutcomeOf(windows, existed, false, fine.(rename := true)) == Vanished;
  }

  class ConfigDir {
    const windows: bool
    var config: Option<seq<Byte>>
    var temps: map<string, seq<Byte>>
    var counter: nat

    constructor (windows: bool, config: Option<seq<Byte>>)
      ensures this.windows == windows && this.config == config && temps == map[] && counter == 0
    {
      this.windows, this.config, temps, counter := windows, config, map[], 0;
    }

    method ReplaceFile(temp: string, faults: Faults) returns (ok: bool)
      requires temp in temps
      modifies this`config, this`temps
      ensures ok ==> config == Some(old(temps)[temp]) && temps == old(temps) - {temp}
      ensures !ok ==> temps == old(temps) && config == if windows && !faults.remove then None else old(config)
      ensures ok <==> !faults.rename && !(windows && old(config).Some? && faults.remove)
    {
      if windows && config.Some? {
        if faults.remove {
          return false;
        }
        config := None;
      }
      if faults.rename {
        return false;
      }
      config := Some(temps[temp]);
      temps := temps - {temp};
      return true;
    }

    /** `Ok` puts exactly `bytes` in place; `Err` leaves what was there (on Windows possibly
        nothing). Either way the writer's temporary file is gone and all others are kept. */
    method WriteConfigAtomic(file: string, pid: nat, bytes: seq<Byte>, faults: Faults) returns (ok: bool)
      modifies this
      ensures counter == (old(counter) + 1) % WRAP
      ensures ok ==> config == Some(bytes)
      ensures !ok ==> config == old(config) || (windows && config == None)
      ensures temps == old(temps) - {TempName(file, pid, old(counter))}
      ensures var outcome := OutcomeOf(windows, old(config).Some?, TempName(file, pid, old(counter)) in old(temps), faults);
        config == AfterWrite(outcome, old(config), bytes) && (ok <==> outcome == Written)
      ensures ok <==> (TempName(file, pid, old(counter)) !in old(temps) && !faults.create && faults.write.None?
        && !faults.sync && !faults.rename && !(windows && old(config).Some? && faults.remove))
    {
      var temp := TempName(file, pid, counter);
      counter := (counter + 1) % WRAP;
      ok := false;
      if temp !in temps && !faults.create {
        temps := temps[temp := []];
        if faults.write.Some? {
          var n := if faults.write.value < |bytes| then faults.write.value else |bytes|;
          temps := temps[temp := temps[temp] + bytes[..n]];
        } else {
          temps := temps[temp := temps[temp] + bytes];
          assert temps[temp] == bytes;
          if !faults.sync {
            ok := ReplaceFile(temp, faults);
          }
        }
      }
      if !ok {
        temps := temps - {temp};
      }
    }
  }
}
