/** `pump_streams` of `src/proxy.rs`: the upload copy that runs inline, the download copy
    that runs in its own task, the half-closes, the close-on-request timer and the abort,
    as atomic steps that interleave freely. Both streams, what they will yield and where
    they fail are up to the steps. */
module Pump {
  import opened Wrappers

  type Byte = bv8

  /** A copy task: `Copying` until the source has ended and all was written, then the
      sink's shutdown. */
  datatype Phase = Copying | ShuttingDown | Finished | Failed | Aborted | Panicked

  /** `unread` is what the source has still to give, `buf` what was read and not yet
      written, `sink` what the sink has accepted, `amount` the counter of `io::copy`. */
  datatype Copy = Copy(
    unread: seq<Byte>, buf: seq<Byte>, sink: seq<Byte>,
    amount: nat, sawEof: bool, shutdownTried: bool, phase: Phase)

  datatype CopyStep =
    | ReadChunk(n: nat)
    | WriteSome(n: nat)
    | SeeEof
    | CopyError
    | BeginShutdown
    | EndShutdown(accepted: bool)

  datatype Outcome =
    | Stats(upBytes: nat, downBytes: nat, timedOut: bool)
    | UploadFailed
    | DownloadFailed
    | DownloadPanicked

  datatype Main = Uploading | AwaitingDownload | Returned(outcome: Outcome, at: nat) | Dropped

  datatype State = State(
    up: Copy, down: Copy, main: Main,
    timeout: Option<nat>, abortRequested: bool,
    now: nat, uploadEnded: Option<nat>)

  datatype Step =
    | Up(up: CopyStep)
    | Down(down: CopyStep)
    | DownloadPanics
    | AbortTakesEffect
    | JoinDownload
    | TimerFires
    | Tick(dt: nat)
    | DropPump

  function Fresh(source: seq<Byte>): Copy {
    Copy(source, [], [], 0, false, false, Copying)
  }

  function Init(upload: seq<Byte>, download: seq<Byte>, timeout: Option<nat>): State {
    State(Fresh(upload), Fresh(download), Uploading, timeout, false, 0, None)
  }

  predicate CopyEnabled(c: Copy, step: CopyStep) {
    match step
    case ReadChunk(n) => c.phase == Copying && !c.sawEof && 0 < n <= |c.unread|
    case WriteSome(n) => c.phase == Copying && 0 < n <= |c.buf|
    case SeeEof => c.phase == Copying && c.unread == []
    case CopyError => c.phase == Copying
    case BeginShutdown => c.phase == Copying && c.sawEof && c.buf == []
    case EndShutdown(_) => c.phase == ShuttingDown
  }

  /** A refused shutdown is only logged (upload) or ignored (download). */
  function CopyApply(c: Copy, step: CopyStep): Copy
    requires CopyEnabled(c, step)
  {
    match step
    case ReadChunk(n) => c.(buf := c.buf + c.unread[..n], unread := c.unread[n..])
    case WriteSome(n) => c.(sink := c.sink + c.buf[..n], buf := c.buf[n..], amount := c.amount + n)
    case SeeEof => c.(sawEof := true)
    case CopyError => c.(phase := Failed)
    case BeginShutdown => c.(shutdownTried := true, phase := ShuttingDown)
    case EndShutdown(_) => c.(phase := Finished)
  }

  predicate Running(c: Copy) {
    c.phase == Copying || c.phase == ShuttingDown
  }

  predicate Enabled(s: State, step: Step) {
    match step
    case Up(c) => s.main == Uploading && CopyEnabled(s.up, c)
    case Down(c) => CopyEnabled(s.down, c)
    case DownloadPanics => Running(s.down)
    case AbortTakesEffect => s.abortRequested && Running(s.down)
    case JoinDownload => s.main == AwaitingDownload && !Running(s.down)
    case TimerFires =>
      s.main == AwaitingDownload && Running(s.down)
      && s.timeout.Some? && s.uploadEnded.Some? && s.now >= s.uploadEnded.value + s.timeout.value
    case Tick(dt) => // the timer is served when it is due
      (s.main == AwaitingDownload && s.timeout.Some? && s.uploadEnded.Some?) ==>
        s.now + dt <= s.uploadEnded.value + s.timeout.value
    case DropPump => s.main == Uploading || s.main == AwaitingDownload
  }

  /** The end of the upload and what the pump does about it happen without a suspension
      between them. */
  function AfterUpload(s: State): State {
    if s.up.phase == Failed then
      s.(abortRequested := true, main := Returned(UploadFailed, s.now), uploadEnded := Some(s.now))
    else if s.up.phase == Finished then
      s.(main := AwaitingDownload, uploadEnded := Some(s.now))
    else s
  }

  function Apply(s: State, step: Step): State
    requires Enabled(s, step)
  {
    match step
    case Up(c) => AfterUpload(s.(up := CopyApply(s.up, c)))
    case Down(c) => s.(down := CopyApply(s.down, c))
    case DownloadPanics => s.(down := s.down.(phase := Panicked))
    case AbortTakesEffect => s.(down := s.down.(phase := Aborted))
    case JoinDownload =>
      var outcome := match s.down.phase
        case Finished => Stats(s.up.amount, s.down.amount, false)
        case Failed => DownloadFailed
        case _ => DownloadPanicked;
      s.(main := Returned(outcome, s.now))
    case TimerFires => s.(abortRequested := true, main := Returned(Stats(s.up.amount, 0, true), s.now))
    case Tick(dt) => s.(now := s.now + dt)
    case DropPump => s.(main := Dropped)
  }

  predicate Runs(s: State, steps: seq<Step>)
    decreases |steps|
  {
    steps == [] || (Enabled(s, steps[0]) && Runs(Apply(s, steps[0]), steps[1..]))
  }

  function Final(s: State, steps: seq<Step>): State
    requires Runs(s, steps)
    decreases |steps|
  {
    if steps == [] then s else Final(Apply(s, steps[0]), steps[1..])
  }

  predicate CopyInv(c: Copy, source: seq<Byte>) {
    && c.sink + c.buf + c.unread == source
    && c.amount == |c.sink|
    && (c.sawEof ==> c.unread == [])
    && (c.shutdownTried ==> c.sawEof && c.buf == [])
    && (c.phase == ShuttingDown || c.phase == Finished ==> c.shutdownTried)
  }

  predicate MainInv(s: State) {
    && (s.abortRequested ==> s.main.Returned?)
    && (s.down.phase == Aborted ==> s.abortRequested)
    && (s.uploadEnded.Some? <==> s.up.phase == Finished || s.up.phase == Failed)
    && (s.uploadEnded.Some? ==> s.uploadEnded.value <= s.now)
    && match s.main
       case Uploading => Running(s.up)
       case AwaitingDownload =>
         s.up.phase == Finished
         && (s.timeout.Some? ==> s.now <= s.uploadEnded.value + s.timeout.value)
       case Returned(outcome, at) => ReturnInv(s, outcome, at)
       case Dropped => s.up.phase != Failed && (Running(s.up) || s.up.phase == Finished)
  }

  predicate ReturnInv(s: State, outcome: Outcome, at: nat)
    requires s.uploadEnded.Some? <==> s.up.phase == Finished || s.up.phase == Failed
  {
    && s.uploadEnded.Some?
    && s.uploadEnded.value <= at <= s.now
    && (!Running(s.down) || s.abortRequested)
    && (outcome == UploadFailed <==> s.up.phase == Failed)
    && (s.up.phase == Finished && s.timeout.Some? ==> at <= s.uploadEnded.value + s.timeout.value)
    && match outcome
       case Stats(u, d, false) => s.down.phase == Finished && u == s.up.amount && d == s.down.amount
       case Stats(u, d, true) =>
         s.abortRequested && s.timeout.Some? && at == s.uploadEnded.value + s.timeout.value
         && u == s.up.amount && d == 0
       case UploadFailed => s.abortRequested
       case DownloadFailed => s.down.phase == Failed
       case DownloadPanicked => s.down.phase == Panicked
  }

  predicate Inv(s: State, upload: seq<Byte>, download: seq<Byte>) {
    CopyInv(s.up, upload) && CopyInv(s.down, download) && MainInv(s)
  }

  lemma CopyStepKeeps(c: Copy, step: CopyStep, source: seq<Byte>)
    requires CopyInv(c, source) && CopyEnabled(c, step)
    ensures CopyInv(CopyApply(c, step), source)
  {
    match step
    case ReadChunk(n) =>
      assert c.sink + (c.buf + c.unread[..n]) + c.unread[n..] == c.sink + c.buf + c.unread;
    case WriteSome(n) =>
      assert (c.sink + c.buf[..n]) + c.buf[n..] + c.unread == c.sink + c.buf + c.unread;
    case _ =>
  }

  lemma StepKeeps(s: State, step: Step, upload: seq<Byte>, download: seq<Byte>)
    requires Inv(s, upload, download) && Enabled(s, step)
    ensures Inv(Apply(s, step), upload, download)
  {
    match step
    case Up(c) => CopyStepKeeps(s.up, c, upload);
    case Down(c) => CopyStepKeeps(s.down, c, download);
    case _ =>
  }

  lemma {:induction false} RunKeeps(s: State, steps: seq<Step>, upload: seq<Byte>, download: seq<Byte>)
    requires Inv(s, upload, download) && Runs(s, steps)
    ensures Inv(Final(s, steps), upload, download)
    ensures Final(s, steps).timeout == s.timeout
    decreases |steps|
  {
    if steps != [] {
      StepKeeps(s, steps[0], upload, download);
      RunKeeps(Apply(s, steps[0]), steps[1..], upload, download);
    }
  }

  /** In every interleaving: each sink holds a prefix of its source, nothing is lost or
      reordered between them, and a sink's shutdown is only ever attempted once it holds
      its whole source. */
  lemma BytesFlowInOrder(upload: seq<Byte>, download: seq<Byte>, timeout: Option<nat>, steps: seq<Step>)
    requires Runs(Init(upload, download, timeout), steps)
    ensures var s := Final(Init(upload, download, timeout), steps);
      && s.up.sink + s.up.buf + s.up.unread == upload && s.up.sink <= upload
      && s.down.sink + s.down.buf + s.down.unread == download && s.down.sink <= download
      && (s.up.shutdownTried ==> s.up.sink == upload)
      && (s.down.shutdownTried ==> s.down.sink == download)
  {
    RunKeeps(Init(upload, download, timeout), steps, upload, download);
  }

  /** Every return of the pump. Without a timeout mark both directions are complete and
      the counts exact; with it the upload is complete and the full timeout has passed
      since. A failed upload always returns the upload's error, whatever became of the
      download. In each case the download has ended or was told to abort. */
  lemma ReturnMeans(upload: seq<Byte>, download: seq<Byte>, timeout: Option<nat>, steps: seq<Step>)
    requires Runs(Init(upload, download, timeout), steps)
    requires Final(Init(upload, download, timeout), steps).main.Returned?
    ensures var s := Final(Init(upload, download, timeout), steps);
      && (!Running(s.down) || s.abortRequested)
      && (s.up.phase == Failed <==> s.main.outcome == UploadFailed)
      && (s.main.outcome.Stats? ==> s.up.sink == upload && s.main.outcome.upBytes == |upload|)
      && (s.main.outcome.Stats? && !s.main.outcome.timedOut ==>
            s.down.sink == download && s.main.outcome.downBytes == |download|)
      && (s.main.outcome == DownloadFailed ==> s.down.phase == Failed && s.up.sink == upload)
      && (s.main.outcome == DownloadPanicked ==> s.down.phase == Panicked && s.up.sink == upload)
      && (s.main.outcome.Stats? && s.main.outcome.timedOut ==>
            timeout.Some? && s.uploadEnded.Some? && s.main.at == s.uploadEnded.value + timeout.value
            && s.main.outcome.downBytes == 0)
  {
    RunKeeps(Init(upload, download, timeout), steps, upload, download);
  }

  // ----- What a run did, and where that shows -----

  /** What the steps so far tell about the two copies, and about the pump. */
  predicate CopyTrace(s: State, past: seq<Step>) {
    && (s.up.phase == Failed <==> Up(CopyError) in past)
    && (s.down.phase == Failed <==> Down(CopyError) in past)
    && (s.down.phase == Panicked <==> DownloadPanics in past)
    && (s.down.phase == Aborted <==> AbortTakesEffect in past)
  }

  predicate MainTrace(s: State, past: seq<Step>) {
    && (s.abortRequested <==> Up(CopyError) in past || TimerFires in past)
    && (TimedOut(s) <==> TimerFires in past)
    && (s.main == Dropped <==> DropPump in past)
  }

  predicate TimedOut(s: State) {
    s.main.Returned? && s.main.outcome.Stats? && s.main.outcome.timedOut
  }

  lemma CopyTraceKept(s: State, step: Step, past: seq<Step>)
    requires CopyTrace(s, past) && Enabled(s, step) && MainInv(s)
    ensures CopyTrace(Apply(s, step), past + [step])
  {
    assert forall x :: x in past + [step] <==> x in past || x == step;
  }

  lemma MainTraceKept(s: State, step: Step, past: seq<Step>)
    requires MainTrace(s, past) && Enabled(s, step) && MainInv(s)
    ensures MainTrace(Apply(s, step), past + [step])
  {
    assert forall x :: x in past + [step] <==> x in past || x == step;
  }

  lemma {:induction false} TraceRuns(s: State, steps: seq<Step>, past: seq<Step>, upload: seq<Byte>, download: seq<Byte>)
    requires Inv(s, upload, download) && CopyTrace(s, past) && MainTrace(s, past) && Runs(s, steps)
    ensures CopyTrace(Final(s, steps), past + steps) && MainTrace(Final(s, steps), past + steps)
    decreases |steps|
  {
    if steps == [] {
      assert past + steps == past;
    } else {
      StepKeeps(s, steps[0], upload, download);
      CopyTraceKept(s, steps[0], past);
      MainTraceKept(s, steps[0], past);
      TraceRuns(Apply(s, steps[0]), steps[1..], past + [steps[0]], upload, download);
      assert past + [steps[0]] + steps[1..] == past + steps;
    }
  }

  /** Over every run: the pump has returned the upload's error exactly if the upload met
      one; it has asked for an abort exactly then or if the timer fired; and each copy
      failed, ended or was stopped exactly by the step that does that. */
  lemma WhatHappened(upload: seq<Byte>, download: seq<Byte>, timeout: Option<nat>, steps: seq<Step>)
    requires Runs(Init(upload, download, timeout), steps)
    ensures var s := Final(Init(upload, download, timeout), steps);
      && (s.main.Returned? && s.main.outcome == UploadFailed <==> Up(CopyError) in steps)
      && (s.abortRequested <==> Up(CopyError) in steps || TimerFires in steps)
      && (TimedOut(s) <==> TimerFires in steps)
      && (s.down.phase == Failed <==> Down(CopyError) in steps)
      && (s.down.phase == Panicked <==> DownloadPanics in steps)
      && (s.down.phase == Aborted <==> AbortTakesEffect in steps)
      && (s.main == Dropped <==> DropPump in steps)
  {
    var s0 := Init(upload, download, timeout);
    TraceRuns(s0, steps, [], upload, download);
    assert [] + steps == steps;
    RunKeeps(s0, steps, upload, download);
  }

  /** With a timeout `d` the pump never outlasts the upload by more than `d`: at every
      later moment it has returned within `d`, or `d` has not passed, or it was dropped. */
  lemma ReturnsWithinTimeout(upload: seq<Byte>, download: seq<Byte>, d: nat, steps: seq<Step>)
    requires Runs(Init(upload, download, Some(d)), steps)
    requires Final(Init(upload, download, Some(d)), steps).uploadEnded.Some?
    ensures var s := Final(Init(upload, download, Some(d)), steps);
      match s.main
      case Returned(_, at) => s.up.phase == Finished ==> at <= s.uploadEnded.value + d
      case AwaitingDownload => s.now <= s.uploadEnded.value + d
      case Uploading => false
      case Dropped => true
    ensures var s := Final(Init(upload, download, Some(d)), steps);
      s.main == AwaitingDownload && s.now == s.uploadEnded.value + d ==>
        Enabled(s, JoinDownload) || Enabled(s, TimerFires)
  {
    RunKeeps(Init(upload, download, Some(d)), steps, upload, download);
  }

  /** No step of the pump itself is undone later: once it has returned, it stays returned
      with the same outcome. */
  lemma {:induction false} ReturnIsFinal(s: State, steps: seq<Step>)
    requires s.main.Returned? && Runs(s, steps)
    ensures Final(s, steps).main == s.main && (s.abortRequested ==> Final(s, steps).abortRequested)
    decreases |steps|
  {
    if steps != [] {
      ReturnIsFinal(Apply(s, steps[0]), steps[1..]);
    }
  }

  lemma {:induction false} RunsAppend(s: State, steps: seq<Step>, step: Step)
    requires Runs(s, steps) && Enabled(Final(s, steps), step)
    ensures Runs(s, steps + [step]) && Final(s, steps + [step]) == Apply(Final(s, steps), step)
    decreases |steps|
  {
    if steps == [] {
      assert [] + [step] == [step] && [step][1..] == [];
      assert Runs(Apply(s, step), []);
    } else {
      RunsAppend(Apply(s, steps[0]), steps[1..], step);
      assert (steps + [step])[1..] == steps[1..] + [step];
    }
  }

  /** A download left to itself writes what it has and what is to come. */
  lemma DownloadWrites(s0: State, before: seq<Step>, download: seq<Byte>) returns (steps: seq<Step>)
    requires Runs(s0, before)
    requires var c := Final(s0, before).down; CopyInv(c, download) && c.phase == Copying
    ensures before <= steps && Runs(s0, steps)
    ensures DropPump in steps ==> DropPump in before
    ensures var t := Final(s0, steps);
      t == Final(s0, before).(down := t.down) && CopyInv(t.down, download)
      && t.down.phase == Copying && t.down.unread == [] && t.down.buf == []
  {
    var c := Final(s0, before).down;
    steps := before;
    if c.unread != [] {
      CopyStepKeeps(c, ReadChunk(|c.unread|), download);
      RunsAppend(s0, steps, Down(ReadChunk(|c.unread|)));
      steps := steps + [Down(ReadChunk(|c.unread|))];
      c := Final(s0, steps).down;
    }
    if c.buf != [] {
      CopyStepKeeps(c, WriteSome(|c.buf|), download);
      RunsAppend(s0, steps, Down(WriteSome(|c.buf|)));
      steps := steps + [Down(WriteSome(|c.buf|))];
    }
  }

  /** The copy that is done with its bytes ends, whether or not its sink takes the shutdown. */
  lemma DownloadEnds(s0: State, before: seq<Step>, accepted: bool) returns (steps: seq<Step>)
    requires Runs(s0, before)
    requires var c := Final(s0, before).down; c.phase == Copying && c.unread == [] && c.buf == []
    ensures before <= steps && Runs(s0, steps) && (DropPump in steps ==> DropPump in before)
    ensures var s := Final(s0, before);
      Final(s0, steps) == s.(down := s.down.(sawEof := true, shutdownTried := true, phase := Finished))
  {
    RunsAppend(s0, before, Down(SeeEof));
    steps := before + [Down(SeeEof)];
    RunsAppend(s0, steps, Down(BeginShutdown));
    steps := steps + [Down(BeginShutdown)];
    RunsAppend(s0, steps, Down(EndShutdown(accepted)));
    steps := steps + [Down(EndShutdown(accepted))];
  }

  /** An upload left to itself likewise, and then the pump awaits the download. */
  lemma UploadRuns(upload: seq<Byte>, download: seq<Byte>, timeout: Option<nat>, accepted: bool) returns (steps: seq<Step>)
    ensures Runs(Init(upload, download, timeout), steps)
    ensures Final(Init(upload, download, timeout), steps)
      == Init(upload, download, timeout)
         .(up := Copy([], [], upload, |upload|, true, true, Finished), main := AwaitingDownload, uploadEnded := Some(0))
  {
    var s0, n := Init(upload, download, timeout), |upload|;
    steps := [];
    if n > 0 {
      RunsAppend(s0, steps, Up(ReadChunk(n)));
      steps := steps + [Up(ReadChunk(n))];
      assert Final(s0, steps).up.buf == upload;
      RunsAppend(s0, steps, Up(WriteSome(n)));
      steps := steps + [Up(WriteSome(n))];
    }
    assert Final(s0, steps) == s0.(up := Copy([], [], upload, n, false, false, Copying));
    RunsAppend(s0, steps, Up(SeeEof));
    steps := steps + [Up(SeeEof)];
    RunsAppend(s0, steps, Up(BeginShutdown));
    steps := steps + [Up(BeginShutdown)];
    RunsAppend(s0, steps, Up(EndShutdown(accepted)));
    steps := steps + [Up(EndShutdown(accepted))];
  }

  /** Any two streams can be pumped in full, whatever the timeout and even where both sinks
      refuse the shutdown. */
  lemma CanComplete(upload: seq<Byte>, download: seq<Byte>, timeout: Option<nat>, accepted: bool) returns (steps: seq<Step>)
    ensures Runs(Init(upload, download, timeout), steps) && DropPump !in steps
    ensures Final(Init(upload, download, timeout), steps).main.Returned?
    ensures Final(Init(upload, download, timeout), steps).main.outcome == Stats(|upload|, |download|, false)
  {
    var s0 := Init(upload, download, timeout);
    steps := UploadRuns(upload, download, timeout, accepted);
    steps := DownloadWrites(s0, steps, download);
    steps := DownloadEnds(s0, steps, accepted);
    RunsAppend(s0, steps, JoinDownload);
    steps := steps + [JoinDownload];
    WhatHappened(upload, download, timeout, steps);
  }

  /** A download that gives nothing is cut off when the timeout `d` is over, and stops. */
  lemma CanTimeOut(upload: seq<Byte>, download: seq<Byte>, d: nat) returns (steps: seq<Step>)
    ensures Runs(Init(upload, download, Some(d)), steps)
    ensures Final(Init(upload, download, Some(d)), steps).main == Returned(Stats(|upload|, 0, true), d)
    ensures Final(Init(upload, download, Some(d)), steps).down.phase == Aborted
  {
    var s0 := Init(upload, download, Some(d));
    steps := UploadRuns(upload, download, Some(d), true);
    RunsAppend(s0, steps, Tick(d));
    steps := steps + [Tick(d)];
    RunsAppend(s0, steps, TimerFires);
    steps := steps + [TimerFires];
    RunsAppend(s0, steps, AbortTakesEffect);
    steps := steps + [AbortTakesEffect];
  }

  /** A download that fails or panics after the upload is reported as such. */
  lemma DownloadErrorReturns(upload: seq<Byte>, download: seq<Byte>, timeout: Option<nat>, panics: bool) returns (steps: seq<Step>)
    ensures Runs(Init(upload, download, timeout), steps)
    ensures Final(Init(upload, download, timeout), steps).main
      == Returned(if panics then DownloadPanicked else DownloadFailed, 0)
  {
    var s0 := Init(upload, download, timeout);
    steps := UploadRuns(upload, download, timeout, true);
    var ends := if panics then DownloadPanics else Down(CopyError);
    RunsAppend(s0, steps, ends);
    steps := steps + [ends];
    RunsAppend(s0, steps, JoinDownload);
    steps := steps + [JoinDownload];
  }

  /** Dropping the pump instead of letting it return stops nothing: wherever a run has led
      while the download is copying, the pump may be dropped, and the download task, never
      told to abort, can still deliver all of its source and shut the sink down. */
  lemma DroppedPumpDetaches(s0: State, upload: seq<Byte>, download: seq<Byte>) returns (steps: seq<Step>)
    requires Inv(s0, upload, download)
    requires (s0.main == Uploading || s0.main == AwaitingDownload) && s0.down.phase == Copying
    ensures steps != [] && steps[0] == DropPump && Runs(s0, steps)
    ensures var t := Final(s0, steps);
      t.main == Dropped && !t.abortRequested && t.down.sink == download && t.down.phase == Finished
  {
    RunsAppend(s0, [], DropPump);
    steps := DownloadWrites(s0, [DropPump], download);
    steps := DownloadEnds(s0, steps, true);
  }

  /** What the invariant says of a state, however it was reached. */
  lemma InvMeans(s: State, upload: seq<Byte>, download: seq<Byte>)
    requires Inv(s, upload, download)
    ensures s.up.sink <= upload && s.down.sink <= download
    ensures s.main.Returned? && s.main.outcome.Stats? ==>
      s.up.sink == upload && s.main.outcome.upBytes == |upload|
      && (!s.main.outcome.timedOut ==> s.down.sink == download && s.main.outcome.downBytes == |download|)
    ensures s.main.Returned? && s.main.outcome.Stats? && s.main.outcome.timedOut ==>
      s.main.outcome.downBytes == 0 && s.uploadEnded.Some? && s.timeout.Some?
      && s.main.at == s.uploadEnded.value + s.timeout.value
    ensures s.main.Returned? ==> !Running(s.down) || s.abortRequested
  {
  }
}
