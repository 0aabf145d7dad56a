/** The `AddForward`, `DelForward`, `AddServe` and `DelServe` arms of `src/main.rs` (and the
    like handlers of `src/tui.rs`), together with starting and stopping the server: what
    runs of serialized client commands keep true between the daemon's tables and the
    configuration file, when the daemon refuses, files cannot be read or written, and
    control messages get lost. */
module Commands {
  import opened Wrappers
  import opened RemotePaths
  import opened Routes
  import AtomicWrite
  import opened ConfigStore
  import opened Daemon

  /** What becomes of a control call: answered, carried out but never answered, or never
      carried out. */
  datatype Rpc = Answered | ReplyLost | Lost

  /** The circumstances of one command. */
  datatype Faults = Faults(call: Rpc, rollback: Rpc, io: Io, bindable: set<string>)

  datatype Machine<Id> = Machine(file: Option<Config>, server: Option<Runtime<Id>>)

  datatype Command =
    | AddForwardRun(listen: string, remote: string, persistent: bool, timeout: nat)
    | DelForwardRun(entries: Matcher, persistent: bool)
    | AddServeRun(name: string, target: string, persistent: bool)
    | DelServeRun(name: string)
    | StartServerRun
    | StopServerRun

  /** The daemon after a call that would take it to `after`, and whether the client hears
      of success. */
  function Call<Id>(rt: Runtime<Id>, after: Option<Runtime<Id>>, rpc: Rpc): (Runtime<Id>, bool) {
    if after.None? || rpc == Lost then (rt, false) else (after.value, rpc == Answered)
  }

  /** One command from start to end: the state it leaves and whether it reports success. */
  function Execute<Id>(w: World<Id>, st: Machine<Id>, command: Command, f: Faults): (Machine<Id>, bool) {
    if command.StartServerRun? then
      if st.server.Some? then (st, false)
      else
        var started := if st.file.Some? && !f.io.read then None else Startup(w, Loaded(st.file), f.bindable);
        (st.(server := started), started.Some?)
    else if st.server.None? then (st, false)
    else if command.StopServerRun? then (st.(server := None), true)
    else ExecuteOn(w, st.file, st.server.value, command, f)
  }

  function ExecuteOn<Id>(w: World<Id>, file: Option<Config>, rt: Runtime<Id>, command: Command, f: Faults): (Machine<Id>, bool)
    requires !command.StartServerRun? && !command.StopServerRun?
  {
    match command
    case AddForwardRun(listen, remote, persistent, timeout) =>
      var (rt1, heard) := Call(rt, AddForward(w, rt, listen, remote, persistent, f.bindable), f.call);
      if !heard || !persistent then (Machine(file, Some(rt1)), heard)
      else
        var stored := AddForwardRule(w, file, listen, remote, timeout, f.io);
        if stored.error.None? then (Machine(stored.file, Some(rt1)), true)
        else (Machine(stored.file, Some(Call(rt1, DelForward(rt1, listen), f.rollback).0)), false)
    case DelForwardRun(entries, persistent) =>
      var (rt1, heard) := Call(rt, DelForward(rt, entries.listen), f.call);
      if !heard || !persistent then (Machine(file, Some(rt1)), heard)
      else
        var (stored, removed) := RemoveForwardRule(file, entries, f.io);
        (Machine(stored.file, Some(rt1)), stored.error.None?)
    case AddServeRun(name, target, persistent) =>
      var (rt1, heard) := Call(rt, AddServe(w.chars, rt, name, target), f.call);
      if !heard || !persistent then (Machine(file, Some(rt1)), heard)
      else
        var stored := AddServeRule(w.chars, file, name, target, f.io);
        if stored.error.None? then (Machine(stored.file, Some(rt1)), true)
        else (Machine(stored.file, Some(Call(rt1, DelServe(rt1, name), f.rollback).0)), false)
    case DelServeRun(name) =>
      var (rt1, heard) := Call(rt, DelServe(rt, name), f.call);
      (Machine(file, Some(rt1)), heard)
  }

  // ----- Invariants -----

  /** The configuration holds a rule for `listen` whose remote parses to `path`. */
  predicate Configured<Id>(w: World<Id>, c: Config, listen: string, path: RemotePath<Id>) {
    exists i :: 0 <= i < |Forwards(c)| && Forwards(c)[i].listen == listen && FromStr(w, Forwards(c)[i].remote) == Ok(path)
  }

  /** Every runtime forward marked persisted is in the configuration. */
  predicate Covered<Id>(w: World<Id>, c: Config, forwards: ForwardTable<Id>) {
    forall k :: k in forwards && forwards[k].persisted ==> Configured(w, c, k, forwards[k].remote)
  }

  predicate InStep<Id>(w: World<Id>, st: Machine<Id>) {
    st.server.Some? ==> Covered(w, Loaded(st.file), st.server.value.forwards)
  }

  predicate Sound<Id>(w: World<Id>, st: Machine<Id>) {
    WellFormed(w, Loaded(st.file)) && (st.server.Some? ==> Synced(w.chars, st.server.value))
  }

  /** The daemon took up a forward marked persisted, and then either its answer was lost
      or the rule could not be stored and the rollback call was lost too, while no rule to
      that effect was in the configuration before. */
  predicate Orphans<Id>(w: World<Id>, st: Machine<Id>, command: Command, f: Faults) {
    command.AddForwardRun? && command.persistent && st.server.Some?
    && AddForward(w, st.server.value, command.listen, command.remote, true, f.bindable).Some?
    && (f.call == ReplyLost
        || (f.call == Answered && f.rollback == Lost
            && AddForwardRule(w, st.file, command.listen, command.remote, command.timeout, f.io).error.Some?))
    && !Configured(w, Loaded(st.file), command.listen, FromStr(w, command.remote).value)
  }

  /** The command gets as far as rewriting the configuration file. */
  predicate Rewrites<Id>(w: World<Id>, st: Machine<Id>, command: Command, f: Faults) {
    st.server.Some? && f.call == Answered
    && match command
       case AddForwardRun(listen, remote, persistent, _) =>
         persistent && AddForward(w, st.server.value, listen, remote, true, f.bindable).Some?
         && ForwardWrites(w, st.file, listen, remote, f.io)
       case DelForwardRun(entries, persistent) =>
         persistent && entries.listen in st.server.value.forwards && RemovalWrites(st.file, entries, f.io)
       case AddServeRun(name, target, persistent) =>
         persistent && AddServe(w.chars, st.server.value, name, target).Some?
         && ServeWrites(w.chars, st.file, name, target, f.io)
       case _ => false
  }

  /** The rewrite removes the old file and fails to put the new one in its place, which
      only happens on Windows: see `AtomicWrite.PossibleOutcomes`. */
  predicate Loses<Id>(w: World<Id>, st: Machine<Id>, command: Command, f: Faults) {
    Rewrites(w, st, command, f) && f.io.write == AtomicWrite.Vanished
  }

  predicate NonePersisted<Id>(forwards: ForwardTable<Id>) {
    forall k :: k in forwards ==> !forwards[k].persisted
  }

  /** The file is lost while the daemon runs a persisted forward that the command does not
      itself remove. */
  predicate Strands<Id>(w: World<Id>, st: Machine<Id>, command: Command, f: Faults) {
    Loses(w, st, command, f)
    && !NonePersisted(if command.DelForwardRun? then st.server.value.forwards - {command.entries.listen}
                      else st.server.value.forwards)
  }

  /** Without a file nothing persisted is configured. */
  lemma NothingConfigured<Id>(w: World<Id>, forwards: ForwardTable<Id>)
    ensures Covered(w, DEFAULT_CONFIG, forwards) <==> NonePersisted(forwards)
  {
    if !NonePersisted(forwards) {
      var k :| k in forwards && forwards[k].persisted;
      assert !Configured(w, DEFAULT_CONFIG, k, forwards[k].remote);
    }
  }

  /** A command that does not get as far as rewriting the file leaves it as it is; so does
      one whose rewrite keeps it; one whose rewrite loses it leaves none and fails. */
  lemma FileAfter<Id>(w: World<Id>, st: Machine<Id>, command: Command, f: Faults)
    ensures var (after, ok) := Execute(w, st, command, f);
      && (!Rewrites(w, st, command, f) || f.io.write == AtomicWrite.Kept ==> after.file == st.file)
      && (Loses(w, st, command, f) ==> after.file == None && !ok)
  {
    match command
    case AddForwardRun(listen, remote, persistent, timeout) =>
      ForwardEditIff(w, st.file, listen, remote, timeout, f.io);
    case DelForwardRun(entries, persistent) => RemovalEditIff(st.file, entries, f.io);
    case AddServeRun(name, target, persistent) => ServeEditIff(w.chars, st.file, name, target, f.io);
    case _ =>
  }

  lemma ConfigGrows<Id>(w: World<Id>, before: Config, after: Config, forwards: ForwardTable<Id>)
    requires Covered(w, before, forwards) && Forwards(before) <= Forwards(after)
    ensures Covered(w, after, forwards)
  {
    forall k | k in forwards && forwards[k].persisted ensures Configured(w, after, k, forwards[k].remote) {
      var i :| 0 <= i < |Forwards(before)| && Forwards(before)[i].listen == k
        && FromStr(w, Forwards(before)[i].remote) == Ok(forwards[k].remote);
      assert Forwards(after)[i] == Forwards(before)[i];
    }
  }

  lemma AddedCoveredIff<Id>(w: World<Id>, c: Config, forwards: ForwardTable<Id>, listen: string, path: RemotePath<Id>)
    requires Covered(w, c, forwards) && listen !in forwards
    ensures Covered(w, c, forwards[listen := RuntimeForward(path, true)]) <==> Configured(w, c, listen, path)
    ensures Covered(w, c, forwards[listen := RuntimeForward(path, false)])
  {
    var more := forwards[listen := RuntimeForward(path, true)];
    assert listen in more && more[listen] == RuntimeForward(path, true);
    assert forall k :: k in forwards ==> k in more && more[k] == forwards[k];
  }

  lemma StoredRuleConfigured<Id>(w: World<Id>, file: Option<Config>, listen: string, remote: string, timeout: nat, io: Io)
    requires WellFormed(w, Loaded(file)) && AddForwardRule(w, file, listen, remote, timeout, io).error.None?
    ensures var c := Loaded(AddForwardRule(w, file, listen, remote, timeout, io).file);
      FromStr(w, remote).Ok? && Configured(w, c, listen, FromStr(w, remote).value)
  {
    AddedForwardIsThere(w, file, listen, remote, timeout, io);
    var c := Loaded(AddForwardRule(w, file, listen, remote, timeout, io).file);
    var i :| 0 <= i < |Forwards(c)| && Forwards(c)[i] == ForwardService(listen, remote, timeout);
  }

  lemma RollbackUndoes<Id>(w: World<Id>, rt: Runtime<Id>, listen: string, remote: string, persisted: bool, bindable: set<string>)
    requires AddForward(w, rt, listen, remote, persisted, bindable).Some?
    ensures DelForward(AddForward(w, rt, listen, remote, persisted, bindable).value, listen) == Some(rt)
  {
    var added := AddForward(w, rt, listen, remote, persisted, bindable).value;
    assert added.forwards - {listen} == rt.forwards;
  }

  lemma ServeRollbackUndoes<Id>(ch: Chars, rt: Runtime<Id>, name: string, target: string)
    requires Synced(ch, rt) && AddServe(ch, rt, name, target).Some?
    ensures DelServe(AddServe(ch, rt, name, target).value, name) == Some(rt)
  {
    var added := AddServe(ch, rt, name, target).value;
    assert added.routes - {ServiceToAlpn(name)} == rt.routes;
  }

  /** Adding a forward keeps the daemon in step with the configuration if and only if it
      neither orphans the forward it adds nor loses the file under another. */
  lemma AddForwardInStepIff<Id>(w: World<Id>, st: Machine<Id>, command: Command, f: Faults)
    requires Sound(w, st) && InStep(w, st) && command.AddForwardRun?
    ensures InStep(w, Execute(w, st, command, f).0) <==> !Orphans(w, st, command, f) && !Strands(w, st, command, f)
  {
    if st.server.Some? {
      var rt := st.server.value;
      var added := AddForward(w, rt, command.listen, command.remote, command.persistent, f.bindable);
      if added.Some? && f.call != Lost {
        AddedCoveredIff(w, Loaded(st.file), rt.forwards, command.listen, FromStr(w, command.remote).value);
        RollbackUndoes(w, rt, command.listen, command.remote, command.persistent, f.bindable);
        if f.call == Answered && command.persistent {
          PersistedAddInStepIff(w, st, command, f);
        }
      }
    }
  }

  lemma PersistedAddInStepIff<Id>(w: World<Id>, st: Machine<Id>, command: Command, f: Faults)
    requires Sound(w, st) && InStep(w, st) && st.server.Some? && command.AddForwardRun? && command.persistent
    requires AddForward(w, st.server.value, command.listen, command.remote, true, f.bindable).Some? && f.call == Answered
    ensures InStep(w, Execute(w, st, command, f).0) <==> !Orphans(w, st, command, f) && !Strands(w, st, command, f)
  {
    var rt, path := st.server.value, FromStr(w, command.remote).value;
    var stored := AddForwardRule(w, st.file, command.listen, command.remote, command.timeout, f.io);
    if stored.error.None? {
      StoredForwardCovered(w, st.file, rt.forwards, command.listen, command.remote, command.timeout, f.io);
      ForwardEditIff(w, st.file, command.listen, command.remote, command.timeout, f.io);
    } else {
      RollbackUndoes(w, rt, command.listen, command.remote, true, f.bindable);
      FailedAddCovers(w, st.file, rt.forwards, command.listen, command.remote, command.timeout, f.io);
    }
  }

  /** What a failed write leaves covered of the forwards before the add, and after it. */
  lemma FailedAddCovers<Id>(w: World<Id>, file: Option<Config>, forwards: ForwardTable<Id>,
                            listen: string, remote: string, timeout: nat, io: Io)
    requires Covered(w, Loaded(file), forwards) && listen !in forwards && FromStr(w, remote).Ok?
    requires AddForwardRule(w, file, listen, remote, timeout, io).error.Some?
    ensures var c := Loaded(AddForwardRule(w, file, listen, remote, timeout, io).file);
      var lost := ForwardWrites(w, file, listen, remote, io) && io.write == AtomicWrite.Vanished;
      var path := FromStr(w, remote).value;
      && (Covered(w, c, forwards) <==> !(lost && !NonePersisted(forwards)))
      && (Covered(w, c, forwards[listen := RuntimeForward(path, true)]) <==> !lost && Configured(w, Loaded(file), listen, path))
      && (lost ==> !Configured(w, Loaded(file), listen, path))
  {
    var path := FromStr(w, remote).value;
    ForwardEditIff(w, file, listen, remote, timeout, io);
    AddedCoveredIff(w, Loaded(file), forwards, listen, path);
    NothingConfigured(w, forwards);
    var more := forwards[listen := RuntimeForward(path, true)];
    assert listen in more && more[listen].persisted;
    NothingConfigured(w, more);
  }

  lemma StoredForwardCovered<Id>(w: World<Id>, file: Option<Config>, forwards: ForwardTable<Id>,
                                 listen: string, remote: string, timeout: nat, io: Io)
    requires WellFormed(w, Loaded(file)) && Covered(w, Loaded(file), forwards) && listen !in forwards
    requires FromStr(w, remote).Ok? && AddForwardRule(w, file, listen, remote, timeout, io).error.None?
    ensures Covered(w, Loaded(AddForwardRule(w, file, listen, remote, timeout, io).file),
                    forwards[listen := RuntimeForward(FromStr(w, remote).value, true)])
  {
    var config := Loaded(AddForwardRule(w, file, listen, remote, timeout, io).file);
    AddedForwardIsThere(w, file, listen, remote, timeout, io);
    StoredRuleConfigured(w, file, listen, remote, timeout, io);
    ConfigGrows(w, Loaded(file), config, forwards);
    AddedCoveredIff(w, config, forwards, listen, FromStr(w, remote).value);
  }

  /** Every other command keeps it, a restart included, unless it loses the file. */
  lemma OthersInStepIff<Id>(w: World<Id>, st: Machine<Id>, command: Command, f: Faults)
    requires Sound(w, st) && InStep(w, st) && !command.AddForwardRun?
    ensures InStep(w, Execute(w, st, command, f).0) <==> !Strands(w, st, command, f)
  {
    match command
    case DelForwardRun(entries, persistent) =>
      if st.server.Some? {
        DelForwardInStepIff(w, st, entries, persistent, f);
      }
    case StartServerRun =>
      var c := Loaded(st.file);
      if st.server.None? && Startup(w, c, f.bindable).Some? {
        ForwardTableExact(w, Forwards(c));
        StartupCovered(w, c);
      }
    case AddServeRun(name, target, persistent) =>
      if st.server.Some? {
        AddServeInStepIff(w, st, name, target, persistent, f);
      }
    case DelServeRun(name) =>
    case StopServerRun =>
  }

  lemma AddServeInStepIff<Id>(w: World<Id>, st: Machine<Id>, name: string, target: string, persistent: bool, f: Faults)
    requires st.server.Some? && InStep(w, st)
    ensures var command := AddServeRun(name, target, persistent);
      InStep(w, Execute(w, st, command, f).0) <==> !Strands(w, st, command, f)
  {
    ServiceRuleCoversIff(w, st.file, st.server.value.forwards, name, target, f.io);
  }

  /** Adding a service to the file takes away no rule, unless it loses the file. */
  lemma ServiceRuleCoversIff<Id>(w: World<Id>, file: Option<Config>, forwards: ForwardTable<Id>,
                                 name: string, target: string, io: Io)
    requires Covered(w, Loaded(file), forwards)
    ensures Covered(w, Loaded(AddServeRule(w.chars, file, name, target, io).file), forwards)
      <==> !(ServeWrites(w.chars, file, name, target, io) && io.write == AtomicWrite.Vanished && !NonePersisted(forwards))
  {
    ServeEditIff(w.chars, file, name, target, io);
    NothingConfigured(w, forwards);
    if ServeWrites(w.chars, file, name, target, io) && io.write == AtomicWrite.Written {
      ConfigGrows(w, Loaded(file), Loaded(AddServeRule(w.chars, file, name, target, io).file), forwards);
    }
  }

  lemma StartupCovered<Id>(w: World<Id>, c: Config)
    requires RemotesParse(w, Forwards(c)) && ForwardsExactly(w, ForwardTableOf(w, Forwards(c)), Forwards(c))
    ensures Covered(w, c, ForwardTableOf(w, Forwards(c)))
  {
    var forwards := ForwardTableOf(w, Forwards(c));
    forall k | k in forwards ensures Configured(w, c, k, forwards[k].remote) {
      assert ListensIn(Forwards(c), k);
    }
  }

  lemma DelForwardInStepIff<Id>(w: World<Id>, st: Machine<Id>, entries: Matcher, persistent: bool, f: Faults)
    requires st.server.Some? && InStep(w, st)
    ensures var command := DelForwardRun(entries, persistent);
      InStep(w, Execute(w, st, command, f).0) <==> !Strands(w, st, command, f)
  {
    assert Covered(w, Loaded(st.file), st.server.value.forwards - {entries.listen});
    if persistent && f.call == Answered && entries.listen in st.server.value.forwards {
      RemovalCoversIff(w, st.file, st.server.value.forwards - {entries.listen}, entries, f.io);
    }
  }

  /** Removing a rule from the file takes away no other rule, unless it loses the file. */
  lemma RemovalCoversIff<Id>(w: World<Id>, file: Option<Config>, forwards: ForwardTable<Id>, m: Matcher, io: Io)
    requires Covered(w, Loaded(file), forwards) && m.listen !in forwards
    ensures Covered(w, Loaded(RemoveForwardRule(file, m, io).0.file), forwards)
      <==> !(RemovalWrites(file, m, io) && io.write == AtomicWrite.Vanished && !NonePersisted(forwards))
  {
    RemovalEditIff(file, m, io);
    NothingConfigured(w, forwards);
    if RemovalWrites(file, m, io) && io.write == AtomicWrite.Written {
      RetainMeans(Forwards(Loaded(file)), m);
      RemainsCovered(w, Loaded(file), Loaded(RemoveForwardRule(file, m, io).0.file), forwards, m);
    }
  }

  lemma RemainsCovered<Id>(w: World<Id>, before: Config, after: Config, forwards: ForwardTable<Id>, m: Matcher)
    requires Covered(w, before, forwards) && m.listen !in forwards
    requires forall e :: e in Forwards(before) && !Matches(m, e) ==> e in Forwards(after)
    ensures Covered(w, after, forwards)
  {
    forall k | k in forwards && forwards[k].persisted ensures Configured(w, after, k, forwards[k].remote) {
      var i :| 0 <= i < |Forwards(before)| && Forwards(before)[i].listen == k
        && FromStr(w, Forwards(before)[i].remote) == Ok(forwards[k].remote);
      assert Forwards(before)[i] in Forwards(after);
    }
  }

  /** The configuration stays well formed and the endpoint in step with the routes under
      every command in any circumstances. */
  lemma ExecuteKeepsSound<Id>(w: World<Id>, st: Machine<Id>, command: Command, f: Faults)
    requires Sound(w, st)
    ensures Sound(w, Execute(w, st, command, f).0)
  {
    match command
    case StartServerRun =>
      if Startup(w, Loaded(st.file), f.bindable).Some? {
        ServeTableExact(w.chars, Serves(Loaded(st.file)));
      }
    case StopServerRun =>
    case AddForwardRun(listen, remote, persistent, timeout) =>
      AddForwardKeepsSound(w, st, listen, remote, persistent, timeout, f);
    case DelForwardRun(entries, persistent) =>
      DelForwardKeepsSound(w, st, entries, persistent, f);
    case AddServeRun(name, target, persistent) =>
      AddServeKeepsSound(w, st, name, target, persistent, f);
    case DelServeRun(name) =>
      if st.server.Some? {
        RemovesExactlyNamed(w.chars, st.server.value.routes, name);
      }
  }

  lemma AddForwardKeepsSound<Id>(w: World<Id>, st: Machine<Id>,
                                 listen: string, remote: string, persistent: bool, timeout: nat, f: Faults)
    requires Sound(w, st)
    ensures Sound(w, Execute(w, st, AddForwardRun(listen, remote, persistent, timeout), f).0)
  {
    AddForwardKeepsWellFormed(w, st.file, listen, remote, timeout, f.io);
    ForwardsApart(w, st, listen, remote, persistent, timeout, f);
  }

  /** The command leaves routes and ALPNs alone, and the file as it is or as its edit has it. */
  lemma ForwardsApart<Id>(w: World<Id>, st: Machine<Id>,
                          listen: string, remote: string, persistent: bool, timeout: nat, f: Faults)
    ensures var after := Execute(w, st, AddForwardRun(listen, remote, persistent, timeout), f).0;
      && (after.file == st.file || after.file == AddForwardRule(w, st.file, listen, remote, timeout, f.io).file)
      && (after.server.Some? <==> st.server.Some?)
      && (st.server.Some? ==>
            after.server.value.routes == st.server.value.routes && after.server.value.alpns == st.server.value.alpns)
  {
  }

  lemma DelForwardKeepsSound<Id>(w: World<Id>, st: Machine<Id>, entries: Matcher, persistent: bool, f: Faults)
    requires Sound(w, st)
    ensures Sound(w, Execute(w, st, DelForwardRun(entries, persistent), f).0)
  {
    RemoveKeepsWellFormed(w, st.file, entries, f.io);
  }

  lemma AddServeKeepsSound<Id>(w: World<Id>, st: Machine<Id>, name: string, target: string, persistent: bool, f: Faults)
    requires Sound(w, st)
    ensures Sound(w, Execute(w, st, AddServeRun(name, target, persistent), f).0)
  {
    AddServeKeepsWellFormed(w, st.file, name, target, f.io);
    if st.server.Some? && AddServe(w.chars, st.server.value, name, target).Some? {
      AddedWellKeyed(w.chars, st.server.value.routes, name, target);
      ServeRollbackUndoes(w.chars, st.server.value, name, target);
    }
  }

  /** The daemon took up the rule, and its answer, or the call to roll it back, was lost. */
  predicate LeftBehind(accepted: bool, f: Faults) {
    accepted && (f.call == ReplyLost || (f.call == Answered && f.rollback == Lost))
  }

  /** A failed `AddForward` leaves the file alone if and only if its rewrite did not lose
      it, and restores the machine exactly, daemon and file, if and only if moreover no
      message was lost after the daemon took up the rule. */
  lemma FailedAddForwardRestoresIff<Id>(w: World<Id>, file: Option<Config>, rt: Runtime<Id>,
                                        listen: string, remote: string, persistent: bool, timeout: nat, f: Faults)
    requires var st := Machine(file, Some(rt)); !Execute(w, st, AddForwardRun(listen, remote, persistent, timeout), f).1
    ensures var st := Machine(file, Some(rt)); var command := AddForwardRun(listen, remote, persistent, timeout);
      var after := Execute(w, st, command, f).0;
      var behind := LeftBehind(AddForward(w, rt, listen, remote, persistent, f.bindable).Some?, f);
      && (after.file == file <==> !(file.Some? && Loses(w, st, command, f)))
      && (after.server == st.server <==> !behind)
  {
    FileAfter(w, Machine(file, Some(rt)), AddForwardRun(listen, remote, persistent, timeout), f);
    ForwardEditIff(w, file, listen, remote, timeout, f.io);
    if AddForward(w, rt, listen, remote, persistent, f.bindable).Some? {
      RollbackUndoes(w, rt, listen, remote, persistent, f.bindable);
      assert listen in AddForward(w, rt, listen, remote, persistent, f.bindable).value.forwards && listen !in rt.forwards;
    }
  }

  /** Likewise for a failed `AddServe`, its routes and the endpoint's ALPNs. */
  lemma FailedAddServeRestoresIff<Id>(w: World<Id>, file: Option<Config>, rt: Runtime<Id>,
                                      name: string, target: string, persistent: bool, f: Faults)
    requires Synced(w.chars, rt)
    requires var st := Machine(file, Some(rt)); !Execute(w, st, AddServeRun(name, target, persistent), f).1
    ensures var st := Machine(file, Some(rt)); var command := AddServeRun(name, target, persistent);
      var after := Execute(w, st, command, f).0;
      && (after.file == file <==> !(file.Some? && Loses(w, st, command, f)))
      && (after.server == st.server <==> !LeftBehind(AddServe(w.chars, rt, name, target).Some?, f))
  {
    FileAfter(w, Machine(file, Some(rt)), AddServeRun(name, target, persistent), f);
    ServeEditIff(w.chars, file, name, target, f.io);
    if AddServe(w.chars, rt, name, target).Some? {
      ServeRollbackUndoes(w.chars, rt, name, target);
      assert ServiceToAlpn(name) in AddServe(w.chars, rt, name, target).value.routes && ServiceToAlpn(name) !in rt.routes;
    }
  }

  // ----- When a command succeeds, and what it then leaves -----

  /** `AddForward` succeeds exactly if the daemon can take up the forward and answers, and a
      persistent one if moreover its rule is stored, or was. Then the daemon has exactly one
      forward more, and the rule is in the file exactly as far as that was asked for. */
  lemma AddForwardSucceedsIff<Id>(w: World<Id>, file: Option<Config>, rt: Runtime<Id>,
                                  listen: string, remote: string, persistent: bool, timeout: nat, f: Faults)
    ensures var (after, ok) := Execute(w, Machine(file, Some(rt)), AddForwardRun(listen, remote, persistent, timeout), f);
      var rule, services := ForwardService(listen, remote, timeout), Forwards(Loaded(file));
      && (ok <==>
            && f.call == Answered && FromStr(w, remote).Ok? && listen !in rt.forwards && listen in f.bindable
            && (persistent ==>
                  && !Blank(w.chars, listen) && (file.None? || f.io.read)
                  && (ForwardIsFirst(services, rule)
                      || (!ForwardStored(Loaded(file), listen) && f.io.write == AtomicWrite.Written))))
      && (ok ==>
            && after.server.Some? && after.server.value.routes == rt.routes && after.server.value.alpns == rt.alpns
            && after.server.value.forwards
               == rt.forwards[listen := RuntimeForward(FromStr(w, remote).value, persistent)])
      && (ok && !persistent ==> after.file == file)
      && (ok && persistent ==>
            && rule in Forwards(Loaded(after.file)) && services <= Forwards(Loaded(after.file))
            && Loaded(after.file).serve == Loaded(file).serve)
  {
    AddForwardEnds(w, file, listen, remote, timeout, f.io);
    if AddForwardRule(w, file, listen, remote, timeout, f.io).error.None? {
      AddForwardStores(w, file, listen, remote, timeout, f.io);
    }
  }

  /** `DelForward` succeeds exactly if the address is listed and the daemon answers, and a
      persistent one if moreover the file can be read and, where it holds such rules,
      rewritten without them. */
  lemma DelForwardSucceedsIff<Id>(w: World<Id>, file: Option<Config>, rt: Runtime<Id>, entries: Matcher, persistent: bool, f: Faults)
    ensures var (after, ok) := Execute(w, Machine(file, Some(rt)), DelForwardRun(entries, persistent), f);
      && (ok <==>
            && f.call == Answered && entries.listen in rt.forwards
            && (persistent ==>
                  && (file.None? || f.io.read)
                  && ((forall e :: e in Forwards(Loaded(file)) ==> !Matches(entries, e))
                      || f.io.write == AtomicWrite.Written)))
      && (ok ==>
            && after.server.Some? && after.server.value.routes == rt.routes && after.server.value.alpns == rt.alpns
            && after.server.value.forwards == rt.forwards - {entries.listen})
      && (ok && !persistent ==> after.file == file)
      && (ok && persistent ==>
            && OthersKept(Forwards(Loaded(file)), Forwards(Loaded(after.file)), entries)
            && Loaded(after.file).serve == Loaded(file).serve
            && forall e :: e in Forwards(Loaded(after.file)) ==> !Matches(entries, e))
  {
    RemovalEnds(file, entries, f.io);
  }

  /** `AddServe` likewise: one route more under the name's ALPN, which the endpoint offers. */
  lemma AddServeSucceedsIff<Id>(w: World<Id>, file: Option<Config>, rt: Runtime<Id>,
                                name: string, target: string, persistent: bool, f: Faults)
    requires WellKeyed(w.chars, rt.routes)
    ensures var (after, ok) := Execute(w, Machine(file, Some(rt)), AddServeRun(name, target, persistent), f);
      var rule, services := ServeService(name, target), Serves(Loaded(file));
      && (ok <==>
            && f.call == Answered && ValidName(w.chars, name) && !Blank(w.chars, target)
            && (forall k :: k in rt.routes ==> rt.routes[k].name != name)
            && (persistent ==>
                  && (file.None? || f.io.read)
                  && (ServiceIsFirst(services, rule)
                      || (!ServiceStored(Loaded(file), name) && f.io.write == AtomicWrite.Written))))
      && (ok ==>
            && after.server.Some? && after.server.value.forwards == rt.forwards
            && after.server.value.routes == rt.routes[ServiceToAlpn(name) := Route(name, target)]
            && after.server.value.alpns == after.server.value.routes.Keys)
      && (ok && !persistent ==> after.file == file)
      && (ok && persistent ==>
            && rule in Serves(Loaded(after.file)) && services <= Serves(Loaded(after.file))
            && Loaded(after.file).forward == Loaded(file).forward)
  {
    DuplicateByName(w.chars, rt.routes, name);
    AddServeEnds(w.chars, file, name, target, f.io);
    if AddServeRule(w.chars, file, name, target, f.io).error.None? {
      AddServeStores(w.chars, file, name, target, f.io);
    }
  }

  /** `DelServe` succeeds exactly if a service of that name is registered and the daemon
      answers; it takes off that one, and never touches the file. */
  lemma DelServeSucceedsIff<Id>(w: World<Id>, file: Option<Config>, rt: Runtime<Id>, name: string, f: Faults)
    requires WellKeyed(w.chars, rt.routes)
    ensures var (after, ok) := Execute(w, Machine(file, Some(rt)), DelServeRun(name), f);
      && (ok <==> f.call == Answered && exists k :: k in rt.routes && rt.routes[k].name == name)
      && after.file == file
      && (ok ==>
            && after.server.Some? && after.server.value.forwards == rt.forwards
            && after.server.value.alpns == after.server.value.routes.Keys
            && (forall k :: k in rt.routes ==> (k in after.server.value.routes <==> rt.routes[k].name != name))
            && (forall k :: k in after.server.value.routes ==>
                  k in rt.routes && after.server.value.routes[k] == rt.routes[k]))
  {
    DuplicateByName(w.chars, rt.routes, name);
    RemovesExactlyNamed(w.chars, rt.routes, name);
  }

  /** Starting succeeds exactly if none is running, the file can be read, and it lists
      valid distinct services and parsable, distinct, bindable forwards; then the tables
      are those of the file. Stopping succeeds exactly if one is running. */
  lemma StartStopMean<Id>(w: World<Id>, st: Machine<Id>, f: Faults)
    ensures var (after, ok) := Execute(w, st, StartServerRun, f); var c := Loaded(st.file);
      && after.file == st.file
      && (ok <==>
            && st.server.None? && (st.file.None? || f.io.read)
            && NamesDiffer(Serves(c)) && ServesAcceptable(w.chars, Serves(c))
            && RemotesParse(w, Forwards(c)) && ListensDiffer(Forwards(c)) && Bindable(Forwards(c), f.bindable))
      && (ok ==>
            && after.server.Some? && ServesExactly(after.server.value.routes, Serves(c))
            && ForwardsExactly(w, after.server.value.forwards, Forwards(c)) && Synced(w.chars, after.server.value))
      && (!ok ==> after == st)
    ensures var (after, ok) := Execute(w, st, StopServerRun, f);
      after == Machine(st.file, None) && (ok <==> st.server.Some?)
  {
    var c := Loaded(st.file);
    if Startable(w, c, f.bindable) {
      ServeTableExact(w.chars, Serves(c));
      ForwardTableExact(w, Forwards(c));
    }
  }

  /** After a persistent removal by address that reported success, no restart brings a
      forward for that address back; every other rule comes back. */
  lemma RemovedStaysRemoved<Id>(w: World<Id>, file: Option<Config>, rt: Runtime<Id>, listen: string, f: Faults, bindable: set<string>)
    requires Execute(w, Machine(file, Some(rt)), DelForwardRun(ByListen(listen), true), f).1
    ensures var c := Loaded(Execute(w, Machine(file, Some(rt)), DelForwardRun(ByListen(listen), true), f).0.file);
      var started := Startup(w, c, bindable);
      started.Some? ==>
        && listen !in started.value.forwards
        && forall e :: e in Forwards(Loaded(file)) && e.listen != listen ==>
             e.listen in started.value.forwards && FromStr(w, e.remote) == Ok(started.value.forwards[e.listen].remote)
  {
    DelForwardSucceedsIff(w, file, rt, ByListen(listen), true, f);
    var c := Loaded(Execute(w, Machine(file, Some(rt)), DelForwardRun(ByListen(listen), true), f).0.file);
    if Startup(w, c, bindable).Some? {
      ForwardTableExact(w, Forwards(c));
      KeptComeBack(w, Forwards(Loaded(file)), Forwards(c), listen, ForwardTableOf(w, Forwards(c)));
    }
  }

  lemma KeptComeBack<Id>(w: World<Id>, before: seq<ForwardService>, after: seq<ForwardService>, listen: string, table: ForwardTable<Id>)
    requires OthersKept(before, after, ByListen(listen)) && ForwardsExactly(w, table, after)
    requires forall e :: e in after ==> e.listen != listen
    ensures listen !in table
    ensures forall e :: e in before && e.listen != listen ==>
      e.listen in table && FromStr(w, e.remote) == Ok(table[e.listen].remote)
  {
    var at := OthersKeptAt(before, after, ByListen(listen));
    forall e | e in before && e.listen != listen
      ensures e.listen in table && FromStr(w, e.remote) == Ok(table[e.listen].remote)
    {
      var j :| 0 <= j < |before| && before[j] == e;
      assert j in at;
      var i :| 0 <= i < |at| && at[i] == j;
      assert after[i] == e;
    }
  }

  // ----- Runs -----

  datatype Act = Act(command: Command, faults: Faults)

  function After<Id>(w: World<Id>, st: Machine<Id>, acts: seq<Act>): Machine<Id>
    decreases |acts|
  {
    if acts == [] then st else After(w, Execute(w, st, acts[0].command, acts[0].faults).0, acts[1..])
  }

  predicate NoneBreaks<Id>(w: World<Id>, st: Machine<Id>, acts: seq<Act>)
    decreases |acts|
  {
    acts == [] || (!Orphans(w, st, acts[0].command, acts[0].faults) && !Strands(w, st, acts[0].command, acts[0].faults)
      && NoneBreaks(w, Execute(w, st, acts[0].command, acts[0].faults).0, acts[1..]))
  }

  lemma {:induction false} RunKeeps<Id>(w: World<Id>, st: Machine<Id>, acts: seq<Act>)
    requires Sound(w, st)
    ensures Sound(w, After(w, st, acts))
    ensures InStep(w, st) && NoneBreaks(w, st, acts) ==> InStep(w, After(w, st, acts))
    decreases |acts|
  {
    if acts != [] {
      var command, f := acts[0].command, acts[0].faults;
      ExecuteKeepsSound(w, st, command, f);
      RunKeeps(w, Execute(w, st, command, f).0, acts[1..]);
      if InStep(w, st) {
        if command.AddForwardRun? {
          AddForwardInStepIff(w, st, command, f);
        } else {
          OthersInStepIff(w, st, command, f);
        }
      }
    }
  }

  /** From an empty machine, through any commands in any circumstances that neither orphan
      a forward nor lose the file under one: whatever runtime forward is marked persisted has its rule in the file. */
  lemma PersistedForwardsAreConfigured<Id>(w: World<Id>, acts: seq<Act>)
    requires NoneBreaks(w, Machine(None, None), acts)
    ensures InStep(w, After(w, Machine(None, None), acts))
  {
    RunKeeps(w, Machine(None, None), acts);
  }

  /** Whatever configuration the commands have led to, the server starts from it again if
      its listeners can be bound and the file can be read, and then serves exactly the
      configured services and forwards. */
  lemma ConfigReplays<Id>(w: World<Id>, acts: seq<Act>, bindable: set<string>)
    ensures var c := Loaded(After(w, Machine(None, None), acts).file);
      var started := Startup(w, c, bindable);
      && (started.Some? <==> Bindable(Forwards(c), bindable))
      && (started.Some? ==>
            ServesExactly(started.value.routes, Serves(c)) && ForwardsExactly(w, started.value.forwards, Forwards(c))
            && Synced(w.chars, started.value))
  {
    RunKeeps(w, Machine(None, None), acts);
    var c := Loaded(After(w, Machine(None, None), acts).file);
    ServeTableExact(w.chars, Serves(c));
    ForwardTableExact(w, Forwards(c));
  }

  /** A server started on an empty machine, then given one persisted forward. */
  lemma FirstForward<Id>(w: World<Id>, listen: string, remote: string, f: Faults)
    requires FromStr(w, remote).Ok? && listen in f.bindable && f.call != Lost
    ensures var acts := [Act(StartServerRun, f), Act(AddForwardRun(listen, remote, true, 2), f)];
      var s1: Machine<Id> := Machine(None, Some(Runtime(map[], {}, map[])));
      After(w, Machine(None, None), acts) == Execute(w, s1, AddForwardRun(listen, remote, true, 2), f).0
  {
    var start, add := Act(StartServerRun, f), Act(AddForwardRun(listen, remote, true, 2), f);
    var s0: Machine<Id> := Machine(None, None);
    assert Startable(w, Loaded(s0.file), f.bindable);
    var s1 := Execute(w, s0, StartServerRun, f).0;
    var none: Table := map[];
    assert s1.server.value.routes == none && none.Keys == {};
    assert s1 == Machine(None, Some(Runtime(map[], {}, map[])));
    assert [start, add][1..] == [add] && [add][1..] == [];
    var s2 := Execute(w, s1, add.command, f).0;
    assert After(w, s1, [add]) == After(w, s2, []) == s2;
  }

  /** A lost answer does orphan: the daemon then runs a forward marked persisted that no
      restart will bring back. */
  lemma LostAnswerOrphans<Id>(w: World<Id>, listen: string, remote: string)
    requires FromStr(w, remote).Ok?
    ensures var f := Faults(ReplyLost, Answered, Io(true, AtomicWrite.Written), {listen});
      var acts := [Act(StartServerRun, f), Act(AddForwardRun(listen, remote, true, 2), f)];
      !InStep(w, After(w, Machine(None, None), acts))
  {
    var f := Faults(ReplyLost, Answered, Io(true, AtomicWrite.Written), {listen});
    FirstForward(w, listen, remote, f);
    var s1: Machine<Id> := Machine(None, Some(Runtime(map[], {}, map[])));
    var s2 := Execute(w, s1, AddForwardRun(listen, remote, true, 2), f).0;
    assert listen in s2.server.value.forwards && s2.server.value.forwards[listen].persisted;
  }

  /** On Windows a rewrite that loses the file leaves a persisted forward running that no
      restart will bring back, and only the later command reports an error. */
  lemma LostFileStrands<Id>(w: World<Id>, listen: string, remote: string, name: string, target: string)
    requires FromStr(w, remote).Ok? && !Blank(w.chars, listen) && ValidName(w.chars, name) && !Blank(w.chars, target)
    ensures var fine := Faults(Answered, Answered, Io(true, AtomicWrite.Written), {listen});
      var st := After(w, Machine(None, None), [Act(StartServerRun, fine), Act(AddForwardRun(listen, remote, true, 2), fine)]);
      var add, f := AddServeRun(name, target, true), fine.(io := Io(true, AtomicWrite.Vanished));
      InStep(w, st) && Strands(w, st, add, f) && !InStep(w, Execute(w, st, add, f).0)
  {
    var fine := Faults(Answered, Answered, Io(true, AtomicWrite.Written), {listen});
    FirstForward(w, listen, remote, fine);
    var s1: Machine<Id> := Machine(None, Some(Runtime(map[], {}, map[])));
    var forward := AddForwardRun(listen, remote, true, 2);
    var st := Execute(w, s1, forward, fine).0;
    ExecuteKeepsSound(w, s1, forward, fine);
    AddForwardInStepIff(w, s1, forward, fine);
    var add, f := AddServeRun(name, target, true), fine.(io := Io(true, AtomicWrite.Vanished));
    assert listen in st.server.value.forwards && st.server.value.forwards[listen].persisted;
    OthersInStepIff(w, st, add, f);
  }

  /** The dashboard removes a persisted rule by the remote the daemon prints; that finds
      the rule exactly if its endpoint id is spelled in the file as it prints. */
  lemma DashboardRemovesIff<Id>(w: World<Id>, c: Config, rule: ForwardService, path: RemotePath<Id>)
    requires WellFormed(w, c) && rule in Forwards(c) && FromStr(w, rule.remote) == Ok(path)
    ensures var stored := RemoveForwardRule(Some(c), ByRule(rule.listen, Print(w, path)), Io(true, AtomicWrite.Written));
      stored.0.error.None? && (stored.1 <==> w.showId(path.endpointId) == Split(rule.remote)[0])
  {
    var m := ByRule(rule.listen, Print(w, path));
    RetainMeans(Forwards(c), m);
    ParsedPathPrints(w, rule.remote, path);
    var k :| 0 <= k < |Forwards(c)| && Forwards(c)[k] == rule;
    forall e | e in Forwards(c) && Matches(m, e) ensures e == rule {
      var j :| 0 <= j < |Forwards(c)| && Forwards(c)[j] == e;
      assert j == k;
    }
  }

  /** A parser that takes `a` and `A` for the one id there is, which prints as `a`. */
  function TwoSpellings(): World<()> {
    World(text => if text == "a" || text == "A" then Some(()) else None, id => "a", Chars(c => false, c => false))
  }

  lemma TwoSpellingsParse()
    ensures Lawful(TwoSpellings())
    ensures FromStr(TwoSpellings(), "A/tcp/x") == Ok(RemotePath((), "x"))
    ensures Split("A/tcp/x")[0] == "A" && Print(TwoSpellings(), RemotePath((), "x")) == "a/tcp/x"
  {
    var w := TwoSpellings();
    forall id: () ensures w.parseId(w.showId(id)) == Some(id) && '/' !in w.showId(id) {
      assert id == ();
    }
    assert "A/tcp/x" == Written("A", "x") && "a/tcp/x" == Written("a", "x");
    WrittenSplits("A", "x");
  }

  lemma OneRuleMissed<Id>(w: World<Id>, rule: ForwardService, path: RemotePath<Id>)
    requires FromStr(w, rule.remote) == Ok(path) && !Blank(w.chars, rule.listen)
    requires w.showId(path.endpointId) != Split(rule.remote)[0]
    ensures var c := Config(None, Some([rule]));
      && WellFormed(w, c)
      && RemoveForwardRule(Some(c), ByRule(rule.listen, Print(w, path)), Io(true, AtomicWrite.Written))
        == (Edit(Some(c), None), false)
  {
    var c := Config(None, Some([rule]));
    assert Forwards(c) == [rule] && Serves(c) == [];
    assert WellFormed(w, c);
    DashboardRemovesIff(w, c, rule, path);
    RemovalEditIff(Some(c), ByRule(rule.listen, Print(w, path)), Io(true, AtomicWrite.Written));
  }

  /** There a rule stored as `A/tcp/x` stays in the file when the dashboard, which knows its
      remote as `a/tcp/x`, removes the forward. */
  lemma DashboardMisses(listen: string)
    requires listen != ""
    ensures var c := Config(None, Some([ForwardService(listen, "A/tcp/x", 2)]));
      && Lawful(TwoSpellings()) && WellFormed(TwoSpellings(), c)
      && Print(TwoSpellings(), RemotePath((), "x")) == "a/tcp/x"
      && FromStr(TwoSpellings(), "A/tcp/x") == Ok(RemotePath((), "x"))
      && RemoveForwardRule(Some(c), ByRule(listen, "a/tcp/x"), Io(true, AtomicWrite.Written)) == (Edit(Some(c), None), false)
  {
    TwoSpellingsParse();
    assert "A" != "a" by {
      assert "A"[0] != "a"[0];
    }
    assert !Blank(TwoSpellings().chars, listen) by {
      assert !TwoSpellings().chars.whitespace(listen[0]);
    }
    OneRuleMissed(TwoSpellings(), ForwardService(listen, "A/tcp/x", 2), RemotePath((), "x"));
  }

  // ----- The arms as the client runs them -----

  class Client<!Id(==)> {
    const server: Server<Id>
    const store: Store<Id>

    constructor (server: Server<Id>, store: Store<Id>)
      ensures this.server == server && this.store == store
    {
      this.server, this.store := server, store;
    }

    ghost function Value(): Machine<Id>
      reads server, server.serve, store
    {
      Machine(store.file, Some(server.Value()))
    }

    method AddForwardArm(w: World<Id>, listen: string, remote: string, persistent: bool, timeout: nat, f: Faults)
      returns (ok: bool)
      modifies server, store
      ensures (Value(), ok) == Execute(w, old(Value()), AddForwardRun(listen, remote, persistent, timeout), f)
      ensures ok <==>
        && f.call == Answered && FromStr(w, remote).Ok? && listen !in old(server.forwards) && listen in f.bindable
        && (persistent ==>
              && !Blank(w.chars, listen) && (old(store.file).None? || f.io.read)
              && (ForwardIsFirst(Forwards(Loaded(old(store.file))), ForwardService(listen, remote, timeout))
                  || (!ForwardStored(Loaded(old(store.file)), listen) && f.io.write == AtomicWrite.Written)))
      ensures ok ==> server.forwards == old(server.forwards)[listen := RuntimeForward(FromStr(w, remote).value, persistent)]
      ensures ok && persistent ==>
        && ForwardService(listen, remote, timeout) in Forwards(Loaded(store.file))
        && Forwards(Loaded(old(store.file))) <= Forwards(Loaded(store.file))
      ensures !persistent ==> store.file == old(store.file)
    {
      AddForwardSucceedsIff(w, store.file, server.Value(), listen, remote, persistent, timeout, f);
      if f.call == Lost {
        return false;
      }
      ok := server.AddForwardCall(w, listen, remote, persistent, f.bindable);
      if !ok || f.call == ReplyLost {
        return false;
      }
      if persistent {
        var error := store.AddPersistentForwardRule(w, listen, remote, timeout, f.io);
        if error.Some? {
          if f.rollback != Lost {
            var undone := server.DelForwardCall(listen);
          }
          return false;
        }
      }
      return true;
    }

    /** `entries` is by listen address from the command line, by whole rule from the
        dashboard. */
    method DelForwardArm(w: World<Id>, entries: Matcher, persistent: bool, f: Faults) returns (ok: bool)
      modifies server, store
      ensures (Value(), ok) == Execute(w, old(Value()), DelForwardRun(entries, persistent), f)
      ensures ok <==>
        && f.call == Answered && entries.listen in old(server.forwards)
        && (persistent ==>
              && (old(store.file).None? || f.io.read)
              && ((forall e :: e in Forwards(Loaded(old(store.file))) ==> !Matches(entries, e))
                  || f.io.write == AtomicWrite.Written))
      ensures ok ==> server.forwards == old(server.forwards) - {entries.listen}
      ensures ok && persistent ==>
        && OthersKept(Forwards(Loaded(old(store.file))), Forwards(Loaded(store.file)), entries)
        && forall e :: e in Forwards(Loaded(store.file)) ==> !Matches(entries, e)
      ensures !persistent ==> store.file == old(store.file)
    {
      DelForwardSucceedsIff(w, store.file, server.Value(), entries, persistent, f);
      if f.call == Lost {
        return false;
      }
      ok := server.DelForwardCall(entries.listen);
      if !ok || f.call == ReplyLost {
        return false;
      }
      if persistent {
        var error, removed := store.RemovePersistentForwardRule(entries, f.io);
        if error.Some? {
          return false;
        }
      }
      return true;
    }

    method AddServeArm(w: World<Id>, name: string, target: string, persistent: bool, f: Faults) returns (ok: bool)
      requires Synced(w.chars, server.Value())
      modifies server.serve, store
      ensures Synced(w.chars, server.Value())
      ensures (Value(), ok) == Execute(w, old(Value()), AddServeRun(name, target, persistent), f)
      ensures ok <==>
        && f.call == Answered && ValidName(w.chars, name) && !Blank(w.chars, target)
        && (forall k :: k in old(server.serve.routes) ==> old(server.serve.routes)[k].name != name)
        && (persistent ==>
              && (old(store.file).None? || f.io.read)
              && (ServiceIsFirst(Serves(Loaded(old(store.file))), ServeService(name, target))
                  || (!ServiceStored(Loaded(old(store.file)), name) && f.io.write == AtomicWrite.Written)))
      ensures ok ==> server.serve.routes == old(server.serve.routes)[ServiceToAlpn(name) := Route(name, target)]
      ensures ok && persistent ==>
        && ServeService(name, target) in Serves(Loaded(store.file))
        && Serves(Loaded(old(store.file))) <= Serves(Loaded(store.file))
      ensures !persistent ==> store.file == old(store.file)
    {
      AddServeSucceedsIff(w, store.file, server.Value(), name, target, persistent, f);
      if f.call == Lost {
        return false;
      }
      ghost var file, added := store.file, AddServe(w.chars, server.Value(), name, target);
      ghost var rt := added.GetOr(server.Value());
      ok := server.AddServeCall(w.chars, name, target);
      assert Value() == Machine(file, Some(rt)) && ok == added.Some?;
      if !ok || f.call == ReplyLost {
        return false;
      }
      if persistent {
        var error := store.AddPersistentServeRule(w.chars, name, target, f.io);
        if error.Some? {
          if f.rollback != Lost {
            var undone := server.DelServeCall(w.chars, name);
          }
          return false;
        }
      }
      return true;
    }

    method DelServeArm(w: World<Id>, name: string, f: Faults) returns (ok: bool)
      requires Synced(w.chars, server.Value())
      modifies server.serve
      ensures Synced(w.chars, server.Value())
      ensures (Value(), ok) == Execute(w, old(Value()), DelServeRun(name), f)
      ensures ok <==> f.call == Answered && exists k :: k in old(server.serve.routes) && old(server.serve.routes)[k].name == name
      ensures ok ==> server.serve.alpns == server.serve.routes.Keys
      ensures ok ==>
        forall k :: k in old(server.serve.routes) ==> (k in server.serve.routes <==> old(server.serve.routes)[k].name != name)
    {
      DelServeSucceedsIff(w, store.file, server.Value(), name, f);
      if f.call == Lost {
        return false;
      }
      ok := server.DelServeCall(w.chars, name);
      if f.call == ReplyLost {
        return false;
      }
    }
  }
}
