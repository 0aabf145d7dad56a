/** The rules persisted by `src/config.rs`: what adding and removing them does to the
    configuration file. The TOML round trip is taken for granted; which outcomes writing
    the file can have is proved in `AtomicWrite`. */
module ConfigStore {
  import opened Wrappers
  import opened RemotePaths
  import opened AtomicWrite

  datatype ServeService = ServeService(name: string, target: string)

  datatype ForwardService = ForwardService(listen: string, remote: string, timeout: nat)

  datatype Config = Config(serve: Option<seq<ServeService>>, forward: Option<seq<ForwardService>>)

  const DEFAULT_CONFIG := Config(None, None)

  datatype StoreError = InvalidName | BlankTarget | BlankListen | InvalidRemote | ReadFailed | Conflict | WriteFailed

  /** Whether an existing file can be read, and what becomes of it if it is rewritten. */
  datatype Io = Io(read: bool, write: Outcome)

  /** The file after an edit, and the error reported if any. */
  datatype Edit = Edit(file: Option<Config>, error: Option<StoreError>)

  /** Which entries a removal is about. */
  datatype Matcher = ByListen(listen: string) | ByRule(listen: string, remote: string)

  function Serves(c: Config): seq<ServeService> {
    c.serve.GetOr([])
  }

  function Forwards(c: Config): seq<ForwardService> {
    c.forward.GetOr([])
  }

  function Loaded(file: Option<Config>): Config {
    file.GetOr(DEFAULT_CONFIG)
  }

  predicate Matches(m: Matcher, entry: ForwardService) {
    entry.listen == m.listen && (m.ByRule? ==> entry.remote == m.remote)
  }

  function FindServe(services: seq<ServeService>, name: string): Option<ServeService> {
    if services == [] then None
    else if services[0].name == name then Some(services[0])
    else FindServe(services[1..], name)
  }

  function FindForward(services: seq<ForwardService>, listen: string): Option<ForwardService> {
    if services == [] then None
    else if services[0].listen == listen then Some(services[0])
    else FindForward(services[1..], listen)
  }

  /** The entries that do not match, in their order. */
  function Retain(services: seq<ForwardService>, m: Matcher): seq<ForwardService> {
    if services == [] then []
    else
      var last := services[|services| - 1];
      Retain(services[..|services| - 1], m) + (if Matches(m, last) then [] else [last])
  }

  predicate Readable(file: Option<Config>, io: Io) {
    file.Some? ==> io.read
  }

  function Rewrite(file: Option<Config>, config: Config, io: Io): Edit {
    Edit(AfterWrite(io.write, file, config), if io.write == Written then None else Some(WriteFailed))
  }

  /** `add_persistent_serve_rule` */
  function AddServeRule(ch: Chars, file: Option<Config>, name: string, target: string, io: Io): Edit {
    if !ValidName(ch, name) then Edit(file, Some(InvalidName))
    else if Blank(ch, target) then Edit(file, Some(BlankTarget))
    else if !Readable(file, io) then Edit(file, Some(ReadFailed))
    else
      var c := Loaded(file);
      var found := FindServe(Serves(c), name);
      if found.Some? then Edit(file, if found.value.target == target then None else Some(Conflict))
      else Rewrite(file, c.(serve := Some(Serves(c) + [ServeService(name, target)])), io)
  }

  /** `add_persistent_forward_rule` */
  function AddForwardRule<Id>(w: World<Id>, file: Option<Config>, listen: string, remote: string, timeout: nat, io: Io): Edit {
    if Blank(w.chars, listen) then Edit(file, Some(BlankListen))
    else if FromStr(w, remote).Err? then Edit(file, Some(InvalidRemote))
    else if !Readable(file, io) then Edit(file, Some(ReadFailed))
    else
      var c := Loaded(file);
      var found := FindForward(Forwards(c), listen);
      if found.Some? then
        Edit(file, if found.value.remote == remote && found.value.timeout == timeout then None else Some(Conflict))
      else Rewrite(file, c.(forward := Some(Forwards(c) + [ForwardService(listen, remote, timeout)])), io)
  }

  /** `remove_persistent_forward_rule_inner`, and whether it found an entry to remove. */
  function RemoveForwardRule(file: Option<Config>, m: Matcher, io: Io): (Edit, bool) {
    if !Readable(file, io) then (Edit(file, Some(ReadFailed)), false)
    else
      var c := Loaded(file);
      var kept := Retain(Forwards(c), m);
      if |kept| == |Forwards(c)| then (Edit(file, None), false)
      else
        var edit := Rewrite(file, c.(forward := if kept == [] then None else Some(kept)), io);
        (edit, edit.error.None?)
  }

  // ----- When an edit gets as far as writing -----

  predicate ServeWrites(ch: Chars, file: Option<Config>, name: string, target: string, io: Io) {
    ValidName(ch, name) && !Blank(ch, target) && Readable(file, io)
    && forall i :: 0 <= i < |Serves(Loaded(file))| ==> Serves(Loaded(file))[i].name != name
  }

  predicate ForwardWrites<Id>(w: World<Id>, file: Option<Config>, listen: string, remote: string, io: Io) {
    !Blank(w.chars, listen) && FromStr(w, remote).Ok? && Readable(file, io)
    && forall i :: 0 <= i < |Forwards(Loaded(file))| ==> Forwards(Loaded(file))[i].listen != listen
  }

  predicate RemovalWrites(file: Option<Config>, m: Matcher, io: Io) {
    Readable(file, io) && exists i :: 0 <= i < |Forwards(Loaded(file))| && Matches(m, Forwards(Loaded(file))[i])
  }

  /** Only an edit that gets as far as writing, and succeeds in it or loses the file,
      changes anything. */
  lemma ServeEditIff(ch: Chars, file: Option<Config>, name: string, target: string, io: Io)
    ensures var edit := AddServeRule(ch, file, name, target, io);
      && (!ServeWrites(ch, file, name, target, io) || io.write == Kept ==> edit.file == file)
      && (ServeWrites(ch, file, name, target, io) && io.write == Vanished ==> edit == Edit(None, Some(WriteFailed)))
      && (edit.error == Some(WriteFailed) <==> ServeWrites(ch, file, name, target, io) && io.write != Written)
  {
    FindServeMeans(Serves(Loaded(file)), name);
  }

  lemma ForwardEditIff<Id>(w: World<Id>, file: Option<Config>, listen: string, remote: string, timeout: nat, io: Io)
    ensures var edit := AddForwardRule(w, file, listen, remote, timeout, io);
      && (!ForwardWrites(w, file, listen, remote, io) || io.write == Kept ==> edit.file == file)
      && (ForwardWrites(w, file, listen, remote, io) && io.write == Vanished ==> edit == Edit(None, Some(WriteFailed)))
      && (edit.error == Some(WriteFailed) <==> ForwardWrites(w, file, listen, remote, io) && io.write != Written)
  {
    FindForwardMeans(Forwards(Loaded(file)), listen);
  }

  lemma RemovalEditIff(file: Option<Config>, m: Matcher, io: Io)
    ensures var (edit, removed) := RemoveForwardRule(file, m, io);
      && (!RemovalWrites(file, m, io) || io.write == Kept ==> edit.file == file)
      && (RemovalWrites(file, m, io) && io.write == Vanished ==> edit == Edit(None, Some(WriteFailed)))
      && (edit.error == Some(WriteFailed) <==> RemovalWrites(file, m, io) && io.write != Written)
      && (removed <==> RemovalWrites(file, m, io) && io.write == Written)
  {
    RetainMeans(Forwards(Loaded(file)), m);
    var services := Forwards(Loaded(file));
    assert (exists i :: 0 <= i < |services| && Matches(m, services[i])) <==> exists e :: e in services && Matches(m, e);
  }

  // ----- What the edits mean -----

  predicate NamesDiffer(services: seq<ServeService>) {
    forall i, j :: 0 <= i < j < |services| ==> services[i].name != services[j].name
  }

  predicate ListensDiffer(services: seq<ForwardService>) {
    forall i, j :: 0 <= i < j < |services| ==> services[i].listen != services[j].listen
  }

  predicate ServesAcceptable(ch: Chars, services: seq<ServeService>) {
    forall i :: 0 <= i < |services| ==> ValidName(ch, services[i].name) && !Blank(ch, services[i].target)
  }

  predicate RemotesParse<Id>(w: World<Id>, services: seq<ForwardService>) {
    forall i :: 0 <= i < |services| ==> FromStr(w, services[i].remote).Ok?
  }

  predicate ListensGiven(ch: Chars, services: seq<ForwardService>) {
    forall i :: 0 <= i < |services| ==> !Blank(ch, services[i].listen)
  }

  /** A configuration that the operations of this file can have produced. */
  predicate WellFormed<Id>(w: World<Id>, c: Config) {
    && NamesDiffer(Serves(c)) && ServesAcceptable(w.chars, Serves(c))
    && ListensDiffer(Forwards(c)) && RemotesParse(w, Forwards(c)) && ListensGiven(w.chars, Forwards(c))
  }

  lemma {:induction false} FindServeMeans(services: seq<ServeService>, name: string)
    ensures FindServe(services, name).None? <==> forall i :: 0 <= i < |services| ==> services[i].name != name
    ensures FindServe(services, name).Some? ==>
      FindServe(services, name).value in services && FindServe(services, name).value.name == name
  {
    if services != [] {
      FindServeMeans(services[1..], name);
      assert forall i :: 0 < i < |services| ==> services[i] == services[1..][i - 1];
    }
  }

  lemma {:induction false} FindForwardMeans(services: seq<ForwardService>, listen: string)
    ensures FindForward(services, listen).None? <==> forall i :: 0 <= i < |services| ==> services[i].listen != listen
    ensures FindForward(services, listen).Some? ==>
      FindForward(services, listen).value in services && FindForward(services, listen).value.listen == listen
  {
    if services != [] {
      FindForwardMeans(services[1..], listen);
      assert forall i :: 0 < i < |services| ==> services[i] == services[1..][i - 1];
    }
  }

  /** Exactly the matching entries go; nothing changes exactly when none matches. */
  lemma {:induction false} RetainMeans(services: seq<ForwardService>, m: Matcher)
    ensures forall e :: e in Retain(services, m) <==> e in services && !Matches(m, e)
    ensures |Retain(services, m)| <= |services|
    ensures |Retain(services, m)| == |services| <==> forall e :: e in services ==> !Matches(m, e)
  {
    if services != [] {
      var n := |services| - 1;
      RetainMeans(services[..n], m);
      assert services == services[..n] + [services[n]];
    }
  }

  lemma {:induction false} RetainKeepsDistinct(services: seq<ForwardService>, m: Matcher)
    requires ListensDiffer(services)
    ensures ListensDiffer(Retain(services, m))
  {
    if services != [] {
      var n := |services| - 1;
      RetainKeepsDistinct(services[..n], m);
      RetainMeans(services[..n], m);
      var before := Retain(services[..n], m);
      forall i | 0 <= i < |before| ensures before[i].listen != services[n].listen {
        assert before[i] in services[..n];
      }
    }
  }

  /** Every edit keeps the configuration well formed, whether it succeeds, fails or loses
      the file. */
  lemma AddServeKeepsWellFormed<Id>(w: World<Id>, file: Option<Config>, name: string, target: string, io: Io)
    requires WellFormed(w, Loaded(file))
    ensures WellFormed(w, Loaded(AddServeRule(w.chars, file, name, target, io).file))
  {
    FindServeMeans(Serves(Loaded(file)), name);
  }

  lemma AddForwardKeepsWellFormed<Id>(w: World<Id>, file: Option<Config>, listen: string, remote: string, timeout: nat, io: Io)
    requires WellFormed(w, Loaded(file))
    ensures WellFormed(w, Loaded(AddForwardRule(w, file, listen, remote, timeout, io).file))
  {
    FindForwardMeans(Forwards(Loaded(file)), listen);
  }

  lemma RemoveKeepsWellFormed<Id>(w: World<Id>, file: Option<Config>, m: Matcher, io: Io)
    requires WellFormed(w, Loaded(file))
    ensures WellFormed(w, Loaded(RemoveForwardRule(file, m, io).0.file))
  {
    RetainedWellFormed(w, Forwards(Loaded(file)), m);
  }

  lemma RetainedWellFormed<Id>(w: World<Id>, services: seq<ForwardService>, m: Matcher)
    requires ListensDiffer(services) && RemotesParse(w, services) && ListensGiven(w.chars, services)
    ensures var kept := Retain(services, m);
      ListensDiffer(kept) && RemotesParse(w, kept) && ListensGiven(w.chars, kept)
  {
    RetainMeans(services, m);
    RetainKeepsDistinct(services, m);
    var kept := Retain(services, m);
    forall i | 0 <= i < |kept| ensures FromStr(w, kept[i].remote).Ok? && !Blank(w.chars, kept[i].listen) {
      assert kept[i] in services;
    }
  }

  /** A successful add leaves every earlier rule in place, and the rule it was asked for is
      there afterwards: it is the only one for its listen address. */
  lemma AddedForwardIsThere<Id>(w: World<Id>, file: Option<Config>, listen: string, remote: string, timeout: nat, io: Io)
    requires WellFormed(w, Loaded(file)) && AddForwardRule(w, file, listen, remote, timeout, io).error.None?
    ensures var c := Loaded(AddForwardRule(w, file, listen, remote, timeout, io).file);
      && Forwards(Loaded(file)) <= Forwards(c) && c.serve == Loaded(file).serve
      && ForwardService(listen, remote, timeout) in Forwards(c)
      && forall e :: e in Forwards(c) && e.listen == listen ==> e == ForwardService(listen, remote, timeout)
  {
    var before := Forwards(Loaded(file));
    FindForwardMeans(before, listen);
    AddForwardKeepsWellFormed(w, file, listen, remote, timeout, io);
    var c := Loaded(AddForwardRule(w, file, listen, remote, timeout, io).file);
    var rule := ForwardService(listen, remote, timeout);
    assert rule in Forwards(c) by {
      if FindForward(before, listen).None? {
        assert Forwards(c)[|before|] == rule;
      }
    }
    var k :| 0 <= k < |Forwards(c)| && Forwards(c)[k] == rule;
    forall e | e in Forwards(c) && e.listen == listen ensures e == rule {
      var j :| 0 <= j < |Forwards(c)| && Forwards(c)[j] == e;
      assert j == k;
    }
  }

  // ----- What the stored file holds, entry by entry -----

  ghost predicate Increasing(at: seq<nat>) {
    forall i, j :: 0 <= i < j < |at| ==> at[i] < at[j]
  }

  /** `after` is `before` without the entries that match `m`, read from the end. */
  predicate OthersKept(before: seq<ForwardService>, after: seq<ForwardService>, m: Matcher) {
    if before == [] then after == []
    else
      var n, k := |before| - 1, |after| - 1;
      if Matches(m, before[n]) then OthersKept(before[..n], after, m)
      else k >= 0 && after[k] == before[n] && OthersKept(before[..n], after[..k], m)
  }

  ghost predicate KeptAt(before: seq<ForwardService>, after: seq<ForwardService>, m: Matcher, at: seq<nat>) {
    && Increasing(at) && |at| == |after|
    && (forall i :: 0 <= i < |at| ==> at[i] < |before| && after[i] == before[at[i]])
    && (forall j: nat :: j in at <==> j < |before| && !Matches(m, before[j]))
  }

  /** That is: the others are all there, in their old order and as often as before. */
  lemma {:induction false} OthersKeptAt(before: seq<ForwardService>, after: seq<ForwardService>, m: Matcher) returns (at: seq<nat>)
    requires OthersKept(before, after, m)
    ensures KeptAt(before, after, m, at)
  {
    if before == [] {
      at := [];
    } else {
      var n, k := |before| - 1, |after| - 1;
      var e, b := before[n], before[..n];
      assert before == b + [e];
      if Matches(m, e) {
        at := OthersKeptAt(b, after, m);
        OneMoreMatching(b, after, m, at, e);
      } else {
        var a := after[..k];
        assert after == a + [e];
        at := OthersKeptAt(b, a, m);
        OneMoreKept(b, a, m, at, e);
        at := at + [|b|];
      }
    }
  }

  lemma OneMoreMatching(before: seq<ForwardService>, after: seq<ForwardService>, m: Matcher, at: seq<nat>, e: ForwardService)
    requires KeptAt(before, after, m, at) && Matches(m, e)
    ensures KeptAt(before + [e], after, m, at)
  {
  }

  lemma OneMoreKept(before: seq<ForwardService>, after: seq<ForwardService>, m: Matcher, at: seq<nat>, e: ForwardService)
    requires KeptAt(before, after, m, at) && !Matches(m, e)
    ensures KeptAt(before + [e], after + [e], m, at + [|before|])
  {
    forall j: nat ensures j in at + [|before|] <==> j in at || j == |before| {
    }
  }

  lemma {:induction false} RetainKeepsOthers(services: seq<ForwardService>, m: Matcher)
    ensures OthersKept(services, Retain(services, m), m)
  {
    if services != [] {
      var n := |services| - 1;
      RetainKeepsOthers(services[..n], m);
      var before := Retain(services[..n], m);
      assert before + [] == before && (before + [services[n]])[..|before|] == before;
    }
  }

  /** What a removal leaves in the file. It reports one exactly if it stored a file without
      the matching entries, of which there was one; without one to remove it changes nothing. */
  lemma RemovalMeans(file: Option<Config>, m: Matcher, io: Io)
    ensures var (edit, removed) := RemoveForwardRule(file, m, io);
      && (removed ==>
            edit.error.None? && edit.file.Some? && edit.file.value.serve == Loaded(file).serve
            && OthersKept(Forwards(Loaded(file)), Forwards(edit.file.value), m)
            && (edit.file.value.forward == None <==> Forwards(edit.file.value) == [])
            && |Forwards(edit.file.value)| < |Forwards(Loaded(file))|)
      && (removed ==> forall e :: e in Forwards(Loaded(edit.file)) ==> !Matches(m, e))
      && (edit.error.None? && !removed ==>
            edit.file == file && forall e :: e in Forwards(Loaded(file)) ==> !Matches(m, e))
  {
    var services := Forwards(Loaded(file));
    RetainMeans(services, m);
    RetainKeepsOthers(services, m);
  }

  /** Where nothing matches, everything is kept as it is. */
  lemma {:induction false} NoneMatching(services: seq<ForwardService>, m: Matcher)
    requires forall e :: e in services ==> !Matches(m, e)
    ensures OthersKept(services, services, m)
  {
    if services != [] {
      NoneMatching(services[..|services| - 1], m);
    }
  }

  /** In plain terms: a removal by address that succeeds leaves no entry for the address and
      every other one; a removal by rule leaves none of that address and remote and every
      other one. */
  lemma RemovalByKind(file: Option<Config>, listen: string, remote: string, io: Io)
    ensures var edit := RemoveForwardRule(file, ByListen(listen), io).0;
      edit.error.None? ==>
        forall e :: e in Forwards(Loaded(edit.file)) <==> e in Forwards(Loaded(file)) && e.listen != listen
    ensures var edit := RemoveForwardRule(file, ByRule(listen, remote), io).0;
      edit.error.None? ==>
        forall e :: e in Forwards(Loaded(edit.file)) <==>
          e in Forwards(Loaded(file)) && !(e.listen == listen && e.remote == remote)
  {
    RetainMeans(Forwards(Loaded(file)), ByListen(listen));
    RetainMeans(Forwards(Loaded(file)), ByRule(listen, remote));
  }

  /** How a removal ends: it succeeds exactly if the file can be read and, where it holds a
      matching entry, rewritten; then none is left and all others are kept. */
  lemma RemovalEnds(file: Option<Config>, m: Matcher, io: Io)
    ensures var edit := RemoveForwardRule(file, m, io).0; var before, after := Forwards(Loaded(file)), Forwards(Loaded(edit.file));
      && (edit.error.None? <==>
            (file.None? || io.read) && ((forall e :: e in before ==> !Matches(m, e)) || io.write == Written))
      && (edit.error.None? ==>
            && OthersKept(before, after, m) && Loaded(edit.file).serve == Loaded(file).serve
            && forall e :: e in after ==> !Matches(m, e))
  {
    RemovalMeans(file, m, io);
    RetainMeans(Forwards(Loaded(file)), m);
    if forall e :: e in Forwards(Loaded(file)) ==> !Matches(m, e) {
      NoneMatching(Forwards(Loaded(file)), m);
    }
  }

  /** The counterpart of `AddedForwardIsThere` for services. */
  lemma AddedServiceIsThere(ch: Chars, file: Option<Config>, name: string, target: string, io: Io)
    requires NamesDiffer(Serves(Loaded(file))) && AddServeRule(ch, file, name, target, io).error.None?
    ensures var c := Loaded(AddServeRule(ch, file, name, target, io).file);
      && Serves(Loaded(file)) <= Serves(c) && c.forward == Loaded(file).forward
      && |Serves(c)| <= |Serves(Loaded(file))| + 1
      && ServeService(name, target) in Serves(c)
      && forall e :: e in Serves(c) && e.name == name ==> e == ServeService(name, target)
  {
    var before := Serves(Loaded(file));
    FindServeMeans(before, name);
    var c := Loaded(AddServeRule(ch, file, name, target, io).file);
    var rule := ServeService(name, target);
    assert NamesDiffer(Serves(c));
    assert rule in Serves(c) by {
      if FindServe(before, name).None? {
        assert Serves(c)[|before|] == rule;
      }
    }
    var k :| 0 <= k < |Serves(c)| && Serves(c)[k] == rule;
    forall e | e in Serves(c) && e.name == name ensures e == rule {
      var j :| 0 <= j < |Serves(c)| && Serves(c)[j] == e;
      assert j == k;
    }
  }

  predicate ServiceStored(c: Config, name: string) {
    exists i :: 0 <= i < |Serves(c)| && Serves(c)[i].name == name
  }

  predicate ForwardStored(c: Config, listen: string) {
    exists i :: 0 <= i < |Forwards(c)| && Forwards(c)[i].listen == listen
  }

  /** The rule is stored, and no other of its name before it. */
  predicate ServiceIsFirst(services: seq<ServeService>, rule: ServeService) {
    exists i :: 0 <= i < |services| && services[i] == rule && forall j :: 0 <= j < i ==> services[j].name != rule.name
  }

  predicate ForwardIsFirst(services: seq<ForwardService>, rule: ForwardService) {
    exists i :: 0 <= i < |services| && services[i] == rule && forall j :: 0 <= j < i ==> services[j].listen != rule.listen
  }

  lemma {:induction false} FindServeIsFirst(services: seq<ServeService>, rule: ServeService)
    ensures FindServe(services, rule.name) == Some(rule) <==> ServiceIsFirst(services, rule)
  {
    if services != [] {
      FindServeIsFirst(services[1..], rule);
      if services[0].name != rule.name && ServiceIsFirst(services, rule) {
        var i :| 0 <= i < |services| && services[i] == rule && forall j :: 0 <= j < i ==> services[j].name != rule.name;
        assert services[1..][i - 1] == rule;
      }
    }
  }

  lemma {:induction false} FindForwardIsFirst(services: seq<ForwardService>, rule: ForwardService)
    ensures FindForward(services, rule.listen) == Some(rule) <==> ForwardIsFirst(services, rule)
  {
    if services != [] {
      FindForwardIsFirst(services[1..], rule);
      if services[0].listen != rule.listen && ForwardIsFirst(services, rule) {
        var i :| 0 <= i < |services| && services[i] == rule && forall j :: 0 <= j < i ==> services[j].listen != rule.listen;
        assert services[1..][i - 1] == rule;
      }
    }
  }

  /** How an add of a service ends, whatever the file holds: the checks first, then a rule of
      that name stored already, the same (which changes nothing) or another (a conflict),
      then the write. */
  lemma AddServeEnds(ch: Chars, file: Option<Config>, name: string, target: string, io: Io)
    ensures var edit := AddServeRule(ch, file, name, target, io); var c := Loaded(file);
      var same := ServiceIsFirst(Serves(c), ServeService(name, target));
      && (edit.error == Some(InvalidName) <==> !ValidName(ch, name))
      && (edit.error == Some(BlankTarget) <==> ValidName(ch, name) && Blank(ch, target))
      && (edit.error == Some(ReadFailed) <==> ValidName(ch, name) && !Blank(ch, target) && file.Some? && !io.read)
      && (edit.error == Some(Conflict) <==>
            ValidName(ch, name) && !Blank(ch, target) && (file.None? || io.read) && ServiceStored(c, name) && !same)
      && (edit.error.None? <==>
            ValidName(ch, name) && !Blank(ch, target) && (file.None? || io.read)
            && (same || (!ServiceStored(c, name) && io.write == Written)))
      && (same || (edit.error.Some? && edit.error != Some(WriteFailed)) ==> edit.file == file)
  {
    FindServeMeans(Serves(Loaded(file)), name);
    FindServeIsFirst(Serves(Loaded(file)), ServeService(name, target));
  }

  /** Likewise for a forward. */
  lemma AddForwardEnds<Id>(w: World<Id>, file: Option<Config>, listen: string, remote: string, timeout: nat, io: Io)
    ensures var edit := AddForwardRule(w, file, listen, remote, timeout, io); var c := Loaded(file);
      var same := ForwardIsFirst(Forwards(c), ForwardService(listen, remote, timeout));
      && (edit.error == Some(BlankListen) <==> Blank(w.chars, listen))
      && (edit.error == Some(InvalidRemote) <==> !Blank(w.chars, listen) && FromStr(w, remote).Err?)
      && (edit.error == Some(ReadFailed) <==>
            !Blank(w.chars, listen) && FromStr(w, remote).Ok? && file.Some? && !io.read)
      && (edit.error == Some(Conflict) <==>
            !Blank(w.chars, listen) && FromStr(w, remote).Ok? && (file.None? || io.read) && ForwardStored(c, listen) && !same)
      && (edit.error.None? <==>
            !Blank(w.chars, listen) && FromStr(w, remote).Ok? && (file.None? || io.read)
            && (same || (!ForwardStored(c, listen) && io.write == Written)))
      && (same || (edit.error.Some? && edit.error != Some(WriteFailed)) ==> edit.file == file)
  {
    FindForwardMeans(Forwards(Loaded(file)), listen);
    FindForwardIsFirst(Forwards(Loaded(file)), ForwardService(listen, remote, timeout));
  }

  /** What every successful add leaves in the file, whatever it held before. */
  lemma AddServeStores(ch: Chars, file: Option<Config>, name: string, target: string, io: Io)
    requires AddServeRule(ch, file, name, target, io).error.None?
    ensures var c := Loaded(AddServeRule(ch, file, name, target, io).file);
      Serves(Loaded(file)) <= Serves(c) && c.forward == Loaded(file).forward && ServeService(name, target) in Serves(c)
  {
    FindServeMeans(Serves(Loaded(file)), name);
    var c := Loaded(AddServeRule(ch, file, name, target, io).file);
    if FindServe(Serves(Loaded(file)), name).None? {
      assert Serves(c)[|Serves(Loaded(file))|] == ServeService(name, target);
    }
  }

  lemma AddForwardStores<Id>(w: World<Id>, file: Option<Config>, listen: string, remote: string, timeout: nat, io: Io)
    requires AddForwardRule(w, file, listen, remote, timeout, io).error.None?
    ensures var c := Loaded(AddForwardRule(w, file, listen, remote, timeout, io).file);
      Forwards(Loaded(file)) <= Forwards(c) && c.serve == Loaded(file).serve && ForwardService(listen, remote, timeout) in Forwards(c)
  {
    FindForwardMeans(Forwards(Loaded(file)), listen);
    var c := Loaded(AddForwardRule(w, file, listen, remote, timeout, io).file);
    if FindForward(Forwards(Loaded(file)), listen).None? {
      assert Forwards(c)[|Forwards(Loaded(file))|] == ForwardService(listen, remote, timeout);
    }
  }

  // ----- The same operations as the source runs them -----

  class Store<!Id(==)> {
    var file: Option<Config>

    constructor (file: Option<Config>)
      ensures this.file == file
    {
      this.file := file;
    }

    /** `write_config`; `AtomicWrite.ConfigDir.WriteConfigAtomic` has just these outcomes. */
    method WriteConfig(config: Config, io: Io) returns (error: Option<StoreError>)
      modifies this
      ensures Edit(file, error) == Rewrite(old(file), config, io)
    {
      file := AfterWrite(io.write, file, config);
      error := if io.write == Written then None else Some(WriteFailed);
    }

    method AddPersistentServeRule(ch: Chars, name: string, target: string, io: Io) returns (error: Option<StoreError>)
      modifies this
      ensures Edit(file, error) == AddServeRule(ch, old(file), name, target, io)
      ensures error.None? ==>
        Serves(Loaded(old(file))) <= Serves(Loaded(file)) && Loaded(file).forward == Loaded(old(file)).forward
      ensures error.None? ==> ServeService(name, target) in Serves(Loaded(file))
      ensures error.Some? ==> file == old(file) || (io.write == Vanished && file == None)
    {
      if !ValidName(ch, name) {
        return Some(InvalidName);
      }
      if Blank(ch, target) {
        return Some(BlankTarget);
      }
      if file.Some? && !io.read {
        return Some(ReadFailed);
      }
      var config := Loaded(file);
      var services := config.serve.GetOr([]);
      for i := 0 to |services|
        invariant FindServe(services, name) == FindServe(services[i..], name)
      {
        if services[i].name == name {
          return if services[i].target == target then None else Some(Conflict);
        }
      }
      services := services + [ServeService(name, target)];
      error := WriteConfig(config.(serve := Some(services)), io);
    }

    method AddPersistentForwardRule(w: World<Id>, listen: string, remote: string, timeout: nat, io: Io)
      returns (error: Option<StoreError>)
      modifies this
      ensures Edit(file, error) == AddForwardRule(w, old(file), listen, remote, timeout, io)
      ensures error.None? ==>
        Forwards(Loaded(old(file))) <= Forwards(Loaded(file)) && Loaded(file).serve == Loaded(old(file)).serve
      ensures error.None? ==> ForwardService(listen, remote, timeout) in Forwards(Loaded(file))
      ensures error.Some? ==> file == old(file) || (io.write == Vanished && file == None)
    {
      if Blank(w.chars, listen) {
        return Some(BlankListen);
      }
      if FromStr(w, remote).Err? {
        return Some(InvalidRemote);
      }
      if file.Some? && !io.read {
        return Some(ReadFailed);
      }
      var config := Loaded(file);
      var services := config.forward.GetOr([]);
      for i := 0 to |services|
        invariant FindForward(services, listen) == FindForward(services[i..], listen)
      {
        if services[i].listen == listen {
          return if services[i].remote == remote && services[i].timeout == timeout then None else Some(Conflict);
        }
      }
      services := services + [ForwardService(listen, remote, timeout)];
      error := WriteConfig(config.(forward := Some(services)), io);
    }

    method RemovePersistentForwardRule(m: Matcher, io: Io) returns (error: Option<StoreError>, removed: bool)
      modifies this
      ensures (Edit(file, error), removed) == RemoveForwardRule(old(file), m, io)
      ensures removed ==> error.None? && file.Some? && file.value.serve == Loaded(old(file)).serve
      ensures removed ==> OthersKept(Forwards(Loaded(old(file))), Forwards(file.value), m)
      ensures removed ==> forall e :: e in Forwards(file.value) ==> !Matches(m, e)
      ensures removed ==> (file.value.forward == None <==> Forwards(file.value) == [])
      ensures error.None? && !removed ==>
        file == old(file) && forall e :: e in Forwards(Loaded(file)) ==> !Matches(m, e)
      ensures error.Some? ==> file == old(file) || (io.write == Vanished && file == None)
    {
      RemovalMeans(file, m, io);
      if file.Some? && !io.read {
        return Some(ReadFailed), false;
      }
      var config := Loaded(file);
      if config.forward.None? {
        return None, false;
      }
      var services := config.forward.value;
      var kept := [];
      for i := 0 to |services|
        invariant kept == Retain(services[..i], m)
      {
        assert services[..i + 1][..i] == services[..i];
        if !Matches(m, services[i]) {
          kept := kept + [services[i]];
        }
      }
      assert services[..|services|] == services;
      if |kept| == |services| {
        return None, false;
      }
      error := WriteConfig(config.(forward := if kept == [] then None else Some(kept)), io);
      removed := error.None?;
    }
  }
}
