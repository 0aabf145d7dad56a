/** `src/daemon/routes.rs` and the serve calls of `src/daemon/service.rs`: the route table
    behind its lock, the endpoint's set of ALPNs, and the two separate steps by which a
    call copies the table's keys to the endpoint. */
module Routes {
  import opened Wrappers
  import opened Utf8
  import opened RemotePaths

  type Alpn = seq<Byte>

  datatype Route = Route(name: string, target: string)

  type Table = map<Alpn, Route>

  datatype AddError = BadName | BlankTarget | DuplicateName

  /** `add_serve_route` */
  function AddServeRoute(ch: Chars, routes: Table, name: string, target: string): Result<Table, AddError> {
    if !ValidName(ch, name) then Err(BadName)
    else if Blank(ch, target) then Err(BlankTarget)
    else if ServiceToAlpn(name) in routes then Err(DuplicateName)
    else Ok(routes[ServiceToAlpn(name) := Route(name, target)])
  }

  /** Every key is the ALPN of its own route's name, and the route would be accepted. */
  predicate WellKeyed(ch: Chars, routes: Table) {
    forall k :: k in routes ==>
      k == ServiceToAlpn(routes[k].name) && ValidName(ch, routes[k].name) && !Blank(ch, routes[k].target)
  }

  /** A name is refused as a duplicate exactly if a route of that name is registered: the
      keys are compared, but keys are as good as names. */
  lemma DuplicateByName(ch: Chars, routes: Table, name: string)
    requires WellKeyed(ch, routes)
    ensures ServiceToAlpn(name) in routes <==> exists k :: k in routes && routes[k].name == name
  {
    if ServiceToAlpn(name) in routes {
      AlpnInjective(name, routes[ServiceToAlpn(name)].name);
    }
  }

  /** Removing the key of `name` removes the route of that name and no other. */
  lemma RemovesExactlyNamed(ch: Chars, routes: Table, name: string)
    requires WellKeyed(ch, routes)
    ensures forall k :: k in routes ==> (k in routes - {ServiceToAlpn(name)} <==> routes[k].name != name)
    ensures WellKeyed(ch, routes - {ServiceToAlpn(name)})
  {
    forall k | k in routes ensures k in routes - {ServiceToAlpn(name)} <==> routes[k].name != name {
      AlpnInjective(name, routes[k].name);
    }
  }

  /** One server's serve side, its calls one at a time. */
  class ServeSide {
    var routes: Table
    var alpns: set<Alpn>
    var events: seq<string>

    constructor ()
      ensures routes == map[] && alpns == {} && events == []
    {
      routes, alpns, events := map[], {}, [];
    }

    method SyncEndpointAlpns()
      modifies this`alpns
      ensures alpns == routes.Keys
    {
      var keys := routes.Keys;
      alpns := keys;
    }

    method AddServe(ch: Chars, name: string, target: string) returns (error: Option<AddError>)
      requires WellKeyed(ch, routes)
      modifies this
      ensures WellKeyed(ch, routes)
      ensures error.None? <==> (ValidName(ch, name) && !Blank(ch, target)
        && forall k :: k in old(routes) ==> old(routes)[k].name != name)
      ensures AddServeRoute(ch, old(routes), name, target) == if error.None? then Ok(routes) else Err(error.value)
      ensures error.None? ==> routes == old(routes)[ServiceToAlpn(name) := Route(name, target)]
      ensures error.None? ==> alpns == routes.Keys && events == old(events) + ["serve-added"]
      ensures error.Some? ==> routes == old(routes) && alpns == old(alpns) && events == old(events)
    {
      DuplicateByName(ch, routes, name);
      if !ValidName(ch, name) {
        return Some(BadName);
      }
      if Blank(ch, target) {
        return Some(BlankTarget);
      }
      var alpn := ServiceToAlpn(name);
      if alpn in routes {
        return Some(DuplicateName);
      }
      routes := routes[alpn := Route(name, target)];
      SyncEndpointAlpns();
      events := events + ["serve-added"];
      return None;
    }

    method DelServe(ch: Chars, name: string) returns (found: bool)
      requires WellKeyed(ch, routes)
      modifies this
      ensures WellKeyed(ch, routes)
      ensures found <==> exists k :: k in old(routes) && old(routes)[k].name == name
      ensures routes == old(routes) - {ServiceToAlpn(name)}
      ensures forall k :: k in old(routes) ==> (k in routes <==> old(routes)[k].name != name)
      ensures found ==> alpns == routes.Keys && events == old(events) + ["serve-removed"]
      ensures !found ==> routes == old(routes) && alpns == old(alpns) && events == old(events)
    {
      DuplicateByName(ch, routes, name);
      RemovesExactlyNamed(ch, routes, name);
      var alpn := ServiceToAlpn(name);
      found := alpn in routes;
      routes := routes - {alpn};
      if found {
        SyncEndpointAlpns();
        events := events + ["serve-removed"];
      }
    }

    /** The lookup of `handle_incoming` by the ALPN that the handshake settled on. */
    method RouteFor(ch: Chars, negotiated: Alpn) returns (route: Option<Route>)
      requires WellKeyed(ch, routes)
      ensures route.Some? <==> negotiated in routes
      ensures route.Some? ==> ServiceToAlpn(route.value.name) == negotiated && ValidName(ch, route.value.name)
      ensures route.Some? ==> route.value == routes[negotiated]
    {
      if negotiated in routes {
        return Some(routes[negotiated]);
      }
      return None;
    }
  }

  // ----- Calls that interleave -----

  datatype Call =
    | AddReady(name: string, target: string)
    | DelReady(name: string)
    | Changed
    | HasRead(keys: set<Alpn>, version: nat)
    | Returned
    | Refused

  /** What a connection was given by the lookup. */
  datatype Handed = Handed(negotiated: Alpn, route: Option<Route>)

  /** `history` holds the table's key set after each change, from the start on. A call that
      has read carries its copy of the keys; `version` and `published` note when the copy
      a call carries, and the one the endpoint has, were taken. */
  datatype State = State(
    routes: Table, alpns: set<Alpn>, calls: seq<Call>,
    history: seq<set<Alpn>>, published: nat, handed: seq<Handed>)

  datatype Step =
    | StartAdd(name: string, target: string)
    | StartDel(name: string)
    | Change(c: nat)
    | ReadKeys(c: nat)
    | Publish(c: nat)
    | Incoming(negotiated: Alpn)

  /** The daemon just after startup, serving `routes`. */
  function Serving(routes: Table): State {
    State(routes, routes.Keys, [], [routes.Keys], 0, [])
  }

  predicate Enabled(s: State, step: Step) {
    |s.history| > 0
    && match step
       case StartAdd(_, _) => true
       case StartDel(_) => true
       case Change(c) => c < |s.calls| && (s.calls[c].AddReady? || s.calls[c].DelReady?)
       case ReadKeys(c) => c < |s.calls| && s.calls[c].Changed?
       case Publish(c) => c < |s.calls| && s.calls[c].HasRead?
       case Incoming(_) => true
  }

  function AfterChange(s: State, c: nat, routes: Table): State
    requires c < |s.calls|
  {
    s.(routes := routes, history := s.history + [routes.Keys], calls := s.calls[c := Changed])
  }

  function Apply(ch: Chars, s: State, step: Step): State
    requires Enabled(s, step)
  {
    match step
    case StartAdd(name, target) => s.(calls := s.calls + [AddReady(name, target)])
    case StartDel(name) => s.(calls := s.calls + [DelReady(name)])
    case Change(c) =>
      if s.calls[c].AddReady? then
        var added := AddServeRoute(ch, s.routes, s.calls[c].name, s.calls[c].target);
        if added.Err? then s.(calls := s.calls[c := Refused]) else AfterChange(s, c, added.value)
      else
        var alpn := ServiceToAlpn(s.calls[c].name);
        if alpn !in s.routes then s.(calls := s.calls[c := Refused]) else AfterChange(s, c, s.routes - {alpn})
    case ReadKeys(c) => s.(calls := s.calls[c := HasRead(s.routes.Keys, |s.history| - 1)])
    case Publish(c) =>
      s.(alpns := s.calls[c].keys, published := s.calls[c].version, calls := s.calls[c := Returned])
    case Incoming(negotiated) =>
      var route := if negotiated in s.routes then Some(s.routes[negotiated]) else None;
      s.(handed := s.handed + [Handed(negotiated, route)])
  }

  predicate Runs(ch: Chars, s: State, steps: seq<Step>)
    decreases |steps|
  {
    steps == [] || (Enabled(s, steps[0]) && Runs(ch, Apply(ch, s, steps[0]), steps[1..]))
  }

  function Final(ch: Chars, s: State, steps: seq<Step>): State
    requires Runs(ch, s, steps)
    decreases |steps|
  {
    if steps == [] then s else Final(ch, Apply(ch, s, steps[0]), steps[1..])
  }

  predicate HandedRight(ch: Chars, handed: seq<Handed>) {
    forall i :: 0 <= i < |handed| && handed[i].route.Some? ==>
      ServiceToAlpn(handed[i].route.value.name) == handed[i].negotiated && ValidName(ch, handed[i].route.value.name)
  }

  predicate Inv(ch: Chars, s: State) {
    && WellKeyed(ch, s.routes)
    && |s.history| > 0 && s.history[|s.history| - 1] == s.routes.Keys
    && s.published < |s.history| && s.alpns == s.history[s.published]
    && HandedRight(ch, s.handed)
    && (forall c :: 0 <= c < |s.calls| && s.calls[c].HasRead? ==>
          s.calls[c].version < |s.history| && s.calls[c].keys == s.history[s.calls[c].version])
  }

  lemma AfterChangeKeeps(ch: Chars, s: State, c: nat, routes: Table)
    requires Inv(ch, s) && c < |s.calls| && WellKeyed(ch, routes)
    ensures Inv(ch, AfterChange(s, c, routes)) && s.history <= AfterChange(s, c, routes).history
  {
  }

  lemma AddedWellKeyed(ch: Chars, routes: Table, name: string, target: string)
    requires WellKeyed(ch, routes) && AddServeRoute(ch, routes, name, target).Ok?
    ensures WellKeyed(ch, AddServeRoute(ch, routes, name, target).value)
  {
  }

  lemma ChangeKeeps(ch: Chars, s: State, c: nat)
    requires Inv(ch, s) && Enabled(s, Change(c))
    ensures Inv(ch, Apply(ch, s, Change(c))) && s.history <= Apply(ch, s, Change(c)).history
  {
    var call := s.calls[c];
    if call.AddReady? {
      var added := AddServeRoute(ch, s.routes, call.name, call.target);
      if added.Ok? {
        AddedWellKeyed(ch, s.routes, call.name, call.target);
        AfterChangeKeeps(ch, s, c, added.value);
      }
    } else {
      RemovesExactlyNamed(ch, s.routes, call.name);
      AfterChangeKeeps(ch, s, c, s.routes - {ServiceToAlpn(call.name)});
    }
  }

  lemma StepKeeps(ch: Chars, s: State, step: Step)
    requires Inv(ch, s) && Enabled(s, step)
    ensures Inv(ch, Apply(ch, s, step))
    ensures s.history <= Apply(ch, s, step).history
  {
    if step.Change? {
      ChangeKeeps(ch, s, step.c);
    } else {
      assert Apply(ch, s, step).routes == s.routes;
    }
  }

  lemma {:induction false} RunKeeps(ch: Chars, s: State, steps: seq<Step>)
    requires Inv(ch, s) && Runs(ch, s, steps)
    ensures Inv(ch, Final(ch, s, steps)) && s.history <= Final(ch, s, steps).history
    decreases |steps|
  {
    if steps != [] {
      StepKeeps(ch, s, steps[0]);
      RunKeeps(ch, Apply(ch, s, steps[0]), steps[1..]);
    }
  }

  /** Under every interleaving: keys stay the ALPNs of valid names; every connection was
      handed a route whose name has the ALPN it negotiated, or none; and the copy of the
      keys that the endpoint has is at all times the table's key set at some point. */
  lemma RoutesStayNamed(ch: Chars, start: Table, steps: seq<Step>)
    requires WellKeyed(ch, start) && Runs(ch, Serving(start), steps)
    ensures var s := Final(ch, Serving(start), steps);
      && WellKeyed(ch, s.routes) && HandedRight(ch, s.handed)
      && |s.history| > 0 && s.history[0] == start.Keys && s.history[|s.history| - 1] == s.routes.Keys
      && s.published < |s.history| && s.alpns == s.history[s.published]
  {
    RunKeeps(ch, Serving(start), steps);
  }

  predicate NameServed(routes: Table, name: string) {
    exists k :: k in routes && routes[k].name == name
  }

  /** In every interleaving, a connection that asks for the service `name` is handed a route
      exactly if one of that name is registered at that step, and then that very route. */
  lemma HandedIffServed(ch: Chars, start: Table, steps: seq<Step>, name: string)
    requires WellKeyed(ch, start) && Runs(ch, Serving(start), steps)
    ensures var s := Final(ch, Serving(start), steps); |s.history| > 0
    ensures var s := Final(ch, Serving(start), steps);
      var t := Apply(ch, s, Incoming(ServiceToAlpn(name)));
      && |t.handed| == |s.handed| + 1 && t.routes == s.routes
      && t.handed[|s.handed|].negotiated == ServiceToAlpn(name)
      && (t.handed[|s.handed|].route.Some? <==> NameServed(s.routes, name))
      && (t.handed[|s.handed|].route.Some? ==>
            && t.handed[|s.handed|].route.value.name == name
            && exists k :: k in s.routes && s.routes[k] == t.handed[|s.handed|].route.value)
  {
    RunKeeps(ch, Serving(start), steps);
    var s := Final(ch, Serving(start), steps);
    DuplicateByName(ch, s.routes, name);
    if ServiceToAlpn(name) in s.routes {
      AlpnInjective(s.routes[ServiceToAlpn(name)].name, name);
    }
  }

  /** Every route of `before` whose name is not `name` is in `after` as it was, and `after`
      has no others of such names. */
  predicate OthersUntouched(before: Table, after: Table, name: string) {
    && (forall k :: k in before && before[k].name != name ==> k in after && after[k] == before[k])
    && (forall k :: k in after && after[k].name != name ==> k in before && before[k] == after[k])
  }

  /** In every interleaving, what the change of a call does to the table: an add goes
      through exactly if name and target are acceptable and no such name is served, and
      then serves it; a removal exactly if the name is served, and then does not serve it.
      All other names are left alone, and a refused call changes nothing. */
  lemma ChangeMeans(ch: Chars, start: Table, steps: seq<Step>, c: nat)
    requires WellKeyed(ch, start) && Runs(ch, Serving(start), steps) && Enabled(Final(ch, Serving(start), steps), Change(c))
    ensures var s := Final(ch, Serving(start), steps); var t := Apply(ch, s, Change(c)); var name := s.calls[c].name;
      && (t.calls[c] == Changed || t.calls[c] == Refused)
      && (t.calls[c] == Refused ==> t.routes == s.routes && t.history == s.history)
      && (t.calls[c] == Changed ==> t.history == s.history + [t.routes.Keys])
      && OthersUntouched(s.routes, t.routes, name)
      && (s.calls[c].AddReady? ==>
            && (t.calls[c] == Changed <==>
                  ValidName(ch, name) && !Blank(ch, s.calls[c].target) && !NameServed(s.routes, name))
            && (t.calls[c] == Changed ==>
                  exists k :: k in t.routes && t.routes[k] == Route(name, s.calls[c].target)))
      && (s.calls[c].DelReady? ==>
            (t.calls[c] == Changed <==> NameServed(s.routes, name)) && !NameServed(t.routes, name))
  {
    RunKeeps(ch, Serving(start), steps);
    var s := Final(ch, Serving(start), steps);
    var t, call := Apply(ch, s, Change(c)), s.calls[c];
    DuplicateByName(ch, s.routes, call.name);
    if call.AddReady? {
      AddedRoute(ch, s.routes, call.name, call.target);
    } else {
      RemovesExactlyNamed(ch, s.routes, call.name);
    }
  }

  lemma AddedRoute(ch: Chars, routes: Table, name: string, target: string)
    requires WellKeyed(ch, routes)
    ensures AddServeRoute(ch, routes, name, target).Ok? <==>
      ValidName(ch, name) && !Blank(ch, target) && !NameServed(routes, name)
    ensures var added := AddServeRoute(ch, routes, name, target);
      added.Ok? ==> (OthersUntouched(routes, added.value, name)
        && exists k :: k in added.value && added.value[k] == Route(name, target))
  {
    DuplicateByName(ch, routes, name);
    var added := AddServeRoute(ch, routes, name, target);
    if added.Ok? {
      assert added.value[ServiceToAlpn(name)] == Route(name, target);
    }
  }

  predicate InFlight(call: Call) {
    !call.Returned? && !call.Refused?
  }

  predicate Quiet(s: State) {
    forall c :: 0 <= c < |s.calls| ==> !InFlight(s.calls[c])
  }

  /** No call begins before the one before it has returned. */
  predicate Serial(ch: Chars, s: State, steps: seq<Step>)
    requires Runs(ch, s, steps)
    decreases |steps|
  {
    steps == []
    || ((steps[0].StartAdd? || steps[0].StartDel? ==> Quiet(s)) && Serial(ch, Apply(ch, s, steps[0]), steps[1..]))
  }

  /** At most the last call is in flight, and what it has not yet made good is all that
      separates the endpoint from the table. */
  predicate OneAtATime(s: State) {
    && (forall c :: 0 <= c < |s.calls| - 1 ==> !InFlight(s.calls[c]))
    && (s.calls != [] && s.calls[|s.calls| - 1].HasRead? ==>
          s.calls[|s.calls| - 1].version == |s.history| - 1)
    && (s.calls == [] || !(s.calls[|s.calls| - 1].Changed? || s.calls[|s.calls| - 1].HasRead?) ==>
          s.alpns == s.routes.Keys)
  }

  lemma {:induction false} SerialKeeps(ch: Chars, s: State, steps: seq<Step>)
    requires Inv(ch, s) && OneAtATime(s) && Runs(ch, s, steps) && Serial(ch, s, steps)
    ensures Inv(ch, Final(ch, s, steps)) && OneAtATime(Final(ch, s, steps))
    decreases |steps|
  {
    if steps != [] {
      var t := Apply(ch, s, steps[0]);
      StepKeeps(ch, s, steps[0]);
      SerialStep(ch, s, steps[0]);
      SerialKeeps(ch, t, steps[1..]);
    }
  }

  lemma SerialStep(ch: Chars, s: State, step: Step)
    requires Inv(ch, s) && OneAtATime(s) && Enabled(s, step) && (step.StartAdd? || step.StartDel? ==> Quiet(s))
    ensures OneAtATime(Apply(ch, s, step))
  {
    if step.Change? || step.ReadKeys? || step.Publish? {
      assert InFlight(s.calls[step.c]);
      assert step.c == |s.calls| - 1;
    }
  }

  /** With serialized calls the endpoint offers exactly the registered services whenever
      no call is under way. */
  lemma SerialCallsPublish(ch: Chars, start: Table, steps: seq<Step>)
    requires WellKeyed(ch, start) && Runs(ch, Serving(start), steps) && Serial(ch, Serving(start), steps)
    ensures var s := Final(ch, Serving(start), steps); Quiet(s) ==> s.alpns == s.routes.Keys
  {
    SerialKeeps(ch, Serving(start), steps);
  }

  predicate OnlyAdds(steps: seq<Step>) {
    forall i :: 0 <= i < |steps| ==> !steps[i].StartDel?
  }

  predicate Growing(history: seq<set<Alpn>>) {
    forall i, j :: 0 <= i < j < |history| ==> history[i] < history[j]
  }

  lemma GrowingAppend(history: seq<set<Alpn>>, keys: set<Alpn>)
    requires Growing(history) && |history| > 0 && history[|history| - 1] < keys
    ensures Growing(history + [keys])
  {
    forall i, j | 0 <= i < j < |history| + 1 ensures (history + [keys])[i] < (history + [keys])[j] {
      if j == |history| && i < j - 1 {
        assert history[i] < history[|history| - 1];
      }
    }
  }

  predicate NoDeletes(calls: seq<Call>) {
    forall c :: 0 <= c < |calls| ==> !calls[c].DelReady?
  }

  lemma AddGrows(ch: Chars, s: State, step: Step)
    requires |s.history| > 0 && s.history[|s.history| - 1] == s.routes.Keys && Growing(s.history)
    requires Enabled(s, step) && NoDeletes(s.calls) && !step.StartDel?
    ensures NoDeletes(Apply(ch, s, step).calls) && Growing(Apply(ch, s, step).history)
  {
    if step.Change? {
      var call := s.calls[step.c];
      var alpn := ServiceToAlpn(call.name);
      var keys := s.routes[alpn := Route(call.name, call.target)].Keys;
      if alpn !in s.routes {
        assert alpn in keys && s.routes.Keys <= keys;
        GrowingAppend(s.history, keys);
      }
    }
  }

  lemma {:induction false} AddsGrow(ch: Chars, s: State, steps: seq<Step>)
    requires Inv(ch, s) && Growing(s.history) && Runs(ch, s, steps) && OnlyAdds(steps) && NoDeletes(s.calls)
    ensures Growing(Final(ch, s, steps).history)
    decreases |steps|
  {
    if steps != [] {
      StepKeeps(ch, s, steps[0]);
      AddGrows(ch, s, steps[0]);
      AddsGrow(ch, Apply(ch, s, steps[0]), steps[1..]);
    }
  }

  /** When calls that only add services interleave, the endpoint ends up offering exactly
      the registered services if and only if the set published last was read after the
      last change of the table. */
  lemma LastReadDecides(ch: Chars, start: Table, steps: seq<Step>)
    requires WellKeyed(ch, start) && Runs(ch, Serving(start), steps) && OnlyAdds(steps)
    ensures var s := Final(ch, Serving(start), steps);
      s.alpns == s.routes.Keys <==> s.published == |s.history| - 1
  {
    RunKeeps(ch, Serving(start), steps);
    AddsGrow(ch, Serving(start), steps);
  }

  lemma {:induction false} RunsAppend(ch: Chars, s: State, steps: seq<Step>, step: Step)
    requires Runs(ch, s, steps) && Enabled(Final(ch, s, steps), step)
    ensures Runs(ch, s, steps + [step]) && Final(ch, s, steps + [step]) == Apply(ch, Final(ch, s, steps), step)
    decreases |steps|
  {
    if steps == [] {
      assert [] + [step] == [step] && [step][1..] == [];
      assert Runs(ch, Apply(ch, s, step), []);
    } else {
      RunsAppend(ch, Apply(ch, s, steps[0]), steps[1..], step);
      assert (steps + [step])[1..] == steps[1..] + [step];
    }
  }

  /** A `DelServe` of a served name that nothing disturbs takes its key out of the table and
      publishes the rest. */
  lemma DelServeRuns(ch: Chars, start: Table, before: seq<Step>, name: string) returns (steps: seq<Step>)
    requires WellKeyed(ch, start) && Runs(ch, Serving(start), before) && NameServed(Final(ch, Serving(start), before).routes, name)
    ensures Runs(ch, Serving(start), steps)
    ensures var s, t := Final(ch, Serving(start), before), Final(ch, Serving(start), steps);
      && t.routes == s.routes - {ServiceToAlpn(name)} && t.alpns == t.routes.Keys && !NameServed(t.routes, name)
      && t.calls == s.calls + [Returned]
  {
    RunKeeps(ch, Serving(start), before);
    var s0, s := Serving(start), Final(ch, Serving(start), before);
    var c := |s.calls|;
    DuplicateByName(ch, s.routes, name);
    RemovesExactlyNamed(ch, s.routes, name);
    RunsAppend(ch, s0, before, StartDel(name));
    steps := before + [StartDel(name)];
    RunsAppend(ch, s0, steps, Change(c));
    steps := steps + [Change(c)];
    RunsAppend(ch, s0, steps, ReadKeys(c));
    steps := steps + [ReadKeys(c)];
    RunsAppend(ch, s0, steps, Publish(c));
    steps := steps + [Publish(c)];
  }

  /** One `AddServe` on an empty table, up to where it has read the keys. */
  lemma AddReads(ch: Chars, a: string, target: string) returns (steps: seq<Step>)
    requires ValidName(ch, a) && !Blank(ch, target)
    ensures Runs(ch, Serving(map[]), steps)
    ensures var one: Table := map[ServiceToAlpn(a) := Route(a, target)];
      Final(ch, Serving(map[]), steps) == State(one, {}, [HasRead({ServiceToAlpn(a)}, 1)], [{}, {ServiceToAlpn(a)}], 0, [])
  {
    var s0 := Serving(map[]);
    var one: Table := map[ServiceToAlpn(a) := Route(a, target)];
    assert one.Keys == {ServiceToAlpn(a)} && one == s0.routes[ServiceToAlpn(a) := Route(a, target)];
    assert s0.routes.Keys == {};
    steps := [];
    RunsAppend(ch, s0, steps, StartAdd(a, target));
    steps := steps + [StartAdd(a, target)];
    RunsAppend(ch, s0, steps, Change(0));
    steps := steps + [Change(0)];
    RunsAppend(ch, s0, steps, ReadKeys(0));
    steps := steps + [ReadKeys(0)];
  }

  /** Two overlapping `AddServe` calls, both successful, can leave a registered service out
      of the ALPNs the endpoint accepts: the first reads before the second's change and
      publishes after it. */
  lemma OverlappingAddsLoseService(ch: Chars, a: string, b: string, target: string) returns (steps: seq<Step>)
    requires ValidName(ch, a) && ValidName(ch, b) && a != b && !Blank(ch, target)
    ensures Runs(ch, Serving(map[]), steps)
    ensures var s := Final(ch, Serving(map[]), steps);
      Quiet(s) && s.calls == [Returned, Returned] && ServiceToAlpn(b) in s.routes && ServiceToAlpn(b) !in s.alpns
  {
    AlpnInjective(a, b);
    var s0 := Serving(map[]);
    steps := AddReads(ch, a, target);
    RunsAppend(ch, s0, steps, StartAdd(b, target));
    steps := steps + [StartAdd(b, target)];
    RunsAppend(ch, s0, steps, Change(1));
    steps := steps + [Change(1)];
    RunsAppend(ch, s0, steps, ReadKeys(1));
    steps := steps + [ReadKeys(1)];
    var s6 := Final(ch, s0, steps);
    assert s6.calls == [HasRead({ServiceToAlpn(a)}, 1), HasRead(s6.routes.Keys, 2)] && ServiceToAlpn(b) in s6.routes;
    RunsAppend(ch, s0, steps, Publish(1));
    steps := steps + [Publish(1)];
    RunsAppend(ch, s0, steps, Publish(0));
    steps := steps + [Publish(0)];
  }
}
