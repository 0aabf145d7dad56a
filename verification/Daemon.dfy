/** The daemon's tables as `src/daemon/mod.rs` fills them at startup from a configuration
    and as the control calls of `src/daemon/service.rs` change them, one call at a time. */
module Daemon {
  import opened Wrappers
  import opened RemotePaths
  import opened Routes
  import opened ConfigStore

  datatype RuntimeForward<Id> = RuntimeForward(remote: RemotePath<Id>, persisted: bool)

  type ForwardTable<Id> = map<string, RuntimeForward<Id>>

  datatype Runtime<Id> = Runtime(routes: Table, alpns: set<Alpn>, forwards: ForwardTable<Id>)

  datatype StartError = ServiceRefused(why: AddError) | BadRemote | ListenTaken | BindFailed

  /** `add_forward_binding`; `bindable` are the addresses a listener can be bound to. */
  function AddForwardBinding<Id>(forwards: ForwardTable<Id>, listen: string, remote: RemotePath<Id>, persisted: bool,
                                 bindable: set<string>): Result<ForwardTable<Id>, StartError> {
    if listen in forwards then Err(ListenTaken)
    else if listen !in bindable then Err(BindFailed)
    else Ok(forwards[listen := RuntimeForward(remote, persisted)])
  }

  // ----- What a startup must come to -----

  predicate NamedIn(services: seq<ServeService>, k: Alpn) {
    exists i :: 0 <= i < |services| && k == ServiceToAlpn(services[i].name)
  }

  predicate ListensIn(services: seq<ForwardService>, k: string) {
    exists i :: 0 <= i < |services| && k == services[i].listen
  }

  /** `routes` serves exactly the services of the list, each with its own target. */
  ghost predicate ServesExactly(routes: Table, services: seq<ServeService>) {
    && (forall i :: 0 <= i < |services| ==>
          ServiceToAlpn(services[i].name) in routes
          && routes[ServiceToAlpn(services[i].name)] == Route(services[i].name, services[i].target))
    && (forall k :: k in routes ==> NamedIn(services, k))
  }

  /** `forwards` holds exactly the rules of the list, each parsed and marked persisted. */
  ghost predicate ForwardsExactly<Id>(w: World<Id>, forwards: ForwardTable<Id>, services: seq<ForwardService>) {
    && (forall i :: 0 <= i < |services| ==>
          services[i].listen in forwards
          && forwards[services[i].listen].persisted
          && FromStr(w, services[i].remote) == Ok(forwards[services[i].listen].remote))
    && (forall k :: k in forwards ==> ListensIn(services, k))
  }

  predicate Bindable(services: seq<ForwardService>, bindable: set<string>) {
    forall i :: 0 <= i < |services| ==> services[i].listen in bindable
  }

  /** What is wrong with a list of services that is refused for the reason `why`. */
  predicate ServesFault(ch: Chars, services: seq<ServeService>, why: AddError) {
    match why
    case BadName => exists i :: 0 <= i < |services| && !ValidName(ch, services[i].name)
    case BlankTarget => exists i :: 0 <= i < |services| && Blank(ch, services[i].target)
    case DuplicateName => !NamesDiffer(services)
  }

  /** The first startup loop succeeds if and only if the names are valid and distinct and
      the targets given, and then serves exactly the configured services: distinct names
      are all that distinct keys take. */
  method ReplayServes(ch: Chars, services: seq<ServeService>) returns (result: Result<Table, StartError>)
    ensures result.Ok? <==> NamesDiffer(services) && ServesAcceptable(ch, services)
    ensures result.Ok? ==> WellKeyed(ch, result.value) && ServesExactly(result.value, services)
    ensures result.Err? ==> result.error.ServiceRefused? && ServesFault(ch, services, result.error.why)
  {
    var routes: Table := map[];
    for i := 0 to |services|
      invariant WellKeyed(ch, routes) && ServesExactly(routes, services[..i])
      invariant NamesDiffer(services[..i]) && ServesAcceptable(ch, services[..i])
    {
      var s := services[i];
      var added := AddServeRoute(ch, routes, s.name, s.target);
      if added.Err? {
        ServeRefused(ch, routes, services, i);
        return Err(ServiceRefused(added.error));
      }
      ServeAccepted(ch, routes, services, i);
      routes := added.value;
    }
    assert services[..|services|] == services;
    return Ok(routes);
  }

  /** One turn of the loop: a service that is added leaves the list in order so far. */
  lemma ServeAccepted(ch: Chars, routes: Table, services: seq<ServeService>, i: nat)
    requires i < |services| && WellKeyed(ch, routes) && ServesExactly(routes, services[..i])
    requires NamesDiffer(services[..i]) && ServesAcceptable(ch, services[..i])
    requires AddServeRoute(ch, routes, services[i].name, services[i].target).Ok?
    ensures var added := AddServeRoute(ch, routes, services[i].name, services[i].target).value;
      WellKeyed(ch, added) && ServesExactly(added, services[..i + 1])
    ensures NamesDiffer(services[..i + 1]) && ServesAcceptable(ch, services[..i + 1])
  {
    var s, before := services[i], services[..i];
    assert services[..i + 1] == before + [s];
    ServeAdded(routes, before, s);
    AddedWellKeyed(ch, routes, s.name, s.target);
    OneMoreService(ch, routes, before, s);
  }

  lemma OneMoreService(ch: Chars, routes: Table, services: seq<ServeService>, s: ServeService)
    requires ServesExactly(routes, services) && ServiceToAlpn(s.name) !in routes
    requires NamesDiffer(services) && ServesAcceptable(ch, services)
    requires ValidName(ch, s.name) && !Blank(ch, s.target)
    ensures NamesDiffer(services + [s]) && ServesAcceptable(ch, services + [s])
  {
    forall j | 0 <= j < |services| ensures services[j].name != s.name {
      assert ServiceToAlpn(services[j].name) in routes;
    }
  }

  lemma ExactIsWellKeyed(ch: Chars, routes: Table, services: seq<ServeService>)
    requires ServesExactly(routes, services) && ServesAcceptable(ch, services)
    ensures WellKeyed(ch, routes)
  {
    forall k | k in routes
      ensures k == ServiceToAlpn(routes[k].name) && ValidName(ch, routes[k].name) && !Blank(ch, routes[k].target)
    {
      var i :| 0 <= i < |services| && k == ServiceToAlpn(services[i].name);
    }
  }

  /** One that is refused puts the whole list out of order. */
  lemma ServeRefused(ch: Chars, routes: Table, services: seq<ServeService>, i: nat)
    requires i < |services| && ServesExactly(routes, services[..i])
    requires AddServeRoute(ch, routes, services[i].name, services[i].target).Err?
    ensures !(NamesDiffer(services) && ServesAcceptable(ch, services))
    ensures ServesFault(ch, services, AddServeRoute(ch, routes, services[i].name, services[i].target).error)
  {
    var s, before := services[i], services[..i];
    if ValidName(ch, s.name) && !Blank(ch, s.target) {
      ServiceTaken(routes, before, s.name);
      var j :| 0 <= j < i && before[j].name == s.name;
      assert services[j].name == services[i].name;
    }
  }

  lemma ServiceTaken(routes: Table, services: seq<ServeService>, name: string)
    requires ServesExactly(routes, services)
    ensures ServiceToAlpn(name) in routes <==> exists i :: 0 <= i < |services| && services[i].name == name
  {
    if ServiceToAlpn(name) in routes {
      var i :| 0 <= i < |services| && ServiceToAlpn(name) == ServiceToAlpn(services[i].name);
      AlpnInjective(name, services[i].name);
    }
  }

  lemma ServeAdded(routes: Table, services: seq<ServeService>, s: ServeService)
    requires ServesExactly(routes, services) && ServiceToAlpn(s.name) !in routes
    ensures ServesExactly(routes[ServiceToAlpn(s.name) := Route(s.name, s.target)], services + [s])
  {
    var more := services + [s];
    forall k | NamedIn(services, k) ensures NamedIn(more, k) {
      var i :| 0 <= i < |services| && k == ServiceToAlpn(services[i].name);
      assert more[i] == services[i];
    }
    assert NamedIn(more, ServiceToAlpn(s.name)) by {
      assert more[|services|] == s;
    }
    forall i | 0 <= i < |services| ensures ServiceToAlpn(services[i].name) != ServiceToAlpn(s.name) {
    }
  }

  /** The second startup loop, likewise: it succeeds if and only if every remote parses,
      no listen address is configured twice, and every listener can be bound. */
  method ReplayForwards<Id>(w: World<Id>, services: seq<ForwardService>, bindable: set<string>)
    returns (result: Result<ForwardTable<Id>, StartError>)
    ensures result.Ok? <==> RemotesParse(w, services) && ListensDiffer(services) && Bindable(services, bindable)
    ensures result.Ok? ==> ForwardsExactly(w, result.value, services)
    ensures result == Err(BadRemote) ==> !RemotesParse(w, services)
    ensures result == Err(ListenTaken) ==> !ListensDiffer(services)
    ensures result == Err(BindFailed) ==> !Bindable(services, bindable)
    ensures result.Err? ==> !result.error.ServiceRefused?
  {
    var forwards: ForwardTable<Id> := map[];
    for i := 0 to |services|
      invariant ForwardsExactly(w, forwards, services[..i])
      invariant RemotesParse(w, services[..i]) && ListensDiffer(services[..i]) && Bindable(services[..i], bindable)
    {
      var s := services[i];
      var remote := FromStr(w, s.remote);
      if remote.Err? {
        return Err(BadRemote);
      }
      var added := AddForwardBinding(forwards, s.listen, remote.value, true, bindable);
      if added.Err? {
        if added.error == ListenTaken {
          ListenTwice(w, forwards, services, i);
        }
        return Err(added.error);
      }
      ForwardAccepted(w, forwards, services, i, bindable);
      forwards := added.value;
    }
    assert services[..|services|] == services;
    return Ok(forwards);
  }

  lemma ForwardAccepted<Id>(w: World<Id>, forwards: ForwardTable<Id>, services: seq<ForwardService>, i: nat, bindable: set<string>)
    requires i < |services| && ForwardsExactly(w, forwards, services[..i])
    requires RemotesParse(w, services[..i]) && ListensDiffer(services[..i]) && Bindable(services[..i], bindable)
    requires FromStr(w, services[i].remote).Ok? && services[i].listen !in forwards && services[i].listen in bindable
    ensures var s, more := services[i], services[..i + 1];
      && ForwardsExactly(w, forwards[s.listen := RuntimeForward(FromStr(w, s.remote).value, true)], more)
      && RemotesParse(w, more) && ListensDiffer(more) && Bindable(more, bindable)
  {
    var s, before := services[i], services[..i];
    assert services[..i + 1] == before + [s];
    ForwardAdded(w, forwards, before, s);
    OneMoreForward(w, before, s, bindable);
  }

  lemma OneMoreForward<Id>(w: World<Id>, services: seq<ForwardService>, s: ForwardService, bindable: set<string>)
    requires RemotesParse(w, services) && ListensDiffer(services) && Bindable(services, bindable)
    requires FromStr(w, s.remote).Ok? && s.listen in bindable
    requires forall i :: 0 <= i < |services| ==> services[i].listen != s.listen
    ensures RemotesParse(w, services + [s]) && ListensDiffer(services + [s]) && Bindable(services + [s], bindable)
  {
  }

  lemma ListenTwice<Id>(w: World<Id>, forwards: ForwardTable<Id>, services: seq<ForwardService>, i: nat)
    requires i < |services| && ForwardsExactly(w, forwards, services[..i]) && services[i].listen in forwards
    ensures !ListensDiffer(services)
  {
    var j :| 0 <= j < i && services[..i][j].listen == services[i].listen;
    assert services[j].listen == services[i].listen;
  }

  lemma ForwardAdded<Id>(w: World<Id>, forwards: ForwardTable<Id>, services: seq<ForwardService>, s: ForwardService)
    requires ForwardsExactly(w, forwards, services) && s.listen !in forwards && FromStr(w, s.remote).Ok?
    ensures ForwardsExactly(w, forwards[s.listen := RuntimeForward(FromStr(w, s.remote).value, true)], services + [s])
    ensures forall i :: 0 <= i < |services| ==> services[i].listen != s.listen
  {
    OneMoreListen(services, s);
  }

  lemma OneMoreListen(services: seq<ForwardService>, s: ForwardService)
    ensures forall k :: ListensIn(services, k) ==> ListensIn(services + [s], k)
    ensures ListensIn(services + [s], s.listen)
  {
    var more := services + [s];
    forall k | ListensIn(services, k) ensures ListensIn(more, k) {
      var i :| 0 <= i < |services| && k == services[i].listen;
      assert more[i] == services[i];
    }
    assert more[|services|] == s;
  }

  // ----- Startup as a function of the configuration -----

  function ServeTable(services: seq<ServeService>): Table {
    if services == [] then map[]
    else
      var last := services[|services| - 1];
      ServeTable(services[..|services| - 1])[ServiceToAlpn(last.name) := Route(last.name, last.target)]
  }

  function ForwardTableOf<Id>(w: World<Id>, services: seq<ForwardService>): ForwardTable<Id>
    requires RemotesParse(w, services)
  {
    if services == [] then map[]
    else
      var last := services[|services| - 1];
      ForwardTableOf(w, services[..|services| - 1])[last.listen := RuntimeForward(FromStr(w, last.remote).value, true)]
  }

  predicate Startable<Id>(w: World<Id>, c: Config, bindable: set<string>) {
    && NamesDiffer(Serves(c)) && ServesAcceptable(w.chars, Serves(c))
    && RemotesParse(w, Forwards(c)) && ListensDiffer(Forwards(c)) && Bindable(Forwards(c), bindable)
  }

  function Startup<Id>(w: World<Id>, c: Config, bindable: set<string>): Option<Runtime<Id>> {
    if Startable(w, c, bindable) then
      var routes := ServeTable(Serves(c));
      Some(Runtime(routes, routes.Keys, ForwardTableOf(w, Forwards(c))))
    else None
  }

  lemma {:induction false} ServeTableExact(ch: Chars, services: seq<ServeService>)
    requires NamesDiffer(services) && ServesAcceptable(ch, services)
    ensures ServesExactly(ServeTable(services), services) && WellKeyed(ch, ServeTable(services))
  {
    if services != [] {
      var n := |services| - 1;
      var s, before := services[n], services[..n];
      assert services == before + [s];
      var table := ServeTable(before);
      assert ServeTable(services) == table[ServiceToAlpn(s.name) := Route(s.name, s.target)];
      ServeTableExact(ch, before);
      assert ServiceToAlpn(s.name) !in table by {
        ServiceTaken(table, before, s.name);
      }
      ServeAdded(table, before, s);
      ExactIsWellKeyed(ch, ServeTable(services), services);
    }
  }

  lemma {:induction false} ForwardTableExact<Id>(w: World<Id>, services: seq<ForwardService>)
    requires RemotesParse(w, services) && ListensDiffer(services)
    ensures ForwardsExactly(w, ForwardTableOf(w, services), services)
  {
    if services != [] {
      var n := |services| - 1;
      var s, before := services[n], services[..n];
      assert services == before + [s];
      var table := ForwardTableOf(w, before);
      assert ForwardTableOf(w, services) == table[s.listen := RuntimeForward(FromStr(w, s.remote).value, true)];
      ForwardTableExact(w, before);
      ListenFree(w, table, before, s.listen);
      ForwardAdded(w, table, before, s);
    }
  }

  lemma ListenFree<Id>(w: World<Id>, forwards: ForwardTable<Id>, services: seq<ForwardService>, listen: string)
    requires ForwardsExactly(w, forwards, services) && forall i :: 0 <= i < |services| ==> services[i].listen != listen
    ensures listen !in forwards
  {
  }

  /** The contents of the tables leave no choice about the tables. */
  lemma ServesDetermined(a: Table, b: Table, services: seq<ServeService>)
    requires ServesExactly(a, services) && ServesExactly(b, services)
    ensures a == b
  {
    assert forall k :: k in a ==> k in b && a[k] == b[k];
    assert forall k :: k in b ==> k in a;
  }

  lemma ForwardsDetermined<Id>(w: World<Id>, a: ForwardTable<Id>, b: ForwardTable<Id>, services: seq<ForwardService>)
    requires ForwardsExactly(w, a, services) && ForwardsExactly(w, b, services)
    ensures a == b
  {
    ForwardsWithin(w, a, b, services);
    ForwardsWithin(w, b, a, services);
  }

  lemma ForwardsWithin<Id>(w: World<Id>, a: ForwardTable<Id>, b: ForwardTable<Id>, services: seq<ForwardService>)
    requires ForwardsExactly(w, a, services) && ForwardsExactly(w, b, services)
    ensures forall k :: k in a ==> k in b && a[k] == b[k]
  {
    forall k | k in a ensures k in b && a[k] == b[k] {
      var i :| 0 <= i < |services| && k == services[i].listen;
      assert a[k].remote == b[k].remote;
    }
  }

  /** `run_server` up to the point where control calls are served. */
  method StartServer<Id>(w: World<Id>, c: Config, bindable: set<string>) returns (result: Option<Runtime<Id>>)
    ensures result == Startup(w, c, bindable)
  {
    var routes := ReplayServes(w.chars, Serves(c));
    if routes.Err? {
      return None;
    }
    var alpns := routes.value.Keys;
    var forwards := ReplayForwards(w, Forwards(c), bindable);
    if forwards.Err? {
      return None;
    }
    ServeTableExact(w.chars, Serves(c));
    ServesDetermined(routes.value, ServeTable(Serves(c)), Serves(c));
    ForwardTableExact(w, Forwards(c));
    ForwardsDetermined(w, forwards.value, ForwardTableOf(w, Forwards(c)), Forwards(c));
    return Some(Runtime(routes.value, alpns, forwards.value));
  }

  // ----- Control calls -----

  /** The runtime after a successful call; nothing when the daemon refuses it. */
  function AddForward<Id>(w: World<Id>, rt: Runtime<Id>, listen: string, remote: string, persisted: bool,
                          bindable: set<string>): Option<Runtime<Id>> {
    var path := FromStr(w, remote);
    if path.Err? then None
    else
      var added := AddForwardBinding(rt.forwards, listen, path.value, persisted, bindable);
      if added.Err? then None else Some(rt.(forwards := added.value))
  }

  function DelForward<Id>(rt: Runtime<Id>, listen: string): Option<Runtime<Id>> {
    if listen in rt.forwards then Some(rt.(forwards := rt.forwards - {listen})) else None
  }

  function AddServe<Id>(ch: Chars, rt: Runtime<Id>, name: string, target: string): Option<Runtime<Id>> {
    var added := AddServeRoute(ch, rt.routes, name, target);
    if added.Err? then None else Some(rt.(routes := added.value, alpns := added.value.Keys))
  }

  function DelServe<Id>(rt: Runtime<Id>, name: string): Option<Runtime<Id>> {
    var alpn := ServiceToAlpn(name);
    if alpn !in rt.routes then None
    else Some(rt.(routes := rt.routes - {alpn}, alpns := (rt.routes - {alpn}).Keys))
  }

  /** Keys are names and the endpoint offers exactly the registered services. */
  predicate Synced<Id>(ch: Chars, rt: Runtime<Id>) {
    WellKeyed(ch, rt.routes) && rt.alpns == rt.routes.Keys
  }

  /** The running daemon. */
  class Server<!Id(==)> {
    const serve: ServeSide
    var forwards: ForwardTable<Id>
    var events: seq<string>

    constructor ()
      ensures Value() == Runtime(map[], {}, map[]) && events == [] && fresh(serve)
    {
      var side := new ServeSide();
      serve := side;
      forwards, events := map[], [];
    }

    ghost function Value(): Runtime<Id>
      reads this, serve
    {
      Runtime(serve.routes, serve.alpns, forwards)
    }

    method AddForwardCall(w: World<Id>, listen: string, remote: string, persisted: bool, bindable: set<string>)
      returns (ok: bool)
      modifies this
      ensures ok <==> FromStr(w, remote).Ok? && listen !in old(forwards) && listen in bindable
      ensures ok ==> forwards == old(forwards)[listen := RuntimeForward(FromStr(w, remote).value, persisted)]
      ensures ok ==> events == old(events) + ["forward-added"]
      ensures !ok ==> forwards == old(forwards) && events == old(events)
      ensures ok <==> AddForward(w, old(Value()), listen, remote, persisted, bindable).Some?
      ensures Value() == AddForward(w, old(Value()), listen, remote, persisted, bindable).GetOr(old(Value()))
    {
      var path := FromStr(w, remote);
      if path.Err? {
        return false;
      }
      if listen in forwards {
        return false;
      }
      if listen !in bindable {
        return false;
      }
      forwards := forwards[listen := RuntimeForward(path.value, persisted)];
      events := events + ["forward-added"];
      return true;
    }

    method DelForwardCall(listen: string) returns (ok: bool)
      modifies this
      ensures ok <==> listen in old(forwards)
      ensures forwards.Keys == old(forwards).Keys - {listen}
      ensures forall k :: k in forwards ==> forwards[k] == old(forwards)[k]
      ensures events == if ok then old(events) + ["forward-removed"] else old(events)
      ensures ok <==> DelForward(old(Value()), listen).Some?
      ensures Value() == DelForward(old(Value()), listen).GetOr(old(Value()))
    {
      ok := listen in forwards;
      forwards := forwards - {listen};
      if ok {
        events := events + ["forward-removed"];
      }
    }

    method AddServeCall(ch: Chars, name: string, target: string) returns (ok: bool)
      requires Synced(ch, Value())
      modifies serve
      ensures Synced(ch, Value())
      ensures ok <==> AddServe(ch, old(Value()), name, target).Some?
      ensures Value() == AddServe(ch, old(Value()), name, target).GetOr(old(Value()))
    {
      DuplicateByName(ch, serve.routes, name);
      var error := serve.AddServe(ch, name, target);
      ok := error.None?;
    }

    method DelServeCall(ch: Chars, name: string) returns (ok: bool)
      requires Synced(ch, Value())
      modifies serve
      ensures Synced(ch, Value())
      ensures ok <==> DelServe(old(Value()), name).Some?
      ensures Value() == DelServe(old(Value()), name).GetOr(old(Value()))
    {
      DuplicateByName(ch, serve.routes, name);
      ok := serve.DelServe(ch, name);
    }
  }
}
