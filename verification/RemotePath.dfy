/** `src/remote_path.rs`: remote paths `<endpoint-id>/tcp/<name>`, service names, and the
    ALPN identifier of a service. Endpoint ids and the two Unicode character classes
    come from outside; `World` holds them. */
module RemotePaths {
  import opened Wrappers
  import opened Utf8

  datatype Chars = Chars(whitespace: char -> bool, control: char -> bool)

  datatype World<!Id(==)> = World(parseId: string -> Option<Id>, showId: Id -> string, chars: Chars)

  /** What the round trips need of the endpoint-id type: printing and parsing again gives
      the same id, and no printed id holds a slash. */
  ghost predicate Lawful<Id(!new)>(w: World<Id>) {
    forall id :: w.parseId(w.showId(id)) == Some(id) && '/' !in w.showId(id)
  }

  datatype RemotePath<Id> = RemotePath(endpointId: Id, service: string)

  datatype NameError = EmptyName | LongName | ForbiddenCharacter

  datatype ParseError =
    | MissingProtocol
    | MissingService
    | ExtraSegments
    | UnsupportedProtocol
    | InvalidService(why: NameError)
    | InvalidEndpoint

  const MAX_SERVICE_NAME_LEN := 128

  predicate Forbidden(ch: Chars, c: char) {
    c == '/' || ch.whitespace(c) || ch.control(c)
  }

  function ValidateServiceName(ch: Chars, name: string): Option<NameError> {
    if name == "" then Some(EmptyName)
    else if |Bytes(name)| > MAX_SERVICE_NAME_LEN then Some(LongName)
    else if exists i :: 0 <= i < |name| && Forbidden(ch, name[i]) then Some(ForbiddenCharacter)
    else None
  }

  predicate ValidName(ch: Chars, name: string) {
    ValidateServiceName(ch, name) == None
  }

  /** `trim().is_empty()` */
  predicate Blank(ch: Chars, s: string) {
    forall i :: 0 <= i < |s| ==> ch.whitespace(s[i])
  }

  function TrimStart(ch: Chars, s: string): string {
    if s != "" && ch.whitespace(s[0]) then TrimStart(ch, s[1..]) else s
  }

  function TrimEnd(ch: Chars, s: string): string {
    if s != "" && ch.whitespace(s[|s| - 1]) then TrimEnd(ch, s[..|s| - 1]) else s
  }

  /** Trimming both ends leaves nothing exactly of a text that is all whitespace. */
  lemma {:induction false} BlankIff(ch: Chars, s: string)
    ensures Blank(ch, s) <==> TrimEnd(ch, TrimStart(ch, s)) == ""
    decreases |s|
  {
    if s != "" && ch.whitespace(s[0]) {
      BlankIff(ch, s[1..]);
      assert s == [s[0]] + s[1..];
    } else if s != "" {
      TrimEndKeepsFirst(ch, s);
    }
  }

  lemma {:induction false} TrimEndKeepsFirst(ch: Chars, s: string)
    requires s != "" && !ch.whitespace(s[0])
    ensures TrimEnd(ch, s) != ""
  {
    if ch.whitespace(s[|s| - 1]) {
      TrimEndKeepsFirst(ch, s[..|s| - 1]);
    }
  }

  /** `split('/')`, its pieces as a list. */
  function Split(s: string): (pieces: seq<string>)
    ensures |pieces| >= 1
  {
    if s == "" then [""]
    else
      var rest := Split(s[1..]);
      if s[0] == '/' then [""] + rest else [[s[0]] + rest[0]] + rest[1..]
  }

  function Join(pieces: seq<string>): string
    requires |pieces| >= 1
  {
    if |pieces| == 1 then pieces[0] else pieces[0] + "/" + Join(pieces[1..])
  }

  predicate SlashFree(pieces: seq<string>) {
    forall i :: 0 <= i < |pieces| ==> '/' !in pieces[i]
  }

  function Slashes(s: string): nat {
    if s == "" then 0 else (if s[0] == '/' then 1 else 0) + Slashes(s[1..])
  }

  lemma {:induction false} SplitJoins(s: string)
    ensures Join(Split(s)) == s && SlashFree(Split(s)) && |Split(s)| == Slashes(s) + 1
  {
    if s != "" {
      SplitJoins(s[1..]);
      var rest := Split(s[1..]);
      if s[0] == '/' {
        assert ([""] + rest)[1..] == rest;
        assert s == "" + "/" + s[1..];
      } else {
        var pieces := [[s[0]] + rest[0]] + rest[1..];
        assert pieces[1..] == rest[1..];
        assert Join(pieces) == [s[0]] + Join(rest);
      }
    }
  }

  lemma {:induction false} JoinSplits(pieces: seq<string>)
    requires |pieces| >= 1 && SlashFree(pieces)
    ensures Split(Join(pieces)) == pieces
    decreases |pieces|, if pieces == [] then 0 else |pieces[0]|
  {
    var s := Join(pieces);
    if pieces[0] == "" {
      if |pieces| > 1 {
        JoinSplits(pieces[1..]);
        assert s == "/" + Join(pieces[1..]);
        assert s[1..] == Join(pieces[1..]);
        assert pieces == [""] + pieces[1..];
      }
    } else {
      var shorter := [pieces[0][1..]] + pieces[1..];
      assert forall c :: c in pieces[0][1..] ==> c in pieces[0];
      JoinSplits(shorter);
      assert shorter[1..] == pieces[1..];
      assert s == [pieces[0][0]] + Join(shorter);
      assert s[1..] == Join(shorter);
      assert pieces[0] == [pieces[0][0]] + pieces[0][1..];
      assert pieces == [pieces[0]] + pieces[1..];
    }
  }

  /** `RemotePath::from_str` */
  function FromStr<Id>(w: World<Id>, value: string): Result<RemotePath<Id>, ParseError> {
    var parts := Split(value);
    if |parts| < 2 then Err(MissingProtocol)
    else if |parts| < 3 then Err(MissingService)
    else if |parts| > 3 then Err(ExtraSegments)
    else if parts[1] != "tcp" then Err(UnsupportedProtocol)
    else
      var invalid := ValidateServiceName(w.chars, parts[2]);
      if invalid.Some? then Err(InvalidService(invalid.value))
      else
        var id := w.parseId(parts[0]);
        if id.None? then Err(InvalidEndpoint) else Ok(RemotePath(id.value, parts[2]))
  }

  /** The text of a remote path. */
  function Written(endpoint: string, service: string): string {
    endpoint + "/tcp/" + service
  }

  /** The printed form used for `dst` and by `ListForwards`. */
  function Print<Id>(w: World<Id>, path: RemotePath<Id>): string {
    Written(w.showId(path.endpointId), path.service)
  }

  lemma WrittenSplits(e: string, s: string)
    requires '/' !in e && '/' !in s
    ensures Split(Written(e, s)) == [e, "tcp", s]
  {
    var pieces := [e, "tcp", s];
    assert pieces[1..] == ["tcp", s] && ["tcp", s][1..] == [s];
    assert Join(["tcp", s]) == "tcp/" + s;
    assert Join(pieces) == Written(e, s);
    JoinSplits(pieces);
  }

  lemma SplitIsWritten(value: string)
    requires |Split(value)| == 3 && Split(value)[1] == "tcp"
    ensures value == Written(Split(value)[0], Split(value)[2])
    ensures '/' !in Split(value)[0] && '/' !in Split(value)[2]
  {
    SplitJoins(value);
    var pieces := Split(value);
    assert pieces[1..] == ["tcp", pieces[2]] && ["tcp", pieces[2]][1..] == [pieces[2]];
    assert Join(["tcp", pieces[2]]) == "tcp/" + pieces[2];
  }

  lemma ValidNameHasNoSlash(ch: Chars, name: string)
    requires ValidName(ch, name)
    ensures '/' !in name
  {
  }

  /** The grammar: a string is accepted, as the path `path`, exactly when it is a
      slash-free endpoint text that parses to the path's id, `/tcp/`, and the path's own
      service name, a valid one. */
  lemma AcceptsExactly<Id>(w: World<Id>, value: string, path: RemotePath<Id>)
    ensures FromStr(w, value) == Ok(path) <==>
      exists e :: value == Written(e, path.service) && '/' !in e
        && w.parseId(e) == Some(path.endpointId) && ValidName(w.chars, path.service)
  {
    if FromStr(w, value) == Ok(path) {
      SplitIsWritten(value);
    }
    forall e | value == Written(e, path.service) && '/' !in e && ValidName(w.chars, path.service)
      ensures Split(value) == [e, "tcp", path.service]
    {
      ValidNameHasNoSlash(w.chars, path.service);
      WrittenSplits(e, path.service);
    }
  }

  /** Why a string is refused, in terms of the string: too few or too many slashes first,
      then the protocol and the service name, and the endpoint id last of all. */
  lemma RefusesExactly<Id>(w: World<Id>, value: string)
    ensures FromStr(w, value) == Err(MissingProtocol) <==> Slashes(value) == 0
    ensures FromStr(w, value) == Err(MissingService) <==> Slashes(value) == 1
    ensures FromStr(w, value) == Err(ExtraSegments) <==> Slashes(value) > 2
    ensures FromStr(w, value) == Err(UnsupportedProtocol) <==> Slashes(value) == 2 && !TcpPath(value)
    ensures forall why :: FromStr(w, value) == Err(InvalidService(why)) <==>
      exists e, s :: value == Written(e, s) && '/' !in e && '/' !in s && ValidateServiceName(w.chars, s) == Some(why)
    ensures FromStr(w, value) == Err(InvalidEndpoint) <==>
      exists e, s :: value == Written(e, s) && '/' !in e && '/' !in s && ValidName(w.chars, s) && w.parseId(e) == None
  {
    SplitJoins(value);
    if |Split(value)| == 3 && Split(value)[1] == "tcp" {
      SplitIsWritten(value);
    }
    forall e, s | value == Written(e, s) && '/' !in e && '/' !in s ensures Split(value) == [e, "tcp", s] {
      WrittenSplits(e, s);
    }
  }

  ghost predicate TcpPath(value: string) {
    exists e, s :: value == Written(e, s) && '/' !in e && '/' !in s
  }

  /** The documented rule for service names: 1 to 128 bytes, no slash, whitespace or
      control character. */
  lemma ValidNameIff(ch: Chars, name: string)
    ensures ValidName(ch, name) <==>
      1 <= |Bytes(name)| <= 128
      && forall c :: c in name ==> c != '/' && !ch.whitespace(c) && !ch.control(c)
  {
    assert name != "" ==> |Bytes(name)| >= |Encode(name[0])|;
    if i :| 0 <= i < |name| && Forbidden(ch, name[i]) {
      assert name[i] in name;
    } else {
      assert forall c :: c in name ==> !Forbidden(ch, c);
      assert forall c :: !Forbidden(ch, c) ==> c != '/' && !ch.whitespace(c) && !ch.control(c);
    }
  }

  /** And which of the three errors a bad name gets: the first that applies. */
  lemma NameErrorIff(ch: Chars, name: string)
    ensures ValidateServiceName(ch, name) == Some(EmptyName) <==> |name| == 0
    ensures ValidateServiceName(ch, name) == Some(LongName) <==> |Bytes(name)| > 128
    ensures ValidateServiceName(ch, name) == Some(ForbiddenCharacter) <==>
      |Bytes(name)| <= 128 && exists c :: c in name && (c == '/' || ch.whitespace(c) || ch.control(c))
  {
    ValidNameIff(ch, name);
    assert name == "" ==> Bytes(name) == [];
  }

  /** A path with a valid name survives printing and parsing, and only such a path does. */
  lemma PrintedPathParses<Id(!new)>(w: World<Id>, path: RemotePath<Id>)
    requires Lawful(w)
    ensures FromStr(w, Print(w, path)) == Ok(path) <==> ValidName(w.chars, path.service)
  {
    AcceptsExactly(w, Print(w, path), path);
    assert w.parseId(w.showId(path.endpointId)) == Some(path.endpointId);
  }

  /** So whatever the daemon lists as the remote of a forward parses to that very remote. */
  lemma ListedRemoteParses<Id(!new)>(w: World<Id>, remote: string, path: RemotePath<Id>)
    requires Lawful(w) && FromStr(w, remote) == Ok(path)
    ensures FromStr(w, Print(w, path)) == Ok(path)
  {
    PrintedPathParses(w, path);
  }

  /** Parsing and printing again gives the original text back exactly when the endpoint
      id was written the way it prints. */
  lemma ParsedPathPrints<Id>(w: World<Id>, value: string, path: RemotePath<Id>)
    requires FromStr(w, value) == Ok(path)
    ensures Print(w, path) == value <==> w.showId(path.endpointId) == Split(value)[0]
  {
    SplitIsWritten(value);
    var e, shown := Split(value)[0], w.showId(path.endpointId);
    if Print(w, path) == value {
      assert |shown| == |e|;
      assert shown == value[..|shown|] == e;
    }
  }

  /** `service_to_alpn` */
  function ServiceToAlpn(name: string): seq<Byte> {
    Bytes("iroh-proxy/tcp/" + name)
  }

  function ToAlpn<Id>(path: RemotePath<Id>): seq<Byte> {
    ServiceToAlpn(path.service)
  }

  /** The bytes of every ALPN: the characters of `iroh-proxy/tcp/`, then the name in UTF-8. */
  lemma AlpnForm(name: string)
    ensures var prefix := "iroh-proxy/tcp/"; var alpn := ServiceToAlpn(name);
      && |alpn| == |prefix| + |Bytes(name)| && alpn[|prefix|..] == Bytes(name)
      && forall i :: 0 <= i < |prefix| ==> alpn[i] == prefix[i] as int
  {
    PrefixedBytes("iroh-proxy/tcp/", name);
  }

  lemma PrefixedBytes(prefix: string, name: string)
    requires forall i :: 0 <= i < |prefix| ==> prefix[i] as int < 0x80
    ensures var b := Bytes(prefix + name);
      && |b| == |prefix| + |Bytes(name)| && b[|prefix|..] == Bytes(name)
      && forall i :: 0 <= i < |prefix| ==> b[i] == prefix[i] as int
  {
    AsciiBytes(prefix);
    BytesConcat(prefix, name);
  }

  lemma AlpnInjective(a: string, b: string)
    ensures ServiceToAlpn(a) == ServiceToAlpn(b) <==> a == b
  {
    if ServiceToAlpn(a) == ServiceToAlpn(b) {
      var p := "iroh-proxy/tcp/";
      BytesInjective(p + a, p + b);
      assert a == (p + a)[|p|..] && b == (p + b)[|p|..];
    }
  }

  /** The client that parses `<id>/tcp/<name>` asks for the ALPN under which a server
      registers `name`, and for no other service's. */
  lemma ClientAsksForNamedService<Id>(w: World<Id>, e: string, name: string, served: string)
    requires FromStr(w, Written(e, name)).Ok? && '/' !in e && ValidName(w.chars, name)
    ensures ToAlpn(FromStr(w, Written(e, name)).value) == ServiceToAlpn(served) <==> name == served
  {
    ValidNameHasNoSlash(w.chars, name);
    WrittenSplits(e, name);
    AlpnInjective(name, served);
  }
}
