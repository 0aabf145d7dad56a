/** `src/systemd.rs`: the command line written into the systemd user unit, and the reader
    that systemd.syntax(7), section "Quoting" describes for it (specifier and variable
    expansion are later layers). */
module Systemd {
  import opened Wrappers

  function EscapeChar(c: char): string {
    if c == '\\' || c == '"' then ['\\', c] else [c]
  }

  function Escape(raw: string): string {
    if raw == "" then "" else EscapeChar(raw[0]) + Escape(raw[1..])
  }

  function Quote(raw: string): string {
    "\"" + Escape(raw) + "\""
  }

  function QuoteAll(args: seq<string>): seq<string> {
    if args == [] then [] else [Quote(args[0])] + QuoteAll(args[1..])
  }

  /** `args.join(" ")` */
  function JoinWords(words: seq<string>): string {
    if words == [] then ""
    else if |words| == 1 then words[0]
    else words[0] + " " + JoinWords(words[1..])
  }

  lemma {:induction false} EscapeSnoc(raw: string, c: char)
    ensures Escape(raw + [c]) == Escape(raw) + EscapeChar(c)
  {
    if raw == "" {
      assert [c][1..] == "";
    } else {
      assert (raw + [c])[1..] == raw[1..] + [c];
      EscapeSnoc(raw[1..], c);
    }
  }

  method QuoteSystemdArg(raw: string) returns (out: string)
    ensures out == Quote(raw)
  {
    out := "\"";
    for i := 0 to |raw|
      invariant out == "\"" + Escape(raw[..i])
    {
      var ch := raw[i];
      assert raw[..i + 1] == raw[..i] + [ch];
      EscapeSnoc(raw[..i], ch);
      if ch == '\\' || ch == '"' {
        out := out + "\\";
      }
      out := out + [ch];
    }
    assert raw[..|raw|] == raw;
    out := out + "\"";
  }

  /** The arguments the unit is meant to start the server with. */
  function ServerArgs(exe: string, keyFile: Option<string>, configFile: string, mdns: bool): seq<string> {
    var withKey := if keyFile.Some? then [exe] + ["--key-file"] + [keyFile.value] else [exe];
    var withConfig := withKey + ["--config-file"] + [configFile];
    (if mdns then withConfig else withConfig + ["--no-mdns"]) + ["server"]
  }

  lemma {:induction false} QuoteAllConcat(a: seq<string>, b: seq<string>)
    ensures QuoteAll(a + b) == QuoteAll(a) + QuoteAll(b)
  {
    if a == [] {
      assert a + b == b;
    } else {
      assert (a + b)[1..] == a[1..] + b;
      QuoteAllConcat(a[1..], b);
    }
  }

  /** `args.push(quote_systemd_arg(raw))` */
  method PushQuoted(args: seq<string>, raw: string, ghost plain: seq<string>) returns (more: seq<string>)
    requires args == QuoteAll(plain)
    ensures more == QuoteAll(plain + [raw])
  {
    var quoted := QuoteSystemdArg(raw);
    more := args + [quoted];
    QuoteAllConcat(plain, [raw]);
    assert [raw][1..] == [];
  }

  method RenderExecStart(exe: string, keyFile: Option<string>, configFile: string, mdns: bool) returns (line: string)
    ensures line == JoinWords(QuoteAll(ServerArgs(exe, keyFile, configFile, mdns)))
    ensures Tokens(line).Some? && ReadCommand(Tokens(line).value) == Some(Invocation(exe, keyFile, Some(configFile), mdns))
  {
    var args := PushQuoted([], exe, []);
    ghost var plain := [exe];
    assert [] + [exe] == plain;
    if keyFile.Some? {
      args := PushQuoted(args, "--key-file", plain);
      args := PushQuoted(args, keyFile.value, plain + ["--key-file"]);
      plain := plain + ["--key-file"] + [keyFile.value];
    }
    args := PushQuoted(args, "--config-file", plain);
    args := PushQuoted(args, configFile, plain + ["--config-file"]);
    plain := plain + ["--config-file"] + [configFile];
    if !mdns {
      args := PushQuoted(args, "--no-mdns", plain);
      plain := plain + ["--no-mdns"];
    }
    args := PushQuoted(args, "server", plain);
    plain := plain + ["server"];
    assert plain == ServerArgs(exe, keyFile, configFile, mdns);
    line := JoinWords(args);
    JoinedLineTokenizes(plain);
    ServerArgsRead(exe, keyFile, configFile, mdns);
  }

  // ----- What the program makes of its arguments -----

  /** The program, its global options as `src/cli.rs` declares them, and `server`. */
  datatype Invocation = Invocation(exe: string, keyFile: Option<string>, configFile: Option<string>, mdns: bool)

  /** The options and the subcommand, from left to right; an option's value is taken as it is. */
  function ReadOptions(args: seq<string>, seen: Invocation): Option<Invocation>
    decreases |args|
  {
    if args == ["server"] then Some(seen)
    else if |args| >= 1 && args[0] == "--no-mdns" then ReadOptions(args[1..], seen.(mdns := false))
    else if |args| >= 2 && args[0] == "--key-file" then ReadOptions(args[2..], seen.(keyFile := Some(args[1])))
    else if |args| >= 2 && args[0] == "--config-file" then ReadOptions(args[2..], seen.(configFile := Some(args[1])))
    else None
  }

  function ReadCommand(args: seq<string>): Option<Invocation> {
    if args == [] then None else ReadOptions(args[1..], Invocation(args[0], None, None, true))
  }

  lemma ReadTail(mdns: bool, seen: Invocation)
    requires seen.mdns
    ensures ReadOptions((if mdns then [] else ["--no-mdns"]) + ["server"], seen) == Some(seen.(mdns := mdns))
  {
    if mdns {
      assert [] + ["server"] == ["server"];
    } else {
      var tail := ["--no-mdns"] + ["server"];
      assert tail[1..] == ["server"];
    }
  }

  lemma ReadOption(key: string, value: string, tail: seq<string>, seen: Invocation)
    requires key == "--key-file" || key == "--config-file"
    ensures ReadOptions([key, value] + tail, seen)
      == ReadOptions(tail, if key == "--key-file" then seen.(keyFile := Some(value)) else seen.(configFile := Some(value)))
  {
    var args := [key, value] + tail;
    assert args[2..] == tail;
    assert |"--key-file"| == 10 && |"--config-file"| == 13 && |"--no-mdns"| == 9;
  }

  /** The arguments mean what the unit was to say: the reader finds each value again,
      whatever it holds, and the flag exactly if mDNS is off. */
  lemma ServerArgsRead(exe: string, keyFile: Option<string>, configFile: string, mdns: bool)
    ensures ReadCommand(ServerArgs(exe, keyFile, configFile, mdns)) == Some(Invocation(exe, keyFile, Some(configFile), mdns))
  {
    var args := ServerArgs(exe, keyFile, configFile, mdns);
    var tail := (if mdns then [] else ["--no-mdns"]) + ["server"];
    var config := ["--config-file", configFile] + tail;
    var options := if keyFile.Some? then ["--key-file", keyFile.value] + config else config;
    assert args == [exe] + options;
    assert args[1..] == options;
    if keyFile.Some? {
      ReadOption("--key-file", keyFile.value, config, Invocation(exe, None, None, true));
    }
    ReadOption("--config-file", configFile, tail, Invocation(exe, keyFile, None, true));
    ReadTail(mdns, Invocation(exe, keyFile, Some(configFile), true));
  }

  // ----- The reader -----

  datatype Mode = Between | Bare | Quoted(mark: char) | Escaped(back: Mode)

  predicate Separator(c: char) {
    c == ' ' || c == '\t' || c == '\n' || c == '\r'
  }

  /** The single-character escapes. */
  function Unescape(c: char): Option<char> {
    match c
    case '\\' => Some('\\')
    case '"' => Some('"')
    case '\'' => Some('\'')
    case 's' => Some(' ')
    case 'n' => Some('\n')
    case 't' => Some('\t')
    case 'r' => Some('\r')
    case _ => None
  }

  /** Words of the rest `s` of a line, `word` being the one under way and `done` those
      before it. A quote or an escape left open, or an unknown escape, is an error. */
  function Scan(s: string, mode: Mode, word: string, done: seq<string>): Option<seq<string>>
    decreases |s|
  {
    if s == "" then
      match mode
      case Between => Some(done)
      case Bare => Some(done + [word])
      case _ => None
    else
      var c, rest := s[0], s[1..];
      match mode
      case Escaped(back) =>
        if Unescape(c).None? then None else Scan(rest, back, word + [Unescape(c).value], done)
      case Quoted(mark) =>
        if c == mark then Scan(rest, Bare, word, done)
        else if c == '\\' then Scan(rest, Escaped(mode), word, done)
        else Scan(rest, mode, word + [c], done)
      case _ =>
        if Separator(c) then
          if mode.Bare? then Scan(rest, Between, "", done + [word]) else Scan(rest, Between, "", done)
        else if c == '"' || c == '\'' then Scan(rest, Quoted(c), word, done)
        else if c == '\\' then Scan(rest, Escaped(Bare), word, done)
        else Scan(rest, Bare, word + [c], done)
  }

  function Tokens(line: string): Option<seq<string>> {
    Scan(line, Between, "", [])
  }

  lemma ScanEscapedChar(c: char, rest: string, word: string, done: seq<string>)
    ensures Scan(EscapeChar(c) + rest, Quoted('"'), word, done) == Scan(rest, Quoted('"'), word + [c], done)
  {
    var line := EscapeChar(c) + rest;
    if c == '\\' || c == '"' {
      assert line[1..] == [c] + rest && ([c] + rest)[1..] == rest;
      assert Scan(line, Quoted('"'), word, done) == Scan([c] + rest, Escaped(Quoted('"')), word, done);
    } else {
      assert line[1..] == rest;
    }
  }

  lemma {:induction false} ScanEscaped(raw: string, rest: string, word: string, done: seq<string>)
    ensures Scan(Escape(raw) + rest, Quoted('"'), word, done) == Scan(rest, Quoted('"'), word + raw, done)
    decreases |raw|
  {
    if raw == "" {
      assert Escape(raw) + rest == rest && word + raw == word;
    } else {
      assert Escape(raw) + rest == EscapeChar(raw[0]) + (Escape(raw[1..]) + rest);
      ScanEscapedChar(raw[0], Escape(raw[1..]) + rest, word, done);
      ScanEscaped(raw[1..], rest, word + [raw[0]], done);
      assert word + [raw[0]] + raw[1..] == word + raw;
    }
  }

  lemma ScanQuoted(raw: string, rest: string, done: seq<string>)
    ensures Scan(Quote(raw) + rest, Between, "", done) == Scan(rest, Bare, raw, done)
  {
    var tail := Escape(raw) + ("\"" + rest);
    assert Quote(raw) + rest == "\"" + tail;
    assert ("\"" + tail)[1..] == tail;
    ScanEscaped(raw, "\"" + rest, "", done);
    assert ("\"" + rest)[1..] == rest;
    assert "" + raw == raw;
  }

  lemma QuotedThenRest(args: seq<string>)
    requires args != []
    ensures JoinWords(QuoteAll(args)) == Quote(args[0]) + (if |args| == 1 then "" else " " + JoinWords(QuoteAll(args[1..])))
  {
    assert |QuoteAll(args[1..])| == 0 <==> |args| == 1;
    JoinFirst(Quote(args[0]), QuoteAll(args[1..]));
  }

  lemma JoinFirst(first: string, rest: seq<string>)
    ensures JoinWords([first] + rest) == first + (if rest == [] then "" else " " + JoinWords(rest))
  {
    assert ([first] + rest)[1..] == rest;
    assert first + "" == first;
  }

  lemma {:induction false} ScanLine(args: seq<string>, done: seq<string>)
    ensures Scan(JoinWords(QuoteAll(args)), Between, "", done) == Some(done + args)
    decreases |args|
  {
    if args == [] {
      assert done + args == done;
    } else if |args| == 1 {
      QuotedThenRest(args);
      ScanQuoted(args[0], "", done);
      assert done + args == done + [args[0]];
    } else {
      var tail := JoinWords(QuoteAll(args[1..]));
      QuotedThenRest(args);
      ScanQuoted(args[0], " " + tail, done);
      assert (" " + tail)[1..] == tail;
      ScanLine(args[1..], done + [args[0]]);
      assert done + [args[0]] + args[1..] == done + args;
    }
  }

  /** Whatever the arguments hold, reading the joined line gives exactly them back. */
  lemma JoinedLineTokenizes(args: seq<string>)
    ensures Tokens(JoinWords(QuoteAll(args))) == Some(args)
  {
    ScanLine(args, []);
    assert [] + args == args;
  }

  // ----- The line inside the unit file -----

  function Unlines(lines: seq<string>): string {
    if lines == [] then "" else lines[0] + "\n" + Unlines(lines[1..])
  }

  const UNIT_TITLE := ["[Unit]", "Description=iroh-proxy server"]

  const UNIT_AFTER := ["After=network-online.target"]

  const UNIT_WANTS := ["Wants=network-online.target"]

  const SERVICE_SECTION := ["", "[Service]", "Type=simple"]

  const UNIT_TAIL := ["Restart=on-failure", "RestartSec=2", "", "[Install]", "WantedBy=default.target"]

  /** `render_unit` */
  function RenderUnit(exec: string): string {
    Unlines(UNIT_TITLE + (UNIT_AFTER + (UNIT_WANTS + (SERVICE_SECTION + (["ExecStart=" + exec] + UNIT_TAIL)))))
  }

  /** The unit reader ends a line at a line feed and at a carriage return. */
  predicate LineEnd(c: char) {
    c == '\n' || c == '\r'
  }

  predicate Breaks(s: string) {
    '\n' in s || '\r' in s
  }

  /** A text up to its first line end. */
  function FirstLine(s: string): (line: string)
    ensures |line| <= |s|
  {
    if s == "" || LineEnd(s[0]) then "" else [s[0]] + FirstLine(s[1..])
  }

  /** The value of the first `ExecStart=` line of a unit file. */
  function ExecStartOf(unit: string): Option<string>
    decreases |unit|
  {
    var line := FirstLine(unit);
    if |line| >= 10 && line[..10] == "ExecStart=" then Some(line[10..])
    else if |line| < |unit| then ExecStartOf(unit[|line| + 1..])
    else None
  }

  lemma {:induction false} FirstLineConcat(a: string, b: string)
    ensures FirstLine(a + b) == if Breaks(a) then FirstLine(a) else a + FirstLine(b)
  {
    if a == "" {
      assert a + b == b;
    } else {
      var c, rest := a[0], a[1..];
      assert a == [c] + rest && (a + b)[1..] == rest + b;
      FirstLineConcat(rest, b);
      assert Breaks(a) <==> LineEnd(c) || Breaks(rest);
      assert [c] + (rest + FirstLine(b)) == a + FirstLine(b);
    }
  }

  lemma SkipLine(line: string, rest: string)
    requires OtherLine(line)
    ensures ExecStartOf(line + "\n" + rest) == ExecStartOf(rest)
  {
    var text := line + "\n" + rest;
    FirstLineIs(line, rest);
    assert |line| < 10 || line[..10][0] == line[0];
    assert text[|line| + 1..] == rest;
  }

  lemma FirstLineIs(line: string, rest: string)
    requires !Breaks(line)
    ensures FirstLine(line + "\n" + rest) == line
  {
    assert line + "\n" + rest == line + ("\n" + rest);
    FirstLineConcat(line, "\n" + rest);
    assert FirstLine("\n" + rest) == "";
  }

  lemma {:induction false} SkipLines(head: seq<string>, tail: seq<string>)
    requires forall i :: 0 <= i < |head| ==> OtherLine(head[i])
    ensures ExecStartOf(Unlines(head + tail)) == ExecStartOf(Unlines(tail))
  {
    if head == [] {
      assert head + tail == tail;
    } else {
      assert (head + tail)[1..] == head[1..] + tail;
      SkipLine(head[0], Unlines(head[1..] + tail));
      SkipLines(head[1..], tail);
    }
  }

  predicate OtherLine(line: string) {
    !Breaks(line) && (|line| < 10 || line[0] != 'E')
  }

  lemma TitleSkipped(tail: seq<string>)
    ensures ExecStartOf(Unlines(UNIT_TITLE + tail)) == ExecStartOf(Unlines(tail))
  {
    SkipLines(UNIT_TITLE, tail);
  }

  lemma AfterSkipped(tail: seq<string>)
    ensures ExecStartOf(Unlines(UNIT_AFTER + tail)) == ExecStartOf(Unlines(tail))
  {
    SkipLines(UNIT_AFTER, tail);
  }

  lemma WantsSkipped(tail: seq<string>)
    ensures ExecStartOf(Unlines(UNIT_WANTS + tail)) == ExecStartOf(Unlines(tail))
  {
    SkipLines(UNIT_WANTS, tail);
  }

  lemma ServiceSectionSkipped(tail: seq<string>)
    ensures ExecStartOf(Unlines(SERVICE_SECTION + tail)) == ExecStartOf(Unlines(tail))
  {
    SkipLines(SERVICE_SECTION, tail);
  }

  lemma ExecStartFound(exec: string)
    ensures ExecStartOf(RenderUnit(exec)) == Some(FirstLine(exec))
  {
    var line := "ExecStart=" + exec;
    var rest := SERVICE_SECTION + ([line] + UNIT_TAIL);
    TitleSkipped(UNIT_AFTER + (UNIT_WANTS + rest));
    AfterSkipped(UNIT_WANTS + rest);
    WantsSkipped(rest);
    ServiceSectionSkipped([line] + UNIT_TAIL);
    assert ([line] + UNIT_TAIL)[1..] == UNIT_TAIL;
    ExecStartFirst(exec, Unlines(UNIT_TAIL));
  }

  lemma ExecStartFirst(exec: string, rest: string)
    ensures ExecStartOf("ExecStart=" + exec + "\n" + rest) == Some(FirstLine(exec))
  {
    var key := "ExecStart=";
    assert |key| == 10 && !Breaks(key);
    KeyedLine(key, exec, rest);
  }

  lemma KeyedLine(key: string, exec: string, rest: string)
    requires !Breaks(key)
    ensures FirstLine(key + exec + "\n" + rest) == key + FirstLine(exec)
  {
    assert key + exec + "\n" + rest == key + (exec + ("\n" + rest));
    FirstLineConcat(key, exec + ("\n" + rest));
    FirstLineConcat(exec, "\n" + rest);
    assert FirstLine("\n" + rest) == "";
    assert FirstLine(exec) + "" == FirstLine(exec);
    NoLineEndOrCut(exec);
  }

  lemma {:induction false} NoLineEndOrCut(s: string)
    ensures !Breaks(s) ==> FirstLine(s) == s
  {
    if s != "" {
      assert s == [s[0]] + s[1..];
      NoLineEndOrCut(s[1..]);
    }
  }

  /** The lines of a text, each up to its line feed. */
  function LinesOf(text: string): seq<string>
    decreases |text|
  {
    if text == "" then []
    else
      var line := FirstLine(text);
      [line] + (if |line| < |text| then LinesOf(text[|line| + 1..]) else [])
  }

  lemma {:induction false} LinesOfUnlines(lines: seq<string>)
    requires OneLine(lines)
    ensures LinesOf(Unlines(lines)) == lines
  {
    if lines != [] {
      var line, rest := lines[0], Unlines(lines[1..]);
      assert !Breaks(lines[0]);
      FirstLineIs(line, rest);
      assert (line + "\n" + rest)[|line| + 1..] == rest;
      LinesOfUnlines(lines[1..]);
      assert lines == [line] + lines[1..];
    }
  }

  lemma TailPlain()
    ensures OneLine(UNIT_TAIL)
  {
    assert !Breaks(UNIT_TAIL[0]) && !Breaks(UNIT_TAIL[1]) && !Breaks(UNIT_TAIL[2]);
  }

  lemma TitlePlain()
    ensures OneLine(UNIT_TITLE)
  {
  }

  lemma OrderPlain()
    ensures OneLine(UNIT_AFTER) && OneLine(SERVICE_SECTION)
  {
  }

  lemma WantsPlain()
    ensures OneLine(UNIT_WANTS)
  {
  }

  /** The installed unit, line by line: a unit of type simple that is started with the given
      command after the network is up, restarted two seconds after a failure, and enabled
      for the user's default target. */
  lemma UnitLines(exec: string)
    requires !Breaks(exec)
    ensures LinesOf(RenderUnit(exec)) ==
      ["[Unit]", "Description=iroh-proxy server", "After=network-online.target", "Wants=network-online.target", "",
       "[Service]", "Type=simple"] + ["ExecStart=" + exec]
      + ["Restart=on-failure", "RestartSec=2", "", "[Install]", "WantedBy=default.target"]
  {
    TitlePlain();
    OrderPlain();
    WantsPlain();
    TailPlain();
    var start := ["ExecStart=" + exec];
    assert OneLine(start);
    OneLineBoth(start, UNIT_TAIL);
    OneLineBoth(SERVICE_SECTION, start + UNIT_TAIL);
    OneLineBoth(UNIT_WANTS, SERVICE_SECTION + (start + UNIT_TAIL));
    OneLineBoth(UNIT_AFTER, UNIT_WANTS + (SERVICE_SECTION + (start + UNIT_TAIL)));
    var lines := UNIT_TITLE + (UNIT_AFTER + (UNIT_WANTS + (SERVICE_SECTION + (start + UNIT_TAIL))));
    OneLineBoth(UNIT_TITLE, UNIT_AFTER + (UNIT_WANTS + (SERVICE_SECTION + (start + UNIT_TAIL))));
    LinesOfUnlines(lines);
  }

  lemma OneLineBoth(a: seq<string>, b: seq<string>)
    requires OneLine(a) && OneLine(b)
    ensures OneLine(a + b)
  {
  }

  predicate OneLine(args: seq<string>) {
    forall i :: 0 <= i < |args| ==> !Breaks(args[i])
  }

  lemma {:induction false} FirstLineEscaped(raw: string)
    ensures FirstLine(Escape(raw)) == Escape(FirstLine(raw))
    ensures Breaks(Escape(raw)) <==> Breaks(raw)
  {
    if raw != "" {
      var head := EscapeChar(raw[0]);
      FirstLineEscaped(raw[1..]);
      FirstLineConcat(head, Escape(raw[1..]));
      if !LineEnd(raw[0]) {
        assert !Breaks(head);
        assert ([raw[0]] + FirstLine(raw[1..]))[1..] == FirstLine(raw[1..]);
      }
    }
  }

  /** Cutting the line inside a quoted argument leaves its quote open. */
  lemma CutInsideQuote(raw: string, tail: string, done: seq<string>)
    requires Breaks(raw)
    ensures Scan(FirstLine(Quote(raw) + tail), Between, "", done) == None
  {
    var e, cut := Escape(raw), FirstLine(raw);
    FirstLineEscaped(raw);
    assert Quote(raw) + tail == "\"" + (e + ("\"" + tail));
    FirstLineConcat("\"", e + ("\"" + tail));
    FirstLineConcat(e, "\"" + tail);
    assert ("\"" + Escape(cut))[1..] == Escape(cut);
    ScanEscaped(cut, "", "", done);
    assert Escape(cut) + "" == Escape(cut);
  }

  lemma {:induction false} CutLineFails(args: seq<string>, done: seq<string>)
    requires !OneLine(args)
    ensures Scan(FirstLine(JoinWords(QuoteAll(args))), Between, "", done) == None
    decreases |args|
  {
    QuotedThenRest(args);
    if Breaks(args[0]) {
      CutInsideQuote(args[0], if |args| == 1 then "" else " " + JoinWords(QuoteAll(args[1..])), done);
    } else {
      assert |args| > 1 && !OneLine(args[1..]) by {
        var i :| 0 <= i < |args| && Breaks(args[i]);
        assert args[1..][i - 1] == args[i];
      }
      CutAfterQuote(args[0], JoinWords(QuoteAll(args[1..])), done);
      CutLineFails(args[1..], done + [args[0]]);
    }
  }

  /** Cutting the line further on leaves a quoted argument as it is. */
  lemma CutAfterQuote(raw: string, rest: string, done: seq<string>)
    requires !Breaks(raw)
    ensures Scan(FirstLine(Quote(raw) + (" " + rest)), Between, "", done) == Scan(FirstLine(rest), Between, "", done + [raw])
  {
    FirstLineEscaped(raw);
    FirstLineConcat(Quote(raw), " " + rest);
    FirstLineConcat(" ", rest);
    ScanQuoted(raw, " " + FirstLine(rest), done);
    assert (" " + FirstLine(rest))[1..] == FirstLine(rest);
  }

  lemma {:induction false} WholeLine(args: seq<string>)
    requires OneLine(args)
    ensures !Breaks(JoinWords(QuoteAll(args)))
  {
    if args != [] {
      FirstLineEscaped(args[0]);
      WholeLine(args[1..]);
      var words := QuoteAll(args);
      assert words[1..] == QuoteAll(args[1..]);
    }
  }

  /** Read back at the quoting layer, the unit file gives exactly the given arguments if
      and only if none of them holds a line end: quoting does not protect one there. */
  lemma UnitReadsBackIff(exe: string, keyFile: Option<string>, configFile: string, mdns: bool)
    ensures var args := ServerArgs(exe, keyFile, configFile, mdns);
      var read := ExecStartOf(RenderUnit(JoinWords(QuoteAll(args))));
      read.Some? && (Tokens(read.value) == Some(args) <==> OneLine(args))
  {
    var args := ServerArgs(exe, keyFile, configFile, mdns);
    ExecStartFound(JoinWords(QuoteAll(args)));
    if OneLine(args) {
      WholeLine(args);
      NoLineEndOrCut(JoinWords(QuoteAll(args)));
      JoinedLineTokenizes(args);
    } else {
      CutLineFails(args, []);
    }
  }

  /** So the unit starts the server as it was asked to exactly if no path given to it holds a
      line end (at the quoting layer: see `Scan`). */
  lemma UnitStartsServerIff(exe: string, keyFile: Option<string>, configFile: string, mdns: bool)
    ensures var exec := ExecStartOf(RenderUnit(JoinWords(QuoteAll(ServerArgs(exe, keyFile, configFile, mdns)))));
      && exec.Some?
      && (!Breaks(exe) && !Breaks(keyFile.GetOr("")) && !Breaks(configFile) <==>
            Tokens(exec.value).Some?
            && ReadCommand(Tokens(exec.value).value) == Some(Invocation(exe, keyFile, Some(configFile), mdns)))
  {
    var args := ServerArgs(exe, keyFile, configFile, mdns);
    UnitReadsBackIff(exe, keyFile, configFile, mdns);
    ServerArgsRead(exe, keyFile, configFile, mdns);
    PathsBreak(exe, keyFile, configFile, mdns);
    if !OneLine(args) {
      ExecStartFound(JoinWords(QuoteAll(args)));
      CutLineFails(args, []);
    }
  }

  lemma PathsBreak(exe: string, keyFile: Option<string>, configFile: string, mdns: bool)
    ensures OneLine(ServerArgs(exe, keyFile, configFile, mdns)) <==>
      !Breaks(exe) && !Breaks(keyFile.GetOr("")) && !Breaks(configFile)
  {
    var args := ServerArgs(exe, keyFile, configFile, mdns);
    var k := if keyFile.Some? then 2 else 0;
    assert args[0] == exe && args[k + 2] == configFile;
    assert keyFile.Some? ==> args[2] == keyFile.value;
    FixedWordsPlain();
  }

  lemma FixedWordsPlain()
    ensures !Breaks("--key-file") && !Breaks("--config-file") && !Breaks("--no-mdns") && !Breaks("server")
  {
  }

  /** A configuration path with a line feed or a carriage return in it is such a case. */
  lemma LineEndBreaksUnit(end: char)
    requires end == '\n' || end == '\r'
    ensures var args := ServerArgs("/bin/p", None, ['/', 'a', end, 'b'], true);
      Tokens(ExecStartOf(RenderUnit(JoinWords(QuoteAll(args)))).GetOr("")) != Some(args)
  {
    var path := ['/', 'a', end, 'b'];
    var args := ServerArgs("/bin/p", None, path, true);
    assert args[2] == path && path[2] == end;
    UnitReadsBackIff("/bin/p", None, path, true);
  }
}
