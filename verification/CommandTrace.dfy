/** The in-memory command service: executions, their lifecycle, and the incremental log endpoint. */
module CommandTrace {
  import opened Wrappers
  import opened Seqs
  import opened Strings
  import opened Utf8

  datatype Config = Config(name: string, killable: bool, logged: bool, json: bool, arguments: string)

  const PING := Config("dry_run_ansible_ping", true, true, false, "-m ping")
  const FACTS := Config("dry_run_ansible_facts", false, false, true, "-m setup")

  datatype Status = Running | Success | Killed

  datatype Output = Pong(host: string) | Facts(host: string)

  datatype Execution = Execution(
    config: Config,
    host: string,
    status: Status,
    output: Option<Output>,
    logLines: seq<string>)

  datatype CommandError = NotFound | Forbidden | BadRequest

  datatype LogLine = LogLine(num: int, content: string)

  datatype Trace = Trace(status: Status, nextByteOffset: nat, nextLineNum: int, lines: seq<LogLine>, notLogged: bool)

  /** A result as answered: `json` is the parsed output when it was asked for and there is one. */
  datatype Answer = Answer(status: Status, output: Option<Output>, json: Option<Output>)

  /** Every execution by id; ids are numbered where the service draws a random one. */
  datatype Store = Store(executions: map<nat, Execution>, nextId: nat)

  /******* Lines of a log *******/

  /** What ends a line, as `str.splitlines` sees it. */
  predicate IsBreak(c: char) {
    || '\n' <= c <= '\r' || '\U{1c}' <= c <= '\U{1e}' || c == '\U{85}' || c == '\U{2028}' || c == '\U{2029}'
  }

  function FirstBreak(s: string): (i: nat)
    ensures i <= |s| && (i < |s| ==> IsBreak(s[i]))
    ensures forall k :: 0 <= k < i ==> !IsBreak(s[k])
  {
    if s == [] || IsBreak(s[0]) then 0 else 1 + FirstBreak(s[1..])
  }

  /** Where the line after the break at `i` starts; a carriage return takes a newline with it. */
  function AfterBreak(s: string, i: nat): (j: nat)
    requires i < |s|
    ensures i < j <= |s|
  {
    if s[i] == '\r' && i + 1 < |s| && s[i + 1] == '\n' then i + 2 else i + 1
  }

  /** `s.splitlines()`. */
  function SplitLines(s: string): seq<string>
    decreases |s|
  {
    var i := FirstBreak(s);
    if s == [] then [] else if i == |s| then [s] else [s[..i]] + SplitLines(s[AfterBreak(s, i)..])
  }

  /** `html.escape` of one character. */
  function EscapeChar(c: char): string {
    if c == '&' then "&amp;" else if c == '<' then "&lt;" else if c == '>' then "&gt;"
    else if c == '\"' then "&quot;" else if c == '\'' then "&#x27;" else [c]
  }

  function Escape(s: string): string {
    if s == [] then [] else EscapeChar(s[0]) + Escape(s[1..])
  }

  function Numbered(lines: seq<string>, from: int): (r: seq<LogLine>)
    ensures |r| == |lines|
  {
    seq(|lines|, i requires 0 <= i < |lines| => LogLine(from + i, Escape(lines[i])))
  }

  /** The log file: every logged line with its newline. */
  function Text(logLines: seq<string>): string {
    if logLines == [] then [] else Text(logLines[..|logLines| - 1]) + (logLines[|logLines| - 1] + "\n")
  }

  /******* The service *******/

  function ConfigOf(name: string): Option<Config> {
    if name == PING.name then Some(PING) else if name == FACTS.name then Some(FACTS) else None
  }

  function ExecCommand(c: Config, host: string): string {
    "ansible " + host + " " + c.arguments
  }

  function FirstLines(c: Config, host: string, hostType: string): seq<string> {
    if c.logged then
      ["dry-run: " + c.name + " on " + host + " (" + hostType + ")",
       "dry-run: would run: " + ExecCommand(c, host),
       "dry-run: nothing was executed; no SSH connection was opened"]
    else []
  }

  function Completed(e: Execution): Execution {
    if e.status != Running then e
    else
      e.(status := Success,
         output := Some(if e.config.json then Facts(e.host) else Pong(e.host)),
         logLines := if e.config.logged then e.logLines + ["dry-run: finished with exit status 0"] else e.logLines)
  }

  function KillLine(force: bool): string {
    "dry-run: killed (force=" + (if force then "True" else "False") + ")"
  }

  function KilledBy(e: Execution, force: bool): Execution {
    if e.status != Running then e
    else e.(status := Killed, logLines := e.logLines + [KillLine(force)])
  }

  /** The slice of the log past the offset, as lines numbered from the given one. */
  function Slice(e: Execution, byteOffset: nat, lineNum: int): Trace {
    if !e.config.logged then Trace(e.status, byteOffset, lineNum, [], true)
    else
      var log := Encode(Text(e.logLines));
      var lines := Numbered(SplitLines(Decode(if byteOffset <= |log| then log[byteOffset..] else [])), lineNum);
      Trace(e.status, |log|, lineNum + |lines|, lines, false)
  }

  function Executed(s: Store, name: string, host: string, hostType: string): (Store, Result<nat, CommandError>) {
    match ConfigOf(name)
    case None => (s, Err(Forbidden))
    case Some(c) =>
      var e := Execution(c, host, Running, None, FirstLines(c, host, hostType));
      (Store(s.executions[s.nextId := e], s.nextId + 1), Ok(s.nextId))
  }

  function Observed(s: Store, id: nat): Store {
    if id in s.executions then s.(executions := s.executions[id := Completed(s.executions[id])]) else s
  }

  function Fetched(s: Store, id: nat, wantsJson: bool): (Store, Result<Answer, CommandError>) {
    var t := Observed(s, id);
    if id !in s.executions then (s, Err(NotFound))
    else
      var e := t.executions[id];
      if wantsJson && !e.config.json then (t, Err(BadRequest))
      else (t, Ok(Answer(e.status, e.output, if wantsJson && e.status == Success then e.output else None)))
  }

  function Killing(s: Store, id: nat, force: bool): (Store, Result<Status, CommandError>) {
    if id !in s.executions then (s, Err(NotFound))
    else if !s.executions[id].config.killable then (s, Err(BadRequest))
    else
      var e := KilledBy(s.executions[id], force);
      (s.(executions := s.executions[id := e]), Ok(e.status))
  }

  function Traced(s: Store, id: nat, byteOffset: nat, lineNum: int): (Store, Result<Trace, CommandError>) {
    var t := Observed(s, id);
    if id !in s.executions then (s, Err(NotFound)) else (t, Ok(Slice(t.executions[id], byteOffset, lineNum)))
  }

  class CommandService {
    var executions: map<nat, Execution>
    var nextId: nat

    constructor ()
      ensures Now() == Store(map[], 0)
    {
      executions, nextId := map[], 0;
    }

    function Now(): Store
      reads this
    {
      Store(executions, nextId)
    }

    method ExecuteCommand(name: string, host: string, hostType: string) returns (r: Result<nat, CommandError>)
      modifies this
      ensures (Now(), r) == Executed(old(Now()), name, host, hostType)
    {
      var config := ConfigOf(name);
      if config == None {
        return Err(Forbidden);
      }
      var logLines := [];
      if config.value.logged {
        logLines := ["dry-run: " + config.value.name + " on " + host + " (" + hostType + ")",
                     "dry-run: would run: " + ExecCommand(config.value, host),
                     "dry-run: nothing was executed; no SSH connection was opened"];
      }
      executions := executions[nextId := Execution(config.value, host, Running, None, logLines)];
      nextId := nextId + 1;
      return Ok(nextId - 1);
    }

    /** Completes a running execution the first time anyone looks at it. */
    method Observe(id: nat) returns (found: bool)
      modifies this
      ensures Now() == Observed(old(Now()), id) && found == (id in old(executions))
    {
      if id !in executions {
        return false;
      }
      var e := executions[id];
      if e.status == Running {
        e := e.(status := Success, output := Some(if e.config.json then Facts(e.host) else Pong(e.host)));
        if e.config.logged {
          e := e.(logLines := e.logLines + ["dry-run: finished with exit status 0"]);
        }
      }
      executions := executions[id := e];
      return true;
    }

    method GetCommandResult(id: nat, wantsJson: bool) returns (r: Result<Answer, CommandError>)
      modifies this
      ensures (Now(), r) == Fetched(old(Now()), id, wantsJson)
    {
      var found := Observe(id);
      if !found {
        return Err(NotFound);
      }
      var e := executions[id];
      if wantsJson && !e.config.json {
        return Err(BadRequest);
      }
      r := Ok(Answer(e.status, e.output, if wantsJson && e.status == Success then e.output else None));
    }

    method KillCommand(id: nat, force: bool) returns (r: Result<Status, CommandError>)
      modifies this
      ensures (Now(), r) == Killing(old(Now()), id, force)
    {
      if id !in executions {
        return Err(NotFound);
      }
      var e := executions[id];
      if !e.config.killable {
        return Err(BadRequest);
      }
      if e.status == Running {
        e := e.(status := Killed, logLines := e.logLines + [KillLine(force)]);
      }
      executions := executions[id := e];
      r := Ok(e.status);
    }

    method GetCommandTrace(id: nat, byteOffset: nat, lineNum: int) returns (r: Result<Trace, CommandError>)
      modifies this
      ensures (Now(), r) == Traced(old(Now()), id, byteOffset, lineNum)
    {
      var found := Observe(id);
      if !found {
        return Err(NotFound);
      }
      var e := executions[id];
      if !e.config.logged {
        return Ok(Trace(e.status, byteOffset, lineNum, [], true));
      }
      var log := Encode(Text(e.logLines));
      var tail := SplitLines(Decode(if byteOffset <= |log| then log[byteOffset..] else []));
      var lines := Numbered(tail, lineNum);
      r := Ok(Trace(e.status, |log|, lineNum + |lines|, lines, false));
    }
  }

  /******* The life of an execution *******/

  /** Only the two commands of the whitelist can be started, and starting one touches no other execution. */
  lemma WhitelistedOnly(s: Store, name: string, host: string, hostType: string)
    ensures var (t, r) := Executed(s, name, host, hostType);
            if name in {"dry_run_ansible_ping", "dry_run_ansible_facts"} then
              && r == Ok(s.nextId) && t.nextId == s.nextId + 1 && t.executions.Keys == s.executions.Keys + {s.nextId}
              && t.executions[s.nextId].status == Running && t.executions[s.nextId].config.name == name
              && forall id :: id in s.executions && id != s.nextId ==> t.executions[id] == s.executions[id]
            else t == s && r == Err(Forbidden)
  {
  }

  /** A ping runs until it is first looked at or killed; it has a log and no JSON. */
  lemma PingLife(s: Store, host: string, hostType: string, force: bool)
    ensures var (t, r) := Executed(s, "dry_run_ansible_ping", host, hostType); var id := s.nextId;
            var started := [
              "dry-run: dry_run_ansible_ping on " + host + " (" + hostType + ")",
              "dry-run: would run: ansible " + host + " -m ping",
              "dry-run: nothing was executed; no SSH connection was opened"];
            var seen, killed := Observed(t, id), Killing(t, id, force);
            && t.executions[id].logLines == started
            && seen.executions[id].status == Success && seen.executions[id].output == Some(Pong(host))
            && seen.executions[id].logLines == started + ["dry-run: finished with exit status 0"]
            && Fetched(t, id, false) == (seen, Ok(Answer(Success, Some(Pong(host)), None)))
            && Fetched(t, id, true) == (seen, Err(BadRequest))
            && Killing(seen, id, force) == (seen, Ok(Success))
            && killed.1 == Ok(Killed) && killed.0.executions[id].status == Killed
            && killed.0.executions[id].logLines
               == started + ["dry-run: killed (force=" + (if force then "True" else "False") + ")"]
            && Observed(killed.0, id) == killed.0 && Killing(killed.0, id, !force) == killed
  {
    PingStarts(host, hostType);
    var t := Executed(s, "dry_run_ansible_ping", host, hostType).0;
    var killed := Killing(t, s.nextId, force).0;
    assert Observed(killed, s.nextId).executions == killed.executions;
    assert Killing(killed, s.nextId, !force).0.executions == killed.executions;
    assert Killing(Observed(t, s.nextId), s.nextId, force).0.executions == Observed(t, s.nextId).executions;
  }

  lemma PingStarts(host: string, hostType: string)
    ensures FirstLines(PING, host, hostType) == [
              "dry-run: dry_run_ansible_ping on " + host + " (" + hostType + ")",
              "dry-run: would run: ansible " + host + " -m ping",
              "dry-run: nothing was executed; no SSH connection was opened"]
  {
    SayWhat(host, hostType);
    SayHow(host);
  }

  lemma SayWhat(host: string, hostType: string)
    ensures "dry-run: " + PING.name + " on " + host + " (" + hostType + ")"
         == "dry-run: dry_run_ansible_ping on " + host + " (" + hostType + ")"
  {
    assert "dry-run: " + "dry_run_ansible_ping" + " on " == "dry-run: dry_run_ansible_ping on ";
  }

  lemma SayHow(host: string)
    ensures "dry-run: would run: " + ExecCommand(PING, host) == "dry-run: would run: ansible " + host + " -m ping"
  {
    assert "dry-run: would run: " + ("ansible " + host + " -m ping")
        == ("dry-run: would run: " + "ansible ") + host + " -m ping";
    assert "dry-run: would run: " + "ansible " == "dry-run: would run: ansible ";
  }

  /** Facts come as JSON at the first look; they have no log and cannot be killed. */
  lemma FactsLife(s: Store, host: string, hostType: string, force: bool, byteOffset: nat, lineNum: int)
    ensures var (t, r) := Executed(s, "dry_run_ansible_facts", host, hostType); var id := s.nextId;
            && t.executions[id].logLines == [] && Observed(t, id).executions[id].logLines == []
            && Killing(t, id, force) == (t, Err(BadRequest))
            && Fetched(t, id, true) == (Observed(t, id), Ok(Answer(Success, Some(Facts(host)), Some(Facts(host)))))
            && Fetched(t, id, false) == (Observed(t, id), Ok(Answer(Success, Some(Facts(host)), None)))
            && Traced(t, id, byteOffset, lineNum)
               == (Observed(t, id), Ok(Trace(Success, byteOffset, lineNum, [], true)))
  {
  }

  /** What nobody started is not found, and looking for it changes nothing. */
  lemma UnknownExecution(s: Store, id: nat, wantsJson: bool, force: bool, byteOffset: nat, lineNum: int)
    requires id !in s.executions
    ensures Fetched(s, id, wantsJson) == (s, Err(NotFound)) && Killing(s, id, force) == (s, Err(NotFound))
    ensures Traced(s, id, byteOffset, lineNum) == (s, Err(NotFound))
  {
  }

  /******* Splitting at a newline *******/

  function FirstLine(s: string): string {
    s[..FirstBreak(s)]
  }

  function AfterFirstLine(s: string): string {
    if FirstBreak(s) < |s| then s[AfterBreak(s, FirstBreak(s))..] else []
  }

  predicate WholeLines(s: string) {
    s == [] || s[|s| - 1] == '\n'
  }

  lemma BreakIsKept(s: string, t: string)
    requires s != [] && WholeLines(s)
    ensures FirstBreak(s) < |s| && FirstBreak(s + t) == FirstBreak(s)
    ensures AfterBreak(s + t, FirstBreak(s)) == AfterBreak(s, FirstBreak(s))
  {
    assert IsBreak(s[|s| - 1]);
    var u, i := s + t, FirstBreak(s);
    assert forall k :: 0 <= k < |s| ==> u[k] == s[k];
    assert IsBreak(u[i]);
  }

  lemma SlicesOfAppend(s: string, t: string, i: nat, j: nat)
    requires i <= |s| && j <= |s|
    ensures (s + t)[..i] == s[..i] && (s + t)[j..] == s[j..] + t
  {
  }

  /** Nothing that follows a newline changes the first line up to it. */
  lemma FirstLineIsKept(s: string, t: string)
    requires s != [] && WholeLines(s)
    ensures FirstBreak(s) < |s| && FirstBreak(s + t) < |s + t|
    ensures FirstLine(s + t) == FirstLine(s)
    ensures AfterFirstLine(s + t) == AfterFirstLine(s) + t
    ensures WholeLines(AfterFirstLine(s)) && |AfterFirstLine(s)| < |s|
  {
    BreakIsKept(s, t);
    SlicesOfAppend(s, t, FirstBreak(s), AfterBreak(s, FirstBreak(s)));
  }

  lemma SplitLinesUnfolds(s: string)
    requires FirstBreak(s) < |s|
    ensures SplitLines(s) == [FirstLine(s)] + SplitLines(AfterFirstLine(s))
  {
  }

  lemma PrependLine(line: string, a: seq<string>, b: seq<string>)
    ensures [line] + (a + b) == ([line] + a) + b
  {
  }

  /** Text up to a newline can be split on its own: no line break reaches across it. */
  lemma {:induction false} SplitLinesAtNewline(s: string, t: string)
    requires WholeLines(s)
    ensures SplitLines(s + t) == SplitLines(s) + SplitLines(t)
    decreases |s|
  {
    if s == [] {
      assert s + t == t && SplitLines(s) == [];
    } else {
      FirstLineIsKept(s, t);
      SplitLinesUnfolds(s);
      SplitLinesUnfolds(s + t);
      SplitLinesAtNewline(AfterFirstLine(s), t);
      PrependLine(FirstLine(s), SplitLines(AfterFirstLine(s)), SplitLines(t));
    }
  }

  lemma TextEndsInNewline(logLines: seq<string>)
    ensures WholeLines(Text(logLines))
  {
  }

  lemma {:induction false} TextAppends(a: seq<string>, b: seq<string>)
    ensures Text(a + b) == Text(a) + Text(b)
    decreases |b|
  {
    if b == [] {
      assert a + b == a && Text(a) + [] == Text(a);
    } else {
      var front, last := b[..|b| - 1], b[|b| - 1] + "\n";
      assert (a + b)[..|a + b| - 1] == a + front;
      TextAppends(a, front);
      assert (Text(a) + Text(front)) + last == Text(a) + (Text(front) + last);
    }
  }

  /** The characters that end a line. */
  const BREAKS := "\n\U{0b}\U{0c}\r\U{1c}\U{1d}\U{1e}\U{85}\U{2028}\U{2029}"

  predicate NoBreak(line: string) {
    forall c :: c in line ==> c !in BREAKS
  }

  lemma FirstBreakIs(s: string, i: nat)
    requires i <= |s| && (forall k :: 0 <= k < i ==> s[k] !in BREAKS) && (i < |s| ==> s[i] in BREAKS)
    ensures FirstBreak(s) == i
  {
    forall c ensures IsBreak(c) <==> c in BREAKS {
      BreaksAre(c);
    }
  }

  lemma BreaksAre(c: char)
    ensures IsBreak(c) <==> c in BREAKS
  {
    var b := BREAKS;
    assert b[0] == '\n' && b[1] == '\U{0b}' && b[2] == '\U{0c}' && b[3] == '\r' && b[4] == '\U{1c}'
        && b[5] == '\U{1d}' && b[6] == '\U{1e}' && b[7] == '\U{85}' && b[8] == '\U{2028}' && b[9] == '\U{2029}';
  }

  /** Each break ends one line, a carriage return and newline together do, and text after the last break is a line. */
  lemma LinesEndAtBreaks(line: string, c: char, rest: string)
    requires NoBreak(line) && c in BREAKS
    ensures !(c == '\r' && rest != [] && rest[0] == '\n') ==>
              SplitLines(line + [c] + rest) == [line] + SplitLines(rest)
    ensures SplitLines(line + "\r\n" + rest) == [line] + SplitLines(rest)
    ensures SplitLines(line) == if line == [] then [] else [line]
  {
    var s, t := line + [c] + rest, line + "\r\n" + rest;
    var b := BREAKS;
    assert b[3] == '\r';
    forall k | 0 <= k < |line| ensures line[k] !in BREAKS {
      assert line[k] in line;
    }
    FirstBreakIs(s, |line|);
    FirstBreakIs(t, |line|);
    FirstBreakIs(line, |line|);
    assert s[..|line|] == line && t[..|line|] == line;
    assert s[|line| + 1..] == rest && t[|line| + 2..] == rest;
  }

  /** Entries that hold no break are the lines of the log. */
  lemma {:induction false} PlainEntriesAreLines(logLines: seq<string>)
    requires forall line :: line in logLines ==> NoBreak(line)
    ensures SplitLines(Text(logLines)) == logLines
    decreases |logLines|
  {
    if logLines != [] {
      var front, last := logLines[..|logLines| - 1], logLines[|logLines| - 1];
      forall line | line in front ensures NoBreak(line) {
        assert line in logLines;
      }
      assert last in logLines;
      PlainEntriesAreLines(front);
      OneLine(last);
      TextEndsInNewline(front);
      SplitLinesAtNewline(Text(front), last + "\n");
      assert logLines == front + [last];
    }
  }

  lemma OneLine(line: string)
    requires NoBreak(line)
    ensures SplitLines(line + "\n") == [line]
  {
    var b := BREAKS;
    assert b[0] == '\n';
    LinesEndAtBreaks(line, '\n', []);
    assert line + ['\n'] + [] == line + "\n" && SplitLines([]) == [];
  }

  /******* What is shown of a line *******/

  /** Undoes the five entities, reading from the left. */
  function Unescape(s: string): string
    decreases |s|
  {
    if s == [] then []
    else if StartsWith(s, "&amp;") then ['&'] + Unescape(s[5..])
    else if StartsWith(s, "&lt;") then ['<'] + Unescape(s[4..])
    else if StartsWith(s, "&gt;") then ['>'] + Unescape(s[4..])
    else if StartsWith(s, "&quot;") then ['\"'] + Unescape(s[6..])
    else if StartsWith(s, "&#x27;") then ['\''] + Unescape(s[6..])
    else [s[0]] + Unescape(s[1..])
  }

  lemma UnescapeFirst(c: char, rest: string)
    ensures Unescape(EscapeChar(c) + rest) == [c] + Unescape(rest)
  {
    var e := EscapeChar(c);
    var s := e + rest;
    assert s[..|e|] == e && s[|e|..] == rest;
    NoOtherEntity(s, e);
  }

  /** Text that starts with an entity starts with no other one, and text that starts with no `&` with none. */
  lemma NoOtherEntity(s: string, e: string)
    requires 0 < |e| <= |s| && s[..|e|] == e
    requires e in {"&amp;", "&lt;", "&gt;", "&quot;", "&#x27;"} || e[0] != '&'
    ensures forall p :: p in {"&amp;", "&lt;", "&gt;", "&quot;", "&#x27;"} && p != e ==> !StartsWith(s, p)
  {
    assert s[0] == s[..|e|][0] && (|e| > 1 ==> s[1] == s[..|e|][1]);
    StartsAlike(s, "&amp;");
    StartsAlike(s, "&lt;");
    StartsAlike(s, "&gt;");
    StartsAlike(s, "&quot;");
    StartsAlike(s, "&#x27;");
  }

  lemma StartsAlike(s: string, p: string)
    requires |p| > 1
    ensures StartsWith(s, p) ==> s[0] == p[0] && s[1] == p[1]
  {
    if StartsWith(s, p) {
      assert s[..|p|][0] == s[0] && s[..|p|][1] == s[1];
    }
  }

  /** Showing a line loses nothing, puts no markup into the page, and leaves text without markup alone. */
  lemma EscapeIsFaithful(s: string)
    ensures Unescape(Escape(s)) == s
    ensures forall c :: c in Escape(s) ==> c !in {'<', '>', '\"', '\''}
    ensures (forall c :: c in s ==> c !in {'&', '<', '>', '\"', '\''}) ==> Escape(s) == s
  {
    UnescapeUndoes(s);
    NoMarkupIn(s);
    if forall c :: c in s ==> c !in {'&', '<', '>', '\"', '\''} {
      PlainIsItself(s);
    }
  }

  lemma {:induction false} UnescapeUndoes(s: string)
    ensures Unescape(Escape(s)) == s
  {
    if s != [] {
      UnescapeUndoes(s[1..]);
      UnescapeFirst(s[0], Escape(s[1..]));
    }
  }

  lemma {:induction false} NoMarkupIn(s: string)
    ensures forall c :: c in Escape(s) ==> c !in {'<', '>', '\"', '\''}
  {
    if s != [] {
      NoMarkupIn(s[1..]);
      EscapedCharIsPlain(s[0]);
    }
  }

  lemma {:induction false} PlainIsItself(s: string)
    requires forall c :: c in s ==> c !in {'&', '<', '>', '\"', '\''}
    ensures Escape(s) == s
  {
    if s != [] {
      forall c | c in s[1..] ensures c !in {'&', '<', '>', '\"', '\''} {
        assert c in s;
      }
      assert s[0] in s;
      PlainIsItself(s[1..]);
      assert EscapeChar(s[0]) == [s[0]] && [s[0]] + s[1..] == s;
    }
  }

  lemma EscapedCharIsPlain(c: char)
    ensures forall x :: x in EscapeChar(c) ==> x !in {'<', '>', '\"', '\''}
  {
  }

  /** The lines are numbered one after the other, and each is shown faithfully. */
  ghost predicate ShowsInOrder(shown: seq<LogLine>, lines: seq<string>) {
    |shown| == |lines| && forall i :: 0 <= i < |lines| ==> shown[i].num == i + 1 && Shows(shown[i].content, lines[i])
  }

  /** The line can be read back, nothing in it is markup, and a line without markup is shown as it is. */
  ghost predicate Shows(content: string, line: string) {
    && Unescape(content) == line
    && (forall c :: c in content ==> c !in {'<', '>', '\"', '\''})
    && ((forall c :: c in line ==> c !in {'&', '<', '>', '\"', '\''}) ==> content == line)
  }

  lemma NumberedShows(lines: seq<string>)
    ensures ShowsInOrder(Numbered(lines, 1), lines)
  {
    forall i | 0 <= i < |lines| ensures Shows(Escape(lines[i]), lines[i]) {
      EscapeIsFaithful(lines[i]);
    }
  }

  /******* A viewer that follows the cursor *******/

  /** A poll from just after some logged lines shows exactly the lines logged since. */
  lemma SliceShowsTheRest(e: Execution, before: seq<string>, since: seq<string>, lineNum: int)
    requires e.config.logged && e.logLines == before + since
    ensures var t := Slice(e, |Encode(Text(before))|, lineNum);
            && t.lines == Numbered(SplitLines(Text(since)), lineNum)
            && (forall i :: 0 <= i < |t.lines| ==>
                 t.lines[i].num == lineNum + i && Shows(t.lines[i].content, SplitLines(Text(since))[i]))
            && t.nextByteOffset == |Encode(Text(e.logLines))| && t.nextLineNum == lineNum + |SplitLines(Text(since))|
  {
    TextAppends(before, since);
    EncodeAppends(Text(before), Text(since));
    var log := Encode(Text(e.logLines));
    assert log[|Encode(Text(before))|..] == Encode(Text(since));
    DecodeEncode(Text(since), []);
    assert Encode(Text(since)) + [] == Encode(Text(since)) && Text(since) + [] == Text(since);
    forall i | 0 <= i < |SplitLines(Text(since))|
      ensures Shows(Escape(SplitLines(Text(since))[i]), SplitLines(Text(since))[i])
    {
      EscapeIsFaithful(SplitLines(Text(since))[i]);
    }
  }

  /** From the end of the log, or past it, a poll shows nothing and takes the cursor back to the end. */
  lemma NothingPastTheEnd(e: Execution, byteOffset: nat, lineNum: int)
    requires e.config.logged && byteOffset >= |Encode(Text(e.logLines))|
    ensures Slice(e, byteOffset, lineNum) == Trace(e.status, |Encode(Text(e.logLines))|, lineNum, [], false)
  {
    var log := Encode(Text(e.logLines));
    assert byteOffset == |log| ==> log[byteOffset..] == [];
  }

  /** The cursor of a viewer and everything it has been shown. */
  datatype Viewer = Viewer(byteOffset: nat, lineNum: int, seen: seq<LogLine>)

  const FRESH := Viewer(0, 1, [])

  /** Any call to the service, or a poll of the viewer on the execution it watches. */
  datatype Op =
    | Execute(name: string, host: string, hostType: string)
    | Fetch(id: nat, wantsJson: bool)
    | Kill(id: nat, force: bool)
    | OtherTrace(id: nat, byteOffset: nat, lineNum: int)
    | Poll

  function Step(s: Store, v: Viewer, watched: nat, op: Op): (Store, Viewer) {
    match op
    case Execute(n, h, t) => (Executed(s, n, h, t).0, v)
    case Fetch(id, j) => (Fetched(s, id, j).0, v)
    case Kill(id, f) => (Killing(s, id, f).0, v)
    case OtherTrace(id, b, l) => (Traced(s, id, b, l).0, v)
    case Poll =>
      var (t, r) := Traced(s, watched, v.byteOffset, v.lineNum);
      (t, if r.Ok? then Viewer(r.value.nextByteOffset, r.value.nextLineNum, v.seen + r.value.lines) else v)
  }

  function Run(s: Store, v: Viewer, watched: nat, ops: seq<Op>): (Store, Viewer)
    decreases |ops|
  {
    if ops == [] then (s, v)
    else
      var (t, u) := Step(s, v, watched, ops[0]);
      Run(t, u, watched, ops[1..])
  }

  /** A run takes one step after the other. */
  lemma RunStepByStep(s: Store, v: Viewer, watched: nat, op: Op, rest: seq<Op>)
    ensures Run(s, v, watched, []) == (s, v)
    ensures Run(s, v, watched, [op] + rest) == Run(Step(s, v, watched, op).0, Step(s, v, watched, op).1, watched, rest)
  {
    assert ([op] + rest)[1..] == rest;
  }

  /** The viewer has seen exactly the lines of the first `n` logged entries, numbered from 1. */
  ghost predicate Followed(logLines: seq<string>, v: Viewer, n: nat) {
    && n <= |logLines|
    && v.byteOffset == |Encode(Text(logLines[..n]))|
    && v.seen == Numbered(SplitLines(Text(logLines[..n])), 1)
    && v.lineNum == 1 + |v.seen|
  }

  ghost predicate Following(s: Store, v: Viewer, watched: nat) {
    && watched in s.executions && s.executions[watched].config.logged && watched < s.nextId
    && exists n: nat :: Followed(s.executions[watched].logLines, v, n)
  }

  /** Whatever happens, the log of an execution only grows by whole entries, and its status only
      leaves Running; once it has, nothing about the execution changes any more. */
  ghost predicate Grown(e: Execution, f: Execution) {
    e.config == f.config && e.host == f.host && e.logLines <= f.logLines && (e.status != Running ==> f == e)
  }

  lemma StepGrows(s: Store, v: Viewer, watched: nat, op: Op, id: nat)
    requires id in s.executions && id < s.nextId
    ensures var t := Step(s, v, watched, op).0;
            id in t.executions && id < t.nextId && Grown(s.executions[id], t.executions[id])
  {
  }

  lemma {:induction false} RunGrows(s: Store, v: Viewer, watched: nat, ops: seq<Op>, id: nat)
    requires id in s.executions && id < s.nextId
    ensures var t := Run(s, v, watched, ops).0;
            id in t.executions && id < t.nextId && Grown(s.executions[id], t.executions[id])
    decreases |ops|
  {
    if ops != [] {
      StepGrows(s, v, watched, ops[0], id);
      var (t, u) := Step(s, v, watched, ops[0]);
      RunGrows(t, u, watched, ops[1..], id);
    }
  }

  lemma FollowedStays(a: seq<string>, b: seq<string>, v: Viewer, n: nat)
    requires Followed(a, v, n) && a <= b
    ensures Followed(b, v, n)
  {
    assert a[..n] == b[..n];
  }

  /** The next slice after the first `n` entries takes a viewer to the end of the log. */
  lemma SliceCatchesUp(e: Execution, v: Viewer, n: nat)
    requires e.config.logged && Followed(e.logLines, v, n)
    ensures var t := Slice(e, v.byteOffset, v.lineNum);
            Followed(e.logLines, Viewer(t.nextByteOffset, t.nextLineNum, v.seen + t.lines), |e.logLines|)
  {
    var before, since := e.logLines[..n], e.logLines[n..];
    assert e.logLines == before + since;
    SliceShowsTheRest(e, before, since, v.lineNum);
    LinesAppend(before, since);
    NumberedAppends(SplitLines(Text(before)), SplitLines(Text(since)));
    assert e.logLines[..|e.logLines|] == e.logLines;
  }

  lemma LinesAppend(a: seq<string>, b: seq<string>)
    ensures SplitLines(Text(a + b)) == SplitLines(Text(a)) + SplitLines(Text(b))
  {
    TextAppends(a, b);
    TextEndsInNewline(a);
    SplitLinesAtNewline(Text(a), Text(b));
  }

  lemma NumberedAppends(a: seq<string>, b: seq<string>)
    ensures Numbered(a + b, 1) == Numbered(a, 1) + Numbered(b, 1 + |a|)
  {
  }

  /** A poll brings the viewer up to the end of the log. */
  lemma PollCatchesUp(s: Store, v: Viewer, watched: nat)
    requires Following(s, v, watched)
    ensures var (t, u) := Step(s, v, watched, Poll);
            && watched in t.executions && Followed(t.executions[watched].logLines, u, |t.executions[watched].logLines|)
            && t.executions[watched].status != Running
  {
    var e := Completed(s.executions[watched]);
    var n: nat :| Followed(s.executions[watched].logLines, v, n);
    FollowedStays(s.executions[watched].logLines, e.logLines, v, n);
    SliceCatchesUp(e, v, n);
  }

  lemma StepFollows(s: Store, v: Viewer, watched: nat, op: Op)
    requires Following(s, v, watched)
    ensures var (t, u) := Step(s, v, watched, op); Following(t, u, watched)
  {
    StepGrows(s, v, watched, op, watched);
    if op.Poll? {
      PollCatchesUp(s, v, watched);
    } else {
      var n: nat :| Followed(s.executions[watched].logLines, v, n);
      FollowedStays(s.executions[watched].logLines, Step(s, v, watched, op).0.executions[watched].logLines, v, n);
    }
  }

  /** A viewer that has followed has lines numbered from 1, each shown faithfully. */
  lemma FollowedShows(logLines: seq<string>, v: Viewer, n: nat)
    requires Followed(logLines, v, n)
    ensures ShowsInOrder(v.seen, SplitLines(Text(logLines[..n]))) && v.lineNum == |v.seen| + 1
  {
    NumberedShows(SplitLines(Text(logLines[..n])));
  }

  lemma {:induction false} RunFollows(s: Store, v: Viewer, watched: nat, ops: seq<Op>)
    requires Following(s, v, watched)
    ensures var (t, u) := Run(s, v, watched, ops); Following(t, u, watched)
    decreases |ops|
  {
    if ops != [] {
      StepFollows(s, v, watched, ops[0]);
      var (t, u) := Step(s, v, watched, ops[0]);
      RunFollows(t, u, watched, ops[1..]);
    }
  }

  /** A viewer that starts at (0, 1) and follows the returned cursor, between any other calls, has
      after its last poll seen every line of the log exactly once, in order, numbered from 1; and
      that poll tells it the execution is over, so no later line will come. */
  lemma ViewerSeesTheLogExactlyOnce(s: Store, watched: nat, ops: seq<Op>, later: seq<Op>)
    requires watched in s.executions && s.executions[watched].config.logged && watched < s.nextId
    ensures var (t, u) := Run(s, FRESH, watched, ops);
            var (t1, u1) := Step(t, u, watched, Poll);
            var (t2, u2) := Run(t1, u1, watched, later);
            && watched in t1.executions && watched in t2.executions
            && u1.seen == Numbered(SplitLines(Text(t1.executions[watched].logLines)), 1)
            && ShowsInOrder(u1.seen, SplitLines(Text(t1.executions[watched].logLines)))
            && t1.executions[watched].status != Running && t2.executions[watched] == t1.executions[watched]
  {
    var (t, u) := Run(s, FRESH, watched, ops);
    assert s.executions[watched].logLines[..0] == [];
    assert Followed(s.executions[watched].logLines, FRESH, 0);
    RunFollows(s, FRESH, watched, ops);
    PollCatchesUp(t, u, watched);
    StepGrows(t, u, watched, Poll, watched);
    var (t1, u1) := Step(t, u, watched, Poll);
    assert t1.executions[watched].logLines[..|t1.executions[watched].logLines|] == t1.executions[watched].logLines;
    NumberedShows(SplitLines(Text(t1.executions[watched].logLines)));
    RunGrows(t1, u1, watched, later, watched);
  }

  /** The whole life of a viewer, spelled out: it is shown as many lines as the log has, the i-th under the
      number i; and when no entry holds a line break the i-th line is the i-th entry. */
  lemma {:induction false} EveryEntryIsShownOnce(s: Store, watched: nat, ops: seq<Op>, t: Store, u: Viewer)
    requires watched in s.executions && s.executions[watched].config.logged && watched < s.nextId
    requires (t, u) == Step(Run(s, FRESH, watched, ops).0, Run(s, FRESH, watched, ops).1, watched, Poll)
    ensures watched in t.executions
    ensures |u.seen| == |SplitLines(Text(t.executions[watched].logLines))|
    ensures forall i :: 0 <= i < |u.seen| ==> u.seen[i].num == i + 1
    ensures (forall line :: line in t.executions[watched].logLines ==> NoBreak(line)) ==>
              ShowsInOrder(u.seen, t.executions[watched].logLines)
  {
    ViewerSeesTheLogExactlyOnce(s, watched, ops, []);
    var logLines := t.executions[watched].logLines;
    if forall line :: line in logLines ==> NoBreak(line) {
      PlainEntriesAreLines(logLines);
    }
  }
}
