/** The pacman installer (pacman_bindings/src/lib.rs): how a process result becomes a
    `ToolResult`, and how the stdout of `pacman -Qe` becomes package records. Building and
    running the command is not modelled; its result is an input. */
module PacmanBindings {
  import opened Wrappers
  import opened Models
  import opened Traits

  /** What running a command gave: it could not be started, or it exited with a code
      (`None` when a signal ended it). */
  datatype ProcessStatus = SpawnFailed(reason: string) | Exited(code: Option<int>)

  /** `ExitStatus::success()`: exit code zero. */
  predicate Success(status: ProcessStatus)
  {
    status.Exited? && status.code == Some(0)
  }

  /** The three mutating pacman calls: `-S`, `-Rns` and `-Sy`. */
  datatype PacmanOp = Install | Delete | Update

  /** The host as the installer sees it: the status of each mutating call, and the status
      and stdout of `pacman -Qe`. */
  datatype PacmanHost = PacmanHost(
    run: (PacmanOp, string) -> ProcessStatus,
    queryStatus: ProcessStatus,
    queryStdout: string)

  function DigitChar(d: nat): char
    requires d < 10
  {
    "0123456789"[d]
  }

  function NatToString(n: nat): string
    decreases n
  {
    if n < 10 then [DigitChar(n)] else NatToString(n / 10) + [DigitChar(n % 10)]
  }

  /** Decimal text of an exit code, as `{}` prints an `i32`. */
  function IntToString(i: int): string
  {
    if i < 0 then "-" + NatToString(-i) else NatToString(i)
  }

  /** The error kind belonging to each operation. */
  function ErrorFor(op: PacmanOp, message: string): ToolError
  {
    match op
    case Install => InstallingPackage(message)
    case Delete => DeletingPackage(message)
    case Update => UpdatingPackage(message)
  }

  function Verb(op: PacmanOp): string
  {
    match op
    case Install => "install"
    case Delete => "remove"
    case Update => "update"
  }

  predicate IsErrorFor(op: PacmanOp, e: ToolError)
  {
    match op
    case Install => e.InstallingPackage?
    case Delete => e.DeletingPackage?
    case Update => e.UpdatingPackage?
  }

  /** The result of `install_package`, `delete_package` or `update_package` given the
      status of the pacman process: `Ok` exactly when the process succeeded, otherwise the
      error kind of that operation. */
  function RunResult(op: PacmanOp, name: string, status: ProcessStatus): (r: ToolResult<()>)
    ensures r.Ok? <==> Success(status)
    ensures r.Err? ==> IsErrorFor(op, r.error)
    ensures status.SpawnFailed? ==> r == Err(ErrorFor(op, "Failed to execute pacman: " + status.reason))
  {
    match status
    case SpawnFailed(reason) => Err(ErrorFor(op, "Failed to execute pacman: " + reason))
    case Exited(code) =>
      if code == Some(0) then Ok(())
      else
        var shown := match code case Some(c) => c case None => -1;
        Err(ErrorFor(op, "Pacman failed to " + Verb(op) + " package " + name
                         + " with exit code: " + IntToString(shown)))
  }

  /** `char::is_whitespace`: the Unicode White_Space characters. */
  predicate IsWhitespace(c: char)
  {
    var n := c as int;
    || n == 0x20 || 0x09 <= n <= 0x0D || n == 0x85 || n == 0xA0 || n == 0x1680
    || 0x2000 <= n <= 0x200A || n == 0x2028 || n == 0x2029 || n == 0x202F
    || n == 0x205F || n == 0x3000
  }

  /** Index of the first `c` in `s`, or `|s|` when there is none. */
  function IndexOf(s: string, c: char): (k: nat)
    ensures k <= |s|
    ensures forall i | 0 <= i < k :: s[i] != c
    ensures k < |s| ==> s[k] == c
  {
    if s == [] then 0 else if s[0] == c then 0 else 1 + IndexOf(s[1..], c)
  }

  /** A line without its "\r" of a "\r\n" ending. */
  function StripCr(line: string): string
  {
    if line != [] && line[|line| - 1] == '\r' then line[..|line| - 1] else line
  }

  /** `str::lines`: split at each "\n" (dropping a "\r" just before it); a final "\n" does
      not start another line, and an empty string has no lines. */
  function Lines(s: string): (r: seq<string>)
    ensures r == [] <==> s == []
    ensures forall i | 0 <= i < |r| :: '\n' !in r[i]
    decreases |s|
  {
    if s == [] then []
    else
      var k := IndexOf(s, '\n');
      if k == |s| then [s] else [StripCr(s[..k])] + Lines(s[k + 1..])
  }

  /** Index of the first whitespace character of `s`, or `|s|`. */
  function TokenEnd(s: string): (k: nat)
    ensures k <= |s|
    ensures forall i | 0 <= i < k :: !IsWhitespace(s[i])
    ensures k < |s| ==> IsWhitespace(s[k])
  {
    if s == [] || IsWhitespace(s[0]) then 0 else 1 + TokenEnd(s[1..])
  }

  /** The number of whitespace characters at the start of `s`. */
  function LeadingWhitespace(s: string): (k: nat)
    ensures k <= |s|
    ensures forall i | 0 <= i < k :: IsWhitespace(s[i])
    ensures k < |s| ==> !IsWhitespace(s[k])
  {
    if s != [] && IsWhitespace(s[0]) then 1 + LeadingWhitespace(s[1..]) else 0
  }

  /** `split_whitespace().first()`, or "" when the line has no token. */
  function FirstToken(line: string): string
  {
    var t := line[LeadingWhitespace(line)..];
    t[..TokenEnd(t)]
  }

  /** The records `get_packages` builds from the stdout of `pacman -Qe`: one per line,
      named by the line's first token, with an empty category and tool `Pacman`. */
  function ParseQuery(stdout: string): (r: seq<RawPackageData>)
    ensures |r| == |Lines(stdout)|
    ensures forall i | 0 <= i < |r| :: r[i].categoryName == "" && r[i].installationTool == Pacman
    ensures forall i, j | 0 <= i < |r| && 0 <= j < |r[i].packageName| :: !IsWhitespace(r[i].packageName[j])
  {
    var lines := Lines(stdout);
    seq(|lines|, i requires 0 <= i < |lines| => RawPackageData(FirstToken(lines[i]), "", Pacman))
  }

  /** `get_packages`: the parsed stdout when `pacman -Qe` succeeded, otherwise nothing. */
  function QueryPackages(status: ProcessStatus, stdout: string): (r: seq<RawPackageData>)
    ensures !Success(status) ==> r == []
    ensures forall i | 0 <= i < |r| :: r[i].categoryName == "" && r[i].installationTool == Pacman
  {
    if Success(status) then ParseQuery(stdout) else []
  }

  /** The pacman installer over a host: `get_type` is always `Pacman`, and every call's
      result is the mapping of the corresponding process status. */
  function PacmanInstaller(host: PacmanHost): (t: InstallationTool)
    ensures t.kind == Pacman
    ensures forall n :: t.install(n) == RunResult(Install, n, host.run(Install, n))
    ensures forall n :: t.delete(n) == RunResult(Delete, n, host.run(Delete, n))
    ensures forall n :: t.update(n) == RunResult(Update, n, host.run(Update, n))
    ensures t.packages == QueryPackages(host.queryStatus, host.queryStdout)
  {
    InstallationTool(
      Pacman,
      n => RunResult(Install, n, host.run(Install, n)),
      n => RunResult(Delete, n, host.run(Delete, n)),
      n => RunResult(Update, n, host.run(Update, n)),
      QueryPackages(host.queryStatus, host.queryStdout))
  }

  // ---------------------------------------------------------------------------------
  // Properties of the parse

  /** The first token is the whitespace-free piece of the line that starts after the
      leading whitespace and ends at the next whitespace or at the end of the line; it is ""
      exactly when the line is blank. */
  lemma FirstTokenSpec(line: string)
    ensures var p, tok := LeadingWhitespace(line), FirstToken(line);
      && p + |tok| <= |line|
      && line[p..p + |tok|] == tok
      && (forall i | 0 <= i < |tok| :: !IsWhitespace(tok[i]))
      && (p + |tok| < |line| ==> IsWhitespace(line[p + |tok|]))
    ensures FirstToken(line) == "" <==> forall i | 0 <= i < |line| :: IsWhitespace(line[i])
  {
    var p := LeadingWhitespace(line);
    var t := line[p..];
    var tok := t[..TokenEnd(t)];
    assert line[p..p + |tok|] == tok;
    if p < |line| {
      assert t[0] == line[p];
    }
  }

  /** A line of `pacman -Qe`: a name without whitespace, one space, then the version. */
  lemma {:induction false} FirstTokenOfEntry(name: string, rest: string)
    requires name != [] && forall i | 0 <= i < |name| :: !IsWhitespace(name[i])
    ensures FirstToken(name + " " + rest) == name
  {
    var line := name + " " + rest;
    assert !IsWhitespace(line[0]);
    assert line[0..] == line;
    TokenEndOfEntry(name, rest);
  }

  lemma {:induction false} TokenEndOfEntry(name: string, rest: string)
    requires forall i | 0 <= i < |name| :: !IsWhitespace(name[i])
    ensures TokenEnd(name + " " + rest) == |name|
  {
    if name != [] {
      assert (name + " " + rest)[1..] == name[1..] + " " + rest;
      TokenEndOfEntry(name[1..], rest);
    }
  }

  /** One line of `pacman -Qe`: the name, a space, the version. */
  function EntryLine(e: (string, string)): string
  {
    e.0 + " " + e.1
  }

  /** The text of `pacman -Qe` for the given (name, version) entries: one line each. */
  function Render(entries: seq<(string, string)>): string
  {
    if entries == [] then "" else EntryLine(entries[0]) + "\n" + Render(entries[1..])
  }

  predicate WellFormedEntry(e: (string, string))
  {
    && e.0 != []
    && (forall i | 0 <= i < |e.0| :: !IsWhitespace(e.0[i]))
    && (forall i | 0 <= i < |e.1| :: e.1[i] != '\n' && e.1[i] != '\r')
  }

  /** Parsing the output of `pacman -Qe` recovers the names it lists, one record each, in
      order, each with an empty category and tool `Pacman`. */
  lemma {:induction false} ParseRender(entries: seq<(string, string)>)
    requires forall i | 0 <= i < |entries| :: WellFormedEntry(entries[i])
    ensures |ParseQuery(Render(entries))| == |entries|
    ensures forall i | 0 <= i < |entries| ::
      ParseQuery(Render(entries))[i] == RawPackageData(entries[i].0, "", Pacman)
  {
    LinesRender(entries);
    forall i | 0 <= i < |entries|
      ensures FirstToken(EntryLine(entries[i])) == entries[i].0
    {
      FirstTokenOfEntry(entries[i].0, entries[i].1);
    }
  }

  lemma EntryLineClean(e: (string, string))
    requires WellFormedEntry(e)
    ensures forall i | 0 <= i < |EntryLine(e)| :: EntryLine(e)[i] != '\n'
    ensures EntryLine(e)[|EntryLine(e)| - 1] != '\r'
  {
    var line := EntryLine(e);
    forall i | 0 <= i < |line| ensures line[i] != '\n' {
      if i < |e.0| {
        assert line[i] == e.0[i] && !IsWhitespace(e.0[i]);
      } else if i > |e.0| {
        assert line[i] == e.1[i - |e.0| - 1];
      }
    }
    if e.1 != [] {
      assert line[|line| - 1] == e.1[|e.1| - 1];
    }
  }

  lemma {:induction false} LinesRender(entries: seq<(string, string)>)
    requires forall i | 0 <= i < |entries| :: WellFormedEntry(entries[i])
    ensures |Lines(Render(entries))| == |entries|
    ensures forall i | 0 <= i < |entries| :: Lines(Render(entries))[i] == EntryLine(entries[i])
  {
    if entries != [] {
      LinesRender(entries[1..]);
      LinesRenderStep(entries);
    }
  }

  /** The step of LinesRender: the first entry's line, then the lines of the rest. */
  lemma LinesRenderStep(entries: seq<(string, string)>)
    requires entries != [] && WellFormedEntry(entries[0])
    requires |Lines(Render(entries[1..]))| == |entries| - 1
    requires forall i | 0 <= i < |entries| - 1 :: Lines(Render(entries[1..]))[i] == EntryLine(entries[1..][i])
    ensures |Lines(Render(entries))| == |entries|
    ensures forall i | 0 <= i < |entries| :: Lines(Render(entries))[i] == EntryLine(entries[i])
  {
    var line := EntryLine(entries[0]);
    EntryLineClean(entries[0]);
    LinesCons(line, Render(entries[1..]));
    var all, rest := Lines(Render(entries)), Lines(Render(entries[1..]));
    assert all == [line] + rest;
    forall i | 1 <= i < |entries| ensures all[i] == EntryLine(entries[i]) {
      assert all[i] == rest[i - 1];
      assert entries[1..][i - 1] == entries[i];
    }
  }

  /** A line without "\n" or a final "\r", then "\n", then the rest: that line comes first. */
  lemma LinesCons(line: string, tail: string)
    requires forall i | 0 <= i < |line| :: line[i] != '\n'
    requires line == [] || line[|line| - 1] != '\r'
    ensures Lines(line + "\n" + tail) == [line] + Lines(tail)
  {
    var s := line + "\n" + tail;
    IndexOfPrefix(line, tail);
    assert s[..|line|] == line;
    assert s[|line| + 1..] == tail;
  }

  lemma {:induction false} IndexOfPrefix(line: string, tail: string)
    requires forall i | 0 <= i < |line| :: line[i] != '\n'
    ensures IndexOf(line + "\n" + tail, '\n') == |line|
  {
    if line != [] {
      assert (line + "\n" + tail)[1..] == line[1..] + "\n" + tail;
      IndexOfPrefix(line[1..], tail);
    }
  }
}
