/** The agent side of the bridge, `runClaudeCode` (index.js:291-359) and the
    reply truncation of `handleSlackEvent` (index.js:269-273): the options
    built from the environment, the choice between resuming and starting a
    session, the collection of the process's output, the classification of
    how it ended, and the effect of that on the session store. The process
    itself is not run: how it ended is an input (`AgentRun`). */
module Agent {
  import opened Wrappers
  import opened JsString

  // ---------------------------------------------------------------------
  // Options (index.js:300-311)

  /** The environment variables runClaudeCode reads, "" when unset:
      CLAUDE_ALLOWED_DIRS, CLAUDE_SKIP_PERMISSIONS and CLAUDE_MODEL. */
  datatype Config = Config(allowedDirs: string, skipPermissions: string, model: string)

  const DefaultModel := "opus"

  function ModelName(cfg: Config): (m: string)
    ensures m != ""
    ensures cfg.model != "" ==> m == cfg.model
    ensures cfg.model == "" ==> m == DefaultModel
  {
    if cfg.model == "" then DefaultModel else cfg.model
  }

  function AddDirFlag(dir: string): string
  {
    "--add-dir " + Trim(dir)
  }

  /** One `--add-dir` flag per comma-separated entry, in order. */
  function AddDirFlags(dirs: string): (flags: seq<string>)
    ensures |flags| == |Split(dirs, ',')|
    ensures forall k :: 0 <= k < |flags| ==> flags[k] == AddDirFlag(Split(dirs, ',')[k])
  {
    var entries := Split(dirs, ',');
    seq(|entries|, k requires 0 <= k < |entries| => AddDirFlag(entries[k]))
  }

  const SkipPermissionsFlag := " --dangerously-skip-permissions"

  /** The `--add-dir` flags, each after a space, when CLAUDE_ALLOWED_DIRS
      is set; nothing otherwise. */
  function DirOptions(allowedDirs: string): (o: string)
    ensures allowedDirs == "" <==> o == ""
    ensures allowedDirs != "" ==> o == " " + Join(AddDirFlags(allowedDirs), " ")
  {
    if allowedDirs != "" then " " + Join(AddDirFlags(allowedDirs), " ") else ""
  }

  /** The permission switch, exactly when CLAUDE_SKIP_PERMISSIONS is "true". */
  function SkipOption(skipPermissions: string): (o: string)
    ensures skipPermissions == "true" <==> o == SkipPermissionsFlag
    ensures skipPermissions != "true" <==> o == ""
  {
    if skipPermissions == "true" then SkipPermissionsFlag else ""
  }

  /** The options passed to every invocation of the agent: the model
      first, one flag per allowed directory, and the permission switch
      last when CLAUDE_SKIP_PERMISSIONS is exactly "true". */
  function BaseOptions(cfg: Config): (o: string)
    ensures |o| >= 8 + |ModelName(cfg)| && o[..8 + |ModelName(cfg)|] == "--model " + ModelName(cfg)
    ensures o[8 + |ModelName(cfg)|..] == DirOptions(cfg.allowedDirs) + SkipOption(cfg.skipPermissions)
  {
    var model := "--model " + ModelName(cfg);
    var rest := DirOptions(cfg.allowedDirs) + SkipOption(cfg.skipPermissions);
    assert (model + rest)[..|model|] == model;
    assert (model + rest)[|model|..] == rest;
    model + rest
  }

  /** Every comma-separated entry of CLAUDE_ALLOWED_DIRS, empty ones
      included, gives the agent one `--add-dir` flag. */
  lemma AddDirFlagCount(dirs: string)
    ensures |AddDirFlags(dirs)| == Occurrences(dirs, ',') + 1
  {
    SplitCount(dirs, ',');
  }

  // ---------------------------------------------------------------------
  // Session choice (index.js:296-323)

  datatype SessionChoice = Resume(id: string) | Start(id: string)

  /** What comes before the session id on the agent's command line:
      `--resume` continues a stored session, `--session-id` starts one
      under a new id. */
  function SessionHead(choice: SessionChoice): (h: string)
    ensures choice.Resume? ==> h == "-p --resume "
    ensures choice.Start? ==> h == "-p --session-id "
  {
    match choice
    case Resume(_) => "-p --resume "
    case Start(_) => "-p --session-id "
  }

  /** The agent's command line after `claude`; the `echo <prompt> |` in
      front of it is not modelled, the prompt is kept beside it. It is
      the session head with its id, then the base options. */
  function ClaudeArguments(choice: SessionChoice, cfg: Config): (a: string)
    ensures IsPrefix(SessionHead(choice) + choice.id + " ", a)
    ensures OccursAt(a, " " + BaseOptions(cfg), |a| - |BaseOptions(cfg)| - 1)
    ensures |a| == |SessionHead(choice)| + |choice.id| + 1 + |BaseOptions(cfg)|
  {
    var options := BaseOptions(cfg);
    ThreeParts(SessionHead(choice), choice.id, options);
    SessionHead(choice) + choice.id + " " + options
  }

  /** `h + x + " " + b` starts with `h + x + " "` and ends with `" " + b`. */
  lemma ThreeParts(h: string, x: string, b: string)
    ensures IsPrefix(h + x + " ", h + x + " " + b)
    ensures OccursAt(h + x + " " + b, " " + b, |h + x + " " + b| - |b| - 1)
  {
    assert h + x + " " + b == (h + x) + (" " + b);
  }

  /** The command line tells which session the agent works in: equal
      argument strings under one configuration mean the same choice,
      resumed or started, with the same id. */
  lemma ClaudeArgumentsInjective(c1: SessionChoice, c2: SessionChoice, cfg: Config)
    requires ClaudeArguments(c1, cfg) == ClaudeArguments(c2, cfg)
    ensures c1 == c2
  {
    var a := ClaudeArguments(c1, cfg);
    var h1, h2 := SessionHead(c1), SessionHead(c2);
    assert IsPrefix(h1 + c1.id + " ", a) && IsPrefix(h2 + c2.id + " ", a);
    // Index 5 of the head is `r` for a resume and `s` for a start.
    assert a[5] == (h1 + c1.id + " ")[5] == h1[5];
    assert a[5] == (h2 + c2.id + " ")[5] == h2[5];
    assert c1.Resume? == c2.Resume?;
    var k := |h1|;
    assert c1.id == (h1 + c1.id + " ")[k..k + |c1.id|] == a[k..k + |c1.id|];
    assert c2.id == (h2 + c2.id + " ")[k..k + |c2.id|] == a[k..k + |c2.id|];
  }

  datatype AgentCall = AgentCall(prompt: string, arguments: string)

  // ---------------------------------------------------------------------
  // How the process ended (index.js:329-357)

  /** What the spawned process did: it closed with an exit code (None when
      a signal ended it) after writing these chunks to stdout and stderr;
      or spawning failed with an error message; or the five-minute timer
      fired first. */
  datatype AgentRun =
    | Closed(code: Option<int>, stdout: seq<string>, stderr: seq<string>)
    | SpawnFailed(message: string)
    | TimedOut

  const TimeoutMessage := "Timeout: 5분 초과"

  /** The text a stream delivered, chunk after chunk. */
  function Concat(chunks: seq<string>): string
    decreases |chunks|
  {
    if chunks == [] then "" else Concat(chunks[..|chunks| - 1]) + chunks[|chunks| - 1]
  }

  /** How a stream is cut into chunks does not change the text collected. */
  lemma {:induction false} ConcatAppend(a: seq<string>, b: seq<string>)
    ensures Concat(a + b) == Concat(a) + Concat(b)
    decreases |b|
  {
    if b != [] {
      var b' := b[..|b| - 1];
      assert (a + b)[..|a + b| - 1] == a + b';
      ConcatAppend(a, b');
    } else {
      assert a + b == a;
    }
  }

  /** `output += data.toString()` for each chunk, in arrival order. */
  method Accumulate(chunks: seq<string>) returns (text: string)
    ensures text == Concat(chunks)
  {
    text := "";
    var i := 0;
    while i < |chunks|
      invariant 0 <= i <= |chunks|
      invariant text == Concat(chunks[..i])
    {
      assert chunks[..i + 1][..i] == chunks[..i];
      text := text + chunks[i];
      i := i + 1;
    }
    assert chunks[..i] == chunks;
  }

  datatype Outcome = Resolved(text: string) | Rejected(message: string)

  function ExitCodeText(code: Option<int>): string
  {
    match code
    case Some(n) => IntToString(n)
    case None => "null"
  }

  /** The `close` handler: exit code 0 resolves with the trimmed output, or
      the trimmed error output when the output is blank; any other exit
      rejects with the trimmed error output, or the exit code when that is
      blank. */
  function CloseOutcome(code: Option<int>, output: string, errorOutput: string): (o: Outcome)
    ensures o.Resolved? <==> code == Some(0)
    ensures o.Resolved? ==> IsTrimmed(o.text)
    ensures o.Resolved? ==> (o.text == "" <==> Trim(output) == "" && Trim(errorOutput) == "")
    ensures o.Resolved? && Trim(output) != "" ==> o.text == Trim(output)
    ensures o.Rejected? ==> o.message != ""
    ensures o.Rejected? && Trim(errorOutput) != "" ==> o.message == Trim(errorOutput)
    ensures o.Resolved? && Trim(output) == "" ==> o.text == Trim(errorOutput)
    ensures o.Rejected? && Trim(errorOutput) == "" ==> o.message == "Exit code: " + ExitCodeText(code)
  {
    if code == Some(0) then
      Resolved(if Trim(output) != "" then Trim(output) else Trim(errorOutput))
    else
      Rejected(if Trim(errorOutput) != "" then Trim(errorOutput) else "Exit code: " + ExitCodeText(code))
  }

  /** The failure signature that makes the bridge forget the session. */
  predicate MentionsSession(errorOutput: string)
  {
    Includes(errorOutput, "session") || Includes(errorOutput, "resume")
  }

  /** The run ends in a failure whose error output mentions the session. */
  predicate ClearsSession(run: AgentRun)
  {
    run.Closed? && run.code != Some(0) && MentionsSession(Concat(run.stderr))
  }

  function RunOutcome(run: AgentRun): (o: Outcome)
    ensures o.Resolved? <==> run.Closed? && run.code == Some(0)
    ensures run.TimedOut? ==> o == Rejected(TimeoutMessage)
    ensures run.Closed? ==> o == CloseOutcome(run.code, Concat(run.stdout), Concat(run.stderr))
    ensures run.SpawnFailed? ==> o == Rejected(run.message)
  {
    match run
    case Closed(code, out, err) => CloseOutcome(code, Concat(out), Concat(err))
    case SpawnFailed(message) => Rejected(message)
    case TimedOut => Rejected(TimeoutMessage)
  }

  datatype Invocation = Invocation(sessions: map<string, string>, call: AgentCall, outcome: Outcome)

  /** What runClaudeCode does to the session store, what it runs and how it
      ends. A stored session is resumed and the store is left alone; without
      one the fresh id is stored before the agent runs; a failure that
      mentions the session unbinds the user afterwards. */
  function RunSpec(sessions: map<string, string>, user: string, prompt: string,
                   freshId: string, cfg: Config, run: AgentRun): (r: Invocation)
    ensures forall v :: v != user ==> Lookup(r.sessions, v) == Lookup(sessions, v)
    ensures user in r.sessions <==> !ClearsSession(run)
    ensures user in sessions && sessions[user] != "" ==>
              && r.call == AgentCall(prompt, ClaudeArguments(Resume(sessions[user]), cfg))
              && (user in r.sessions ==> r.sessions == sessions)
    ensures (user !in sessions || sessions[user] == "") ==>
              && r.call == AgentCall(prompt, ClaudeArguments(Start(freshId), cfg))
              && (user in r.sessions ==> r.sessions == sessions[user := freshId])
    ensures r.outcome == RunOutcome(run)
  {
    var after := SessionsAfter(sessions, user, freshId, ClearsSession(run));
    if user in sessions && sessions[user] != "" then
      Invocation(after, AgentCall(prompt, ClaudeArguments(Resume(sessions[user]), cfg)), RunOutcome(run))
    else
      Invocation(after, AgentCall(prompt, ClaudeArguments(Start(freshId), cfg)), RunOutcome(run))
  }

  /** The session store after a run: the fresh id is stored first when the
      user has no session, and the user is unbound afterwards when the run
      `clears` the session. */
  function SessionsAfter(sessions: map<string, string>, user: string, freshId: string, clears: bool): (m: map<string, string>)
    ensures forall v :: v != user ==> Lookup(m, v) == Lookup(sessions, v)
    ensures user in m <==> !clears
    ensures user in m && user in sessions && sessions[user] != "" ==> m == sessions
    ensures user in m && (user !in sessions || sessions[user] == "") ==> m == sessions[user := freshId]
  {
    var saved := if user in sessions && sessions[user] != "" then sessions else sessions[user := freshId];
    if clears then saved - {user} else saved
  }

  // ---------------------------------------------------------------------
  // Reply truncation (index.js:269-273)

  const MaxResponseLength := 3900
  const TruncationMarker := "\n\n... (truncated)"

  /** A result longer than the limit is cut to its first MaxResponseLength
      characters and marked; a shorter one is sent as it is. */
  function Truncate(result: string): (r: string)
    ensures |r| <= MaxResponseLength + |TruncationMarker|
    ensures |result| <= MaxResponseLength ==> r == result
    ensures |result| > MaxResponseLength ==>
              && |r| == MaxResponseLength + |TruncationMarker|
              && r[..MaxResponseLength] == result[..MaxResponseLength]
              && r[MaxResponseLength..] == TruncationMarker
  {
    if |result| > MaxResponseLength then result[..MaxResponseLength] + TruncationMarker else result
  }

  /** Truncating a reply that was already truncated changes nothing. */
  lemma TruncateIdempotent(result: string)
    ensures Truncate(Truncate(result)) == Truncate(result)
  {
    var r := Truncate(result);
    if |result| > MaxResponseLength {
      assert r[..MaxResponseLength] + TruncationMarker == r;
    }
  }
}
