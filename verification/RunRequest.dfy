/**
  * Requests of the one-shot command runner (crates/api-server/src/run.rs): validation,
  * and the script handed to the guest's shell. Also the script of the asynchronous
  * runner (crates/api-server/src/exec.rs), which is quoted twice.
  */
module RunRequest {
  import opened Common
  import opened Decimals
  import opened Shell

  const DEFAULT_TIMEOUT_SECS := 60
  const DEFAULT_MAX_OUTPUT_BYTES := 1024 * 1024
  const MAX_OUTPUT_BYTES := 8 * 1024 * 1024
  const KILL_GRACE_SECS := 5

  /** The entries of an ordered map, in key order. */
  type Env = seq<(string, string)>

  datatype Request = Request(command: string, workingDir: Option<string>, env: Env, timeout: nat, maxOutput: nat)

  datatype RequestError =
    | EmptyCommand
    | NulInCommand
    | BadWorkingDir
    | BadEnvName(name: string)
    | NulInEnv(name: string)
    | ZeroTimeout

  /** Unicode White_Space, which `trim` removes. */
  predicate IsWhitespace(c: char) {
    || '\t' <= c <= '\r' || c == ' '
    || c as int in {0x85, 0xA0, 0x1680, 0x2028, 0x2029, 0x202F, 0x205F, 0x3000} || 0x2000 <= c as int <= 0x200A
  }

  predicate IsBlank(s: string) {
    forall i | 0 <= i < |s| :: IsWhitespace(s[i])
  }

  predicate IsAlpha(c: char) {
    'a' <= c <= 'z' || 'A' <= c <= 'Z' || c == '_'
  }

  /** `[A-Za-z_][A-Za-z0-9_]*`. */
  predicate IsEnvName(name: string) {
    name != "" && IsAlpha(name[0]) && forall i | 1 <= i < |name| :: IsAlpha(name[i]) || IsDigit(name[i])
  }

  predicate EntryOk(entry: (string, string)) {
    IsEnvName(entry.0) && NoNul(entry.1)
  }

  predicate EnvOk(env: Env) {
    forall i | 0 <= i < |env| :: EntryOk(env[i])
  }

  predicate DirOk(dir: Option<string>) {
    dir.Some? ==> dir.value != "" && NoNul(dir.value)
  }

  /** What every accepted request satisfies. */
  predicate Valid(r: Request) {
    !IsBlank(r.command) && NoNul(r.command) && DirOk(r.workingDir) && EnvOk(r.env) && r.timeout > 0
  }

  /** `RunRequest::new`: accepts exactly the well-formed requests and bounds them. */
  method NewRequest(command: string, workingDir: Option<string>, env: Env, timeoutSeconds: Option<nat>,
                    maxOutputBytes: Option<nat>, ceiling: nat) returns (r: Result<Request, RequestError>)
    requires ceiling > 0
    ensures r.Ok? <==> !IsBlank(command) && NoNul(command) && DirOk(workingDir) && EnvOk(env) && timeoutSeconds != Some(0)
    ensures r.Ok? ==>
              && Valid(r.value)
              && r.value.command == command && r.value.workingDir == workingDir && r.value.env == env
              && r.value.timeout == Min(if timeoutSeconds.Some? then timeoutSeconds.value else 60, ceiling)
              && r.value.maxOutput == Min(if maxOutputBytes.Some? then maxOutputBytes.value else 0x10_0000, 0x80_0000)
    ensures r == Err(EmptyCommand) <==> IsBlank(command)
    ensures r == Err(NulInCommand) <==> !IsBlank(command) && !NoNul(command)
    ensures r == Err(BadWorkingDir) <==> !IsBlank(command) && NoNul(command) && !DirOk(workingDir)
    ensures r == Err(ZeroTimeout) <==>
              !IsBlank(command) && NoNul(command) && DirOk(workingDir) && EnvOk(env) && timeoutSeconds == Some(0)
    ensures r.Err? && (r.error.BadEnvName? || r.error.NulInEnv?) ==>
              exists i | 0 <= i < |env| ::
                && EnvOk(env[..i]) && env[i].0 == r.error.name && !EntryOk(env[i])
                && (r.error.BadEnvName? <==> !IsEnvName(env[i].0))
  {
    if IsBlank(command) {
      return Err(EmptyCommand);
    }
    if !NoNul(command) {
      return Err(NulInCommand);
    }
    if workingDir.Some? && (workingDir.value == "" || !NoNul(workingDir.value)) {
      return Err(BadWorkingDir);
    }
    for i := 0 to |env|
      invariant EnvOk(env[..i])
    {
      var (name, value) := env[i];
      if !IsEnvName(name) {
        return Err(BadEnvName(name));
      }
      if !NoNul(value) {
        return Err(NulInEnv(name));
      }
    }
    assert env[..|env|] == env;
    var timeout := if timeoutSeconds.Some? then timeoutSeconds.value else DEFAULT_TIMEOUT_SECS;
    if timeout == 0 {
      return Err(ZeroTimeout);
    }
    var maxOutput := if maxOutputBytes.Some? then maxOutputBytes.value else DEFAULT_MAX_OUTPUT_BYTES;
    return Ok(Request(command, workingDir, env, Min(timeout, ceiling), Min(maxOutput, MAX_OUTPUT_BYTES)));
  }

  // ----- The script -----

  function Digit(d: int): char
    requires 0 <= d < 10
  {
    '0' + d as char
  }

  /** A number as the scripts print it. */
  function Decimal(n: nat): (s: string)
    ensures s != "" && AllDigits(s) && Number(s) == n
  {
    DigitsDenote(n);
    Chars(DigitsOf(n))
  }

  function Chars(ds: seq<int>): (s: string)
    requires AreDigits(ds)
    ensures |s| == |ds| && AllDigits(s) && Number(s) == ValueOf(ds)
  {
    if ds == [] then ""
    else
      var front := Chars(ds[..|ds| - 1]);
      assert (front + [Digit(ds[|ds| - 1])])[..|front|] == front;
      front + [Digit(ds[|ds| - 1])]
  }

  /** The number that digits denote. */
  function Number(s: string): int {
    if s == "" then 0 else 10 * Number(s[..|s| - 1]) + (s[|s| - 1] as int - '0' as int)
  }

  /** `2>/dev/null ` and `</dev/null`, before the rest. */
  function NoErrors(rest: string): string {
    "2" + (">" + Sp("/dev/null", rest))
  }

  function NoInput(rest: string): string {
    "<" + Nl("/dev/null", rest)
  }

  /** `cd -- DIR || exit 126`, or `cd -- DIR 2>/dev/null || true` for the default directory. */
  function CdLine(workingDir: Option<string>, defaultDir: string, rest: string): string {
    if workingDir.Some? then
      Sp("cd", Sp("--", Sp(Quote(workingDir.value), Sp("||", Sp("exit", Nl("126", rest))))))
    else
      Sp("cd", Sp("--", Sp(Quote(defaultDir), NoErrors(Sp("||", Nl("true", rest))))))
  }

  /** `export NAME=VALUE`. */
  function ExportLine(entry: (string, string), rest: string): string {
    Sp("export", Nl(entry.0 + "=" + Quote(entry.1), rest))
  }

  function ExportLines(env: Env, rest: string): string {
    if env == [] then rest else ExportLine(env[0], ExportLines(env[1..], rest))
  }

  /** `exec timeout -k GRACE TIMEOUT sh -c COMMAND </dev/null`. */
  function ExecLine(timeout: nat, command: string): string {
    Sp("exec", Sp("timeout", Sp("-k", Sp(Decimal(KILL_GRACE_SECS), Sp(Decimal(timeout), ShellLine(command))))))
  }

  function ShellLine(command: string): string {
    Sp("sh", Sp("-c", Sp(Quote(command), NoInput(""))))
  }

  function ScriptText(r: Request, defaultDir: string): string {
    CdLine(r.workingDir, defaultDir, ExportLines(r.env, ExecLine(r.timeout, r.command)))
  }

  lemma CdLineAppend(workingDir: Option<string>, defaultDir: string, rest: string)
    ensures CdLine(workingDir, defaultDir, "") + rest == CdLine(workingDir, defaultDir, rest)
  {
    assert "" + rest == rest;
    if workingDir.Some? {
      AppendTo("126", "", rest);
      AppendTo("exit", Nl("126", ""), rest);
      AppendTo("||", Sp("exit", Nl("126", "")), rest);
      AppendTo(Quote(workingDir.value), Sp("||", Sp("exit", Nl("126", ""))), rest);
      AppendTo("--", Sp(Quote(workingDir.value), Sp("||", Sp("exit", Nl("126", "")))), rest);
      AppendTo("cd", Sp("--", Sp(Quote(workingDir.value), Sp("||", Sp("exit", Nl("126", ""))))), rest);
    } else {
      var or := Sp("||", Nl("true", ""));
      AppendTo("true", "", rest);
      AppendTo("||", Nl("true", ""), rest);
      AppendTo("/dev/null", or, rest);
      NoErrorsAppend(or, rest);
      AppendTo(Quote(defaultDir), NoErrors(or), rest);
      AppendTo("--", Sp(Quote(defaultDir), NoErrors(or)), rest);
      AppendTo("cd", Sp("--", Sp(Quote(defaultDir), NoErrors(or))), rest);
    }
  }

  lemma NoErrorsAppend(a: string, b: string)
    ensures NoErrors(a) + b == NoErrors(a + b)
  {
    AppendTo("/dev/null", a, b);
  }

  lemma ExportLineAppend(entry: (string, string), rest: string)
    ensures ExportLine(entry, "") + rest == ExportLine(entry, rest)
  {
    assert "" + rest == rest;
    AppendTo(entry.0 + "=" + Quote(entry.1), "", rest);
    AppendTo("export", Nl(entry.0 + "=" + Quote(entry.1), ""), rest);
  }

  /** `RunRequest::script`, built by appending line after line to a string. */
  method Script(r: Request, defaultDir: string) returns (script: string)
    ensures script == ScriptText(r, defaultDir)
  {
    ghost var exec := ExecLine(r.timeout, r.command);
    script := CdLine(r.workingDir, defaultDir, "");
    CdLineAppend(r.workingDir, defaultDir, ExportLines(r.env, exec));
    assert r.env[0..] == r.env;
    for i := 0 to |r.env|
      invariant script + ExportLines(r.env[i..], exec) == ScriptText(r, defaultDir)
    {
      ExportLineAppend(r.env[i], ExportLines(r.env[i + 1..], exec));
      assert r.env[i..][1..] == r.env[i + 1..];
      script := script + ExportLine(r.env[i], "");
    }
    script := script + ExecLine(r.timeout, r.command);
  }

  // ----- What the guest's shell reads -----

  function CdThen(workingDir: Option<string>, defaultDir: string, r: Reading): Reading {
    if workingDir.Some? then
      Put(Word("cd"), Put(Word("--"), Put(Word(workingDir.value),
        Put(Operator("||"), Put(Word("exit"), Put(Word("126"), Put(NewLine, r)))))))
    else
      Put(Word("cd"), Put(Word("--"), Put(Word(defaultDir),
        Put(IoNumber("2"), Put(Operator(">"), Put(Word("/dev/null"),
          Put(Operator("||"), Put(Word("true"), Put(NewLine, r)))))))))
  }

  /** One `export` command per variable, each ended by `end`. */
  function ExportsThen(env: Env, end: Token, r: Reading): Reading {
    if env == [] then r
    else Put(Word("export"), Put(Word(env[0].0 + "=" + env[0].1), Put(end, ExportsThen(env[1..], end, r))))
  }

  function ExecThen(timeout: nat, command: string, r: Reading): Reading {
    Put(Word("exec"), Put(Word("timeout"), Put(Word("-k"), Put(Word(Decimal(KILL_GRACE_SECS)),
      Put(Word(Decimal(timeout)), Put(Word("sh"), Put(Word("-c"), Put(Word(command),
        Put(Operator("<"), Put(Word("/dev/null"), Put(NewLine, r)))))))))))
  }

  /** Everything read, between two tokens. */
  const END := Reading([], Outside, "")

  function CdTokens(workingDir: Option<string>, defaultDir: string): seq<Token> {
    if workingDir.Some? then
      [Word("cd"), Word("--"), Word(workingDir.value), Operator("||"), Word("exit"), Word("126"), NewLine]
    else
      [Word("cd"), Word("--"), Word(defaultDir), IoNumber("2"), Operator(">"), Word("/dev/null"),
       Operator("||"), Word("true"), NewLine]
  }

  function ExportTokens(env: Env, end: Token): seq<Token> {
    if env == [] then [] else [Word("export"), Word(env[0].0 + "=" + env[0].1), end] + ExportTokens(env[1..], end)
  }

  function ExecTokens(timeout: nat, command: string): seq<Token> {
    [Word("exec"), Word("timeout"), Word("-k"), Word(Decimal(KILL_GRACE_SECS)), Word(Decimal(timeout)),
     Word("sh"), Word("-c"), Word(command), Operator("<"), Word("/dev/null"), NewLine]
  }

  lemma CdThenIs(workingDir: Option<string>, defaultDir: string, r: Reading)
    ensures CdThen(workingDir, defaultDir, r) == Prepend(CdTokens(workingDir, defaultDir), r)
  {
  }

  lemma {:induction false} ExportsThenIs(env: Env, end: Token, r: Reading)
    ensures ExportsThen(env, end, r) == Prepend(ExportTokens(env, end), r)
  {
    if env == [] {
      assert [] + r.tokens == r.tokens;
    } else {
      ExportsThenIs(env[1..], end, r);
    }
  }

  lemma ExecThenIs(timeout: nat, command: string)
    ensures ExecThen(timeout, command, END) == END.(tokens := ExecTokens(timeout, command))
  {
    assert ExecThen(timeout, command, END).tokens == ExecTokens(timeout, command);
  }

  lemma LexCdTo(dir: string, rest: string, left: nat)
    requires left <= |rest|
    requires NoNul(dir)
    ensures Lex(Outside, Sp("cd", Sp("--", Sp(Quote(dir), rest))), left)
         == Put(Word("cd"), Put(Word("--"), Put(Word(dir), Lex(Outside, rest, left))))
  {
    LexQuote(dir, rest, left);
    LexBare("--", Sp(Quote(dir), rest), left);
    LexBare("cd", Sp("--", Sp(Quote(dir), rest)), left);
  }

  lemma LexOrExit(rest: string, left: nat)
    requires left <= |rest|
    ensures Lex(Outside, Sp("||", Sp("exit", Nl("126", rest))), left)
         == Put(Operator("||"), Put(Word("exit"), Put(Word("126"), Put(NewLine, Lex(Outside, rest, left)))))
  {
    LexBare("126", rest, left);
    LexBare("exit", Nl("126", rest), left);
    LexOr(Sp("exit", Nl("126", rest)), left);
  }

  lemma LexNoErrors(rest: string, left: nat)
    requires left <= |rest|
    ensures Lex(Outside, NoErrors(rest), left)
         == Put(IoNumber("2"), Put(Operator(">"), Put(Word("/dev/null"), Lex(Outside, rest, left))))
  {
    LexBare("/dev/null", rest, left);
    LexErrorOutput("/dev/null", " " + rest, left);
  }

  lemma LexCd(workingDir: Option<string>, defaultDir: string, rest: string, left: nat)
    requires left <= |rest|
    requires DirOk(workingDir) && NoNul(defaultDir)
    ensures Lex(Outside, CdLine(workingDir, defaultDir, rest), left) == CdThen(workingDir, defaultDir, Lex(Outside, rest, left))
  {
    if workingDir.Some? {
      LexOrExit(rest, left);
      LexCdTo(workingDir.value, Sp("||", Sp("exit", Nl("126", rest))), left);
    } else {
      LexBare("true", rest, left);
      LexOr(Nl("true", rest), left);
      LexNoErrors(Sp("||", Nl("true", rest)), left);
      LexCdTo(defaultDir, NoErrors(Sp("||", Nl("true", rest))), left);
    }
  }

  lemma EnvNameIsPlain(name: string)
    requires IsEnvName(name)
    ensures AllPlain(name + "=")
  {
  }

  lemma {:induction false} LexExports(env: Env, rest: string, left: nat)
    requires left <= |rest|
    requires EnvOk(env)
    ensures Lex(Outside, ExportLines(env, rest), left) == ExportsThen(env, NewLine, Lex(Outside, rest, left))
    decreases env
  {
    if env != [] {
      var (name, value) := env[0];
      assert EntryOk(env[0]);
      EnvNameIsPlain(name);
      LexExports(env[1..], rest, left);
      LexArg(name + "=", value, ExportLines(env[1..], rest), left);
      LexBare("export", Nl(name + "=" + Quote(value), ExportLines(env[1..], rest)), left);
    }
  }

  lemma LexShell(command: string)
    requires NoNul(command)
    ensures Lex(Outside, ShellLine(command), 0)
         == Put(Word("sh"), Put(Word("-c"), Put(Word(command), Put(Operator("<"), Put(Word("/dev/null"), Put(NewLine, END))))))
  {
    LexBare("/dev/null", "", 0);
    LexInput("/dev/null", "\n" + "", 0);
    LexQuote(command, NoInput(""), 0);
    LexBare("-c", Sp(Quote(command), NoInput("")), 0);
    LexBare("sh", Sp("-c", Sp(Quote(command), NoInput(""))), 0);
  }

  lemma LexTimeout(grace: string, limit: string, shell: string)
    requires grace != "" && AllPlain(grace) && limit != "" && AllPlain(limit)
    ensures Lex(Outside, Sp("exec", Sp("timeout", Sp("-k", Sp(grace, Sp(limit, shell))))), 0)
         == Put(Word("exec"), Put(Word("timeout"), Put(Word("-k"), Put(Word(grace), Put(Word(limit), Lex(Outside, shell, 0))))))
  {
    LexBare(limit, shell, 0);
    LexBare(grace, Sp(limit, shell), 0);
    LexBare("-k", Sp(grace, Sp(limit, shell)), 0);
    LexBare("timeout", Sp("-k", Sp(grace, Sp(limit, shell))), 0);
    LexBare("exec", Sp("timeout", Sp("-k", Sp(grace, Sp(limit, shell)))), 0);
  }

  lemma LexExec(timeout: nat, command: string)
    requires NoNul(command)
    ensures Lex(Outside, ExecLine(timeout, command), 0) == ExecThen(timeout, command, END)
  {
    LexShell(command);
    DigitsArePlain(Decimal(timeout));
    DigitsArePlain(Decimal(KILL_GRACE_SECS));
    LexTimeout(Decimal(KILL_GRACE_SECS), Decimal(timeout), ShellLine(command));
  }

  lemma DigitsArePlain(s: string)
    requires AllDigits(s)
    ensures AllPlain(s)
  {
  }

  /** The words that `timeout` gets denote the grace period and the time allowed. */
  lemma TimeoutIsDenoted(r: Request)
    ensures var words := ExecTokens(r.timeout, r.command);
            && words[3].Word? && Number(words[3].text) == 5
            && words[4].Word? && Number(words[4].text) == r.timeout
  {
  }

  /**
    * For every valid request the guest's shell reads exactly these commands: nothing the
    * caller supplied can become a command of its own.
    */
  lemma ScriptTokenizes(r: Request, defaultDir: string)
    requires Valid(r) && NoNul(defaultDir)
    ensures Tokenize(ScriptText(r, defaultDir))
         == Some(CdTokens(r.workingDir, defaultDir) + (ExportTokens(r.env, NewLine) + ExecTokens(r.timeout, r.command)))
  {
    var exec := ExecThen(r.timeout, r.command, END);
    LexExec(r.timeout, r.command);
    LexExports(r.env, ExecLine(r.timeout, r.command), 0);
    LexCd(r.workingDir, defaultDir, ExportLines(r.env, ExecLine(r.timeout, r.command)), 0);
    ExecThenIs(r.timeout, r.command);
    ExportsThenIs(r.env, NewLine, exec);
    CdThenIs(r.workingDir, defaultDir, ExportsThen(r.env, NewLine, exec));
  }

  // ----- The asynchronous runner: one script quoted inside another -----

  /** `export NAME=VALUE; ` for each variable of the session, in front of a command. */
  function ScriptPrefix(env: Env, command: string): string {
    if env == [] then command
    else Sp("export", Sc(env[0].0 + "=" + Quote(env[0].1), ScriptPrefix(env[1..], command)))
  }

  /** `cd DIR 2>/dev/null || true; COMMAND`. */
  function InWorkspace(dir: string, command: string): string {
    Sp("cd", Sp(dir, NoErrors(Sp("||", Sc("true", command)))))
  }

  /** `exec timeout --kill-after=30s LIMITs bash -c 'COMMAND' </dev/null`. */
  function WithCeiling(command: string, ceiling: nat): string {
    Sp("exec", Sp("timeout", Sp("--kill-after=30s", Sp(Decimal(ceiling) + "s", BashLine(command)))))
  }

  function BashLine(command: string): string {
    Sp("bash", Sp("-c", Sp("'" + Escape(command) + "'", "</dev/null")))
  }

  function CeilingTokens(command: string, ceiling: nat): seq<Token> {
    [Word("exec"), Word("timeout"), Word("--kill-after=30s"), Word(Decimal(ceiling) + "s"),
     Word("bash"), Word("-c"), Word(command), Operator("<"), Word("/dev/null")]
  }

  lemma ReadsDevNull()
    ensures Lex(Outside, "</dev/null", 0) == Put(Operator("<"), Reading([], InWord("/dev/null", false), ""))
  {
    var file := "/dev/null";
    assert "</dev/null" == "<" + (file + "");
    LexInput(file, "", 0);
    LexPlain(Outside, file, "", 0);
    assert "" + file == file;
    assert !IsDigit(file[0]);
  }

  lemma LexBash(command: string)
    requires NoNul(command)
    ensures Lex(Outside, BashLine(command), 0)
         == Put(Word("bash"), Put(Word("-c"), Put(Word(command),
              Put(Operator("<"), Reading([], InWord("/dev/null", false), "")))))
  {
    ReadsDevNull();
    LexQuote(command, "</dev/null", 0);
    LexBare("-c", Sp(Quote(command), "</dev/null"), 0);
    LexBare("bash", Sp("-c", Sp(Quote(command), "</dev/null")), 0);
  }

  function CeilingThen(command: string, ceiling: nat, r: Reading): Reading {
    Put(Word("exec"), Put(Word("timeout"), Put(Word("--kill-after=30s"), Put(Word(Decimal(ceiling) + "s"),
      Put(Word("bash"), Put(Word("-c"), Put(Word(command), Put(Operator("<"), r))))))))
  }

  lemma LexKillAfter(rest: string)
    ensures Lex(Outside, Sp("--kill-after=30s", rest), 0) == Put(Word("--kill-after=30s"), Lex(Outside, rest, 0))
  {
    LexBare("--kill-after=30s", rest, 0);
  }

  lemma LexLimit(limit: string, bash: string)
    requires limit != "" && AllPlain(limit)
    ensures Lex(Outside, Sp("exec", Sp("timeout", Sp("--kill-after=30s", Sp(limit, bash)))), 0)
         == Put(Word("exec"), Put(Word("timeout"), Put(Word("--kill-after=30s"), Put(Word(limit), Lex(Outside, bash, 0)))))
  {
    LexBare(limit, bash, 0);
    LexKillAfter(Sp(limit, bash));
    LexBare("timeout", Sp("--kill-after=30s", Sp(limit, bash)), 0);
    LexBare("exec", Sp("timeout", Sp("--kill-after=30s", Sp(limit, bash))), 0);
  }

  lemma LexCeiling(command: string, ceiling: nat)
    requires NoNul(command)
    ensures Lex(Outside, WithCeiling(command, ceiling), 0)
         == CeilingThen(command, ceiling, Reading([], InWord("/dev/null", false), ""))
  {
    LexBash(command);
    DigitsArePlain(Decimal(ceiling));
    LexLimit(Decimal(ceiling) + "s", BashLine(command));
  }

  lemma CeilingThenIs(command: string, ceiling: nat)
    ensures Complete(CeilingThen(command, ceiling, Reading([], InWord("/dev/null", false), "")))
         == Some(CeilingTokens(command, ceiling))
  {
    var r := CeilingThen(command, ceiling, Reading([], InWord("/dev/null", false), ""));
    assert r.tokens + [Word("/dev/null")] == CeilingTokens(command, ceiling);
  }

  /** The outer script hands the inner one to bash verbatim, as one word. */
  lemma CeilingKeepsTheScript(command: string, ceiling: nat)
    requires NoNul(command)
    ensures Tokenize(WithCeiling(command, ceiling)) == Some(CeilingTokens(command, ceiling))
  {
    LexCeiling(command, ceiling);
    CeilingThenIs(command, ceiling);
  }

  // ----- Reading the inner script: up to the command, whatever the command is -----

  function WorkspaceTokens(dir: string): seq<Token> {
    [Word("cd"), Word(dir), IoNumber("2"), Operator(">"), Word("/dev/null"), Operator("||"), Word("true"), Operator(";")]
  }

  function WorkspaceThen(dir: string, r: Reading): Reading {
    Put(Word("cd"), Put(Word(dir), Put(IoNumber("2"), Put(Operator(">"), Put(Word("/dev/null"),
      Put(Operator("||"), Put(Word("true"), Put(Operator(";"), r))))))))
  }

  lemma WorkspaceThenIs(dir: string, r: Reading)
    ensures WorkspaceThen(dir, r) == Prepend(WorkspaceTokens(dir), r)
  {
  }

  /** What the shell reads of the inner script before it comes to the command. */
  function PrefixTokens(dir: string, env: Env): seq<Token> {
    WorkspaceTokens(dir) + ExportTokens(env, Operator(";"))
  }

  lemma {:induction false} LexPrefix(env: Env, command: string, left: nat)
    requires EnvOk(env) && left <= |command|
    ensures left <= |ScriptPrefix(env, command)|
    ensures Lex(Outside, ScriptPrefix(env, command), left)
         == ExportsThen(env, Operator(";"), Lex(Outside, command, left))
    decreases env
  {
    if env != [] {
      var (name, value) := env[0];
      assert EntryOk(env[0]);
      EnvNameIsPlain(name);
      LexPrefix(env[1..], command, left);
      LexArg(name + "=", value, ScriptPrefix(env[1..], command), left);
      LexBare("export", Sc(name + "=" + Quote(value), ScriptPrefix(env[1..], command)), left);
    }
  }

  lemma LexWorkspace(dir: string, inner: string, left: nat)
    requires dir != "" && AllPlain(dir) && left <= |inner|
    ensures Lex(Outside, InWorkspace(dir, inner), left) == WorkspaceThen(dir, Lex(Outside, inner, left))
  {
    LexBare("true", inner, left);
    LexOr(Sc("true", inner), left);
    var t1 := NoErrors(Sp("||", Sc("true", inner)));
    LexNoErrors(Sp("||", Sc("true", inner)), left);
    LexBare(dir, t1, left);
    LexBare("cd", Sp(dir, t1), left);
  }

  /**
    * For every command, with no condition on it: the shell first reads the directory and every variable
    * as they were given, and is then between two tokens, with exactly the command before it. What it
    * reads from there on is what it reads of the command alone.
    */
  lemma InnerScriptReads(dir: string, env: Env, command: string)
    requires dir != "" && AllPlain(dir) && EnvOk(env)
    ensures Lex(Outside, InWorkspace(dir, ScriptPrefix(env, command)), |command|)
         == Reading(PrefixTokens(dir, env), Outside, command)
    ensures forall left: nat | left <= |command| ::
              Lex(Outside, InWorkspace(dir, ScriptPrefix(env, command)), left)
              == Prepend(PrefixTokens(dir, env), Lex(Outside, command, left))
  {
    forall left: nat | left <= |command|
      ensures Lex(Outside, InWorkspace(dir, ScriptPrefix(env, command)), left)
           == Prepend(PrefixTokens(dir, env), Lex(Outside, command, left))
    {
      InnerScriptReadsTo(dir, env, command, left);
    }
    InnerScriptReadsTo(dir, env, command, |command|);
    assert PrefixTokens(dir, env) + [] == PrefixTokens(dir, env);
  }

  lemma InnerScriptReadsTo(dir: string, env: Env, command: string, left: nat)
    requires dir != "" && AllPlain(dir) && EnvOk(env) && left <= |command|
    ensures Lex(Outside, InWorkspace(dir, ScriptPrefix(env, command)), left)
         == Prepend(PrefixTokens(dir, env), Lex(Outside, command, left))
  {
    LexPrefix(env, command, left);
    LexWorkspace(dir, ScriptPrefix(env, command), left);
    var r := Lex(Outside, command, left);
    ExportsThenIs(env, Operator(";"), r);
    WorkspaceThenIs(dir, Prepend(ExportTokens(env, Operator(";")), r));
    PrependTwice(WorkspaceTokens(dir), ExportTokens(env, Operator(";")), r);
  }

  /** The condition on the directory is exact: the shell reads it back as one word if and only if it is plain, and not empty. */
  lemma DirectoryIsReadExactlyWhen(dir: string, rest: string)
    ensures Lex(Outside, Sp("cd", Sp(dir, rest)), |rest|) == Reading([Word("cd"), Word(dir)], Outside, rest) <==>
              dir != "" && AllPlain(dir)
  {
    LexBare("cd", Sp(dir, rest), |rest|);
    BareWordExactlyWhen(dir, rest);
    var r := Lex(Outside, Sp(dir, rest), |rest|);
    assert [Word("cd"), Word(dir)] == [Word("cd")] + [Word(dir)];
    assert ([Word("cd")] + r.tokens)[1..] == r.tokens && [Word("cd"), Word(dir)][1..] == [Word(dir)];
  }

  /** A directory with a semicolon ends one command and starts another. */
  lemma SemicolonStartsACommand(a: string, b: string, rest: string)
    requires a != "" && AllPlain(a) && b != "" && AllPlain(b)
    ensures Lex(Outside, Sp(a + (";" + b), rest), |rest|)
         == Put(Word(a), Put(Operator(";"), Reading([Word(b)], Outside, rest)))
  {
    SemicolonText(a, b, rest);
    LexTwoWords(a, b, rest);
  }

  lemma SemicolonText(a: string, b: string, rest: string)
    ensures Sp(a + (";" + b), rest) == a + (";" + Sp(b, rest))
  {
  }

  lemma LexTwoWords(a: string, b: string, rest: string)
    requires a != "" && AllPlain(a) && b != "" && AllPlain(b)
    ensures Lex(Outside, a + (";" + Sp(b, rest)), |rest|)
         == Put(Word(a), Put(Operator(";"), Reading([Word(b)], Outside, rest)))
  {
    LexPlain(Outside, a, ";" + Sp(b, rest), |rest|);
    assert "" + a == a;
    LexSemicolon(a, AllDigits(a), b, rest);
  }

  lemma LexSemicolon(word: string, digits: bool, b: string, rest: string)
    requires b != "" && AllPlain(b)
    ensures Lex(InWord(word, digits), ";" + Sp(b, rest), |rest|)
         == Put(Word(word), Put(Operator(";"), Reading([Word(b)], Outside, rest)))
  {
    assert (";" + Sp(b, rest))[1] == b[0];
    assert OperatorLength(";" + Sp(b, rest)) == 1;
    LexOperator(InWord(word, digits), ";", Sp(b, rest), |rest|);
    BareWordExactlyWhen(b, rest);
  }

  lemma {:induction false} EscapeHasNoNul(text: string)
    requires NoNul(text)
    ensures NoNul(Quote(text)) && NoNul(Escape(text))
  {
    if text != "" {
      EscapeHasNoNul(text[1..]);
    }
  }

  lemma PlainHasNoNul(s: string)
    requires AllPlain(s)
    ensures NoNul(s)
  {
  }

  lemma {:induction false} PrefixHasNoNul(env: Env, command: string)
    requires EnvOk(env) && NoNul(command)
    ensures NoNul(ScriptPrefix(env, command))
    decreases env
  {
    if env != [] {
      assert EntryOk(env[0]);
      EnvNameIsPlain(env[0].0);
      PlainHasNoNul(env[0].0 + "=");
      EscapeHasNoNul(env[0].1);
      PrefixHasNoNul(env[1..], command);
    }
  }

  /**
    * Both quotings together, for every command without NUL: bash receives the inner script as one word,
    * and reading that word gives back the directory and the original variables, then the command.
    */
  lemma BothQuotingsRoundTrip(dir: string, env: Env, command: string, ceiling: nat)
    requires dir != "" && AllPlain(dir) && EnvOk(env) && NoNul(command)
    ensures var inner := InWorkspace(dir, ScriptPrefix(env, command));
            && Tokenize(WithCeiling(inner, ceiling)) == Some(CeilingTokens(inner, ceiling))
            && Lex(Outside, inner, |command|) == Reading(PrefixTokens(dir, env), Outside, command)
  {
    PlainHasNoNul(dir);
    PrefixHasNoNul(env, command);
    CeilingKeepsTheScript(InWorkspace(dir, ScriptPrefix(env, command)), ceiling);
    InnerScriptReads(dir, env, command);
  }
}
