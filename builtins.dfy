/** The builtin registry, the builtins' argument checks and the status translation of
    `executeProcess` (src/shell_builtins.c:285-603). What a builtin does to the process
    (chdir, getcwd, dup2, exit, writing the prompt) and what fork/exec/wait report are
    supplied by a `Runtime` oracle. */
module Builtins {
  import opened Wrappers
  import opened ShellHistory

  /** The execution functions a SimpleCommand's `execute` pointer can hold. */
  datatype Handler = Cd | Pwd | Exit | HistoryBuiltin | Prompt | ExternalProcess

  /** `commandRegistry`, without its NULL terminator. */
  const Registry: seq<(string, Handler)> :=
    [("cd", Cd), ("pwd", Pwd), ("exit", Exit), ("history", HistoryBuiltin), ("prompt", Prompt)]

  /** The registry loop of `getExecutionFunction` from entry `i`. */
  function LookupFrom(name: string, i: nat): (h: Handler)
    requires i <= |Registry|
    ensures h == ExternalProcess <==> forall j :: i <= j < |Registry| ==> Registry[j].0 != name
    ensures h != ExternalProcess ==> exists j :: i <= j < |Registry| && Registry[j] == (name, h)
    decreases |Registry| - i
  {
    if i == |Registry| then ExternalProcess
    else if Registry[i].0 == name then Registry[i].1
    else LookupFrom(name, i + 1)
  }

  /** `getExecutionFunction`: exactly the five builtin names select a builtin, and every
      other name selects `executeProcess`. */
  function GetExecutionFunction(name: string): (h: Handler)
    ensures h == Cd <==> name == "cd"
    ensures h == Pwd <==> name == "pwd"
    ensures h == Exit <==> name == "exit"
    ensures h == HistoryBuiltin <==> name == "history"
    ensures h == Prompt <==> name == "prompt"
    ensures h == ExternalProcess <==> name !in ["cd", "pwd", "exit", "history", "prompt"]
  {
    LookupFrom(name, 0)
  }

  // ---------------------------------------------------------------------------------------
  // Numeric arguments
  // ---------------------------------------------------------------------------------------

  predicate IsDigit(c: char) {
    '0' <= c <= '9'
  }

  /** `strspn(s, "0123456789") == strlen(s)`; it holds for the empty string. */
  predicate IsAllDigits(s: string) {
    forall k :: 0 <= k < |s| ==> IsDigit(s[k])
  }

  /** `atoi` of an all-digit string, as an unbounded number. */
  function DigitsValue(s: string): (n: nat)
    requires IsAllDigits(s)
    ensures s == [] ==> n == 0
  {
    if s == [] then 0 else DigitsValue(s[..|s| - 1]) * 10 + (s[|s| - 1] as int - '0' as int)
  }

  lemma DigitsValueExamples()
    ensures DigitsValue("0") == 0
    ensures DigitsValue("12") == 12
    ensures DigitsValue("007") == 7
  {
    assert "12"[..1] == "1";
    assert "007"[..2] == "00" && "00"[..1] == "0";
  }

  // ---------------------------------------------------------------------------------------
  // The oracle
  // ---------------------------------------------------------------------------------------

  /** What `waitpid` reports: failure, or the raw status word of the child. */
  datatype WaitResult = WaitFailed | Reaped(status: nat)

  /** What `fork` reports to the parent, and what the wait then gives. */
  datatype SpawnResult = ForkFailed | Forked(pid: nat, wait: WaitResult)

  /** Where an invocation happens: the number of the Command in its chain and of the stage
      in its Command. */
  datatype Position = Position(command: nat, stage: nat)

  /** The process environment, indexed by the position of the invocation so that the same
      command run twice need not behave the same: `effect` reports whether a builtin's side
      effect succeeded once its arguments are accepted (0 for success: the chdir, the getcwd
      and dup2 of `pwd`, the dup2 of `history`), `spawn` the fate of an external command.
      `prompt`'s copy cannot fail and `exit` does not return to the shell. */
  datatype Runtime = Runtime(effect: (Position, Handler, seq<string>) -> int, spawn: (Position, seq<string>) -> SpawnResult)

  /** What `execute(simpleCommand)` returns, and the pid it stores (None: left as it was). */
  datatype Outcome = Outcome(status: int, pid: Option<nat>)

  // ---------------------------------------------------------------------------------------
  // executeProcess
  // ---------------------------------------------------------------------------------------

  /** `WEXITSTATUS`: bits 8 to 15 of the status word. */
  function ExitCode(w: nat): (c: int)
    ensures 0 <= c < 256
  {
    (w / 256) % 256
  }

  /** The parent's side of `executeProcess`. */
  function ProcessStatus(noWait: bool, spawned: SpawnResult): (r: int)
    ensures r == -1 <==> spawned.ForkFailed? || (!noWait && spawned.wait.WaitFailed?)
    ensures r != -1 ==> 0 <= r < 256
    ensures spawned.Forked? && noWait ==> r == 0
    ensures spawned.Forked? && !noWait && spawned.wait.Reaped? ==> r == ExitCode(spawned.wait.status)
  {
    match spawned
    case ForkFailed => -1
    case Forked(_, wait) =>
      if noWait then 0
      else match wait
        case WaitFailed => -1
        case Reaped(w) => if ExitCode(w) != 0 then ExitCode(w) else 0
  }

  /** A child killed by a signal has exit code 0 in its status word, so the stage counts as
      a success; a child whose `execvp` failed exits with 1. */
  lemma ProcessStatusExamples()
    ensures ProcessStatus(false, Forked(7, Reaped(9))) == 0
    ensures ProcessStatus(false, Forked(7, Reaped(256))) == 1
    ensures ProcessStatus(true, Forked(7, WaitFailed)) == 0
  {
  }

  // ---------------------------------------------------------------------------------------
  // Builtins
  // ---------------------------------------------------------------------------------------

  /** The argument counts each builtin accepts (`args` includes the name): `cd` takes at
      most one argument, `pwd` none, `prompt` exactly one, `history` at most one, and `exit`
      none or one made of digits. */
  predicate ArityOk(h: Handler, args: seq<string>) {
    match h
    case Cd => |args| <= 2
    case Pwd => |args| <= 1
    case Exit => |args| <= 1 || (|args| == 2 && IsAllDigits(args[1]))
    case HistoryBuiltin => |args| <= 2
    case Prompt => |args| == 2
    case ExternalProcess => true
  }

  /** The entry `history <arg>` selects: by 1-based index when the argument is all digits,
      otherwise the latest entry starting with it. */
  function HistoryTarget(arg: string, hist: seq<string>): (r: Option<string>)
    ensures IsAllDigits(arg) ==> (r.Some? <==> 1 <= DigitsValue(arg) <= |hist|)
    ensures IsAllDigits(arg) && r.Some? ==> r.value == hist[DigitsValue(arg) - 1]
    ensures !IsAllDigits(arg) && r.Some? ==>
              exists j :: 0 <= j < |hist| && r.value == hist[j] && StartsWith(hist[j], arg)
                       && forall i :: j < i < |hist| ==> !StartsWith(hist[i], arg)
    ensures !IsAllDigits(arg) && r.None? ==> forall j :: 0 <= j < |hist| ==> !StartsWith(hist[j], arg)
  {
    if IsAllDigits(arg) then GetCommand(hist, DigitsValue(arg))
    else FindLastWithPrefix(Some(hist), Some(arg))
  }

  /** The status of the `history` builtin; `setUp` is what `setUpFD` reports. The listing and
      the re-execution of the selected entry are not part of this model. */
  function HistoryStatus(args: seq<string>, hist: seq<string>, setUp: int): (r: int)
    requires |args| >= 1
    ensures r == 0 || r == -1
    ensures |args| > 2 ==> r == -1
    ensures |args| <= 2 && setUp != 0 ==> r == -1
    ensures |args| == 1 && setUp == 0 ==> r == 0
    ensures |args| == 2 && setUp == 0 ==> (r == 0 <==> HistoryTarget(args[1], hist).Some?)
  {
    if |args| > 2 then -1
    else if setUp != 0 then -1
    else if |args| == 1 then 0
    else if HistoryTarget(args[1], hist).None? then -1
    else 0
  }

  /** `history ""` and `history 0` ask for entry 0, which `get_command` as written cannot
      serve on a non-empty history; the corrected lookup refuses them. */
  lemma HistoryIndexZero(hist: seq<string>, setUp: int)
    requires |hist| > 0 && setUp == 0
    ensures GetCommandAsWritten(hist, DigitsValue("0")) == NullDereference
    ensures HistoryStatus(["history", "0"], hist, setUp) == -1
    ensures HistoryStatus(["history", ""], hist, setUp) == -1
  {
    GetCommandAsWrittenDereferencesNull(hist, 0);
  }

  /** `simpleCommand->execute(simpleCommand)` for a stage with arguments `args` (the first is
      the name) at position `call`. */
  function Invoke(rt: Runtime, call: Position, h: Handler, args: seq<string>, noWait: bool, hist: seq<string>): (o: Outcome)
    requires |args| >= 1
    ensures h != ExternalProcess ==> o.pid.None?
    ensures !ArityOk(h, args) ==> o.status == -1
    ensures ArityOk(h, args) && h in {Cd, Pwd} ==> (o.status == 0 <==> rt.effect(call, h, args) == 0)
    ensures h in {Cd, Pwd} ==> o.status in {0, -1}
    ensures h == Prompt ==> (o.status == 0 <==> |args| == 2)
    ensures h == Prompt ==> o.status in {0, -1}
    ensures ArityOk(h, args) && h == Exit ==> o.status == rt.effect(call, h, args)
    ensures h == HistoryBuiltin ==> o.status == HistoryStatus(args, hist, rt.effect(call, h, args))
    ensures h == ExternalProcess ==> o.status == ProcessStatus(noWait, rt.spawn(call, args))
    ensures h == ExternalProcess ==> (o.pid.Some? <==> rt.spawn(call, args).Forked?)
  {
    match h
    case Cd => Outcome(if |args| > 2 || rt.effect(call, h, args) != 0 then -1 else 0, None)
    case Pwd => Outcome(if |args| > 1 || rt.effect(call, h, args) != 0 then -1 else 0, None)
    case Exit =>
      if |args| > 2 then Outcome(-1, None)
      else if |args| == 1 then Outcome(rt.effect(call, h, args), None)
      else if !IsAllDigits(args[1]) then Outcome(-1, None)
      else Outcome(rt.effect(call, h, args), None)
    case HistoryBuiltin => Outcome(HistoryStatus(args, hist, rt.effect(call, h, args)), None)
    case Prompt =>
      if |args| == 1 then Outcome(-1, None)
      else if |args| > 2 then Outcome(-1, None)
      else Outcome(0, None)
    case ExternalProcess =>
      var spawned := rt.spawn(call, args);
      Outcome(ProcessStatus(noWait, spawned), if spawned.Forked? then Some(spawned.pid) else None)
  }
}
