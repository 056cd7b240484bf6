/** The values the data structures of include/command.h hold, as the parser builds them and
    the executor reads and updates them: a SimpleCommand is a `Stage`, a Command a
    `Pipeline`. The classes that hold these values are in the Commands module. */
module Pipelines {
  import opened Wrappers
  import opened Utils
  import opened Builtins

  /** One SimpleCommand: the name, the arguments before the NULL sentinel (the name first),
      the three descriptors, the background flag `noWait`, the child's pid and the execution
      function. */
  datatype Stage = Stage(
    name: Option<string>,
    args: seq<string>,
    inputFd: Fd,
    outputFd: Fd,
    stderrFd: Fd,
    noWait: bool,
    pid: int,
    handler: Option<Handler>)

  /** What `initSimpleCommand` produces. */
  const FreshStage: Stage := Stage(None, [], STDIN_FD, STDOUT_FD, STDERR_FD, false, -1, None)

  /** A stage as `pushArgs` keeps it: it has a name exactly when it has arguments, and the
      name is the first argument. */
  predicate WellFormed(s: Stage) {
    && (s.name.None? <==> s.args == [])
    && (s.name.Some? ==> s.args[0] == s.name.value)
  }

  /** `pushArgs` on a stage: a copy of `arg` is appended, and it becomes the name when it is
      the first argument. */
  function Push(s: Stage, arg: string): Stage {
    s.(args := s.args + [Copy(arg)], name := if s.args == [] then Some(Copy(arg)) else s.name)
  }

  /** Pushing `args` one after the other. */
  function PushAll(s: Stage, args: seq<string>): Stage
    decreases |args|
  {
    if args == [] then s else Push(PushAll(s, args[..|args| - 1]), args[|args| - 1])
  }

  /** `pushArgs` keeps a stage well formed, adds exactly the copied argument at the end, and
      names the stage only on the first push; the descriptors and flags are untouched. */
  lemma PushProperties(s: Stage, arg: string)
    requires WellFormed(s)
    ensures WellFormed(Push(s, arg))
    ensures Push(s, arg).args == s.args + [Copy(arg)]
    ensures Push(s, arg).name == (if s.name.None? then Some(Copy(arg)) else s.name)
    ensures Push(s, arg).(args := s.args, name := s.name) == s
  {
  }

  /** Pushing a list of arguments appends their copies in order; the first one names a
      nameless stage. */
  lemma {:induction false} PushAllProperties(s: Stage, args: seq<string>)
    requires WellFormed(s)
    ensures WellFormed(PushAll(s, args))
    ensures |PushAll(s, args).args| == |s.args| + |args|
    ensures PushAll(s, args).args[..|s.args|] == s.args
    ensures forall k :: 0 <= k < |args| ==> PushAll(s, args).args[|s.args| + k] == Copy(args[k])
    ensures PushAll(s, args).name == (if s.name.None? && args != [] then Some(Copy(args[0])) else s.name)
    ensures PushAll(s, args).(args := s.args, name := s.name) == s
    decreases |args|
  {
    if args != [] {
      var init := args[..|args| - 1];
      PushAllProperties(s, init);
      PushProperties(PushAll(s, init), args[|args| - 1]);
      assert forall k :: 0 <= k < |init| ==> init[k] == args[k];
    }
  }

  /** One Command: its stages in pipeline order, whether it runs in the background and the
      operator that ended it. */
  datatype Pipeline = Pipeline(stages: seq<Stage>, background: bool, chainingOperator: Option<string>)

  /** What `initCommand` produces. */
  const FreshPipeline: Pipeline := Pipeline([], false, None)
}
