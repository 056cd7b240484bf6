/** What `parseTokens` (src/parser.c) computes, as a walk over the token array. The array is
    a sequence whose index `|ts|` stands for the NULL sentinel. The parser's calls to `open`,
    `pipe` and `glob` are answered by an `Os`; descriptors it opens come from the table
    `fds`. A walk either builds the list of pipelines, fails (the C function returns NULL),
    or reaches a redirection whose file name would be the sentinel, where the C code hands
    NULL to `open` and, if that returned a descriptor, would step past the end of the array. */
module ParserSpec {
  import opened Wrappers
  import opened Utils
  import opened Tokens
  import opened System
  import opened Builtins
  import opened Pipelines
  import opened Executor

  /** The parser's variables at the top of the token loop: the tokens (the quote step
      overwrites entries in place), the index, the open descriptors, the Commands already
      added to the chain, the current Command's SimpleCommands and the current one. */
  datatype Walk = Walk(ts: seq<string>, i: nat, fds: set<Fd>, done: seq<Pipeline>, stages: seq<Stage>, sc: Stage)

  /** One token, or one segment: go on from `w`, return NULL, or run past the sentinel. */
  datatype StepResult = Next(w: Walk) | Fail(fds: set<Fd>, ts: seq<string>) | Overrun

  /** The result of the whole parse. */
  datatype ParseOutcome =
    | Parsed(pipelines: seq<Pipeline>, fds: set<Fd>, ts: seq<string>)
    | Failed(fds: set<Fd>, ts: seq<string>)
    | OverrunSentinel

  /** The stream a redirection replaces. */
  datatype Stream = Input | Output | Error

  function SetStream(s: Stage, stream: Stream, fd: Fd): Stage {
    match stream
    case Input => s.(inputFd := fd)
    case Output => s.(outputFd := fd)
    case Error => s.(stderrFd := fd)
  }

  /** A SimpleCommand as it is added to its Command: the execution function is the one
      registered for its name. */
  function Named(s: Stage): Stage
    requires s.name.Some?
  {
    s.(handler := Some(GetExecutionFunction(s.name.value)))
  }

  /** The `do { ... } while (IGNORE(...))` loop that looks for a file name: the first token
      at or after `j` that is not ignorable, or the sentinel. */
  function Target(ts: seq<string>, j: nat): (k: nat)
    requires j <= |ts|
    ensures j <= k <= |ts|
    ensures forall m :: j <= m < k ==> Ignorable(Some(ts[m]))
    ensures k < |ts| ==> !Ignorable(Some(ts[k]))
    decreases |ts| - j
  {
    if j == |ts| || !Ignorable(Some(ts[j])) then j else Target(ts, j + 1)
  }

  /** The open flags of each redirection: `>>` appends, `>` and `2>` truncate, both create
      with mode 0644; `<` reads. */
  function RedirectionFlags(t: string): OpenFlags {
    if IsFileInRedir(t) then ReadOnly
    else if IsAppend(t) then WriteCreateAppend(CREATE_MODE)
    else WriteCreateTruncate(CREATE_MODE)
  }

  function RedirectionStream(t: string): Stream {
    if IsFileInRedir(t) then Input else if IsStderrRedir(t) then Error else Output
  }

  /** A redirection whose checks have passed: find the file name, open it and store the
      descriptor; the index stops on the file name. */
  function Redirect(os: Os, w: Walk, stream: Stream, flags: OpenFlags): (r: StepResult)
    requires w.i < |w.ts|
  {
    var j := Target(w.ts, w.i + 1);
    if j == |w.ts| then Overrun
    else
      var fd := Open(os, w.fds, w.ts[j], flags);
      if fd == -1 then Fail(w.fds, w.ts)
      else Next(w.(i := j, fds := w.fds + {fd}, sc := SetStream(w.sc, stream, fd)))
  }

  /** The body of the token loop for token `i`, branch by branch in the order of the C
      `if`/`else if` chain. A step never closes a descriptor, never touches the finished
      Commands and leaves the index on a token. */
  function Step(os: Os, w: Walk): (r: StepResult)
    requires w.i < |w.ts|
    ensures r.Next? ==> w.i <= r.w.i < |r.w.ts| == |w.ts| && r.w.done == w.done && w.fds <= r.w.fds
    ensures r.Fail? ==> r.fds == w.fds && |r.ts| == |w.ts|
  {
    var t := w.ts[w.i];
    if IsPipe(t) then
      if w.sc.name.None? || w.sc.outputFd != STDOUT_FD then Fail(w.fds, w.ts)
      else match Pipe(os, w.fds)
        case None => Fail(w.fds, w.ts)
        case Some(ends) =>
          Next(w.(fds := w.fds + {ends.0, ends.1},
                  stages := w.stages + [Named(w.sc.(outputFd := ends.1))],
                  sc := FreshStage.(inputFd := ends.0)))
    else if IsFileOutRedir(t) then
      if w.sc.name.None? || w.sc.outputFd != STDOUT_FD then Fail(w.fds, w.ts)
      else Redirect(os, w, Output, RedirectionFlags(t))
    else if IsFileInRedir(t) then
      if w.sc.inputFd != STDIN_FD then Fail(w.fds, w.ts)
      else Redirect(os, w, Input, ReadOnly)
    else if IsStderrRedir(t) then
      if w.sc.stderrFd != STDERR_FD then Fail(w.fds, w.ts)
      else Redirect(os, w, Error, RedirectionFlags(t))
    else if Ignorable(Some(t)) then
      Next(w)
    else if w.sc.name.None? && t[0] == '!' && |t| > 1 then
      Next(w.(sc := Push(Push(w.sc, "history"), t[1..])))
    else
      var stripped := RemoveQuotes(t);
      var ts := w.ts[w.i := stripped];
      match Expand(os, stripped)
      case None => Fail(w.fds, ts)
      case Some(paths) => Next(w.(ts := ts, sc := PushAll(w.sc, paths)))
  }

  /** The token loop of one segment: it runs until a chaining operator or the sentinel. A
      segment that ends stops on that operator or on the sentinel. */
  function Segment(os: Os, w: Walk): (r: StepResult)
    requires w.i <= |w.ts|
    ensures r.Next? ==> w.i <= r.w.i <= |r.w.ts| == |w.ts| && r.w.done == w.done && w.fds <= r.w.fds
    ensures r.Next? ==> r.w.i < |r.w.ts| ==> IsChainingOperator(r.w.ts[r.w.i])
    ensures r.Fail? ==> w.fds <= r.fds && |r.ts| == |w.ts|
    decreases |w.ts| - w.i
  {
    if w.i == |w.ts| || IsChainingOperator(w.ts[w.i]) then Next(w)
    else match Step(os, w)
      case Next(n) => Segment(os, n.(i := n.i + 1))
      case Fail(fds, ts) => Fail(fds, ts)
      case Overrun => Overrun
  }

  /** A segment that takes a step at a token that is not a chaining operator goes on from
      the next token. */
  lemma SegmentGoesOn(os: Os, w: Walk, next: Walk)
    requires w.i < |w.ts| && !IsChainingOperator(w.ts[w.i]) && Step(os, w).Next?
    requires next == Step(os, w).w.(i := Step(os, w).w.i + 1)
    ensures Segment(os, next) == Segment(os, w)
  {
  }

  /** A segment whose step fails at a token that is not a chaining operator fails there. */
  lemma SegmentFailsAt(os: Os, w: Walk)
    requires w.i < |w.ts| && !IsChainingOperator(w.ts[w.i]) && Step(os, w).Fail?
    ensures Segment(os, w) == Fail(Step(os, w).fds, Step(os, w).ts)
  {
  }

  /** A new Command and SimpleCommand at the start of a segment. */
  function Begin(w: Walk): Walk {
    w.(stages := [], sc := FreshStage)
  }

  /** The end of a segment: the current SimpleCommand joins the Command when it has a name;
      the Command records a copy of the token it stopped on (NULL at the end) and runs in the
      background exactly when that token is `&`; it joins the chain and the index moves past
      the operator. */
  function EndSegment(w: Walk): Walk
    requires w.i <= |w.ts|
  {
    w.(done := w.done + [Closed(w)], i := if w.i < |w.ts| then w.i + 1 else w.i)
  }

  /** The Command a segment that stopped at `w` produces. */
  function Closed(w: Walk): Pipeline
    requires w.i <= |w.ts|
  {
    var stages := if w.sc.name.Some? then w.stages + [Named(w.sc)] else w.stages;
    var op := if w.i < |w.ts| then Some(Copy(w.ts[w.i])) else None;
    Pipeline(stages, IsBackground(op), op)
  }

  /** The outer loop of `parseTokens`, from `w`. Finished Commands are only ever added at
      the end, and no descriptor is closed, on success or on failure. */
  function ParseFrom(os: Os, w: Walk): (r: ParseOutcome)
    requires w.i <= |w.ts|
    ensures r.Parsed? ==> w.done <= r.pipelines && w.fds <= r.fds && |r.ts| == |w.ts|
    ensures r.Failed? ==> w.fds <= r.fds && |r.ts| == |w.ts|
    decreases |w.ts| - w.i
  {
    if w.i == |w.ts| then Parsed(w.done, w.fds, w.ts)
    else match Segment(os, Begin(w))
      case Next(e) => ParseFrom(os, EndSegment(e))
      case Fail(fds, ts) => Failed(fds, ts)
      case Overrun => OverrunSentinel
  }

  /** A segment that ends lets the outer loop go on after it ... */
  lemma ParseGoesOn(os: Os, w: Walk, next: Walk)
    requires w.i < |w.ts| && Segment(os, Begin(w)).Next?
    requires next == EndSegment(Segment(os, Begin(w)).w)
    ensures ParseFrom(os, next) == ParseFrom(os, w)
  {
  }

  /** ... a segment that fails makes the parse fail with its descriptors and tokens ... */
  lemma ParseFailsAt(os: Os, w: Walk)
    requires w.i < |w.ts| && Segment(os, Begin(w)).Fail?
    ensures ParseFrom(os, w) == Failed(Segment(os, Begin(w)).fds, Segment(os, Begin(w)).ts)
  {
  }

  /** ... and a segment runs past the sentinel only when the parse does. */
  lemma ParseOverrunsAt(os: Os, w: Walk)
    requires w.i < |w.ts| && !ParseFrom(os, w).OverrunSentinel?
    ensures !Segment(os, Begin(w)).Overrun?
  {
  }

  /** `parseTokens(tokens)` run with the descriptor table `fds`. */
  function Parse(os: Os, ts: seq<string>, fds: set<Fd>): ParseOutcome {
    ParseFrom(os, Walk(ts, 0, fds, [], [], FreshStage))
  }

  // ---------------------------------------------------------------------------------------
  // The rules of each branch
  // ---------------------------------------------------------------------------------------

  /** `|`: refused before a command name, after the output was redirected, or when `pipe`
      fails. Otherwise the current SimpleCommand writes into a new pipe and joins the
      Command, and the next one starts reading from the same pipe. */
  lemma PipeRules(os: Os, w: Walk)
    requires w.i < |w.ts| && IsPipe(w.ts[w.i])
    ensures Step(os, w).Fail? <==> w.sc.name.None? || w.sc.outputFd != STDOUT_FD || !os.canPipe(w.fds)
    ensures !Step(os, w).Overrun?
    ensures Step(os, w).Next? ==>
              var n := Step(os, w).w;
              var (rd, wr) := PipeEnds(w.fds);
              && rd !in w.fds && wr !in w.fds && rd != wr
              && n.fds == w.fds + {rd, wr}
              && n.stages == w.stages + [Named(w.sc.(outputFd := wr))]
              && n.sc == FreshStage.(inputFd := rd)
              && n.i == w.i && n.ts == w.ts
  {
  }

  /** `>` and `>>`: refused before a command name or after the output was redirected; the
      file name is the next token that is not ignorable; `>>` opens for appending and `>`
      truncates, both creating with mode 0644; a failed `open` is refused, and otherwise
      the new descriptor becomes the output. */
  lemma OutputRedirectionRules(os: Os, w: Walk)
    requires w.i < |w.ts| && IsFileOutRedir(w.ts[w.i])
    ensures w.sc.name.None? || w.sc.outputFd != STDOUT_FD ==> Step(os, w) == Fail(w.fds, w.ts)
    ensures w.sc.name.Some? && w.sc.outputFd == STDOUT_FD ==>
              var j := Target(w.ts, w.i + 1);
              var flags := if IsAppend(w.ts[w.i]) then WriteCreateAppend(CREATE_MODE) else WriteCreateTruncate(CREATE_MODE);
              && (j == |w.ts| ==> Step(os, w).Overrun?)
              && (j < |w.ts| ==>
                    && (Step(os, w).Fail? <==> !os.canOpen(w.ts[j], flags))
                    && (Step(os, w).Next? ==>
                          Step(os, w).w == w.(i := j, fds := w.fds + {LowestFree(w.fds)}, sc := w.sc.(outputFd := LowestFree(w.fds)))))
  {
  }

  /** `<`: refused only when the input was already redirected (a command name is not
      needed); the file is opened read-only. */
  lemma InputRedirectionRules(os: Os, w: Walk)
    requires w.i < |w.ts| && IsFileInRedir(w.ts[w.i])
    ensures w.sc.inputFd != STDIN_FD ==> Step(os, w) == Fail(w.fds, w.ts)
    ensures w.sc.inputFd == STDIN_FD ==>
              var j := Target(w.ts, w.i + 1);
              && (j == |w.ts| ==> Step(os, w).Overrun?)
              && (j < |w.ts| ==>
                    && (Step(os, w).Fail? <==> !os.canOpen(w.ts[j], ReadOnly))
                    && (Step(os, w).Next? ==>
                          Step(os, w).w == w.(i := j, fds := w.fds + {LowestFree(w.fds)}, sc := w.sc.(inputFd := LowestFree(w.fds)))))
  {
  }

  /** `2>`: refused only when standard error was already redirected; the file is created
      or truncated with mode 0644. */
  lemma StderrRedirectionRules(os: Os, w: Walk)
    requires w.i < |w.ts| && IsStderrRedir(w.ts[w.i])
    ensures w.sc.stderrFd != STDERR_FD ==> Step(os, w) == Fail(w.fds, w.ts)
    ensures w.sc.stderrFd == STDERR_FD ==>
              var j := Target(w.ts, w.i + 1);
              && (j == |w.ts| ==> Step(os, w).Overrun?)
              && (j < |w.ts| ==>
                    && (Step(os, w).Fail? <==> !os.canOpen(w.ts[j], WriteCreateTruncate(CREATE_MODE)))
                    && (Step(os, w).Next? ==>
                          Step(os, w).w == w.(i := j, fds := w.fds + {LowestFree(w.fds)}, sc := w.sc.(stderrFd := LowestFree(w.fds)))))
  {
  }

  /** A second `<` or `2>` on one SimpleCommand is refused, whatever the token after it. */
  lemma SecondRedirectionFails(os: Os, w: Walk, fd: Fd)
    requires w.i < |w.ts| && (IsFileInRedir(w.ts[w.i]) || IsStderrRedir(w.ts[w.i]))
    requires fd !in {STDIN_FD, STDOUT_FD, STDERR_FD}
    ensures IsFileInRedir(w.ts[w.i]) ==> Step(os, w.(sc := w.sc.(inputFd := fd))).Fail?
    ensures IsStderrRedir(w.ts[w.i]) ==> Step(os, w.(sc := w.sc.(stderrFd := fd))).Fail?
  {
  }

  /** Space, tab, newline and empty tokens change nothing. */
  lemma IgnorableRule(os: Os, w: Walk)
    requires w.i < |w.ts| && Ignorable(Some(w.ts[w.i]))
    ensures Step(os, w) == Next(w)
  {
  }

  /** `!x` before a command name becomes the arguments `history x`, with `x` neither
      quote-stripped nor expanded: no file-system answer is consulted and the token is not
      rewritten. */
  lemma HistoryBangRule(os: Os, os': Os, w: Walk)
    requires w.i < |w.ts| && WellFormed(w.sc) && w.sc.name.None?
    requires var t := w.ts[w.i]; |t| > 1 && t[0] == '!' && !IsChainingOperator(t) && !IsPipe(t) && !IsRedirection(t)
    ensures Step(os, w).Next?
    ensures Step(os, w).w.sc.args == ["history", Copy(w.ts[w.i][1..])]
    ensures Step(os, w).w.sc.name == Some("history")
    ensures Step(os, w).w == w.(sc := Step(os, w).w.sc)
    ensures Step(os, w) == Step(os', w)
  {
    var t := w.ts[w.i];
    assert !Ignorable(Some(t));
    PushProperties(w.sc, "history");
    PushProperties(Push(w.sc, "history"), t[1..]);
  }

  /** A plain token is quote-stripped in place and expanded; every path of the expansion
      is pushed, in order, and an unmatched pattern is pushed as itself. A `glob` error is
      refused. */
  lemma WordRule(os: Os, w: Walk)
    requires w.i < |w.ts| && WellFormed(w.sc)
    requires var t := w.ts[w.i]; !IsPipe(t) && !IsRedirection(t) && !Ignorable(Some(t))
    requires var t := w.ts[w.i]; !(w.sc.name.None? && |t| > 1 && t[0] == '!')
    ensures var stripped := RemoveQuotes(w.ts[w.i]);
            && (Step(os, w).Fail? <==> os.glob(stripped).GlobError?)
            && (Step(os, w).Fail? ==> Step(os, w).ts == w.ts[w.i := stripped])
            && !Step(os, w).Overrun?
            && (Step(os, w).Next? ==>
                  var n := Step(os, w).w;
                  var paths := if os.glob(stripped).paths == [] then [stripped] else os.glob(stripped).paths;
                  && n.ts == w.ts[w.i := stripped]
                  && n.sc.args == w.sc.args + seq(|paths|, k requires 0 <= k < |paths| => Copy(paths[k]))
                  && n.sc.name == (if w.sc.name.None? then Some(Copy(paths[0])) else w.sc.name)
                  && n == w.(ts := n.ts, sc := n.sc)
                  && n.sc.(args := w.sc.args, name := w.sc.name) == w.sc)
  {
    var t := w.ts[w.i];
    var stripped := RemoveQuotes(t);
    if Expand(os, stripped).Some? {
      var paths := Expand(os, stripped).value;
      PushAllProperties(w.sc, paths);
      var n := Step(os, w).w;
      assert n.sc == PushAll(w.sc, paths);
      assert n.sc.args == w.sc.args + seq(|paths|, k requires 0 <= k < |paths| => Copy(paths[k]));
    }
  }

  /** The end of a segment: the current SimpleCommand joins the Command exactly when it
      has a name, with the execution function of that name; the Command's operator is a
      copy of the token the segment stopped on, NULL at the end, and it runs in the
      background exactly when that token is `&`. */
  lemma EndSegmentRules(w: Walk)
    requires w.i <= |w.ts|
    requires w.i < |w.ts| ==> IsChainingOperator(w.ts[w.i])
    ensures var e := EndSegment(w); var p := e.done[|e.done| - 1];
            && e.done[..|e.done| - 1] == w.done
            && (w.sc.name.Some? ==> p.stages == w.stages + [w.sc.(handler := Some(GetExecutionFunction(w.sc.name.value)))])
            && (w.sc.name.None? ==> p.stages == w.stages)
            && (w.i < |w.ts| ==> p.chainingOperator == Some(w.ts[w.i]) && e.i == w.i + 1)
            && (w.i == |w.ts| ==> p.chainingOperator.None? && e.i == w.i)
            && (p.background <==> p.chainingOperator == Some("&"))
  {
  }

  // ---------------------------------------------------------------------------------------
  // Properties of whole parses
  // ---------------------------------------------------------------------------------------

  /** A SimpleCommand as the parser adds it: well formed, named, and with the execution
      function of its name. */
  predicate Built(s: Stage) {
    WellFormed(s) && s.name.Some? && s.handler == Some(GetExecutionFunction(s.name.value))
  }

  /** A Command as the parser adds it: its SimpleCommands are built, its operator is a
      chaining operator or NULL, and it runs in the background exactly on `&`. */
  predicate Finished(p: Pipeline) {
    && (forall j :: 0 <= j < |p.stages| ==> Built(p.stages[j]))
    && (p.chainingOperator.Some? ==> IsChainingOperator(p.chainingOperator.value))
    && (p.background <==> p.chainingOperator == Some("&"))
  }

  /** The current Command while its segment is parsed. */
  predicate Building(w: Walk) {
    WellFormed(w.sc) && forall j :: 0 <= j < |w.stages| ==> Built(w.stages[j])
  }

  lemma StepBuilds(os: Os, w: Walk)
    requires w.i < |w.ts| && Building(w)
    ensures Step(os, w).Next? ==> Building(Step(os, w).w)
  {
    var t := w.ts[w.i];
    if Step(os, w).Next? && !IsPipe(t) && !IsRedirection(t) && !Ignorable(Some(t)) {
      if w.sc.name.None? && t[0] == '!' && |t| > 1 {
        PushProperties(w.sc, "history");
        PushProperties(Push(w.sc, "history"), t[1..]);
      } else {
        PushAllProperties(w.sc, Expand(os, RemoveQuotes(t)).value);
      }
    }
  }

  lemma {:induction false} SegmentBuilds(os: Os, w: Walk)
    requires w.i <= |w.ts| && Building(w)
    ensures Segment(os, w).Next? ==> Building(Segment(os, w).w)
    decreases |w.ts| - w.i
  {
    if w.i < |w.ts| && !IsChainingOperator(w.ts[w.i]) {
      StepBuilds(os, w);
      if Step(os, w).Next? {
        var n := Step(os, w).w;
        SegmentBuilds(os, n.(i := n.i + 1));
      }
    }
  }

  /** The finished Commands of a walk; only the last one may have stopped at the sentinel,
      and a walk that is not at the sentinel has not. */
  predicate Chained(w: Walk) {
    && (forall k :: 0 <= k < |w.done| ==> Finished(w.done[k]))
    && (forall k :: 0 <= k < |w.done| - 1 ==> w.done[k].chainingOperator.Some?)
    && (w.i < |w.ts| && w.done != [] ==> w.done[|w.done| - 1].chainingOperator.Some?)
  }

  /** The Command that ends a segment is finished. */
  lemma EndSegmentFinishes(e: Walk)
    requires e.i <= |e.ts| && Building(e)
    requires e.i < |e.ts| ==> IsChainingOperator(e.ts[e.i])
    ensures var n := EndSegment(e); |n.done| == |e.done| + 1 && n.done[..|e.done|] == e.done
    ensures Finished(EndSegment(e).done[|e.done|])
    ensures EndSegment(e).done[|e.done|].chainingOperator.None? ==> EndSegment(e).i == |e.ts|
  {
    var n := EndSegment(e);
    var p := n.done[|e.done|];
    if e.sc.name.Some? {
      assert p.stages == e.stages + [Named(e.sc)];
    }
  }

  lemma {:induction false} ParseFromChains(os: Os, w: Walk)
    requires w.i <= |w.ts| && Chained(w)
    ensures ParseFrom(os, w).Parsed? ==>
              var ps := ParseFrom(os, w).pipelines;
              && (forall k :: 0 <= k < |ps| ==> Finished(ps[k]))
              && (forall k :: 0 <= k < |ps| - 1 ==> ps[k].chainingOperator.Some?)
    decreases |w.ts| - w.i
  {
    if w.i < |w.ts| {
      var b := Begin(w);
      SegmentBuilds(os, b);
      if Segment(os, b).Next? {
        var e := Segment(os, b).w;
        EndSegmentFinishes(e);
        var n := EndSegment(e);
        assert Chained(n) by {
          assert forall k :: 0 <= k < |w.done| ==> n.done[k] == w.done[k];
        }
        ParseFromChains(os, n);
        assert ParseFrom(os, w) == ParseFrom(os, n);
      }
    }
  }

  /** Every Command of a parsed chain has built SimpleCommands, a chaining operator or NULL
      and the matching background flag, and only the last one can end without an operator;
      so the executor's precondition holds for what the parser produces. */
  lemma ParsedChainIsFinished(os: Os, ts: seq<string>, fds: set<Fd>)
    ensures Parse(os, ts, fds).Parsed? ==>
              var ps := Parse(os, ts, fds).pipelines;
              && (forall k :: 0 <= k < |ps| ==> Finished(ps[k]))
              && (forall k :: 0 <= k < |ps| - 1 ==> ps[k].chainingOperator.Some?)
              && AllReady(ps)
  {
    var w := Walk(ts, 0, fds, [], [], FreshStage);
    ParseFromChains(os, w);
    assert Parse(os, ts, fds) == ParseFrom(os, w);
  }

  /** The parse never closes a descriptor: whatever it opened before failing stays open. */
  lemma ParseKeepsDescriptors(os: Os, ts: seq<string>, fds: set<Fd>)
    ensures !Parse(os, ts, fds).OverrunSentinel? ==> fds <= Parse(os, ts, fds).fds
  {
  }

  // ---------------------------------------------------------------------------------------
  // Examples
  // ---------------------------------------------------------------------------------------

  /** No pattern matches anything, and every call succeeds. */
  const Plain: Os := Os((path, flags) => true, table => true, pattern => Matches([]))

  /** With the standard descriptors open, the next ones handed out are 3 and then 4. */
  lemma LowestFreeAfterStandard()
    ensures LowestFree({0, 1, 2}) == 3 && LowestFree({0, 1, 2, 3}) == 4
    ensures PipeEnds({0, 1, 2}) == (3, 4)
  {
  }

  /** A token that starts with a lower-case letter is no operator, is not ignorable and is
      no history reference. */
  lemma LetterWord(t: string)
    requires |t| > 0 && 'a' <= t[0] <= 'z'
    ensures !IsChainingOperator(t) && !IsPipe(t) && !IsRedirection(t) && !Ignorable(Some(t)) && t[0] != '!'
  {
  }

  /** A name that does not start like a builtin's selects `executeProcess`. */
  lemma ExternalName(t: string)
    requires |t| > 0 && t[0] !in "cdehp"
    ensures GetExecutionFunction(t) == ExternalProcess
  {
    assert t[0] != "cd"[0] && t[0] != "pwd"[0] && t[0] != "exit"[0] && t[0] != "history"[0] && t[0] != "prompt"[0];
  }

  /** How the operator tokens of the examples classify. */
  lemma OperatorLiterals()
    ensures IsPipe("|") && !IsChainingOperator("|")
    ensures IsFileOutRedir(">") && !IsAppend(">") && !IsPipe(">") && !IsChainingOperator(">")
    ensures IsFileInRedir("<") && !IsFileOutRedir("<") && !IsPipe("<") && !IsChainingOperator("<")
    ensures IsStderrRedir("2>") && !IsFileInRedir("2>") && !IsFileOutRedir("2>") && !IsPipe("2>") && !IsChainingOperator("2>")
    ensures Ignorable(Some(" "))
  {
    assert "|"[0] == '|' && ">"[0] == '>' && "<"[0] == '<' && "2>"[0] == '2';
  }

  /** A word with no quotes that matches nothing is pushed as itself. */
  lemma PlainWord(w: Walk, t: string)
    requires w.i < |w.ts| && w.ts[w.i] == t && 0 < |t| <= MAX_STRING_LENGTH && 'a' <= t[0] <= 'z'
    requires w.sc.args == [] && w.sc.name.None?
    ensures Step(Plain, w) == Next(w.(sc := w.sc.(args := [t], name := Some(t))))
  {
    LetterWord(t);
    assert RemoveQuotes(t) == t;
    assert w.ts[w.i := t] == w.ts;
    assert Plain.glob(t) == Matches([]);
    assert Expand(Plain, t) == Some([t]);
    assert PushAll(w.sc, [t]) == Push(PushAll(w.sc, []), t);
    assert Copy(t) == t;
  }

  /** `a | b` with the standard descriptors open: `a` writes into descriptor 4 and `b`
      reads from descriptor 3, the two ends of one pipe. */
  lemma PipeExample()
    ensures Parse(Plain, ["a", "|", "b"], {0, 1, 2}) ==
              Parsed([Pipeline([Stage(Some("a"), ["a"], 0, 4, 2, false, -1, Some(ExternalProcess)),
                                Stage(Some("b"), ["b"], 3, 1, 2, false, -1, Some(ExternalProcess))], false, None)],
                     {0, 1, 2, 3, 4}, ["a", "|", "b"])
  {
    OperatorLiterals();
    LowestFreeAfterStandard();
    LetterWord("a");
    LetterWord("b");
    ExternalName("a");
    ExternalName("b");
    var w0 := Walk(["a", "|", "b"], 0, {0, 1, 2}, [], [], FreshStage);
    PlainWord(w0, "a");
    var a := FreshStage.(args := ["a"], name := Some("a"));
    var w1 := w0.(i := 1, sc := a);
    var a' := Named(a.(outputFd := 4));
    var w2 := w1.(i := 2, fds := {0, 1, 2, 3, 4}, stages := [a'], sc := FreshStage.(inputFd := 3));
    assert Pipe(Plain, w1.fds) == Some((3, 4));
    assert Step(Plain, w1) == Next(w2.(i := 1));
    PlainWord(w2, "b");
    var b := FreshStage.(inputFd := 3, args := ["b"], name := Some("b"));
    var w3 := w2.(i := 3, sc := b);
    assert Segment(Plain, w3) == Next(w3);
    assert Segment(Plain, w2) == Segment(Plain, w3);
    assert Segment(Plain, w1) == Segment(Plain, w2);
    assert Segment(Plain, w0) == Segment(Plain, w1);
    assert Begin(w0) == w0;
    var e := EndSegment(w3);
    assert w3.stages + [Named(b)] == [a', Named(b)];
    assert !IsBackground(None);
    assert e == w3.(done := [Pipeline([a', Named(b)], false, None)]);
    assert ParseFrom(Plain, w0) == ParseFrom(Plain, e);
  }

  /** `a ; b &`: two Commands in input order; the first ends with `;` and runs in the
      foreground, the second ends with `&` and runs in the background. */
  lemma ChainExample()
    ensures Parse(Plain, ["a", ";", "b", "&"], {0, 1, 2}) ==
              Parsed([Pipeline([Stage(Some("a"), ["a"], 0, 1, 2, false, -1, Some(ExternalProcess))], false, Some(";")),
                      Pipeline([Stage(Some("b"), ["b"], 0, 1, 2, false, -1, Some(ExternalProcess))], true, Some("&"))],
                     {0, 1, 2}, ["a", ";", "b", "&"])
  {
    LetterWord("a");
    LetterWord("b");
    ExternalName("a");
    ExternalName("b");
    var ts := ["a", ";", "b", "&"];
    assert IsChainingOperator(ts[1]) && IsChainingOperator(ts[3]);
    assert Copy(";") == ";" && Copy("&") == "&";
    var w0 := Walk(ts, 0, {0, 1, 2}, [], [], FreshStage);
    PlainWord(w0, "a");
    var a := FreshStage.(args := ["a"], name := Some("a"));
    var w1 := w0.(i := 1, sc := a);
    assert Segment(Plain, w1) == Next(w1);
    assert Segment(Plain, w0) == Segment(Plain, w1);
    assert Begin(w0) == w0;
    var p := Pipeline([Named(a)], false, Some(";"));
    assert ts[1] == ";" && !IsBackground(Some(";"));
    assert w1.stages + [Named(a)] == [Named(a)];
    assert Closed(w1) == p;
    var e1 := EndSegment(w1);
    assert e1 == w1.(i := 2, done := [p]);
    var v0 := Begin(e1);
    PlainWord(v0, "b");
    var b := FreshStage.(args := ["b"], name := Some("b"));
    var v1 := v0.(i := 3, sc := b);
    assert Segment(Plain, v1) == Next(v1);
    assert Segment(Plain, v0) == Segment(Plain, v1);
    var q := Pipeline([Named(b)], true, Some("&"));
    assert ts[3] == "&" && IsBackground(Some("&"));
    assert v1.stages + [Named(b)] == [Named(b)];
    assert Closed(v1) == q;
    var e2 := EndSegment(v1);
    assert e2 == v1.(i := 4, done := [p, q]);
    assert ParseFrom(Plain, e1) == ParseFrom(Plain, e2);
    assert ParseFrom(Plain, w0) == ParseFrom(Plain, e1);
  }

  /** `< f wc`: input redirection before the name is accepted. */
  lemma InputBeforeNameExample()
    ensures Parse(Plain, ["<", "f", "wc"], {0, 1, 2}) ==
              Parsed([Pipeline([Stage(Some("wc"), ["wc"], 3, 1, 2, false, -1, Some(ExternalProcess))], false, None)],
                     {0, 1, 2, 3}, ["<", "f", "wc"])
  {
    OperatorLiterals();
    LowestFreeAfterStandard();
    LetterWord("f");
    LetterWord("wc");
    ExternalName("wc");
    var w0 := Walk(["<", "f", "wc"], 0, {0, 1, 2}, [], [], FreshStage);
    assert Target(w0.ts, 1) == 1;
    var w1 := w0.(i := 1, fds := {0, 1, 2, 3}, sc := FreshStage.(inputFd := 3));
    assert Step(Plain, w0) == Next(w1);
    var w2 := w1.(i := 2);
    PlainWord(w2, "wc");
    var c := FreshStage.(inputFd := 3, args := ["wc"], name := Some("wc"));
    var w3 := w2.(i := 3, sc := c);
    assert Segment(Plain, w3) == Next(w3);
    assert Segment(Plain, w2) == Segment(Plain, w3);
    assert Segment(Plain, w0) == Segment(Plain, w2);
    assert Begin(w0) == w0;
    var e := EndSegment(w3);
    assert w3.stages + [Named(c)] == [Named(c)];
    assert !IsBackground(None);
    assert e == w3.(done := [Pipeline([Named(c)], false, None)]);
    assert ParseFrom(Plain, w0) == ParseFrom(Plain, e);
  }

  /** `a > f | b` fails at the pipe, and the descriptor opened for `f` stays open. */
  lemma FailureLeaksDescriptor()
    ensures Parse(Plain, ["a", ">", "f", "|", "b"], {0, 1, 2}) == Failed({0, 1, 2, 3}, ["a", ">", "f", "|", "b"])
  {
    LowestFreeAfterStandard();
    var w0 := Walk(["a", ">", "f", "|", "b"], 0, {0, 1, 2}, [], [], FreshStage);
    PlainWord(w0, "a");
    var a := FreshStage.(args := ["a"], name := Some("a"));
    var w1 := w0.(i := 1, sc := a);
    assert Target(w1.ts, 2) == 2;
    var w2 := w1.(i := 2, fds := {0, 1, 2, 3}, sc := a.(outputFd := 3));
    assert Step(Plain, w1) == Next(w2);
    var w3 := w2.(i := 3);
    assert Step(Plain, w3) == Fail({0, 1, 2, 3}, w3.ts);
    LetterWord("a");
    OperatorLiterals();
    assert Segment(Plain, w3) == Fail({0, 1, 2, 3}, w3.ts);
    assert Segment(Plain, w1) == Segment(Plain, w3);
    assert Segment(Plain, w0) == Segment(Plain, w1);
    assert Begin(w0) == w0;
  }

  /** A segment that reaches a token whose step runs past the sentinel runs past it too. */
  lemma SegmentOverrunsAt(os: Os, w: Walk)
    requires w.i < |w.ts| && !IsChainingOperator(w.ts[w.i]) && Step(os, w).Overrun?
    ensures Segment(os, w).Overrun?
  {
  }

  /** A first word the file system answers names the SimpleCommand and changes nothing
      else. */
  lemma FirstWord(os: Os, w: Walk)
    requires w.i < |w.ts| && w.sc == FreshStage && os.glob(w.ts[w.i]).Matches?
    requires var t := w.ts[w.i]; 0 < |t| && 'a' <= t[0] <= 'z'
    ensures Step(os, w).Next?
    ensures Step(os, w).w == w.(sc := Step(os, w).w.sc)
    ensures Step(os, w).w.sc.name.Some? && Step(os, w).w.sc.(args := [], name := None) == FreshStage
  {
    var t := w.ts[w.i];
    LetterWord(t);
    assert RemoveQuotes(t) == t;
    assert w.ts[w.i := t] == w.ts;
    PushAllProperties(FreshStage, Expand(os, t).value);
  }

  /** Once its checks pass, a redirection followed only by ignorable tokens runs past the
      sentinel. */
  lemma RedirectionWithoutTarget(os: Os, w: Walk)
    requires w.i < |w.ts| && IsRedirection(w.ts[w.i])
    requires forall m :: w.i < m < |w.ts| ==> Ignorable(Some(w.ts[m]))
    requires w.sc.name.Some? && w.sc.inputFd == STDIN_FD && w.sc.outputFd == STDOUT_FD && w.sc.stderrFd == STDERR_FD
    ensures Step(os, w).Overrun?
  {
    assert Target(w.ts, w.i + 1) == |w.ts|;
  }

  /** A redirection with nothing but ignorable tokens after it reaches the sentinel. */
  lemma TrailingRedirectionOverruns(os: Os)
    requires os.glob("a").Matches?
    ensures Parse(os, ["a", ">"], {0, 1, 2}).OverrunSentinel?
    ensures Parse(os, ["a", "2>", " "], {0, 1, 2}).OverrunSentinel?
  {
    OperatorLiterals();
    LetterWord("a");
    var w0 := Walk(["a", ">"], 0, {0, 1, 2}, [], [], FreshStage);
    FirstWord(os, w0);
    var w1 := Step(os, w0).w.(i := 1);
    RedirectionWithoutTarget(os, w1);
    SegmentOverrunsAt(os, w1);
    assert Segment(os, w0) == Segment(os, w1);
    assert Begin(w0) == w0;
    var v0 := Walk(["a", "2>", " "], 0, {0, 1, 2}, [], [], FreshStage);
    FirstWord(os, v0);
    var v1 := Step(os, v0).w.(i := 1);
    RedirectionWithoutTarget(os, v1);
    SegmentOverrunsAt(os, v1);
    assert Segment(os, v0) == Segment(os, v1);
    assert Begin(v0) == v0;
  }
}
