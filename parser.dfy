/** `parseTokens` (src/parser.c:18-305) over the classes of the Commands module, proved to
    compute the walk of the ParserSpec module. The token array is overwritten in place by the
    quote step, as in the C code. */
module Parser {
  import opened Wrappers
  import opened Utils
  import opened Tokens
  import opened System
  import opened Builtins
  import opened Pipelines
  import opened Commands
  import opened ParserSpec

  /** How the token loop leaves a token: on to the next one, or by an error exit that
      releases the chain, the current Command and the current SimpleCommand, or (the
      failed `open` of `<` and `2>`) the chain only. */
  datatype Exit = Proceed | ReleaseAll | ReleaseChainOnly

  /** `command` holds the SimpleCommands `stages` and has not been finished or linked. */
  ghost predicate HoldsStages(command: Command, stages: seq<Stage>)
    reads command, command.Repr
  {
    && command.Valid()
    && |command.simpleCommands| == |stages|
    && (forall j :: 0 <= j < |stages| ==> command.simpleCommands[j].Value() == stages[j])
    && !command.background && command.chainingOperator.None? && command.next == null
  }

  /** The heap holds the current Command and SimpleCommand of the walk `w`. */
  ghost predicate Holding(command: Command, sc: SimpleCommand, w: Walk)
    reads command, command.Repr, sc
  {
    HoldsStages(command, w.stages) && sc.Valid() && sc !in command.Repr && sc.Value() == w.sc
  }

  /** The `|` branch (src/parser.c:70-117). */
  method ParsePipe(os: Os, fds: set<Fd>, command: Command, sc: SimpleCommand, ghost w: Walk)
    returns (exit: Exit, fds': set<Fd>, sc': SimpleCommand)
    requires w.i < |w.ts| && IsPipe(w.ts[w.i]) && w.fds == fds
    requires Holding(command, sc, w)
    modifies command, sc
    ensures var r := Step(os, w);
            && (exit == Proceed <==> r.Next?)
            && (exit == Proceed ==> fds' == r.w.fds && Holding(command, sc', r.w))
            && (exit != Proceed ==> exit == ReleaseAll && fds' == r.fds && sc' == sc && Holding(command, sc, w))
    ensures sc' == sc || fresh(sc')
    ensures command.Repr <= old(command.Repr) + {sc}
  {
    PipeRules(os, w);
    fds', sc' := fds, sc;
    if sc.commandName.None? || sc.outputFD != STDOUT_FD {
      return ReleaseAll, fds', sc';
    }
    var ends := Pipe(os, fds);
    if ends.None? {
      return ReleaseAll, fds', sc';
    }
    var readEnd, writeEnd := ends.value.0, ends.value.1;
    sc' := LinkPipe(command, sc, readEnd, writeEnd, w.stages);
    fds' := fds + {readEnd, writeEnd};
    exit := Proceed;
  }

  /** `addSimpleCommand` on a Command being built: it holds one more stage. */
  method JoinStage(command: Command, sc: SimpleCommand, ghost stages: seq<Stage>)
    requires HoldsStages(command, stages) && sc.Valid() && sc !in command.Repr
    modifies command
    ensures HoldsStages(command, stages + [sc.Value()]) && command.Repr == old(command.Repr) + {sc}
  {
    var _ := AddSimpleCommand(command, sc);
    assert command.simpleCommands[|stages|].Value() == sc.Value();
  }

  /** A successful `|`: the current SimpleCommand writes into the pipe and joins the Command;
      the next one reads from the pipe (src/parser.c:95-116). */
  method LinkPipe(command: Command, sc: SimpleCommand, readEnd: Fd, writeEnd: Fd, ghost stages: seq<Stage>)
    returns (sc': SimpleCommand)
    requires HoldsStages(command, stages) && sc.Valid() && sc !in command.Repr && sc.commandName.Some?
    modifies command, sc
    ensures HoldsStages(command, stages + [Named(old(sc.Value()).(outputFd := writeEnd))])
    ensures sc'.Valid() && sc' !in command.Repr && sc'.Value() == FreshStage.(inputFd := readEnd)
    ensures fresh(sc') && command.Repr == old(command.Repr) + {sc}
  {
    sc.outputFD := writeEnd;
    sc.execute := Some(GetExecutionFunction(sc.commandName.value));
    JoinStage(command, sc, stages);
    sc' := new SimpleCommand.Init();
    sc'.inputFD := readEnd;
  }

  /** The `do`/`while` loop that skips ignorable tokens to the file name of a redirection
      at `i`. */
  method FindTarget(tokens: array<string>, i: nat) returns (j: nat)
    requires i < tokens.Length
    ensures j == Target(tokens[..], i + 1)
  {
    j := i + 1;
    while j < tokens.Length && Ignorable(Some(tokens[j]))
      invariant i < j <= tokens.Length
      invariant Target(tokens[..], j) == Target(tokens[..], i + 1)
      decreases tokens.Length - j
    {
      j := j + 1;
    }
  }

  /** The part the three redirection branches share once their checks have passed: find
      the file name, open it, and store the descriptor in the redirected stream. */
  method OpenTarget(os: Os, tokens: array<string>, i: nat, fds: set<Fd>, sc: SimpleCommand, stream: Stream, flags: OpenFlags, ghost w: Walk)
    returns (found: bool, i': nat, fds': set<Fd>)
    requires i < tokens.Length && tokens[..] == w.ts && w.i == i && w.fds == fds
    requires sc.Valid() && sc.Value() == w.sc
    requires !Redirect(os, w, stream, flags).Overrun?
    modifies sc
    ensures var r := Redirect(os, w, stream, flags);
            && (found <==> r.Next?)
            && (found ==> i' == r.w.i && fds' == r.w.fds && sc.Valid() && sc.Value() == r.w.sc)
            && (!found ==> r.fds == fds && fds' == fds && unchanged(sc))
  {
    i', fds' := i, fds;
    var j := FindTarget(tokens, i);
    var fd := Open(os, fds, tokens[j], flags);
    if fd == -1 {
      return false, i', fds';
    }
    match stream {
      case Input => sc.inputFD := fd;
      case Output => sc.outputFD := fd;
      case Error => sc.stderrFD := fd;
    }
    i', fds' := j, fds + {fd};
    found := true;
  }

  /** The `>`/`>>`, `<` and `2>` branches (src/parser.c:118-219). */
  method ParseRedirection(os: Os, tokens: array<string>, i: nat, fds: set<Fd>, sc: SimpleCommand, ghost w: Walk)
    returns (exit: Exit, i': nat, fds': set<Fd>)
    requires i < tokens.Length && tokens[..] == w.ts && w.i == i && w.fds == fds
    requires IsRedirection(tokens[i]) && sc.Valid() && sc.Value() == w.sc
    requires !Step(os, w).Overrun?
    modifies sc
    ensures var r := Step(os, w);
            && (exit == Proceed <==> r.Next?)
            && (exit == Proceed ==> i' == r.w.i && fds' == r.w.fds && sc.Valid() && sc.Value() == r.w.sc)
            && (exit != Proceed ==> fds' == r.fds && unchanged(sc))
    ensures Step(os, w).Next? ==> Step(os, w).w.stages == w.stages && Step(os, w).w.ts == w.ts
    // Only a failed open for `<` or `2>` leaves the Command and the SimpleCommand alone.
    ensures exit == ReleaseChainOnly <==>
              && !Step(os, w).Next? && !IsFileOutRedir(tokens[i])
              && (if IsFileInRedir(tokens[i]) then w.sc.inputFd == STDIN_FD else w.sc.stderrFd == STDERR_FD)
  {
    var t := tokens[i];
    i', fds' := i, fds;
    var found;
    if IsFileOutRedir(t) {
      if sc.commandName.None? || sc.outputFD != STDOUT_FD {
        return ReleaseAll, i', fds';
      }
      var flags := if IsAppend(t) then WriteCreateAppend(CREATE_MODE) else WriteCreateTruncate(CREATE_MODE);
      assert Step(os, w) == Redirect(os, w, Output, flags);
      found, i', fds' := OpenTarget(os, tokens, i, fds, sc, Output, flags, w);
      exit := if found then Proceed else ReleaseAll;
    } else if IsFileInRedir(t) {
      if sc.inputFD != STDIN_FD {
        return ReleaseAll, i', fds';
      }
      assert Step(os, w) == Redirect(os, w, Input, ReadOnly);
      found, i', fds' := OpenTarget(os, tokens, i, fds, sc, Input, ReadOnly, w);
      exit := if found then Proceed else ReleaseChainOnly;
    } else {
      if sc.stderrFD != STDERR_FD {
        return ReleaseAll, i', fds';
      }
      assert Step(os, w) == Redirect(os, w, Error, WriteCreateTruncate(CREATE_MODE));
      found, i', fds' := OpenTarget(os, tokens, i, fds, sc, Error, WriteCreateTruncate(CREATE_MODE), w);
      exit := if found then Proceed else ReleaseChainOnly;
    }
  }

  /** The loop that pushes every path of an expansion (src/parser.c:264-275). */
  method PushPaths(paths: seq<string>, sc: SimpleCommand)
    requires sc.Valid()
    modifies sc
    ensures sc.Valid() && sc.Value() == PushAll(old(sc.Value()), paths)
  {
    var k := 0;
    while k < |paths|
      invariant k <= |paths|
      invariant sc.Valid() && sc.Value() == PushAll(old(sc.Value()), paths[..k])
    {
      var _ := PushArgs(paths[k], sc);
      assert paths[..k + 1][..k] == paths[..k];
      k := k + 1;
    }
    assert paths[..k] == paths;
  }

  /** The history-reference and plain-token branches (src/parser.c:225-278). */
  method ParseWord(os: Os, tokens: array<string>, i: nat, sc: SimpleCommand, ghost w: Walk)
    returns (exit: Exit)
    requires i < tokens.Length && tokens[..] == w.ts && w.i == i
    requires var t := tokens[i]; !IsPipe(t) && !IsRedirection(t) && !Ignorable(Some(t))
    requires sc.Valid() && sc.Value() == w.sc
    modifies tokens, sc
    ensures var r := Step(os, w);
            && (exit == Proceed <==> r.Next?)
            && (exit == Proceed ==> tokens[..] == r.w.ts && sc.Valid() && sc.Value() == r.w.sc)
            && (exit != Proceed ==> exit == ReleaseAll && tokens[..] == r.ts && sc.Valid())
    ensures Step(os, w).Next? ==> Step(os, w).w.i == i && Step(os, w).w.fds == w.fds && Step(os, w).w.stages == w.stages
  {
    var t := tokens[i];
    if sc.commandName.None? && t[0] == '!' && |t| > 1 {
      var _ := PushArgs("history", sc);
      var _ := PushArgs(t[1..], sc);
    } else {
      tokens[i] := RemoveQuotes(tokens[i]);
      var expansion := Expand(os, tokens[i]);
      if expansion.None? {
        return ReleaseAll;
      }
      PushPaths(expansion.value, sc);
    }
    exit := Proceed;
  }

  /** One pass of the token loop's body: the branches in the order of the C `if` chain;
      ignorable tokens do nothing. */
  method ParseToken(os: Os, tokens: array<string>, i: nat, fds: set<Fd>, command: Command, sc: SimpleCommand, ghost w: Walk)
    returns (exit: Exit, i': nat, fds': set<Fd>, sc': SimpleCommand)
    requires i < tokens.Length && tokens[..] == w.ts && w.i == i && w.fds == fds
    requires Holding(command, sc, w)
    requires !Step(os, w).Overrun?
    modifies tokens, command, sc
    ensures var r := Step(os, w);
            && (exit == Proceed <==> r.Next?)
            && (exit == Proceed ==> tokens[..] == r.w.ts && i' == r.w.i && fds' == r.w.fds && Holding(command, sc', r.w))
            && (exit != Proceed ==> tokens[..] == r.ts && fds' == r.fds && command.Valid() && sc'.Valid() && sc' !in command.Repr)
    ensures sc' == sc || fresh(sc')
    ensures command.Repr <= old(command.Repr) + {sc}
  {
    var t := tokens[i];
    i', fds', sc' := i, fds, sc;
    if IsPipe(t) {
      exit, fds', sc' := ParsePipe(os, fds, command, sc, w);
    } else if IsRedirection(t) {
      exit, i', fds' := ParseRedirection(os, tokens, i, fds, sc, w);
    } else if Ignorable(Some(t)) {
      exit := Proceed;
    } else {
      exit := ParseWord(os, tokens, i, sc, w);
    }
  }

  /** One token of a segment: the walk of the segment from the next token is the walk from
      this one, or the segment fails here. */
  method SegmentToken(os: Os, tokens: array<string>, i: nat, fds: set<Fd>, command: Command, sc: SimpleCommand, ghost w: Walk)
    returns (exit: Exit, i': nat, fds': set<Fd>, sc': SimpleCommand, ghost w': Walk)
    requires i < tokens.Length && tokens[..] == w.ts && w.i == i && w.fds == fds
    requires !IsChainingOperator(tokens[i])
    requires Holding(command, sc, w)
    requires !Segment(os, w).Overrun?
    modifies tokens, command, sc
    ensures exit == Proceed ==>
              && i < i' <= tokens.Length && tokens[..] == w'.ts && w'.i == i' && w'.fds == fds'
              && Holding(command, sc', w') && Segment(os, w') == Segment(os, w)
    ensures exit != Proceed ==>
              && Segment(os, w).Fail? && tokens[..] == Segment(os, w).ts && fds' == Segment(os, w).fds
              && command.Valid() && sc'.Valid() && sc' !in command.Repr
    ensures sc' == sc || fresh(sc')
    ensures command.Repr <= old(command.Repr) + {sc}
  {
    exit, i', fds', sc' := ParseToken(os, tokens, i, fds, command, sc, w);
    w' := w;
    if exit == Proceed {
      w' := Step(os, w).w.(i := i' + 1);
      SegmentGoesOn(os, w, w');
      i' := i' + 1;
    } else {
      SegmentFailsAt(os, w);
    }
  }

  /** The token loop of one segment (src/parser.c:52-279), up to a chaining operator or the
      end of the tokens. */
  method ParseSegment(os: Os, tokens: array<string>, i0: nat, fds0: set<Fd>, command: Command, sc0: SimpleCommand, ghost b: Walk)
    returns (exit: Exit, i: nat, fds: set<Fd>, sc: SimpleCommand)
    requires i0 <= tokens.Length && tokens[..] == b.ts && b.i == i0 && b.fds == fds0
    requires Holding(command, sc0, b)
    requires !Segment(os, b).Overrun?
    modifies tokens, command, sc0
    ensures var r := Segment(os, b);
            && (exit == Proceed <==> r.Next?)
            && (exit == Proceed ==> tokens[..] == r.w.ts && i == r.w.i && fds == r.w.fds && Holding(command, sc, r.w))
            && (exit != Proceed ==> tokens[..] == r.ts && fds == r.fds && command.Valid() && sc.Valid() && sc !in command.Repr)
    ensures sc == sc0 || fresh(sc)
    ensures forall o :: o in command.Repr ==> o in old(command.Repr) || o == sc0 || fresh(o)
  {
    i, fds, sc := i0, fds0, sc0;
    ghost var w := b;
    while i < tokens.Length && !IsChainingOperator(tokens[i])
      invariant i <= tokens.Length && tokens[..] == w.ts && w.i == i && w.fds == fds
      invariant Holding(command, sc, w)
      invariant Segment(os, w) == Segment(os, b)
      invariant sc == sc0 || fresh(sc)
      invariant forall o :: o in command.Repr ==> o in old(command.Repr) || o == sc0 || fresh(o)
      decreases tokens.Length - i
    {
      exit, i, fds, sc, w := SegmentToken(os, tokens, i, fds, command, sc, w);
      if exit != Proceed {
        return;
      }
    }
    exit := Proceed;
  }

  /** The current SimpleCommand joins the Command at the end of a segment when it has a name,
      with the execution function of that name (src/parser.c:281-286). */
  method CloseStage(command: Command, sc: SimpleCommand, ghost e: Walk)
    requires e.i <= |e.ts| && Holding(command, sc, e)
    modifies command, sc
    ensures HoldsStages(command, Closed(e).stages)
    ensures command.Repr <= old(command.Repr) + {sc}
  {
    if sc.commandName.Some? {
      sc.execute := Some(GetExecutionFunction(sc.commandName.value));
      JoinStage(command, sc, e.stages);
    }
  }

  /** The Command records a copy of the token the segment stopped on (NULL at the end) and
      whether it is `&` (src/parser.c:288-291). */
  method SetOperator(tokens: array<string>, i: nat, command: Command, ghost p: Pipeline)
    requires i <= tokens.Length && HoldsStages(command, p.stages)
    requires p.chainingOperator == if i < tokens.Length then Some(Copy(tokens[i])) else None
    requires p.background == IsBackground(p.chainingOperator)
    modifies command
    ensures command.Valid() && command.Holds(p) && command.next == null && command.Repr == old(command.Repr)
  {
    var op := if i < tokens.Length then Some(Copy(tokens[i])) else None;
    command.chainingOperator := op;
    if IsBackground(op) {
      command.background := true;
    }
  }

  /** The end of a segment (src/parser.c:281-292). */
  method FinishCommand(tokens: array<string>, i: nat, command: Command, sc: SimpleCommand, ghost e: Walk)
    requires i <= tokens.Length && tokens[..] == e.ts && e.i == i
    requires Holding(command, sc, e)
    modifies command, sc
    ensures command.Valid() && command.Holds(Closed(e)) && command.next == null
    ensures command.Repr <= old(command.Repr) + {sc}
  {
    CloseStage(command, sc, e);
    SetOperator(tokens, i, command, Closed(e));
  }

  /** An error exit of `parseTokens`: the chain is released, and so are the current
      Command and SimpleCommand when the exit says so. */
  method Release(chain: CommandChain, command: Command, sc: SimpleCommand, exit: Exit)
    requires chain.Valid() && command.Valid() && sc.Valid()
    requires command !in chain.Repr && command.Repr !! chain.Repr && sc !in chain.Repr && sc !in command.Repr
    modifies chain.Repr, command, command.Repr, sc
    ensures chain.Nodes == old(chain.Nodes) && forall k :: 0 <= k < |chain.Nodes| ==> chain.Nodes[k].Released()
    ensures exit == ReleaseAll ==> command.Released() && sc.Released()
    ensures exit == ReleaseChainOnly ==> unchanged(command) && unchanged(command.Repr) && unchanged(sc)
  {
    CleanUpCommandChain(chain);
    assert forall k, j :: 0 <= k < |chain.Nodes| && 0 <= j < |chain.Nodes[k].simpleCommands| ==>
             chain.Nodes[k].simpleCommands[j] in old(chain.Nodes[k].Repr);
    if exit == ReleaseAll {
      CleanUpCommand(command);
      CleanUpSimpleCommand(sc);
    }
  }

  /** The end of a segment followed by `addCommandToChain` (src/parser.c:281-301): the chain
      that held `done` now also holds the Command the segment produced, and the index moves
      past the operator the segment stopped on. */
  method AppendCommand(ch: CommandChain, tokens: array<string>, i: nat, command: Command, sc: SimpleCommand,
                       ghost done: seq<Pipeline>, ghost e: Walk) returns (next: nat)
    requires i <= tokens.Length && tokens[..] == e.ts && e.i == i
    requires Holding(command, sc, e)
    requires ch.Valid() && ch.Models(done)
    requires command !in ch.Repr && sc !in ch.Repr && command.Repr !! ch.Repr
    modifies ch, ch.tail, command, sc
    ensures ch.Valid() && ch.Models(done + [Closed(e)])
    ensures ch.Repr <= old(ch.Repr) + {command, sc} + old(command.Repr)
    ensures next == EndSegment(e).i
  {
    FinishCommand(tokens, i, command, sc, e);
    AddToChain(ch, command, done, Closed(e));
    next := i;
    if next < tokens.Length {
      next := next + 1;
    }
  }

  /** `addCommandToChain` on a finished Command holding `p`: the chain that held `done` now
      holds `done + [p]`. */
  method AddToChain(ch: CommandChain, command: Command, ghost done: seq<Pipeline>, ghost p: Pipeline)
    requires ch.Valid() && ch.Models(done)
    requires command.Valid() && command.Holds(p) && command.next == null
    requires command !in ch.Repr && command.Repr !! ch.Repr
    modifies ch, ch.tail
    ensures ch.Valid() && ch.Models(done + [p])
    ensures ch.Repr == old(ch.Repr) + {command} + command.Repr
  {
    ghost var nodes := ch.Nodes;
    var _ := AddCommandToChain(ch, command);
    forall k | 0 <= k < |done|
      ensures nodes[k].Holds(done[k])
    {
    }
    assert ch.Nodes[|done|].Holds(p);
  }

  /** `initCommand`, `initSimpleCommand` and the token loop of one segment, on objects of
      their own. */
  method StartSegment(os: Os, tokens: array<string>, i: nat, fds: set<Fd>, ghost b: Walk, ghost others: set<object>)
    returns (exit: Exit, i': nat, fds': set<Fd>, command: Command, sc: SimpleCommand)
    requires i <= tokens.Length && tokens[..] == b.ts && b.i == i && b.fds == fds
    requires b.stages == [] && b.sc == FreshStage
    requires !Segment(os, b).Overrun?
    modifies tokens
    ensures var r := Segment(os, b);
            && (exit == Proceed <==> r.Next?)
            && (exit == Proceed ==> tokens[..] == r.w.ts && i' == r.w.i && fds' == r.w.fds && Holding(command, sc, r.w))
            && (exit != Proceed ==> tokens[..] == r.ts && fds' == r.fds && command.Valid() && sc.Valid() && sc !in command.Repr)
    ensures fresh(command) && fresh(sc) && fresh(command.Repr)
    ensures command !in others && sc !in others && command.Repr !! others
  {
    command := new Command.Init();
    var sc0 := new SimpleCommand.Init();
    exit, i', fds', sc := ParseSegment(os, tokens, i, fds, command, sc0, b);
  }

  /** ... which leaves the chain as it was. */
  method StartCommand(os: Os, tokens: array<string>, i: nat, fds: set<Fd>, ghost b: Walk, ch: CommandChain)
    returns (exit: Exit, i': nat, fds': set<Fd>, command: Command, sc: SimpleCommand)
    requires i <= tokens.Length && tokens[..] == b.ts && b.i == i && b.fds == fds
    requires b.stages == [] && b.sc == FreshStage
    requires !Segment(os, b).Overrun?
    requires ch.Valid() && ch.Models(b.done) && tokens !in ch.Repr
    modifies tokens
    ensures var r := Segment(os, b);
            && (exit == Proceed <==> r.Next?)
            && (exit == Proceed ==> tokens[..] == r.w.ts && i' == r.w.i && fds' == r.w.fds && Holding(command, sc, r.w))
            && (exit != Proceed ==> tokens[..] == r.ts && fds' == r.fds && command.Valid() && sc.Valid() && sc !in command.Repr)
    ensures fresh(command) && fresh(sc) && fresh(command.Repr)
    ensures command !in ch.Repr && sc !in ch.Repr && command.Repr !! ch.Repr
    ensures ch.Valid() && ch.Models(b.done)
  {
    exit, i', fds', command, sc := StartSegment(os, tokens, i, fds, b, ch.Repr);
  }

  /** One pass of the outer loop of `parseTokens` (src/parser.c:45-302): a new Command and
      SimpleCommand, the token loop of a segment, then either the error exit or the Command
      joining the chain. The walk from the next segment is the walk from this one. */
  method ParseCommand(os: Os, tokens: array<string>, i: nat, fds: set<Fd>, ch: CommandChain, ghost w: Walk)
    returns (ok: bool, i': nat, fds': set<Fd>, ghost w': Walk)
    requires i < tokens.Length && tokens[..] == w.ts && w.i == i && w.fds == fds
    requires ch.Valid() && ch.Models(w.done) && tokens !in ch.Repr
    requires !Segment(os, Begin(w)).Overrun?
    modifies tokens, ch, ch.Repr
    ensures var r := Segment(os, Begin(w));
            && (ok <==> r.Next?)
            && (ok ==> w' == EndSegment(r.w) && tokens[..] == w'.ts && w'.i == i' && w'.fds == fds')
            && (!ok ==> tokens[..] == r.ts && fds' == r.fds)
    ensures ok ==> ch.Valid() && ch.Models(w'.done) && fresh(ch.Repr - old(ch.Repr))
    ensures !ok ==> forall k :: 0 <= k < |old(ch.Nodes)| ==> old(ch.Nodes)[k].Released()
  {
    var exit, command, sc;
    exit, i', fds', command, sc := StartCommand(os, tokens, i, fds, Begin(w), ch);
    w' := w;
    if exit != Proceed {
      ghost var nodes := ch.Nodes;
      ghost var ts := tokens[..];
      Release(ch, command, sc, exit);
      assert tokens[..] == ts;
      assert forall k :: 0 <= k < |nodes| ==> nodes[k].Released();
      ok := false;
      return;
    }
    ghost var made := command.Repr + {sc, command};
    assert fresh(made);
    ghost var e := Segment(os, Begin(w)).w;
    ghost var before := ch.Repr;
    i' := AppendCommand(ch, tokens, i', command, sc, w.done, e);
    assert ch.Repr <= before + made;
    w' := EndSegment(e);
    ok := true;
  }

  /** `parseTokens`: one Command per segment, appended to a new chain; on an error exit the
      chain (and, except after a failed `open` of `<` or `2>`, the current Command and
      SimpleCommand) is released and NULL returned. The descriptors found so far stay open
      either way. */
  method ParseTokens(os: Os, tokens: array<string>, fds: set<Fd>) returns (chain: CommandChain?, fdsOut: set<Fd>)
    requires !Parse(os, tokens[..], fds).OverrunSentinel?
    modifies tokens
    ensures var r := Parse(os, old(tokens[..]), fds);
            && (chain != null <==> r.Parsed?)
            && fdsOut == r.fds && tokens[..] == r.ts
            && (chain != null ==> chain.Valid() && chain.Models(r.pipelines) && fresh(chain.Repr))
  {
    var ch := new CommandChain.Init();
    var i: nat := 0;
    fdsOut := fds;
    ghost var w := Walk(tokens[..], 0, fds, [], [], FreshStage);
    while i < tokens.Length
      invariant i <= tokens.Length && tokens[..] == w.ts && w.i == i && w.fds == fdsOut
      invariant ParseFrom(os, w) == Parse(os, old(tokens[..]), fds)
      invariant ch.Valid() && ch.Models(w.done) && fresh(ch.Repr)
      decreases tokens.Length - i
    {
      ParseOverrunsAt(os, w);
      ghost var before := w;
      var ok;
      ok, i, fdsOut, w := ParseCommand(os, tokens, i, fdsOut, ch, w);
      if !ok {
        ParseFailsAt(os, before);
        return null, fdsOut;
      }
      ParseGoesOn(os, before, w);
    }
    chain := ch;
  }
}
