/** `executeCommand` and `executeCommandChain` (src/command.c:172-248): the pipeline loop,
    which gives up at the first stage that fails, and the chain loop, which never gives up.
    The descriptor table is the set of open descriptors; closing one removes it. */
module Executor {
  import opened Wrappers
  import opened Utils
  import opened Builtins
  import opened Pipelines
  import opened Commands

  // ---------------------------------------------------------------------------------------
  // Specification
  // ---------------------------------------------------------------------------------------

  /** A stage the executor can run: well formed, and a named stage has its execution
      function (the parser resolves it whenever it adds a named stage). */
  predicate Ready(s: Stage) {
    WellFormed(s) && (s.name.Some? ==> s.handler.Some?)
  }

  /** The status one stage returns and the stage as it is afterwards. */
  datatype StageRun = StageRun(status: int, stage: Stage)

  /** One iteration of the loop of `executeCommand` for stage `s` at position `call`: the
      background flag is copied into `noWait`, a nameless stage is refused, and otherwise its
      execution function runs (and an external command that was forked records its pid). */
  function RunStage(rt: Runtime, hist: seq<string>, background: bool, s: Stage, call: Position): (r: StageRun)
    requires Ready(s)
    ensures r.stage.(noWait := s.noWait, pid := s.pid) == s
    ensures r.stage.noWait == (background || s.noWait)
    ensures s.name.None? ==> r.status == -1 && r.stage.pid == s.pid
    ensures s.name.Some? ==> r.status == Invoke(rt, call, s.handler.value, s.args, r.stage.noWait, hist).status
    ensures s.name.Some? && s.handler.value != ExternalProcess ==> r.stage.pid == s.pid
  {
    var t := if background then s.(noWait := true) else s;
    if t.name.None? then StageRun(-1, t)
    else
      var o := Invoke(rt, call, t.handler.value, t.args, t.noWait, hist);
      StageRun(o.status, if o.pid.Some? then t.(pid := o.pid.value) else t)
  }

  /** The descriptors closed after stage `s` succeeds: its input unless it is stdin, its
      output unless it is stdout. Its stderr descriptor is never among them. */
  function Closes(s: Stage): (c: set<Fd>)
    ensures forall x :: x in c <==> (x == s.inputFd && x != STDIN_FD) || (x == s.outputFd && x != STDOUT_FD)
  {
    (if s.inputFd != STDIN_FD then {s.inputFd} else {}) + (if s.outputFd != STDOUT_FD then {s.outputFd} else {})
  }

  /** The descriptors closed after stages `i` to `n - 1` all succeed. */
  function ClosedBetween(stages: seq<Stage>, i: nat, n: nat): set<Fd>
    requires i <= n <= |stages|
    decreases n - i
  {
    if i == n then {} else Closes(stages[i]) + ClosedBetween(stages, i + 1, n)
  }

  /** Exactly the redirected inputs and outputs of the stages in the range are closed. */
  lemma {:induction false} ClosedBetweenMembers(stages: seq<Stage>, i: nat, n: nat, x: Fd)
    requires i <= n <= |stages|
    ensures x in ClosedBetween(stages, i, n) <==>
              exists k :: i <= k < n && ((x == stages[k].inputFd && x != STDIN_FD) || (x == stages[k].outputFd && x != STDOUT_FD))
    decreases n - i
  {
    if i < n {
      ClosedBetweenMembers(stages, i + 1, n, x);
    }
  }

  /** What each stage of Command number `index`, from stage `i` on, gives when run at its
      turn. */
  function Outcomes(rt: Runtime, hist: seq<string>, background: bool, stages: seq<Stage>, index: nat, i: nat): (os: seq<StageRun>)
    requires i <= |stages|
    requires forall j :: i <= j < |stages| ==> Ready(stages[j])
    ensures |os| == |stages| - i
    decreases |stages| - i
  {
    if i == |stages| then []
    else [RunStage(rt, hist, background, stages[i], Position(index, i))] + Outcomes(rt, hist, background, stages, index, i + 1)
  }

  /** Stage `j` gives the outcome of running it at position (`index`, `j`). */
  lemma {:induction false} OutcomeAt(rt: Runtime, hist: seq<string>, background: bool, stages: seq<Stage>, index: nat, i: nat, j: nat)
    requires i <= j < |stages|
    requires forall k :: i <= k < |stages| ==> Ready(stages[k])
    ensures Outcomes(rt, hist, background, stages, index, i)[j - i] == RunStage(rt, hist, background, stages[j], Position(index, j))
    decreases j - i
  {
    if i < j {
      OutcomeAt(rt, hist, background, stages, index, i + 1, j);
    }
  }

  lemma {:induction false} ClosedBetweenExtend(stages: seq<Stage>, i: nat, n: nat)
    requires i <= n < |stages|
    ensures ClosedBetween(stages, i, n + 1) == ClosedBetween(stages, i, n) + Closes(stages[n])
    decreases n - i
  {
    if i < n {
      ClosedBetweenExtend(stages, i + 1, n);
    }
  }

  /** What running (part of) a pipeline leaves: the status, the stages and the open
      descriptors. */
  datatype Run = Run(status: int, stages: seq<Stage>, fds: set<Fd>)

  /** The loop of `executeCommand` from stage `i`, each stage giving its outcome in
      `outcomes`: a non-zero status ends the loop, a zero one closes the stage's redirected
      input and output. The result holds the stages from `i` on, as they are afterwards. */
  function RunFrom(stages: seq<Stage>, outcomes: seq<StageRun>, i: nat, fds: set<Fd>): (r: Run)
    requires |outcomes| == |stages| && i <= |stages|
    ensures |r.stages| == |stages| - i
    decreases |stages| - i
  {
    if i == |stages| then Run(0, [], fds)
    else if outcomes[i].status != 0 then Run(outcomes[i].status, [outcomes[i].stage] + stages[i + 1..], fds)
    else
      var rest := RunFrom(stages, outcomes, i + 1, fds - Closes(stages[i]));
      Run(rest.status, [outcomes[i].stage] + rest.stages, rest.fds)
  }

  /** The pipeline succeeds exactly when every stage succeeds; then every stage has run and
      every redirected input and output has been closed. */
  lemma {:induction false} RunFromSucceeds(stages: seq<Stage>, outcomes: seq<StageRun>, i: nat, fds: set<Fd>)
    requires |outcomes| == |stages| && i <= |stages|
    ensures var r := RunFrom(stages, outcomes, i, fds);
            (r.status == 0 <==> forall j :: i <= j < |stages| ==> outcomes[j].status == 0)
    ensures var r := RunFrom(stages, outcomes, i, fds);
            r.status == 0 ==>
              && (forall j :: i <= j < |stages| ==> r.stages[j - i] == outcomes[j].stage)
              && r.fds == fds - ClosedBetween(stages, i, |stages|)
    decreases |stages| - i
  {
    if i < |stages| && outcomes[i].status == 0 {
      RunFromSucceeds(stages, outcomes, i + 1, fds - Closes(stages[i]));
    }
  }

  /** The first stage that fails stops the pipeline: its status is the result, the stages
      after it are never run, and only the descriptors of the stages before it are closed;
      the failing stage keeps its own. */
  lemma {:induction false} RunFromStopsAtFirstFailure(stages: seq<Stage>, outcomes: seq<StageRun>, i: nat, fds: set<Fd>, n: nat)
    requires |outcomes| == |stages| && i <= n < |stages|
    requires forall j :: i <= j < n ==> outcomes[j].status == 0
    requires outcomes[n].status != 0
    ensures var r := RunFrom(stages, outcomes, i, fds);
            && r.status == outcomes[n].status
            && (forall j :: i <= j <= n ==> r.stages[j - i] == outcomes[j].stage)
            && (forall j :: n < j < |stages| ==> r.stages[j - i] == stages[j])
            && r.fds == fds - ClosedBetween(stages, i, n)
    decreases n - i
  {
    if i < n {
      RunFromStopsAtFirstFailure(stages, outcomes, i + 1, fds - Closes(stages[i]), n);
    }
  }

  /** When some stage fails, there is a first one. */
  lemma FirstFailure(outcomes: seq<StageRun>) returns (n: nat)
    requires exists j :: 0 <= j < |outcomes| && outcomes[j].status != 0
    ensures n < |outcomes| && outcomes[n].status != 0
    ensures forall j :: 0 <= j < n ==> outcomes[j].status == 0
  {
    n := 0;
    while outcomes[n].status == 0
      invariant n < |outcomes|
      invariant forall j :: 0 <= j < n ==> outcomes[j].status == 0
      invariant exists j :: n <= j < |outcomes| && outcomes[j].status != 0
      decreases |outcomes| - n
    {
      n := n + 1;
    }
  }

  /** `executeCommand`'s own closes only remove descriptors: one that no stage uses as a
      redirected input or output (a stderr redirection, for one) stays open. The `dup` and
      `close` calls of `setUpFD` inside `pwd` and `history` are not part of this model. */
  lemma KeepsOtherDescriptors(stages: seq<Stage>, outcomes: seq<StageRun>, fds: set<Fd>, x: Fd)
    requires |outcomes| == |stages|
    requires x in fds
    requires forall j :: 0 <= j < |stages| ==> (x != stages[j].inputFd || x == STDIN_FD) && (x != stages[j].outputFd || x == STDOUT_FD)
    ensures RunFrom(stages, outcomes, 0, fds).fds <= fds
    ensures x in RunFrom(stages, outcomes, 0, fds).fds
  {
    var r := RunFrom(stages, outcomes, 0, fds);
    RunFromSucceeds(stages, outcomes, 0, fds);
    if r.status == 0 {
      ClosedBetweenMembers(stages, 0, |stages|, x);
    } else {
      var n := FirstFailure(outcomes);
      RunFromStopsAtFirstFailure(stages, outcomes, 0, fds, n);
      ClosedBetweenMembers(stages, 0, n, x);
    }
  }

  /** `executeCommand` on Command number `index`, which holds `p`: an empty Command is
      refused. */
  function RunPipeline(rt: Runtime, hist: seq<string>, p: Pipeline, fds: set<Fd>, index: nat): (r: Run)
    requires forall j :: 0 <= j < |p.stages| ==> Ready(p.stages[j])
    ensures p.stages == [] ==> r == Run(-1, [], fds)
    ensures |r.stages| == |p.stages|
  {
    if p.stages == [] then Run(-1, [], fds)
    else RunFrom(p.stages, Outcomes(rt, hist, p.background, p.stages, index, 0), 0, fds)
  }

  /** Every stage of every pipeline is ready to run. */
  predicate AllReady(ps: seq<Pipeline>) {
    forall k, j :: 0 <= k < |ps| && 0 <= j < |ps[k].stages| ==> Ready(ps[k].stages[j])
  }

  /** What running a chain leaves: each Command's status, the pipelines as they are
      afterwards, and the open descriptors. */
  datatype ChainRun = ChainRun(statuses: seq<int>, pipelines: seq<Pipeline>, fds: set<Fd>)

  /** The loop of `executeCommandChain`: every Command runs, in order, from the descriptors
      the earlier ones left. */
  function RunChain(rt: Runtime, hist: seq<string>, ps: seq<Pipeline>, fds: set<Fd>): (cr: ChainRun)
    requires AllReady(ps)
    ensures |cr.statuses| == |cr.pipelines| == |ps|
    decreases |ps|
  {
    if ps == [] then ChainRun([], [], fds)
    else
      var prev := RunChain(rt, hist, ps[..|ps| - 1], fds);
      var p := ps[|ps| - 1];
      var r := RunPipeline(rt, hist, p, prev.fds, |ps| - 1);
      ChainRun(prev.statuses + [r.status], prev.pipelines + [p.(stages := r.stages)], r.fds)
  }

  /** `lastStatus`: the status of the last Command, 0 when there is none. */
  function ChainStatus(cr: ChainRun): (status: int)
    ensures cr.statuses != [] ==> status == cr.statuses[|cr.statuses| - 1]
    ensures cr.statuses == [] ==> status == 0
  {
    if cr.statuses == [] then 0 else cr.statuses[|cr.statuses| - 1]
  }

  /** The chain loop never stops early: whatever the earlier statuses were, Command `k` runs,
      from the descriptors the first `k` Commands left, and its status and stages are
      recorded. */
  lemma {:induction false} RunChainRunsEveryCommand(rt: Runtime, hist: seq<string>, ps: seq<Pipeline>, fds: set<Fd>, k: nat)
    requires AllReady(ps) && k < |ps|
    ensures var r := RunPipeline(rt, hist, ps[k], RunChain(rt, hist, ps[..k], fds).fds, k);
            && RunChain(rt, hist, ps, fds).statuses[k] == r.status
            && RunChain(rt, hist, ps, fds).pipelines[k] == ps[k].(stages := r.stages)
    decreases |ps|
  {
    var init := ps[..|ps| - 1];
    if k < |ps| - 1 {
      RunChainRunsEveryCommand(rt, hist, init, fds, k);
      assert init[..k] == ps[..k] && init[k] == ps[k];
    } else {
      assert ps[..k] == init;
    }
  }

  /** Over a whole chain, `executeCommand`'s own closes only remove descriptors; the
      descriptors a builtin's `setUpFD` duplicates are not part of this model. */
  lemma {:induction false} RunChainOnlyCloses(rt: Runtime, hist: seq<string>, ps: seq<Pipeline>, fds: set<Fd>)
    requires AllReady(ps)
    ensures RunChain(rt, hist, ps, fds).fds <= fds
    decreases |ps|
  {
    if ps != [] {
      var init := ps[..|ps| - 1];
      RunChainOnlyCloses(rt, hist, init, fds);
      var prev := RunChain(rt, hist, init, fds);
      var p := ps[|ps| - 1];
      if p.stages != [] {
        var os := Outcomes(rt, hist, p.background, p.stages, |ps| - 1, 0);
        RunFromSucceeds(p.stages, os, 0, prev.fds);
        if RunFrom(p.stages, os, 0, prev.fds).status != 0 {
          var n := FirstFailure(os);
          RunFromStopsAtFirstFailure(p.stages, os, 0, prev.fds, n);
        }
      }
    }
  }


  /** In a background Command, every stage that is reached (all stages before it
      succeeded) runs with `noWait` set, and so does not wait for its child. */
  lemma BackgroundStagesDoNotWait(rt: Runtime, hist: seq<string>, p: Pipeline, fds: set<Fd>, index: nat, j: nat)
    requires forall k :: 0 <= k < |p.stages| ==> Ready(p.stages[k])
    requires p.background && j < |p.stages|
    requires forall k :: 0 <= k < j ==> Outcomes(rt, hist, p.background, p.stages, index, 0)[k].status == 0
    ensures RunPipeline(rt, hist, p, fds, index).stages[j].noWait
  {
    var os := Outcomes(rt, hist, p.background, p.stages, index, 0);
    var r := RunFrom(p.stages, os, 0, fds);
    OutcomeAt(rt, hist, p.background, p.stages, index, 0, j);
    RunFromSucceeds(p.stages, os, 0, fds);
    if r.status != 0 {
      var n := FirstFailure(os);
      assert j <= n;
      RunFromStopsAtFirstFailure(p.stages, os, 0, fds, n);
    }
    assert r.stages[j - 0] == os[j].stage;
  }

  // ---------------------------------------------------------------------------------------
  // The loops
  // ---------------------------------------------------------------------------------------

  /** One iteration of the loop of `executeCommand`, up to the status check, on stage `i` of
      Command number `index`, whose stages from the parser's hand are `stages` and whose
      outcomes are `os`. */
  method RunSimpleCommand(rt: Runtime, hist: seq<string>, sc: SimpleCommand, background: bool,
                          ghost stages: seq<Stage>, ghost os: seq<StageRun>, index: nat, i: nat)
    returns (status: int)
    requires i < |stages| && forall j :: 0 <= j < |stages| ==> Ready(stages[j])
    requires os == Outcomes(rt, hist, background, stages, index, 0)
    requires sc.Valid() && sc.Value() == stages[i]
    modifies sc
    ensures sc.Valid()
    ensures sc.inputFD == old(sc.inputFD) && sc.outputFD == old(sc.outputFD)
    ensures StageRun(status, sc.Value()) == os[i]
  {
    OutcomeAt(rt, hist, background, stages, index, 0, i);
    if background {
      sc.noWait := true;
    }
    if sc.commandName.None? {
      return -1;
    }
    sc.ValueWellFormed();
    var o := Invoke(rt, Position(index, i), sc.execute.value, Strings(sc.args), sc.noWait, hist);
    if o.pid.Some? {
      sc.pid := o.pid.value;
    }
    status := o.status;
  }

  /** The closing of descriptors after a successful stage `sc`, which holds `s` up to its
      `noWait` and `pid`. */
  method CloseRedirections(fds: set<Fd>, sc: SimpleCommand, ghost s: Stage) returns (open: set<Fd>)
    requires sc.inputFD == s.inputFd && sc.outputFD == s.outputFd
    ensures open == fds - Closes(s)
  {
    open := fds;
    if sc.inputFD != STDIN_FD {
      open := open - {sc.inputFD};
    }
    if sc.outputFD != STDOUT_FD {
      open := open - {sc.outputFD};
    }
  }

  /** What the loop of `executeCommand` knows before stage `i`: stages `0` to `i - 1` ran
      and succeeded, `vals` holds them as they are afterwards and the rest as they were, and
      `open` is what is left open. */
  predicate Reached(stages: seq<Stage>, os: seq<StageRun>, fds: set<Fd>, i: nat, vals: seq<Stage>, open: set<Fd>) {
    && |os| == |stages| == |vals| && i <= |stages|
    && (forall j :: 0 <= j < i ==> os[j].status == 0 && vals[j] == os[j].stage)
    && (forall j :: i <= j < |stages| ==> vals[j] == stages[j])
    && open == fds - ClosedBetween(stages, 0, i)
  }

  /** A stage that succeeds moves the loop on to the next one. */
  lemma ReachedNext(stages: seq<Stage>, os: seq<StageRun>, fds: set<Fd>, i: nat, vals: seq<Stage>, open: set<Fd>)
    requires Reached(stages, os, fds, i, vals, open) && i < |stages| && os[i].status == 0
    ensures Reached(stages, os, fds, i + 1, vals[i := os[i].stage], open - Closes(stages[i]))
  {
    ClosedBetweenExtend(stages, 0, i);
  }

  /** The state the loop of `executeCommand` reaches after stage `n` failed, as `RunFrom`
      describes it. */
  lemma StoppedRun(stages: seq<Stage>, os: seq<StageRun>, fds: set<Fd>, n: nat, vals: seq<Stage>, open: set<Fd>)
    requires Reached(stages, os, fds, n, vals, open) && n < |stages| && os[n].status != 0
    ensures RunFrom(stages, os, 0, fds) == Run(os[n].status, vals[n := os[n].stage], open)
  {
    RunFromStopsAtFirstFailure(stages, os, 0, fds, n);
    var r := RunFrom(stages, os, 0, fds);
    assert forall j :: 0 <= j < |vals| ==> vals[n := os[n].stage][j] == r.stages[j];
  }

  /** The state the loop of `executeCommand` reaches when every stage succeeded. */
  lemma CompletedRun(stages: seq<Stage>, os: seq<StageRun>, fds: set<Fd>, vals: seq<Stage>, open: set<Fd>)
    requires Reached(stages, os, fds, |stages|, vals, open)
    ensures RunFrom(stages, os, 0, fds) == Run(0, vals, open)
  {
    RunFromSucceeds(stages, os, 0, fds);
    var r := RunFrom(stages, os, 0, fds);
    assert forall j :: 0 <= j < |vals| ==> vals[j] == r.stages[j];
  }

  /** One iteration of the loop of `executeCommand` on SimpleCommand `i` of `command`, which
      is Command number `index`, held `p` and now holds `vals`: the stage runs and gives its
      outcome in `os`; on success its redirected input and output are closed and the loop
      moves on, on failure the loop ends as `RunFrom` says. */
  method ExecuteStage(rt: Runtime, hist: seq<string>, command: Command, ghost p: Pipeline, ghost os: seq<StageRun>,
                      ghost fds: set<Fd>, open: set<Fd>, index: nat, i: nat, ghost vals: seq<Stage>)
    returns (status: int, openAfter: set<Fd>, ghost valsAfter: seq<Stage>)
    requires command.Valid() && command.Stages() == vals && command.background == p.background
    requires i < command.nSimpleCommands && forall j :: 0 <= j < |p.stages| ==> Ready(p.stages[j])
    requires os == Outcomes(rt, hist, p.background, p.stages, index, 0)
    requires Reached(p.stages, os, fds, i, vals, open)
    modifies command.simpleCommands[i]
    ensures command.Valid() && command.Stages() == valsAfter
    ensures status == os[i].status
    ensures status == 0 ==> Reached(p.stages, os, fds, i + 1, valsAfter, openAfter)
    ensures status != 0 ==> RunFrom(p.stages, os, 0, fds) == Run(status, valsAfter, open)
  {
    var sc := command.simpleCommands[i];
    status := RunSimpleCommand(rt, hist, sc, command.background, p.stages, os, index, i);
    valsAfter := vals[i := os[i].stage];
    assert forall j :: 0 <= j < |vals| && j != i ==> command.simpleCommands[j] != sc;
    openAfter := open;
    if status == 0 {
      openAfter := CloseRedirections(open, sc, p.stages[i]);
      ReachedNext(p.stages, os, fds, i, vals, open);
    } else {
      StoppedRun(p.stages, os, fds, i, vals, open);
    }
  }

  /** The loop of `executeCommand` over a Command that holds the non-empty pipeline `p`:
      the status, the stages `vals` the Command holds afterwards and the descriptors left
      open are those `RunFrom` gives. */
  method ExecuteStages(rt: Runtime, hist: seq<string>, command: Command, ghost p: Pipeline, ghost os: seq<StageRun>, fds: set<Fd>, index: nat)
    returns (status: int, fdsOut: set<Fd>, ghost vals: seq<Stage>)
    requires command.Valid() && command.Stages() == p.stages && command.background == p.background
    requires forall j :: 0 <= j < |p.stages| ==> Ready(p.stages[j])
    requires os == Outcomes(rt, hist, p.background, p.stages, index, 0)
    modifies command.Repr
    ensures command.Valid() && command.Stages() == vals
    ensures RunFrom(p.stages, os, 0, fds) == Run(status, vals, fdsOut)
  {
    vals := p.stages;
    fdsOut := fds;
    var i := 0;
    while i < command.nSimpleCommands
      invariant command.Valid() && command.Stages() == vals && command.background == p.background
      invariant Reached(p.stages, os, fds, i, vals, fdsOut)
      decreases |vals| - i
    {
      var stageStatus, open;
      stageStatus, open, vals := ExecuteStage(rt, hist, command, p, os, fds, fdsOut, index, i, vals);
      if stageStatus != 0 {
        return stageStatus, fdsOut, vals;
      }
      fdsOut := open;
      i := i + 1;
    }
    CompletedRun(p.stages, os, fds, vals, fdsOut);
    status := 0;
  }

  /** `executeCommand` on Command number `index` of its chain, which holds the pipeline `p`,
      with the descriptors `fds` open: it returns the status `RunPipeline` gives, leaves open
      the descriptors it leaves, and leaves the Command holding the updated stages. */
  method ExecuteCommand(rt: Runtime, hist: seq<string>, command: Command?, ghost p: Pipeline, fds: set<Fd>, index: nat)
    returns (status: int, fdsOut: set<Fd>)
    requires command != null ==> command.Valid() && command.Holds(p)
    requires forall j :: 0 <= j < |p.stages| ==> Ready(p.stages[j])
    modifies if command == null then {} else command.Repr
    ensures command == null ==> status == -1 && fdsOut == fds
    ensures command != null ==>
              var r := RunPipeline(rt, hist, p, fds, index);
              && status == r.status && fdsOut == r.fds
              && command.Valid() && command.Holds(p.(stages := r.stages))
  {
    if command == null {
      return -1, fds;
    }
    if command.nSimpleCommands == 0 {
      return -1, fds;
    }
    assert command.Stages() == p.stages;
    ghost var vals;
    status, fdsOut, vals := ExecuteStages(rt, hist, command, p, Outcomes(rt, hist, p.background, p.stages, index, 0), fds, index);
  }

  /** Running Command `k` extends the run of the first `k` Commands by one. */
  lemma RunChainStep(rt: Runtime, hist: seq<string>, ps: seq<Pipeline>, fds: set<Fd>, k: nat)
    requires AllReady(ps) && k < |ps|
    ensures var cr := RunChain(rt, hist, ps[..k], fds);
            var r := RunPipeline(rt, hist, ps[k], cr.fds, k);
            RunChain(rt, hist, ps[..k + 1], fds)
              == ChainRun(cr.statuses + [r.status], cr.pipelines + [ps[k].(stages := r.stages)], r.fds)
  {
    assert ps[..k + 1][..k] == ps[..k];
  }

  /** One iteration of the loop of `executeCommandChain`: Command `k` of the chain, which
      holds `qs[k]`, runs from the descriptors `fds`; the other Commands are untouched. */
  method ExecuteNode(rt: Runtime, hist: seq<string>, chain: CommandChain, command: Command, ghost qs: seq<Pipeline>,
                     k: nat, fds: set<Fd>)
    returns (status: int, fdsOut: set<Fd>)
    requires chain.Valid() && chain.Models(qs) && k < |chain.Nodes| && command == chain.Nodes[k]
    requires forall j :: 0 <= j < |qs[k].stages| ==> Ready(qs[k].stages[j])
    modifies chain.Nodes[k].Repr
    ensures chain.Nodes == old(chain.Nodes) && chain.Repr == old(chain.Repr) && command.next == old(command.next)
    ensures chain.Valid()
    ensures var r := RunPipeline(rt, hist, qs[k], fds, k);
            && status == r.status && fdsOut == r.fds
            && chain.Models(qs[k := qs[k].(stages := r.stages)])
  {
    chain.ApartFrom(k);
    status, fdsOut := ExecuteCommand(rt, hist, command, qs[k], fds, k);
    ghost var q := qs[k].(stages := RunPipeline(rt, hist, qs[k], fds, k).stages);
    chain.OnlyNodeChanged(Replacement(qs, k, q));
  }

  /** Where the loop of `executeCommandChain` stands after `k` Commands: the status and
      descriptors the first `k` left, and the pipelines, run up to `k` and untouched after. */
  ghost predicate ChainAt(rt: Runtime, hist: seq<string>, ps: seq<Pipeline>, fds: set<Fd>, k: nat,
                          qs: seq<Pipeline>, status: int, open: set<Fd>)
  {
    && AllReady(ps) && k <= |ps| == |qs|
    && var cr := RunChain(rt, hist, ps[..k], fds);
       status == ChainStatus(cr) && open == cr.fds && qs == cr.pipelines + ps[k..]
  }

  lemma ChainAtStart(rt: Runtime, hist: seq<string>, ps: seq<Pipeline>, fds: set<Fd>)
    requires AllReady(ps)
    ensures ChainAt(rt, hist, ps, fds, 0, ps, 0, fds)
  {
    assert ps[..0] == [] && ps[0..] == ps;
  }

  /** Command `k` runs on the pipeline it was given, and the loop moves on. */
  lemma ChainAtNext(rt: Runtime, hist: seq<string>, ps: seq<Pipeline>, fds: set<Fd>, k: nat,
                    qs: seq<Pipeline>, status: int, open: set<Fd>)
    requires ChainAt(rt, hist, ps, fds, k, qs, status, open) && k < |ps|
    ensures |qs| == |ps| && qs[k] == ps[k]
    ensures forall j :: 0 <= j < |qs[k].stages| ==> Ready(qs[k].stages[j])
    ensures var r := RunPipeline(rt, hist, qs[k], open, k);
            ChainAt(rt, hist, ps, fds, k + 1, qs[k := qs[k].(stages := r.stages)], r.status, r.fds)
  {
    var cr := RunChain(rt, hist, ps[..k], fds);
    assert qs[k] == ps[k];
    RunChainStep(rt, hist, ps, fds, k);
    var r := RunPipeline(rt, hist, qs[k], open, k);
    assert qs[k := qs[k].(stages := r.stages)] == (cr.pipelines + [ps[k].(stages := r.stages)]) + ps[k + 1..];
  }

  lemma ChainAtEnd(rt: Runtime, hist: seq<string>, ps: seq<Pipeline>, fds: set<Fd>,
                   qs: seq<Pipeline>, status: int, open: set<Fd>)
    requires ChainAt(rt, hist, ps, fds, |ps|, qs, status, open)
    ensures var cr := RunChain(rt, hist, ps, fds);
            status == ChainStatus(cr) && open == cr.fds && qs == cr.pipelines
  {
    assert ps[..|ps|] == ps && ps[|ps|..] == [];
  }

  /** `executeCommandChain`: a NULL chain is an error; otherwise every Command runs, in order,
      whatever the statuses before it, and the status of the last one is returned (0 for an
      empty chain). */
  method ExecuteCommandChain(rt: Runtime, hist: seq<string>, chain: CommandChain?, ghost ps: seq<Pipeline>, fds: set<Fd>)
    returns (status: int, fdsOut: set<Fd>)
    requires chain != null ==> chain.Valid() && chain.Models(ps) && AllReady(ps)
    modifies if chain == null then {} else chain.Repr
    ensures chain == null ==> status == -1 && fdsOut == fds
    ensures chain != null ==>
              var cr := RunChain(rt, hist, ps, fds);
              && status == ChainStatus(cr) && fdsOut == cr.fds
              && chain.Valid() && chain.Models(cr.pipelines)
  {
    if chain == null {
      return -1, fds;
    }
    var command := chain.head;
    status, fdsOut := 0, fds;
    var k: nat := 0;
    ghost var qs := ps;
    ChainAtStart(rt, hist, ps, fds);
    while command != null
      invariant chain.Valid() && chain.Repr == old(chain.Repr) && |chain.Nodes| == |ps|
      invariant k <= |ps| && command == (if k == |ps| then null else chain.Nodes[k])
      invariant ChainAt(rt, hist, ps, fds, k, qs, status, fdsOut) && chain.Models(qs)
      decreases |chain.Nodes| - k
    {
      ChainAtNext(rt, hist, ps, fds, k, qs, status, fdsOut);
      chain.NextOf(k);
      ghost var next := if k + 1 == |ps| then null else chain.Nodes[k + 1];
      ghost var q := qs[k].(stages := RunPipeline(rt, hist, qs[k], fdsOut, k).stages);
      status, fdsOut := ExecuteNode(rt, hist, chain, command, qs, k, fdsOut);
      qs := qs[k := q];
      assert command.next == next;
      command := command.next;
      k := k + 1;
    }
    ChainAtEnd(rt, hist, ps, fds, qs, status, fdsOut);
  }
}
