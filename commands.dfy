/** The command data structures of include/command.h and the routines of src/command.c that
    build and release them. A SimpleCommand's argument array is a sequence that ends with a
    NULL entry (or is empty while the C array is still NULL); a Command's array of
    SimpleCommands is a sequence of references; a CommandChain is a linked list of Commands. */
module Commands {
  import opened Wrappers
  import opened Utils
  import opened Builtins
  import opened Pipelines

  class SimpleCommand {
    var commandName: Option<string>
    var args: seq<Option<string>>
    var argc: nat
    var inputFD: Fd
    var outputFD: Fd
    var stderrFD: Fd
    var pid: int
    var noWait: bool
    var execute: Option<Handler>

    /** The strings the argument array holds before its NULL. */
    ghost var argv: seq<string>

    /** The argument array as `pushArgs` keeps it: NULL before the first push, afterwards
        the `argc` strings of `argv` followed by a NULL; the name is a copy of the first
        argument. */
    ghost predicate Valid()
      reads this
    {
      && |argv| == argc
      && (argc == 0 ==> args == [] && commandName.None?)
      && (argc > 0 ==>
            && |args| == argc + 1
            && args[argc].None?
            && (forall k :: 0 <= k < argc ==> args[k] == Some(argv[k]))
            && commandName == Some(argv[0]))
    }

    /** The stage this SimpleCommand holds. */
    ghost function Value(): Stage
      reads this
    {
      Stage(commandName, argv, inputFD, outputFD, stderrFD, noWait, pid, execute)
    }

    /** `initSimpleCommand`. */
    constructor Init()
      ensures Valid() && Value() == FreshStage && argc == 0 && args == []
    {
      commandName := None;
      args := [];
      argc := 0;
      inputFD, outputFD, stderrFD := STDIN_FD, STDOUT_FD, STDERR_FD;
      noWait := false;
      execute := None;
      pid := -1;
      argv := [];
    }

    /** The name and the argument array have been released. */
    ghost predicate Released()
      reads this
    {
      commandName.None? && args == []
    }

    /** A valid SimpleCommand holds a well-formed stage, and reading its argument array up
        to the NULL gives the stage's arguments. */
    lemma ValueWellFormed()
      requires Valid()
      ensures WellFormed(Value())
      ensures Strings(args) == argv
    {
      ArgvStrings(args, argv);
    }
  }

  /** Reading an argument array that holds `argv` and a NULL. */
  lemma {:induction false} ArgvStrings(args: seq<Option<string>>, argv: seq<string>)
    requires |argv| > 0 ==> |args| == |argv| + 1 && args[|argv|].None? && forall k :: 0 <= k < |argv| ==> args[k] == Some(argv[k])
    requires argv == [] ==> args == []
    ensures Strings(args) == argv
    decreases |argv|
  {
    if argv != [] {
      assert args[0] == Some(argv[0]);
      if |argv| > 1 {
        ArgvStrings(args[1..], argv[1..]);
      } else {
        assert args[1..] == [None];
      }
    }
  }

  /** `pushArgs`: grows the array by one slot, stores a copy of `arg` where the NULL was,
      writes a new NULL after it, and names the command on its first argument. */
  method PushArgs(arg: string, sc: SimpleCommand?) returns (status: int)
    requires sc != null ==> sc.Valid()
    modifies sc
    ensures sc == null ==> status == -1
    ensures sc != null ==> status == 0 && sc.Valid()
    ensures sc != null ==> sc.argc == old(sc.argc) + 1 && sc.args[sc.argc] == None
    ensures sc != null ==> sc.args[..old(sc.argc)] == old(sc.args)[..old(sc.argc)]
    ensures sc != null ==> sc.args[old(sc.argc)] == Some(Copy(arg))
    ensures sc != null ==> sc.Value() == Push(old(sc.Value()), arg)
  {
    if sc == null {
      return -1;
    }
    var n := sc.argc;
    var grown := sc.args[..n] + [None, None];   // realloc to argc + 2 slots
    grown := grown[n := Some(Copy(arg))][n + 1 := None];
    sc.args := grown;
    sc.argc := n + 1;
    if sc.argc == 1 {
      sc.commandName := Some(Copy(arg));
    }
    sc.argv := sc.argv + [Copy(arg)];
    status := 0;
  }

  class Command {
    var simpleCommands: seq<SimpleCommand>
    var nSimpleCommands: nat
    var background: bool
    var chainingOperator: Option<string>
    var next: Command?

    /** The SimpleCommands this Command holds. */
    ghost var Repr: set<SimpleCommand>

    /** The count matches the array, every stage is valid and no stage appears twice. */
    ghost predicate Valid()
      reads this`nSimpleCommands, this`simpleCommands, this`Repr, Repr
    {
      && nSimpleCommands == |simpleCommands|
      && (forall j :: 0 <= j < |simpleCommands| ==> simpleCommands[j] in Repr && simpleCommands[j].Valid())
      && (forall i, j :: 0 <= i < j < |simpleCommands| ==> simpleCommands[i] != simpleCommands[j])
    }

    /** The Command holds the pipeline `p`. */
    ghost predicate Holds(p: Pipeline)
      reads this`simpleCommands, this`background, this`chainingOperator, simpleCommands
    {
      && |simpleCommands| == |p.stages|
      && (forall j :: 0 <= j < |p.stages| ==> simpleCommands[j].Value() == p.stages[j])
      && background == p.background
      && chainingOperator == p.chainingOperator
    }

    /** The stages the SimpleCommands hold, in order. */
    ghost function Stages(): (ss: seq<Stage>)
      reads this, simpleCommands
      ensures |ss| == |simpleCommands|
      ensures forall j :: 0 <= j < |ss| ==> ss[j] == simpleCommands[j].Value()
    {
      seq(|simpleCommands|, j requires 0 <= j < |simpleCommands| reads this, simpleCommands => simpleCommands[j].Value())
    }

    /** The chaining operator and every stage's name and arguments have been released. */
    ghost predicate Released()
      reads this`chainingOperator, this`simpleCommands, simpleCommands
    {
      chainingOperator.None? && forall j :: 0 <= j < |simpleCommands| ==> simpleCommands[j].Released()
    }

    /** `initCommand`. */
    constructor Init()
      ensures Valid() && Holds(FreshPipeline) && simpleCommands == [] && next == null && Repr == {}
    {
      simpleCommands := [];
      nSimpleCommands := 0;
      background := false;
      chainingOperator := None;
      next := null;
      Repr := {};
    }
  }

  /** `addSimpleCommand`: either pointer NULL is an error and changes nothing; otherwise the
      stage goes at the end of the array. */
  method AddSimpleCommand(command: Command?, sc: SimpleCommand?) returns (status: int)
    requires command != null ==> command.nSimpleCommands == |command.simpleCommands|
    modifies command
    ensures command == null || sc == null ==> status == -1
    ensures command != null && sc == null ==> unchanged(command)
    ensures command != null && sc != null ==> status == 0
    ensures command != null && sc != null ==> command.simpleCommands == old(command.simpleCommands) + [sc]
    ensures command != null && sc != null ==> command.nSimpleCommands == old(command.nSimpleCommands) + 1
    ensures command != null && sc != null ==> command.Repr == old(command.Repr) + {sc}
    ensures command != null && sc != null ==>
              && command.background == old(command.background)
              && command.chainingOperator == old(command.chainingOperator)
              && command.next == old(command.next)
    ensures command != null && sc != null && old(command.Valid()) && sc.Valid() && sc !in old(command.Repr) ==>
              command.Valid()
  {
    if command == null {
      return -1;
    }
    if sc == null {
      return -1;
    }
    command.simpleCommands := command.simpleCommands[..command.nSimpleCommands] + [sc];
    command.nSimpleCommands := command.nSimpleCommands + 1;
    command.Repr := command.Repr + {sc};
    status := 0;
  }

  /** Pipeline `k` of the list `before` replaced by `after`. */
  datatype Replacement = Replacement(before: seq<Pipeline>, k: nat, after: Pipeline)

  class CommandChain {
    var head: Command?
    var tail: Command?

    /** The Commands from head to tail, and every object the chain reaches. */
    ghost var Nodes: seq<Command>
    ghost var Repr: set<object>

    /** Positions `i` and `k` hold different Commands, with no stage in common. */
    ghost predicate Separate(i: int, k: int)
      reads this, Nodes
    {
      0 <= i < |Nodes| && 0 <= k < |Nodes| ==> Nodes[i] != Nodes[k] && Nodes[i].Repr !! Nodes[k].Repr
    }

    /** A NULL-terminated list from head to tail; no Command is reached twice and no two
        Commands share a stage. (The pairs are spelled through `Separate`, and `Apart` is the
        way to use them.) */
    ghost predicate Valid()
      reads this, Repr
    {
      && this in Repr
      && (forall k :: 0 <= k < |Nodes| ==> Nodes[k] in Repr && Nodes[k].Repr <= Repr)
      && (forall k :: 0 <= k < |Nodes| ==> Nodes[k].Valid())
      && (forall i, k {:trigger Separate(i, k)} :: 0 <= i < k < |Nodes| ==> Separate(i, k))
      && (forall k :: 0 <= k < |Nodes| - 1 ==> Nodes[k].next == Nodes[k + 1])
      && (|Nodes| > 0 ==> Nodes[|Nodes| - 1].next == null)
      && head == (if Nodes == [] then null else Nodes[0])
      && tail == (if Nodes == [] then null else Nodes[|Nodes| - 1])
    }

    /** The chain holds the pipelines `ps`, in order. */
    ghost predicate Models(ps: seq<Pipeline>)
      reads this, Repr
      requires Valid()
    {
      |Nodes| == |ps| && forall k :: 0 <= k < |Nodes| ==> Nodes[k].Holds(ps[k])
    }

    /** Two positions of the chain hold different Commands, with no stage in common. */
    lemma Apart(i: nat, k: nat)
      requires Valid() && i < |Nodes| && k < |Nodes| && i != k
      ensures Nodes[i] != Nodes[k] && Nodes[i].Repr !! Nodes[k].Repr
    {
      if i < k {
        assert Separate(i, k);
      } else {
        assert Separate(k, i);
      }
    }

    /** Following `next` from Command `k` reaches Command `k + 1`, or NULL after the tail. */
    lemma NextOf(k: nat)
      requires Valid() && k < |Nodes|
      ensures Nodes[k].next == if k + 1 == |Nodes| then null else Nodes[k + 1]
    {
    }

    /** No two positions of the chain share a Command or a stage. */
    lemma AllApart()
      requires Valid()
      ensures forall i, l :: 0 <= i < l < |Nodes| ==> Nodes[i] != Nodes[l] && Nodes[i].Repr !! Nodes[l].Repr
    {
      forall i, l | 0 <= i < l < |Nodes|
        ensures Nodes[i] != Nodes[l] && Nodes[i].Repr !! Nodes[l].Repr
      {
        Apart(i, l);
      }
    }

    /** All the Commands of the chain other than `k` are apart from `k`. */
    lemma ApartFrom(k: nat)
      requires Valid() && k < |Nodes|
      ensures forall m :: 0 <= m < |Nodes| && m != k ==> Nodes[m].Repr !! Nodes[k].Repr
    {
      forall m | 0 <= m < |Nodes| && m != k
        ensures Nodes[m].Repr !! Nodes[k].Repr
      {
        Apart(m, k);
      }
    }

    /** When only the SimpleCommands of Command `u.k` change and that Command stays valid,
        the chain stays valid. */
    twostate lemma OnlyNodeChangedValid(u: Replacement)
      requires old(Valid()) && u.k < |old(Nodes)|
      requires forall m :: 0 <= m < |old(Nodes)| && m != u.k ==> old(Nodes[m].Repr !! Nodes[u.k].Repr)
      requires forall o :: o in old(Repr) && o !in old(Nodes[u.k].Repr) ==> unchanged(o)
      requires old(Nodes[u.k]).Valid()
      ensures Valid() && Nodes == old(Nodes)
    {
      var nodes, k := Nodes, u.k;
      assert unchanged(this) && forall m :: 0 <= m < |nodes| ==> unchanged(nodes[m]);
      forall m | 0 <= m < |nodes| && m != k
        ensures nodes[m].Valid()
      {
        assert forall o :: o in nodes[m].Repr ==> unchanged(o);
        assert old(nodes[m].Valid());
      }
    }

    /** ... and when that Command comes to hold `u.after`, the chain holds `u.after` in place
        of the pipeline it held there. */
    twostate lemma OnlyNodeChanged(u: Replacement)
      requires old(Valid()) && old(Models(u.before)) && u.k < |old(Nodes)|
      requires forall m :: 0 <= m < |old(Nodes)| && m != u.k ==> old(Nodes[m].Repr !! Nodes[u.k].Repr)
      requires forall o :: o in old(Repr) && o !in old(Nodes[u.k].Repr) ==> unchanged(o)
      requires old(Nodes[u.k]).Valid() && old(Nodes[u.k]).Holds(u.after)
      ensures Valid() && Models(u.before[u.k := u.after])
    {
      OnlyNodeChangedValid(u);
      var nodes, k := Nodes, u.k;
      forall m | 0 <= m < |nodes| && m != k
        ensures nodes[m].Holds(u.before[m])
      {
        assert forall o :: o in nodes[m].Repr ==> unchanged(o);
        assert old(nodes[m].Holds(u.before[m]));
      }
    }

    /** `initCommandChain`. */
    constructor Init()
      ensures Valid() && Nodes == [] && Models([]) && Repr == {this}
    {
      head, tail := null, null;
      Nodes, Repr := [], {this};
    }
  }

  /** `addCommandToChain`: a NULL chain is an error; otherwise the Command becomes the new
      tail (and the head too if the chain was empty). The Command must be a new one, as
      every caller passes. */
  method AddCommandToChain(chain: CommandChain?, command: Command) returns (status: int)
    requires chain != null ==> chain.Valid() && command.Valid()
    requires chain != null ==> command.next == null && command !in chain.Repr && command.Repr !! chain.Repr
    modifies chain, if chain == null || chain.tail == null then {} else {chain.tail}
    ensures chain == null ==> status == -1
    ensures chain != null ==> status == 0 && chain.Valid()
    ensures chain != null ==> chain.Nodes == old(chain.Nodes) + [command]
    ensures chain != null ==> chain.Repr == old(chain.Repr) + {command} + command.Repr
    ensures chain != null && old(chain.tail) != null ==> old(chain.tail).simpleCommands == old(chain.tail.simpleCommands) && old(chain.tail).background == old(chain.tail.background) && old(chain.tail).chainingOperator == old(chain.tail.chainingOperator)
  {
    if chain == null {
      return -1;
    }
    ghost var nodes, repr := chain.Nodes, chain.Repr;
    if chain.head == null {
      chain.head := command;
      chain.tail, chain.Nodes, chain.Repr := command, [command], repr + {command} + command.Repr;
    } else {
      chain.tail.next := command;
      chain.tail, chain.Nodes, chain.Repr := command, nodes + [command], repr + {command} + command.Repr;
      assert forall k :: 0 <= k < |nodes| - 1 ==> nodes[k].next == nodes[k + 1];
      assert forall k :: 0 <= k < |nodes| ==> nodes[k].Valid();
      forall i, k | 0 <= i < k <= |nodes|
        ensures chain.Separate(i, k)
      {
        assert k < |nodes| ==> old(chain.Separate(i, k));
      }
    }
    status := 0;
  }

  // ---------------------------------------------------------------------------------------
  // Cleanup. Releasing memory is not observable in the model: a released string or array is
  // NULL afterwards, and the structs themselves stay as they were. No descriptor is closed.
  // ---------------------------------------------------------------------------------------

  /** `cleanUpSimpleCommand`: releases the name, then each argument, then the array. */
  method CleanUpSimpleCommand(sc: SimpleCommand?)
    requires sc != null ==> sc.Valid()
    modifies sc
    ensures sc != null ==> sc.Released() && sc.argc == old(sc.argc)
    ensures sc != null ==> sc.Value() == old(sc.Value()).(name := None, args := [])
  {
    if sc == null {
      return;
    }
    if sc.commandName.Some? {
      sc.commandName := None;
    }
    if sc.args != [] {
      var i := 0;
      while i < sc.argc
        invariant i <= sc.argc == old(sc.argc) && |sc.args| == sc.argc + 1
        invariant forall k :: 0 <= k < i ==> sc.args[k].None?
        invariant sc.commandName.None?
        invariant sc.Value().(args := []) == old(sc.Value()).(name := None, args := [])
      {
        if sc.args[i].Some? {
          sc.args := sc.args[i := None];
        }
        i := i + 1;
      }
      sc.args := [];
    }
    sc.argv := [];
  }

  /** `cleanUpCommand`: cleans up every stage and releases the chaining operator; the
      Command struct itself is left to the caller. */
  method CleanUpCommand(command: Command?)
    requires command != null ==> command.Valid()
    modifies command
    modifies if command == null then {} else command.Repr
    ensures command != null ==> command.Released()
    ensures command != null ==>
              && command.simpleCommands == old(command.simpleCommands)
              && command.nSimpleCommands == old(command.nSimpleCommands)
              && command.background == old(command.background)
              && command.next == old(command.next)
              && command.Repr == old(command.Repr)
    ensures command != null ==> forall j :: 0 <= j < |command.simpleCommands| ==>
              command.simpleCommands[j].Value() == old(command.simpleCommands[j].Value()).(name := None, args := [])
  {
    if command == null {
      return;
    }
    ghost var scs := command.simpleCommands;
    var i := 0;
    while i < command.nSimpleCommands
      invariant i <= command.nSimpleCommands == |scs|
      invariant unchanged(command)
      invariant forall j :: 0 <= j < i ==>
                  scs[j].Released() && scs[j].Value() == old(scs[j].Value()).(name := None, args := [])
      invariant forall j :: i <= j < |scs| ==> unchanged(scs[j])
    {
      CleanUpSimpleCommand(command.simpleCommands[i]);
      i := i + 1;
    }
    if command.chainingOperator.Some? {
      command.chainingOperator := None;
    }
  }

  /** `cleanUpCommandChain`: walks the chain from its head, cleaning up each Command before
      moving to the one it links to. */
  method CleanUpCommandChain(chain: CommandChain?)
    requires chain != null ==> chain.Valid()
    modifies if chain == null then {} else chain.Repr
    ensures chain != null ==> forall k :: 0 <= k < |chain.Nodes| ==> chain.Nodes[k].Released()
    ensures chain != null ==> unchanged(chain) && forall k :: 0 <= k < |chain.Nodes| ==>
              chain.Nodes[k].Repr == old(chain.Nodes[k].Repr) && chain.Nodes[k].simpleCommands == old(chain.Nodes[k].simpleCommands)
  {
    if chain == null {
      return;
    }
    chain.AllApart();
    if chain.head != null {
      CleanUpFrom(chain.head, chain.Nodes, chain.Repr - {chain});
    }
  }

  /** The loop of `cleanUpCommandChain`, from the Command `first` of the list `nodes`. */
  method CleanUpFrom(first: Command, ghost nodes: seq<Command>, ghost repr: set<object>)
    requires nodes != [] && first == nodes[0]
    requires forall i :: 0 <= i < |nodes| ==> nodes[i].Valid() && nodes[i] in repr && nodes[i].Repr <= repr
    requires forall i :: 0 <= i < |nodes| - 1 ==> nodes[i].next == nodes[i + 1]
    requires nodes[|nodes| - 1].next == null
    requires forall i, l :: 0 <= i < l < |nodes| ==> nodes[i] != nodes[l] && nodes[i].Repr !! nodes[l].Repr
    modifies repr
    ensures forall i :: 0 <= i < |nodes| ==> nodes[i].Released()
    ensures forall i :: 0 <= i < |nodes| ==>
              nodes[i].Repr == old(nodes[i].Repr) && nodes[i].simpleCommands == old(nodes[i].simpleCommands)
  {
    var command: Command? := first;
    ghost var k := 0;
    while command != null
      invariant k <= |nodes|
      invariant command == (if k == |nodes| then null else nodes[k])
      invariant forall i :: 0 <= i < |nodes| ==>
                  && nodes[i].Repr == old(nodes[i].Repr)
                  && nodes[i].simpleCommands == old(nodes[i].simpleCommands)
                  && forall j :: 0 <= j < |nodes[i].simpleCommands| ==> nodes[i].simpleCommands[j] in nodes[i].Repr
      invariant forall i :: 0 <= i < k ==> nodes[i].Released()
      invariant forall i :: k <= i < |nodes| ==> unchanged(nodes[i]) && unchanged(nodes[i].Repr)
      decreases |nodes| - k
    {
      var nextCommand := command.next;
      CleanUpCommand(command);
      command := nextCommand;
      k := k + 1;
    }
  }
}
