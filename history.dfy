/** The shell's command history (src/shell_builtins.c:19-134): a singly linked list with
    head, tail and size, and the two lookups the `history` builtin uses, which read the list
    and are modelled as functions of its entries in insertion order. */
module ShellHistory {
  import opened Wrappers
  import opened Utils

  class HistoryNode {
    var command: string
    var next: HistoryNode?

    constructor (command: string)
      ensures this.command == command && next == null
    {
      this.command := command;
      next := null;
    }
  }

  class HistoryList {
    var head: HistoryNode?
    var tail: HistoryNode?
    var size: nat

    /** The entries, oldest first, and the nodes that hold them. */
    ghost var Contents: seq<string>
    ghost var Nodes: seq<HistoryNode>

    /** The list as `add_to_history` keeps it. Note that a one-entry list has a NULL tail:
        the first append sets only `head`, and the second sets `tail`. */
    ghost predicate Valid()
      reads this, Nodes
    {
      && |Nodes| == |Contents| == size
      && (forall k :: 0 <= k < |Nodes| ==> Nodes[k].command == Contents[k])
      && (forall k :: 0 <= k < |Nodes| - 1 ==> Nodes[k].next == Nodes[k + 1])
      && (|Nodes| > 0 ==> Nodes[|Nodes| - 1].next == null)
      && (forall j, k :: 0 <= j < k < |Nodes| ==> Nodes[j] != Nodes[k])
      && head == (if |Nodes| == 0 then null else Nodes[0])
      && tail == (if |Nodes| <= 1 then null else Nodes[|Nodes| - 1])
      && (head != null ==> (head.next == null <==> |Nodes| == 1))
    }

    /** The history part of `init_shell_state`. */
    constructor Init()
      ensures Valid() && Contents == [] && size == 0
    {
      head, tail, size := null, null, 0;
      Contents, Nodes := [], [];
    }

    /** `add_to_history`: a NULL command is refused; otherwise a copy of it is appended. */
    method AddToHistory(command: Option<string>) returns (status: int)
      requires Valid()
      modifies this, Nodes
      ensures Valid()
      ensures command.None? ==> status == -1 && Contents == old(Contents) && size == old(size)
      ensures command.Some? ==> status == 0 && Contents == old(Contents) + [Copy(command.value)]
      ensures command.Some? ==> size == old(size) + 1
    {
      if command.None? {
        return -1;
      }
      var node := new HistoryNode(Copy(command.value));
      ghost var n := |Nodes|;
      if head == null {
        head := node;
      } else if head.next == null {
        tail := node;
        head.next := tail;
      } else {
        assert tail == Nodes[n - 1] && n >= 2;
        tail.next := node;
        tail := node;
        assert forall k :: 0 <= k < n - 1 ==> Nodes[k] != Nodes[n - 1];
      }
      size := size + 1;
      Contents := Contents + [node.command];
      Nodes := Nodes + [node];
      assert forall k :: 0 <= k < n - 1 ==> Nodes[k].next == Nodes[k + 1];
      assert n > 0 ==> Nodes[n - 1].next == node;
      status := 0;
    }

    /** `clean_history`: walks the list from head to NULL, then resets it. Each step of the
        walk stands for the `free` of a node's command and of the node
        (src/shell_builtins.c:94-99); releasing memory is not observable in this model, so the
        walk only visits the nodes and the postcondition comes from the reset. */
    method CleanHistory()
      requires Valid()
      modifies this
      ensures Valid() && head == null && tail == null && size == 0 && Contents == []
    {
      var current := head;
      ghost var k := 0;
      while current != null
        invariant k <= |Nodes|
        invariant current == (if k == |Nodes| then null else Nodes[k])
        decreases |Nodes| - k
      {
        var next := current.next;
        current := next;
        k := k + 1;
      }
      head, tail, size := null, null, 0;
      Contents, Nodes := [], [];
    }

    /** The entries, read by walking the list from `head`. */
    method Entries() returns (entries: seq<string>)
      requires Valid()
      ensures entries == Contents
    {
      entries := [];
      var current := head;
      ghost var k := 0;
      while current != null
        invariant k <= |Nodes| && entries == Contents[..k]
        invariant current == (if k == |Nodes| then null else Nodes[k])
        decreases |Nodes| - k
      {
        entries := entries + [current.command];
        current := current.next;
        k := k + 1;
      }
    }
  }

  // ---------------------------------------------------------------------------------------
  // get_command
  // ---------------------------------------------------------------------------------------

  /** What the source's `get_command` can do: return an entry, return NULL, or dereference
      NULL. */
  datatype Lookup = Found(command: string) | NotFound | NullDereference

  /** The `for` loop of `get_command`: `pos` is the node `curr` points at (`|h|` is NULL) and
      `ctr` its 1-based counter; after the loop the source reads `curr->command`. */
  function WalkHistory(h: seq<string>, pos: nat, ctr: nat, index: nat): (r: Lookup)
    requires pos <= |h|
    decreases |h| - pos
  {
    if pos == |h| then NullDereference
    else if ctr == index then Found(h[pos])
    else WalkHistory(h, pos + 1, ctr + 1, index)
  }

  /** `get_command` as written. */
  function GetCommandAsWritten(h: seq<string>, index: nat): Lookup {
    if index > |h| || |h| == 0 then NotFound else WalkHistory(h, 0, 1, index)
  }

  lemma {:induction false} WalkFinds(h: seq<string>, pos: nat, ctr: nat, index: nat)
    requires pos <= |h| && ctr == pos + 1
    ensures pos < index <= |h| ==> WalkHistory(h, pos, ctr, index) == Found(h[index - 1])
    ensures index <= pos ==> WalkHistory(h, pos, ctr, index) == NullDereference
    decreases |h| - pos
  {
    if pos < |h| {
      WalkFinds(h, pos + 1, ctr + 1, index);
    }
  }

  /** The source's defect: index 0 on a non-empty list runs `curr` off the end of the list
      and dereferences NULL; it is the only input that does. */
  lemma GetCommandAsWrittenDereferencesNull(h: seq<string>, index: nat)
    ensures GetCommandAsWritten(h, index) == NullDereference <==> index == 0 && |h| > 0
    ensures 1 <= index <= |h| ==> GetCommandAsWritten(h, index) == Found(h[index - 1])
    ensures GetCommandAsWritten(h, index) == NotFound <==> index > |h| || |h| == 0
  {
    if |h| > 0 && index <= |h| {
      WalkFinds(h, 0, 1, index);
    }
  }

  /** `get_command` with the missing `index == 0` check: the 1-based entry, or NULL. */
  function GetCommand(h: seq<string>, index: nat): (r: Option<string>)
    ensures r.Some? <==> 1 <= index <= |h|
    ensures r.Some? ==> r.value == h[index - 1]
  {
    if index == 0 then None
    else
      GetCommandAsWrittenDereferencesNull(h, index);
      match GetCommandAsWritten(h, index)
      case Found(c) => Some(c)
      case _ => None
  }

  /** Away from the defect, the corrected lookup agrees with the source. */
  lemma GetCommandAgrees(h: seq<string>, index: nat)
    requires GetCommandAsWritten(h, index) != NullDereference
    ensures GetCommand(h, index).Some? <==> GetCommandAsWritten(h, index).Found?
    ensures GetCommand(h, index).Some? ==> GetCommand(h, index).value == GetCommandAsWritten(h, index).command
  {
    GetCommandAsWrittenDereferencesNull(h, index);
  }

  /** A one-entry history looked up at index 0. */
  lemma GetCommandZeroCounterexample()
    ensures GetCommandAsWritten(["ls"], 0) == NullDereference
    ensures GetCommand(["ls"], 0) == None
  {
    GetCommandAsWrittenDereferencesNull(["ls"], 0);
  }

  // ---------------------------------------------------------------------------------------
  // find_last_command_with_prefix
  // ---------------------------------------------------------------------------------------

  /** `strncmp(command, prefix, strlen(prefix)) == 0`. */
  predicate StartsWith(command: string, prefix: string) {
    prefix <= command
  }

  /** The loop of `find_last_command_with_prefix` from node `k`, remembering in `last` the
      latest match seen so far. */
  function FindLastFrom(h: seq<string>, prefix: string, k: nat, last: Option<string>): (r: Option<string>)
    requires k <= |h|
    ensures (forall j :: k <= j < |h| ==> !StartsWith(h[j], prefix)) ==> r == last
    ensures (exists j :: k <= j < |h| && StartsWith(h[j], prefix)) ==>
              exists j :: k <= j < |h| && StartsWith(h[j], prefix) && r == Some(h[j])
                       && forall i :: j < i < |h| ==> !StartsWith(h[i], prefix)
    decreases |h| - k
  {
    if k == |h| then last
    else FindLastFrom(h, prefix, k + 1, if StartsWith(h[k], prefix) then Some(h[k]) else last)
  }

  /** `find_last_command_with_prefix`: the most recent entry starting with `prefix`; NULL if
      there is none or if the list, its head or the prefix is NULL. */
  function FindLastWithPrefix(list: Option<seq<string>>, prefix: Option<string>): (r: Option<string>)
    ensures r.Some? ==>
              && list.Some? && prefix.Some?
              && exists j :: 0 <= j < |list.value| && r.value == list.value[j] && StartsWith(list.value[j], prefix.value)
                          && forall i :: j < i < |list.value| ==> !StartsWith(list.value[i], prefix.value)
    ensures r.None? && list.Some? && prefix.Some? ==>
              forall j :: 0 <= j < |list.value| ==> !StartsWith(list.value[j], prefix.value)
  {
    if list.None? || list.value == [] || prefix.None? then None
    else FindLastFrom(list.value, prefix.value, 0, None)
  }
}
