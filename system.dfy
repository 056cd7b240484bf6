/** The operating-system calls the parser makes (`open`, `pipe`, `glob`), as oracles over a
    table of open descriptors. Which calls succeed and which files match a pattern are
    parameters; the descriptor numbers follow the POSIX rule that a new descriptor is the
    lowest-numbered one not currently open. */
module System {
  import opened Wrappers
  import opened Utils

  /** The `open` flag combinations the parser uses. The two creating ones carry the
      permission bits passed as the third argument. */
  datatype OpenFlags =
    | ReadOnly                        // O_RDONLY
    | WriteCreateTruncate(mode: int)  // O_WRONLY | O_CREAT | O_TRUNC
    | WriteCreateAppend(mode: int)    // O_WRONLY | O_CREAT | O_APPEND

  /** Permission bits for created files: octal 0644. */
  const CREATE_MODE: int := 6 * 64 + 4 * 8 + 4

  /** What `glob(pattern, GLOB_NOCHECK | GLOB_TILDE, ...)` finds: the matching paths (after
      tilde expansion), or an error such as running out of memory. */
  datatype GlobResult = Matches(paths: seq<string>) | GlobError

  /** The environment of one parse: whether `open` succeeds for a path and flags, whether
      `pipe` succeeds with a given descriptor table, and what the file system matches. */
  datatype Os = Os(
    canOpen: (string, OpenFlags) -> bool,
    canPipe: set<Fd> -> bool,
    glob: string -> GlobResult)

  /** If every descriptor below `k` is open, at least `k` descriptors are open. */
  lemma {:induction false} PrefixOpenBound(fds: set<Fd>, k: nat)
    requires forall j :: 0 <= j < k ==> j in fds
    ensures k <= |fds|
  {
    if k > 0 {
      PrefixOpenBound(fds - {k - 1}, k - 1);
    }
  }

  function LowestFreeFrom(fds: set<Fd>, k: Fd): (fd: Fd)
    requires forall j :: 0 <= j < k ==> j in fds
    ensures k <= fd && fd !in fds
    ensures forall j :: 0 <= j < fd ==> j in fds
    decreases |fds| - k
  {
    PrefixOpenBound(fds, k);
    if k in fds then
      PrefixOpenBound(fds, k + 1);
      LowestFreeFrom(fds, k + 1)
    else k
  }

  /** The descriptor the kernel hands out next: the lowest one not open. */
  function LowestFree(fds: set<Fd>): (fd: Fd)
    ensures fd !in fds
    ensures forall j :: 0 <= j < fd ==> j in fds
  {
    LowestFreeFrom(fds, 0)
  }

  /** The two ends `pipe` stores in `pipefd[PIPE_READ_END]` and `pipefd[PIPE_WRITE_END]`:
      two fresh, distinct descriptors, the read end allocated first. */
  function PipeEnds(fds: set<Fd>): (ends: (Fd, Fd))
    ensures ends.0 !in fds && ends.1 !in fds && ends.0 != ends.1
    ensures ends.0 < ends.1
  {
    var rd := LowestFree(fds);
    (rd, LowestFree(fds + {rd}))
  }

  /** `open(path, flags, ...)`: -1 when the file system refuses, otherwise the lowest free
      descriptor. */
  function Open(os: Os, fds: set<Fd>, path: string, flags: OpenFlags): (fd: int)
    ensures fd == -1 <==> !os.canOpen(path, flags)
    ensures fd != -1 ==> 0 <= fd && fd !in fds && forall j :: 0 <= j < fd ==> j in fds
  {
    if os.canOpen(path, flags) then LowestFree(fds) else -1
  }

  /** `pipe(pipefd)`: nothing when the call fails, otherwise the read and write ends. */
  function Pipe(os: Os, fds: set<Fd>): (r: Option<(Fd, Fd)>)
    ensures r.None? <==> !os.canPipe(fds)
    ensures r.Some? ==> r.value.0 !in fds && r.value.1 !in fds && r.value.0 != r.value.1
  {
    if os.canPipe(fds) then Some(PipeEnds(fds)) else None
  }

  /** `glob` with GLOB_NOCHECK: a pattern that matches nothing comes back as itself, so a
      successful expansion is never empty. */
  function Expand(os: Os, pattern: string): (r: Option<seq<string>>)
    ensures r.Some? <==> os.glob(pattern).Matches?
    ensures r.Some? ==> |r.value| >= 1
    ensures r.Some? && os.glob(pattern).paths == [] ==> r.value == [pattern]
    ensures r.Some? && os.glob(pattern).paths != [] ==> r.value == os.glob(pattern).paths
  {
    match os.glob(pattern)
    case GlobError => None
    case Matches(paths) => if paths == [] then Some([pattern]) else Some(paths)
  }
}
