/** The process executor: the external world the manager spawns processes
    in, and how the outcome of one lifecycle command is classified. */
module Process {
  import opened SvcmBase

  /** One request to run a process: its argument vector and its timeout in
      seconds. */
  datatype Invocation = Invocation(argv: seq<string>, timeout: nat)

  /** The completed process handed back by a successful run. */
  datatype CompletedProcess = CompletedProcess(returncode: int, stdout: string, stderr: string)

  /** Timeout of every lifecycle command. */
  const COMMAND_TIMEOUT: nat := 30

  /** The processes the manager has spawned, in order, and how the world
      answers each new one given everything spawned before it. */
  class ProcessHost {
    const respond: (seq<Invocation>, Invocation) -> RawOutcome
    var spawned: seq<Invocation>

    constructor (respond: (seq<Invocation>, Invocation) -> RawOutcome)
      ensures this.respond == respond && spawned == []
    {
      this.respond := respond;
      spawned := [];
    }

    /** Spawns one process and waits for it: a single attempt. */
    method Run(invocation: Invocation) returns (outcome: RawOutcome)
      modifies this
      ensures spawned == old(spawned) + [invocation]
      ensures outcome == respond(old(spawned), invocation)
    {
      outcome := respond(spawned, invocation);
      spawned := spawned + [invocation];
    }
  }

  /** How a lifecycle command's outcome reaches the caller: only an exit
      with code 0 is a result; a non-zero exit, a timeout or a failure to
      start is a command error carrying the argument vector and the
      outcome. */
  function RunResult(clElements: seq<string>, outcome: RawOutcome): (r: Result<CompletedProcess>)
    ensures r.Ok? <==> outcome.Exited? && outcome.returncode == 0
    ensures r.Ok? ==> r.value == CompletedProcess(0, outcome.stdout, outcome.stderr)
    ensures r.Err? ==> r.error == CommandError(ProcessFailed(clElements, outcome))
  {
    match outcome
    case Exited(returncode, stdout, stderr) =>
      if returncode == 0 then Ok(CompletedProcess(returncode, stdout, stderr))
      else Err(CommandError(ProcessFailed(clElements, outcome)))
    case TimedOut => Err(CommandError(ProcessFailed(clElements, outcome)))
    case SpawnFailed(_) => Err(CommandError(ProcessFailed(clElements, outcome)))
  }

  /** The classification as the handler is written: a timeout is caught as
      a subprocess error, whose handler then reads the exit code the
      timeout exception does not have. */
  function RunResultAsWritten(clElements: seq<string>, outcome: RawOutcome): (r: Result<CompletedProcess>)
    ensures !outcome.TimedOut? ==> r == RunResult(clElements, outcome)
  {
    match outcome
    case TimedOut =>
      Err(Uncaught(AttributeError("'TimeoutExpired' object has no attribute 'returncode'")))
    case _ => RunResult(clElements, outcome)
  }

  /** The discrepancy: as written, a command that times out does not
      surface as a command error. */
  lemma TimeoutEscapesAsWritten(clElements: seq<string>)
    ensures RunResultAsWritten(clElements, TimedOut).Err?
    ensures !RunResultAsWritten(clElements, TimedOut).error.CommandError?
    ensures RunResult(clElements, TimedOut) == Err(CommandError(ProcessFailed(clElements, TimedOut)))
  {
  }
}
