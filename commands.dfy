/** The argument vectors of the lifecycle commands, built from the
    verified executable path and the install arguments, and what running
    one of them does to the world. */
module Commands {
  import opened SvcmBase
  import opened Schema
  import opened Process

  /** The lifecycle operations; a primitive one names its verb. */
  datatype Operation = Setup | Remove | Enable | Disable | Primitive(commandName: string)

  /** The NSSM verb an operation issues. */
  function Verb(op: Operation): string
  {
    match op
    case Setup => NSSMCommand.Install.Value()
    case Remove => NSSMCommand.Remove.Value()
    case Enable => NSSMCommand.Set.Value()
    case Disable => NSSMCommand.Set.Value()
    case Primitive(commandName) => commandName
  }

  /** How many install arguments an operation needs: setup passes at least
      the two required values, the others address the service by the
      first one. */
  function MinInstallArgs(op: Operation): nat
  {
    if op.Setup? then 2 else 1
  }

  /** The argument vector of an operation, or the command error raised
      before anything runs. */
  function CommandLine(op: Operation, exe: string, installArgs: seq<string>): (r: Result<seq<string>>)
    requires op.Primitive? ==> op.commandName in CommandValuesPrimitive()
    ensures r.Err? <==> |installArgs| < MinInstallArgs(op)
    ensures r.Err? ==> r.error == CommandError(InsufficientArguments([exe, Verb(op)]))
    ensures r.Ok? ==> |r.value| >= 3 && r.value[..2] == [exe, Verb(op)]
    ensures r.Ok? && op.Setup? ==> r.value[2..] == installArgs
    ensures r.Ok? && !op.Setup? ==> r.value[2] == installArgs[0]
  {
    var head := [exe, Verb(op)];
    if |installArgs| < MinInstallArgs(op) then
      Err(CommandError(InsufficientArguments(head)))
    else
      match op
      case Setup => Ok(head + installArgs)
      case Remove => Ok(head + [installArgs[0], "confirm"])
      case Enable => Ok(head + [installArgs[0], NSSMParameter.Start.Value(), "SERVICE_AUTO_START"])
      case Disable => Ok(head + [installArgs[0], NSSMParameter.Start.Value(), "SERVICE_DEMAND_START"])
      case Primitive(_) => Ok(head + [installArgs[0]])
  }

  /** Remove addresses the service by name and confirms. */
  lemma RemoveVector(exe: string, installArgs: seq<string>)
    requires |installArgs| >= 1
    ensures CommandLine(Operation.Remove, exe, installArgs) == Ok([exe, "remove", installArgs[0], "confirm"])
  {
    assert [exe, "remove"] + [installArgs[0], "confirm"] == [exe, "remove", installArgs[0], "confirm"];
  }

  /** Enable and disable set the service's start type. */
  lemma StartTypeVectors(exe: string, installArgs: seq<string>)
    requires |installArgs| >= 1
    ensures CommandLine(Enable, exe, installArgs)
         == Ok([exe, "set", installArgs[0], "Start", "SERVICE_AUTO_START"])
    ensures CommandLine(Disable, exe, installArgs)
         == Ok([exe, "set", installArgs[0], "Start", "SERVICE_DEMAND_START"])
  {
    var name := installArgs[0];
    assert [exe, "set"] + [name, "Start", "SERVICE_AUTO_START"]
        == [exe, "set", name, "Start", "SERVICE_AUTO_START"];
    assert [exe, "set"] + [name, "Start", "SERVICE_DEMAND_START"]
        == [exe, "set", name, "Start", "SERVICE_DEMAND_START"];
  }

  /** A primitive command passes only the service name after its verb. */
  lemma PrimitiveVector(commandName: string, exe: string, installArgs: seq<string>)
    requires commandName in CommandValuesPrimitive()
    requires |installArgs| >= 1
    ensures CommandLine(Primitive(commandName), exe, installArgs) == Ok([exe, commandName, installArgs[0]])
  {
    assert [exe, commandName] + [installArgs[0]] == [exe, commandName, installArgs[0]];
  }

  /** Running an operation against the world: the caller's result and the
      processes spawned by the end of it. */
  function Perform(op: Operation, exe: string, installArgs: seq<string>,
                   respond: (seq<Invocation>, Invocation) -> RawOutcome,
                   history: seq<Invocation>): (Result<CompletedProcess>, seq<Invocation>)
    requires op.Primitive? ==> op.commandName in CommandValuesPrimitive()
  {
    match CommandLine(op, exe, installArgs)
    case Err(e) => (Err(e), history)
    case Ok(clElements) =>
      var invocation := Invocation(clElements, COMMAND_TIMEOUT);
      (RunResult(clElements, respond(history, invocation)), history + [invocation])
  }

  /** An operation spawns nothing exactly when it lacks install arguments,
      and then fails with a command error; otherwise it spawns its vector
      once, under the command timeout, and succeeds only on exit code 0. */
  lemma PerformSpawnsAtMostOnce(op: Operation, exe: string, installArgs: seq<string>,
                                respond: (seq<Invocation>, Invocation) -> RawOutcome,
                                history: seq<Invocation>)
    requires op.Primitive? ==> op.commandName in CommandValuesPrimitive()
    ensures var (r, spawned) := Perform(op, exe, installArgs, respond, history);
      && (spawned == history <==> |installArgs| < MinInstallArgs(op))
      && (spawned == history ==>
            r == Err(CommandError(InsufficientArguments([exe, Verb(op)]))))
      && (spawned != history ==>
            && spawned == history + [Invocation(CommandLine(op, exe, installArgs).value, 30)]
            && (r.Ok? <==> respond(history, spawned[|history|]).Exited?
                           && respond(history, spawned[|history|]).returncode == 0))
  {
    var (r, spawned) := Perform(op, exe, installArgs, respond, history);
    if |installArgs| >= MinInstallArgs(op) {
      assert |spawned| == |history| + 1;
    }
  }

  /** The caller-visible result of an operation that returns nothing. */
  function Discard(r: Result<CompletedProcess>): (d: Result<()>)
    ensures d.Ok? <==> r.Ok?
    ensures d.Err? ==> d.error == r.error
  {
    match r
    case Ok(_) => Ok(())
    case Err(e) => Err(e)
  }

  /** The caller-visible result of `status`: exit code, stdout, stderr. */
  function StatusTriple(r: Result<CompletedProcess>): (t: Result<(int, string, string)>)
    ensures t.Ok? <==> r.Ok?
    ensures t.Ok? ==> t.value == (r.value.returncode, r.value.stdout, r.value.stderr)
    ensures t.Err? ==> t.error == r.error
  {
    match r
    case Ok(p) => Ok((p.returncode, p.stdout, p.stderr))
    case Err(e) => Err(e)
  }
}
