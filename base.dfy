/** Shared vocabulary of the NSSM-based service manager: optional values,
    results, what the process runner reports about one run, and the error
    kinds the manager raises (setup, config and command errors), plus the
    exceptions the driver lets escape without translating them. */
module SvcmBase {

  datatype Option<+T> = None | Some(value: T)

  /** What running an external process produced: it exited with a code and
      captured output, it ran past its timeout, or it could not be started
      (an OSError or ValueError raised by the process runner). */
  datatype RawOutcome =
    | Exited(returncode: int, stdout: string, stderr: string)
    | TimedOut
    | SpawnFailed(reason: string)

  /** ServiceManagerSetupError: the control executable is unusable. */
  datatype SetupCause =
    | ExecutableNotFound(path: string)
    | ExecutableBroken(path: string, outcome: RawOutcome)
    | ExecutableMismatch(path: string)

  /** ServiceConfigError: the service descriptor is unusable. */
  datatype ConfigCause =
    | SectionNotFound(section: string)
    | RequiredParameterUnavailable(pname: string)
    | SubstitutionFailed(cause: string)

  /** ServiceManagerCommandError: a lifecycle command could not be issued
      or the control executable reported a failure. */
  datatype CommandCause =
    | InsufficientArguments(clElements: seq<string>)
    | ProcessFailed(clElements: seq<string>, outcome: RawOutcome)

  /** Python exceptions that escape the driver untranslated. */
  datatype Escaped =
    | AttributeError(detail: string)
    | IndexError(detail: string)

  datatype Error =
    | SetupError(setup: SetupCause)
    | ConfigError(config: ConfigCause)
    | CommandError(command: CommandCause)
    | Uncaught(exception: Escaped)

  datatype Result<+T> = Ok(value: T) | Err(error: Error)
}
