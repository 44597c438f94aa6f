# NSSM-based Windows service manager, modelled in Dafny

This project models `WinSvcManagerNSSM`, the winpanda manager that controls a
DC/OS package's Windows service through NSSM (the Non-Sucking Service
Manager). Creating a manager does two things. It locates `nssm.exe` and checks
the executable's identity. It then turns the `service` section of the
service's INI descriptor into an ordered list of install arguments. After
that, each lifecycle command runs the executable once with an exact argument
vector.

Modules, in dependency order:

- `SvcmBase` (`base.dfy`): `Option`, `Result` and the error kinds. These are
  setup, config and command errors, plus `Uncaught` for the Python
  exceptions the code lets escape.
- `Text` (`text.dfy`): `str.split` on one separator character (with its
  inverse `Join`), the first line of `str.splitlines()`, and the prefix test.
- `Schema` (`schema.dfy`): the `NSSMParameter`, `NSSMCommand` and
  `NSSMConfSection` enums, with `NSSMParameter.values`,
  `NSSMParameter.values_required` and `NSSMCommand.values_primitive`. The
  subsets are selected by member name and kept in declaration order.
- `ServiceConf` (`service_conf.dfy`): a parsed descriptor. It maps section
  names to ordered `(name, value)` entries, and names are compared
  case-sensitively.
- `InstallArgs` (`install_args.dfy`): `_verify_svc_conf` and
  `_get_install_args` written as functions. The template engine is an oracle
  that works per element and can fail.
- `Process` (`process.dfy`): the process host and how a lifecycle command's
  outcome is classified. The host is a class whose `spawned` log grows by one
  entry per run, and an oracle `respond` decides each outcome.
- `Executable` (`executable.dfy`): the PATH search, the file check and the
  identity check. File-system queries are oracle functions.
- `Commands` (`commands.dfy`): the argument vector of each lifecycle
  operation, and what running it does.
- `Nssm` (`nssm.dfy`): the `WinSvcManagerNSSM` class with imperative
  methods, each proved equal to the functions above. It also holds
  `NewManager`, which is construction followed by `verify_svcm_options`.

The identity pattern `^NSSM.*$` is used without flags, so the match is
case-sensitive and anchored at the start: a first line such as `nssm 2.24`
is rejected.

## Model

| member | source | states |
|---|---|---|
| Schema.ParameterValuesRequiredOrder | packages/winpanda/extra/src/winpanda/svcm/nssm.py:42-47 | The required parameters are exactly `DisplayName` then `Application`, in enum declaration order. |
| Schema.RequiredValuesListed | packages/winpanda/extra/src/winpanda/svcm/nssm.py:23-39 | `DisplayName` and `Application` are recognised parameter values. |
| Schema.RequiredAreRecognised | packages/winpanda/extra/src/winpanda/svcm/nssm.py:37-47 | Every required value is in the recognised set. |
| Schema.ParameterValuesDistinct | packages/winpanda/extra/src/winpanda/svcm/nssm.py:23-39 | The recognised parameter values are pairwise distinct. |
| Schema.CommandValuesPrimitiveOrder | packages/winpanda/extra/src/winpanda/svcm/nssm.py:50-70 | The primitive verbs are exactly start, stop, restart and status, in declaration order. |
| Schema.ParameterValues | packages/winpanda/extra/src/winpanda/svcm/nssm.py:37-39 | Defines `NSSMParameter.values()`: the eleven values in declaration order. `Schema.ParameterValuesDistinct` and `Schema.RequiredValuesListed` state its properties. |
| Schema.ParameterValuesRequired | packages/winpanda/extra/src/winpanda/svcm/nssm.py:41-47 | Defines `values_required()`: the values of the members named DISPLAYNAME and APPLICATION, in declaration order. `Schema.ParameterValuesRequiredOrder` states the result. |
| Schema.CommandValuesPrimitive | packages/winpanda/extra/src/winpanda/svcm/nssm.py:64-70 | Defines `values_primitive()`: the values of the members named START, STOP, RESTART and STATUS, in declaration order. `Schema.CommandValuesPrimitiveOrder` states the result. |
| ServiceConf.Options | packages/winpanda/extra/src/winpanda/svcm/nssm.py:222 | Defines `options('service')`: the section's option names in order. `ServiceConf.Get` and `InstallArgs.SectionOptionalNamesOrder` state what depends on it. |
| ServiceConf.Get | packages/winpanda/extra/src/winpanda/svcm/nssm.py:213 | The lookup succeeds exactly when the name is among the section's option names. A found value belongs to an entry with that name. |
| Text.Split | packages/winpanda/extra/src/winpanda/svcm/nssm.py:120 | Splitting gives at least one piece, and no piece contains the separator. |
| Text.JoinSplit | packages/winpanda/extra/src/winpanda/svcm/nssm.py:120 | Joining the pieces back with the separator gives the original PATH string. |
| Text.SplitJoin | packages/winpanda/extra/src/winpanda/svcm/nssm.py:120 | Splitting the join of a non-empty list of separator-free pieces (each possibly empty) gives that list back. |
| Text.LineHead | packages/winpanda/extra/src/winpanda/svcm/nssm.py:147 | The result is the longest prefix that contains no line boundary. |
| Text.FirstLine | packages/winpanda/extra/src/winpanda/svcm/nssm.py:147 | There is no first line exactly when the output is empty. Otherwise the first line is a boundary-free prefix that ends at the first line boundary or at the end. |
| InstallArgs.DefaultAddresses | packages/winpanda/extra/src/winpanda/svcm/nssm.py:237-245 | With neither `master_ip` nor `local_ip` in the cluster configuration, every install argument is rendered with `127.0.0.1` for both addresses, and the list keeps its length. |
| InstallArgs.RequiredValues | packages/winpanda/extra/src/winpanda/svcm/nssm.py:209-219 | Succeeds exactly when every required name is present, giving their values in order. Otherwise the error names the first missing parameter. |
| InstallArgs.OptionalNames | packages/winpanda/extra/src/winpanda/svcm/nssm.py:224-228 | The filtered list is no longer than the bulk list. |
| InstallArgs.OptionalNamesMembers | packages/winpanda/extra/src/winpanda/svcm/nssm.py:224-228 | A name survives the filter exactly when it is in the bulk list, recognised and not required. |
| InstallArgs.OptionalNamesAppend | packages/winpanda/extra/src/winpanda/svcm/nssm.py:224-228 | Filtering a concatenation gives the concatenation of the filtered parts, so the filter keeps order. |
| InstallArgs.OptionalPairs | packages/winpanda/extra/src/winpanda/svcm/nssm.py:231-235 | Each optional name contributes two elements. |
| InstallArgs.OptionalPairsLayout | packages/winpanda/extra/src/winpanda/svcm/nssm.py:231-235 | Position 2k holds the k-th optional name and position 2k+1 holds its value in the section. |
| InstallArgs.SectionOptionalNames | packages/winpanda/extra/src/winpanda/svcm/nssm.py:222-228 | Every optional name is an option of the section. |
| InstallArgs.SectionOptionalNamesExact | packages/winpanda/extra/src/winpanda/svcm/nssm.py:222-228 | A name is passed on exactly when it is in the section, recognised and not required. |
| InstallArgs.SectionOptionalNamesOrder | packages/winpanda/extra/src/winpanda/svcm/nssm.py:222-228 | Optional names follow the section's enumeration order. |
| InstallArgs.RenderAll | packages/winpanda/extra/src/winpanda/svcm/nssm.py:240-249 | Succeeds exactly when every element renders, giving the rendered texts with length and order kept. Otherwise it fails with a config error from the first element that fails. |
| InstallArgs.RawInstallArgs | packages/winpanda/extra/src/winpanda/svcm/nssm.py:204-235 | Defines the argument list before rendering: the required values, then the optional pairs. `InstallArgs.RawInstallArgsSucceed` and `InstallArgs.InstallArgsLayout` state its properties. |
| InstallArgs.InstallArgsOfSection | packages/winpanda/extra/src/winpanda/svcm/nssm.py:197-249 | Defines `_get_install_args` on the `service` section: the raw list rendered with the cluster addresses. `InstallArgs.InstallArgsLayout`, `InstallArgs.MissingRequiredParameter` and `InstallArgs.DefaultAddresses` state its properties. |
| InstallArgs.ServiceInstallArgs | packages/winpanda/extra/src/winpanda/svcm/nssm.py:188-195 | Defines `_verify_svc_conf`: the section check, then the extraction. `InstallArgs.NoServiceSection` states the missing-section error. |
| InstallArgs.NoServiceSection | packages/winpanda/extra/src/winpanda/svcm/nssm.py:190-195 | A descriptor without a `service` section fails with a section-not-found config error. |
| InstallArgs.MissingRequiredParameter | packages/winpanda/extra/src/winpanda/svcm/nssm.py:209-219 | A missing DisplayName, or else a missing Application, fails extraction with a config error naming that parameter. |
| InstallArgs.RawInstallArgsSucceed | packages/winpanda/extra/src/winpanda/svcm/nssm.py:209-235 | Raw arguments exist exactly when both required parameters are present. |
| InstallArgs.RawInstallArgsLayout | packages/winpanda/extra/src/winpanda/svcm/nssm.py:204-235 | Before rendering, the list has length 2 + 2·(number of optional names): the DisplayName and Application values, then each optional name followed by its value in the section. |
| InstallArgs.InstallArgsLayout | packages/winpanda/extra/src/winpanda/svcm/nssm.py:204-249 | The result has length 2 + 2·(number of optional names). It holds DisplayName, Application, then name/value pairs, and every element is rendered with the same two addresses. |
| Process.ProcessHost.Run | packages/winpanda/extra/src/winpanda/svcm/nssm.py:256-259 | One run appends exactly its invocation to the spawned log, and the oracle decides the outcome. |
| Process.RunResult | packages/winpanda/extra/src/winpanda/svcm/nssm.py:255-272 | Only exit code 0 is a result. A non-zero exit, a timeout or a spawn failure is a command error carrying the vector and the outcome. |
| Process.RunResultAsWritten | packages/winpanda/extra/src/winpanda/svcm/nssm.py:260-266 | As written, only a timeout differs from the corrected classification. |
| Process.TimeoutEscapesAsWritten | packages/winpanda/extra/src/winpanda/svcm/nssm.py:260-266 | As written, a timeout does not surface as a command error, while the corrected classification makes it one. |
| Executable.FindOnPath | packages/winpanda/extra/src/winpanda/svcm/nssm.py:120-128 | Gives the first PATH entry whose join with the name is a file, and none when no entry has it. |
| Executable.SearchPath | packages/winpanda/extra/src/winpanda/svcm/nssm.py:118-128 | The loop with `break` gives the joined path of exactly that first entry, or nothing. |
| Executable.LocateExecutable | packages/winpanda/extra/src/winpanda/svcm/nssm.py:114-133 | A located executable is a file. For a relative name with PATH unset, the result is the uncaught AttributeError that `None.split` raises, not a setup error. |
| Executable.LocateSearchesPath | packages/winpanda/extra/src/winpanda/svcm/nssm.py:114-133 | For a relative name with PATH set, location succeeds exactly when some PATH entry holds the file, and then gives the first one. Otherwise the error is executable-not-found. |
| Executable.LocateAbsolute | packages/winpanda/extra/src/winpanda/svcm/nssm.py:114-133 | An absolute name is used as given when it is a file, else the error is executable-not-found. |
| Executable.IdPatternIsPrefix | packages/winpanda/extra/src/winpanda/svcm/nssm.py:82 | On a newline-free line, `re.search('^NSSM.*$')` matches exactly when the line starts with `NSSM`, case-sensitively. |
| Executable.IdPatternSearch | packages/winpanda/extra/src/winpanda/svcm/nssm.py:82 | Defines when a flag-less search for `^NSSM.*$` finds a match. `Executable.IdPatternIsPrefix` reduces it to a case-sensitive prefix test. |
| Executable.CheckIdentity | packages/winpanda/extra/src/winpanda/svcm/nssm.py:136-151 | Accepts exactly on exit 0 with a first line starting with `NSSM`. A failure to run is executable-broken, an empty output escapes as IndexError, and a non-empty output whose first line does not start with `NSSM` is the setup error executable-mismatch. |
| Executable.VerifiedExecutableAccepted | packages/winpanda/extra/src/winpanda/svcm/nssm.py:112-153 | An accepted executable is a file that answered `[path, "version"]` (timeout 5) with exit 0 and an NSSM first line. That query is the only process spawned. |
| Executable.VerifiedExecutable | packages/winpanda/extra/src/winpanda/svcm/nssm.py:112-153 | Defines `_verify_executor` as a function of the world: the verdict, and the spawned log with the identity query added once the executable is located. `Executable.VerifiedExecutableAccepted`, `Executable.LocateSearchesPath` and `Executable.CheckIdentity` state its properties. |
| Commands.CommandLine | packages/winpanda/extra/src/winpanda/svcm/nssm.py:274-356 | A vector exists exactly when there are enough install arguments (2 for setup, else 1). It starts with the executable and the verb: setup appends all arguments, the others address `args[0]`. Too few arguments give an insufficient-arguments error. |
| Commands.RemoveVector | packages/winpanda/extra/src/winpanda/svcm/nssm.py:297-304 | `remove` issues exactly `[exe, "remove", args[0], "confirm"]`. |
| Commands.StartTypeVectors | packages/winpanda/extra/src/winpanda/svcm/nssm.py:311-339 | `enable` and `disable` issue `[exe, "set", args[0], "Start", SERVICE_AUTO_START]` and `[exe, "set", args[0], "Start", SERVICE_DEMAND_START]`. |
| Commands.PrimitiveVector | packages/winpanda/extra/src/winpanda/svcm/nssm.py:343-356 | A primitive verb issues exactly `[exe, verb, args[0]]`. |
| Commands.PerformSpawnsAtMostOnce | packages/winpanda/extra/src/winpanda/svcm/nssm.py:274-360 | An operation spawns nothing exactly when it lacks arguments, and then returns the command error. Otherwise it spawns its vector once with timeout 30 and succeeds exactly on exit 0. |
| Commands.Perform | packages/winpanda/extra/src/winpanda/svcm/nssm.py:274-379 | Defines what one lifecycle operation does: its vector, or its insufficient-arguments error, and the run of that vector. `Commands.PerformSpawnsAtMostOnce` and the vector lemmas state its properties. |
| Nssm.WinSvcManagerNSSM.constructor | packages/winpanda/extra/src/winpanda/svcm/nssm.py:85-103 | Records the options. Both frozen fields start unset. |
| Nssm.WinSvcManagerNSSM.VerifySvcmOptions | packages/winpanda/extra/src/winpanda/svcm/nssm.py:107-110 | `exec_path` is assigned only from a verified executable, then `install_args` only from successful extraction. A failure leaves its field and every later field unchanged. |
| Nssm.WinSvcManagerNSSM.VerifyExecutor | packages/winpanda/extra/src/winpanda/svcm/nssm.py:112-153 | The imperative locate-and-identify gives the verdict and the spawned log of `VerifiedExecutable`. |
| Nssm.WinSvcManagerNSSM.VerifySvcConf | packages/winpanda/extra/src/winpanda/svcm/nssm.py:188-195 | Equals the extraction of the descriptor, including the missing-section error. |
| Nssm.WinSvcManagerNSSM.GetInstallArgs | packages/winpanda/extra/src/winpanda/svcm/nssm.py:197-249 | The two append loops and the render give exactly the extraction of the `service` section. |
| Nssm.AppendOptionalPairs | packages/winpanda/extra/src/winpanda/svcm/nssm.py:231-235 | The optional-parameter loop appends exactly the section's name/value pairs. |
| Nssm.OptionalPairsSnoc | packages/winpanda/extra/src/winpanda/svcm/nssm.py:231-235 | One more loop iteration appends the name and then its value. |
| Nssm.FirstMissingRequired | packages/winpanda/extra/src/winpanda/svcm/nssm.py:210-219 | The required loop stops at the first missing name with the error that names it. |
| Nssm.AllRequiredPresent | packages/winpanda/extra/src/winpanda/svcm/nssm.py:210-214 | When every required name is present, the loop's values are exactly the required values. |
| Nssm.ExtractionStopsAtMissing | packages/winpanda/extra/src/winpanda/svcm/nssm.py:210-219 | At the first missing required name, the whole extraction fails with the config error naming it. |
| Nssm.WinSvcManagerNSSM.SubprocRun | packages/winpanda/extra/src/winpanda/svcm/nssm.py:251-272 | Spawns exactly one process under timeout 30 and classifies its outcome. |
| Nssm.WinSvcManagerNSSM.Setup | packages/winpanda/extra/src/winpanda/svcm/nssm.py:274-292 | Result and spawned log equal `Perform(Setup, …)`. |
| Nssm.WinSvcManagerNSSM.Remove | packages/winpanda/extra/src/winpanda/svcm/nssm.py:294-306 | Result and spawned log equal `Perform(Remove, …)`. |
| Nssm.WinSvcManagerNSSM.Enable | packages/winpanda/extra/src/winpanda/svcm/nssm.py:308-323 | Result and spawned log equal `Perform(Enable, …)`. |
| Nssm.WinSvcManagerNSSM.Disable | packages/winpanda/extra/src/winpanda/svcm/nssm.py:325-341 | Result and spawned log equal `Perform(Disable, …)`. |
| Nssm.WinSvcManagerNSSM.PrimitiveCommand | packages/winpanda/extra/src/winpanda/svcm/nssm.py:343-360 | For a primitive verb, the completed process and spawned log equal `Perform(Primitive(verb), …)`. |
| Nssm.WinSvcManagerNSSM.Start | packages/winpanda/extra/src/winpanda/svcm/nssm.py:362-364 | Runs the primitive `start`. |
| Nssm.WinSvcManagerNSSM.Stop | packages/winpanda/extra/src/winpanda/svcm/nssm.py:366-368 | Runs the primitive `stop`. |
| Nssm.WinSvcManagerNSSM.Restart | packages/winpanda/extra/src/winpanda/svcm/nssm.py:370-372 | Runs the primitive `restart`. |
| Nssm.WinSvcManagerNSSM.Status | packages/winpanda/extra/src/winpanda/svcm/nssm.py:374-379 | Runs the primitive `status` and returns its (returncode, stdout, stderr). |
| Nssm.NewManager | packages/winpanda/extra/src/winpanda/svcm/nssm.py:85-110 | A manager exists exactly when both verifications succeed, and then holds at least two install arguments. Otherwise the error is the first failure's error. |
| Nssm.ConfiguredCommandsAddressService | packages/winpanda/extra/src/winpanda/svcm/nssm.py:197-356 | After successful extraction from the `service` section, no lifecycle command can lack arguments, and every non-setup command addresses the service by its rendered DisplayName. |

## Left out

- Process execution is not modelled. `subprocess.run` is the oracle `ProcessHost.respond`, which gives an exit (code, stdout, stderr), a timeout or a spawn failure. The model keeps the timeouts 5 and 30 as values only; it does not model time.
- Jinja2 rendering is not modelled. Each element goes through an oracle that either renders it or raises a template error. The claim that text without placeholders renders unchanged is not modelled.
- INI file reading is not modelled: `_read_svc_conf` (nssm.py:155-186), the constructor's default descriptor path (nssm.py:93-101) and therefore `pkg_id`. The parsed descriptor is an input with option names in their original case, as `optionxform` keeps them at nssm.py:174.
- Sections that repeat an option name are not modelled. A strict configparser rejects such a file while reading it, so no descriptor handed to the manager has one; `ServiceConf.Get` would return the first.
- configparser's DEFAULT section and value interpolation are not modelled. A `get` on a listed option always yields its stored value.
- `os.environ`, `Path.is_file`, `Path.is_absolute` and `Path.joinpath` are inputs. A `svcm_opts['exec_path']` that is not a Path is treated like an absent one: both give `nssm.exe`.
- The debug prints (nssm.py:223, 229) are not modelled.
- The `returncode != 0` check in `setup` (nssm.py:288-292) is not modelled. It cannot be reached because `check=True` already raises.
- The `isinstance(cl_elements, list)` guard (nssm.py:253) is not modelled. Every builder passes a list.
- The exception message texts are not modelled. Errors are datatype values carrying the same data (paths, argument vectors, parameter names, outcomes).
- Nssm.WinSvcManagerNSSM.SubprocRun: uses the corrected timeout classification `Process.RunResult`. A run that times out gives `CommandError(ProcessFailed(vector, TimedOut))`; the source lets an `AttributeError` escape instead (see Findings, and `Process.RunResultAsWritten`).
- Nssm.WinSvcManagerNSSM.Setup: uses the corrected timeout classification `Process.RunResult`. A run that times out gives `CommandError(ProcessFailed(vector, TimedOut))`; the source lets an `AttributeError` escape instead (see Findings, and `Process.RunResultAsWritten`).
- Nssm.WinSvcManagerNSSM.Remove: uses the corrected timeout classification `Process.RunResult`. A run that times out gives `CommandError(ProcessFailed(vector, TimedOut))`; the source lets an `AttributeError` escape instead (see Findings, and `Process.RunResultAsWritten`).
- Nssm.WinSvcManagerNSSM.Enable: uses the corrected timeout classification `Process.RunResult`. A run that times out gives `CommandError(ProcessFailed(vector, TimedOut))`; the source lets an `AttributeError` escape instead (see Findings, and `Process.RunResultAsWritten`).
- Nssm.WinSvcManagerNSSM.Disable: uses the corrected timeout classification `Process.RunResult`. A run that times out gives `CommandError(ProcessFailed(vector, TimedOut))`; the source lets an `AttributeError` escape instead (see Findings, and `Process.RunResultAsWritten`).
- Nssm.WinSvcManagerNSSM.PrimitiveCommand: uses the corrected timeout classification `Process.RunResult`. A run that times out gives `CommandError(ProcessFailed(vector, TimedOut))`; the source lets an `AttributeError` escape instead (see Findings, and `Process.RunResultAsWritten`).
- Nssm.WinSvcManagerNSSM.Start: uses the corrected timeout classification `Process.RunResult`. A run that times out gives `CommandError(ProcessFailed(vector, TimedOut))`; the source lets an `AttributeError` escape instead (see Findings, and `Process.RunResultAsWritten`).
- Nssm.WinSvcManagerNSSM.Stop: uses the corrected timeout classification `Process.RunResult`. A run that times out gives `CommandError(ProcessFailed(vector, TimedOut))`; the source lets an `AttributeError` escape instead (see Findings, and `Process.RunResultAsWritten`).
- Nssm.WinSvcManagerNSSM.Restart: uses the corrected timeout classification `Process.RunResult`. A run that times out gives `CommandError(ProcessFailed(vector, TimedOut))`; the source lets an `AttributeError` escape instead (see Findings, and `Process.RunResultAsWritten`).
- Nssm.WinSvcManagerNSSM.Status: uses the corrected timeout classification `Process.RunResult`. A run that times out gives `CommandError(ProcessFailed(vector, TimedOut))`; the source lets an `AttributeError` escape instead (see Findings, and `Process.RunResultAsWritten`).
- Commands.Perform: uses the same corrected timeout classification, so every method built on it does too.
- Nssm.WinSvcManagerNSSM.PrimitiveCommand: the `assert` on the verb (nssm.py:345-347) is a precondition, because it is a programmer check that `python -O` removes.
- Nssm.WinSvcManagerNSSM.GetInstallArgs: it requires the `service` section, which its only caller `_verify_svc_conf` checks first. Calling it directly without the section is not modelled.
- Lifecycle methods require `Ready()`. A manager is only handed out by `NewManager` once both fields are set, so the failure a method would hit on unset fields is not modelled: `setup` would raise TypeError at `len(None)` (nssm.py:279), and the other commands would raise TypeError at `None[0]` (nssm.py:300, 315, 333, 352).
- `base.WindowsServiceManager` and the `exceptions` module are not part of this model. `Package.py` builds descriptors with default configparser option handling, which lowercases option names; that caller is not part of this model.
- `NSSMCommand.values()` is not modelled; nothing in the manager calls it.
- Concurrency is not modelled. The manager is single-threaded.

## Findings

| source | as written | input that shows it | evidently intended | confidence | as-written member | corrected member |
|---|---|---|---|---|---|---|
| packages/winpanda/extra/src/winpanda/svcm/nssm.py:260-266 | `except subprocess.SubprocessError as e` also catches `TimeoutExpired`, and the handler then reads `e.returncode`. `TimeoutExpired` has no such attribute, so an `AttributeError` escapes instead of a command error. | A lifecycle command that runs longer than 30 seconds. | A timeout is a `ServiceManagerCommandError` carrying the argument vector, like a non-zero exit. | high; not executed | Process.RunResultAsWritten, Process.TimeoutEscapesAsWritten | Process.RunResult |
