/** The NSSM-based Windows service manager: it verifies its executable and
    the service's install arguments once, when it is created, and then
    drives the service's lifecycle by running the executable with one
    argument vector per command. */
module Nssm {
  import opened SvcmBase
  import opened Text
  import opened Schema
  import opened ServiceConf
  import opened InstallArgs
  import opened Process
  import opened Executable
  import opened Commands

  class WinSvcManagerNSSM {
    /** The configured executable path, if one was given as a path. */
    const execPathOption: Option<string>
    /** Cluster-wide addresses (`master_ip`, `local_ip`). */
    const clusterConf: map<string, string>
    /** The parsed service descriptor. */
    const svcConf: Descriptor
    /** The PATH environment variable, if set. */
    const envPath: Option<string>
    const fs: FileSystem
    /** The template engine applied to each install argument. */
    const render: Renderer
    /** Where commands are run. */
    const host: ProcessHost

    /** The verified executable, once located and identified. */
    var execPath: Option<string>
    /** The rendered install arguments, once extracted. */
    var installArgs: Option<seq<string>>

    /** Both verifications have completed. */
    predicate Ready()
      reads this
    {
      execPath.Some? && installArgs.Some?
    }

    /** The options are recorded; nothing is verified yet. */
    constructor (execPathOption: Option<string>, clusterConf: map<string, string>, svcConf: Descriptor,
                 envPath: Option<string>, fs: FileSystem, render: Renderer, host: ProcessHost)
      ensures this.execPathOption == execPathOption && this.clusterConf == clusterConf
      ensures this.svcConf == svcConf && this.envPath == envPath && this.fs == fs
      ensures this.render == render && this.host == host
      ensures execPath.None? && installArgs.None?
    {
      this.execPathOption := execPathOption;
      this.clusterConf := clusterConf;
      this.svcConf := svcConf;
      this.envPath := envPath;
      this.fs := fs;
      this.render := render;
      this.host := host;
      execPath := None;
      installArgs := None;
    }

    /** Verifies the executable, then the service configuration, storing
        each result as it is obtained: a failure leaves that field and the
        later ones as they were. */
    method VerifySvcmOptions() returns (r: Result<()>)
      modifies this`execPath, this`installArgs, host
      ensures host.spawned == VerifiedExecutable(execPathOption, envPath, fs, host.respond, old(host.spawned)).1
      ensures
        var exe := VerifiedExecutable(execPathOption, envPath, fs, host.respond, old(host.spawned)).0;
        var args := ServiceInstallArgs(svcConf, clusterConf, render);
        && (exe.Err? ==> r == Err(exe.error) && execPath == old(execPath) && installArgs == old(installArgs))
        && (exe.Ok? ==> execPath == Some(exe.value))
        && (exe.Ok? && args.Err? ==> r == Err(args.error) && installArgs == old(installArgs))
        && (exe.Ok? && args.Ok? ==> r == Ok(()) && installArgs == Some(args.value))
    {
      var exe := VerifyExecutor();
      if exe.Err? {
        return Err(exe.error);
      }
      execPath := Some(exe.value);
      var args := VerifySvcConf();
      if args.Err? {
        return Err(args.error);
      }
      installArgs := Some(args.value);
      r := Ok(());
    }

    /** Locates the executable (searching PATH for a relative name), then
        runs its identity query. */
    method VerifyExecutor() returns (r: Result<string>)
      modifies host
      ensures r == VerifiedExecutable(execPathOption, envPath, fs, host.respond, old(host.spawned)).0
      ensures host.spawned == VerifiedExecutable(execPathOption, envPath, fs, host.respond, old(host.spawned)).1
    {
      var path := ExecutableName(execPathOption);
      if !fs.isAbsolute(path) {
        if envPath.None? {
          return Err(PATH_UNSET);
        }
        var found := SearchPath(Split(envPath.value, PATH_SEPARATOR), path, fs);
        if found.None? {
          return Err(SetupError(ExecutableNotFound(path)));
        }
        path := found.value;
      }
      if !fs.isFile(path) {
        return Err(SetupError(ExecutableNotFound(path)));
      }
      var outcome := host.Run(VersionQuery(path));
      r := CheckIdentity(path, outcome);
    }

    /** The descriptor must have a `service` section; the install arguments
        come from it. */
    method VerifySvcConf() returns (r: Result<seq<string>>)
      ensures r == ServiceInstallArgs(svcConf, clusterConf, render)
    {
      if NSSMConfSection.Service.Value() !in svcConf {
        return Err(ConfigError(SectionNotFound(NSSMConfSection.Service.Value())));
      }
      r := GetInstallArgs();
    }

    /** Collects the required values in order, then each recognised
        optional name with its value in the section's order, then renders
        all of them. */
    method GetInstallArgs() returns (r: Result<seq<string>>)
      requires NSSMConfSection.Service.Value() in svcConf
      ensures r == InstallArgsOfSection(svcConf[NSSMConfSection.Service.Value()], clusterConf, render)
    {
      var section := svcConf[NSSMConfSection.Service.Value()];
      var args: seq<string> := [];
      var pnamesValid := ParameterValues();
      var pnamesRequired := ParameterValuesRequired();

      var i := 0;
      while i < |pnamesRequired|
        invariant 0 <= i <= |pnamesRequired|
        invariant |args| == i
        invariant forall k :: 0 <= k < i ==> Get(section, pnamesRequired[k]) == Some(args[k])
      {
        var value := Get(section, pnamesRequired[i]);
        if value.None? {
          ExtractionStopsAtMissing(section, clusterConf, render, i);
          return Err(ConfigError(RequiredParameterUnavailable(pnamesRequired[i])));
        }
        ghost var before := args;
        args := args + [value.value];
        assert forall k :: 0 <= k < i ==> args[k] == before[k];
        i := i + 1;
      }
      AllRequiredPresent(section, pnamesRequired, args);

      var pnamesBulk := Options(section);
      var pnamesOpt := OptionalNames(pnamesBulk, pnamesValid, pnamesRequired);
      assert pnamesOpt == SectionOptionalNames(section);

      args := AppendOptionalPairs(section, pnamesOpt, args);
      assert RawInstallArgs(section) == Ok(args);
      r := RenderAll(args, MasterIp(clusterConf), LocalIp(clusterConf), render);
    }

    /** Runs one command under the command timeout: a single attempt. */
    method SubprocRun(clElements: seq<string>) returns (r: Result<CompletedProcess>)
      modifies host
      ensures host.spawned == old(host.spawned) + [Invocation(clElements, COMMAND_TIMEOUT)]
      ensures r == RunResult(clElements, host.respond(old(host.spawned), Invocation(clElements, COMMAND_TIMEOUT)))
    {
      var outcome := host.Run(Invocation(clElements, COMMAND_TIMEOUT));
      r := RunResult(clElements, outcome);
    }

    /** Registers the service with all install arguments. */
    method Setup() returns (r: Result<()>)
      requires Ready()
      modifies host
      ensures
        var p := Perform(Operation.Setup, execPath.value, installArgs.value, host.respond, old(host.spawned));
        r == Discard(p.0) && host.spawned == p.1
    {
      var clElements := [execPath.value, NSSMCommand.Install.Value()];
      if |installArgs.value| < 2 {
        return Err(CommandError(InsufficientArguments(clElements)));
      }
      clElements := clElements + installArgs.value;
      var run := SubprocRun(clElements);
      r := Discard(run);
    }

    /** Removes the service's registration, confirming it. */
    method Remove() returns (r: Result<()>)
      requires Ready()
      modifies host
      ensures
        var p := Perform(Operation.Remove, execPath.value, installArgs.value, host.respond, old(host.spawned));
        r == Discard(p.0) && host.spawned == p.1
    {
      var clElements := [execPath.value, NSSMCommand.Remove.Value()];
      if |installArgs.value| < 1 {
        return Err(CommandError(InsufficientArguments(clElements)));
      }
      clElements := clElements + [installArgs.value[0], "confirm"];
      var run := SubprocRun(clElements);
      r := Discard(run);
    }

    /** Makes the service start at boot. */
    method Enable() returns (r: Result<()>)
      requires Ready()
      modifies host
      ensures
        var p := Perform(Operation.Enable, execPath.value, installArgs.value, host.respond, old(host.spawned));
        r == Discard(p.0) && host.spawned == p.1
    {
      var clElements := [execPath.value, NSSMCommand.Set.Value()];
      if |installArgs.value| < 1 {
        return Err(CommandError(InsufficientArguments(clElements)));
      }
      clElements := clElements + [installArgs.value[0], NSSMParameter.Start.Value(), "SERVICE_AUTO_START"];
      var run := SubprocRun(clElements);
      r := Discard(run);
    }

    /** Makes the service start only on demand. */
    method Disable() returns (r: Result<()>)
      requires Ready()
      modifies host
      ensures
        var p := Perform(Operation.Disable, execPath.value, installArgs.value, host.respond, old(host.spawned));
        r == Discard(p.0) && host.spawned == p.1
    {
      var clElements := [execPath.value, NSSMCommand.Set.Value()];
      if |installArgs.value| < 1 {
        return Err(CommandError(InsufficientArguments(clElements)));
      }
      clElements := clElements + [installArgs.value[0], NSSMParameter.Start.Value(), "SERVICE_DEMAND_START"];
      var run := SubprocRun(clElements);
      r := Discard(run);
    }

    /** A primitive command addresses the service by its first install
        argument. */
    method PrimitiveCommand(commandName: string) returns (r: Result<CompletedProcess>)
      requires Ready()
      requires commandName in CommandValuesPrimitive()
      modifies host
      ensures
        var p := Perform(Primitive(commandName), execPath.value, installArgs.value, host.respond, old(host.spawned));
        r == p.0 && host.spawned == p.1
    {
      var clElements := [execPath.value, commandName];
      if |installArgs.value| < 1 {
        return Err(CommandError(InsufficientArguments(clElements)));
      }
      clElements := clElements + [installArgs.value[0]];
      r := SubprocRun(clElements);
    }

    method Start() returns (r: Result<()>)
      requires Ready()
      modifies host
      ensures
        var p := Perform(Primitive("start"), execPath.value, installArgs.value, host.respond, old(host.spawned));
        r == Discard(p.0) && host.spawned == p.1
    {
      CommandValuesPrimitiveOrder();
      var run := PrimitiveCommand(NSSMCommand.Start.Value());
      r := Discard(run);
    }

    method Stop() returns (r: Result<()>)
      requires Ready()
      modifies host
      ensures
        var p := Perform(Primitive("stop"), execPath.value, installArgs.value, host.respond, old(host.spawned));
        r == Discard(p.0) && host.spawned == p.1
    {
      CommandValuesPrimitiveOrder();
      var run := PrimitiveCommand(NSSMCommand.Stop.Value());
      r := Discard(run);
    }

    method Restart() returns (r: Result<()>)
      requires Ready()
      modifies host
      ensures
        var p := Perform(Primitive("restart"), execPath.value, installArgs.value, host.respond, old(host.spawned));
        r == Discard(p.0) && host.spawned == p.1
    {
      CommandValuesPrimitiveOrder();
      var run := PrimitiveCommand(NSSMCommand.Restart.Value());
      r := Discard(run);
    }

    /** The service's status as exit code, stdout and stderr. */
    method Status() returns (r: Result<(int, string, string)>)
      requires Ready()
      modifies host
      ensures
        var p := Perform(Primitive("status"), execPath.value, installArgs.value, host.respond, old(host.spawned));
        r == StatusTriple(p.0) && host.spawned == p.1
    {
      CommandValuesPrimitiveOrder();
      var run := PrimitiveCommand(NSSMCommand.Status.Value());
      r := StatusTriple(run);
    }
  }

  /** Stopping at the first missing required name gives the error the
      extraction reports. */
  lemma FirstMissingRequired(section: Section, pnames: seq<string>, i: nat)
    requires i < |pnames| && Get(section, pnames[i]).None?
    requires forall k :: 0 <= k < i ==> Get(section, pnames[k]).Some?
    ensures RequiredValues(section, pnames) == Err(ConfigError(RequiredParameterUnavailable(pnames[i])))
  {
    var r := RequiredValues(section, pnames);
    var k :| 0 <= k < |pnames| && Get(section, pnames[k]).None?
      && (forall j :: 0 <= j < k ==> Get(section, pnames[j]).Some?)
      && r.error == ConfigError(RequiredParameterUnavailable(pnames[k]));
    assert k == i;
  }

  /** The extraction fails with the error of the first missing required
      name. */
  lemma ExtractionStopsAtMissing(section: Section, clusterConf: map<string, string>, render: Renderer, i: nat)
    requires i < |ParameterValuesRequired()| && Get(section, ParameterValuesRequired()[i]).None?
    requires forall k :: 0 <= k < i ==> Get(section, ParameterValuesRequired()[k]).Some?
    ensures InstallArgsOfSection(section, clusterConf, render)
         == Err(ConfigError(RequiredParameterUnavailable(ParameterValuesRequired()[i])))
  {
    FirstMissingRequired(section, ParameterValuesRequired(), i);
  }

  /** The optional-parameter loop: each name, then its value. */
  method AppendOptionalPairs(section: Section, names: seq<string>, args: seq<string>) returns (out: seq<string>)
    requires forall k :: 0 <= k < |names| ==> names[k] in Options(section)
    ensures out == args + OptionalPairs(section, names)
  {
    out := args;
    var j := 0;
    while j < |names|
      invariant 0 <= j <= |names|
      invariant out == args + OptionalPairs(section, names[..j])
    {
      var pname := names[j];
      OptionalPairsSnoc(section, names[..j], pname);
      assert names[..j + 1] == names[..j] + [pname];
      out := out + [pname];
      out := out + [Get(section, pname).value];
      j := j + 1;
    }
    assert names[..j] == names;
  }

  /** Values found for every required name, in order, are the values the
      extraction reports. */
  lemma AllRequiredPresent(section: Section, pnames: seq<string>, values: seq<string>)
    requires |values| == |pnames|
    requires forall k :: 0 <= k < |pnames| ==> Get(section, pnames[k]) == Some(values[k])
    ensures RequiredValues(section, pnames) == Ok(values)
  {
    var r := RequiredValues(section, pnames);
    assert r.Ok?;
    forall k | 0 <= k < |pnames| ensures r.value[k] == values[k] {
      assert Some(r.value[k]) == Get(section, pnames[k]);
    }
    assert r.value == values;
  }

  /** Appending a name appends the name and its value. */
  lemma {:induction false} OptionalPairsSnoc(section: Section, names: seq<string>, n: string)
    requires forall k :: 0 <= k < |names| ==> names[k] in Options(section)
    requires n in Options(section)
    ensures OptionalPairs(section, names + [n]) == OptionalPairs(section, names) + [n, Get(section, n).value]
  {
    if names == [] {
      assert names + [n] == [n];
    } else {
      assert (names + [n])[1..] == names[1..] + [n];
      OptionalPairsSnoc(section, names[1..], n);
    }
  }

  /** Creating a manager: the options are recorded and verified, and a
      failed verification means no manager. */
  method NewManager(execPathOption: Option<string>, clusterConf: map<string, string>, svcConf: Descriptor,
                    envPath: Option<string>, fs: FileSystem, render: Renderer, host: ProcessHost)
    returns (r: Result<WinSvcManagerNSSM>)
    modifies host
    ensures host.spawned == VerifiedExecutable(execPathOption, envPath, fs, host.respond, old(host.spawned)).1
    ensures
      var exe := VerifiedExecutable(execPathOption, envPath, fs, host.respond, old(host.spawned)).0;
      var args := ServiceInstallArgs(svcConf, clusterConf, render);
      && (r.Ok? <==> exe.Ok? && args.Ok?)
      && (exe.Err? ==> r == Err(exe.error))
      && (exe.Ok? && args.Err? ==> r == Err(args.error))
      && (r.Ok? ==>
            && fresh(r.value) && r.value.Ready() && r.value.host == host
            && r.value.execPath == Some(exe.value) && r.value.installArgs == Some(args.value)
            && |args.value| >= 2)
  {
    var m := new WinSvcManagerNSSM(execPathOption, clusterConf, svcConf, envPath, fs, render, host);
    var verified := m.VerifySvcmOptions();
    if verified.Err? {
      return Err(verified.error);
    }
    ConfiguredCommandsAddressService(svcConf[NSSMConfSection.Service.Value()], clusterConf, render, m.execPath.value, Operation.Setup);
    r := Ok(m);
  }

  /** Once the install arguments are extracted no command lacks
      arguments: setup passes all of them, and every other command
      addresses the service by its rendered DisplayName. */
  lemma ConfiguredCommandsAddressService(section: Section, clusterConf: map<string, string>,
                                         render: Renderer, exe: string, op: Operation)
    requires InstallArgsOfSection(section, clusterConf, render).Ok?
    requires op.Primitive? ==> op.commandName in CommandValuesPrimitive()
    ensures Get(section, "DisplayName").Some?
    ensures
      var args := InstallArgsOfSection(section, clusterConf, render).value;
      var displayName := Get(section, "DisplayName").value;
      && |args| >= 2
      && CommandLine(op, exe, args).Ok?
      && (!op.Setup? ==>
            CommandLine(op, exe, args).value[2] == render(displayName, MasterIp(clusterConf), LocalIp(clusterConf)).text)
  {
    InstallArgsLayout(section, clusterConf, render);
  }
}
