/** The NSSM parameter and command vocabularies: two closed enumerations,
    each with its member names, its values, and the classified subset
    (required parameters, primitive commands) selected by member name. */
module Schema {

  /** NSSM parameter set, in declaration order. */
  datatype NSSMParameter =
    | Description | DisplayName | Name | Application | AppDirectory
    | AppParameters | Start | DependOnService | AppStdout | AppStderr
    | AppEnvironmentExtra
  {
    /** The member's value: the parameter name NSSM understands. */
    function Value(): string
    {
      match this
      case Description => "Description"
      case DisplayName => "DisplayName"
      case Name => "Name"
      case Application => "Application"
      case AppDirectory => "AppDirectory"
      case AppParameters => "AppParameters"
      case Start => "Start"
      case DependOnService => "DependOnService"
      case AppStdout => "AppStdout"
      case AppStderr => "AppStderr"
      case AppEnvironmentExtra => "AppEnvironmentExtra"
    }

    /** The member's own name, the key of the enumeration's member table. */
    function MemberName(): string
    {
      match this
      case Description => "DESCRIPTION"
      case DisplayName => "DISPLAYNAME"
      case Name => "NAME"
      case Application => "APPLICATION"
      case AppDirectory => "APPDIRECTORY"
      case AppParameters => "APPPARAMETERS"
      case Start => "START"
      case DependOnService => "DEPENDONSERVICE"
      case AppStdout => "APPSTDOUT"
      case AppStderr => "APPSTDERR"
      case AppEnvironmentExtra => "APPENVIRONMENTEXTRA"
    }
  }

  /** The members in declaration order. */
  const PARAMETERS: seq<NSSMParameter> :=
    [ NSSMParameter.Description, NSSMParameter.DisplayName, NSSMParameter.Name,
      NSSMParameter.Application, NSSMParameter.AppDirectory,
      NSSMParameter.AppParameters, NSSMParameter.Start,
      NSSMParameter.DependOnService, NSSMParameter.AppStdout,
      NSSMParameter.AppStderr, NSSMParameter.AppEnvironmentExtra ]

  /** Member names of the required parameters. */
  const PARAMETER_NAMES_REQUIRED: seq<string> := ["DISPLAYNAME", "APPLICATION"]

  /** Values of the members from position `k` of the declaration order on
      whose member name is in `names`, in declaration order. */
  function ParameterValuesNamedFrom(k: nat, names: seq<string>): seq<string>
    decreases |PARAMETERS| - k
  {
    if k >= |PARAMETERS| then []
    else (if PARAMETERS[k].MemberName() in names then [PARAMETERS[k].Value()] else [])
         + ParameterValuesNamedFrom(k + 1, names)
  }

  /** `NSSMParameter.values()`. */
  function ParameterValues(): seq<string>
  {
    seq(|PARAMETERS|, i requires 0 <= i < |PARAMETERS| => PARAMETERS[i].Value())
  }

  /** `NSSMParameter.values_required()`. */
  function ParameterValuesRequired(): seq<string>
  {
    ParameterValuesNamedFrom(0, PARAMETER_NAMES_REQUIRED)
  }

  /** Required values come in enumeration declaration order: DisplayName,
      then Application (the order of the required member names does not
      matter). */
  lemma ParameterValuesRequiredOrder()
    ensures ParameterValuesRequired() == ["DisplayName", "Application"]
  {
  }

  lemma RequiredValuesListed()
    ensures "DisplayName" in ParameterValues() && "Application" in ParameterValues()
  {
    assert ParameterValues()[1] == "DisplayName";
    assert ParameterValues()[3] == "Application";
  }

  /** Every required value is a recognised parameter name. */
  lemma RequiredAreRecognised()
    ensures forall v :: v in ParameterValuesRequired() ==> v in ParameterValues()
  {
    ParameterValuesRequiredOrder();
    RequiredValuesListed();
  }

  /** The enumeration has no aliases: distinct members have distinct values. */
  lemma ParameterValuesDistinct()
    ensures forall i, j :: 0 <= i < j < |ParameterValues()| ==> ParameterValues()[i] != ParameterValues()[j]
  {
  }

  /** NSSM command set, in declaration order. */
  datatype NSSMCommand = Install | Remove | Start | Stop | Restart | Status | Set
  {
    function Value(): string
    {
      match this
      case Install => "install"
      case Remove => "remove"
      case Start => "start"
      case Stop => "stop"
      case Restart => "restart"
      case Status => "status"
      case Set => "set"
    }

    function MemberName(): string
    {
      match this
      case Install => "INSTALL"
      case Remove => "REMOVE"
      case Start => "START"
      case Stop => "STOP"
      case Restart => "RESTART"
      case Status => "STATUS"
      case Set => "SET"
    }
  }

  const COMMANDS: seq<NSSMCommand> :=
    [ NSSMCommand.Install, NSSMCommand.Remove, NSSMCommand.Start,
      NSSMCommand.Stop, NSSMCommand.Restart, NSSMCommand.Status,
      NSSMCommand.Set ]

  /** Member names of the primitive commands. */
  const COMMAND_NAMES_PRIMITIVE: seq<string> := ["START", "STOP", "RESTART", "STATUS"]

  function CommandValuesNamedFrom(k: nat, names: seq<string>): seq<string>
    decreases |COMMANDS| - k
  {
    if k >= |COMMANDS| then []
    else (if COMMANDS[k].MemberName() in names then [COMMANDS[k].Value()] else [])
         + CommandValuesNamedFrom(k + 1, names)
  }

  /** `NSSMCommand.values_primitive()`. */
  function CommandValuesPrimitive(): seq<string>
  {
    CommandValuesNamedFrom(0, COMMAND_NAMES_PRIMITIVE)
  }

  /** The primitive verbs are start, stop, restart and status, in that order. */
  lemma CommandValuesPrimitiveOrder()
    ensures CommandValuesPrimitive() == ["start", "stop", "restart", "status"]
  {
  }

  /** The configuration file section that holds the service parameters. */
  datatype NSSMConfSection = Service
  {
    function Value(): string { "service" }
  }
}
