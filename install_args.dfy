/** Install-argument extraction: the required parameter values of the
    `service` section in schema order, then the recognised optional
    parameters as name/value pairs in section order, every element then
    rendered as a template with the cluster's `master_ip` and `local_ip`. */
module InstallArgs {
  import opened SvcmBase
  import opened Schema
  import opened ServiceConf

  /** What the template engine makes of one element. */
  datatype Rendered = Rendered(text: string) | TemplateError(cause: string)

  /** The template engine: (template, master_ip, local_ip) to its rendering. */
  type Renderer = (string, string, string) -> Rendered

  const DEFAULT_IP: string := "127.0.0.1"

  /** The cluster configuration's value for `key`, loopback when absent. */
  function ClusterAddress(clusterConf: map<string, string>, key: string): (r: string)
    ensures key in clusterConf ==> r == clusterConf[key]
    ensures key !in clusterConf ==> r == DEFAULT_IP
  {
    if key in clusterConf then clusterConf[key] else DEFAULT_IP
  }

  function MasterIp(clusterConf: map<string, string>): string
  {
    ClusterAddress(clusterConf, "master_ip")
  }

  function LocalIp(clusterConf: map<string, string>): string
  {
    ClusterAddress(clusterConf, "local_ip")
  }

  /** The values of `pnames` in order; fails on the first one the section
      lacks, naming it. */
  function RequiredValues(section: Section, pnames: seq<string>): (r: Result<seq<string>>)
    ensures r.Ok? <==> forall k :: 0 <= k < |pnames| ==> Get(section, pnames[k]).Some?
    ensures r.Ok? ==> |r.value| == |pnames|
    ensures r.Ok? ==> forall k :: 0 <= k < |pnames| ==> Get(section, pnames[k]) == Some(r.value[k])
    ensures r.Err? ==>
      exists k :: (0 <= k < |pnames| && Get(section, pnames[k]).None?
        && (forall j :: 0 <= j < k ==> Get(section, pnames[j]).Some?)
        && r.error == ConfigError(RequiredParameterUnavailable(pnames[k])))
  {
    if |pnames| == 0 then Ok([])
    else match Get(section, pnames[0])
      case None => Err(ConfigError(RequiredParameterUnavailable(pnames[0])))
      case Some(v) =>
        match RequiredValues(section, pnames[1..])
        case Err(e) =>
          var k :| 0 <= k < |pnames[1..]| && Get(section, pnames[1..][k]).None?
            && (forall j :: 0 <= j < k ==> Get(section, pnames[1..][j]).Some?)
            && e == ConfigError(RequiredParameterUnavailable(pnames[1..][k]));
          assert Get(section, pnames[k + 1]).None?;
          Err(e)
        case Ok(rest) =>
          assert forall k :: 1 <= k < |pnames| ==> pnames[k] == pnames[1..][k - 1];
          Ok([v] + rest)
  }

  /** The names among `names` that are in `valid` but not in `required`,
      in their order. */
  function OptionalNames(names: seq<string>, valid: seq<string>, required: seq<string>): (r: seq<string>)
    ensures |r| <= |names|
  {
    if names == [] then []
    else (if names[0] in valid && names[0] !in required then [names[0]] else [])
         + OptionalNames(names[1..], valid, required)
  }

  /** A name survives the filter exactly when it occurs in `names`, is
      valid and is not required. */
  lemma {:induction false} OptionalNamesMembers(names: seq<string>, valid: seq<string>, required: seq<string>, n: string)
    ensures n in OptionalNames(names, valid, required) <==> n in names && n in valid && n !in required
  {
    if names != [] {
      OptionalNamesMembers(names[1..], valid, required, n);
      assert names == [names[0]] + names[1..];
    }
  }

  /** Filtering distributes over concatenation, so the optional names keep
      their relative order. */
  lemma {:induction false} OptionalNamesAppend(a: seq<string>, b: seq<string>, valid: seq<string>, required: seq<string>)
    ensures OptionalNames(a + b, valid, required)
         == OptionalNames(a, valid, required) + OptionalNames(b, valid, required)
  {
    if a == [] {
      assert a + b == b;
    } else {
      var head := if a[0] in valid && a[0] !in required then [a[0]] else [];
      OptionalNamesAppend(a[1..], b, valid, required);
      assert (a + b)[0] == a[0];
      assert (a + b)[1..] == a[1..] + b;
      assert OptionalNames(a + b, valid, required) == head + OptionalNames(a[1..] + b, valid, required);
      assert OptionalNames(a, valid, required) == head + OptionalNames(a[1..], valid, required);
    }
  }

  /** Each name followed by its value in the section. */
  function OptionalPairs(section: Section, names: seq<string>): (r: seq<string>)
    requires forall k :: 0 <= k < |names| ==> names[k] in Options(section)
    ensures |r| == 2 * |names|
  {
    if names == [] then []
    else [names[0], Get(section, names[0]).value] + OptionalPairs(section, names[1..])
  }

  /** Position `2k` holds the `k`-th name and position `2k + 1` its value. */
  lemma {:induction false} OptionalPairsLayout(section: Section, names: seq<string>)
    requires forall k :: 0 <= k < |names| ==> names[k] in Options(section)
    ensures var r := OptionalPairs(section, names);
      forall k :: 0 <= k < |names| ==>
        r[2 * k] == names[k] && Get(section, names[k]) == Some(r[2 * k + 1])
  {
    if names != [] {
      var rest := OptionalPairs(section, names[1..]);
      var r := OptionalPairs(section, names);
      OptionalPairsLayout(section, names[1..]);
      forall k | 1 <= k < |names|
        ensures r[2 * k] == names[k] && Get(section, names[k]) == Some(r[2 * k + 1])
      {
        assert r[2 * k] == rest[2 * (k - 1)] && r[2 * k + 1] == rest[2 * (k - 1) + 1];
      }
    }
  }

  /** The optional parameter names of a section. */
  function SectionOptionalNames(section: Section): (r: seq<string>)
    ensures forall k :: 0 <= k < |r| ==> r[k] in Options(section)
  {
    var r := OptionalNames(Options(section), ParameterValues(), ParameterValuesRequired());
    forall k | 0 <= k < |r| ensures r[k] in Options(section) {
      OptionalNamesMembers(Options(section), ParameterValues(), ParameterValuesRequired(), r[k]);
    }
    r
  }

  /** The install arguments before rendering. */
  function RawInstallArgs(section: Section): Result<seq<string>>
  {
    match RequiredValues(section, ParameterValuesRequired())
    case Err(e) => Err(e)
    case Ok(required) =>
      Ok(required + OptionalPairs(section, SectionOptionalNames(section)))
  }

  /** Renders every element with the same addresses; the first element
      that fails to render makes the whole a config error. */
  function RenderAll(raw: seq<string>, masterIp: string, localIp: string, render: Renderer): (r: Result<seq<string>>)
    ensures r.Ok? <==> forall i :: 0 <= i < |raw| ==> render(raw[i], masterIp, localIp).Rendered?
    ensures r.Ok? ==> |r.value| == |raw|
    ensures r.Ok? ==> forall i :: 0 <= i < |raw| ==> r.value[i] == render(raw[i], masterIp, localIp).text
    ensures r.Err? ==>
      exists i :: (0 <= i < |raw| && render(raw[i], masterIp, localIp).TemplateError?
        && (forall j :: 0 <= j < i ==> render(raw[j], masterIp, localIp).Rendered?)
        && r.error == ConfigError(SubstitutionFailed(render(raw[i], masterIp, localIp).cause)))
  {
    if raw == [] then Ok([])
    else match render(raw[0], masterIp, localIp)
      case TemplateError(cause) => Err(ConfigError(SubstitutionFailed(cause)))
      case Rendered(text) =>
        match RenderAll(raw[1..], masterIp, localIp, render)
        case Err(e) =>
          var i :| 0 <= i < |raw[1..]| && render(raw[1..][i], masterIp, localIp).TemplateError?
            && (forall j :: 0 <= j < i ==> render(raw[1..][j], masterIp, localIp).Rendered?)
            && e == ConfigError(SubstitutionFailed(render(raw[1..][i], masterIp, localIp).cause));
          assert raw[i + 1] == raw[1..][i];
          assert forall j :: 1 <= j <= i ==> raw[j] == raw[1..][j - 1];
          Err(e)
        case Ok(rest) =>
          assert forall i :: 1 <= i < |raw| ==> raw[i] == raw[1..][i - 1];
          Ok([text] + rest)
  }

  /** Install arguments of the `service` section. */
  function InstallArgsOfSection(section: Section, clusterConf: map<string, string>, render: Renderer): Result<seq<string>>
  {
    match RawInstallArgs(section)
    case Err(e) => Err(e)
    case Ok(raw) => RenderAll(raw, MasterIp(clusterConf), LocalIp(clusterConf), render)
  }

  /** Install arguments of a descriptor: it must have a `service` section. */
  function ServiceInstallArgs(svcConf: Descriptor, clusterConf: map<string, string>, render: Renderer): Result<seq<string>>
  {
    if NSSMConfSection.Service.Value() !in svcConf then
      Err(ConfigError(SectionNotFound(NSSMConfSection.Service.Value())))
    else InstallArgsOfSection(svcConf[NSSMConfSection.Service.Value()], clusterConf, render)
  }

  /** Without a `service` section extraction fails before any parameter
      is looked up. */
  lemma NoServiceSection(svcConf: Descriptor, clusterConf: map<string, string>, render: Renderer)
    requires NSSMConfSection.Service.Value() !in svcConf
    ensures ServiceInstallArgs(svcConf, clusterConf, render)
            == Err(ConfigError(SectionNotFound(NSSMConfSection.Service.Value())))
  {
  }

  /** A missing required parameter fails extraction with a config error
      naming it; DisplayName is looked up before Application. */
  lemma MissingRequiredParameter(section: Section, clusterConf: map<string, string>, render: Renderer)
    ensures Get(section, "DisplayName").None? ==>
      InstallArgsOfSection(section, clusterConf, render)
        == Err(ConfigError(RequiredParameterUnavailable("DisplayName")))
    ensures Get(section, "DisplayName").Some? && Get(section, "Application").None? ==>
      InstallArgsOfSection(section, clusterConf, render)
        == Err(ConfigError(RequiredParameterUnavailable("Application")))
  {
    ParameterValuesRequiredOrder();
    var pnames := ParameterValuesRequired();
    assert |pnames| == 2 && pnames[0] == "DisplayName" && pnames[1] == "Application";
    var r := RequiredValues(section, pnames);
    if r.Err? {
      var k :| 0 <= k < |pnames| && Get(section, pnames[k]).None?
        && (forall j :: 0 <= j < k ==> Get(section, pnames[j]).Some?)
        && r.error == ConfigError(RequiredParameterUnavailable(pnames[k]));
      assert Get(section, "DisplayName").None? ==> k == 0;
    }
  }

  /** The raw arguments exist exactly when both required parameters do. */
  lemma RawInstallArgsSucceed(section: Section)
    ensures RawInstallArgs(section).Ok?
        <==> Get(section, "DisplayName").Some? && Get(section, "Application").Some?
  {
    ParameterValuesRequiredOrder();
    var pnames := ParameterValuesRequired();
    assert |pnames| == 2 && pnames[0] == "DisplayName" && pnames[1] == "Application";
    assert RequiredValues(section, pnames).Ok?
        <==> Get(section, pnames[0]).Some? && Get(section, pnames[1]).Some?;
  }

  /** Layout of the raw install arguments: the DisplayName and Application
      values, then each optional name of the section followed by its value. */
  lemma RawInstallArgsLayout(section: Section)
    requires RawInstallArgs(section).Ok?
    ensures
      var raw := RawInstallArgs(section).value;
      var names := SectionOptionalNames(section);
      && |raw| == 2 + 2 * |names|
      && Get(section, "DisplayName") == Some(raw[0])
      && Get(section, "Application") == Some(raw[1])
      && (forall k :: 0 <= k < |names| ==>
            raw[2 + 2 * k] == names[k] && Get(section, names[k]) == Some(raw[3 + 2 * k]))
  {
    ParameterValuesRequiredOrder();
    var required := RequiredValues(section, ParameterValuesRequired()).value;
    var names := SectionOptionalNames(section);
    var pairs := OptionalPairs(section, names);
    OptionalPairsLayout(section, names);
    var raw := required + pairs;
    assert raw == RawInstallArgs(section).value;
    assert |required| == 2;
    forall k | 0 <= k < |names|
      ensures raw[2 + 2 * k] == names[k] && Get(section, names[k]) == Some(raw[3 + 2 * k])
    {
      assert raw[2 + 2 * k] == pairs[2 * k];
      assert raw[3 + 2 * k] == pairs[2 * k + 1];
    }
  }

  /** Layout of successfully extracted install arguments: the rendered
      DisplayName and Application values, then for each optional name of the
      section its rendered name and rendered value; every element rendered
      with the same two addresses. */
  lemma InstallArgsLayout(section: Section, clusterConf: map<string, string>, render: Renderer)
    requires InstallArgsOfSection(section, clusterConf, render).Ok?
    ensures RawInstallArgs(section).Ok?
    ensures
      var raw := RawInstallArgs(section).value;
      var args := InstallArgsOfSection(section, clusterConf, render).value;
      var names := SectionOptionalNames(section);
      && |raw| == |args| == 2 + 2 * |names|
      && Get(section, "DisplayName") == Some(raw[0])
      && Get(section, "Application") == Some(raw[1])
      && (forall k :: 0 <= k < |names| ==>
            raw[2 + 2 * k] == names[k] && Get(section, names[k]) == Some(raw[3 + 2 * k]))
      && (forall i :: 0 <= i < |args| ==>
            args[i] == render(raw[i], MasterIp(clusterConf), LocalIp(clusterConf)).text)
  {
    RawInstallArgsLayout(section);
  }

  /** Without `master_ip` and `local_ip` in the cluster configuration,
      every install argument is rendered with the loopback address for
      both. */
  lemma DefaultAddresses(section: Section, clusterConf: map<string, string>, render: Renderer)
    requires "master_ip" !in clusterConf && "local_ip" !in clusterConf
    requires InstallArgsOfSection(section, clusterConf, render).Ok?
    ensures RawInstallArgs(section).Ok?
    ensures
      var raw := RawInstallArgs(section).value;
      var args := InstallArgsOfSection(section, clusterConf, render).value;
      && |args| == |raw|
      && forall i :: 0 <= i < |args| ==> args[i] == render(raw[i], "127.0.0.1", "127.0.0.1").text
  {
    InstallArgsLayout(section, clusterConf, render);
  }

  /** Exactly the recognised, non-required option names of the section are
      passed on: unknown names are dropped and required ones are not
      repeated. */
  lemma SectionOptionalNamesExact(section: Section, n: string)
    ensures n in SectionOptionalNames(section)
        <==> n in Options(section) && n in ParameterValues() && n !in ParameterValuesRequired()
  {
    OptionalNamesMembers(Options(section), ParameterValues(), ParameterValuesRequired(), n);
  }

  /** Optional names follow section order: those of a section made of two
      runs of options are those of the first run, then those of the
      second. */
  lemma SectionOptionalNamesOrder(first: Section, second: Section)
    ensures SectionOptionalNames(first + second)
         == SectionOptionalNames(first) + SectionOptionalNames(second)
  {
    assert Options(first + second) == Options(first) + Options(second);
    OptionalNamesAppend(Options(first), Options(second), ParameterValues(), ParameterValuesRequired());
  }
}
