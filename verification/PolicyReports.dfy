/** Which findings a check reports, rule by rule, with the rule, the impact, the path and the text of each. */
module PolicyReports {
  import opened Wrappers
  import opened Policy
  import opened PolicyFacts
  import opened PolicyFindings
  import opened PolicyKeys
  import opened PolicyWords

  // ---------------------------------------------------------------------------------------------
  // What is reported of a node
  // ---------------------------------------------------------------------------------------------

  predicate IsHostKind(word: string) {
    || word == "host" || word == "bridge" || word == "ovs-bridge"
    || word == "ext-container" || word == "k8s-kind" || word == "tailscale"
  }

  ghost predicate KindReport(path: string, kind: string, f: Finding) {
    && f.message.Quoting? && IsHostKind(f.message.value) && Says(kind, f.message.value)
    && f == Finding(HostKind, Shell, path + ".kind",
                    Quoting("connects the lab to the server or networks outside the lab", f.message.value))
  }

  /** An image is only looked at if there are prefixes. */
  ghost predicate ImageReport(prefixes: seq<string>, path: string, image: string, f: Finding) {
    && image != "" && prefixes != [] && (forall prefix | prefix in prefixes :: !(prefix <= TrimSpace(image)))
    && f == Finding(ImageNotAllowed, Shell, path + ".image", Quoting("is not on the allowlist", TrimSpace(image)))
  }

  predicate PrivilegedReport(path: string, privileged: Option<bool>, f: Finding) {
    && privileged == Some(true)
    && f == Finding(Privileged, Shell, path + ".privileged", Text("privileged nodes can access the server"))
  }

  /** A reference to a remote file, or to anything but the files of the topology and the directories around them. */
  ghost predicate FileReport(files: seq<string>, path: string, reference: string, f: Finding) {
    var trimmed := TrimSpace(reference);
    if exists i: nat :: StandsAt(trimmed, "://", i) then
      f == Finding(RemoteFile, Deploy, path, Text("remote files are downloaded by the server"))
    else
      && !LeadsToFile(files, trimmed)
      && f == Finding(ForeignFile, Shell, path, Quoting("is not one of the topology's files", trimmed))
  }

  ghost predicate BindReport(files: seq<string>, path: string, binds: seq<string>, f: Finding) {
    exists i | 0 <= i < |binds| :: FileReport(files, path + ".binds[" + Decimal(i) + "]", Before(binds[i], ':'), f)
  }

  ghost predicate CommandReport(path: string, command: Option<string>, i: nat, f: Finding) {
    && command.Some? && !Says(command.value, "") && !Says(command.value, "container")
    && f == Finding(HostExec, Deploy, path + ".exec[" + Decimal(i) + "].target",
                    Text("stage commands with this target run on the server"))
  }

  ghost predicate StageReport(path: string, commands: Option<Commands>, f: Finding) {
    commands.Some? && exists i | 0 <= i < |commands.value| :: CommandReport(path, commands.value[i], i, f)
  }

  ghost predicate StagesReport(path: string, stages: Option<Stages>, f: Finding) {
    stages.Some? &&
    (|| StageReport(path + ".stages.create", stages.value.create, f)
     || StageReport(path + ".stages.create-links", stages.value.createLinks, f)
     || StageReport(path + ".stages.configure", stages.value.configure, f)
     || StageReport(path + ".stages.healthy", stages.value.healthy, f)
     || StageReport(path + ".stages.exit", stages.value.exit, f))
  }

  ghost predicate NodeReport(options: Options, files: seq<string>, path: string, d: NodeDefinition, f: Finding) {
    || KindReport(path, d.kind, f)
    || ImageReport(options.allowedImagePrefixes, path, d.image, f)
    || PrivilegedReport(path, d.privileged, f)
    || BindReport(files, path, d.binds, f)
    || (d.startupConfig != "" && '\n' !in d.startupConfig
        && FileReport(files, path + ".startup-config", d.startupConfig, f))
    || (d.license != "" && FileReport(files, path + ".license", d.license, f))
    || (d.identityFile != "" && FileReport(files, path + ".credentials.identity-file", d.identityFile, f))
    || StagesReport(path, d.stages, f)
  }

  // ---------------------------------------------------------------------------------------------
  // What is reported of a topology
  // ---------------------------------------------------------------------------------------------

  ghost predicate NodesReport(options: Options, files: seq<string>, section: string,
                              definitions: map<string, Option<NodeDefinition>>, f: Finding) {
    exists name | name in definitions ::
      definitions[name].Some? && NodeReport(options, files, section + name, definitions[name].value, f)
  }

  ghost predicate EndpointReport(path: string, endpoint: Option<string>, j: nat, f: Finding) {
    && endpoint.Some?
    && (Says(endpoint.value, "host") || Says(endpoint.value, "macvlan") || Says(endpoint.value, "mgmt-net"))
    && f == Finding(HostLink, Shell, path + ".endpoints[" + Decimal(j) + "]",
                    Quoting("connects the lab to the server or networks outside the lab", endpoint.value))
  }

  ghost predicate LinkReport(path: string, link: Option<Link>, f: Finding) {
    match link
    case Some(Veth(endpoints)) => exists j | 0 <= j < |endpoints| :: EndpointReport(path, endpoints[j], j, f)
    case Some(OtherLink(linkType)) =>
      f == Finding(HostLink, Shell, path,
                   Quoting("connects the lab to the server or networks outside the lab", linkType))
    case _ => false
  }

  ghost predicate LinksReport(links: seq<Option<Link>>, f: Finding) {
    exists i | 0 <= i < |links| :: LinkReport("topology.links[" + Decimal(i) + "]", links[i], f)
  }

  ghost predicate TopologyReport(options: Options, files: seq<string>, t: Topology, f: Finding) {
    || (t.defaults.Some? && NodeReport(options, files, "topology.defaults", t.defaults.value, f))
    || NodesReport(options, files, "topology.kinds.", t.kinds, f)
    || NodesReport(options, files, "topology.groups.", t.groups, f)
    || NodesReport(options, files, "topology.nodes.", t.nodes, f)
    || LinksReport(t.links, f)
  }

  // ---------------------------------------------------------------------------------------------
  // What is reported of the text and the keys
  // ---------------------------------------------------------------------------------------------

  ghost predicate TextReport(text: string, f: Finding) {
    || ((exists i: nat | i < |text| - 1 :: OpensTemplate(text, i))
        && f == Finding(GoTemplate, Deploy, "", Text(
                "containerlab renders the topology as a Go template, so templated topologies can't be checked")))
    || ((exists i: nat | i < |text| - 1 :: NamesVariable(text, i))
        && f == Finding(EnvExpansion, Deploy, "", Text(
                "containerlab replaces $VAR and ${VAR} with environment variables of the deploying process")))
  }

  predicate UnknownReport(path: string, f: Finding) {
    f == Finding(UnreviewedField, Unreviewed, path, Quoting("is not a reviewed field", path))
  }

  predicate Is(f: Finding, ruleId: RuleId, impact: Impact, path: string, text: string) {
    f == Finding(ruleId, impact, path, Text(text))
  }

  /** Fields that weaken the isolation of a node. */
  predicate IsIsolationField(key: string) {
    || key == "env-files" || key == "network-mode" || key == "pid-mode" || key == "cgroupns-mode"
    || key == "cgroup-parent" || key == "cap-add" || key == "devices" || key == "security-opts"
  }

  /** The sixteen fields that are denied. */
  predicate IsDeniedField(key: string) {
    || IsIsolationField(key)
    || key == "sysctls" || key == "runtime" || key == "ports" || key == "volumes"
    || key == "mgmt-ipv4" || key == "mgmt-ipv6" || key == "extras" || key == "components"
  }

  predicate IsolationReport(path: string, key: string, f: Finding) {
    || (key == "env-files" && Is(f, EnvFiles, Deploy, path,
                                 "env files are read on the server and can expand its environment variables"))
    || (key == "network-mode" && Is(f, HostNamespace, Shell, path,
                                    "shares a network namespace with the server or another container"))
    || (key == "pid-mode" && Is(f, HostNamespace, Shell, path,
                                "shares a process namespace with the server or another container"))
    || (key == "cgroupns-mode" && Is(f, HostNamespace, Shell, path, "shares the cgroup namespace with the server"))
    || (key == "cgroup-parent" && Is(f, HostNamespace, Deploy, path, "places the node in a cgroup of the server"))
    || (key == "cap-add" && Is(f, Privileges, Shell, path, "grants additional Linux capabilities"))
    || (key == "devices" && Is(f, Privileges, Shell, path, "gives the node access to devices of the server"))
    || (key == "security-opts" && Is(f, Privileges, Shell, path, "changes the node's security profile"))
  }

  predicate DeniedReport(path: string, key: string, f: Finding) {
    if IsIsolationField(key) then IsolationReport(path, key, f)
    else
      || (key == "sysctls" && Is(f, KernelSettings, Deploy, path, "changes kernel settings"))
      || (key == "runtime" && Is(f, Runtime, Deploy, path, "selects the container runtime"))
      || (key == "ports" && Is(f, HostPorts, Deploy, path, "publishes ports on the server"))
      || (key == "volumes" && Is(f, Volumes, Shell, path, "mounts container volumes, which other labs can share"))
      || ((key == "mgmt-ipv4" || key == "mgmt-ipv6")
          && Is(f, StaticMgmtAddress, Shell, path, "static management addresses can take another lab's address"))
      || (key == "extras" && Is(f, UnreviewedField, Unreviewed, path,
                                "kind-specific extras can reference files on the server"))
      || (key == "components" && Is(f, UnreviewedField, Unreviewed, path, "node components are not reviewed"))
  }

  predicate FieldReport(path: string, key: string, f: Finding) {
    !IsAllowedField(key) && (if IsDeniedField(key) then DeniedReport(path, key, f) else UnknownReport(path, f))
  }

  ghost predicate DefinitionReport(path: string, value: Yaml, f: Finding) {
    exists key | key in Fields(value) :: FieldReport(path + "." + key, key, f)
  }

  ghost predicate DefinitionsReport(path: string, value: Yaml, f: Finding) {
    exists name | name in Fields(value) :: DefinitionReport(path + "." + name, Fields(value)[name], f)
  }

  ghost predicate SectionReport(section: string, value: Yaml, f: Finding) {
    if section == "defaults" then DefinitionReport("topology.defaults", value, f)
    else if section == "kinds" then DefinitionsReport("topology.kinds", value, f)
    else if section == "groups" then DefinitionsReport("topology.groups", value, f)
    else if section == "nodes" then DefinitionsReport("topology.nodes", value, f)
    else section != "links" && UnknownReport("topology." + section, f)
  }

  ghost predicate TopologyKeysReport(value: Yaml, f: Finding) {
    exists section | section in Fields(value) :: SectionReport(section, Fields(value)[section], f)
  }

  ghost predicate KeyReport(key: string, value: Yaml, f: Finding) {
    if key == "name" || key == "debug" then false
    else if key == "topology" then TopologyKeysReport(value, f)
    else if key == "mgmt" then Is(f, Mgmt, Shell, "mgmt", "the management network is set by Antimony")
    else if key == "prefix" then Is(f, Prefix, Deploy, "prefix", "the container name prefix is set by Antimony")
    else if key == "settings" then Is(f, Settings, Deploy, "settings", "lab settings can reference files on the server")
    else UnknownReport(key, f)
  }

  ghost predicate KeysReport(raw: Yaml, f: Finding) {
    exists key | key in Fields(raw) :: KeyReport(key, Fields(raw)[key], f)
  }

  // ---------------------------------------------------------------------------------------------
  // The findings of the text and the keys
  // ---------------------------------------------------------------------------------------------

  lemma TextIsReported(text: string, f: Finding)
    ensures f in TextFindings(text) <==> TextReport(text, f)
  {
    PolicyKeys.ContainsMeans(text);
    ExpandsVariableMeans(text);
  }

  lemma DeniedFieldsAre(key: string)
    ensures key in DENIED_FIELDS <==> IsDeniedField(key)
  {
  }

  lemma IsolationIsReported(path: string, key: string, f: Finding)
    requires IsIsolationField(key)
    ensures key in DENIED_FIELDS && DENIED_FIELDS[key].Denied?
    ensures var d := DENIED_FIELDS[key];
            f == Finding(d.ruleId, d.impact, path, Text(d.message)) <==> DeniedReport(path, key, f)
  {
  }

  lemma OtherIsReported(path: string, key: string, f: Finding)
    requires IsDeniedField(key) && !IsIsolationField(key)
    ensures key in DENIED_FIELDS && DENIED_FIELDS[key].Denied?
    ensures var d := DENIED_FIELDS[key];
            f == Finding(d.ruleId, d.impact, path, Text(d.message)) <==> DeniedReport(path, key, f)
  {
    hide IsolationReport;
  }

  lemma DeniedIsReported(path: string, key: string, f: Finding)
    requires IsDeniedField(key)
    ensures key in DENIED_FIELDS && DENIED_FIELDS[key].Denied?
    ensures var d := DENIED_FIELDS[key];
            f == Finding(d.ruleId, d.impact, path, Text(d.message)) <==> DeniedReport(path, key, f)
  {
    hide DENIED_FIELDS, DeniedReport, IsDeniedField, IsIsolationField;
    if IsIsolationField(key) {
      IsolationIsReported(path, key, f);
    } else {
      OtherIsReported(path, key, f);
    }
  }

  lemma FieldIsReported(path: string, key: string, f: Finding)
    ensures f in NodeKeyFindings(path, key) <==> FieldReport(path, key, f)
  {
    hide IsAllowedField, ALLOWED_FIELDS, DENIED_FIELDS, DeniedReport, IsDeniedField;
    AllowedFieldsAre(key);
    DeniedFieldsAre(key);
    if IsDeniedField(key) {
      DeniedIsReported(path, key, f);
    }
  }

  lemma {:induction false} FieldsAreReported(path: string, keys: seq<string>, f: Finding)
    ensures f in FieldsFindings(path, keys) <==> exists key | key in keys :: FieldReport(path + "." + key, key, f)
    decreases |keys|
  {
    hide NodeKeyFindings, FieldReport;
    if keys != [] {
      var (rest, last) := (keys[..|keys| - 1], keys[|keys| - 1]);
      assert keys == rest + [last];
      FieldsAreReported(path, rest, f);
      FieldIsReported(path + "." + last, last, f);
    }
  }

  lemma DefinitionIsReported(path: string, value: Yaml, f: Finding)
    ensures f in NodeKeysFindings(path, value) <==> DefinitionReport(path, value, f)
  {
    hide FieldsFindings, FieldReport;
    AllInOrder(Fields(value).Keys);
    FieldsAreReported(path, InOrder(Fields(value).Keys), f);
  }

  lemma {:induction false} DefinitionsAreReported(path: string, names: seq<string>, definitions: map<string, Yaml>,
                                                  f: Finding)
    requires forall name | name in names :: name in definitions
    ensures f in DefinitionsFindings(path, names, definitions)
            <==> exists name | name in names :: DefinitionReport(path + "." + name, definitions[name], f)
    decreases |names|
  {
    hide NodeKeysFindings, DefinitionReport;
    if names != [] {
      var (rest, last) := (names[..|names| - 1], names[|names| - 1]);
      assert names == rest + [last];
      DefinitionsAreReported(path, rest, definitions, f);
      DefinitionIsReported(path + "." + last, definitions[last], f);
    }
  }

  lemma SectionIsReported(section: string, value: Yaml, f: Finding)
    ensures f in TopologySectionFindings(section, value) <==> SectionReport(section, value, f)
  {
    hide NodeKeysFindings, DefinitionsFindings, DefinitionReport, DEFINITION_SECTIONS;
    SectionsAre(section);
    var path := "topology." + section;
    if section == "defaults" {
      DefinitionIsReported(path, value, f);
    } else if section == "kinds" || section == "groups" || section == "nodes" {
      AllInOrder(Fields(value).Keys);
      DefinitionsAreReported(path, InOrder(Fields(value).Keys), Fields(value), f);
    }
    SectionPaths();
  }

  lemma SectionsAre(section: string)
    ensures section in DEFINITION_SECTIONS <==> section == "kinds" || section == "groups" || section == "nodes"
  {
  }

  lemma SectionPaths()
    ensures "topology." + "defaults" == "topology.defaults" && "topology." + "kinds" == "topology.kinds"
    ensures "topology." + "groups" == "topology.groups" && "topology." + "nodes" == "topology.nodes"
  {
  }

  lemma {:induction false} SectionsAreReported(sections: seq<string>, topology: map<string, Yaml>, f: Finding)
    requires forall section | section in sections :: section in topology
    ensures f in TopologySectionsFindings(sections, topology)
            <==> exists section | section in sections :: SectionReport(section, topology[section], f)
    decreases |sections|
  {
    hide TopologySectionFindings, SectionReport;
    if sections != [] {
      var (rest, last) := (sections[..|sections| - 1], sections[|sections| - 1]);
      assert sections == rest + [last];
      SectionsAreReported(rest, topology, f);
      SectionIsReported(last, topology[last], f);
    }
  }

  lemma TopologyKeysAreReported(value: Yaml, f: Finding)
    ensures f in TopologyKeysFindings(value) <==> TopologyKeysReport(value, f)
  {
    hide TopologySectionsFindings, SectionReport;
    AllInOrder(Fields(value).Keys);
    SectionsAreReported(InOrder(Fields(value).Keys), Fields(value), f);
  }

  lemma KeyIsReported(key: string, value: Yaml, f: Finding)
    ensures f in RootKeyFindings(key, value) <==> KeyReport(key, value, f)
  {
    hide TopologyKeysFindings, TopologyKeysReport;
    TopologyKeysAreReported(value, f);
  }

  lemma {:induction false} KeysAreReported(keys: seq<string>, root: map<string, Yaml>, f: Finding)
    requires forall key | key in keys :: key in root
    ensures f in RootKeysFindings(keys, root) <==> exists key | key in keys :: KeyReport(key, root[key], f)
    decreases |keys|
  {
    hide RootKeyFindings, KeyReport;
    if keys != [] {
      var (rest, last) := (keys[..|keys| - 1], keys[|keys| - 1]);
      assert keys == rest + [last];
      KeysAreReported(rest, root, f);
      KeyIsReported(last, root[last], f);
    }
  }

  lemma RootIsReported(raw: Yaml, f: Finding)
    ensures f in RootFindings(raw) <==> KeysReport(raw, f)
  {
    hide RootKeysFindings, KeyReport;
    AllInOrder(Fields(raw).Keys);
    KeysAreReported(InOrder(Fields(raw).Keys), Fields(raw), f);
  }

  // ---------------------------------------------------------------------------------------------
  // The findings of a node
  // ---------------------------------------------------------------------------------------------

  lemma HostKindIsLower(message: Message)
    ensures message.Quoting? && IsHostKind(message.value) ==> IsLowerCase(message.value)
  {
  }

  lemma KindsAgree(kind: string)
    ensures IsHostKind(kind) <==> kind in HOST_REACHING_KINDS
  {
    hide HOST_REACHING_KINDS;
    HostKindsAre(kind);
  }

  lemma KindIsReported(path: string, kind: string, f: Finding)
    ensures f in KindFindings(path, kind) <==> KindReport(path, kind, f)
  {
    hide Says, Normalized, HOST_REACHING_KINDS, IsHostKind;
    NormalizedIs(kind);
    HostKindIsLower(f.message);
    if f.message.Quoting? && IsHostKind(f.message.value) {
      LoweredSays(kind, f.message.value);
    }
    if IsHostKind(Normalized(kind)) {
      HostKindIsLower(Quoting("", Normalized(kind)));
      LoweredSays(kind, Normalized(kind));
    }
    KindsAgree(Normalized(kind));
  }

  lemma ImageIsReported(prefixes: seq<string>, path: string, image: string, f: Finding)
    ensures f in ImageFindings(prefixes, path, image) <==> ImageReport(prefixes, path, image, f)
  {
    hide TrimSpace;
  }

  lemma FileIsReported(files: seq<string>, path: string, reference: string, f: Finding)
    requires AreStored(files)
    ensures f in FileFindings(files, path, reference) <==> FileReport(files, path, reference, f)
  {
    hide TrimSpace, LeadsToFile, IsOwnFile;
    PolicyWords.ContainsMeans(TrimSpace(reference), "://");
    OwnFileMeans(files, TrimSpace(reference));
  }

  lemma IndexedIs(path: string, field: string, i: nat)
    ensures Indexed(path + field, i) == path + (field + "[") + Decimal(i) + "]"
  {
    hide Decimal;
    assert path + field + "[" == path + (field + "[");
  }

  lemma {:induction false} BindsAreReported(files: seq<string>, path: string, binds: seq<string>, f: Finding)
    requires AreStored(files)
    ensures f in BindFindings(files, path, binds) <==> BindReport(files, path, binds, f)
    decreases |binds|
  {
    hide FileFindings, FileReport, AreStored, Before, Decimal, Indexed;
    if binds != [] {
      var last := |binds| - 1;
      BindsAreReported(files, path, binds[..last], f);
      IndexedIs(path, ".binds", last);
      assert ".binds" + "[" == ".binds[";
      FileIsReported(files, Indexed(path + ".binds", last), Before(binds[last], ':'), f);
    }
  }

  lemma FieldFileIsReported(files: seq<string>, path: string, reference: string, f: Finding)
    requires AreStored(files)
    ensures f in FieldFindings(files, path, reference) <==> reference != "" && FileReport(files, path, reference, f)
    ensures f in StartupFindings(files, path, reference) <==>
              reference != "" && '\n' !in reference && FileReport(files, path + ".startup-config", reference, f)
  {
    hide FileFindings, FileReport, AreStored;
    FileIsReported(files, path, reference, f);
    FileIsReported(files, path + ".startup-config", reference, f);
  }

  lemma {:induction false} CommandsAreReported(path: string, commands: Commands, f: Finding)
    ensures f in CommandFindings(path, commands) <==> StageReport(path, Some(commands), f)
    decreases |commands|
  {
    hide RunsOnServer, Says, Decimal, Indexed;
    if commands != [] {
      var last := |commands| - 1;
      CommandsAreReported(path, commands[..last], f);
      CommandMeans(commands[last]);
      IndexedIs(path, ".exec", last);
      assert ".exec" + "[" == ".exec[";
      assert path + ".exec[" + Decimal(last) + "]" + ".target" == path + ".exec[" + Decimal(last) + "].target";
    }
  }

  lemma {:induction false} StageNamesAreReported(path: string, names: seq<string>, stages: map<string, Commands>,
                                                 f: Finding)
    requires forall name | name in names :: name in stages
    ensures f in StageFindings(path, names, stages)
            <==> exists name | name in names :: StageReport(path + "." + name, Some(stages[name]), f)
    decreases |names|
  {
    hide StageReport, CommandFindings;
    if names != [] {
      var (rest, last) := (names[..|names| - 1], names[|names| - 1]);
      assert names == rest + [last];
      StageNamesAreReported(path, rest, stages, f);
      CommandsAreReported(path + "." + last, stages[last], f);
    }
  }

  ghost predicate SomeStageReport(path: string, stages: map<string, Commands>, f: Finding) {
    exists name | name in stages :: StageReport(path + "." + name, Some(stages[name]), f)
  }

  lemma OneMoreStageReport(path: string, stages: map<string, Commands>, name: string, commands: Option<Commands>,
                           f: Finding)
    requires name !in stages
    ensures SomeStageReport(path, WithStage(stages, name, commands), f)
            <==> SomeStageReport(path, stages, f) || StageReport(path + "." + name, commands, f)
  {
    hide CommandReport;
    var more := WithStage(stages, name, commands);
    if SomeStageReport(path, stages, f) {
      var other :| other in stages && StageReport(path + "." + other, Some(stages[other]), f);
      assert other in more && more[other] == stages[other];
    }
    if commands.Some? {
      assert more[name] == commands.value;
    }
  }

  lemma NamedStagesAreReported(path: string, stages: Stages, f: Finding)
    ensures SomeStageReport(path + ".stages", NamedStages(stages), f) <==> StagesReport(path, Some(stages), f)
  {
    hide StageReport, SomeStageReport, WithStage;
    var s := path + ".stages";
    assert !SomeStageReport(s, map[], f) by { NoStageReport(s, f); }
    StageKeys(map[], "create", stages.create);
    OneMoreStageReport(s, map[], "create", stages.create, f);
    var m1 := WithStage(map[], "create", stages.create);
    StageKeys(m1, "create-links", stages.createLinks);
    OneMoreStageReport(s, m1, "create-links", stages.createLinks, f);
    var m2 := WithStage(m1, "create-links", stages.createLinks);
    StageKeys(m2, "configure", stages.configure);
    OneMoreStageReport(s, m2, "configure", stages.configure, f);
    var m3 := WithStage(m2, "configure", stages.configure);
    StageKeys(m3, "healthy", stages.healthy);
    OneMoreStageReport(s, m3, "healthy", stages.healthy, f);
    var m4 := WithStage(m3, "healthy", stages.healthy);
    OneMoreStageReport(s, m4, "exit", stages.exit, f);
    StagePath(path, "create");
    StagePath(path, "create-links");
    StagePath(path, "configure");
    StagePath(path, "healthy");
    StagePath(path, "exit");
    StagePaths();
  }

  lemma NoStageReport(path: string, f: Finding)
    ensures !SomeStageReport(path, map[], f)
  {
  }

  lemma StageKeys(stages: map<string, Commands>, name: string, commands: Option<Commands>)
    ensures WithStage(stages, name, commands).Keys <= stages.Keys + {name}
  {
  }

  lemma StagePath(path: string, name: string)
    ensures path + ".stages" + "." + name == path + (".stages." + name)
  {
    assert path + ".stages" + "." == path + ".stages.";
    assert path + ".stages." + name == path + (".stages." + name);
  }

  lemma StagePaths()
    ensures ".stages." + "create" == ".stages.create" && ".stages." + "create-links" == ".stages.create-links"
    ensures ".stages." + "configure" == ".stages.configure" && ".stages." + "healthy" == ".stages.healthy"
    ensures ".stages." + "exit" == ".stages.exit"
  {
  }

  lemma StagesAreReported(path: string, stages: Option<Stages>, f: Finding)
    ensures f in StagesFindings(path, stages) <==> StagesReport(path, stages, f)
  {
    hide NamedStages, StageReport, StageFindings;
    if stages.Some? {
      var named := NamedStages(stages.value);
      AllInOrder(named.Keys);
      StageNamesAreReported(path + ".stages", InOrder(named.Keys), named, f);
      NamedStagesAreReported(path, stages.value, f);
    }
  }

  lemma InNodeFindings(options: Options, files: seq<string>, path: string, d: NodeDefinition, f: Finding)
    ensures f in NodeFindings(options, files, path, Some(d)) <==>
              || f in KindFindings(path, d.kind) || f in ImageFindings(options.allowedImagePrefixes, path, d.image)
              || f in PrivilegedFindings(path, d.privileged) || f in BindFindings(files, path, d.binds)
              || f in StartupFindings(files, path, d.startupConfig)
              || f in FieldFindings(files, path + ".license", d.license)
              || f in FieldFindings(files, path + ".credentials.identity-file", d.identityFile)
              || f in StagesFindings(path, d.stages)
  {
    hide KindFindings, ImageFindings, PrivilegedFindings, BindFindings, StartupFindings, FieldFindings, StagesFindings;
  }

  lemma NodeIsReported(options: Options, files: seq<string>, path: string, d: NodeDefinition, f: Finding)
    requires AreStored(files)
    ensures f in NodeFindings(options, files, path, Some(d)) <==> NodeReport(options, files, path, d, f)
  {
    hide KindFindings, ImageFindings, BindFindings, StartupFindings, FieldFindings, StagesFindings, NodeFindings;
    hide KindReport, ImageReport, BindReport, FileReport, StagesReport, AreStored;
    InNodeFindings(options, files, path, d, f);
    KindIsReported(path, d.kind, f);
    ImageIsReported(options.allowedImagePrefixes, path, d.image, f);
    BindsAreReported(files, path, d.binds, f);
    FieldFileIsReported(files, path, d.startupConfig, f);
    FieldFileIsReported(files, path + ".license", d.license, f);
    FieldFileIsReported(files, path + ".credentials.identity-file", d.identityFile, f);
    StagesAreReported(path, d.stages, f);
  }

  // ---------------------------------------------------------------------------------------------
  // The findings of a topology
  // ---------------------------------------------------------------------------------------------

  lemma {:induction false} NodesAreReported(options: Options, files: seq<string>, section: string, names: seq<string>,
                                            definitions: map<string, Option<NodeDefinition>>, f: Finding)
    requires AreStored(files) && forall name | name in names :: name in definitions
    ensures f in SectionFindings(options, files, section, names, definitions)
            <==> exists name | name in names ::
                   definitions[name].Some? && NodeReport(options, files, section + name, definitions[name].value, f)
    decreases |names|
  {
    hide NodeReport, AreStored;
    if names != [] {
      var (rest, last) := (names[..|names| - 1], names[|names| - 1]);
      assert names == rest + [last];
      NodesAreReported(options, files, section, rest, definitions, f);
      if definitions[last].Some? {
        NodeIsReported(options, files, section + last, definitions[last].value, f);
        hide NodeFindings;
      }
    }
  }

  lemma AllNodesAreReported(options: Options, files: seq<string>, section: string,
                            definitions: map<string, Option<NodeDefinition>>, f: Finding)
    requires AreStored(files)
    ensures f in SectionFindings(options, files, section, InOrder(definitions.Keys), definitions)
            <==> NodesReport(options, files, section, definitions, f)
  {
    hide NodeReport, AreStored, SectionFindings;
    AllInOrder(definitions.Keys);
    NodesAreReported(options, files, section, InOrder(definitions.Keys), definitions, f);
  }

  lemma EndpointIsReported(path: string, endpoint: Option<string>, j: nat, f: Finding)
    ensures f in EndpointFinding(Indexed(path + ".endpoints", j), endpoint) <==> EndpointReport(path, endpoint, j, f)
  {
    hide Says, Normalized, HOST_ENDPOINT_NODES, Decimal, Indexed;
    IndexedIs(path, ".endpoints", j);
    assert ".endpoints" + "[" == ".endpoints[";
    if endpoint.Some? {
      NormalizedIs(endpoint.value);
      HostEndpointsAre(Normalized(endpoint.value));
      LoweredSays(endpoint.value, "host");
      LoweredSays(endpoint.value, "macvlan");
      LoweredSays(endpoint.value, "mgmt-net");
    }
  }

  lemma {:induction false} EndpointsAreReported(path: string, endpoints: seq<Option<string>>, f: Finding)
    ensures f in EndpointFindings(path, endpoints)
            <==> exists j | 0 <= j < |endpoints| :: EndpointReport(path, endpoints[j], j, f)
    decreases |endpoints|
  {
    hide EndpointFinding, EndpointReport, Indexed;
    if endpoints != [] {
      var last := |endpoints| - 1;
      EndpointsAreReported(path, endpoints[..last], f);
      EndpointIsReported(path, endpoints[last], last, f);
    }
  }

  lemma LinkIsReported(path: string, link: Option<Link>, f: Finding)
    ensures f in LinkFindings(path, link) <==> LinkReport(path, link, f)
  {
    hide EndpointFindings, EndpointReport;
    if link.Some? && link.value.Veth? {
      EndpointsAreReported(path, link.value.endpoints, f);
    }
  }

  lemma {:induction false} LinksAreReported(links: seq<Option<Link>>, f: Finding)
    ensures f in LinksFindings(links) <==> LinksReport(links, f)
    decreases |links|
  {
    hide LinkFindings, LinkReport, Indexed, Decimal;
    if links != [] {
      var last := |links| - 1;
      LinksAreReported(links[..last], f);
      LinkPath(last);
      LinkIsReported(Indexed("topology.links", last), links[last], f);
    }
  }

  lemma LinkPath(i: nat)
    ensures Indexed("topology.links", i) == "topology.links[" + Decimal(i) + "]"
  {
    hide Decimal;
    assert "topology.links" + "[" == "topology.links[";
  }

  lemma TopologyIsReported(options: Options, files: seq<string>, t: Topology, f: Finding)
    requires AreStored(files)
    ensures f in TopologyFindings(options, files, Some(t)) <==> TopologyReport(options, files, t, f)
  {
    hide NodeReport, NodesReport, LinksReport, AreStored, SectionFindings, LinksFindings;
    if t.defaults.Some? {
      NodeIsReported(options, files, "topology.defaults", t.defaults.value, f);
    }
    hide NodeFindings;
    AllNodesAreReported(options, files, "topology.kinds.", t.kinds, f);
    AllNodesAreReported(options, files, "topology.groups.", t.groups, f);
    AllNodesAreReported(options, files, "topology.nodes.", t.nodes, f);
    LinksAreReported(t.links, f);
  }

  /** A check reports exactly the findings listed above: what is said about the text, the keys, and every node and
      link, and nothing else. */
  lemma FindingsAreReports(options: Options, raw: Yaml, topology: Option<Topology>, text: string, files: seq<string>,
                           f: Finding)
    requires AreStored(files)
    ensures f in Findings(options, raw, topology, text, files) <==>
              || TextReport(text, f)
              || KeysReport(raw, f)
              || (topology.Some? && TopologyReport(options, files, topology.value, f))
  {
    hide TextReport, KeysReport, TopologyReport, AreStored, TextFindings, RootFindings;
    TextIsReported(text, f);
    RootIsReported(raw, f);
    if topology.Some? {
      TopologyIsReported(options, files, topology.value, f);
    }
  }
}
