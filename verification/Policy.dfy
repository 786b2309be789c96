/** Checking whether a topology can affect anything outside its own lab. */
module Policy {
  import opened PolicyFindings
  import opened PolicyKeys
  import opened Wrappers
  import Paths

  // ---------------------------------------------------------------------------------------------
  // Topologies
  // ---------------------------------------------------------------------------------------------

  /** The commands of one stage. A command can be missing, and has a target that can be empty. */
  type Commands = seq<Option<string>>

  datatype Stages = Stages(create: Option<Commands>, createLinks: Option<Commands>, configure: Option<Commands>,
                           healthy: Option<Commands>, exit: Option<Commands>)

  datatype NodeDefinition = NodeDefinition(
    kind: string, image: string, privileged: Option<bool>, binds: seq<string>, startupConfig: string,
    license: string, identityFile: string, stages: Option<Stages>)

  /** What containerlab's decoder makes of a link. The endpoints of a veth link name their nodes. */
  datatype Link = Dummy | Veth(endpoints: seq<Option<string>>) | OtherLink(linkType: string)

  datatype Topology = Topology(
    defaults: Option<NodeDefinition>, kinds: map<string, Option<NodeDefinition>>,
    groups: map<string, Option<NodeDefinition>>, nodes: map<string, Option<NodeDefinition>>,
    links: seq<Option<Link>>)

  /** Without prefixes every image is allowed. */
  datatype Options = Options(allowedImagePrefixes: seq<string>)

  // ---------------------------------------------------------------------------------------------
  // The findings of each rule
  // ---------------------------------------------------------------------------------------------

  const HOST_REACHING_KINDS := ["host", "bridge", "ovs-bridge", "ext-container", "k8s-kind", "tailscale"]
  const HOST_ENDPOINT_NODES := ["host", "macvlan", "mgmt-net"]

  function Normalized(text: string): string {
    Paths.ToLower(TrimSpace(text))
  }

  /** A path names one of the topology's files or a directory that contains one. */
  predicate IsOwnFile(bindFiles: seq<string>, reference: string) {
    && reference != "" && reference[0] != '~'
    && var cleaned := Paths.Clean(reference);
       && Paths.IsLocal(cleaned) && cleaned != "."
       && exists file | file in bindFiles :: file == cleaned || cleaned + "/" <= file
  }

  function FileFindings(bindFiles: seq<string>, path: string, reference: string): seq<Finding> {
    var trimmed := TrimSpace(reference);
    if Contains(trimmed, "://") then
      [Finding(RemoteFile, Deploy, path, Text("remote files are downloaded by the server"))]
    else if !IsOwnFile(bindFiles, trimmed) then
      [Finding(ForeignFile, Shell, path, Quoting("is not one of the topology's files", trimmed))]
    else []
  }

  function KindFindings(path: string, kind: string): seq<Finding> {
    if Normalized(kind) in HOST_REACHING_KINDS
    then [Finding(HostKind, Shell, path + ".kind",
                  Quoting("connects the lab to the server or networks outside the lab", Normalized(kind)))]
    else []
  }

  function ImageFindings(prefixes: seq<string>, path: string, image: string): seq<Finding> {
    if image == "" || prefixes == [] || exists prefix | prefix in prefixes :: prefix <= TrimSpace(image) then []
    else [Finding(ImageNotAllowed, Shell, path + ".image", Quoting("is not on the allowlist", TrimSpace(image)))]
  }

  function PrivilegedFindings(path: string, privileged: Option<bool>): seq<Finding> {
    if privileged == Some(true)
    then [Finding(Privileged, Shell, path + ".privileged", Text("privileged nodes can access the server"))]
    else []
  }

  function BindFindings(bindFiles: seq<string>, path: string, binds: seq<string>): seq<Finding> {
    if binds == [] then []
    else
      var last := |binds| - 1;
      BindFindings(bindFiles, path, binds[..last])
      + FileFindings(bindFiles, Indexed(path + ".binds", last), Before(binds[last], ':'))
  }

  /** A field that, if it is set, refers to a file. */
  function FieldFindings(bindFiles: seq<string>, path: string, reference: string): seq<Finding> {
    if reference == "" then [] else FileFindings(bindFiles, path, reference)
  }

  /** A startup-config of several lines is a configuration, not a reference. */
  function StartupFindings(bindFiles: seq<string>, path: string, startupConfig: string): seq<Finding> {
    if '\n' in startupConfig then [] else FieldFindings(bindFiles, path + ".startup-config", startupConfig)
  }

  predicate RunsOnServer(command: Option<string>) {
    command.Some? && Normalized(command.value) != "" && Normalized(command.value) != "container"
  }

  function CommandFindings(path: string, commands: Commands): seq<Finding> {
    if commands == [] then []
    else
      var last := |commands| - 1;
      CommandFindings(path, commands[..last])
      + if RunsOnServer(commands[last])
        then [Finding(HostExec, Deploy, Indexed(path + ".exec", last) + ".target",
                      Text("stage commands with this target run on the server"))]
        else []
  }

  function WithStage(stages: map<string, Commands>, name: string, commands: Option<Commands>): map<string, Commands> {
    if commands.Some? then stages[name := commands.value] else stages
  }

  function NamedStages(stages: Stages): map<string, Commands> {
    WithStage(WithStage(WithStage(WithStage(WithStage(map[],
      "create", stages.create), "create-links", stages.createLinks), "configure", stages.configure),
      "healthy", stages.healthy), "exit", stages.exit)
  }

  function StageFindings(path: string, names: seq<string>, stages: map<string, Commands>): seq<Finding>
    requires forall name | name in names :: name in stages
  {
    if names == [] then []
    else
      var last := names[|names| - 1];
      StageFindings(path, names[..|names| - 1], stages) + CommandFindings(path + "." + last, stages[last])
  }

  ghost function StagesFindings(path: string, stages: Option<Stages>): seq<Finding> {
    if stages.None? then []
    else
      var named := NamedStages(stages.value);
      StageFindings(path + ".stages", InOrder(named.Keys), named)
  }

  ghost function NodeFindings(options: Options, bindFiles: seq<string>, path: string,
                              definition: Option<NodeDefinition>)
    : seq<Finding>
  {
    match definition
    case None => []
    case Some(d) =>
      KindFindings(path, d.kind)
      + ImageFindings(options.allowedImagePrefixes, path, d.image)
      + PrivilegedFindings(path, d.privileged)
      + BindFindings(bindFiles, path, d.binds)
      + StartupFindings(bindFiles, path, d.startupConfig)
      + FieldFindings(bindFiles, path + ".license", d.license)
      + FieldFindings(bindFiles, path + ".credentials.identity-file", d.identityFile)
      + StagesFindings(path, d.stages)
  }

  ghost function SectionFindings(options: Options, bindFiles: seq<string>, section: string, names: seq<string>,
                                 definitions: map<string, Option<NodeDefinition>>): seq<Finding>
    requires forall name | name in names :: name in definitions
  {
    if names == [] then []
    else
      var last := names[|names| - 1];
      SectionFindings(options, bindFiles, section, names[..|names| - 1], definitions)
      + NodeFindings(options, bindFiles, section + last, definitions[last])
  }

  function EndpointFinding(path: string, endpoint: Option<string>): seq<Finding> {
    if endpoint.Some? && Normalized(endpoint.value) in HOST_ENDPOINT_NODES
    then [Finding(HostLink, Shell, path,
                  Quoting("connects the lab to the server or networks outside the lab", endpoint.value))]
    else []
  }

  function EndpointFindings(path: string, endpoints: seq<Option<string>>): seq<Finding> {
    if endpoints == [] then []
    else
      var last := |endpoints| - 1;
      EndpointFindings(path, endpoints[..last]) + EndpointFinding(Indexed(path + ".endpoints", last), endpoints[last])
  }

  function LinkFindings(path: string, link: Option<Link>): seq<Finding> {
    match link
    case None => []
    case Some(Dummy) => []
    case Some(Veth(endpoints)) => EndpointFindings(path, endpoints)
    case Some(OtherLink(linkType)) =>
      [Finding(HostLink, Shell, path, Quoting("connects the lab to the server or networks outside the lab", linkType))]
  }

  function LinksFindings(links: seq<Option<Link>>): seq<Finding> {
    if links == [] then []
    else LinksFindings(links[..|links| - 1]) + LinkFindings(Indexed("topology.links", |links| - 1), links[|links| - 1])
  }

  ghost function TopologyFindings(options: Options, bindFiles: seq<string>, topology: Option<Topology>): seq<Finding> {
    match topology
    case None => []
    case Some(t) =>
      NodeFindings(options, bindFiles, "topology.defaults", t.defaults)
      + SectionFindings(options, bindFiles, "topology.kinds.", InOrder(t.kinds.Keys), t.kinds)
      + SectionFindings(options, bindFiles, "topology.groups.", InOrder(t.groups.Keys), t.groups)
      + SectionFindings(options, bindFiles, "topology.nodes.", InOrder(t.nodes.Keys), t.nodes)
      + LinksFindings(t.links)
  }

  /** Everything a check finds. */
  ghost function Findings(options: Options, raw: Yaml, topology: Option<Topology>, text: string, bindFiles: seq<string>)
    : seq<Finding>
  {
    TextFindings(text) + RootFindings(raw) + TopologyFindings(options, bindFiles, topology)
  }

  // ---------------------------------------------------------------------------------------------
  // The checker
  // ---------------------------------------------------------------------------------------------

  lemma NextStage(path: string, names: seq<string>, stages: map<string, Commands>, n: nat)
    requires n < |names| && forall name | name in names :: name in stages
    ensures StageFindings(path, names[..n + 1], stages)
            == StageFindings(path, names[..n], stages) + CommandFindings(path + "." + names[n], stages[names[n]])
  {
    assert names[..n + 1][..n] == names[..n];
  }

  lemma NextNode(options: Options, bindFiles: seq<string>, section: string, names: seq<string>,
                 definitions: map<string, Option<NodeDefinition>>, n: nat)
    requires n < |names| && forall name | name in names :: name in definitions
    ensures SectionFindings(options, bindFiles, section, names[..n + 1], definitions)
            == SectionFindings(options, bindFiles, section, names[..n], definitions)
               + NodeFindings(options, bindFiles, section + names[n], definitions[names[n]])
  {
    hide NodeFindings;
    assert names[..n + 1][..n] == names[..n];
  }

  /** The state of a single check. */
  class Checker {
    const options: Options
    const bindFiles: seq<string>
    var findings: seq<Finding>

    constructor (options: Options, bindFiles: seq<string>)
      ensures this.options == options && this.bindFiles == bindFiles && findings == []
    {
      this.options, this.bindFiles, this.findings := options, bindFiles, [];
    }

    method Add(path: string, ruleId: RuleId, impact: Impact, message: Message)
      modifies this
      ensures findings == old(findings) + [Finding(ruleId, impact, path, message)]
    {
      findings := findings + [Finding(ruleId, impact, path, message)];
    }

    method CheckFileReference(path: string, reference: string)
      modifies this
      ensures findings == old(findings) + FileFindings(bindFiles, path, reference)
    {
      var trimmed := TrimSpace(reference);
      if Contains(trimmed, "://") {
        Add(path, RemoteFile, Deploy, Text("remote files are downloaded by the server"));
        return;
      }
      if !IsOwnFile(bindFiles, trimmed) {
        Add(path, ForeignFile, Shell, Quoting("is not one of the topology's files", trimmed));
      }
    }

    method CheckImage(path: string, image: string)
      modifies this
      ensures findings == old(findings) + ImageFindings(options.allowedImagePrefixes, path, image)
    {
      if image == "" || options.allowedImagePrefixes == [] {
        return;
      }
      var trimmed := TrimSpace(image);
      if !exists prefix | prefix in options.allowedImagePrefixes :: prefix <= trimmed {
        Add(path + ".image", ImageNotAllowed, Shell, Quoting("is not on the allowlist", trimmed));
      }
    }

    method CheckStages(path: string, stages: Option<Stages>)
      modifies this
      ensures findings == old(findings) + StagesFindings(path, stages)
    {
      if stages.None? {
        return;
      }
      CheckNamedStages(path + ".stages", NamedStages(stages.value));
    }

    method CheckNamedStages(path: string, named: map<string, Commands>)
      modifies this
      ensures findings == old(findings) + StageFindings(path, InOrder(named.Keys), named)
    {
      hide CommandFindings;
      ghost var was := findings;
      var names := SortedKeys(named);
      for n := 0 to |names|
        invariant findings == was + StageFindings(path, names[..n], named)
      {
        NextStage(path, names, named, n);
        Appended(was, StageFindings(path, names[..n], named), CommandFindings(path + "." + names[n], named[names[n]]));
        CheckCommands(path + "." + names[n], named[names[n]]);
      }
      assert names[..|names|] == names;
    }

    method CheckCommands(path: string, commands: Commands)
      modifies this
      ensures findings == old(findings) + CommandFindings(path, commands)
    {
      for i := 0 to |commands|
        invariant findings == old(findings) + CommandFindings(path, commands[..i])
      {
        assert commands[..i + 1][..i] == commands[..i];
        if commands[i].None? {
          continue;
        }
        var target := Normalized(commands[i].value);
        if target != "" && target != "container" {
          Add(Indexed(path + ".exec", i) + ".target", HostExec, Deploy,
              Text("stage commands with this target run on the server"));
        }
      }
      assert commands[..|commands|] == commands;
    }

    method CheckBinds(path: string, binds: seq<string>)
      modifies this
      ensures findings == old(findings) + BindFindings(bindFiles, path, binds)
    {
      hide FileFindings;
      for i := 0 to |binds|
        invariant findings == old(findings) + BindFindings(bindFiles, path, binds[..i])
      {
        assert binds[..i + 1][..i] == binds[..i];
        CheckFileReference(Indexed(path + ".binds", i), Before(binds[i], ':'));
      }
      assert binds[..|binds|] == binds;
    }

    method CheckKind(path: string, kind: string)
      modifies this
      ensures findings == old(findings) + KindFindings(path, kind)
    {
      var normalized := Normalized(kind);
      if normalized in HOST_REACHING_KINDS {
        Add(path + ".kind", HostKind, Shell,
            Quoting("connects the lab to the server or networks outside the lab", normalized));
      }
    }

    method CheckPrivileged(path: string, privileged: Option<bool>)
      modifies this
      ensures findings == old(findings) + PrivilegedFindings(path, privileged)
    {
      if privileged.Some? && privileged.value {
        Add(path + ".privileged", Privileged, Shell, Text("privileged nodes can access the server"));
      }
    }

    method CheckStartupConfig(path: string, startupConfig: string)
      modifies this
      ensures findings == old(findings) + StartupFindings(bindFiles, path, startupConfig)
    {
      if startupConfig != "" && '\n' !in startupConfig {
        CheckFileReference(path + ".startup-config", startupConfig);
      }
    }

    method CheckField(path: string, reference: string)
      modifies this
      ensures findings == old(findings) + FieldFindings(bindFiles, path, reference)
    {
      if reference != "" {
        CheckFileReference(path, reference);
      }
    }

    method CheckNodeDefinition(path: string, definition: Option<NodeDefinition>)
      modifies this
      ensures findings == old(findings) + NodeFindings(options, bindFiles, path, definition)
    {
      hide KindFindings, ImageFindings, PrivilegedFindings, BindFindings, StartupFindings,
           FieldFindings, StagesFindings;
      if definition.None? {
        return;
      }
      var d := definition.value;
      ghost var was, found := findings, KindFindings(path, d.kind);
      CheckKind(path, d.kind);
      Appended(was, found, ImageFindings(options.allowedImagePrefixes, path, d.image));
      CheckImage(path, d.image);
      found := found + ImageFindings(options.allowedImagePrefixes, path, d.image);
      Appended(was, found, PrivilegedFindings(path, d.privileged));
      CheckPrivileged(path, d.privileged);
      found := found + PrivilegedFindings(path, d.privileged);
      Appended(was, found, BindFindings(bindFiles, path, d.binds));
      CheckBinds(path, d.binds);
      found := found + BindFindings(bindFiles, path, d.binds);
      Appended(was, found, StartupFindings(bindFiles, path, d.startupConfig));
      CheckStartupConfig(path, d.startupConfig);
      found := found + StartupFindings(bindFiles, path, d.startupConfig);
      Appended(was, found, FieldFindings(bindFiles, path + ".license", d.license));
      CheckField(path + ".license", d.license);
      found := found + FieldFindings(bindFiles, path + ".license", d.license);
      Appended(was, found, FieldFindings(bindFiles, path + ".credentials.identity-file", d.identityFile));
      CheckField(path + ".credentials.identity-file", d.identityFile);
      found := found + FieldFindings(bindFiles, path + ".credentials.identity-file", d.identityFile);
      Appended(was, found, StagesFindings(path, d.stages));
      CheckStages(path, d.stages);
    }

    method CheckSection(section: string, definitions: map<string, Option<NodeDefinition>>)
      modifies this
      ensures findings == old(findings)
                          + SectionFindings(options, bindFiles, section, InOrder(definitions.Keys), definitions)
    {
      hide NodeFindings;
      ghost var was := findings;
      var names := SortedKeys(definitions);
      for n := 0 to |names|
        invariant findings == was + SectionFindings(options, bindFiles, section, names[..n], definitions)
      {
        NextNode(options, bindFiles, section, names, definitions, n);
        Appended(was, SectionFindings(options, bindFiles, section, names[..n], definitions),
                 NodeFindings(options, bindFiles, section + names[n], definitions[names[n]]));
        CheckNodeDefinition(section + names[n], definitions[names[n]]);
      }
      assert names[..|names|] == names;
    }

    method CheckEndpoint(path: string, endpoint: Option<string>)
      modifies this
      ensures findings == old(findings) + EndpointFinding(path, endpoint)
    {
      if endpoint.None? {
        return;
      }
      if Normalized(endpoint.value) in HOST_ENDPOINT_NODES {
        Add(path, HostLink, Shell,
            Quoting("connects the lab to the server or networks outside the lab", endpoint.value));
      }
    }

    method CheckVethEndpoints(path: string, endpoints: seq<Option<string>>)
      modifies this
      ensures findings == old(findings) + EndpointFindings(path, endpoints)
    {
      hide EndpointFinding;
      ghost var was := findings;
      for j := 0 to |endpoints|
        invariant findings == was + EndpointFindings(path, endpoints[..j])
      {
        assert endpoints[..j + 1][..j] == endpoints[..j];
        Appended(was, EndpointFindings(path, endpoints[..j]),
                 EndpointFinding(Indexed(path + ".endpoints", j), endpoints[j]));
        CheckEndpoint(Indexed(path + ".endpoints", j), endpoints[j]);
      }
      assert endpoints[..|endpoints|] == endpoints;
    }

    method CheckLink(path: string, link: Option<Link>)
      modifies this
      ensures findings == old(findings) + LinkFindings(path, link)
    {
      match link
      case None =>
      case Some(Dummy) =>
      case Some(Veth(endpoints)) => CheckVethEndpoints(path, endpoints);
      case Some(OtherLink(linkType)) =>
        Add(path, HostLink, Shell, Quoting("connects the lab to the server or networks outside the lab", linkType));
    }

    method CheckLinks(links: seq<Option<Link>>)
      modifies this
      ensures findings == old(findings) + LinksFindings(links)
    {
      hide LinkFindings;
      ghost var was := findings;
      for i := 0 to |links|
        invariant findings == was + LinksFindings(links[..i])
      {
        assert links[..i + 1][..i] == links[..i];
        Appended(was, LinksFindings(links[..i]), LinkFindings(Indexed("topology.links", i), links[i]));
        CheckLink(Indexed("topology.links", i), links[i]);
      }
      assert links[..|links|] == links;
    }

    /** Templating and environment expansion, which containerlab applies before it parses the text. */
    method CheckRawText(text: string)
      modifies this
      ensures findings == old(findings) + TextFindings(text)
    {
      if Contains(text, "{{") {
        Add("", GoTemplate, Deploy, Text(GO_TEMPLATE_MESSAGE));
      }
      if ExpandsVariable(text) {
        Add("", EnvExpansion, Deploy, Text(ENV_EXPANSION_MESSAGE));
      }
    }

    method Unknown(path: string)
      modifies this
      ensures findings == old(findings) + [UnknownFinding(path)]
    {
      Add(path, UnreviewedField, Unreviewed, Quoting("is not a reviewed field", path));
    }

    method CheckRootKeys(generic: Yaml)
      modifies this
      ensures findings == old(findings) + RootFindings(generic)
    {
      hide RootKeyFindings;
      ghost var was := findings;
      var root := Fields(generic);
      var keys := SortedKeys(root);
      for n := 0 to |keys|
        invariant findings == was + RootKeysFindings(keys[..n], root)
      {
        NextRootKey(keys, root, n);
        Appended(was, RootKeysFindings(keys[..n], root), RootKeyFindings(keys[n], root[keys[n]]));
        CheckRootKey(keys[n], root[keys[n]]);
      }
      assert keys[..|keys|] == keys;
    }

    method CheckRootKey(key: string, value: Yaml)
      modifies this
      ensures findings == old(findings) + RootKeyFindings(key, value)
    {
      if key == "name" || key == "debug" {
        return;
      } else if key == "topology" {
        CheckTopologyKeys(value);
      } else if key == "mgmt" {
        Add(key, Mgmt, Shell, Text("the management network is set by Antimony"));
      } else if key == "prefix" {
        Add(key, Prefix, Deploy, Text("the container name prefix is set by Antimony"));
      } else if key == "settings" {
        Add(key, Settings, Deploy, Text("lab settings can reference files on the server"));
      } else {
        Unknown(key);
      }
    }

    method CheckTopologyKeys(value: Yaml)
      modifies this
      ensures findings == old(findings) + TopologyKeysFindings(value)
    {
      hide TopologySectionFindings;
      ghost var was := findings;
      var topology := Fields(value);
      var sections := SortedKeys(topology);
      for n := 0 to |sections|
        invariant findings == was + TopologySectionsFindings(sections[..n], topology)
      {
        NextSection(sections, topology, n);
        Appended(was, TopologySectionsFindings(sections[..n], topology),
                 TopologySectionFindings(sections[n], topology[sections[n]]));
        CheckTopologySection(sections[n], topology[sections[n]]);
      }
      assert sections[..|sections|] == sections;
    }

    method CheckTopologySection(section: string, value: Yaml)
      modifies this
      ensures findings == old(findings) + TopologySectionFindings(section, value)
    {
      var path := "topology." + section;
      if section == "defaults" {
        CheckNodeKeys(path, value);
      } else if section in DEFINITION_SECTIONS {
        CheckDefinitionKeys(path, Fields(value));
      } else if section != "links" {
        Unknown(path);
      }
    }

    method CheckDefinitionKeys(path: string, definitions: map<string, Yaml>)
      modifies this
      ensures findings == old(findings) + DefinitionsFindings(path, InOrder(definitions.Keys), definitions)
    {
      hide NodeKeysFindings;
      ghost var was := findings;
      var names := SortedKeys(definitions);
      for n := 0 to |names|
        invariant findings == was + DefinitionsFindings(path, names[..n], definitions)
      {
        NextDefinition(path, names, definitions, n);
        Appended(was, DefinitionsFindings(path, names[..n], definitions),
                 NodeKeysFindings(path + "." + names[n], definitions[names[n]]));
        CheckNodeKeys(path + "." + names[n], definitions[names[n]]);
      }
      assert names[..|names|] == names;
    }

    method CheckNodeKeys(path: string, value: Yaml)
      modifies this
      ensures findings == old(findings) + NodeKeysFindings(path, value)
    {
      hide NodeKeyFindings;
      ghost var was := findings;
      var keys := SortedKeys(Fields(value));
      for n := 0 to |keys|
        invariant findings == was + FieldsFindings(path, keys[..n])
      {
        NextField(path, keys, n);
        Appended(was, FieldsFindings(path, keys[..n]), NodeKeyFindings(path + "." + keys[n], keys[n]));
        CheckNodeKey(path + "." + keys[n], keys[n]);
      }
      assert keys[..|keys|] == keys;
    }

    method CheckNodeKey(path: string, key: string)
      modifies this
      ensures findings == old(findings) + NodeKeyFindings(path, key)
    {
      var field := ReviewOf(key);
      if field.Unlisted? {
        Unknown(path);
      } else if field.Denied? {
        Add(path, field.ruleId, field.impact, Text(field.message));
      }
    }

    /** Runs every rule on a topology. */
    method Run(raw: Yaml, topology: Option<Topology>, text: string)
      requires findings == []
      modifies this
      ensures findings == Findings(options, raw, topology, text, bindFiles)
    {
      hide TextFindings, RootFindings;
      CheckRawText(text);
      assert findings == TextFindings(text);
      CheckRootKeys(raw);
      if topology.Some? {
        CheckTopology(topology.value);
      }
    }

    method CheckTopology(t: Topology)
      modifies this
      ensures findings == old(findings) + TopologyFindings(options, bindFiles, Some(t))
    {
      hide NodeFindings, SectionFindings, LinksFindings;
      ghost var was := findings;
      CheckNodeDefinition("topology.defaults", t.defaults);
      ghost var found := NodeFindings(options, bindFiles, "topology.defaults", t.defaults);
      Appended(was, found, SectionFindings(options, bindFiles, "topology.kinds.", InOrder(t.kinds.Keys), t.kinds));
      CheckSection("topology.kinds.", t.kinds);
      found := found + SectionFindings(options, bindFiles, "topology.kinds.", InOrder(t.kinds.Keys), t.kinds);
      Appended(was, found, SectionFindings(options, bindFiles, "topology.groups.", InOrder(t.groups.Keys), t.groups));
      CheckSection("topology.groups.", t.groups);
      found := found + SectionFindings(options, bindFiles, "topology.groups.", InOrder(t.groups.Keys), t.groups);
      Appended(was, found, SectionFindings(options, bindFiles, "topology.nodes.", InOrder(t.nodes.Keys), t.nodes));
      CheckSection("topology.nodes.", t.nodes);
      found := found + SectionFindings(options, bindFiles, "topology.nodes.", InOrder(t.nodes.Keys), t.nodes);
      Appended(was, found, LinksFindings(t.links));
      CheckLinks(t.links);
    }
  }
}
