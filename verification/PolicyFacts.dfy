/** What the policy's findings mean, and how they depend on the bind files of a topology. */
module PolicyFacts {
  import opened Wrappers
  import opened Policy
  import opened PolicyFindings
  import opened PolicyKeys
  import opened PolicyWords
  import Ordering
  import Paths

  // ---------------------------------------------------------------------------------------------
  // Own files
  // ---------------------------------------------------------------------------------------------

  /** The bind files of a topology are stored under their normalized paths. */
  ghost predicate AreStored(bindFiles: seq<string>) {
    forall file | file in bindFiles :: Paths.NormalizeBindFilePath(file) == Success(file)
  }

  /** A reference leads, without leaving the topology's directory, to one of its files or a directory on the
      way to one. */
  ghost predicate LeadsToFile(bindFiles: seq<string>, reference: string) {
    && (reference == "" || reference[0] != '~')
    && Paths.LeadsInside(reference)
    && exists file | file in bindFiles :: Paths.Components(reference) <= Paths.Components(file)
  }

  lemma StoredFileMatches(file: string, reference: string)
    requires Paths.NormalizeBindFilePath(file) == Success(file) && Paths.LeadsInside(reference)
    ensures file == Paths.Clean(reference) || Paths.Clean(reference) + "/" <= file
            <==> Paths.Components(reference) <= Paths.Components(file)
  {
    Paths.NormalizeMeans(file);
    Paths.ComponentsAreCleaned(file);
    Paths.ComponentsAreCleaned(reference);
    Paths.NamesOrContains(Paths.Components(reference), Paths.Components(file));
  }

  lemma OwnFileMeans(bindFiles: seq<string>, reference: string)
    requires AreStored(bindFiles)
    ensures IsOwnFile(bindFiles, reference) <==> LeadsToFile(bindFiles, reference)
  {
    Paths.NormalizeMeans(reference);
    assert Paths.LeadsInside("") == false;
    if Paths.LeadsInside(reference) {
      forall file | file in bindFiles
        ensures file == Paths.Clean(reference) || Paths.Clean(reference) + "/" <= file
                <==> Paths.Components(reference) <= Paths.Components(file)
      {
        StoredFileMatches(file, reference);
      }
    }
  }

  // ---------------------------------------------------------------------------------------------
  // More bind files
  // ---------------------------------------------------------------------------------------------

  /** The fewer findings are the more findings, in the same order, without some that are about foreign files. */
  ghost predicate LosesOnlyForeign(fewer: seq<Finding>, more: seq<Finding>) {
    if more == [] then fewer == []
    else
      || (fewer != [] && fewer[0] == more[0] && LosesOnlyForeign(fewer[1..], more[1..]))
      || (more[0].ruleId.ForeignFile? && LosesOnlyForeign(fewer, more[1..]))
  }

  lemma {:induction false} LosesNothing(a: seq<Finding>)
    ensures LosesOnlyForeign(a, a)
  {
    if a != [] {
      LosesNothing(a[1..]);
    }
  }

  lemma {:induction false} LosesInBoth(a: seq<Finding>, a': seq<Finding>, b: seq<Finding>, b': seq<Finding>)
    requires LosesOnlyForeign(a', a) && LosesOnlyForeign(b', b)
    ensures LosesOnlyForeign(a' + b', a + b)
    decreases |a|
  {
    if a == [] {
      assert a' + b' == b' && a + b == b;
    } else {
      assert (a + b)[1..] == a[1..] + b;
      if a' != [] && a'[0] == a[0] && LosesOnlyForeign(a'[1..], a[1..]) {
        LosesInBoth(a[1..], a'[1..], b, b');
        assert (a' + b')[1..] == a'[1..] + b';
      } else {
        LosesInBoth(a[1..], a', b, b');
      }
    }
  }

  lemma {:induction false} LosingNothingIsEqual(fewer: seq<Finding>, more: seq<Finding>)
    requires LosesOnlyForeign(fewer, more)
    ensures |fewer| <= |more|
    ensures |fewer| == |more| ==> fewer == more
    decreases |more|
  {
    if more != [] {
      if fewer != [] && fewer[0] == more[0] && LosesOnlyForeign(fewer[1..], more[1..]) {
        LosingNothingIsEqual(fewer[1..], more[1..]);
        assert fewer == [fewer[0]] + fewer[1..] && more == [more[0]] + more[1..];
      } else {
        LosingNothingIsEqual(fewer, more[1..]);
      }
    }
  }

  ghost predicate HasMore(files: seq<string>, files': seq<string>) {
    forall file | file in files :: file in files'
  }

  lemma FileLoses(files: seq<string>, files': seq<string>, path: string, reference: string)
    requires HasMore(files, files')
    ensures LosesOnlyForeign(FileFindings(files', path, reference), FileFindings(files, path, reference))
  {
    assert IsOwnFile(files, TrimSpace(reference)) ==> IsOwnFile(files', TrimSpace(reference));
    LosesNothing(FileFindings(files, path, reference));
  }

  lemma {:induction false} BindsLose(files: seq<string>, files': seq<string>, path: string, binds: seq<string>)
    requires HasMore(files, files')
    ensures LosesOnlyForeign(BindFindings(files', path, binds), BindFindings(files, path, binds))
    decreases |binds|
  {
    if binds != [] {
      var last := |binds| - 1;
      var (place, source) := (Indexed(path + ".binds", last), Before(binds[last], ':'));
      BindsLose(files, files', path, binds[..last]);
      FileLoses(files, files', place, source);
      LosesInBoth(BindFindings(files, path, binds[..last]), BindFindings(files', path, binds[..last]),
                  FileFindings(files, place, source), FileFindings(files', place, source));
    }
  }

  lemma FieldLoses(files: seq<string>, files': seq<string>, path: string, reference: string)
    requires HasMore(files, files')
    ensures LosesOnlyForeign(FieldFindings(files', path, reference), FieldFindings(files, path, reference))
    ensures LosesOnlyForeign(StartupFindings(files', path, reference), StartupFindings(files, path, reference))
  {
    FileLoses(files, files', path, reference);
    FileLoses(files, files', path + ".startup-config", reference);
  }

  lemma NodeLoses(options: Options, files: seq<string>, files': seq<string>, path: string,
                  definition: Option<NodeDefinition>)
    requires HasMore(files, files')
    ensures LosesOnlyForeign(NodeFindings(options, files', path, definition),
                             NodeFindings(options, files, path, definition))
  {
    if definition.Some? {
      var d := definition.value;
      var a := KindFindings(path, d.kind) + ImageFindings(options.allowedImagePrefixes, path, d.image)
               + PrivilegedFindings(path, d.privileged);
      LosesNothing(a);
      BindsLose(files, files', path, d.binds);
      LosesInBoth(a, a, BindFindings(files, path, d.binds), BindFindings(files', path, d.binds));
      var b, b' := a + BindFindings(files, path, d.binds), a + BindFindings(files', path, d.binds);
      FieldLoses(files, files', path, d.startupConfig);
      LosesInBoth(b, b', StartupFindings(files, path, d.startupConfig), StartupFindings(files', path, d.startupConfig));
      b, b' := b + StartupFindings(files, path, d.startupConfig), b' + StartupFindings(files', path, d.startupConfig);
      var place := path + ".license";
      FieldLoses(files, files', place, d.license);
      LosesInBoth(b, b', FieldFindings(files, place, d.license), FieldFindings(files', place, d.license));
      b, b' := b + FieldFindings(files, place, d.license), b' + FieldFindings(files', place, d.license);
      place := path + ".credentials.identity-file";
      FieldLoses(files, files', place, d.identityFile);
      LosesInBoth(b, b', FieldFindings(files, place, d.identityFile), FieldFindings(files', place, d.identityFile));
      b, b' := b + FieldFindings(files, place, d.identityFile), b' + FieldFindings(files', place, d.identityFile);
      LosesNothing(StagesFindings(path, d.stages));
      LosesInBoth(b, b', StagesFindings(path, d.stages), StagesFindings(path, d.stages));
    }
  }

  lemma {:induction false} SectionLoses(options: Options, files: seq<string>, files': seq<string>, section: string,
                                        names: seq<string>, definitions: map<string, Option<NodeDefinition>>)
    requires HasMore(files, files') && forall name | name in names :: name in definitions
    ensures LosesOnlyForeign(SectionFindings(options, files', section, names, definitions),
                             SectionFindings(options, files, section, names, definitions))
    decreases |names|
  {
    if names != [] {
      var (rest, last) := (names[..|names| - 1], names[|names| - 1]);
      SectionLoses(options, files, files', section, rest, definitions);
      NodeLoses(options, files, files', section + last, definitions[last]);
      LosesInBoth(SectionFindings(options, files, section, rest, definitions),
                  SectionFindings(options, files', section, rest, definitions),
                  NodeFindings(options, files, section + last, definitions[last]),
                  NodeFindings(options, files', section + last, definitions[last]));
    }
  }

  lemma TopologyLoses(options: Options, files: seq<string>, files': seq<string>, t: Topology)
    requires HasMore(files, files')
    ensures LosesOnlyForeign(TopologyFindings(options, files', Some(t)), TopologyFindings(options, files, Some(t)))
  {
    var b, b' := NodeFindings(options, files, "topology.defaults", t.defaults),
                 NodeFindings(options, files', "topology.defaults", t.defaults);
    NodeLoses(options, files, files', "topology.defaults", t.defaults);
    var names := InOrder(t.kinds.Keys);
    SectionLoses(options, files, files', "topology.kinds.", names, t.kinds);
    LosesInBoth(b, b', SectionFindings(options, files, "topology.kinds.", names, t.kinds),
                SectionFindings(options, files', "topology.kinds.", names, t.kinds));
    b, b' := b + SectionFindings(options, files, "topology.kinds.", names, t.kinds),
             b' + SectionFindings(options, files', "topology.kinds.", names, t.kinds);
    names := InOrder(t.groups.Keys);
    SectionLoses(options, files, files', "topology.groups.", names, t.groups);
    LosesInBoth(b, b', SectionFindings(options, files, "topology.groups.", names, t.groups),
                SectionFindings(options, files', "topology.groups.", names, t.groups));
    b, b' := b + SectionFindings(options, files, "topology.groups.", names, t.groups),
             b' + SectionFindings(options, files', "topology.groups.", names, t.groups);
    names := InOrder(t.nodes.Keys);
    SectionLoses(options, files, files', "topology.nodes.", names, t.nodes);
    LosesInBoth(b, b', SectionFindings(options, files, "topology.nodes.", names, t.nodes),
                SectionFindings(options, files', "topology.nodes.", names, t.nodes));
    b, b' := b + SectionFindings(options, files, "topology.nodes.", names, t.nodes),
             b' + SectionFindings(options, files', "topology.nodes.", names, t.nodes);
    LosesNothing(LinksFindings(t.links));
    LosesInBoth(b, b', LinksFindings(t.links), LinksFindings(t.links));
  }

  /** More bind files lead to the same findings without some of those about foreign files. */
  lemma MoreFilesOnlyHelp(options: Options, raw: Yaml, topology: Option<Topology>, text: string,
                          files: seq<string>, files': seq<string>)
    requires HasMore(files, files')
    ensures LosesOnlyForeign(Findings(options, raw, topology, text, files'),
                             Findings(options, raw, topology, text, files))
  {
    LosesNothing(TextFindings(text) + RootFindings(raw));
    if topology.Some? {
      TopologyLoses(options, files, files', topology.value);
    }
    LosesInBoth(TextFindings(text) + RootFindings(raw), TextFindings(text) + RootFindings(raw),
                TopologyFindings(options, files, topology), TopologyFindings(options, files', topology));
  }

  /** Neither the order of the bind files nor repetitions matter. */
  lemma OnlyTheSetOfFilesMatters(options: Options, raw: Yaml, topology: Option<Topology>, text: string,
                                 files: seq<string>, files': seq<string>)
    requires HasMore(files, files') && HasMore(files', files)
    ensures Findings(options, raw, topology, text, files) == Findings(options, raw, topology, text, files')
  {
    MoreFilesOnlyHelp(options, raw, topology, text, files, files');
    MoreFilesOnlyHelp(options, raw, topology, text, files', files);
    LosingNothingIsEqual(Findings(options, raw, topology, text, files), Findings(options, raw, topology, text, files'));
    LosingNothingIsEqual(Findings(options, raw, topology, text, files'), Findings(options, raw, topology, text, files));
  }

  // ---------------------------------------------------------------------------------------------
  // Topologies without findings
  // ---------------------------------------------------------------------------------------------

  ghost predicate FileIsSafe(bindFiles: seq<string>, reference: string) {
    !Contains(TrimSpace(reference), "://") && LeadsToFile(bindFiles, TrimSpace(reference))
  }

  ghost predicate SourceIsSafe(bindFiles: seq<string>, bind: string) {
    FileIsSafe(bindFiles, Before(bind, ':'))
  }

  /** A command runs inside the node if it is missing, or if its target is empty or the word container. */
  ghost predicate RunsInNode(command: Option<string>) {
    command.Some? ==> Says(command.value, "") || Says(command.value, "container")
  }

  /** The kinds of nodes that connect a lab to the server or to networks outside the lab. */
  ghost predicate ReachesHost(kind: string) {
    || Says(kind, "host") || Says(kind, "bridge") || Says(kind, "ovs-bridge")
    || Says(kind, "ext-container") || Says(kind, "k8s-kind") || Says(kind, "tailscale")
  }

  ghost predicate CommandsAreSafe(commands: Option<Commands>) {
    commands.Some? ==> forall command | command in commands.value :: RunsInNode(command)
  }

  ghost predicate StagesAreSafe(stages: Option<Stages>) {
    stages.Some? ==>
      && CommandsAreSafe(stages.value.create) && CommandsAreSafe(stages.value.createLinks)
      && CommandsAreSafe(stages.value.configure) && CommandsAreSafe(stages.value.healthy)
      && CommandsAreSafe(stages.value.exit)
  }

  /** A node that stays in its lab: it does not connect to the server, runs an allowed image without
      privileges, refers to no file but the topology's own, and runs nothing on the server. */
  ghost predicate NodeIsSafe(options: Options, bindFiles: seq<string>, d: NodeDefinition) {
    && !ReachesHost(d.kind)
    && (d.image == "" || options.allowedImagePrefixes == []
        || exists prefix | prefix in options.allowedImagePrefixes :: prefix <= TrimSpace(d.image))
    && d.privileged != Some(true)
    && (forall bind | bind in d.binds :: SourceIsSafe(bindFiles, bind))
    && (d.startupConfig == "" || '\n' in d.startupConfig || FileIsSafe(bindFiles, d.startupConfig))
    && (d.license == "" || FileIsSafe(bindFiles, d.license))
    && (d.identityFile == "" || FileIsSafe(bindFiles, d.identityFile))
    && StagesAreSafe(d.stages)
  }

  ghost predicate NodesAreSafe(options: Options, bindFiles: seq<string>,
                               definitions: map<string, Option<NodeDefinition>>) {
    forall name | name in definitions && definitions[name].Some? ::
        NodeIsSafe(options, bindFiles, definitions[name].value)
  }

  ghost predicate EndpointStaysInside(endpoint: Option<string>) {
    endpoint.Some? ==>
      !Says(endpoint.value, "host") && !Says(endpoint.value, "macvlan") && !Says(endpoint.value, "mgmt-net")
  }

  ghost predicate LinkStaysInside(link: Option<Link>) {
    match link
    case Some(OtherLink(_)) => false
    case Some(Veth(endpoints)) =>
      forall endpoint | endpoint in endpoints :: EndpointStaysInside(endpoint)
    case _ => true
  }

  ghost predicate TopologyIsSafe(options: Options, bindFiles: seq<string>, t: Topology) {
    && (t.defaults.Some? ==> NodeIsSafe(options, bindFiles, t.defaults.value))
    && NodesAreSafe(options, bindFiles, t.kinds) && NodesAreSafe(options, bindFiles, t.groups)
    && NodesAreSafe(options, bindFiles, t.nodes)
    && forall link | link in t.links :: LinkStaysInside(link)
  }

  lemma CommandMeans(command: Option<string>)
    ensures RunsOnServer(command) <==> !RunsInNode(command)
  {
    if command.Some? {
      LoweredSays(command.value, "");
      LoweredSays(command.value, "container");
    }
  }

  lemma NormalizedIs(text: string)
    ensures Normalized(text) == Paths.ToLower(TrimSpace(text))
  {
  }

  lemma HostKindsAre(kind: string)
    ensures kind in HOST_REACHING_KINDS <==>
              || kind == "host" || kind == "bridge" || kind == "ovs-bridge"
              || kind == "ext-container" || kind == "k8s-kind" || kind == "tailscale"
  {
  }

  lemma HostEndpointsAre(node: string)
    ensures node in HOST_ENDPOINT_NODES <==> node == "host" || node == "macvlan" || node == "mgmt-net"
  {
  }

  lemma KindMeans(path: string, kind: string)
    ensures KindFindings(path, kind) == [] <==> !ReachesHost(kind)
  {
    hide Says, Normalized, HOST_REACHING_KINDS;
    NormalizedIs(kind);
    HostKindsAre(Normalized(kind));
    LoweredSays(kind, "host");
    LoweredSays(kind, "bridge");
    LoweredSays(kind, "ovs-bridge");
    LoweredSays(kind, "ext-container");
    LoweredSays(kind, "k8s-kind");
    LoweredSays(kind, "tailscale");
  }

  lemma FileFindingsMean(bindFiles: seq<string>, path: string, reference: string)
    requires AreStored(bindFiles)
    ensures FileFindings(bindFiles, path, reference) == [] <==> FileIsSafe(bindFiles, reference)
  {
    OwnFileMeans(bindFiles, TrimSpace(reference));
  }

  lemma {:induction false} BindFindingsMean(bindFiles: seq<string>, path: string, binds: seq<string>)
    requires AreStored(bindFiles)
    ensures BindFindings(bindFiles, path, binds) == [] <==> forall bind | bind in binds :: SourceIsSafe(bindFiles, bind)
    decreases |binds|
  {
    hide FileIsSafe, FileFindings, AreStored;
    if binds != [] {
      var last := |binds| - 1;
      assert binds == binds[..last] + [binds[last]];
      BindFindingsMean(bindFiles, path, binds[..last]);
      FileFindingsMean(bindFiles, Indexed(path + ".binds", last), Before(binds[last], ':'));
      NothingFromEither(BindFindings(bindFiles, path, binds[..last]),
                        FileFindings(bindFiles, Indexed(path + ".binds", last), Before(binds[last], ':')));
      assert (forall bind | bind in binds :: SourceIsSafe(bindFiles, bind))
        <==> && (forall bind | bind in binds[..last] :: SourceIsSafe(bindFiles, bind))
             && SourceIsSafe(bindFiles, binds[last]);
    }
  }

  lemma {:induction false} CommandFindingsMean(path: string, commands: Commands)
    ensures CommandFindings(path, commands) == [] <==> CommandsAreSafe(Some(commands))
    decreases |commands|
  {
    hide RunsOnServer, RunsInNode;
    if commands != [] {
      var last := |commands| - 1;
      CommandMeans(commands[last]);
      CommandFindingsMean(path, commands[..last]);
      assert commands == commands[..last] + [commands[last]];
    }
  }

  lemma {:induction false} StageFindingsMean(path: string, names: seq<string>, stages: map<string, Commands>)
    requires forall name | name in names :: name in stages
    ensures StageFindings(path, names, stages) == []
            <==> forall name | name in names :: CommandsAreSafe(Some(stages[name]))
    decreases |names|
  {
    if names != [] {
      var (rest, last) := (names[..|names| - 1], names[|names| - 1]);
      assert names == rest + [last];
      StageFindingsMean(path, rest, stages);
      CommandFindingsMean(path + "." + last, stages[last]);
    }
  }

  lemma StagesFindingsMean(path: string, stages: Option<Stages>)
    ensures StagesFindings(path, stages) == [] <==> StagesAreSafe(stages)
  {
    if stages.Some? {
      var named := NamedStages(stages.value);
      AllInOrder(named.Keys);
      StageFindingsMean(path + ".stages", InOrder(named.Keys), named);
      NamedStagesMean(stages.value);
    }
  }

  ghost predicate AllSafe(stages: map<string, Commands>) {
    forall name | name in stages :: CommandsAreSafe(Some(stages[name]))
  }

  lemma NoStages()
    ensures AllSafe(map[])
  {
  }

  lemma OneMoreStage(stages: map<string, Commands>, name: string, commands: Option<Commands>)
    requires name !in stages
    ensures AllSafe(WithStage(stages, name, commands)) <==> AllSafe(stages) && CommandsAreSafe(commands)
    ensures WithStage(stages, name, commands).Keys <= stages.Keys + {name}
  {
    hide RunsOnServer;
    var more := WithStage(stages, name, commands);
    assert commands.Some? ==> more[name] == commands.value;
    assert forall other | other in stages :: other in more && more[other] == stages[other];
  }

  lemma NamedStagesMean(stages: Stages)
    ensures AllSafe(NamedStages(stages)) <==> StagesAreSafe(Some(stages))
  {
    hide AllSafe, CommandsAreSafe, WithStage;
    assert AllSafe(map[]) by { NoStages(); }
    OneMoreStage(map[], "create", stages.create);
    var some := WithStage(map[], "create", stages.create);
    OneMoreStage(some, "create-links", stages.createLinks);
    some := WithStage(some, "create-links", stages.createLinks);
    OneMoreStage(some, "configure", stages.configure);
    some := WithStage(some, "configure", stages.configure);
    OneMoreStage(some, "healthy", stages.healthy);
    some := WithStage(some, "healthy", stages.healthy);
    OneMoreStage(some, "exit", stages.exit);
  }

  lemma NodeFindingsAreEmpty(options: Options, bindFiles: seq<string>, path: string, d: NodeDefinition)
    ensures NodeFindings(options, bindFiles, path, Some(d)) == []
            <==> && KindFindings(path, d.kind) == [] && ImageFindings(options.allowedImagePrefixes, path, d.image) == []
                 && PrivilegedFindings(path, d.privileged) == [] && BindFindings(bindFiles, path, d.binds) == []
                 && StartupFindings(bindFiles, path, d.startupConfig) == []
                 && FieldFindings(bindFiles, path + ".license", d.license) == []
                 && FieldFindings(bindFiles, path + ".credentials.identity-file", d.identityFile) == []
                 && StagesFindings(path, d.stages) == []
  {
  }

  lemma FieldFindingsMean(bindFiles: seq<string>, path: string, reference: string)
    requires AreStored(bindFiles)
    ensures FieldFindings(bindFiles, path, reference) == [] <==> reference == "" || FileIsSafe(bindFiles, reference)
    ensures StartupFindings(bindFiles, path, reference) == []
            <==> reference == "" || '\n' in reference || FileIsSafe(bindFiles, reference)
  {
    FileFindingsMean(bindFiles, path, reference);
    FileFindingsMean(bindFiles, path + ".startup-config", reference);
  }

  lemma NodeFindingsMean(options: Options, bindFiles: seq<string>, path: string, definition: Option<NodeDefinition>)
    requires AreStored(bindFiles)
    ensures NodeFindings(options, bindFiles, path, definition) == []
            <==> (definition.Some? ==> NodeIsSafe(options, bindFiles, definition.value))
  {
    hide ReachesHost, KindFindings, FileIsSafe, StagesAreSafe, BindFindings, StagesFindings, FieldFindings,
         StartupFindings, AreStored;
    if definition.Some? {
      var d := definition.value;
      KindMeans(path, d.kind);
      BindFindingsMean(bindFiles, path, d.binds);
      FieldFindingsMean(bindFiles, path, d.startupConfig);
      FieldFindingsMean(bindFiles, path + ".license", d.license);
      FieldFindingsMean(bindFiles, path + ".credentials.identity-file", d.identityFile);
      StagesFindingsMean(path, d.stages);
      NodeFindingsAreEmpty(options, bindFiles, path, d);
    }
  }

  lemma {:induction false} SectionFindingsMean(options: Options, bindFiles: seq<string>, section: string,
                                               names: seq<string>, definitions: map<string, Option<NodeDefinition>>)
    requires AreStored(bindFiles) && forall name | name in names :: name in definitions
    ensures SectionFindings(options, bindFiles, section, names, definitions) == []
            <==> forall name | name in names && definitions[name].Some? ::
                   NodeIsSafe(options, bindFiles, definitions[name].value)
    decreases |names|
  {
    if names != [] {
      var (rest, last) := (names[..|names| - 1], names[|names| - 1]);
      assert names == rest + [last];
      SectionFindingsMean(options, bindFiles, section, rest, definitions);
      NodeFindingsMean(options, bindFiles, section + last, definitions[last]);
    }
  }

  lemma EndpointFindingMeans(path: string, endpoint: Option<string>)
    ensures EndpointFinding(path, endpoint) == [] <==> EndpointStaysInside(endpoint)
  {
    hide Says, Normalized, HOST_ENDPOINT_NODES;
    if endpoint.Some? {
      NormalizedIs(endpoint.value);
      HostEndpointsAre(Normalized(endpoint.value));
      LoweredSays(endpoint.value, "host");
      LoweredSays(endpoint.value, "macvlan");
      LoweredSays(endpoint.value, "mgmt-net");
    }
  }

  lemma {:induction false} EndpointFindingsMean(path: string, endpoints: seq<Option<string>>)
    ensures EndpointFindings(path, endpoints) == [] <==> LinkStaysInside(Some(Veth(endpoints)))
    decreases |endpoints|
  {
    hide EndpointStaysInside, EndpointFinding;
    if endpoints != [] {
      var last := |endpoints| - 1;
      assert endpoints == endpoints[..last] + [endpoints[last]];
      EndpointFindingsMean(path, endpoints[..last]);
      EndpointFindingMeans(Indexed(path + ".endpoints", last), endpoints[last]);
      NothingFromEither(EndpointFindings(path, endpoints[..last]),
                        EndpointFinding(Indexed(path + ".endpoints", last), endpoints[last]));
    }
  }

  lemma LinkFindingsMean(path: string, link: Option<Link>)
    ensures LinkFindings(path, link) == [] <==> LinkStaysInside(link)
  {
    if link.Some? && link.value.Veth? {
      EndpointFindingsMean(path, link.value.endpoints);
    }
  }

  lemma {:induction false} LinksFindingsMean(links: seq<Option<Link>>)
    ensures LinksFindings(links) == [] <==> forall link | link in links :: LinkStaysInside(link)
    decreases |links|
  {
    if links != [] {
      var last := |links| - 1;
      assert links == links[..last] + [links[last]];
      LinksFindingsMean(links[..last]);
      LinkFindingsMean(Indexed("topology.links", last), links[last]);
      NothingFromEither(LinksFindings(links[..last]), LinkFindings(Indexed("topology.links", last), links[last]));
    }
  }

  lemma AllSectionsMean(options: Options, bindFiles: seq<string>, section: string,
                        definitions: map<string, Option<NodeDefinition>>)
    requires AreStored(bindFiles)
    ensures SectionFindings(options, bindFiles, section, InOrder(definitions.Keys), definitions) == []
            <==> NodesAreSafe(options, bindFiles, definitions)
  {
    AllInOrder(definitions.Keys);
    SectionFindingsMean(options, bindFiles, section, InOrder(definitions.Keys), definitions);
  }

  lemma TopologyFindingsMean(options: Options, bindFiles: seq<string>, t: Topology)
    requires AreStored(bindFiles)
    ensures TopologyFindings(options, bindFiles, Some(t)) == [] <==> TopologyIsSafe(options, bindFiles, t)
  {
    hide NodeFindings, NodeIsSafe, NodesAreSafe, SectionFindings, LinksFindings, LinkStaysInside, AreStored, InOrder;
    NodeFindingsMean(options, bindFiles, "topology.defaults", t.defaults);
    AllSectionsMean(options, bindFiles, "topology.kinds.", t.kinds);
    AllSectionsMean(options, bindFiles, "topology.groups.", t.groups);
    AllSectionsMean(options, bindFiles, "topology.nodes.", t.nodes);
    LinksFindingsMean(t.links);
  }

  /** A check finds nothing exactly if containerlab replaces nothing in the text, all keys are reviewed and
      allowed, and everything in the topology is safe. */
  lemma NoFindingsMeansSafe(options: Options, raw: Yaml, topology: Option<Topology>, text: string,
                            bindFiles: seq<string>)
    requires AreStored(bindFiles)
    ensures Findings(options, raw, topology, text, bindFiles) == []
            <==> && IsLiteral(text) && RootIsReviewed(raw)
                 && (topology.Some? ==> TopologyIsSafe(options, bindFiles, topology.value))
  {
    TextFindingsMean(text);
    RootFindingsMean(raw);
    NothingFromEither(TextFindings(text), RootFindings(raw));
    NothingFromEither(TextFindings(text) + RootFindings(raw), TopologyFindings(options, bindFiles, topology));
    if topology.Some? {
      TopologyFindingsMean(options, bindFiles, topology.value);
    }
  }
}
