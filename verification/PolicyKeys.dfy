/** The policy's rules about the text of a definition and about its keys. */
module PolicyKeys {
  import opened PolicyFindings

  /** A definition as decoded into plain values. Only the keys of mappings matter. */
  datatype Yaml = Mapping(fields: map<string, Yaml>) | Other

  /** The fields of a mapping. Anything else counts as having none. */
  function Fields(value: Yaml): map<string, Yaml> {
    if value.Mapping? then value.fields else map[]
  }

  function UnknownFinding(path: string): Finding {
    Finding(UnreviewedField, Unreviewed, path, Quoting("is not a reviewed field", path))
  }

  // ---------------------------------------------------------------------------------------------
  // Text
  // ---------------------------------------------------------------------------------------------

  const GO_TEMPLATE_MESSAGE :=
    "containerlab renders the topology as a Go template, so templated topologies can't be checked"
  const ENV_EXPANSION_MESSAGE :=
    "containerlab replaces $VAR and ${VAR} with environment variables of the deploying process"

  /** What can follow a dollar sign that is replaced. */
  predicate StartsVariable(c: char) {
    c == '{' || c == '_' || 'A' <= c <= 'Z' || 'a' <= c <= 'z'
  }

  predicate ExpandsVariable(text: string) {
    && |text| > 1
    && ((text[0] == '$' && StartsVariable(text[1])) || ExpandsVariable(text[1..]))
  }

  function TextFindings(text: string): seq<Finding> {
    (if Contains(text, "{{") then [Finding(GoTemplate, Deploy, "", Text(GO_TEMPLATE_MESSAGE))] else [])
    + (if ExpandsVariable(text) then [Finding(EnvExpansion, Deploy, "", Text(ENV_EXPANSION_MESSAGE))] else [])
  }

  // ---------------------------------------------------------------------------------------------
  // Keys of node definitions
  // ---------------------------------------------------------------------------------------------

  datatype Review = Allowed | Denied(ruleId: RuleId, impact: Impact, message: string) | Unlisted

  const HARMLESS_FIELDS: seq<string> := [
    "group", "type", "startup-delay", "enforce-startup-config", "suppress-startup-config", "auto-remove",
    "restart-policy", "config", "image-pull-policy", "position", "hostname", "entrypoint", "cmd", "exec", "env", "user",
    "labels", "dns", "aliases", "healthcheck", "link-apply-mode", "credentials", "certificate"]

  const RESOURCE_FIELDS: seq<string> := ["cpu", "cpu-set", "memory", "shm-size", "tmpfs"]

  /** Fields whose values are checked on the typed definition. */
  const CHECKED_FIELDS: seq<string> := [
    "kind", "image", "privileged", "stages", "binds", "startup-config", "license"]

  const ALLOWED_FIELDS: seq<string> := HARMLESS_FIELDS + RESOURCE_FIELDS + CHECKED_FIELDS

  /** Unsafe fields, which are reported whenever they are set. */
  const DENIED_FIELDS: map<string, Review> := map[
    "env-files" := Denied(EnvFiles, Deploy,
                          "env files are read on the server and can expand its environment variables"),
    "network-mode" := Denied(HostNamespace, Shell,
                             "shares a network namespace with the server or another container"),
    "pid-mode" := Denied(HostNamespace, Shell, "shares a process namespace with the server or another container"),
    "cgroupns-mode" := Denied(HostNamespace, Shell, "shares the cgroup namespace with the server"),
    "cgroup-parent" := Denied(HostNamespace, Deploy, "places the node in a cgroup of the server"),
    "cap-add" := Denied(Privileges, Shell, "grants additional Linux capabilities"),
    "devices" := Denied(Privileges, Shell, "gives the node access to devices of the server"),
    "security-opts" := Denied(Privileges, Shell, "changes the node's security profile"),
    "sysctls" := Denied(KernelSettings, Deploy, "changes kernel settings"),
    "runtime" := Denied(Runtime, Deploy, "selects the container runtime"),
    "ports" := Denied(HostPorts, Deploy, "publishes ports on the server"),
    "volumes" := Denied(Volumes, Shell, "mounts container volumes, which other labs can share"),
    "mgmt-ipv4" := Denied(StaticMgmtAddress, Shell, "static management addresses can take another lab's address"),
    "mgmt-ipv6" := Denied(StaticMgmtAddress, Shell, "static management addresses can take another lab's address"),
    "extras" := Denied(UnreviewedField, Unreviewed, "kind-specific extras can reference files on the server"),
    "components" := Denied(UnreviewedField, Unreviewed, "node components are not reviewed")]

  function ReviewOf(key: string): Review {
    if key in ALLOWED_FIELDS then Allowed else if key in DENIED_FIELDS then DENIED_FIELDS[key] else Unlisted
  }

  function NodeKeyFindings(path: string, key: string): seq<Finding> {
    match ReviewOf(key)
    case Unlisted => [UnknownFinding(path)]
    case Denied(ruleId, impact, message) => [Finding(ruleId, impact, path, Text(message))]
    case Allowed => []
  }

  function FieldsFindings(path: string, keys: seq<string>): seq<Finding> {
    if keys == [] then []
    else
      var last := keys[|keys| - 1];
      FieldsFindings(path, keys[..|keys| - 1]) + NodeKeyFindings(path + "." + last, last)
  }

  ghost function NodeKeysFindings(path: string, value: Yaml): seq<Finding> {
    FieldsFindings(path, InOrder(Fields(value).Keys))
  }

  // ---------------------------------------------------------------------------------------------
  // Keys of the topology and of the root
  // ---------------------------------------------------------------------------------------------

  const DEFINITION_SECTIONS: seq<string> := ["kinds", "groups", "nodes"]

  ghost function DefinitionsFindings(path: string, names: seq<string>, definitions: map<string, Yaml>): seq<Finding>
    requires forall name | name in names :: name in definitions
  {
    if names == [] then []
    else
      var last := names[|names| - 1];
      DefinitionsFindings(path, names[..|names| - 1], definitions)
      + NodeKeysFindings(path + "." + last, definitions[last])
  }

  ghost function TopologySectionFindings(section: string, value: Yaml): seq<Finding> {
    var path := "topology." + section;
    if section == "defaults" then NodeKeysFindings(path, value)
    else if section in DEFINITION_SECTIONS then
      DefinitionsFindings(path, InOrder(Fields(value).Keys), Fields(value))
    else if section == "links" then []
    else [UnknownFinding(path)]
  }

  ghost function TopologySectionsFindings(sections: seq<string>, topology: map<string, Yaml>): seq<Finding>
    requires forall section | section in sections :: section in topology
  {
    if sections == [] then []
    else
      var last := sections[|sections| - 1];
      TopologySectionsFindings(sections[..|sections| - 1], topology) + TopologySectionFindings(last, topology[last])
  }

  ghost function TopologyKeysFindings(value: Yaml): seq<Finding> {
    TopologySectionsFindings(InOrder(Fields(value).Keys), Fields(value))
  }

  ghost function RootKeyFindings(key: string, value: Yaml): seq<Finding> {
    if key == "name" || key == "debug" then []
    else if key == "topology" then TopologyKeysFindings(value)
    else if key == "mgmt" then [Finding(Mgmt, Shell, key, Text("the management network is set by Antimony"))]
    else if key == "prefix" then [Finding(Prefix, Deploy, key, Text("the container name prefix is set by Antimony"))]
    else if key == "settings" then
      [Finding(Settings, Deploy, key, Text("lab settings can reference files on the server"))]
    else [UnknownFinding(key)]
  }

  ghost function RootKeysFindings(keys: seq<string>, root: map<string, Yaml>): seq<Finding>
    requires forall key | key in keys :: key in root
  {
    if keys == [] then []
    else
      var last := keys[|keys| - 1];
      RootKeysFindings(keys[..|keys| - 1], root) + RootKeyFindings(last, root[last])
  }

  ghost function RootFindings(raw: Yaml): seq<Finding> {
    RootKeysFindings(InOrder(Fields(raw).Keys), Fields(raw))
  }

  lemma NextField(path: string, keys: seq<string>, n: nat)
    requires n < |keys|
    ensures FieldsFindings(path, keys[..n + 1]) ==
              FieldsFindings(path, keys[..n]) + NodeKeyFindings(path + "." + keys[n], keys[n])
  {
    assert keys[..n + 1][..n] == keys[..n];
  }

  lemma NextDefinition(path: string, names: seq<string>, definitions: map<string, Yaml>, n: nat)
    requires n < |names| && forall name | name in names :: name in definitions
    ensures DefinitionsFindings(path, names[..n + 1], definitions) ==
              DefinitionsFindings(path, names[..n], definitions)
              + NodeKeysFindings(path + "." + names[n], definitions[names[n]])
  {
    assert names[..n + 1][..n] == names[..n];
  }

  lemma NextSection(sections: seq<string>, topology: map<string, Yaml>, n: nat)
    requires n < |sections| && forall section | section in sections :: section in topology
    ensures TopologySectionsFindings(sections[..n + 1], topology) ==
              TopologySectionsFindings(sections[..n], topology)
              + TopologySectionFindings(sections[n], topology[sections[n]])
  {
    assert sections[..n + 1][..n] == sections[..n];
  }

  lemma NextRootKey(keys: seq<string>, root: map<string, Yaml>, n: nat)
    requires n < |keys| && forall key | key in keys :: key in root
    ensures RootKeysFindings(keys[..n + 1], root) ==
              RootKeysFindings(keys[..n], root) + RootKeyFindings(keys[n], root[keys[n]])
  {
    assert keys[..n + 1][..n] == keys[..n];
  }

  // ---------------------------------------------------------------------------------------------
  // Definitions without findings
  // ---------------------------------------------------------------------------------------------

  /** Nothing in the text is replaced before it is parsed. */
  ghost predicate IsLiteral(text: string) {
    forall i: nat | i < |text| - 1 :: !OpensTemplate(text, i) && !NamesVariable(text, i)
  }

  predicate IsHarmlessField(key: string) {
    || key == "group" || key == "type" || key == "startup-delay" || key == "enforce-startup-config"
    || key == "suppress-startup-config" || key == "auto-remove" || key == "restart-policy" || key == "config"
    || key == "image-pull-policy" || key == "position" || key == "hostname" || key == "entrypoint" || key == "cmd"
    || key == "exec" || key == "env" || key == "user" || key == "labels" || key == "dns" || key == "aliases"
    || key == "healthcheck" || key == "link-apply-mode" || key == "credentials" || key == "certificate"
  }

  predicate IsResourceField(key: string) {
    || key == "cpu" || key == "cpu-set" || key == "memory" || key == "shm-size" || key == "tmpfs"
  }

  predicate IsCheckedField(key: string) {
    || key == "kind" || key == "image" || key == "privileged" || key == "stages" || key == "binds"
    || key == "startup-config" || key == "license"
  }

  predicate IsAllowedField(key: string) {
    IsHarmlessField(key) || IsResourceField(key) || IsCheckedField(key)
  }

  lemma HarmlessFieldsAre(key: string)
    ensures key in HARMLESS_FIELDS <==> IsHarmlessField(key)
  {
  }

  lemma OtherFieldsAre(key: string)
    ensures key in RESOURCE_FIELDS <==> IsResourceField(key)
    ensures key in CHECKED_FIELDS <==> IsCheckedField(key)
  {
  }

  /** The fields that are allowed are these, and no others. */
  lemma AllowedFieldsAre(key: string)
    ensures key in ALLOWED_FIELDS <==> IsAllowedField(key)
  {
    hide HARMLESS_FIELDS, RESOURCE_FIELDS, CHECKED_FIELDS, IsHarmlessField, IsResourceField, IsCheckedField;
    HarmlessFieldsAre(key);
    OtherFieldsAre(key);
  }

  ghost predicate HasOnlyAllowedFields(value: Yaml) {
    forall key | key in Fields(value) :: IsAllowedField(key)
  }

  ghost predicate SectionIsReviewed(section: string, value: Yaml) {
    || section == "links"
    || (section == "defaults" && HasOnlyAllowedFields(value))
    || ((section == "kinds" || section == "groups" || section == "nodes") &&
        forall name | name in Fields(value) :: HasOnlyAllowedFields(Fields(value)[name]))
  }

  /** The name, the debug flag, and a topology of known sections whose definitions have allowed fields only. */
  ghost predicate RootIsReviewed(raw: Yaml) {
    forall key | key in Fields(raw) ::
      || key == "name" || key == "debug"
      || (key == "topology" && TopologyIsReviewed(Fields(raw)[key]))
  }

  ghost predicate TopologyIsReviewed(value: Yaml) {
    forall section | section in Fields(value) :: SectionIsReviewed(section, Fields(value)[section])
  }

  predicate OpensTemplate(text: string, i: nat)
    requires i + 1 < |text|
  {
    text[i] == '{' && text[i + 1] == '{'
  }

  predicate NamesVariable(text: string, i: nat)
    requires i + 1 < |text|
  {
    && text[i] == '$'
    && (text[i + 1] == '{' || text[i + 1] == '_' || 'A' <= text[i + 1] <= 'Z' || 'a' <= text[i + 1] <= 'z')
  }

  lemma {:induction false} ContainsMeans(text: string)
    ensures Contains(text, "{{") <==> exists i: nat | i < |text| - 1 :: OpensTemplate(text, i)
  {
    if text != "" {
      ContainsMeans(text[1..]);
      assert "{{" <= text <==> |text| > 1 && OpensTemplate(text, 0);
      forall i: nat | i < |text| - 2 ensures OpensTemplate(text[1..], i) == OpensTemplate(text, i + 1) {
      }
      if i: nat :| i < |text| - 1 && OpensTemplate(text, i) {
        assert i > 0 ==> OpensTemplate(text[1..], i - 1);
      }
    }
  }

  lemma {:induction false} ExpandsVariableMeans(text: string)
    ensures ExpandsVariable(text) <==> exists i: nat | i < |text| - 1 :: NamesVariable(text, i)
  {
    if |text| > 1 {
      ExpandsVariableMeans(text[1..]);
      forall i: nat | i < |text| - 2 ensures NamesVariable(text[1..], i) == NamesVariable(text, i + 1) {
      }
      if i: nat :| i < |text| - 1 && NamesVariable(text, i) {
        assert i > 0 ==> NamesVariable(text[1..], i - 1);
      }
      assert ExpandsVariable(text) <==> NamesVariable(text, 0) || ExpandsVariable(text[1..]);
    }
  }

  lemma TextFindingsMean(text: string)
    ensures TextFindings(text) == [] <==> IsLiteral(text)
  {
    ContainsMeans(text);
    ExpandsVariableMeans(text);
  }

  lemma {:induction false} FieldsFindingsMean(path: string, keys: seq<string>)
    ensures FieldsFindings(path, keys) == [] <==> forall key | key in keys :: IsAllowedField(key)
    decreases |keys|
  {
    hide IsAllowedField, NodeKeyFindings;
    if keys != [] {
      var (rest, last) := (keys[..|keys| - 1], keys[|keys| - 1]);
      assert keys == rest + [last];
      FieldsFindingsMean(path, rest);
      DeniedAreReported(path + "." + last, last);
      NothingFromEither(FieldsFindings(path, rest), NodeKeyFindings(path + "." + last, last));
    }
  }

  lemma DeniedAreReported(path: string, key: string)
    ensures NodeKeyFindings(path, key) == [] <==> IsAllowedField(key)
  {
    hide IsAllowedField;
    AllowedFieldsAre(key);
    assert key in DENIED_FIELDS ==> DENIED_FIELDS[key].Denied?;
  }

  lemma NodeKeysFindingsMean(path: string, value: Yaml)
    ensures NodeKeysFindings(path, value) == [] <==> HasOnlyAllowedFields(value)
  {
    hide IsAllowedField;
    AllInOrder(Fields(value).Keys);
    FieldsFindingsMean(path, InOrder(Fields(value).Keys));
  }

  lemma {:induction false} DefinitionsFindingsMean(path: string, names: seq<string>, definitions: map<string, Yaml>)
    requires forall name | name in names :: name in definitions
    ensures DefinitionsFindings(path, names, definitions) == []
            <==> forall name | name in names :: HasOnlyAllowedFields(definitions[name])
    decreases |names|
  {
    hide IsAllowedField;
    if names != [] {
      var (rest, last) := (names[..|names| - 1], names[|names| - 1]);
      assert names == rest + [last];
      DefinitionsFindingsMean(path, rest, definitions);
      NodeKeysFindingsMean(path + "." + last, definitions[last]);
      NothingFromEither(DefinitionsFindings(path, rest, definitions),
                        NodeKeysFindings(path + "." + last, definitions[last]));
    }
  }

  lemma SectionFindingsMean(section: string, value: Yaml)
    ensures TopologySectionFindings(section, value) == [] <==> SectionIsReviewed(section, value)
  {
    hide NodeKeysFindings, DefinitionsFindings, IsAllowedField, HasOnlyAllowedFields;
    var path := "topology." + section;
    if section == "defaults" {
      NodeKeysFindingsMean(path, value);
    } else if section in DEFINITION_SECTIONS {
      AllInOrder(Fields(value).Keys);
      DefinitionsFindingsMean(path, InOrder(Fields(value).Keys), Fields(value));
    }
  }

  lemma {:induction false} SectionsFindingsMean(sections: seq<string>, topology: map<string, Yaml>)
    requires forall section | section in sections :: section in topology
    ensures TopologySectionsFindings(sections, topology) == []
            <==> forall section | section in sections :: SectionIsReviewed(section, topology[section])
    decreases |sections|
  {
    if sections != [] {
      var (rest, last) := (sections[..|sections| - 1], sections[|sections| - 1]);
      assert sections == rest + [last];
      SectionsFindingsMean(rest, topology);
      SectionFindingsMean(last, topology[last]);
      NothingFromEither(TopologySectionsFindings(rest, topology), TopologySectionFindings(last, topology[last]));
    }
  }

  lemma RootKeyFindingsMean(key: string, value: Yaml)
    ensures RootKeyFindings(key, value) == []
            <==> key == "name" || key == "debug" || (key == "topology" && TopologyIsReviewed(value))
  {
    if key == "topology" {
      AllInOrder(Fields(value).Keys);
      SectionsFindingsMean(InOrder(Fields(value).Keys), Fields(value));
    }
  }

  lemma {:induction false} RootKeysFindingsMean(keys: seq<string>, root: map<string, Yaml>)
    requires forall key | key in keys :: key in root
    ensures RootKeysFindings(keys, root) == []
            <==> forall key | key in keys :: RootKeyFindings(key, root[key]) == []
    decreases |keys|
  {
    if keys != [] {
      var (rest, last) := (keys[..|keys| - 1], keys[|keys| - 1]);
      assert keys == rest + [last];
      RootKeysFindingsMean(rest, root);
      NothingFromEither(RootKeysFindings(rest, root), RootKeyFindings(last, root[last]));
    }
  }

  /** The rules about keys report nothing exactly if only reviewed and allowed keys are there. */
  lemma RootFindingsMean(raw: Yaml)
    ensures RootFindings(raw) == [] <==> RootIsReviewed(raw)
  {
    AllInOrder(Fields(raw).Keys);
    RootKeysFindingsMean(InOrder(Fields(raw).Keys), Fields(raw));
    forall key | key in Fields(raw)
      ensures RootKeyFindings(key, Fields(raw)[key]) == []
              <==> key == "name" || key == "debug" || (key == "topology" && TopologyIsReviewed(Fields(raw)[key]))
    {
      RootKeyFindingsMean(key, Fields(raw)[key]);
    }
  }
}
