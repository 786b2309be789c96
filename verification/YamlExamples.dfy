/** Topologies that pass the schema and whose rename does not change the name they mean. */
module YamlExamples {
  import opened Wrappers
  import opened YamlRename
  import opened YamlMeaning

  function Mapping(content: seq<nat>): Node {
    Node(MappingNode, "!!map", "", "", content, None)
  }

  ghost predicate IsText(node: Node, value: string, anchor: string) {
    node == StringNode(value).(anchor := anchor)
  }

  // ---------------------------------------------------------------------------------------------
  // An alias of an anchor called name
  // ---------------------------------------------------------------------------------------------

  /** prefix: &name debug
      *name : true
      name: real
      topology: {nodes: {}} */
  function AliasCalledName(): seq<Node> {
    [Node(DocumentNode, "", "", "", [1], None), Mapping([2, 3, 4, 5, 6, 7, 8, 9]),
     StringNode("prefix"), StringNode("debug").(anchor := "name"),
     Node(AliasNode, "", "name", "", [], Some(3)), Node(ScalarNode, "!!bool", "true", "", [], None),
     StringNode("name"), StringNode("real"),
     StringNode("topology"), Mapping([10, 11]), StringNode("nodes"), Mapping([])]
  }

  ghost predicate IsAliasCalledName(g: seq<Node>) {
    && |g| == 12
    && g[0] == Node(DocumentNode, "", "", "", [1], None) && g[1] == Mapping([2, 3, 4, 5, 6, 7, 8, 9])
    && IsText(g[2], "prefix", "") && IsText(g[3], "debug", "name")
    && g[4] == Node(AliasNode, "", "name", "", [], Some(3)) && g[5] == Node(ScalarNode, "!!bool", "true", "", [], None)
    && IsText(g[6], "name", "") && IsText(g[7], "real", "")
    && IsText(g[8], "topology", "") && g[9] == Mapping([10, 11]) && IsText(g[10], "nodes", "") && g[11] == Mapping([])
  }

  lemma AliasCalledNameExists()
    ensures IsAliasCalledName(AliasCalledName())
  {
  }

  lemma AliasCalledNameShape(g: seq<Node>)
    requires IsAliasCalledName(g)
    ensures |g| == 12 && g[0].content == [1] && g[1].content == [2, 3, 4, 5, 6, 7, 8, 9] && g[9].content == [10, 11]
    ensures g[0].kind.DocumentNode? && g[0].anchor == "" && g[1].kind.MappingNode?
    ensures g[4].alias == Some(3)
    ensures forall n | 2 <= n < 9 || 10 <= n < 12 :: g[n].content == []
  {
  }

  lemma LeafEnds(g: seq<Node>, n: nat)
    requires Ordered(g) && n < |g| && g[n].content == []
    ensures End(g, n) == n + 1
  {
  }

  lemma LastChildEnds(g: seq<Node>, n: nat)
    requires Ordered(g) && n < |g| && g[n].content != []
    ensures End(g, n) == End(g, g[n].content[|g[n].content| - 1])
  {
  }

  lemma AliasCalledNameIsTree(g: seq<Node>)
    requires |g| == 12 && g[0].content == [1] && g[1].content == [2, 3, 4, 5, 6, 7, 8, 9] && g[9].content == [10, 11]
    requires forall n | 2 <= n < 9 || 10 <= n < 12 :: g[n].content == []
    ensures IsTree(g) && End(g, 3) == 4
  {
    hide End;
    assert Ordered(g);
    forall n | 2 <= n < 9 || 10 <= n < 12 ensures End(g, n) == n + 1 {
      LeafEnds(g, n);
    }
    LastChildEnds(g, 9);
    LastChildEnds(g, 1);
    LastChildEnds(g, 0);
  }

  lemma AliasCalledNameNodes(g: seq<Node>, n: nat)
    requires IsAliasCalledName(g) && n < 12
    ensures NodeOk(g, n) && (n != 4 ==> g[n].alias == None)
  {
  }

  lemma AliasCalledNameParses(g: seq<Node>)
    requires IsAliasCalledName(g)
    ensures IsParsed(g) && HasRoot(g) && IsDecodable(g) && |g| == 12
    ensures g[0].content == [1] && g[1].content == [2, 3, 4, 5, 6, 7, 8, 9]
  {
    hide IsAliasCalledName;
    AliasCalledNameShape(g);
    AliasCalledNameIsTree(g);
    forall n: nat | n < |g| ensures NodeOk(g, n) && (n != 4 ==> g[n].alias == None) {
      AliasCalledNameNodes(g, n);
    }
  }

  /** The value of the key debug is overwritten, and the name stays what it was. */
  lemma AnotherKeyCanBeRenamed(g: seq<Node>, g': seq<Node>, name: string)
    requires IsAliasCalledName(g)
    requires IsParsed(g) && HasRoot(g) ==> IsResult(g, g', name)
    ensures IsParsed(g) && HasRoot(g) && IsDecodable(g)
    ensures NameSlot(g) == Some(3) && NameMeant(g) == Some(5) && !NameIsWrittenAsMeant(g)
    ensures |g'| >= 12 && g'[5] == StringNode(name) && g'[7] == StringNode("real")
  {
    hide IsAliasCalledName, IsRenamed, NodeOk, IsDecodable, IsWritten, IsMeant, ValueSlot, MeantSlot, FirstCandidate;
    AliasCalledNameParses(g);
    AliasCalledNameKeys(g);
    SecondKeyIsWritten(g, g[1].content, "name");
    ThirdKeyIsMeant(g, g[1].content, "name");
    OtherLeavesStay(g, g', 3, name, 7);
  }

  lemma OtherLeavesStay(g: seq<Node>, g': seq<Node>, slot: nat, name: string, n: nat)
    requires IsParsed(g) && HasRoot(g) && slot < |g[g[0].content[0]].content| && IsRenamed(g, g', slot, name)
    requires n < |g| && n != g[g[0].content[0]].content[slot] && g[n].content == []
    ensures |g| <= |g'| && g'[n] == g[n] && g[g[0].content[0]].content[slot] < |g'|
    ensures g'[g[g[0].content[0]].content[slot]] == StringNode(name)
  {
    assert IsDetached(g, g', g[g[0].content[0]].content[slot], n);
  }

  lemma AliasCalledNameKeys(g: seq<Node>)
    requires IsAliasCalledName(g)
    ensures !IsWritten(g, 2, "name") && !IsMeant(g, 2, "name")
    ensures IsWritten(g, 4, "name") && !IsMeant(g, 4, "name") && IsMeant(g, 6, "name")
    ensures g[7] == StringNode("real")
  {
    assert |"prefix"| != |"name"| && |"debug"| != |"name"|;
    assert Resolve(g, 2) == 2 && Resolve(g, 4) == 3 && Resolve(g, 6) == 6;
  }

  lemma SecondKeyIsWritten(g: seq<Node>, content: seq<nat>, key: string)
    requires |content| > 3 && forall i | 0 <= i < |content| :: content[i] < |g|
    requires !IsWritten(g, content[0], key) && !IsMeant(g, content[0], key) && IsWritten(g, content[2], key)
    ensures ValueSlot(g, content, key, 0) == Some(3) && FirstCandidate(g, content, key, 0) == Some(content[2])
  {
    assert ValueSlot(g, content, key, 2) == Some(3);
    assert FirstCandidate(g, content, key, 2) == Some(content[2]);
  }

  lemma ThirdKeyIsMeant(g: seq<Node>, content: seq<nat>, key: string)
    requires |content| > 5 && forall i | 0 <= i < |content| :: content[i] < |g|
    requires !IsMeant(g, content[0], key) && !IsMeant(g, content[2], key) && IsMeant(g, content[4], key)
    ensures MeantSlot(g, content, key, 0) == Some(5)
  {
    assert MeantSlot(g, content, key, 4) == Some(5);
    assert MeantSlot(g, content, key, 2) == Some(5);
  }

  // ---------------------------------------------------------------------------------------------
  // An alias of the word name
  // ---------------------------------------------------------------------------------------------

  /** prefix: &x name
      *x : real
      topology: {nodes: {}} */
  function AliasOfName(): seq<Node> {
    [Node(DocumentNode, "", "", "", [1], None), Mapping([2, 3, 4, 5, 6, 7]),
     StringNode("prefix"), StringNode("name").(anchor := "x"),
     Node(AliasNode, "", "x", "", [], Some(3)), StringNode("real"),
     StringNode("topology"), Mapping([8, 9]), StringNode("nodes"), Mapping([])]
  }

  ghost predicate IsAliasOfName(g: seq<Node>) {
    && |g| == 10
    && g[0] == Node(DocumentNode, "", "", "", [1], None) && g[1] == Mapping([2, 3, 4, 5, 6, 7])
    && IsText(g[2], "prefix", "") && IsText(g[3], "name", "x")
    && g[4] == Node(AliasNode, "", "x", "", [], Some(3)) && IsText(g[5], "real", "")
    && IsText(g[6], "topology", "") && g[7] == Mapping([8, 9]) && IsText(g[8], "nodes", "") && g[9] == Mapping([])
  }

  lemma AliasOfNameExists()
    ensures IsAliasOfName(AliasOfName())
  {
  }

  lemma AliasOfNameShape(g: seq<Node>)
    requires IsAliasOfName(g)
    ensures |g| == 10 && g[0].content == [1] && g[1].content == [2, 3, 4, 5, 6, 7] && g[7].content == [8, 9]
    ensures g[0].kind.DocumentNode? && g[0].anchor == "" && g[1].kind.MappingNode?
    ensures g[4].alias == Some(3)
    ensures forall n | 2 <= n < 7 || 8 <= n < 10 :: g[n].content == []
  {
  }

  lemma AliasOfNameIsTree(g: seq<Node>)
    requires |g| == 10 && g[0].content == [1] && g[1].content == [2, 3, 4, 5, 6, 7] && g[7].content == [8, 9]
    requires forall n | 2 <= n < 7 || 8 <= n < 10 :: g[n].content == []
    ensures IsTree(g) && End(g, 3) == 4
  {
    hide End;
    assert Ordered(g);
    forall n | 2 <= n < 7 || 8 <= n < 10 ensures End(g, n) == n + 1 {
      LeafEnds(g, n);
    }
    LastChildEnds(g, 7);
    LastChildEnds(g, 1);
    LastChildEnds(g, 0);
  }

  lemma AliasOfNameNodes(g: seq<Node>, n: nat)
    requires IsAliasOfName(g) && n < 10
    ensures NodeOk(g, n) && (n != 4 ==> g[n].alias == None)
  {
  }

  lemma AliasOfNameParses(g: seq<Node>)
    requires IsAliasOfName(g)
    ensures IsParsed(g) && HasRoot(g) && IsDecodable(g) && |g| == 10
    ensures g[0].content == [1] && g[1].content == [2, 3, 4, 5, 6, 7]
  {
    hide IsAliasOfName;
    AliasOfNameShape(g);
    AliasOfNameIsTree(g);
    forall n: nat | n < |g| ensures NodeOk(g, n) && (n != 4 ==> g[n].alias == None) {
      AliasOfNameNodes(g, n);
    }
  }

  /** The name is not found, and a second one is added. */
  lemma ASecondNameCanBeAdded(g: seq<Node>, g': seq<Node>, name: string)
    requires IsAliasOfName(g)
    requires IsParsed(g) && HasRoot(g) ==> IsResult(g, g', name)
    ensures IsParsed(g) && HasRoot(g) && IsDecodable(g)
    ensures NameSlot(g) == None && NameMeant(g) == Some(3) && !NameIsWrittenAsMeant(g)
    ensures IsNamed(g, g', name)
  {
    hide IsAliasOfName, NodeOk, IsDecodable, IsWritten, IsMeant, ValueSlot, MeantSlot, FirstCandidate;
    AliasOfNameParses(g);
    AliasOfNameKeys(g);
    SecondKeyIsOnlyMeant(g, g[1].content, "name");
  }

  lemma AliasOfNameKeys(g: seq<Node>)
    requires IsAliasOfName(g)
    ensures !IsWritten(g, 2, "name") && !IsMeant(g, 2, "name")
    ensures !IsWritten(g, 4, "name") && IsMeant(g, 4, "name") && !IsWritten(g, 6, "name")
  {
    assert |"prefix"| != |"name"| && |"x"| != |"name"| && |"topology"| != |"name"|;
    assert Resolve(g, 2) == 2 && Resolve(g, 4) == 3;
  }

  lemma SecondKeyIsOnlyMeant(g: seq<Node>, content: seq<nat>, key: string)
    requires |content| == 6 && forall i | 0 <= i < |content| :: content[i] < |g|
    requires !IsWritten(g, content[0], key) && !IsMeant(g, content[0], key)
    requires !IsWritten(g, content[2], key) && IsMeant(g, content[2], key) && !IsWritten(g, content[4], key)
    ensures ValueSlot(g, content, key, 0) == None && MeantSlot(g, content, key, 0) == Some(3)
    ensures FirstCandidate(g, content, key, 0) == Some(content[2])
  {
    assert ValueSlot(g, content, key, 6) == None;
    assert ValueSlot(g, content, key, 4) == None;
    assert ValueSlot(g, content, key, 2) == None;
    assert MeantSlot(g, content, key, 2) == Some(3);
    assert FirstCandidate(g, content, key, 2) == Some(content[2]);
  }
}
