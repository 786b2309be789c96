/** Renaming a topology definition by rewriting its YAML node graph in place.

    The nodes of a document live in one sequence and refer to each other by index, the way Go nodes
    refer to each other by pointer. Allocating a node appends it. The parser creates nodes in document
    order, so in a parsed document the index of a node is also its place in the text. */
module YamlRename {
  import opened Wrappers

  datatype Kind = DocumentNode | SequenceNode | MappingNode | ScalarNode | AliasNode

  /** The value of an alias is the name of the anchor it refers to. */
  datatype Node = Node(kind: Kind, tag: string, value: string, anchor: string, content: seq<nat>, alias: Option<nat>)

  function StringNode(value: string): Node {
    Node(ScalarNode, "!!str", value, "", [], None)
  }

  predicate IsAliasOf(g: seq<Node>, n: nat, target: nat) {
    n < |g| && g[n].kind.AliasNode? && g[n].alias == Some(target)
  }

  // ---------------------------------------------------------------------------------------------
  // Parsed documents
  // ---------------------------------------------------------------------------------------------

  /** Every child comes after its parent. */
  ghost predicate Ordered(g: seq<Node>) {
    forall n, i | 0 <= n < |g| && 0 <= i < |g[n].content| :: n < g[n].content[i] < |g|
  }

  /** The index after the last descendant of a node, if every child directly follows what comes before it. */
  ghost function End(g: seq<Node>, n: nat): (end: nat)
    requires Ordered(g) && n < |g|
    ensures n < end <= |g|
    decreases |g| - n
  {
    if g[n].content == [] then n + 1 else End(g, g[n].content[|g[n].content| - 1])
  }

  /** The index at which child i of a node starts, or the node ends. */
  ghost function Start(g: seq<Node>, n: nat, i: nat): nat
    requires Ordered(g) && n < |g| && i <= |g[n].content|
  {
    if i < |g[n].content| then g[n].content[i] else End(g, n)
  }

  /** Content forms one tree numbered in document order. */
  ghost predicate IsTree(g: seq<Node>) {
    && |g| > 0
    && Ordered(g)
    && End(g, 0) == |g|
    && (forall n | 0 <= n < |g| && g[n].content != [] :: g[n].content[0] == n + 1)
    && (forall n, i | 0 <= n < |g| && 0 <= i < |g[n].content| - 1 :: g[n].content[i + 1] == End(g, g[n].content[i]))
  }

  /** Aliases are leaves that refer to an earlier anchored node, which is not an alias itself. Scalars are leaves. */
  ghost predicate NodeOk(g: seq<Node>, n: nat)
    requires n < |g|
  {
    && (g[n].kind.AliasNode? <==> g[n].alias.Some?)
    && (g[n].kind.AliasNode? ==>
          g[n].anchor == "" && g[n].alias.value < n && g[g[n].alias.value].anchor != "")
    && (g[n].kind.AliasNode? || g[n].kind.ScalarNode? ==> g[n].content == [])
  }

  ghost predicate IsParsed(g: seq<Node>) {
    && IsTree(g)
    && g[0].kind.DocumentNode? && |g[0].content| <= 1 && g[0].anchor == ""
    && forall n | 0 <= n < |g| :: NodeOk(g, n)
  }

  /** The slot of a mapping that holds the value of a key, looking at the slots from the given one. */
  function ValueSlot(g: seq<Node>, content: seq<nat>, key: string, from: nat): (slot: Option<nat>)
    requires forall i | 0 <= i < |content| :: content[i] < |g|
    ensures slot.Some? ==> from < slot.value < |content| && g[content[slot.value - 1]].value == key
    decreases |content| - from
  {
    if from + 1 >= |content| then None
    else if g[content[from]].value == key then Some(from + 1)
    else ValueSlot(g, content, key, from + 2)
  }

  /** A mapping with a key set to a string: the anchor of a replaced value stays, a new key goes to the end. */
  function WithValue(g: seq<Node>, mapping: nat, key: string, value: string): seq<Node>
    requires mapping < |g|
    requires forall i | 0 <= i < |g[mapping].content| :: g[mapping].content[i] < |g|
  {
    match ValueSlot(g, g[mapping].content, key, 0)
    case Some(slot) =>
      var v := g[mapping].content[slot];
      g[v := StringNode(value).(anchor := g[v].anchor)]
    case None =>
      g[mapping := g[mapping].(content := g[mapping].content + [|g|, |g| + 1])] + [StringNode(key), StringNode(value)]
  }

  /** The document holds a mapping. */
  predicate HasRoot(g: seq<Node>) {
    && |g| > 0 && g[0].content != [] && g[0].content[0] < |g|
    && g[g[0].content[0]].kind.MappingNode?
  }

  ghost function NameSlot(g: seq<Node>): Option<nat>
    requires Ordered(g) && HasRoot(g)
  {
    ValueSlot(g, g[g[0].content[0]].content, "name", 0)
  }

  /** Nothing inside a node is an alias of it. */
  ghost predicate IsSeparate(g: seq<Node>, target: nat)
    requires Ordered(g) && target < |g|
  {
    forall m | target < m < End(g, target) :: !IsAliasOf(g, m, target)
  }

  /** The value of the name, if there is one, does not contain itself. */
  ghost predicate NameIsSeparate(g: seq<Node>)
    requires Ordered(g) && HasRoot(g)
  {
    NameSlot(g).Some? ==> IsSeparate(g, g[g[0].content[0]].content[NameSlot(g).value])
  }

  // ---------------------------------------------------------------------------------------------
  // What renaming does to the graph
  // ---------------------------------------------------------------------------------------------

  /** How many of the first nodes are aliases of the target. */
  ghost function Aliases(g: seq<Node>, target: nat, upTo: nat): nat {
    if upTo == 0 then 0 else Aliases(g, target, upTo - 1) + if IsAliasOf(g, upTo - 1, target) then 1 else 0
  }

  /** Node n of document g, after the aliases of the target among its children got copies of it. Copies come
      after the nodes of the document, in the order of the aliases, so every alias has its own. */
  ghost predicate IsDetached(g: seq<Node>, g': seq<Node>, target: nat, n: nat)
    requires n < |g| <= |g'|
  {
    && g'[n] == g[n].(content := g'[n].content)
    && |g'[n].content| == |g[n].content|
    && forall i | 0 <= i < |g[n].content| :: SlotIsDetached(g, g', target, n, i)
  }

  ghost predicate SlotIsDetached(g: seq<Node>, g': seq<Node>, target: nat, n: nat, i: nat)
    requires n < |g| <= |g'| && i < |g[n].content| == |g'[n].content|
  {
    var c := g[n].content[i];
    if IsAliasOf(g, c, target) then g'[n].content[i] == |g| + Aliases(g, target, c) < |g'|
    else g'[n].content[i] == c
  }

  /** Document g' is document g with the value in slot `slot` of its root replaced by a string, after
      everything that was an alias of that value got a copy of it. */
  ghost predicate IsRenamed(g: seq<Node>, g': seq<Node>, slot: nat, name: string)
    requires Ordered(g) && HasRoot(g) && slot < |g[g[0].content[0]].content|
  {
    var v := g[g[0].content[0]].content[slot];
    && |g'| == |g| + Aliases(g, v, |g|)
    && g'[v] == StringNode(name)
    && (forall n | 0 <= n < |g| && n != v :: IsDetached(g, g', v, n))
    && (forall n | |g| <= n < |g'| :: g'[n] == g[v].(anchor := ""))
  }

  /** Document g' is document g with a key and a value added at the end of its root. */
  ghost predicate IsNamed(g: seq<Node>, g': seq<Node>, name: string)
    requires HasRoot(g)
  {
    var r := g[0].content[0];
    g' == g[r := g[r].(content := g[r].content + [|g|, |g| + 1])] + [StringNode("name"), StringNode(name)]
  }

  // ---------------------------------------------------------------------------------------------
  // The operations
  // ---------------------------------------------------------------------------------------------

  lemma {:induction false} ChildEnds(g: seq<Node>, n: nat, i: nat)
    requires IsTree(g) && n < |g| && i < |g[n].content|
    ensures n < Start(g, n, i) < Start(g, n, i + 1) == End(g, g[n].content[i]) <= End(g, n)
    ensures i == 0 ==> Start(g, n, i) == n + 1
    decreases |g[n].content| - i
  {
    if i + 1 < |g[n].content| {
      ChildEnds(g, n, i + 1);
    }
  }

  lemma DetachedStays(g: seq<Node>, g1: seq<Node>, g2: seq<Node>, target: nat, n: nat)
    requires n < |g| <= |g1| <= |g2| && g2[n] == g1[n]
    requires IsDetached(g, g1, target, n)
    ensures IsDetached(g, g2, target, n)
  {
    forall i | 0 <= i < |g[n].content| ensures SlotIsDetached(g, g2, target, n, i) {
      assert SlotIsDetached(g, g1, target, n, i);
    }
  }

  /** The nodes outside the subtree of n are as when the call began, and so is what it has not reached yet. */
  ghost predicate IsFramed(g: seq<Node>, start: seq<Node>, nodes: seq<Node>, target: nat, n: nat, index: nat)
    requires IsParsed(g) && n < |g| && index <= |g[n].content| && target < |g|
  {
    && |start| <= |nodes|
    && (forall m | n <= m < End(g, n) && m < |start| :: start[m] == g[m])
    && (forall m | 0 <= m < |start| && m != n && !(n < m < Start(g, n, index)) :: nodes[m] == start[m])
    && (forall m | |start| <= m < |nodes| :: nodes[m] == g[target].(anchor := ""))
  }

  /** The first `index` children of node n are done. */
  ghost predicate SlotsAreDone(g: seq<Node>, nodes: seq<Node>, target: nat, n: nat, index: nat)
    requires n < |g| <= |nodes| && index <= |g[n].content|
  {
    && nodes[n] == g[n].(content := nodes[n].content) && |nodes[n].content| == |g[n].content|
    && (forall i | index <= i < |g[n].content| :: nodes[n].content[i] == g[n].content[i])
    && (forall i | 0 <= i < index :: SlotIsDetached(g, nodes, target, n, i))
  }

  /** How far DetachAliases has got with node n: the first `index` children and what is below them are
      done, and nothing else has changed since the call began with the nodes `start`. */
  ghost predicate Progress(g: seq<Node>, start: seq<Node>, nodes: seq<Node>, target: nat, n: nat, index: nat)
    requires IsParsed(g) && n < |g| && index <= |g[n].content| && target < |g|
  {
    && |start| == |g| + Aliases(g, target, n) <= |nodes| == |g| + Aliases(g, target, Start(g, n, index))
    && nodes[target] == g[target]
    && IsFramed(g, start, nodes, target, n, index)
    && SlotsAreDone(g, nodes, target, n, index)
    && (forall m | n < m < Start(g, n, index) && m < |g| :: IsDetached(g, nodes, target, m))
  }

  lemma FirstStart(g: seq<Node>, target: nat, n: nat)
    requires IsTree(g) && n < |g| && !IsAliasOf(g, n, target)
    ensures Start(g, n, 0) == n + 1 <= End(g, n)
    ensures Aliases(g, target, n + 1) == Aliases(g, target, n)
  {
  }

  lemma FrameBegins(g: seq<Node>, nodes: seq<Node>, target: nat, n: nat)
    requires IsParsed(g) && n < |g| <= |nodes| && target < |g| && Start(g, n, 0) == n + 1
    requires |nodes| == |g| + Aliases(g, target, n)
    requires forall m | n <= m < End(g, n) :: nodes[m] == g[m]
    ensures IsFramed(g, nodes, nodes, target, n, 0)
  {
  }

  lemma ProgressBegins(g: seq<Node>, nodes: seq<Node>, target: nat, n: nat)
    requires IsParsed(g) && n < |g| && target < |g| && !IsAliasOf(g, n, target)
    requires |nodes| == |g| + Aliases(g, target, n) && nodes[target] == g[target]
    requires forall m | n <= m < End(g, n) :: nodes[m] == g[m]
    ensures Progress(g, nodes, nodes, target, n, 0)
  {
    hide IsFramed, SlotsAreDone, NodeOk, Aliases, End;
    FirstStart(g, target, n);
    FrameBegins(g, nodes, target, n);
    assert nodes[n] == g[n];
    SlotsBegin(g, nodes, target, n);
    assert |nodes| == |g| + Aliases(g, target, Start(g, n, 0));
  }

  lemma SlotsBegin(g: seq<Node>, nodes: seq<Node>, target: nat, n: nat)
    requires n < |g| <= |nodes| && nodes[n] == g[n]
    ensures SlotsAreDone(g, nodes, target, n, 0)
  {
  }

  /** A new node, a copy of the target without its anchor, takes the place of a child of node n. */
  function WithCopy(nodes: seq<Node>, n: nat, index: nat, target: nat): seq<Node>
    requires n < |nodes| && index < |nodes[n].content| && target < |nodes|
  {
    (nodes + [nodes[target].(anchor := "")])[n := nodes[n].(content := nodes[n].content[index := |nodes|])]
  }

  lemma CopyFillsTheSlot(g: seq<Node>, nodes: seq<Node>, target: nat, n: nat, index: nat)
    requires n < |g| <= |nodes| && index < |g[n].content| && target < |nodes|
    requires IsAliasOf(g, g[n].content[index], target)
    requires SlotsAreDone(g, nodes, target, n, index) && |nodes| == |g| + Aliases(g, target, g[n].content[index])
    ensures SlotsAreDone(g, WithCopy(nodes, n, index, target), target, n, index + 1)
  {
    var nodes' := WithCopy(nodes, n, index, target);
    forall i | 0 <= i < index + 1 ensures SlotIsDetached(g, nodes', target, n, i) {
      if i < index {
        assert SlotIsDetached(g, nodes, target, n, i);
      }
    }
  }

  lemma CopyKeepsTheFrame(g: seq<Node>, start: seq<Node>, nodes: seq<Node>, target: nat, n: nat, index: nat)
    requires IsParsed(g) && n < |g| <= |start| <= |nodes| && index < |g[n].content| == |nodes[n].content|
    requires target < |g| && nodes[target] == g[target] && IsFramed(g, start, nodes, target, n, index)
    requires Start(g, n, index) < Start(g, n, index + 1)
    ensures IsFramed(g, start, WithCopy(nodes, n, index, target), target, n, index + 1)
    ensures forall m | 0 <= m < |start| && m != n :: WithCopy(nodes, n, index, target)[m] == nodes[m]
  {
  }

  lemma OnlyOthersAlias(g: seq<Node>, target: nat, n: nat, i: nat)
    requires IsTree(g) && n < |g| && i < |g[n].content| && target < |g| && IsSeparate(g, target)
    requires IsAliasOf(g, g[n].content[i], target)
    ensures n != target
  {
    ChildEnds(g, n, i);
  }

  lemma TargetStays(g: seq<Node>, nodes: seq<Node>, target: nat)
    requires IsTree(g) && target < |g| <= |nodes| && IsSeparate(g, target) && IsDetached(g, nodes, target, target)
    ensures nodes[target] == g[target]
  {
    forall i | 0 <= i < |g[target].content| ensures nodes[target].content[i] == g[target].content[i] {
      assert SlotIsDetached(g, nodes, target, target, i);
      ChildEnds(g, target, i);
    }
    assert nodes[target].content == g[target].content;
  }

  /** The child DetachAliases looks at next is still as it was parsed, and so is everything below it. */
  lemma NextChildIsUntouched(g: seq<Node>, start: seq<Node>, nodes: seq<Node>, target: nat, n: nat, index: nat)
    requires IsParsed(g) && n < |g| && index < |g[n].content| && target < |g|
    requires Progress(g, start, nodes, target, n, index)
    ensures |nodes[n].content| == |g[n].content| && nodes[n].content[index] == g[n].content[index]
    ensures var child := g[n].content[index];
            n < child < |g| && nodes[child] == g[child] && forall m | child <= m < End(g, child) :: nodes[m] == g[m]
  {
    ChildEnds(g, n, index);
    forall m | g[n].content[index] <= m < End(g, g[n].content[index]) ensures nodes[m] == g[m] {
      assert nodes[m] == start[m];
    }
  }

  lemma AliasIsLeaf(g: seq<Node>, target: nat, child: nat)
    requires IsParsed(g) && IsAliasOf(g, child, target)
    ensures g[child].content == [] && End(g, child) == child + 1
    ensures Aliases(g, target, child + 1) == Aliases(g, target, child) + 1
  {
    assert NodeOk(g, child);
  }

  lemma ReplacingMakesProgress(g: seq<Node>, start: seq<Node>, nodes: seq<Node>, target: nat, n: nat, index: nat)
    requires IsParsed(g) && n < |g| && index < |g[n].content| && target < |g| && IsSeparate(g, target)
    requires Progress(g, start, nodes, target, n, index)
    requires IsAliasOf(g, g[n].content[index], target)
    ensures Progress(g, start, WithCopy(nodes, n, index, target), target, n, index + 1)
  {
    hide NodeOk, IsFramed, SlotsAreDone, IsDetached, Aliases, End, IsSeparate;
    var child := g[n].content[index];
    ChildEnds(g, n, index);
    AliasIsLeaf(g, target, child);
    OnlyOthersAlias(g, target, n, index);
    NextChildIsUntouched(g, start, nodes, target, n, index);
    CopyFillsTheSlot(g, nodes, target, n, index);
    CopyKeepsTheFrame(g, start, nodes, target, n, index);
    BelowStaysDetached(g, nodes, WithCopy(nodes, n, index, target), target, n, child);
  }

  /** An alias is a leaf, so it joins what is done below node n as it is. */
  lemma BelowStaysDetached(g: seq<Node>, nodes: seq<Node>, nodes': seq<Node>, target: nat, n: nat, child: nat)
    requires n < child < |g| <= |nodes| <= |nodes'|
    requires forall m | n < m <= child :: nodes'[m] == nodes[m]
    requires forall m | n < m < child :: IsDetached(g, nodes, target, m)
    requires nodes[child] == g[child] && g[child].content == []
    ensures forall m | n < m < child + 1 :: IsDetached(g, nodes', target, m)
  {
    forall m | n < m < child + 1 ensures IsDetached(g, nodes', target, m) {
      if m < child {
        DetachedStays(g, nodes, nodes', target, m);
      }
    }
  }

  /** What a call for a child leaves behind. */
  ghost predicate IsAfterChild(g: seq<Node>, nodes: seq<Node>, after: seq<Node>, target: nat, child: nat)
    requires Ordered(g) && child < |g| <= |nodes| && target < |g|
  {
    && |nodes| <= |after| == |g| + Aliases(g, target, End(g, child))
    && (forall m | 0 <= m < |nodes| && !(child <= m < End(g, child)) :: after[m] == nodes[m])
    && (forall m | child <= m < End(g, child) :: IsDetached(g, after, target, m))
    && (forall m | |nodes| <= m < |after| :: after[m] == g[target].(anchor := ""))
  }

  lemma ChildKeepsTheFrame(g: seq<Node>, start: seq<Node>, nodes: seq<Node>, after: seq<Node>, target: nat, n: nat,
                           index: nat)
    requires IsParsed(g) && n < |g| <= |start| <= |nodes| && index < |g[n].content| && target < |g|
    requires n < Start(g, n, index) == g[n].content[index] && Start(g, n, index + 1) == End(g, g[n].content[index])
    requires IsFramed(g, start, nodes, target, n, index) && IsAfterChild(g, nodes, after, target, g[n].content[index])
    ensures IsFramed(g, start, after, target, n, index + 1)
  {
    hide IsDetached, NodeOk, Aliases;
  }

  lemma ChildFillsTheSlot(g: seq<Node>, nodes: seq<Node>, after: seq<Node>, target: nat, n: nat, index: nat)
    requires n < |g| <= |nodes| <= |after| && index < |g[n].content| && after[n] == nodes[n]
    requires SlotsAreDone(g, nodes, target, n, index) && !IsAliasOf(g, g[n].content[index], target)
    ensures SlotsAreDone(g, after, target, n, index + 1)
  {
    hide Aliases;
    forall i | 0 <= i < index + 1 ensures SlotIsDetached(g, after, target, n, i) {
      if i < index {
        assert SlotIsDetached(g, nodes, target, n, i);
      }
    }
  }

  lemma RecursionMakesProgress(g: seq<Node>, start: seq<Node>, nodes: seq<Node>, after: seq<Node>, target: nat,
                               n: nat, index: nat)
    requires IsParsed(g) && n < |g| && index < |g[n].content| && target < |g| && IsSeparate(g, target)
    requires Progress(g, start, nodes, target, n, index)
    requires !IsAliasOf(g, g[n].content[index], target)
    requires IsAfterChild(g, nodes, after, target, g[n].content[index])
    ensures Progress(g, start, after, target, n, index + 1)
  {
    hide Aliases, NodeOk, IsFramed, SlotsAreDone, IsDetached;
    var child := g[n].content[index];
    ChildEnds(g, n, index);
    ChildKeepsTheFrame(g, start, nodes, after, target, n, index);
    ChildFillsTheSlot(g, nodes, after, target, n, index);
    assert after[target] == g[target] by {
      if child <= target < End(g, child) {
        TargetStays(g, after, target);
      }
    }
    forall m | n < m < Start(g, n, index + 1) ensures IsDetached(g, after, target, m) {
      if m < child {
        DetachedStays(g, nodes, after, target, m);
      }
    }
  }

  lemma DoneIsDetached(g: seq<Node>, start: seq<Node>, nodes: seq<Node>, target: nat, n: nat)
    requires IsParsed(g) && n < |g| && target < |g|
    requires Progress(g, start, nodes, target, n, |g[n].content|)
    ensures |start| <= |nodes| == |g| + Aliases(g, target, End(g, n))
    ensures forall m | 0 <= m < |start| && !(n <= m < End(g, n)) :: nodes[m] == start[m]
    ensures forall m | n <= m < End(g, n) :: IsDetached(g, nodes, target, m)
    ensures forall m | |start| <= m < |nodes| :: nodes[m] == g[target].(anchor := "")
  {
    assert IsDetached(g, nodes, target, n);
  }

  lemma {:induction false} SlotStays(g: seq<Node>, g': seq<Node>, content: seq<nat>, content': seq<nat>,
                                     key: string, from: nat, slot: nat)
    requires forall i | 0 <= i < |content| :: content[i] < |g|
    requires |content'| == |content| && forall i | 0 <= i < |content'| :: content'[i] < |g'|
    requires ValueSlot(g, content, key, from) == Some(slot)
    requires forall i | 0 <= i < slot :: g'[content'[i]].value == g[content[i]].value
    ensures ValueSlot(g', content', key, from) == Some(slot)
    decreases |content| - from
  {
    if g[content[from]].value != key {
      SlotStays(g, g', content, content', key, from + 2, slot);
    }
  }

  /** Aliases come after what they refer to, so no key up to the name can be an alias of the name. */
  lemma DetachingKeepsTheSlot(g: seq<Node>, g': seq<Node>, slot: nat)
    requires IsParsed(g) && HasRoot(g) && NameSlot(g) == Some(slot) && |g| <= |g'|
    requires forall m | 0 <= m < |g| :: IsDetached(g, g', g[g[0].content[0]].content[slot], m)
    ensures g'[0] == g[0] && |g'[g[0].content[0]].content| == |g[g[0].content[0]].content|
    ensures var r := g[0].content[0];
            && g'[r].content[slot] == g[r].content[slot]
            && (forall i | 0 <= i < |g'[r].content| :: g'[r].content[i] < |g'|)
            && ValueSlot(g', g'[r].content, "name", 0) == Some(slot)
  {
    hide Aliases, End;
    var r := g[0].content[0];
    var v := g[r].content[slot];
    assert NodeOk(g, 0) && NodeOk(g, r) && NodeOk(g, v);
    assert IsDetached(g, g', v, 0) && IsDetached(g, g', v, r);
    assert SlotIsDetached(g, g', v, 0, 0);
    forall i | 0 <= i < |g[r].content|
      ensures g'[r].content[i] < |g'|
      ensures i <= slot ==> g'[r].content[i] == g[r].content[i]
    {
      assert SlotIsDetached(g, g', v, r, i);
      var c := g[r].content[i];
      assert NodeOk(g, c);
      if i <= slot {
        ContentIncreases(g, r, i, slot);
      }
    }
    forall i | 0 <= i < slot ensures g'[g'[r].content[i]].value == g[g[r].content[i]].value {
      assert IsDetached(g, g', v, g[r].content[i]);
    }
    SlotStays(g, g', g[r].content, g'[r].content, "name", 0, slot);
  }

  lemma {:induction false} NoAliases(g: seq<Node>, target: nat, upTo: nat)
    requires forall m | 0 <= m < upTo :: !IsAliasOf(g, m, target)
    ensures Aliases(g, target, upTo) == 0
  {
    if upTo > 0 {
      NoAliases(g, target, upTo - 1);
    }
  }

  lemma {:induction false} AliasesGrow(g: seq<Node>, target: nat, m: nat, n: nat)
    requires m <= n
    ensures Aliases(g, target, m) <= Aliases(g, target, n)
    ensures m < n && IsAliasOf(g, m, target) ==> Aliases(g, target, m) < Aliases(g, target, n)
    decreases n
  {
    if m < n {
      AliasesGrow(g, target, m, n - 1);
    }
  }

  /** Only anchored nodes have aliases. */
  lemma NothingToDetach(g: seq<Node>, v: nat)
    requires IsParsed(g) && v < |g| && g[v].anchor == ""
    ensures forall m | 0 <= m < |g| :: IsDetached(g, g, v, m)
    ensures Aliases(g, v, |g|) == 0
  {
    forall m | 0 <= m < |g| ensures !IsAliasOf(g, m, v) {
      assert NodeOk(g, m);
    }
    NoAliases(g, v, |g|);
    forall m, i | 0 <= m < |g| && 0 <= i < |g[m].content| ensures SlotIsDetached(g, g, v, m, i) {
      assert !IsAliasOf(g, g[m].content[i], v);
    }
  }

  /** The name is set where it was found before its aliases were detached and its anchor was removed. */
  lemma SettingReplaces(g: seq<Node>, detached: seq<Node>, cleared: seq<Node>, slot: nat, name: string)
    requires IsParsed(g) && HasRoot(g) && NameSlot(g) == Some(slot) && |g| <= |detached|
    requires var v := g[g[0].content[0]].content[slot];
             && (forall m | 0 <= m < |g| :: IsDetached(g, detached, v, m))
             && cleared == detached[v := detached[v].(anchor := "")]
    ensures var r := g[0].content[0];
            && r < |cleared| && (forall i | 0 <= i < |cleared[r].content| :: cleared[r].content[i] < |cleared|)
            && WithValue(cleared, r, "name", name) == detached[g[r].content[slot] := StringNode(name)]
  {
    hide IsDetached, IsTree, NodeOk;
    var r := g[0].content[0];
    DetachingKeepsTheSlot(g, detached, slot);
    SlotStays(detached, cleared, detached[r].content, cleared[r].content, "name", 0, slot);
  }

  lemma SettingRenames(g: seq<Node>, detached: seq<Node>, cleared: seq<Node>, slot: nat, name: string)
    requires IsParsed(g) && HasRoot(g) && NameSlot(g) == Some(slot)
    requires |detached| == |g| + Aliases(g, g[g[0].content[0]].content[slot], |g|)
    requires var v := g[g[0].content[0]].content[slot];
             && (forall m | 0 <= m < |g| :: IsDetached(g, detached, v, m))
             && (forall m | |g| <= m < |detached| :: detached[m] == g[v].(anchor := ""))
             && cleared == detached[v := detached[v].(anchor := "")]
    ensures var r := g[0].content[0];
            && r < |cleared| && (forall i | 0 <= i < |cleared[r].content| :: cleared[r].content[i] < |cleared|)
            && IsRenamed(g, WithValue(cleared, r, "name", name), slot, name)
  {
    hide WithValue, IsDetached, NodeOk, Aliases;
    SettingReplaces(g, detached, cleared, slot, name);
    var v := g[g[0].content[0]].content[slot];
    var g' := detached[v := StringNode(name)];
    forall m | 0 <= m < |g| && m != v ensures IsDetached(g, g', v, m) {
      DetachedStays(g, detached, g', v, m);
    }
  }

  /** Setting a name the root does not have. */
  lemma AddingNames(g: seq<Node>, name: string)
    requires IsParsed(g) && HasRoot(g) && NameSlot(g) == None
    ensures IsNamed(g, WithValue(g, g[0].content[0], "name", name), name)
  {
  }

  /** The document node is no alias, and what the root holds are nodes. */
  lemma RootIsInRange(g: seq<Node>)
    requires IsParsed(g)
    ensures Ordered(g) && g[0].kind.DocumentNode? && End(g, 0) == |g|
    ensures forall target :: Aliases(g, target, 0) == 0
    ensures g[0].content != [] ==>
              g[0].content[0] < |g| && forall i | 0 <= i < |g[g[0].content[0]].content| ::
                  g[g[0].content[0]].content[i] < |g|
  {
  }

  lemma {:induction false} ContentIncreases(g: seq<Node>, n: nat, i: nat, j: nat)
    requires IsTree(g) && n < |g| && i <= j < |g[n].content|
    ensures g[n].content[i] <= g[n].content[j]
    ensures i < j ==> End(g, g[n].content[i]) <= g[n].content[j]
    decreases j - i
  {
    if i < j {
      ChildEnds(g, n, i);
      ContentIncreases(g, n, i + 1, j);
    }
  }

  class Document {
    var nodes: seq<Node>

    constructor (nodes: seq<Node>)
      ensures this.nodes == nodes
    {
      this.nodes := nodes;
    }

    /** The slot that holds the value of a key. */
    method MappingValue(mapping: nat, key: string) returns (slot: Option<nat>)
      requires mapping < |nodes|
      requires forall i | 0 <= i < |nodes[mapping].content| :: nodes[mapping].content[i] < |nodes|
      ensures slot == ValueSlot(nodes, nodes[mapping].content, key, 0)
    {
      var content := nodes[mapping].content;
      var index := 0;
      while index + 1 < |content|
        invariant 0 <= index
        invariant ValueSlot(nodes, content, key, 0) == ValueSlot(nodes, content, key, index)
      {
        if nodes[content[index]].value == key {
          return Some(index + 1);
        }
        index := index + 2;
      }
      return None;
    }

    /** Works on the subtree of node n, which is still as it was in the parsed document g. */
    method DetachAliases(n: nat, target: nat, ghost g: seq<Node>)
      requires IsParsed(g) && n < |g| && target < |g| && !IsAliasOf(g, n, target)
      requires |nodes| == |g| + Aliases(g, target, n)
      requires IsSeparate(g, target) && nodes[target] == g[target]
      requires forall m | n <= m < End(g, n) :: nodes[m] == g[m]
      modifies this
      ensures |old(nodes)| <= |nodes| == |g| + Aliases(g, target, End(g, n))
      ensures forall m | 0 <= m < |old(nodes)| && !(n <= m < End(g, n)) :: nodes[m] == old(nodes)[m]
      ensures forall m | n <= m < End(g, n) :: IsDetached(g, nodes, target, m)
      ensures forall m | |old(nodes)| <= m < |nodes| :: nodes[m] == g[target].(anchor := "")
      decreases |g| - n
    {
      hide IsFramed, IsDetached, SlotIsDetached, Aliases, NodeOk;
      ghost var start := nodes;
      ProgressBegins(g, nodes, target, n);
      var index := 0;
      while index < |nodes[n].content|
        invariant 0 <= index <= |g[n].content|
        invariant Progress(g, start, nodes, target, n, index)
      {
        NextChildIsUntouched(g, start, nodes, target, n, index);
        var child := nodes[n].content[index];
        ghost var before := nodes;
        if nodes[child].kind.AliasNode? && nodes[child].alias == Some(target) {
          ReplacingMakesProgress(g, start, nodes, target, n, index);
          nodes := WithCopy(nodes, n, index, target);
        } else {
          DetachAliases(child, target, g);
          RecursionMakesProgress(g, start, before, nodes, target, n, index);
        }
        index := index + 1;
      }
      DoneIsDetached(g, start, nodes, target, n);
    }

    /** Sets a key of a mapping to a string, adding the key if the mapping does not have it. */
    method SetMappingValue(mapping: nat, key: string, value: string)
      requires mapping < |nodes|
      requires forall i | 0 <= i < |nodes[mapping].content| :: nodes[mapping].content[i] < |nodes|
      modifies this
      ensures nodes == WithValue(old(nodes), mapping, key, value)
    {
      var slot := MappingValue(mapping, key);
      if slot.Some? {
        var v := nodes[mapping].content[slot.value];
        nodes := nodes[v := nodes[v].(kind := ScalarNode)];
        nodes := nodes[v := nodes[v].(tag := "!!str")];
        nodes := nodes[v := nodes[v].(value := value)];
        nodes := nodes[v := nodes[v].(content := [])];
        nodes := nodes[v := nodes[v].(alias := None)];
        return;
      }
      nodes := nodes + [StringNode(key), StringNode(value)];
      nodes := nodes[mapping := nodes[mapping].(content := nodes[mapping].content + [|nodes| - 2, |nodes| - 1])];
    }

    /** Gives the topology a name, or fails if the document holds no mapping. */
    method Rename(name: string) returns (ok: bool)
      requires IsParsed(nodes) && (HasRoot(nodes) ==> NameIsSeparate(nodes))
      modifies this
      ensures ok <==> old(HasRoot(nodes))
      ensures !ok ==> nodes == old(nodes)
      ensures ok && old(NameSlot(nodes)).Some? ==> IsRenamed(old(nodes), nodes, old(NameSlot(nodes)).value, name)
      ensures ok && old(NameSlot(nodes)).None? ==> IsNamed(old(nodes), nodes, name)
    {
      hide IsParsed, Ordered, IsDetached, Aliases, IsRenamed, IsNamed, WithValue, IsSeparate, End;
      ghost var g := nodes;
      RootIsInRange(g);
      if nodes[0].content == [] || !nodes[nodes[0].content[0]].kind.MappingNode? {
        return false;
      }
      var root := nodes[0].content[0];
      var slot := MappingValue(root, "name");
      if slot.Some? {
        var v := nodes[root].content[slot.value];
        ghost var detached := nodes;
        if nodes[v].anchor != "" {
          DetachAliases(0, v, g);
          detached := nodes;
          nodes := nodes[v := nodes[v].(anchor := "")];
        } else {
          NothingToDetach(g, v);
        }
        SettingRenames(g, detached, nodes, slot.value, name);
      }
      if slot.None? {
        AddingNames(g, name);
      }
      SetMappingValue(root, "name", name);
      return true;
    }
  }
}
