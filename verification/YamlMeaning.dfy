/** What a renamed topology means: its tree after every alias is expanded, and what its aliases refer to
    when the text is read again. */
module YamlMeaning {
  import opened Wrappers
  import opened YamlRename

  // ---------------------------------------------------------------------------------------------
  // Meaning
  // ---------------------------------------------------------------------------------------------

  /** The expansion of a document down to some depth. A node may refer to a node around it, so the full
      expansion can be infinite: two documents mean the same if they agree at every depth. */
  datatype Tree = Cut | Tree(kind: Kind, tag: string, value: string, children: seq<Tree>)

  ghost function Resolve(g: seq<Node>, n: nat): (m: nat)
    requires n < |g|
    ensures m < |g|
  {
    if g[n].alias.Some? && g[n].alias.value < |g| then g[n].alias.value else n
  }

  ghost predicate InRange(g: seq<Node>) {
    forall n, i | 0 <= n < |g| && 0 <= i < |g[n].content| :: g[n].content[i] < |g|
  }

  ghost function Expand(g: seq<Node>, depth: nat, n: nat): Tree
    requires InRange(g) && n < |g|
    decreases depth, 0
  {
    if depth == 0 then Cut
    else
      var m := Resolve(g, n);
      Tree(g[m].kind, g[m].tag, g[m].value, ExpandChildren(g, depth - 1, m))
  }

  ghost function ExpandChildren(g: seq<Node>, depth: nat, m: nat): (trees: seq<Tree>)
    requires InRange(g) && m < |g|
    ensures |trees| == |g[m].content|
    ensures forall i | 0 <= i < |trees| :: trees[i] == Expand(g, depth, g[m].content[i])
    decreases depth, 1
  {
    seq(|g[m].content|, i requires 0 <= i < |g[m].content| => Expand(g, depth, g[m].content[i]))
  }

  function Text(depth: nat, value: string): Tree {
    if depth == 0 then Cut else Tree(ScalarNode, "!!str", value, [])
  }

  /** The expansion of a document down to some depth, with another name in its root. */
  function WithName(document: Tree, depth: nat, slot: nat, name: string): Tree {
    if depth < 3 || document.Cut? || document.children == [] || document.children[0].Cut?
       || slot >= |document.children[0].children|
    then document
    else
      var root := document.children[0];
      document.(children := [root.(children := root.children[slot := Text(depth - 2, name)])])
  }

  /** The expansion of a document down to some depth, with a name added to its root. */
  function WithNewName(document: Tree, depth: nat, name: string): Tree {
    if depth < 2 || document.Cut? || document.children == [] || document.children[0].Cut? then document
    else
      var root := document.children[0];
      document.(children := [root.(children := root.children + [Text(depth - 2, "name"), Text(depth - 2, name)])])
  }

  /** The name already is the given string. */
  ghost predicate AlreadyNamed(g: seq<Node>, v: nat, name: string)
    requires v < |g|
  {
    var m := Resolve(g, v);
    g[m].kind.ScalarNode? && g[m].tag == "!!str" && g[m].value == name
  }

  // ---------------------------------------------------------------------------------------------
  // The shape of a parsed document
  // ---------------------------------------------------------------------------------------------

  /** The child of node n that node m is, or is below. */
  lemma {:induction false} ChildAbove(g: seq<Node>, n: nat, m: nat, i: nat) returns (j: nat)
    requires IsTree(g) && n < |g| && i <= |g[n].content| && Start(g, n, i) <= m < End(g, n)
    ensures i <= j < |g[n].content| && g[n].content[j] <= m < End(g, g[n].content[j])
    decreases |g[n].content| - i
  {
    ChildEnds(g, n, i);
    if m < Start(g, n, i + 1) {
      j := i;
    } else {
      j := ChildAbove(g, n, m, i + 1);
    }
  }

  /** Nodes are nested in each other or apart. */
  lemma {:induction false} EndsNest(g: seq<Node>, n: nat, m: nat)
    requires IsTree(g) && n <= m < |g| && m < End(g, n)
    ensures End(g, m) <= End(g, n)
    decreases m - n
  {
    if n < m {
      var j := ChildBelow(g, n, m);
      ChildEnds(g, n, j);
      EndsNest(g, g[n].content[j], m);
    }
  }

  lemma ChildBelow(g: seq<Node>, n: nat, m: nat) returns (j: nat)
    requires IsTree(g) && n < m < |g| && m < End(g, n)
    ensures j < |g[n].content| && n < g[n].content[j] <= m < End(g, g[n].content[j])
  {
    assert g[n].content != [];
    j := ChildAbove(g, n, m, 0);
  }

  /** Every node but the first is a child of another. */
  lemma {:induction false} HasParent(g: seq<Node>, n: nat, m: nat) returns (p: nat, i: nat)
    requires IsTree(g) && n < m < |g| && m < End(g, n)
    ensures n <= p < m && i < |g[p].content| && g[p].content[i] == m
    decreases m - n
  {
    i := ChildBelow(g, n, m);
    p := n;
    if g[n].content[i] != m {
      p, i := HasParent(g, g[n].content[i], m);
    }
  }

  /** The nodes of a pair expand to the same kind of node, and their children are pairs as well. */
  ghost predicate IsMatch(g: seq<Node>, g': seq<Node>, pairs: iset<(nat, nat)>, n: nat, n': nat) {
    && n < |g| && n' < |g'|
    && var (m, m') := (Resolve(g, n), Resolve(g', n'));
    && g[m].kind == g'[m'].kind && g[m].tag == g'[m'].tag && g[m].value == g'[m'].value
    && |g[m].content| == |g'[m'].content|
    && forall i | 0 <= i < |g[m].content| :: (g[m].content[i], g'[m'].content[i]) in pairs
  }

  /** Nodes matched with each other all the way down have the same expansion. */
  lemma {:induction false} MatchesExpandAlike(g: seq<Node>, g': seq<Node>, pairs: iset<(nat, nat)>, depth: nat,
                                              n: nat, n': nat)
    requires InRange(g) && InRange(g')
    requires forall p | p in pairs :: IsMatch(g, g', pairs, p.0, p.1)
    requires (n, n') in pairs
    ensures n < |g| && n' < |g'| && Expand(g, depth, n) == Expand(g', depth, n')
    decreases depth
  {
    assert IsMatch(g, g', pairs, n, n');
    if depth > 0 {
      var (m, m') := (Resolve(g, n), Resolve(g', n'));
      forall i | 0 <= i < |g[m].content|
        ensures Expand(g, depth - 1, g[m].content[i]) == Expand(g', depth - 1, g'[m'].content[i])
      {
        MatchesExpandAlike(g, g', pairs, depth - 1, g[m].content[i], g'[m'].content[i]);
      }
      assert ExpandChildren(g, depth - 1, m) == ExpandChildren(g', depth - 1, m');
    }
  }

  // ---------------------------------------------------------------------------------------------
  // Renaming preserves the meaning
  // ---------------------------------------------------------------------------------------------

  ghost predicate CanRename(g: seq<Node>, slot: nat) {
    IsParsed(g) && HasRoot(g) && NameIsSeparate(g) && NameSlot(g) == Some(slot)
  }

  ghost function NameNode(g: seq<Node>, slot: nat): (v: nat)
    requires CanRename(g, slot)
    ensures 2 < v < |g| && IsSeparate(g, v)
    ensures slot < |g[1].content| && g[0].content == [1] && g[1].content[slot] == v && End(g, 1) == |g|
  {
    assert NodeOk(g, 1);
    ChildEnds(g, 0, 0);
    ContentIncreases(g, 1, 0, slot);
    g[g[0].content[0]].content[slot]
  }

  lemma RenamedStaysInRange(g: seq<Node>, g': seq<Node>, slot: nat, name: string)
    requires CanRename(g, slot) && IsRenamed(g, g', slot, name)
    ensures InRange(g')
  {
    var v := NameNode(g, slot);
    forall n, i | 0 <= n < |g'| && 0 <= i < |g'[n].content| ensures g'[n].content[i] < |g'| {
      if n < |g| && n != v {
        assert IsDetached(g, g', v, n);
        assert SlotIsDetached(g, g', v, n, i);
      }
    }
  }

  lemma InsideIsNoAlias(g: seq<Node>, slot: nat, i: nat)
    requires CanRename(g, slot) && i < |g[NameNode(g, slot)].content|
    ensures NameNode(g, slot) < g[NameNode(g, slot)].content[i] < |g|
    ensures !IsAliasOf(g, g[NameNode(g, slot)].content[i], NameNode(g, slot))
  {
    ChildEnds(g, NameNode(g, slot), i);
  }

  /** No alias is left that refers to the node that got the new name. */
  lemma NoAliasOfTheName(g: seq<Node>, g': seq<Node>, slot: nat, name: string, n: nat, i: nat)
    requires CanRename(g, slot) && IsRenamed(g, g', slot, name)
    requires n < |g'| && i < |g'[n].content|
    ensures !IsAliasOf(g', g'[n].content[i], NameNode(g, slot))
  {
    var v := NameNode(g, slot);
    if n < |g| && n != v {
      assert IsDetached(g, g', v, n);
      assert SlotIsDetached(g, g', v, n, i);
      var c := g[n].content[i];
      assert NodeOk(g, c) && NodeOk(g, v);
      if c != v && !IsAliasOf(g, c, v) {
        assert IsDetached(g, g', v, c);
      }
    } else if n >= |g| {
      InsideIsNoAlias(g, slot, i);
      assert IsDetached(g, g', v, g[v].content[i]);
    }
  }

  /** Every alias of the name became a copy of its own, with the old value and without the anchor. */
  lemma EveryAliasGetsItsOwnCopy(g: seq<Node>, g': seq<Node>, slot: nat, name: string, n: nat, i: nat, m: nat, j: nat)
    requires CanRename(g, slot) && IsRenamed(g, g', slot, name)
    requires n < |g| && i < |g[n].content| && m < |g| && j < |g[m].content|
    requires IsAliasOf(g, g[n].content[i], NameNode(g, slot)) && IsAliasOf(g, g[m].content[j], NameNode(g, slot))
    ensures |g'[n].content| == |g[n].content| && |g'[m].content| == |g[m].content|
    ensures |g| <= g'[n].content[i] < |g'| && g'[g'[n].content[i]] == g[NameNode(g, slot)].(anchor := "")
    ensures g'[n].content[i] == g'[m].content[j] ==> g[n].content[i] == g[m].content[j]
  {
    var v := NameNode(g, slot);
    var (c, d) := (g[n].content[i], g[m].content[j]);
    OnlyOthersAlias(g, v, n, i);
    OnlyOthersAlias(g, v, m, j);
    assert IsDetached(g, g', v, n) && SlotIsDetached(g, g', v, n, i);
    assert IsDetached(g, g', v, m) && SlotIsDetached(g, g', v, m, j);
    AliasesGrow(g, v, if c < d then c else d, if c < d then d else c);
  }

  /** The name is a child of the root only. */
  lemma NameIsNotBelow(g: seq<Node>, slot: nat, m: nat, i: nat)
    requires CanRename(g, slot) && 2 <= m < |g| && i < |g[m].content|
    ensures g[m].content[i] != NameNode(g, slot)
  {
    var v := NameNode(g, slot);
    var j := ChildBelow(g, 1, m);
    EndsNest(g, g[1].content[j], m);
    ChildEnds(g, m, i);
    if j < slot {
      ContentIncreases(g, 1, j, slot);
    } else if slot < j {
      ContentIncreases(g, 1, slot, j);
    }
  }

  lemma NameExpandsTo(g: seq<Node>, slot: nat, name: string, depth: nat)
    requires CanRename(g, slot)
    ensures AlreadyNamed(g, NameNode(g, slot), name) ==> Expand(g, depth, NameNode(g, slot)) == Text(depth, name)
    ensures depth > 0 && Expand(g, depth, NameNode(g, slot)) == Text(depth, name)
            ==> AlreadyNamed(g, NameNode(g, slot), name)
  {
    assert NodeOk(g, Resolve(g, NameNode(g, slot)));
  }

  /** The only alias of the root, if there is one, is the name itself. */
  ghost predicate RootIsNotShared(g: seq<Node>, slot: nat)
    requires CanRename(g, slot)
  {
    forall n | 0 <= n < |g| && n != NameNode(g, slot) :: !IsAliasOf(g, n, 1)
  }

  /** What becomes of the nodes of a document: aliases of the name become copies of it, all others stay.
      The root, which loses its old name, is left out unless the name stays the same. */
  ghost function Kept(g: seq<Node>, g': seq<Node>, slot: nat, name: string): iset<(nat, nat)>
    requires CanRename(g, slot)
  {
    iset p: (nat, nat) | p.0 < |g| && p.1 < |g'| && IsKept(g, slot, name, p.0, p.1)
  }

  ghost predicate IsKept(g: seq<Node>, slot: nat, name: string, n: nat, n': nat)
    requires CanRename(g, slot) && n < |g|
  {
    var v := NameNode(g, slot);
    if IsAliasOf(g, n, v) then n' >= |g|
    else n' == n && (AlreadyNamed(g, v, name) || (n >= 2 && n != v))
  }

  lemma CopyMatches(g: seq<Node>, g': seq<Node>, slot: nat, name: string, n: nat, n': nat)
    requires CanRename(g, slot) && IsRenamed(g, g', slot, name)
    requires IsAliasOf(g, n, NameNode(g, slot)) && |g| <= n' < |g'|
    ensures IsMatch(g, g', Kept(g, g', slot, name), n, n')
  {
    var v := NameNode(g, slot);
    assert NodeOk(g, n) && NodeOk(g, v);
    assert g'[n'] == g[v].(anchor := "");
    forall i | 0 <= i < |g[v].content| ensures (g[v].content[i], g[v].content[i]) in Kept(g, g', slot, name) {
      InsideIsNoAlias(g, slot, i);
    }
  }

  lemma ChildIsKept(g: seq<Node>, g': seq<Node>, slot: nat, name: string, m: nat, i: nat)
    requires CanRename(g, slot) && IsRenamed(g, g', slot, name)
    requires m < |g| && m != NameNode(g, slot) && i < |g[m].content|
    requires AlreadyNamed(g, NameNode(g, slot), name) || m >= 2 || (m == 1 && i != slot)
    ensures g'[m] == g[m].(content := g'[m].content) && |g'[m].content| == |g[m].content|
    ensures (g[m].content[i], g'[m].content[i]) in Kept(g, g', slot, name)
  {
    var v := NameNode(g, slot);
    assert IsDetached(g, g', v, m) && SlotIsDetached(g, g', v, m, i);
    if m >= 2 {
      NameIsNotBelow(g, slot, m, i);
    } else if m == 1 && i < slot {
      ContentIncreases(g, 1, i, slot);
    } else if m == 1 && slot < i {
      ContentIncreases(g, 1, slot, i);
    }
  }

  lemma KeptMatches(g: seq<Node>, g': seq<Node>, slot: nat, name: string, n: nat)
    requires CanRename(g, slot) && IsRenamed(g, g', slot, name)
    requires n < |g| && !IsAliasOf(g, n, NameNode(g, slot)) && IsKept(g, slot, name, n, n)
    requires AlreadyNamed(g, NameNode(g, slot), name) || RootIsNotShared(g, slot)
    ensures IsMatch(g, g', Kept(g, g', slot, name), n, n)
  {
    var v := NameNode(g, slot);
    var m := Resolve(g, n);
    assert NodeOk(g, n) && NodeOk(g, m) && NodeOk(g, 0);
    if n != v {
      assert IsDetached(g, g', v, n) && IsDetached(g, g', v, m);
      if RootIsNotShared(g, slot) {
        assert !IsAliasOf(g, n, 1);
      }
      forall i | 0 <= i < |g[m].content| ensures (g[m].content[i], g'[m].content[i]) in Kept(g, g', slot, name) {
        ChildIsKept(g, g', slot, name, m, i);
      }
    }
  }

  lemma AllKeptMatch(g: seq<Node>, g': seq<Node>, slot: nat, name: string)
    requires CanRename(g, slot) && IsRenamed(g, g', slot, name)
    requires AlreadyNamed(g, NameNode(g, slot), name) || RootIsNotShared(g, slot)
    ensures forall p | p in Kept(g, g', slot, name) :: IsMatch(g, g', Kept(g, g', slot, name), p.0, p.1)
  {
    forall p | p in Kept(g, g', slot, name) ensures IsMatch(g, g', Kept(g, g', slot, name), p.0, p.1) {
      if IsAliasOf(g, p.0, NameNode(g, slot)) {
        CopyMatches(g, g', slot, name, p.0, p.1);
      } else {
        KeptMatches(g, g', slot, name, p.0);
      }
    }
  }

  /** The renamed document means what the document means with another name in its root. */
  ghost predicate OnlyTheNameChanges(g: seq<Node>, g': seq<Node>, slot: nat, name: string)
    requires Ordered(g) && |g| > 0 && InRange(g') && |g'| > 0
  {
    forall depth: nat :: Expand(g', depth, 0) == WithName(Expand(g, depth, 0), depth, slot, name)
  }

  function Document(document: Node, root: Node, entries: seq<Tree>): Tree {
    Tree(document.kind, document.tag, document.value, [Tree(root.kind, root.tag, root.value, entries)])
  }

  lemma DocumentWithName(document: Node, root: Node, entries: seq<Tree>, depth: nat, slot: nat, name: string)
    requires slot < |entries| && depth > 1
    ensures depth == 2 ==>
              WithName(Document(document, root, entries), depth, slot, name) == Document(document, root, entries)
    ensures depth > 2 ==> WithName(Document(document, root, entries), depth, slot, name)
                          == Document(document, root, entries[slot := Text(depth - 2, name)])
  {
  }

  lemma RenamedExpandsTo(g: seq<Node>, g': seq<Node>, slot: nat, name: string, depth: nat)
    requires CanRename(g, slot) && IsRenamed(g, g', slot, name) && InRange(g')
    requires AlreadyNamed(g, NameNode(g, slot), name) || RootIsNotShared(g, slot)
    ensures Expand(g', depth, 0) == WithName(Expand(g, depth, 0), depth, slot, name)
  {
    RootsExpand(g, g', slot, name, depth);
    if depth >= 3 {
      RenamedChildrenExpandTo(g, g', slot, name, depth - 2);
    }
    if depth >= 2 {
      var v := NameNode(g, slot);
      DocumentWithName(g[0], g[1], ExpandChildren(g, depth - 2, 1), depth, slot, name);
    }
  }

  lemma RenamedChildrenExpandTo(g: seq<Node>, g': seq<Node>, slot: nat, name: string, depth: nat)
    requires CanRename(g, slot) && IsRenamed(g, g', slot, name) && InRange(g')
    requires AlreadyNamed(g, NameNode(g, slot), name) || RootIsNotShared(g, slot)
    requires |g[1].content| == |g'[1].content|
    ensures |ExpandChildren(g, depth, 1)| > slot
    ensures ExpandChildren(g', depth, 1) == ExpandChildren(g, depth, 1)[slot := Text(depth, name)]
  {
    hide RootIsNotShared, NodeOk, IsDetached;
    var v := NameNode(g, slot);
    forall i | 0 <= i < |g[1].content|
      ensures Expand(g', depth, g'[1].content[i])
              == (if i == slot then Text(depth, name) else Expand(g, depth, g[1].content[i]))
    {
      RenamedChildExpandsTo(g, g', slot, name, depth, i);
    }
  }

  lemma RenamedChildExpandsTo(g: seq<Node>, g': seq<Node>, slot: nat, name: string, depth: nat, i: nat)
    requires CanRename(g, slot) && IsRenamed(g, g', slot, name) && InRange(g')
    requires AlreadyNamed(g, NameNode(g, slot), name) || RootIsNotShared(g, slot)
    requires i < |g[1].content| == |g'[1].content|
    ensures Expand(g', depth, g'[1].content[i]) ==
              if i == slot then Text(depth, name) else Expand(g, depth, g[1].content[i])
  {
    if i == slot {
      NameNodeStays(g, g', slot, name);
    } else {
      ChildIsKept(g, g', slot, name, 1, i);
      AllKeptMatch(g, g', slot, name);
      MatchesExpandAlike(g, g', Kept(g, g', slot, name), depth, g[1].content[i], g'[1].content[i]);
    }
  }

  lemma NameNodeStays(g: seq<Node>, g': seq<Node>, slot: nat, name: string)
    requires CanRename(g, slot) && IsRenamed(g, g', slot, name)
    ensures slot < |g'[1].content| && g'[1].content[slot] == NameNode(g, slot)
    ensures g'[NameNode(g, slot)] == StringNode(name)
  {
    var v := NameNode(g, slot);
    assert NodeOk(g, v);
    assert IsDetached(g, g', v, 1) && SlotIsDetached(g, g', v, 1, slot);
  }

  lemma RootsStay(g: seq<Node>, g': seq<Node>, slot: nat, name: string)
    requires CanRename(g, slot) && IsRenamed(g, g', slot, name)
    ensures g[0].alias == None && g[1].alias == None && g[0].content == [1]
    ensures g'[0] == g[0] && g'[1] == g[1].(content := g'[1].content) && |g'[1].content| == |g[1].content|
  {
    var v := NameNode(g, slot);
    assert NodeOk(g, 0) && NodeOk(g, 1);
    assert IsDetached(g, g', v, 0) && SlotIsDetached(g, g', v, 0, 0);
    assert IsDetached(g, g', v, 1);
  }

  /** The two upper levels of a document. */
  lemma RootExpands(g: seq<Node>, depth: nat)
    requires |g| > 1 && InRange(g) && g[0].content == [1]
    requires g[0].alias == None && g[1].alias == None
    ensures depth > 1 ==> Expand(g, depth, 0) == Document(g[0], g[1], ExpandChildren(g, depth - 2, 1))
  {
    if depth > 1 {
      assert ExpandChildren(g, depth - 1, 0) == [Expand(g, depth - 1, 1)];
    }
  }

  /** The two upper levels of a document and of the renamed one. */
  lemma RootsExpand(g: seq<Node>, g': seq<Node>, slot: nat, name: string, depth: nat)
    requires CanRename(g, slot) && IsRenamed(g, g', slot, name) && InRange(g')
    ensures |g'[1].content| == |g[1].content|
    ensures depth == 1 ==> Expand(g', depth, 0) == Expand(g, depth, 0)
    ensures depth > 1 ==> Expand(g, depth, 0) == Document(g[0], g[1], ExpandChildren(g, depth - 2, 1))
    ensures depth > 1 ==> Expand(g', depth, 0) == Document(g[0], g[1], ExpandChildren(g', depth - 2, 1))
    ensures depth == 2 ==> ExpandChildren(g', 0, 1) == ExpandChildren(g, 0, 1)
  {
    hide IsDetached, Aliases, NodeOk;
    RootsStay(g, g', slot, name);
    RootExpands(g, depth);
    RootExpands(g', depth);
  }

  /** A difference at a node makes a difference at its parent. */
  lemma DifferenceRises(g: seq<Node>, g': seq<Node>, slot: nat, name: string, depth: nat, p: nat, i: nat)
    requires CanRename(g, slot) && IsRenamed(g, g', slot, name) && InRange(g')
    requires p < |g| && i < |g[p].content| && g[p].content[i] != NameNode(g, slot)
    requires !IsAliasOf(g, g[p].content[i], NameNode(g, slot))
    requires g[NameNode(g, slot)].content == []
    requires Expand(g', depth, g[p].content[i]) != Expand(g, depth, g[p].content[i])
    ensures p != NameNode(g, slot) && !IsAliasOf(g, p, NameNode(g, slot))
    ensures |g'[p].content| == |g[p].content| && g'[p].content[i] == g[p].content[i]
    ensures Expand(g', depth + 1, p) != Expand(g, depth + 1, p)
  {
    var v := NameNode(g, slot);
    assert NodeOk(g, p) && NodeOk(g, v);
    assert IsDetached(g, g', v, p) && SlotIsDetached(g, g', v, p, i);
    assert ExpandChildren(g', depth, p)[i] != ExpandChildren(g, depth, p)[i];
  }

  lemma EntryDiffers(g: seq<Node>, g': seq<Node>, slot: nat, name: string, depth: nat, i: nat)
    requires CanRename(g, slot) && IsRenamed(g, g', slot, name) && InRange(g')
    requires i < |g[1].content| == |g'[1].content| && i != slot
    requires Expand(g', depth, g'[1].content[i]) != Expand(g, depth, g[1].content[i])
    ensures Expand(g', depth + 2, 0) != WithName(Expand(g, depth + 2, 0), depth + 2, slot, name)
  {
    var v := NameNode(g, slot);
    var entries, entries' := ExpandChildren(g, depth, 1), ExpandChildren(g', depth, 1);
    RootsExpand(g, g', slot, name, depth + 2);
    DocumentWithName(g[0], g[1], entries, depth + 2, slot, name);
    assert entries'[i] != entries[i] == entries[slot := Text(depth, name)][i];
  }

  lemma RootIsTree(g: seq<Node>, slot: nat)
    requires CanRename(g, slot)
    ensures IsTree(g)
  {
  }

  lemma {:induction false} DifferenceReachesTheTop(g: seq<Node>, g': seq<Node>, slot: nat, name: string, depth: nat,
                                                   m: nat)
    returns (d: nat)
    requires CanRename(g, slot) && IsRenamed(g, g', slot, name) && InRange(g')
    requires 2 <= m < |g| && m != NameNode(g, slot) && !IsAliasOf(g, m, NameNode(g, slot))
    requires g[NameNode(g, slot)].content == []
    requires Expand(g', depth, m) != Expand(g, depth, m)
    ensures Expand(g', d, 0) != WithName(Expand(g, d, 0), d, slot, name)
    decreases m
  {
    hide Expand, WithName, IsRenamed, IsParsed;
    RootIsTree(g, slot);
    var p, i := HasParent(g, 1, m);
    DifferenceRises(g, g', slot, name, depth, p, i);
    if p == 1 {
      d := depth + 2;
      EntryDiffers(g, g', slot, name, depth, i);
    } else {
      d := DifferenceReachesTheTop(g, g', slot, name, depth + 1, p);
    }
  }

  /** A second root below the root changes its name as well. */
  lemma SharedRootDiffers(g: seq<Node>, g': seq<Node>, slot: nat, name: string, m: nat)
    requires CanRename(g, slot) && IsRenamed(g, g', slot, name) && InRange(g')
    requires !AlreadyNamed(g, NameNode(g, slot), name)
    requires m != NameNode(g, slot) && IsAliasOf(g, m, 1)
    ensures 2 <= m && !IsAliasOf(g, m, NameNode(g, slot)) && Expand(g', 2, m) != Expand(g, 2, m)
  {
    var v := NameNode(g, slot);
    assert NodeOk(g, m) && NodeOk(g, 1);
    assert IsDetached(g, g', v, m) && IsDetached(g, g', v, 1);
    NameNodeStays(g, g', slot, name);
    NameExpandsTo(g, slot, name, 1);
    assert Expand(g', 1, v) == Text(1, name);
    assert ExpandChildren(g', 1, 1)[slot] != ExpandChildren(g, 1, 1)[slot];
  }

  /** Renaming a document whose name is a string or an alias preserves its meaning, except for the name, exactly
      if nothing but the name refers to the root, or the name does not change at all. */
  lemma RenamePreservesMeaning(g: seq<Node>, g': seq<Node>, slot: nat, name: string)
    requires CanRename(g, slot) && IsRenamed(g, g', slot, name) && g[NameNode(g, slot)].content == []
    ensures InRange(g')
    ensures OnlyTheNameChanges(g, g', slot, name)
            <==> RootIsNotShared(g, slot) || AlreadyNamed(g, NameNode(g, slot), name)
  {
    RenamedStaysInRange(g, g', slot, name);
    if RootIsNotShared(g, slot) || AlreadyNamed(g, NameNode(g, slot), name) {
      forall depth: nat ensures Expand(g', depth, 0) == WithName(Expand(g, depth, 0), depth, slot, name) {
        RenamedExpandsTo(g, g', slot, name, depth);
      }
    } else {
      var m: nat :| m < |g| && m != NameNode(g, slot) && IsAliasOf(g, m, 1);
      SharedRootDiffers(g, g', slot, name, m);
      var d := DifferenceReachesTheTop(g, g', slot, name, 2, m);
    }
  }

  // ---------------------------------------------------------------------------------------------
  // Adding a name to a document without one
  // ---------------------------------------------------------------------------------------------

  ghost predicate CanName(g: seq<Node>) {
    IsParsed(g) && HasRoot(g) && NameSlot(g) == None
  }

  ghost predicate NameIsAdded(g: seq<Node>, g': seq<Node>, name: string)
    requires Ordered(g)
  {
    && |g| >= 2 && |g'| == |g| + 2 && End(g, 1) == |g| && g[0].content == [1]
    && g'[1] == g[1].(content := g[1].content + [|g|, |g| + 1])
    && g'[|g|] == StringNode("name") && g'[|g| + 1] == StringNode(name)
    && forall n | 0 <= n < |g| && n != 1 :: g'[n] == g[n]
  }

  lemma NamedStaysOrdered(g: seq<Node>, g': seq<Node>, name: string)
    requires CanName(g) && IsNamed(g, g', name)
    ensures Ordered(g') && NameIsAdded(g, g', name)
  {
    assert NodeOk(g, 1);
    ChildEnds(g, 0, 0);
    forall n, i | 0 <= n < |g'| && 0 <= i < |g'[n].content| ensures n < g'[n].content[i] < |g'| {
      if n == 1 && i >= |g[1].content| {
        assert n < |g|;
      }
    }
  }

  lemma NamedRootsExpand(g: seq<Node>, g': seq<Node>, name: string, depth: nat)
    requires CanName(g) && NameIsAdded(g, g', name) && Ordered(g')
    ensures depth == 1 ==> Expand(g', depth, 0) == Expand(g, depth, 0)
    ensures depth > 1 ==> Expand(g, depth, 0) == Document(g[0], g[1], ExpandChildren(g, depth - 2, 1))
    ensures depth > 1 ==> Expand(g', depth, 0) == Document(g[0], g[1], ExpandChildren(g', depth - 2, 1))
  {
    assert NodeOk(g, 0) && NodeOk(g, 1);
    if depth > 1 {
      assert ExpandChildren(g, depth - 1, 0) == [Expand(g, depth - 1, 1)];
      assert ExpandChildren(g', depth - 1, 0) == [Expand(g', depth - 1, 1)];
    }
  }

  ghost function Below(g: seq<Node>): iset<(nat, nat)> {
    iset p: (nat, nat) | 2 <= p.0 < |g| && p.1 == p.0
  }

  lemma BelowMatches(g: seq<Node>, g': seq<Node>, name: string, n: nat)
    requires CanName(g) && NameIsAdded(g, g', name)
    requires 2 <= n < |g| && !IsAliasOf(g, n, 1)
    ensures IsMatch(g, g', Below(g), n, n)
  {
    assert NodeOk(g, n) && NodeOk(g, 0);
    var m := Resolve(g, n);
    assert m >= 2 && g'[m] == g[m] && Resolve(g', n) == m;
  }

  lemma OldEntryExpandsAlike(g: seq<Node>, g': seq<Node>, name: string, depth: nat, i: nat)
    requires CanName(g) && NameIsAdded(g, g', name) && Ordered(g')
    requires forall n | 0 <= n < |g| :: !IsAliasOf(g, n, 1)
    requires i < |g[1].content|
    ensures Expand(g', depth, g[1].content[i]) == Expand(g, depth, g[1].content[i])
  {
    forall p | p in Below(g) ensures IsMatch(g, g', Below(g), p.0, p.1) {
      BelowMatches(g, g', name, p.0);
    }
    var c := g[1].content[i];
    assert (c, c) in Below(g);
    MatchesExpandAlike(g, g', Below(g), depth, c, c);
  }

  function WithNewEntry(entries: seq<Tree>, depth: nat, name: string): seq<Tree> {
    entries + [Text(depth, "name"), Text(depth, name)]
  }

  lemma NewEntryExpandsTo(g: seq<Node>, g': seq<Node>, name: string, depth: nat)
    requires Ordered(g) && NameIsAdded(g, g', name) && Ordered(g')
    ensures Expand(g', depth, |g|) == Text(depth, "name") && Expand(g', depth, |g| + 1) == Text(depth, name)
  {
  }

  lemma NamedEntryExpandsTo(g: seq<Node>, g': seq<Node>, name: string, depth: nat, i: nat)
    requires CanName(g) && NameIsAdded(g, g', name) && Ordered(g')
    requires forall n | 0 <= n < |g| :: !IsAliasOf(g, n, 1)
    requires i < |g[1].content| + 2
    ensures Expand(g', depth, g'[1].content[i])
            == if i < |g[1].content| then Expand(g, depth, g[1].content[i])
               else Text(depth, if i == |g[1].content| then "name" else name)
  {
    if i < |g[1].content| {
      OldEntryExpandsAlike(g, g', name, depth, i);
    } else {
      NewEntryExpandsTo(g, g', name, depth);
    }
  }

  lemma NamedEntriesExpandTo(g: seq<Node>, g': seq<Node>, name: string, depth: nat)
    requires CanName(g) && NameIsAdded(g, g', name) && Ordered(g')
    requires forall n | 0 <= n < |g| :: !IsAliasOf(g, n, 1)
    ensures ExpandChildren(g', depth, 1) == WithNewEntry(ExpandChildren(g, depth, 1), depth, name)
  {
    var entries := ExpandChildren(g, depth, 1);
    forall i | 0 <= i < |g[1].content| + 2
      ensures ExpandChildren(g', depth, 1)[i] == WithNewEntry(entries, depth, name)[i]
    {
      NamedEntryExpandsTo(g, g', name, depth, i);
    }
  }

  lemma DocumentWithNewName(document: Node, root: Node, entries: seq<Tree>, depth: nat, name: string)
    ensures WithNewName(Document(document, root, entries), depth + 2, name)
            == Document(document, root, WithNewEntry(entries, depth, name))
  {
  }

  lemma NamedExpandsTo(g: seq<Node>, g': seq<Node>, name: string, depth: nat)
    requires CanName(g) && NameIsAdded(g, g', name) && Ordered(g')
    requires forall n | 0 <= n < |g| :: !IsAliasOf(g, n, 1)
    ensures Expand(g', depth + 2, 0) == WithNewName(Expand(g, depth + 2, 0), depth + 2, name)
  {
    var entries := ExpandChildren(g, depth, 1);
    NamedRootsExpand(g, g', name, depth + 2);
    NamedEntriesExpandTo(g, g', name, depth);
    DocumentWithNewName(g[0], g[1], entries, depth, name);
  }

  lemma NamedEntryDiffers(g: seq<Node>, g': seq<Node>, name: string, depth: nat, i: nat)
    requires CanName(g) && NameIsAdded(g, g', name) && Ordered(g')
    requires i < |g[1].content| && Expand(g', depth, g[1].content[i]) != Expand(g, depth, g[1].content[i])
    ensures Expand(g', depth + 2, 0) != WithNewName(Expand(g, depth + 2, 0), depth + 2, name)
  {
    var entries, entries' := ExpandChildren(g, depth, 1), ExpandChildren(g', depth, 1);
    NamedRootsExpand(g, g', name, depth + 2);
    DocumentWithNewName(g[0], g[1], entries, depth, name);
    assert entries'[i] != entries[i] == WithNewEntry(entries, depth, name)[i];
  }

  lemma {:induction false} NamedDifferenceReachesTheTop(g: seq<Node>, g': seq<Node>, name: string, depth: nat, m: nat)
    returns (d: nat)
    requires CanName(g) && NameIsAdded(g, g', name) && Ordered(g')
    requires 2 <= m < |g| && Expand(g', depth, m) != Expand(g, depth, m)
    ensures Expand(g', d, 0) != WithNewName(Expand(g, d, 0), d, name)
    decreases m
  {
    var p, i := HasParent(g, 1, m);
    if p == 1 {
      d := depth + 2;
      NamedEntryDiffers(g, g', name, depth, i);
    } else {
      assert NodeOk(g, p);
      assert ExpandChildren(g', depth, p)[i] != ExpandChildren(g, depth, p)[i];
      d := NamedDifferenceReachesTheTop(g, g', name, depth + 1, p);
    }
  }

  lemma SharedRootGrows(g: seq<Node>, g': seq<Node>, name: string, m: nat)
    requires CanName(g) && NameIsAdded(g, g', name) && Ordered(g') && IsAliasOf(g, m, 1)
    ensures 2 <= m && Expand(g', 1, m) != Expand(g, 1, m)
  {
    assert NodeOk(g, m) && NodeOk(g, 1);
    assert |ExpandChildren(g', 0, 1)| != |ExpandChildren(g, 0, 1)|;
  }

  /** Adding a name only adds a name exactly if nothing refers to the root. */
  lemma NamingPreservesMeaning(g: seq<Node>, g': seq<Node>, name: string)
    requires CanName(g) && IsNamed(g, g', name)
    ensures Ordered(g')
    ensures (forall depth: nat :: Expand(g', depth, 0) == WithNewName(Expand(g, depth, 0), depth, name))
            <==> (forall n | 0 <= n < |g| :: !IsAliasOf(g, n, 1))
  {
    NamedStaysOrdered(g, g', name);
    if n: nat :| n < |g| && IsAliasOf(g, n, 1) {
      SharedRootGrows(g, g', name, n);
      var d := NamedDifferenceReachesTheTop(g, g', name, 1, n);
    } else {
      forall depth: nat ensures Expand(g', depth, 0) == WithNewName(Expand(g, depth, 0), depth, name) {
        if depth < 2 {
          NamedRootsExpand(g, g', name, depth);
        } else {
          NamedExpandsTo(g, g', name, depth - 2);
        }
      }
    }
  }

  // ---------------------------------------------------------------------------------------------
  // Finding the name
  // ---------------------------------------------------------------------------------------------

  ghost predicate IsWritten(g: seq<Node>, n: nat, key: string)
    requires n < |g|
  {
    g[n].value == key
  }

  ghost predicate IsMeant(g: seq<Node>, n: nat, key: string)
    requires n < |g|
  {
    g[Resolve(g, n)].value == key
  }

  /** The slot that holds the value of a key once aliases are expanded. */
  ghost function MeantSlot(g: seq<Node>, content: seq<nat>, key: string, from: nat): (slot: Option<nat>)
    requires forall i | 0 <= i < |content| :: content[i] < |g|
    ensures slot.Some? ==> from < slot.value < |content|
    decreases |content| - from
  {
    if from + 1 >= |content| then None
    else if IsMeant(g, content[from], key) then Some(from + 1)
    else MeantSlot(g, content, key, from + 2)
  }

  /** The first key that is written as the wanted one or means it. */
  ghost function FirstCandidate(g: seq<Node>, content: seq<nat>, key: string, from: nat): (n: Option<nat>)
    requires forall i | 0 <= i < |content| :: content[i] < |g|
    ensures n.Some? ==> n.value < |g|
    decreases |content| - from
  {
    if from + 1 >= |content| then None
    else if IsWritten(g, content[from], key) || IsMeant(g, content[from], key) then Some(content[from])
    else FirstCandidate(g, content, key, from + 2)
  }

  /** A key that is an alias is compared by the name of the anchor it refers to. So the value that is found is
      the right one exactly if the first key that is written as the wanted one, or means it, does both. */
  lemma {:induction false} FindsTheMeantValue(g: seq<Node>, content: seq<nat>, key: string, from: nat)
    requires forall i | 0 <= i < |content| :: content[i] < |g|
    ensures ValueSlot(g, content, key, from) == MeantSlot(g, content, key, from)
            <==> var first := FirstCandidate(g, content, key, from);
                 first.Some? ==> IsWritten(g, first.value, key) && IsMeant(g, first.value, key)
    decreases |content| - from
  {
    if from + 1 < |content| && !IsWritten(g, content[from], key) && !IsMeant(g, content[from], key) {
      FindsTheMeantValue(g, content, key, from + 2);
    }
  }

  // ---------------------------------------------------------------------------------------------
  // Documents that can be decoded
  // ---------------------------------------------------------------------------------------------

  /** No alias lies in the node it refers to. A topology in which one does is rejected before it is stored. */
  ghost predicate IsDecodable(g: seq<Node>)
    requires Ordered(g)
  {
    forall n | 0 <= n < |g| && g[n].alias.Some? && g[n].alias.value < |g| ::
        n < g[n].alias.value || End(g, g[n].alias.value) <= n
  }

  lemma DecodableIsNotShared(g: seq<Node>)
    requires IsParsed(g) && HasRoot(g) && IsDecodable(g)
    ensures NameIsSeparate(g) && g[0].content == [1] && forall n | 0 <= n < |g| :: !IsAliasOf(g, n, 1)
  {
    ChildEnds(g, 0, 0);
    forall n | 0 <= n < |g| ensures !IsAliasOf(g, n, 1) {
      assert NodeOk(g, n);
    }
  }

  /** Whatever is stored as a topology keeps its meaning, except for the value that is taken for the name. */
  lemma DecodableKeepsItsMeaning(g: seq<Node>, g': seq<Node>, slot: nat, name: string)
    requires IsParsed(g) && HasRoot(g) && IsDecodable(g) && NameSlot(g) == Some(slot) && IsRenamed(g, g', slot, name)
    ensures InRange(g') && OnlyTheNameChanges(g, g', slot, name)
  {
    DecodableIsNotShared(g);
    RenamedStaysInRange(g, g', slot, name);
    forall depth: nat ensures Expand(g', depth, 0) == WithName(Expand(g, depth, 0), depth, slot, name) {
      RenamedExpandsTo(g, g', slot, name, depth);
    }
  }

  lemma DecodableOnlyGetsAName(g: seq<Node>, g': seq<Node>, name: string)
    requires CanName(g) && IsDecodable(g) && IsNamed(g, g', name)
    ensures InRange(g') && forall depth: nat :: Expand(g', depth, 0) == WithNewName(Expand(g, depth, 0), depth, name)
  {
    DecodableIsNotShared(g);
    NamingPreservesMeaning(g, g', name);
  }

  // ---------------------------------------------------------------------------------------------
  // The name that is meant
  // ---------------------------------------------------------------------------------------------

  /** The slot of the value that the document means by its name. */
  ghost function NameMeant(g: seq<Node>): (slot: Option<nat>)
    requires Ordered(g) && HasRoot(g)
    ensures slot.Some? ==> slot.value < |g[g[0].content[0]].content|
  {
    MeantSlot(g, g[g[0].content[0]].content, "name", 0)
  }

  /** The first key of the root that is written as name, or means it, does both. */
  ghost predicate NameIsWrittenAsMeant(g: seq<Node>)
    requires Ordered(g) && HasRoot(g)
  {
    var first := FirstCandidate(g, g[g[0].content[0]].content, "name", 0);
    first.Some? ==> IsWritten(g, first.value, "name") && IsMeant(g, first.value, "name")
  }

  /** What Rename leaves behind. */
  ghost predicate IsResult(g: seq<Node>, g': seq<Node>, name: string)
    requires Ordered(g) && HasRoot(g)
  {
    match NameSlot(g)
    case Some(slot) => IsRenamed(g, g', slot, name)
    case None => IsNamed(g, g', name)
  }

  /** The expansion of a document with another name, or with a name if it has none. */
  function WithNameIn(document: Tree, depth: nat, slot: Option<nat>, name: string): Tree {
    match slot
    case Some(s) => WithName(document, depth, s, name)
    case None => WithNewName(document, depth, name)
  }

  /** The value that is taken for the name and the one that is meant both are the name already. */
  ghost predicate BothAlreadyNamed(g: seq<Node>, name: string)
    requires Ordered(g) && HasRoot(g)
  {
    var content := g[g[0].content[0]].content;
    && NameSlot(g).Some? && AlreadyNamed(g, content[NameSlot(g).value], name)
    && NameMeant(g).Some? && AlreadyNamed(g, content[NameMeant(g).value], name)
  }

  lemma ValueIsText(g: seq<Node>, n: nat, name: string, depth: nat)
    requires IsParsed(g) && n < |g|
    ensures AlreadyNamed(g, n, name) ==> Expand(g, depth, n) == Text(depth, name)
    ensures depth > 0 && Expand(g, depth, n) == Text(depth, name) ==> AlreadyNamed(g, n, name)
  {
    assert NodeOk(g, Resolve(g, n));
  }

  lemma RootInDocument(g: seq<Node>, depth: nat)
    requires IsParsed(g) && HasRoot(g)
    ensures |g| > 1 && g[0].content == [1] && g[0].kind.DocumentNode? && g[1].kind.MappingNode?
    ensures depth > 1 ==> Expand(g, depth, 0) == Document(g[0], g[1], ExpandChildren(g, depth - 2, 1))
  {
    assert NodeOk(g, 0) && NodeOk(g, 1);
    RootExpands(g, depth);
  }

  /** Naming two different slots comes to the same only if both already have the name. */
  lemma DifferentSlotsDiffer(g: seq<Node>, s: nat, m: nat, name: string)
    requires IsParsed(g) && HasRoot(g) && s != m
    requires s < |g[g[0].content[0]].content| && m < |g[g[0].content[0]].content|
    ensures (forall depth: nat ::
               WithName(Expand(g, depth, 0), depth, s, name) == WithName(Expand(g, depth, 0), depth, m, name))
            <==> && AlreadyNamed(g, g[g[0].content[0]].content[s], name)
                 && AlreadyNamed(g, g[g[0].content[0]].content[m], name)
  {
    hide AlreadyNamed, Expand, WithName, Document;
    var content := g[g[0].content[0]].content;
    RootInDocument(g, 3);
    SlotsAgree(g, s, m, name, 1);
    if AlreadyNamed(g, content[s], name) && AlreadyNamed(g, content[m], name) {
      forall depth: nat
        ensures WithName(Expand(g, depth, 0), depth, s, name) == WithName(Expand(g, depth, 0), depth, m, name)
      {
        if depth > 2 {
          SlotsAgree(g, s, m, name, depth - 2);
        } else {
          ShallowStays(Expand(g, depth, 0), depth, s, m, name);
        }
      }
    } else {
      assert WithName(Expand(g, 3, 0), 3, s, name) != WithName(Expand(g, 3, 0), 3, m, name);
    }
  }

  lemma ShallowStays(document: Tree, depth: nat, s: nat, m: nat, name: string)
    requires depth < 3
    ensures WithName(document, depth, s, name) == document == WithName(document, depth, m, name)
  {
  }

  lemma SlotsAgree(g: seq<Node>, s: nat, m: nat, name: string, depth: nat)
    requires IsParsed(g) && HasRoot(g) && s != m && depth > 0
    requires s < |g[g[0].content[0]].content| && m < |g[g[0].content[0]].content|
    ensures WithName(Expand(g, depth + 2, 0), depth + 2, s, name) ==
              WithName(Expand(g, depth + 2, 0), depth + 2, m, name)
            <==> && AlreadyNamed(g, g[g[0].content[0]].content[s], name)
                 && AlreadyNamed(g, g[g[0].content[0]].content[m], name)
  {
    hide AlreadyNamed, Expand, WithName;
    RootInDocument(g, depth + 2);
    var entries := ExpandChildren(g, depth, 1);
    DocumentWithName(g[0], g[1], entries, depth + 2, s, name);
    DocumentWithName(g[0], g[1], entries, depth + 2, m, name);
    ValueIsText(g, g[1].content[s], name, depth);
    ValueIsText(g, g[1].content[m], name, depth);
    var (named, meant) := (entries[s := Text(depth, name)], entries[m := Text(depth, name)]);
    if entries[s] == Text(depth, name) && entries[m] == Text(depth, name) {
      assert named == entries == meant;
    } else {
      assert named[s] != meant[s] || named[m] != meant[m];
    }
  }

  /** Naming a slot and adding a name never come to the same. */
  lemma AddingDiffers(g: seq<Node>, slot: nat, name: string)
    requires IsParsed(g) && HasRoot(g) && slot < |g[g[0].content[0]].content|
    ensures WithName(Expand(g, 2, 0), 2, slot, name) != WithNewName(Expand(g, 2, 0), 2, name)
  {
    hide Expand;
    RootInDocument(g, 2);
    var entries := ExpandChildren(g, 0, 1);
    DocumentWithName(g[0], g[1], entries, 2, slot, name);
    DocumentWithNewName(g[0], g[1], entries, 0, name);
    assert |WithNewEntry(entries, 0, name)| != |entries|;
  }

  lemma WhatRenameDoes(g: seq<Node>, g': seq<Node>, name: string)
    requires IsParsed(g) && HasRoot(g) && IsDecodable(g) && IsResult(g, g', name)
    ensures |g'| > 0 && InRange(g')
    ensures forall depth: nat :: Expand(g', depth, 0) == WithNameIn(Expand(g, depth, 0), depth, NameSlot(g), name)
  {
    if NameSlot(g).Some? {
      DecodableKeepsItsMeaning(g, g', NameSlot(g).value, name);
    } else {
      DecodableOnlyGetsAName(g, g', name);
    }
  }

  /** Renaming changes the name a document means, or adds one if it means none, and changes nothing else, exactly
      if the first key that is written as name, or means it, does both, or if there is nothing to change. */
  lemma RenameChangesTheMeantName(g: seq<Node>, g': seq<Node>, name: string)
    requires IsParsed(g) && HasRoot(g) && IsDecodable(g) && IsResult(g, g', name)
    ensures |g'| > 0 && InRange(g')
    ensures (forall depth: nat :: Expand(g', depth, 0) == WithNameIn(Expand(g, depth, 0), depth, NameMeant(g), name))
            <==> NameIsWrittenAsMeant(g) || BothAlreadyNamed(g, name)
  {
    hide IsResult, IsDecodable, Expand, WithName, WithNewName, AlreadyNamed;
    WhatRenameDoes(g, g', name);
    FindsTheMeantValue(g, g[g[0].content[0]].content, "name", 0);
    var found, meant := NameSlot(g), NameMeant(g);
    if found != meant {
      if found.Some? && meant.Some? {
        DifferentSlotsDiffer(g, found.value, meant.value, name);
      } else {
        AddingDiffers(g, if found.Some? then found.value else meant.value, name);
        assert Expand(g', 2, 0) != WithNameIn(Expand(g, 2, 0), 2, meant, name);
      }
    }
  }
}
