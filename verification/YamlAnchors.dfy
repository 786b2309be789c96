/** Reading a renamed topology again: every alias finds the node it referred to.

    An alias refers to the most recent node before it that has its anchor (sections 3.2.2.2 and 7.1 of
    YAML 1.2.2), so anchor names may repeat, and a lost or moved anchor would change what an alias means. */
module YamlAnchors {
  import opened Wrappers
  import opened YamlRename
  import opened YamlMeaning

  /** The nodes below node n in text order, from child i on. */
  ghost function OrderFrom(g: seq<Node>, n: nat, i: nat): seq<nat>
    requires Ordered(g) && n < |g| && i <= |g[n].content|
    decreases |g| - n, |g[n].content| - i
  {
    if i == |g[n].content| then []
    else [g[n].content[i]] + OrderFrom(g, g[n].content[i], 0) + OrderFrom(g, n, i + 1)
  }

  ghost function TextOrder(g: seq<Node>): seq<nat>
    requires Ordered(g) && |g| > 0
  {
    [0] + OrderFrom(g, 0, 0)
  }

  ghost predicate AllNodes(g: seq<Node>, order: seq<nat>) {
    forall k | 0 <= k < |order| :: order[k] < |g|
  }

  /** The most recent anchor with the name that the alias at place k of the text has is at place j, and
      belongs to the node the alias refers to. */
  ghost predicate FindsItsAnchor(g: seq<Node>, order: seq<nat>, k: nat, j: nat)
    requires AllNodes(g, order) && k < |order|
  {
    && j < k && g[order[k]].alias == Some(order[j])
    && g[order[j]].anchor == g[order[k]].value != ""
    && forall l | j < l < k :: g[order[l]].anchor != g[order[k]].value
  }

  ghost predicate AliasesResolve(g: seq<Node>, order: seq<nat>)
    requires AllNodes(g, order)
  {
    forall k | 0 <= k < |order| && g[order[k]].kind.AliasNode? :: exists j: nat :: FindsItsAnchor(g, order, k, j)
  }

  /** Reading the text of a document again gives every alias the node it refers to. */
  ghost predicate ReadsBack(g: seq<Node>) {
    Ordered(g) && |g| > 0 && AllNodes(g, TextOrder(g)) && AliasesResolve(g, TextOrder(g))
  }

  // ---------------------------------------------------------------------------------------------
  // The text order of a renamed document
  // ---------------------------------------------------------------------------------------------

  /** What stands in the text where node n stood: a copy if it was an alias of the target, or the node. */
  ghost predicate StandsFor(g: seq<Node>, g': seq<Node>, target: nat, x: nat, n: nat) {
    if IsAliasOf(g, n, target) then |g| <= x < |g'| else x == n
  }

  ghost predicate Follows(g: seq<Node>, g': seq<Node>, target: nat) {
    && |g| <= |g'|
    && (forall m | 0 <= m < |g| ::
          (g[m].content == [] && g'[m].content == []) || IsDetached(g, g', target, m))
    && (forall m | |g| <= m < |g'| :: g'[m].content == [])
  }

  ghost predicate AllStand(g: seq<Node>, g': seq<Node>, target: nat, order: seq<nat>, from: nat, to: nat) {
    && from + |order| == to
    && forall k | 0 <= k < |order| :: StandsFor(g, g', target, order[k], from + k)
  }

  lemma StandTogether(g: seq<Node>, g': seq<Node>, target: nat, x: nat, a: seq<nat>, b: seq<nat>, from: nat, mid: nat,
                      to: nat)
    requires StandsFor(g, g', target, x, from)
    requires AllStand(g, g', target, a, from + 1, mid) && AllStand(g, g', target, b, mid, to)
    ensures AllStand(g, g', target, [x] + a + b, from, to)
  {
    forall k | 0 <= k < to - from ensures StandsFor(g, g', target, ([x] + a + b)[k], from + k) {
      if 0 < k <= |a| {
        assert StandsFor(g, g', target, a[k - 1], from + 1 + (k - 1));
      } else if |a| < k {
        assert StandsFor(g, g', target, b[k - 1 - |a|], mid + (k - 1 - |a|));
      }
    }
  }

  lemma {:induction false} OrderFollows(g: seq<Node>, g': seq<Node>, target: nat, n: nat, i: nat)
    requires IsParsed(g) && Ordered(g') && Follows(g, g', target)
    requires n < |g| && i <= |g[n].content|
    ensures |g'[n].content| == |g[n].content|
    ensures AllStand(g, g', target, OrderFrom(g', n, i), Start(g, n, i), End(g, n))
    decreases |g| - n, |g[n].content| - i
  {
    if i < |g[n].content| {
      var c, c' := g[n].content[i], g'[n].content[i];
      OrderFollows(g, g', target, n, i + 1);
      SlotStands(g, g', target, n, i);
      if !IsAliasOf(g, c, target) {
        OrderFollows(g, g', target, c, 0);
      }
      StandTogether(g, g', target, c', OrderFrom(g', c', 0), OrderFrom(g', n, i + 1), c, End(g, c), End(g, n));
    }
  }

  lemma SlotStands(g: seq<Node>, g': seq<Node>, target: nat, n: nat, i: nat)
    requires IsParsed(g) && Ordered(g') && Follows(g, g', target)
    requires n < |g| && i < |g[n].content|
    ensures |g'[n].content| == |g[n].content|
    ensures Start(g, n, i) == g[n].content[i] < |g| && End(g, g[n].content[i]) == Start(g, n, i + 1)
    ensures Start(g, g[n].content[i], 0) == g[n].content[i] + 1
    ensures StandsFor(g, g', target, g'[n].content[i], g[n].content[i])
    ensures IsAliasOf(g, g[n].content[i], target)
            ==> g'[g'[n].content[i]].content == [] && Start(g, n, i + 1) == g[n].content[i] + 1
  {
    ChildEnds(g, n, i);
    assert SlotIsDetached(g, g', target, n, i) && NodeOk(g, g[n].content[i]);
  }

  lemma TextOrderFollows(g: seq<Node>, g': seq<Node>, target: nat)
    requires IsParsed(g) && Ordered(g') && Follows(g, g', target)
    ensures AllNodes(g', TextOrder(g')) && AllStand(g, g', target, TextOrder(g'), 0, |g|)
  {
    OrderFollows(g, g', target, 0, 0);
    assert NodeOk(g, 0);
    assert AllStand(g, g', target, [], |g|, |g|);
    StandTogether(g, g', target, 0, OrderFrom(g', 0, 0), [], 0, |g|, |g|);
    assert TextOrder(g') == [0] + OrderFrom(g', 0, 0) + [];
    forall k | 0 <= k < |TextOrder(g')| ensures TextOrder(g')[k] < |g'| {
      assert StandsFor(g, g', target, TextOrder(g')[k], k);
    }
  }

  /** The parser numbers nodes in text order. */
  lemma ParsedInTextOrder(g: seq<Node>)
    requires IsParsed(g)
    ensures |TextOrder(g)| == |g| && forall k | 0 <= k < |g| :: TextOrder(g)[k] == k
  {
    NothingToDetach(g, 0);
    TextOrderFollows(g, g, 0);
    forall k | 0 <= k < |g| ensures TextOrder(g)[k] == k {
      assert StandsFor(g, g, 0, TextOrder(g)[k], k) && NodeOk(g, k);
    }
  }

  // ---------------------------------------------------------------------------------------------
  // Aliases keep what they refer to
  // ---------------------------------------------------------------------------------------------

  /** The name is a string or an alias, so it leaves nothing behind when it is replaced. */
  ghost predicate CanRenameLeaf(g: seq<Node>, slot: nat) {
    CanRename(g, slot) && g[NameNode(g, slot)].content == []
  }

  lemma RenamedStaysOrdered(g: seq<Node>, g': seq<Node>, slot: nat, name: string)
    requires CanRenameLeaf(g, slot) && IsRenamed(g, g', slot, name)
    ensures Ordered(g')
  {
    var v := NameNode(g, slot);
    forall n, i | 0 <= n < |g'| && 0 <= i < |g'[n].content| ensures n < g'[n].content[i] < |g'| {
      if n < |g| && n != v {
        assert IsDetached(g, g', v, n);
        assert SlotIsDetached(g, g', v, n, i);
      }
    }
  }

  lemma RenamedFollows(g: seq<Node>, g': seq<Node>, slot: nat, name: string)
    requires CanRenameLeaf(g, slot) && IsRenamed(g, g', slot, name)
    ensures Follows(g, g', NameNode(g, slot))
    ensures forall m | |g| <= m < |g'| :: g'[m].anchor == ""
  {
    assert NodeOk(g, NameNode(g, slot));
  }

  lemma AnchorOf(g: seq<Node>, k: nat) returns (j: nat)
    requires IsParsed(g) && ReadsBack(g)
    requires k < |g| && g[k].kind.AliasNode?
    ensures j < k && g[k].alias == Some(j) && g[j].anchor == g[k].value
    ensures forall l | j < l < k :: g[l].anchor != g[k].value
  {
    ParsedInTextOrder(g);
    var order := TextOrder(g);
    j :| FindsItsAnchor(g, order, k, j);
    forall l | j < l < k ensures g[l].anchor != g[k].value {
      assert order[l] == l;
    }
  }

  lemma AliasKeepsItsAnchor(g: seq<Node>, g': seq<Node>, slot: nat, name: string, order: seq<nat>, k: nat, j: nat)
    requires CanRenameLeaf(g, slot) && IsRenamed(g, g', slot, name)
    requires AllNodes(g', order) && AllStand(g, g', NameNode(g, slot), order, 0, |g|) && k < |g| && g[k].kind.AliasNode?
    requires !IsAliasOf(g, k, NameNode(g, slot)) && k != NameNode(g, slot)
    requires j < k && g[k].alias == Some(j) && g[j].anchor == g[k].value
    requires forall l | j < l < k :: g[l].anchor != g[k].value
    ensures FindsItsAnchor(g', order, k, j)
  {
    var v := NameNode(g, slot);
    RenamedFollows(g, g', slot, name);
    assert NodeOk(g, k) && NodeOk(g, j) && StandsFor(g, g', v, order[k], k) && StandsFor(g, g', v, order[j], j);
    assert IsDetached(g, g', v, k) && IsDetached(g, g', v, j);
    assert NodeOk(g, v);
    forall l | j < l < k ensures g'[order[l]].anchor != g'[order[k]].value {
      assert StandsFor(g, g', v, order[l], l);
      if !IsAliasOf(g, l, v) && l != v {
        assert IsDetached(g, g', v, l);
      }
    }
  }

  /** Whatever is an alias in the renamed document was one before, refers to the same node, and finds it. */
  lemma RenamedAliasesResolve(g: seq<Node>, g': seq<Node>, slot: nat, name: string)
    requires CanRenameLeaf(g, slot) && IsRenamed(g, g', slot, name)
    requires ReadsBack(g)
    ensures ReadsBack(g')
    ensures forall k | 0 <= k < |TextOrder(g')| && g'[TextOrder(g')[k]].kind.AliasNode? ::
              TextOrder(g')[k] == k < |g| && g[k].kind.AliasNode? && g'[k].alias == g[k].alias
  {
    hide NodeOk, IsRenamed, IsDetached, Follows, End;
    var v := NameNode(g, slot);
    RenamedStaysOrdered(g, g', slot, name);
    RenamedFollows(g, g', slot, name);
    TextOrderFollows(g, g', v);
    ParsedInTextOrder(g);
    var order := TextOrder(g');
    forall k | 0 <= k < |order| && g'[order[k]].kind.AliasNode?
      ensures order[k] == k && g[k].kind.AliasNode? && g'[k].alias == g[k].alias
      ensures exists j: nat :: FindsItsAnchor(g', order, k, j)
    {
      assert StandsFor(g, g', v, order[k], k);
      AliasesAreOld(g, g', slot, name, order[k], k);
      var j := AnchorOf(g, k);
      AliasKeepsItsAnchor(g, g', slot, name, order, k, j);
    }
  }

  lemma AliasesAreOld(g: seq<Node>, g': seq<Node>, slot: nat, name: string, x: nat, n: nat)
    requires CanRenameLeaf(g, slot) && IsRenamed(g, g', slot, name)
    requires n < |g| && x < |g'| && StandsFor(g, g', NameNode(g, slot), x, n) && g'[x].kind.AliasNode?
    ensures x == n && n != NameNode(g, slot) && g[n].kind.AliasNode? && g'[n].alias == g[n].alias
    ensures !IsAliasOf(g, n, NameNode(g, slot))
  {
    var v := NameNode(g, slot);
    assert NodeOk(g, v) && NodeOk(g, n);
    if !IsAliasOf(g, n, v) && n != v {
      assert IsDetached(g, g', v, n);
    }
  }

  // ---------------------------------------------------------------------------------------------
  // An added name
  // ---------------------------------------------------------------------------------------------

  lemma {:induction false} OrderBelowStays(g: seq<Node>, g': seq<Node>, name: string, n: nat, i: nat)
    requires Ordered(g) && Ordered(g') && NameIsAdded(g, g', name)
    requires 2 <= n < |g| && i <= |g[n].content|
    ensures OrderFrom(g', n, i) == OrderFrom(g, n, i)
    decreases |g| - n, |g[n].content| - i
  {
    if i < |g[n].content| {
      OrderBelowStays(g, g', name, g[n].content[i], 0);
      OrderBelowStays(g, g', name, n, i + 1);
    }
  }

  lemma NewEntryInOrder(g: seq<Node>, g': seq<Node>, name: string)
    requires Ordered(g) && Ordered(g') && NameIsAdded(g, g', name)
    ensures OrderFrom(g', 1, |g[1].content|) == [|g|, |g| + 1]
  {
    hide End;
    var i := |g[1].content|;
    assert OrderFrom(g', 1, i + 2) == [];
    assert OrderFrom(g', |g|, 0) == [] && OrderFrom(g', |g| + 1, 0) == [];
    assert OrderFrom(g', 1, i + 1) == [|g| + 1];
    assert OrderFrom(g', 1, i) == [|g|] + [] + [|g| + 1];
  }

  lemma {:induction false} RootOrderGrows(g: seq<Node>, g': seq<Node>, name: string, i: nat)
    requires Ordered(g) && Ordered(g') && NameIsAdded(g, g', name) && i <= |g[1].content|
    ensures OrderFrom(g', 1, i) == OrderFrom(g, 1, i) + [|g|, |g| + 1]
    decreases |g[1].content| - i
  {
    hide End;
    if i == |g[1].content| {
      NewEntryInOrder(g, g', name);
    } else {
      OrderBelowStays(g, g', name, g[1].content[i], 0);
      RootOrderGrows(g, g', name, i + 1);
      assert OrderFrom(g, 1, i) == [g[1].content[i]] + OrderFrom(g, g[1].content[i], 0) + OrderFrom(g, 1, i + 1);
    }
  }

  lemma TextOrderGrows(g: seq<Node>, g': seq<Node>, name: string)
    requires CanName(g) && Ordered(g') && NameIsAdded(g, g', name)
    ensures TextOrder(g') == TextOrder(g) + [|g|, |g| + 1]
  {
    RootOrderGrows(g, g', name, 0);
    assert OrderFrom(g, 0, 0) == [1] + OrderFrom(g, 1, 0) + OrderFrom(g, 0, 1);
    assert OrderFrom(g', 0, 0) == [1] + OrderFrom(g', 1, 0) + OrderFrom(g', 0, 1);
  }

  lemma NamedInTextOrder(g: seq<Node>, g': seq<Node>, name: string)
    requires CanName(g) && IsNamed(g, g', name)
    ensures Ordered(g') && NameIsAdded(g, g', name)
    ensures |TextOrder(g')| == |g'| && forall k | 0 <= k < |g'| :: TextOrder(g')[k] == k
  {
    NamedStaysOrdered(g, g', name);
    TextOrderGrows(g, g', name);
    ParsedInTextOrder(g);
    forall k | 0 <= k < |g'| ensures TextOrder(g')[k] == k {
      assert k < |g| ==> TextOrder(g')[k] == TextOrder(g)[k];
    }
  }

  lemma OldAliasFindsItsAnchor(g: seq<Node>, g': seq<Node>, name: string, order: seq<nat>, k: nat)
    requires IsParsed(g) && HasRoot(g) && ReadsBack(g) && NameIsAdded(g, g', name)
    requires |order| == |g'| && (forall l | 0 <= l < |g'| :: order[l] == l) && AllNodes(g', order)
    requires k < |g'| && g'[k].kind.AliasNode?
    ensures k < |g| && g[k].kind.AliasNode? && g'[k].alias == g[k].alias
    ensures exists j: nat :: FindsItsAnchor(g', order, k, j)
  {
    hide ReadsBack, AllNodes;
    assert NodeOk(g, 1) && k < |g|;
    assert NodeOk(g, k);
    var j := AnchorOf(g, k);
    assert forall l | 0 <= l < |g| :: g'[l].anchor == g[l].anchor;
    assert FindsItsAnchor(g', order, k, j);
  }

  lemma NamedAliasesResolve(g: seq<Node>, g': seq<Node>, name: string)
    requires CanName(g) && IsNamed(g, g', name) && ReadsBack(g)
    ensures ReadsBack(g')
    ensures forall k | 0 <= k < |TextOrder(g')| && g'[TextOrder(g')[k]].kind.AliasNode? ::
              TextOrder(g')[k] == k < |g| && g[k].kind.AliasNode? && g'[k].alias == g[k].alias
  {
    hide NameIsAdded, IsNamed, FindsItsAnchor, TextOrder;
    NamedInTextOrder(g, g', name);
    var order := TextOrder(g');
    forall k | 0 <= k < |order| && g'[order[k]].kind.AliasNode?
      ensures order[k] == k < |g| && g[k].kind.AliasNode? && g'[k].alias == g[k].alias
      ensures exists j: nat :: FindsItsAnchor(g', order, k, j)
    {
      OldAliasFindsItsAnchor(g, g', name, order, k);
    }
  }
}
