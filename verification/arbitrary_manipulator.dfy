/**
 * ArbitraryManipulator: resolves the nodes a manipulation targets once,
 * then applies its node manipulator to each resolved node, in the order
 * the resolver returned them, once per occurrence.
 */
module Manipulators {
  import opened Wrappers
  import opened Generator
  import opened Nodes

  class ArbitraryManipulator {
    /**
     * The node resolver. It is not part of this model; it is a function
     * from the tree's root node to the nodes it selects, in order.
     */
    const resolve: ArbitraryNode -> seq<ArbitraryNode>
    const nodeManipulator: NodeManipulator

    constructor (resolve: ArbitraryNode -> seq<ArbitraryNode>, nodeManipulator: NodeManipulator)
      ensures this.resolve == resolve && this.nodeManipulator == nodeManipulator
    {
      this.resolve := resolve;
      this.nodeManipulator := nodeManipulator;
    }

    /** The node manipulator given at construction. */
    function GetNodeManipulator(): (m: NodeManipulator)
      ensures m == nodeManipulator
    {
      nodeManipulator
    }

    /**
     * Applies the node manipulator to the resolved nodes. Each node ends up
     * manipulated as many times as it occurs in the resolved list; on the
     * first failing node the exception propagates, the nodes before it
     * have been manipulated and the rest have not. Nodes the manipulation
     * adds are not in the resolved list, so they are not targeted; each of
     * them is a new node carrying the entry property for its parent, and
     * each application adds a node of its own: no node is appended twice.
     */
    method Manipulate(root: ArbitraryNode) returns (r: Outcome)
      requires forall j :: 0 <= j < |resolve(root)| ==> allocated(resolve(root)[j])
      modifies resolve(root)
      ensures var nodes := resolve(root);
              r.Pass? ==>
                && NoneFails(nodeManipulator, nodes, old(StateMap(nodes)), |nodes|)
                && AppliedPrefix(nodeManipulator, nodes, old(StateMap(nodes)), StateMap(nodes), |nodes|)
      ensures var nodes := resolve(root);
              r.Fail? ==> exists k :: StoppedAt(nodeManipulator, nodes, old(StateMap(nodes)), StateMap(nodes), k, r.error)
      ensures resolve(root) == [] ==> r == Pass
      ensures forall n, j :: n in resolve(root) && |old(n.children)| <= j < |n.children| ==>
                fresh(n.children[j]) && IsEntryNode(nodeManipulator, n.arbitraryProperty.property, n.children[j])
      ensures forall n1, j1, n2, j2 ::
                && n1 in resolve(root) && |old(n1.children)| <= j1 < |n1.children|
                && n2 in resolve(root) && |old(n2.children)| <= j2 < |n2.children|
                && n1.children[j1] == n2.children[j2]
                ==> n1 == n2 && j1 == j2
    {
      var nodes := resolve(root);
      ghost var initial := StateMap(nodes);
      ghost var owner;
      r, owner := ApplyAll(nodeManipulator, nodes, initial);
      EntriesOnHeap(nodeManipulator, nodes, initial, owner);
    }
  }

  /**
   * The loop of manipulate: m applied to each node in order, stopping at
   * the first failure. owner maps each node the run appends to the node
   * and position it was appended at.
   */
  method ApplyAll(m: NodeManipulator, nodes: seq<ArbitraryNode>, ghost initial: map<ArbitraryNode, NodeState>)
    returns (r: Outcome, ghost owner: map<ArbitraryNode, Position>)
    requires initial == StateMap(nodes)
    modifies nodes
    ensures Ended(m, nodes, initial, StateMap(nodes), r)
    ensures nodes == [] ==> r == Pass
    ensures fresh(owner.Keys) && EntriesAdded(m, initial, StateMap(nodes), PropertyMap(owner.Keys), owner)
  {
    AppliedNothing(m, nodes, initial);
    owner := map[];
    var i := 0;
    while i < |nodes|
      invariant Progress(m, nodes, initial, StateMap(nodes), i)
      invariant fresh(owner.Keys) && EntriesAdded(m, initial, StateMap(nodes), PropertyMap(owner.Keys), owner)
    {
      var result;
      result, owner := ApplyAt(m, nodes, i, initial, owner);
      assert fresh(owner.Keys);
      if result.Fail? {
        StoppedEnds(m, nodes, initial, StateMap(nodes), i, result.error);
        r := result;
        return;
      }
      i := i + 1;
    }
    CompletedEnds(m, nodes, initial, StateMap(nodes));
    r := Pass;
  }

  /**
   * How a run over nodes ended: with every node applied as often as it
   * occurs and none failing, or stopped at a failing node.
   */
  ghost predicate Ended(m: NodeManipulator, nodes: seq<ArbitraryNode>, initial: map<ArbitraryNode, NodeState>,
                        current: map<ArbitraryNode, NodeState>, r: Outcome)
  {
    && (r.Pass? ==> NoneFails(m, nodes, initial, |nodes|) && AppliedPrefix(m, nodes, initial, current, |nodes|))
    && (r.Fail? ==> exists k :: StoppedAt(m, nodes, initial, current, k, r.error))
  }

  /** A run stopped at a failing node has ended. */
  lemma StoppedEnds(m: NodeManipulator, nodes: seq<ArbitraryNode>, initial: map<ArbitraryNode, NodeState>,
                    current: map<ArbitraryNode, NodeState>, k: int, e: Error)
    requires StoppedAt(m, nodes, initial, current, k, e)
    ensures Ended(m, nodes, initial, current, Fail(e))
  {
  }

  /** A run past the last node has ended. */
  lemma CompletedEnds(m: NodeManipulator, nodes: seq<ArbitraryNode>, initial: map<ArbitraryNode, NodeState>,
                      current: map<ArbitraryNode, NodeState>)
    requires Progress(m, nodes, initial, current, |nodes|)
    ensures Ended(m, nodes, initial, current, Pass)
  {
  }

  /** The loop state after i nodes: none of them failed and each node has its count of applications. */
  ghost predicate Progress(m: NodeManipulator, nodes: seq<ArbitraryNode>,
                           initial: map<ArbitraryNode, NodeState>, current: map<ArbitraryNode, NodeState>, i: nat)
  {
    && (forall j :: 0 <= j < |nodes| ==> nodes[j] in initial)
    && NoneFails(m, nodes, initial, i)
    && AppliedPrefix(m, nodes, initial, current, i)
  }

  /** The state of each of the given nodes. */
  ghost function StateMap(nodes: seq<ArbitraryNode>): (r: map<ArbitraryNode, NodeState>)
    reads nodes
    ensures forall j :: 0 <= j < |nodes| ==> nodes[j] in r
    ensures forall n :: n in r ==> n in nodes && r[n] == n.State()
  {
    map n | n in nodes :: n.State()
  }

  /** m fails on the initial state of none of nodes[..i]. */
  ghost predicate NoneFails(m: NodeManipulator, nodes: seq<ArbitraryNode>, initial: map<ArbitraryNode, NodeState>, i: nat)
  {
    forall j :: 0 <= j < i && j < |nodes| ==> nodes[j] in initial && FailureOf(m, initial[nodes[j]]).None?
  }

  lemma NoneFailsStep(m: NodeManipulator, nodes: seq<ArbitraryNode>, initial: map<ArbitraryNode, NodeState>, i: nat)
    requires i < |nodes| && NoneFails(m, nodes, initial, i)
    requires nodes[i] in initial && FailureOf(m, initial[nodes[i]]).None?
    ensures NoneFails(m, nodes, initial, i + 1)
  {
  }

  /** Every node is in the state of as many applications as it occurs in nodes[..i]. */
  ghost predicate AppliedPrefix(m: NodeManipulator, nodes: seq<ArbitraryNode>,
                                initial: map<ArbitraryNode, NodeState>, current: map<ArbitraryNode, NodeState>, i: nat)
  {
    i <= |nodes| && AppliedCounts(m, initial, current, multiset(nodes[..i]))
  }

  /** Every node n is in the state of counts[n] applications. */
  ghost predicate AppliedCounts(m: NodeManipulator, initial: map<ArbitraryNode, NodeState>,
                                current: map<ArbitraryNode, NodeState>, counts: multiset<ArbitraryNode>)
  {
    forall n :: n in initial ==> n in current && AppliedTimes(m, initial[n], current[n], counts[n])
  }

  /**
   * The run stopped at nodes[k] with error e: m fails on its initial state
   * with e, on none before it, and exactly the nodes before it are applied.
   */
  ghost predicate StoppedAt(m: NodeManipulator, nodes: seq<ArbitraryNode>,
                            initial: map<ArbitraryNode, NodeState>, current: map<ArbitraryNode, NodeState>, k: int, e: Error)
  {
    && 0 <= k < |nodes|
    && nodes[k] in initial
    && FailureOf(m, initial[nodes[k]]) == Some(e)
    && NoneFails(m, nodes, initial, k)
    && AppliedPrefix(m, nodes, initial, current, k)
  }

  /** Before the loop, every node has had no application. */
  lemma AppliedNothing(m: NodeManipulator, nodes: seq<ArbitraryNode>, initial: map<ArbitraryNode, NodeState>)
    ensures AppliedPrefix(m, nodes, initial, initial, 0)
  {
    forall n | n in initial
      ensures AppliedTimes(m, initial[n], initial[n], multiset(nodes[..0])[n])
    {
      AppliedTimesZero(m, initial[n]);
    }
  }

  /** Applying m once more to nodes[i], and to nothing else, extends the prefix by one. */
  lemma AppliedPrefixStep(m: NodeManipulator, nodes: seq<ArbitraryNode>, initial: map<ArbitraryNode, NodeState>,
                          before: map<ArbitraryNode, NodeState>, after: map<ArbitraryNode, NodeState>, i: nat)
    requires i < |nodes| && nodes[i] in initial && nodes[i] in after
    requires AppliedPrefix(m, nodes, initial, before, i)
    requires OnlyChanged(before, after, nodes[i])
    requires AppliedTimes(m, initial[nodes[i]], after[nodes[i]], multiset(nodes[..i])[nodes[i]] + 1)
    ensures AppliedPrefix(m, nodes, initial, after, i + 1)
  {
    assert nodes[..i + 1] == nodes[..i] + [nodes[i]];
    AppliedCountsStep(m, initial, before, after, multiset(nodes[..i]), nodes[i]);
  }

  /** Of the states in before, at most that of x differs in after. */
  ghost predicate OnlyChanged(before: map<ArbitraryNode, NodeState>, after: map<ArbitraryNode, NodeState>, x: ArbitraryNode)
  {
    forall n :: n in before && n != x ==> n in after && after[n] == before[n]
  }

  /** after records everything before does, the same way. */
  ghost predicate Extends<K, V>(before: map<K, V>, after: map<K, V>)
  {
    forall c :: c in before ==> c in after && after[c] == before[c]
  }

  /** One more application to x, and none to any other node, adds x once to the counts. */
  lemma AppliedCountsStep(m: NodeManipulator, initial: map<ArbitraryNode, NodeState>,
                          before: map<ArbitraryNode, NodeState>, after: map<ArbitraryNode, NodeState>,
                          counts: multiset<ArbitraryNode>, x: ArbitraryNode)
    requires x in initial && x in after && AppliedCounts(m, initial, before, counts)
    requires OnlyChanged(before, after, x)
    requires AppliedTimes(m, initial[x], after[x], counts[x] + 1)
    ensures AppliedCounts(m, initial, after, counts + multiset{x})
  {
    var counts' := counts + multiset{x};
    forall n | n in initial
      ensures n in after && AppliedTimes(m, initial[n], after[n], counts'[n])
    {
      if n != x {
        assert after[n] == before[n] && counts'[n] == counts[n];
      }
    }
  }

  /**
   * The application to nodes[i]: it either stops the run there or extends
   * the prefix of applied nodes by one.
   */
  method ApplyAt(m: NodeManipulator, nodes: seq<ArbitraryNode>, i: nat, ghost initial: map<ArbitraryNode, NodeState>,
                 ghost owner: map<ArbitraryNode, Position>)
    returns (r: Outcome, ghost owner': map<ArbitraryNode, Position>)
    requires i < |nodes| && Progress(m, nodes, initial, StateMap(nodes), i)
    requires EntriesAdded(m, initial, StateMap(nodes), PropertyMap(owner.Keys), owner)
    modifies nodes[i]
    ensures r.Fail? ==> StoppedAt(m, nodes, initial, StateMap(nodes), i, r.error)
    ensures r.Pass? ==> Progress(m, nodes, initial, StateMap(nodes), i + 1)
    ensures owner.Keys <= owner'.Keys && fresh(owner'.Keys - owner.Keys)
    ensures EntriesAdded(m, initial, StateMap(nodes), PropertyMap(owner'.Keys), owner')
  {
    ghost var before := StateMap(nodes);
    ghost var properties := PropertyMap(owner.Keys);
    var node := nodes[i];
    assert node in initial && node !in properties;
    r, owner' := ApplyOnce(m, node, initial[node], multiset(nodes[..i])[node], owner);
    assert OnlyChanged(before, StateMap(nodes), node);
    EntriesAddedStep(m, initial, before, StateMap(nodes), properties, PropertyMap(owner'.Keys), owner, owner', node);
    if r.Pass? {
      AppliedPrefixStep(m, nodes, initial, before, StateMap(nodes), i);
      NoneFailsStep(m, nodes, initial, i);
    } else {
      assert StateMap(nodes)[node] == before[node];
      NothingChanged(before, StateMap(nodes), node);
    }
  }

  /** When only x may change and x did not, nothing changed. */
  lemma NothingChanged(before: map<ArbitraryNode, NodeState>, after: map<ArbitraryNode, NodeState>, x: ArbitraryNode)
    requires OnlyChanged(before, after, x) && x in before && x in after && after[x] == before[x]
    requires forall n :: n in after ==> n in before
    ensures after == before
  {
  }

  /** The arbitrary property of each of the given nodes. */
  ghost function PropertyMap(added: set<ArbitraryNode>): map<ArbitraryNode, ArbitraryProperty>
    reads added
  {
    map c | c in added :: c.arbitraryProperty
  }

  /** A node and a position in its children. */
  type Position = (ArbitraryNode, int)

  /**
   * Every node appended to a node of initial since its initial state is
   * recorded in properties with the entry property of its parent, and in
   * owner with its parent and its position there; no node of initial is
   * recorded.
   */
  ghost predicate EntriesAdded(m: NodeManipulator, initial: map<ArbitraryNode, NodeState>,
                               current: map<ArbitraryNode, NodeState>, properties: map<ArbitraryNode, ArbitraryProperty>,
                               owner: map<ArbitraryNode, Position>)
  {
    && (forall n :: n in initial ==> n !in properties)
    && forall n, j :: n in initial && n in current && |initial[n].children| <= j < |current[n].children| ==>
         && current[n].children[j] in properties
         && AppendedProperty(m, current[n].arbitraryProperty.property) == Some(properties[current[n].children[j]])
         && current[n].children[j] in owner && owner[current[n].children[j]] == (n, j)
  }

  /**
   * The recorded entries, read on the nodes themselves: each appended node
   * carries its entry property, and the positions holding appended nodes
   * hold different nodes.
   */
  lemma EntriesOnHeap(m: NodeManipulator, nodes: seq<ArbitraryNode>, initial: map<ArbitraryNode, NodeState>,
                      owner: map<ArbitraryNode, Position>)
    requires forall j :: 0 <= j < |nodes| ==> nodes[j] in initial
    requires EntriesAdded(m, initial, StateMap(nodes), PropertyMap(owner.Keys), owner)
    ensures forall n, j :: n in nodes && |initial[n].children| <= j < |n.children| ==>
              n.children[j] in owner.Keys && IsEntryNode(m, n.arbitraryProperty.property, n.children[j])
    ensures forall n1, j1, n2, j2 ::
              && n1 in nodes && |initial[n1].children| <= j1 < |n1.children|
              && n2 in nodes && |initial[n2].children| <= j2 < |n2.children|
              && n1.children[j1] == n2.children[j2]
              ==> n1 == n2 && j1 == j2
  {
    forall n, j | n in nodes && |initial[n].children| <= j < |n.children|
      ensures n.children[j] in owner && owner[n.children[j]] == (n, j)
      ensures IsEntryNode(m, n.arbitraryProperty.property, n.children[j])
    {
      assert StateMap(nodes)[n] == n.State();
    }
  }

  /** The nodes appended to node from index k on, once recorded, are recorded with their entry property. */
  lemma AppendedRecorded(m: NodeManipulator, node: ArbitraryNode, k: nat, added: set<ArbitraryNode>)
    requires k <= |node.children| && forall j :: k <= j < |node.children| ==> node.children[j] in added
    requires forall j :: k <= j < |node.children| ==> IsEntryNode(m, node.arbitraryProperty.property, node.children[j])
    ensures forall j :: k <= j < |node.children| ==>
              && node.children[j] in PropertyMap(added)
              && AppendedProperty(m, node.arbitraryProperty.property) == Some(PropertyMap(added)[node.children[j]])
  {
  }

  /** Entries stay recorded when only x changes, and only by appending entry nodes that are recorded too. */
  lemma EntriesAddedStep(m: NodeManipulator, initial: map<ArbitraryNode, NodeState>,
                         before: map<ArbitraryNode, NodeState>, after: map<ArbitraryNode, NodeState>,
                         properties: map<ArbitraryNode, ArbitraryProperty>, properties': map<ArbitraryNode, ArbitraryProperty>,
                         owner: map<ArbitraryNode, Position>, owner': map<ArbitraryNode, Position>, x: ArbitraryNode)
    requires EntriesAdded(m, initial, before, properties, owner)
    requires x in initial && x in after && forall n :: n in initial ==> n in before
    requires OnlyChanged(before, after, x)
    requires Extends(properties, properties') && Extends(owner, owner')
    requires forall n :: n in initial ==> n !in properties'
    requires after[x].arbitraryProperty.property == before[x].arbitraryProperty.property
    requires Grown(before[x].children, after[x].children)
    requires forall j :: |before[x].children| <= j < |after[x].children| ==>
               && after[x].children[j] in properties'
               && AppendedProperty(m, after[x].arbitraryProperty.property) == Some(properties'[after[x].children[j]])
               && after[x].children[j] in owner' && owner'[after[x].children[j]] == (x, j)
    ensures EntriesAdded(m, initial, after, properties', owner')
  {
    forall n, j | n in initial && n in after && |initial[n].children| <= j < |after[n].children|
      ensures after[n].children[j] in properties'
      ensures AppendedProperty(m, after[n].arbitraryProperty.property) == Some(properties'[after[n].children[j]])
      ensures after[n].children[j] in owner' && owner'[after[n].children[j]] == (n, j)
    {
      if n != x {
        assert after[n] == before[n];
      } else if j < |before[x].children| {
        assert after[x].children[j] == before[x].children[..|before[x].children|][j];
      }
    }
  }

  /**
   * One more application of m to a node that has had k applications since
   * state s0: either it fails as m fails on s0 and the node is left as it
   * was, or the node has had k + 1 applications.
   */
  method ApplyOnce(m: NodeManipulator, node: ArbitraryNode, ghost s0: NodeState, ghost k: nat,
                   ghost owner: map<ArbitraryNode, Position>)
    returns (r: Outcome, ghost owner': map<ArbitraryNode, Position>)
    requires AppliedTimes(m, s0, node.State(), k)
    requires node !in owner
    modifies node
    ensures r.Fail? ==> FailureOf(m, s0) == Some(r.error) && unchanged(node)
    ensures r.Pass? ==> FailureOf(m, s0).None? && AppliedTimes(m, s0, node.State(), k + 1)
    ensures node.arbitraryProperty.property == old(node.arbitraryProperty.property)
    ensures Grown(old(node.children), node.children)
    ensures owner.Keys <= owner'.Keys && fresh(owner'.Keys - owner.Keys)
    ensures Extends(old(PropertyMap(owner.Keys)), PropertyMap(owner'.Keys)) && Extends(owner, owner')
    ensures forall j :: |old(node.children)| <= j < |node.children| ==>
              && node.children[j] in PropertyMap(owner'.Keys)
              && AppendedProperty(m, node.arbitraryProperty.property) == Some(PropertyMap(owner'.Keys)[node.children[j]])
              && node.children[j] in owner' && owner'[node.children[j]] == (node, j)
  {
    ghost var before := node.State();
    AppliedTimesKeepsFailure(m, s0, before, k);
    r := Nodes.Manipulate(m, node);
    if r.Pass? {
      AppliedTimesStep(m, s0, before, node.State(), k);
      AppliedTimesKeepsFailure(m, before, node.State(), 1);
    }
    var k0 := |before.children|;
    if |node.children| > k0 {
      assert node.children[k0] !in owner;
      owner' := owner[node.children[k0] := (node, k0)];
    } else {
      owner' := owner;
    }
    AppendedRecorded(m, node, k0, owner'.Keys);
  }

  /** after is before with zero or more nodes appended. */
  ghost predicate Grown(before: seq<ArbitraryNode>, after: seq<ArbitraryNode>)
  {
    |before| <= |after| && after[..|before|] == before
  }
}
