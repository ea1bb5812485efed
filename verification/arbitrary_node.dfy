/**
 * The mutable tree node and the node manipulators that edit it in place.
 * The add-map-entry manipulator traverses the node's property afresh with
 * a single-entry directive on the root, takes the first child of that
 * traversal, and appends it to the node's children and its property to the
 * node's child-property list.
 */
module Nodes {
  import opened Wrappers
  import opened Generator
  import opened Traverser
  import opened TraverseContexts

  /** nullInject of a property forced to null. */
  const ALWAYS_NULL_INJECT: real := 1.0
  /** nullInject of a property forced to be present. */
  const NOT_NULL_INJECT: real := 0.0

  /** The fields of a node, read as one value. */
  datatype NodeState = NodeState(
    arbitraryProperty: ArbitraryProperty,
    children: seq<ArbitraryNode>,
    fixedValue: Option<int>)

  class ArbitraryNode {
    var arbitraryProperty: ArbitraryProperty
    var children: seq<ArbitraryNode>
    /** A value set on the node by a set manipulator, if any. */
    var fixedValue: Option<int>

    constructor (arbitraryProperty: ArbitraryProperty, children: seq<ArbitraryNode>)
      ensures this.arbitraryProperty == arbitraryProperty && this.children == children
      ensures fixedValue == None
    {
      this.arbitraryProperty := arbitraryProperty;
      this.children := children;
      fixedValue := None;
    }

    function State(): NodeState
      reads this
    {
      NodeState(arbitraryProperty, children, fixedValue)
    }
  }

  /** The children of node are different objects, and node is not one of them. */
  ghost predicate DistinctChildren(node: ArbitraryNode)
    reads node
  {
    && node !in node.children
    && forall i, j :: 0 <= i < j < |node.children| ==> node.children[i] != node.children[j]
  }

  /** Builds fresh node objects for a traversed tree. */
  method Materialize(tree: NodeTree) returns (node: ArbitraryNode)
    ensures fresh(node) && DistinctChildren(node)
    ensures node.arbitraryProperty == tree.arbitraryProperty && node.fixedValue == None
    ensures |node.children| == |tree.children|
    ensures forall i :: 0 <= i < |node.children| ==>
              fresh(node.children[i]) && node.children[i].arbitraryProperty == tree.children[i].arbitraryProperty
    decreases tree
  {
    var children: seq<ArbitraryNode> := [];
    for i := 0 to |tree.children|
      invariant |children| == i
      invariant forall j :: 0 <= j < i ==>
                  fresh(children[j]) && children[j].arbitraryProperty == tree.children[j].arbitraryProperty
      invariant forall j, k :: 0 <= j < k < i ==> children[j] != children[k]
    {
      var child := Materialize(tree.children[i]);
      children := children + [child];
    }
    node := new ArbitraryNode(tree.arbitraryProperty, children);
  }

  /** The directive map the add-map-entry manipulator traverses with: one entry of size exactly 1. */
  function SingleEntryDirectives(): seq<Directive>
  {
    [Directive(HEAD_NAME, ContainerInfo(1, 1, true))]
  }

  /** The first child of a fresh single-entry traversal of the property, if it has one. */
  function EntryTemplate(traverser: ArbitraryTraverser, property: Property): Option<NodeTree>
  {
    var root := RootArbitraryProperty(traverser, property, SingleEntryDirectives());
    if traverser.maxDepth == 0 || |root.childProperties| == 0 then None
    else Some(ChildNode(traverser, root, SingleEntryDirectives(), TraverseContext([], traverser.options), 0, traverser.maxDepth))
  }

  lemma EntryTemplateIsFirstChild(traverser: ArbitraryTraverser, property: Property)
    ensures var root := TraverseRoot(traverser, property, SingleEntryDirectives());
            EntryTemplate(traverser, property) == if |root.children| == 0 then None else Some(root.children[0])
  {
  }

  /**
   * node was built from tree: it has the tree's arbitrary property, and its
   * children have the properties of the tree's children, in order.
   */
  ghost predicate Mirrors(node: ArbitraryNode, tree: NodeTree)
    reads node, node.children
  {
    && node.arbitraryProperty == tree.arbitraryProperty
    && |node.children| == |tree.children|
    && forall j :: 0 <= j < |tree.children| ==> node.children[j].arbitraryProperty == tree.children[j].arbitraryProperty
  }

  /** The message of the exception thrown for a node that is not a Map. */
  function NotMapMessage(typ: TypeInfo): string
  {
    "Can only add an entry to a map node." + " node type: " + typ.typeName
  }

  /**
   * AddMapEntryNodeManipulator.manipulate. A non-map node raises the
   * argument error; an empty traversal raises the index error of get(0);
   * both leave the node as it was.
   */
  method AddMapEntry(traverser: ArbitraryTraverser, node: ArbitraryNode) returns (r: Outcome)
    modifies node
    ensures var property := old(node.arbitraryProperty.property);
            !property.typ.isMap ==> r == Fail(IllegalArgument(NotMapMessage(property.typ))) && unchanged(node)
    ensures var property := old(node.arbitraryProperty.property);
            property.typ.isMap && EntryTemplate(traverser, property).None? ==>
              r == Fail(IndexOutOfBounds) && unchanged(node)
    ensures var property := old(node.arbitraryProperty.property);
            property.typ.isMap && EntryTemplate(traverser, property).Some? ==>
              |node.children| == |old(node.children)| + 1 &&
              var entry := EntryTemplate(traverser, property).value;
              var last := node.children[|node.children| - 1];
              && r == Pass
              && node.arbitraryProperty == old(node.arbitraryProperty).(
                   childProperties := old(node.arbitraryProperty.childProperties) + [entry.arbitraryProperty.property])
              && node.children[..|old(node.children)|] == old(node.children)
              && fresh(last) && Mirrors(last, entry) && DistinctChildren(last)
              && (forall j :: 0 <= j < |entry.children| ==> fresh(last.children[j]))
              && node.fixedValue == old(node.fixedValue)
  {
    var property := node.arbitraryProperty.property;
    if !property.typ.isMap {
      return Fail(IllegalArgument(NotMapMessage(property.typ)));
    }
    var root := TraverseProperty(traverser, property, SingleEntryDirectives());
    if |root.children| == 0 {
      return Fail(IndexOutOfBounds);
    }
    EntryTemplateIsFirstChild(traverser, property);
    var entryNode := Materialize(root.children[0]);
    node.arbitraryProperty := node.arbitraryProperty.(
      childProperties := node.arbitraryProperty.childProperties + [entryNode.arbitraryProperty.property]);
    node.children := node.children + [entryNode];
    r := Pass;
  }

  /**
   * The node manipulators of the model. AddMapEntry is the one whose code is
   * modelled; Nullity and SetValue give the minimal effect on the node
   * that the pipeline's tests observe.
   */
  datatype NodeManipulator =
    | AddMapEntryManipulator(traverser: ArbitraryTraverser)
    | NullityManipulator(toNull: bool)
    | SetValueManipulator(value: int)

  /** The state a node is in after k applications of m, starting from s0. */
  ghost predicate AppliedTimes(m: NodeManipulator, s0: NodeState, s: NodeState, k: nat)
  {
    match m
    case NullityManipulator(toNull) =>
      && s.children == s0.children && s.fixedValue == s0.fixedValue
      && s.arbitraryProperty == if k == 0 then s0.arbitraryProperty
           else s0.arbitraryProperty.(nullInject := if toNull then ALWAYS_NULL_INJECT else NOT_NULL_INJECT)
    case SetValueManipulator(value) =>
      && s.children == s0.children
      && (k == 0 ==> s == s0)
      && (k > 0 ==>
            s.fixedValue == Some(value) && s.arbitraryProperty == s0.arbitraryProperty.(nullInject := NOT_NULL_INJECT))
    case AddMapEntryManipulator(traverser) =>
      && s.fixedValue == s0.fixedValue
      && |s.children| == |s0.children| + k
      && s.children[..|s0.children|] == s0.children
      && (k == 0 ==> s.arbitraryProperty == s0.arbitraryProperty)
      && (k > 0 ==>
            var property := s0.arbitraryProperty.property;
            && property.typ.isMap
            && EntryTemplate(traverser, property).Some?
            && s.arbitraryProperty == s0.arbitraryProperty.(childProperties :=
                 s0.arbitraryProperty.childProperties
                 + Repeat(EntryTemplate(traverser, property).value.arbitraryProperty.property, k)))
  }

  /**
   * c is a node m appends to a node of the given property: the entry node of
   * a single-entry traversal of that property. Only the add-map-entry
   * manipulator appends nodes.
   */
  ghost predicate IsEntryNode(m: NodeManipulator, property: Property, c: ArbitraryNode)
    reads c
  {
    AppendedProperty(m, property) == Some(c.arbitraryProperty)
  }

  /** The arbitrary property of the node m appends to a node of the given property, if m appends one. */
  function AppendedProperty(m: NodeManipulator, property: Property): Option<ArbitraryProperty>
  {
    if m.AddMapEntryManipulator? && EntryTemplate(m.traverser, property).Some?
    then Some(EntryTemplate(m.traverser, property).value.arbitraryProperty)
    else None
  }

  /** k copies of x. */
  function Repeat<T>(x: T, k: nat): (r: seq<T>)
    ensures |r| == k && forall i :: 0 <= i < k ==> r[i] == x
  {
    if k == 0 then [] else Repeat(x, k - 1) + [x]
  }

  /** Whether m fails on a node in state s (only the add-map-entry manipulator can). */
  function FailureOf(m: NodeManipulator, s: NodeState): Option<Error>
  {
    match m
    case AddMapEntryManipulator(traverser) =>
      var property := s.arbitraryProperty.property;
      if !property.typ.isMap then Some(IllegalArgument(NotMapMessage(property.typ)))
      else if EntryTemplate(traverser, property).None? then Some(IndexOutOfBounds)
      else None
    case _ => None
  }

  /** NodeManipulator.manipulate: one application of m to node. */
  method Manipulate(m: NodeManipulator, node: ArbitraryNode) returns (r: Outcome)
    modifies node
    ensures FailureOf(m, old(node.State())).Some? ==>
              r == Fail(FailureOf(m, old(node.State())).value) && unchanged(node)
    ensures FailureOf(m, old(node.State())).None? ==>
              r == Pass && AppliedTimes(m, old(node.State()), node.State(), 1)
    ensures |node.children| <= |old(node.children)| + 1
    ensures forall j :: |old(node.children)| <= j < |node.children| ==>
              fresh(node.children[j]) && IsEntryNode(m, node.arbitraryProperty.property, node.children[j])
    ensures m.AddMapEntryManipulator? && FailureOf(m, old(node.State())).None? ==>
              var entry := EntryTemplate(m.traverser, node.arbitraryProperty.property).value;
              var last := node.children[|node.children| - 1];
              Mirrors(last, entry) && DistinctChildren(last) && forall j :: 0 <= j < |entry.children| ==> fresh(last.children[j])
  {
    match m
    case AddMapEntryManipulator(traverser) =>
      r := AddMapEntry(traverser, node);
    case NullityManipulator(toNull) =>
      node.arbitraryProperty := node.arbitraryProperty.(
        nullInject := if toNull then ALWAYS_NULL_INJECT else NOT_NULL_INJECT);
      r := Pass;
    case SetValueManipulator(value) =>
      node.fixedValue := Some(value);
      node.arbitraryProperty := node.arbitraryProperty.(nullInject := NOT_NULL_INJECT);
      r := Pass;
  }

  lemma AppliedTimesZero(m: NodeManipulator, s: NodeState)
    ensures AppliedTimes(m, s, s, 0)
  {
  }

  /** One more application after k applications is k + 1 applications. */
  lemma AppliedTimesStep(m: NodeManipulator, s0: NodeState, s1: NodeState, s2: NodeState, k: nat)
    requires AppliedTimes(m, s0, s1, k) && AppliedTimes(m, s1, s2, 1)
    ensures AppliedTimes(m, s0, s2, k + 1)
  {
    if m.AddMapEntryManipulator? {
      var e := EntryTemplate(m.traverser, s0.arbitraryProperty.property).value.arbitraryProperty.property;
      assert Repeat(e, k) + [e] == Repeat(e, k + 1);
      assert s2.children[..|s0.children|] == s1.children[..|s1.children|][..|s0.children|];
    }
  }

  /** Failure depends only on the node's property, which no manipulator changes. */
  lemma AppliedTimesKeepsFailure(m: NodeManipulator, s0: NodeState, s: NodeState, k: nat)
    requires AppliedTimes(m, s0, s, k)
    ensures s.arbitraryProperty.property == s0.arbitraryProperty.property
    ensures FailureOf(m, s) == FailureOf(m, s0)
  {
  }

  /**
   * Adding a map entry n times to a map node adds n entries, each with the
   * same synthesised property, after the existing children.
   */
  lemma AddEntriesCount(traverser: ArbitraryTraverser, s0: NodeState, s: NodeState, n: nat)
    requires AppliedTimes(AddMapEntryManipulator(traverser), s0, s, n)
    ensures |s.children| == |s0.children| + n
    ensures |s.arbitraryProperty.childProperties| == |s0.arbitraryProperty.childProperties| + n
    ensures |s0.children| == |s0.arbitraryProperty.childProperties| ==>
              |s.children| == |s.arbitraryProperty.childProperties|
  {
  }

  /** What a node in state s produces with respect to null. */
  predicate SamplesNull(s: NodeState)
  {
    s.arbitraryProperty.nullInject == ALWAYS_NULL_INJECT
  }

  predicate SamplesNonNull(s: NodeState)
  {
    s.arbitraryProperty.nullInject == NOT_NULL_INJECT
  }

  /**
   * Of two manipulators applied one after the other to the same node, the
   * later one decides null or not null: set-null after set-not-null or
   * after a set gives null, and set-not-null or a set after set-null gives
   * a present value.
   */
  lemma LastDispositionWins(first: NodeManipulator, second: NodeManipulator,
                            s0: NodeState, s1: NodeState, s2: NodeState, k1: nat, k2: nat)
    requires !first.AddMapEntryManipulator? && !second.AddMapEntryManipulator?
    requires AppliedTimes(first, s0, s1, k1) && AppliedTimes(second, s1, s2, k2) && k2 > 0
    ensures second == NullityManipulator(true) ==> SamplesNull(s2)
    ensures second == NullityManipulator(false) ==> SamplesNonNull(s2)
    ensures second.SetValueManipulator? ==> SamplesNonNull(s2) && s2.fixedValue == Some(second.value)
  {
  }
}
