/**
 * Building the property tree: the root property is generated with no index
 * and no parent, then every generated property is expanded into one child
 * node per child property, in order. Each child is generated with its
 * parent, an element index when the parent is a container, and the
 * container directive of the first entry whose expression matches it.
 */
module Traverser {
  import opened Wrappers
  import opened Generator
  import opened TraverseContexts

  /**
   * A container-size directive: an entry of the map from expression to
   * container info. The map is given as its entries in iteration order; as
   * the keys of a map, their expressions are distinct (DistinctExpressions).
   */
  datatype Directive = Directive(expression: string, info: ContainerInfo)

  /** The directives are the entries of a map: no expression occurs twice. */
  predicate DistinctExpressions(directives: seq<Directive>)
  {
    forall i, j :: 0 <= i < j < |directives| ==> directives[i].expression != directives[j].expression
  }

  /** The tree the traverser returns: a generated property and its child nodes. */
  datatype NodeTree = NodeTree(arbitraryProperty: ArbitraryProperty, children: seq<NodeTree>)

  /**
   * The traverser's options. The source recurses until the generator stops
   * producing child properties; the model bounds the depth by maxDepth.
   */
  datatype ArbitraryTraverser = ArbitraryTraverser(options: GenerateOptions, maxDepth: nat)

  /** The info of the first directive, in iteration order, whose expression is accepted. */
  function FirstWhere(directives: seq<Directive>, accept: string -> bool): (r: Option<ContainerInfo>)
    ensures r.None? <==> forall k :: 0 <= k < |directives| ==> !accept(directives[k].expression)
    ensures r.Some? ==> exists k :: 0 <= k < |directives| && accept(directives[k].expression)
                          && r.value == directives[k].info
                          && forall j :: 0 <= j < k ==> !accept(directives[j].expression)
  {
    if directives == [] then None
    else if accept(directives[0].expression) then Some(directives[0].info)
    else
      var r := FirstWhere(directives[1..], accept);
      assert forall k :: 1 <= k < |directives| ==> directives[1..][k - 1] == directives[k];
      r
  }

  /** The info stored under the root key (a map get, not an expression match). */
  function RootContainerInfo(directives: seq<Directive>): Option<ContainerInfo>
  {
    FirstWhere(directives, k => k == HEAD_NAME)
  }

  /** For the entries of a map, the root lookup is the map's get of the root key. */
  lemma RootInfoIsMapEntry(directives: seq<Directive>, k: nat)
    requires DistinctExpressions(directives)
    requires k < |directives| && directives[k].expression == HEAD_NAME
    ensures RootContainerInfo(directives) == Some(directives[k].info)
  {
    var r := RootContainerInfo(directives);
    var j :| 0 <= j < |directives| && directives[j].expression == HEAD_NAME && r.value == directives[j].info
             && forall i :: 0 <= i < j ==> directives[i].expression != HEAD_NAME;
    assert j == k;
  }

  /** The info of the first directive whose expression matches the child's path. */
  function ChildContainerInfo(directives: seq<Directive>, context: TraverseContext, property: Property): Option<ContainerInfo>
  {
    FirstWhere(directives, k => Matches(context, property, k))
  }

  /** What the generator receives for the child at position index of parent. */
  function ChildGeneratorContext(
    parent: ArbitraryProperty, directives: seq<Directive>, context: TraverseContext, index: nat): GeneratorContext
    requires index < |parent.childProperties|
  {
    var childProperty := parent.childProperties[index];
    GeneratorContext(
      childProperty,
      if parent.containerInfo.Some? then Some(index) else None,
      Some(parent),
      ChildContainerInfo(directives, context, childProperty))
  }

  /** The generated property of the child at position index. */
  function ChildArbitraryProperty(
    traverser: ArbitraryTraverser, parent: ArbitraryProperty, directives: seq<Directive>,
    context: TraverseContext, index: nat): ArbitraryProperty
    requires index < |parent.childProperties|
  {
    traverser.options.generate(ChildGeneratorContext(parent, directives, context, index))
  }

  /** The private traverse: the node for an already generated property. */
  function Traverse(
    traverser: ArbitraryTraverser, arbitraryProperty: ArbitraryProperty, directives: seq<Directive>,
    context: TraverseContext, fuel: nat): NodeTree
    decreases fuel, 1
  {
    NodeTree(
      arbitraryProperty,
      if fuel == 0 then [] else TraverseChildren(traverser, arbitraryProperty, directives, context, 0, fuel))
  }

  /** The node of the child at position index: its generated property, traversed one level down. */
  function ChildNode(
    traverser: ArbitraryTraverser, parent: ArbitraryProperty, directives: seq<Directive>,
    context: TraverseContext, index: nat, fuel: nat): NodeTree
    requires fuel > 0 && index < |parent.childProperties|
    decreases fuel, 0, 0
  {
    var child := ChildArbitraryProperty(traverser, parent, directives, context, index);
    Traverse(traverser, child, directives, context.WithNewArbitraryProperties(child), fuel - 1)
  }

  /**
   * The child loop from position from on: one node per remaining child
   * property, in order, each the child's own traversal.
   */
  function TraverseChildren(
    traverser: ArbitraryTraverser, parent: ArbitraryProperty, directives: seq<Directive>,
    context: TraverseContext, from: nat, fuel: nat): (r: seq<NodeTree>)
    requires fuel > 0 && from <= |parent.childProperties|
    ensures |r| == |parent.childProperties| - from
    ensures forall i :: 0 <= i < |r| ==> r[i] == ChildNode(traverser, parent, directives, context, from + i, fuel)
    decreases fuel, 0, |parent.childProperties| - from
  {
    if from == |parent.childProperties| then []
    else
      var rest := TraverseChildren(traverser, parent, directives, context, from + 1, fuel);
      var r := [ChildNode(traverser, parent, directives, context, from, fuel)] + rest;
      assert forall i :: 1 <= i < |r| ==> r[i] == rest[i - 1];
      r
  }

  /** The generated root property. */
  function RootArbitraryProperty(traverser: ArbitraryTraverser, property: Property, directives: seq<Directive>): ArbitraryProperty
  {
    traverser.options.generate(GeneratorContext(property, None, None, RootContainerInfo(directives)))
  }

  /** The public traverse: generate the root, then expand it from an empty context. */
  function TraverseRoot(traverser: ArbitraryTraverser, property: Property, directives: seq<Directive>): NodeTree
  {
    var root := RootArbitraryProperty(traverser, property, directives);
    Traverse(traverser, root, directives, TraverseContext([], traverser.options), traverser.maxDepth)
  }

  /**
   * The directive stream of the child loop: the entries in order, filtered
   * by isMatch against the child property, the first one's info or none.
   */
  method FindContainerInfo(directives: seq<Directive>, context: TraverseContext, property: Property)
    returns (r: Option<ContainerInfo>)
    ensures r == ChildContainerInfo(directives, context, property)
  {
    for i := 0 to |directives|
      invariant ChildContainerInfo(directives[i..], context, property) == ChildContainerInfo(directives, context, property)
    {
      assert directives[i..][0] == directives[i] && directives[i..][1..] == directives[i + 1..];
      var check := IsMatch(context, property, directives[i].expression);
      if check {
        return Some(directives[i].info);
      }
    }
    assert directives[|directives|..] == [];
    return None;
  }

  /**
   * The private traverse: one child node per child property, built in a
   * loop in child-property order.
   */
  method TraverseNode(
    traverser: ArbitraryTraverser, arbitraryProperty: ArbitraryProperty, directives: seq<Directive>,
    context: TraverseContext, fuel: nat) returns (node: NodeTree)
    ensures node == Traverse(traverser, arbitraryProperty, directives, context, fuel)
    decreases fuel, 1
  {
    var children: seq<NodeTree> := [];
    if fuel > 0 {
      for index := 0 to |arbitraryProperty.childProperties|
        invariant |children| == index
        invariant forall j :: 0 <= j < index ==>
                    children[j] == ChildNode(traverser, arbitraryProperty, directives, context, j, fuel)
      {
        var childNode := TraverseChild(traverser, arbitraryProperty, directives, context, index, fuel);
        children := children + [childNode];
      }
      ghost var expected := TraverseChildren(traverser, arbitraryProperty, directives, context, 0, fuel);
      assert |children| == |expected|;
      assert forall j :: 0 <= j < |children| ==> children[j] == expected[j];
    }
    node := NodeTree(arbitraryProperty, children);
  }

  /**
   * One iteration of the child loop: choose the child's directive, generate
   * the child with the index (for a container parent) and the parent, and
   * traverse it with the context extended by it.
   */
  method TraverseChild(
    traverser: ArbitraryTraverser, parent: ArbitraryProperty, directives: seq<Directive>,
    context: TraverseContext, index: nat, fuel: nat) returns (childNode: NodeTree)
    requires fuel > 0 && index < |parent.childProperties|
    ensures childNode == ChildNode(traverser, parent, directives, context, index, fuel)
    decreases fuel, 0
  {
    var childProperty := parent.childProperties[index];
    var containerInfo := FindContainerInfo(directives, context, childProperty);
    var childArbitraryProperty := traverser.options.generate(GeneratorContext(
      childProperty,
      if parent.containerInfo.Some? then Some(index) else None,
      Some(parent),
      containerInfo));
    childNode := TraverseNode(traverser, childArbitraryProperty, directives,
                              context.WithNewArbitraryProperties(childArbitraryProperty), fuel - 1);
  }

  /**
   * The public traverse: the root's info is the entry stored under the root
   * key, the root is generated with no index and no parent, and its
   * children are traversed from an empty ancestor list.
   */
  method TraverseProperty(traverser: ArbitraryTraverser, property: Property, directives: seq<Directive>)
    returns (node: NodeTree)
    ensures node == TraverseRoot(traverser, property, directives)
  {
    var containerInfo := RootContainerInfo(directives);
    var arbitraryProperty := traverser.options.generate(GeneratorContext(property, None, None, containerInfo));
    node := TraverseNode(traverser, arbitraryProperty, directives, TraverseContext([], traverser.options), traverser.maxDepth);
  }

  /**
   * The root is generated with no index, no parent and the info of the
   * first directive keyed exactly "$" (none when no key is "$"); its
   * children are expanded from an empty ancestor list.
   */
  lemma RootGeneration(traverser: ArbitraryTraverser, property: Property, directives: seq<Directive>)
    ensures var t := TraverseRoot(traverser, property, directives);
            t == Traverse(traverser, t.arbitraryProperty, directives, TraverseContext([], traverser.options), traverser.maxDepth)
    ensures (forall k :: 0 <= k < |directives| ==> directives[k].expression != HEAD_NAME) ==>
              TraverseRoot(traverser, property, directives).arbitraryProperty
              == traverser.options.generate(GeneratorContext(property, None, None, None))
    ensures forall k :: 0 <= k < |directives| && directives[k].expression == HEAD_NAME
                        && (forall j :: 0 <= j < k ==> directives[j].expression != HEAD_NAME) ==>
              TraverseRoot(traverser, property, directives).arbitraryProperty
              == traverser.options.generate(GeneratorContext(property, None, None, Some(directives[k].info)))
  {
    var info := RootContainerInfo(directives);
    forall k | 0 <= k < |directives| && directives[k].expression == HEAD_NAME
                 && (forall j :: 0 <= j < k ==> directives[j].expression != HEAD_NAME)
      ensures info == Some(directives[k].info)
    {
      if info.Some? {
        var k' :| 0 <= k' < |directives| && directives[k'].expression == HEAD_NAME
                  && info.value == directives[k'].info
                  && forall j :: 0 <= j < k' ==> directives[j].expression != HEAD_NAME;
        assert k' == k;
      }
    }
  }

  /**
   * The children of a node are, in order, the traversals of the properties
   * generated for its child properties: the generator gets the child
   * property, the loop index exactly when the parent is a container, the
   * parent, and the first matching directive's info; the child subtree is
   * traversed with the context extended by exactly that child.
   */
  lemma ChildrenFollowChildProperties(
    traverser: ArbitraryTraverser, parent: ArbitraryProperty, directives: seq<Directive>,
    context: TraverseContext, fuel: nat, i: nat)
    requires fuel > 0 && i < |parent.childProperties|
    ensures var node := Traverse(traverser, parent, directives, context, fuel);
            var child := node.children[i].arbitraryProperty;
            var childProperty := parent.childProperties[i];
            && |node.children| == |parent.childProperties|
            && child == traverser.options.generate(GeneratorContext(
                 childProperty,
                 if parent.containerInfo.Some? then Some(i) else None,
                 Some(parent),
                 FirstWhere(directives, k => Matches(context, childProperty, k))))
            && node.children[i] == Traverse(traverser, child, directives,
                 TraverseContext(context.arbitraryProperties + [child], context.options), fuel - 1)
  {
    var node := Traverse(traverser, parent, directives, context, fuel);
    assert node.children[i] == ChildNode(traverser, parent, directives, context, i, fuel);
  }

  /** Every node down to depth levels has one child per child property, carrying that property. */
  ghost predicate Shaped(node: NodeTree, depth: nat)
    decreases depth
  {
    depth > 0 ==>
      && |node.children| == |node.arbitraryProperty.childProperties|
      && (forall i :: 0 <= i < |node.children| ==>
            node.children[i].arbitraryProperty.property == node.arbitraryProperty.childProperties[i])
      && (forall i :: 0 <= i < |node.children| ==> Shaped(node.children[i], depth - 1))
  }

  /**
   * With a generator that keeps the property it is given, the whole tree
   * is shaped like the child-property lists, level by level.
   */
  lemma {:induction false} TraverseShaped(
    traverser: ArbitraryTraverser, arbitraryProperty: ArbitraryProperty, directives: seq<Directive>,
    context: TraverseContext, fuel: nat)
    requires KeepsProperty(traverser.options)
    ensures Shaped(Traverse(traverser, arbitraryProperty, directives, context, fuel), fuel)
    decreases fuel
  {
    var node := Traverse(traverser, arbitraryProperty, directives, context, fuel);
    if fuel > 0 {
      forall i | 0 <= i < |node.children|
        ensures node.children[i].arbitraryProperty.property == arbitraryProperty.childProperties[i]
        ensures Shaped(node.children[i], fuel - 1)
      {
        var child := ChildArbitraryProperty(traverser, arbitraryProperty, directives, context, i);
        TraverseShaped(traverser, child, directives, context.WithNewArbitraryProperties(child), fuel - 1);
      }
    }
  }
}
