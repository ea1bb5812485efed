# fixture-monkey property tree: a Dafny model

This project models the core of fixture-monkey's property-tree resolution in Dafny 4.11 and proves properties of the model. The core covers:

- **Path matching** (`TraverseContext`). The ancestor list of a node under construction is rendered as a path string: element ancestors add `[seq]`, named ones add `.name`, and no leading dot is written. The target property's own segment is appended last. A caller's path expression matches when its parsed form equals the parsed form of that string.
- **Tree construction** (`ArbitraryTraverser`). The root property is generated with no index and no parent, and with the container directive stored under the root key `$`. Every generated property is then expanded into one child node per child property, in order. Each child is generated with three things: its parent, its position (only when the parent is a container), and the info of the first directive whose expression matches the child's path. Its subtree is traversed with the ancestor list extended by that child.
- **In-place tree edits**:
  - The add-map-entry node manipulator (`AddMapEntryNodeManipulator`) checks that the node is a `Map`. It traverses the node's property afresh with a single `$` directive of size exactly 1, and appends the first child of that traversal to the node's children and its property to the node's child-property list.
  - `ArbitraryManipulator` resolves its target nodes once. It then applies its node manipulator to each of them in order, stopping at the first exception.
- **Builder construction** (`BuilderArbitraryIntrospector`):
  - An interface gives the empty result.
  - A missing `builder()` or `build()` is an `IllegalArgumentException` with a fixed message.
  - Every child that has a one-parameter builder method of its name and an arbitrary under its resolved name becomes one builder step.
  - A sampled instance is a fresh builder with every step applied in order, followed by `build()` once.
  - A null sample leaves the builder as it is, and a setter's `IllegalArgumentException` propagates.
- **Metadata cache** (`PropertyCache`). Three tables are filled by compute-if-absent, for fields, bean descriptors and static factory methods. Properties are the field and descriptor views merged by name. Factory properties come from one factory method. `clearCache` empties two of the three tables.

Modules and files:

- `Wrappers` (`wrappers.dfy`): `Option`, `Result`, `Outcome`, `Error`.
- `Generator` (`generator.dfy`): the property values the generator works with, and the decimal rendering of an element position.
- `TraverseContexts` (`traverse_context.dfy`).
- `Traverser` (`arbitrary_traverser.dfy`).
- `Nodes` (`arbitrary_node.dfy`): the mutable `ArbitraryNode` class and the node manipulators.
- `Manipulators` (`arbitrary_manipulator.dfy`).
- `BuilderIntrospection` (`builder_introspector.dfy`).
- `PropertyCaching` (`property_cache.dfy`).

Some collaborators are not part of this model. The property generator, the property-name resolver and the expression parser (`ArbitraryExpression.from`) are fields of `GenerateOptions`, of function type. The node resolver is a function from the root node to a list of nodes. Reflection is a function from a class to what reflection reports about it. `Constants.java` is not part of this model; the root key is `"$"`, as the tests use it.

Design notes:

- The traversal is written twice:
  - as specification functions (`Traverse`, `TraverseChildren`, `ChildNode`, `TraverseRoot`), about which the lemmas are stated;
  - as the methods with the source's loops (`TraverseNode`, `TraverseChild`, `FindContainerInfo`, `TraverseProperty`), each proved equal to its function.
- The effect of manipulators on a node is stated by `AppliedTimes`: the state a node is in after k applications from a given state. `ArbitraryManipulator.Manipulate` is proved against it. Each node ends in the state of as many applications as it occurs in the resolved list. On failure, the run stopped at the first node whose manipulation fails, with exactly the nodes before it applied.
- The hash-map iterations of `getProperties`, `getFactoryProperties` and the directive map carry no specified order. The four `PropertyCache` loops over hash-map contents (`GroupFields`, `GroupDescriptors` and `MergeGroups` for `getProperties`, and the factory-method choice in `GetFactoryProperties`) pick an arbitrary remaining key (`:|`), and the directive map is a given sequence of entries in iteration order. So the results are proved for every iteration order.

Three behaviours of the code that are easy to miss, all modelled as written:

- `clearCache` empties only the descriptor and field tables and keeps the factory-method table (`PropertyCache.java:180-183`).
- A class with a `builder()` method but no `build()` method raises an `IllegalArgumentException` (`BuilderArbitraryIntrospector.java:61-64`); there is no fallback to another construction strategy.
- The target's name is appended to the path with no `.` before it (`TraverseContext.java:64`), while each named ancestor after the first gets a `.`.

## Model

| member | source | states |
|---|---|---|
| Generator.NatToStringRoundTrip | fixture-monkey/src/main/java/com/navercorp/fixturemonkey/resolver/TraverseContext.java:49 | reading the decimal rendering of an element position back gives the position: the rendering loses nothing |
| Generator.NatToStringInjective | fixture-monkey/src/main/java/com/navercorp/fixturemonkey/resolver/TraverseContext.java:47-50 | different element positions render to different segments |
| TraverseContexts.TraverseContext.WithNewArbitraryProperties | fixture-monkey/src/main/java/com/navercorp/fixturemonkey/resolver/TraverseContext.java:70-79 | the new context's list is the old list followed by the new property, with the same options; the receiver is a value and is not altered |
| TraverseContexts.IsMatch | fixture-monkey/src/main/java/com/navercorp/fixturemonkey/resolver/TraverseContext.java:44-68 | the string-builder loop renders exactly the ancestor path plus the target segment, and the result is true iff the parsed expression equals the parse of that path (raw strings are never compared) |
| TraverseContexts.PathFromSnoc | fixture-monkey/src/main/java/com/navercorp/fixturemonkey/resolver/TraverseContext.java:46-57 | rendering one more ancestor is one more step of the loop after the others |
| TraverseContexts.AncestorContribution | fixture-monkey/src/main/java/com/navercorp/fixturemonkey/resolver/TraverseContext.java:47-56 | an element ancestor adds exactly `[` + position + `]` with no dot; a named ancestor adds `.` + name after a non-empty path and only the name after an empty one |
| TraverseContexts.PathFromExtends | fixture-monkey/src/main/java/com/navercorp/fixturemonkey/resolver/TraverseContext.java:46-57 | the loop only appends: the path so far is a prefix of the final path |
| TraverseContexts.NoLeadingDot | fixture-monkey/src/main/java/com/navercorp/fixturemonkey/resolver/TraverseContext.java:51-56 | the path starts with the first ancestor's own segment, so never with a `.` |
| TraverseContexts.TargetVersusAncestorRendering | fixture-monkey/src/main/java/com/navercorp/fixturemonkey/resolver/TraverseContext.java:59-65 | an element target renders as it would as the last ancestor; a named target after a non-empty path is appended with no `.` (one character shorter than its ancestor rendering); with no ancestors the path is exactly the target's segment |
| TraverseContexts.NamedTargetConcatenated | fixture-monkey/src/main/java/com/navercorp/fixturemonkey/resolver/TraverseContext.java:64 | a field `b` under a child `a` renders as `ab` |
| TraverseContexts.MatchDependsOnlyOnParse | fixture-monkey/src/main/java/com/navercorp/fixturemonkey/resolver/TraverseContext.java:66-67 | two expressions that parse alike match the same properties |
| Traverser.FirstWhere | fixture-monkey/src/main/java/com/navercorp/fixturemonkey/resolver/ArbitraryTraverser.java:96-100 | none iff no entry is accepted; otherwise the info of an accepted entry with no accepted entry before it |
| Traverser.RootInfoIsMapEntry | fixture-monkey/src/main/java/com/navercorp/fixturemonkey/resolver/ArbitraryTraverser.java:61 | when the directives are the entries of a map (no expression twice), the root lookup finds the info stored under `$`, as the map's get does |
| Traverser.FindContainerInfo | fixture-monkey/src/main/java/com/navercorp/fixturemonkey/resolver/ArbitraryTraverser.java:96-100 | the filter/findFirst loop calling isMatch on each key in order yields the first matching entry's info, or none |
| Traverser.TraverseChildren | fixture-monkey/src/main/java/com/navercorp/fixturemonkey/resolver/ArbitraryTraverser.java:88-118 | the child list has one node per remaining child property, and each is that child's own node |
| Traverser.TraverseNode | fixture-monkey/src/main/java/com/navercorp/fixturemonkey/resolver/ArbitraryTraverser.java:83-124 | the private traverse's child loop builds exactly the specified node |
| Traverser.TraverseChild | fixture-monkey/src/main/java/com/navercorp/fixturemonkey/resolver/ArbitraryTraverser.java:91-117 | one iteration of the child loop (directive choice, generation, subtree traversal) yields the specified child node |
| Traverser.TraverseProperty | fixture-monkey/src/main/java/com/navercorp/fixturemonkey/resolver/ArbitraryTraverser.java:54-81 | the public traverse yields exactly the specified root tree |
| Traverser.RootGeneration | fixture-monkey/src/main/java/com/navercorp/fixturemonkey/resolver/ArbitraryTraverser.java:61-80 | the root is generated with no index, no parent and the info stored under `$` (none when no key is `$`); its children are expanded from an empty ancestor list |
| Traverser.ChildrenFollowChildProperties | fixture-monkey/src/main/java/com/navercorp/fixturemonkey/resolver/ArbitraryTraverser.java:91-117 | the node has one child per child property; child i is generated with child property i, index i exactly when the parent is a container, the parent itself and the first matching directive's info, and its subtree is traversed with the context extended by exactly that child |
| Traverser.TraverseShaped | fixture-monkey/src/main/java/com/navercorp/fixturemonkey/resolver/ArbitraryTraverser.java:88-123 | with a generator that keeps its property, every level of the tree has as many children as child properties, in the same order |
| Nodes.Materialize | fixture-monkey/src/main/java/com/navercorp/fixturemonkey/resolver/ArbitraryTraverser.java:117-123 | the traversed tree becomes fresh node objects with the same properties and child count; the children are different objects and the node is not one of them |
| Nodes.EntryTemplateIsFirstChild | fixture-monkey/src/main/java/com/navercorp/fixturemonkey/resolver/AddMapEntryNodeManipulator.java:54-63 | the entry template is the first child of a traversal of the node's property with the single `$` directive of size 1..1, or none when that traversal has no child |
| Nodes.AddMapEntry | fixture-monkey/src/main/java/com/navercorp/fixturemonkey/resolver/AddMapEntryNodeManipulator.java:43-67 | a non-map node fails with the fixed message and is unchanged; an empty traversal fails with the index error and the node is unchanged; otherwise the children grow by one fresh last node with the entry template's property and, one per template child, fresh children with the template children's properties (the map entry's key and value), pairwise different and different from the entry node; the old children keep their identity and place, the fixed value is kept, and the child-property list grows by the entry's property |
| Nodes.Manipulate | fixture-monkey/src/main/java/com/navercorp/fixturemonkey/resolver/AddMapEntryNodeManipulator.java:43-67 | one application of a node manipulator: it fails exactly as `FailureOf` says and leaves the node unchanged, or it passes and the node is in the state of one application; at most one child is appended, and every appended child is a fresh node carrying the entry template's property traversed from the node's own property, and for add-map-entry the appended node mirrors the entry template with fresh children of its own, pairwise different and different from it |
| Nodes.AppliedTimesStep | fixture-monkey/src/main/java/com/navercorp/fixturemonkey/resolver/AddMapEntryNodeManipulator.java:59-66 | one more application after k applications is k + 1 applications |
| Nodes.AppliedTimesKeepsFailure | fixture-monkey/src/main/java/com/navercorp/fixturemonkey/resolver/AddMapEntryNodeManipulator.java:45-51 | no manipulation changes the node's property, so whether a manipulator fails is the same after any number of applications |
| Nodes.AddEntriesCount | fixture-monkey/src/main/java/com/navercorp/fixturemonkey/resolver/AddMapEntryNodeManipulator.java:59-66 | n applications add n children and n child properties, so lists of equal length stay equal |
| Nodes.LastDispositionWins | fixture-monkey/src/test/java/com/navercorp/fixturemonkey/test/FixtureMonkeyV04Test.java:1292-1316 | of two null/not-null/set manipulators in sequence the later decides: set-null gives null, set-not-null or a set gives a present value (the set one also the set value) |
| Manipulators.ArbitraryManipulator.constructor | fixture-monkey/src/main/java/com/navercorp/fixturemonkey/resolver/ArbitraryManipulator.java:31-37 | the resolver and the node manipulator are the ones given |
| Manipulators.ArbitraryManipulator.GetNodeManipulator | fixture-monkey/src/main/java/com/navercorp/fixturemonkey/resolver/ArbitraryManipulator.java:46-48 | returns the node manipulator given at construction |
| Manipulators.ArbitraryManipulator.Manipulate | fixture-monkey/src/main/java/com/navercorp/fixturemonkey/resolver/ArbitraryManipulator.java:39-44 | on success every resolved node is in the state of as many applications as it occurs in the resolved list and none fails; on failure the run stopped at the first resolved node whose manipulation fails, with exactly the nodes before it applied; no resolved nodes gives success and no change; every child a run appends to a resolved node is a fresh node carrying the entry template's property traversed from that node's property; no node is appended twice: two appended positions, on the same or on different resolved nodes, hold different nodes |
| Manipulators.ApplyAll | fixture-monkey/src/main/java/com/navercorp/fixturemonkey/resolver/ArbitraryManipulator.java:41-43 | the for-each loop over the resolved list: the same outcome and states as Manipulate, for a given list |
| Manipulators.ApplyAt | fixture-monkey/src/main/java/com/navercorp/fixturemonkey/resolver/ArbitraryManipulator.java:42 | the application to the i-th node either stops the run there or extends the applied prefix by one |
| Manipulators.ApplyOnce | fixture-monkey/src/main/java/com/navercorp/fixturemonkey/resolver/ArbitraryManipulator.java:42 | a node that has had k applications either fails as the manipulator fails on its original state and is unchanged, or has had k + 1 |
| Manipulators.NoneFailsStep | fixture-monkey/src/main/java/com/navercorp/fixturemonkey/resolver/ArbitraryManipulator.java:41-43 | a passing node extends the prefix of nodes that did not fail |
| Manipulators.AppliedNothing | fixture-monkey/src/main/java/com/navercorp/fixturemonkey/resolver/ArbitraryManipulator.java:40-41 | before the loop every node has had no application |
| Manipulators.AppliedPrefixStep | fixture-monkey/src/main/java/com/navercorp/fixturemonkey/resolver/ArbitraryManipulator.java:41-43 | one more application to the i-th node, and to no other, extends the applied prefix by one position |
| Manipulators.AppliedCountsStep | fixture-monkey/src/main/java/com/navercorp/fixturemonkey/resolver/ArbitraryManipulator.java:41-43 | one more application to a node, and to no other, adds that node once to the application counts |
| BuilderIntrospection.SelectSteps | fixture-monkey-api/src/main/java/com/navercorp/fixturemonkey/api/introspector/BuilderArbitraryIntrospector.java:69-104 | no more steps than children; which steps, and in which order, is stated by SelectStepsMembership and SelectStepsInOrder |
| BuilderIntrospection.Introspect | fixture-monkey-api/src/main/java/com/navercorp/fixturemonkey/api/introspector/BuilderArbitraryIntrospector.java:45-109 | interface gives the empty result before any lookup; no `builder()` gives the "Class has no builder class. " + type name error; no `build()` gives the "build method could not found. build" error; otherwise the child loop yields exactly the steps of the contributing children in children order |
| BuilderIntrospection.ApplyStep | fixture-monkey-api/src/main/java/com/navercorp/fixturemonkey/api/introspector/BuilderArbitraryIntrospector.java:92-102 | a null sample returns the builder unchanged; a rejected value fails with the setter's own IllegalArgumentException message; otherwise the builder gains exactly the setter's name, which holds the value, and every other entry is kept |
| BuilderIntrospection.RunSteps | fixture-monkey-api/src/main/java/com/navercorp/fixturemonkey/api/introspector/BuilderArbitraryIntrospector.java:91-102 | applying the steps to their samples in order fails exactly when some setter rejects its present sample; a successful run holds exactly the builder's names and the setter names of the steps whose sample is present |
| BuilderIntrospection.Assemble | fixture-monkey-api/src/main/java/com/navercorp/fixturemonkey/api/introspector/BuilderArbitraryIntrospector.java:66-108 | a fresh builder with every step applied, then build(): built iff no setter rejects its present sample; the instance holds exactly the fresh builder's names and the setters of the present samples; with distinct setters it holds each present sample under its step's setter and the fresh builder's value under every other name, so a null sample leaves the builder's default |
| BuilderIntrospection.RunStepsSetsEachStep | fixture-monkey-api/src/main/java/com/navercorp/fixturemonkey/api/introspector/BuilderArbitraryIntrospector.java:66-108 | with distinct setters and none rejected, the built instance holds each present sample under its step's setter and the builder's value under every name no present sample sets; a null sample leaves its setter's name as the builder had it |
| BuilderIntrospection.RunStepsPropagatesRejection | fixture-monkey-api/src/main/java/com/navercorp/fixturemonkey/api/introspector/BuilderArbitraryIntrospector.java:99-101 | the first setter that rejects its value ends the run with its own IllegalArgumentException, unwrapped |
| BuilderIntrospection.SelectStepsMembership | fixture-monkey-api/src/main/java/com/navercorp/fixturemonkey/api/introspector/BuilderArbitraryIntrospector.java:70-89 | a child yields a step iff the builder type has a one-parameter method of its property name and an arbitrary exists under its resolved name; every step comes from such a child |
| BuilderIntrospection.SelectStepsInOrder | fixture-monkey-api/src/main/java/com/navercorp/fixturemonkey/api/introspector/BuilderArbitraryIntrospector.java:69-104 | the steps are exactly the steps of the contributing children, one per contributing child, in children order: the k-th step is the step of the k-th contributing child |
| BuilderIntrospection.SelectStepsAllContribute | fixture-monkey-api/src/main/java/com/navercorp/fixturemonkey/api/introspector/BuilderArbitraryIntrospector.java:69-104 | when every child contributes, the steps are the children's steps, one each, in children order |
| PropertyCaching.LastByName | fixture-monkey-api/src/main/java/com/navercorp/fixturemonkey/api/property/PropertyCache.java:113-116 | a put-per-entry table holds a name iff some kept entry has it, and holds the last kept entry of that name |
| PropertyCaching.DescriptorMap | fixture-monkey-api/src/main/java/com/navercorp/fixturemonkey/api/property/PropertyCache.java:123-137 | no descriptor named `class`; empty when bean introspection fails; each descriptor is stored under its own name |
| PropertyCaching.CollectFields | fixture-monkey-api/src/main/java/com/navercorp/fixturemonkey/api/property/PropertyCache.java:110-117 | the put loop over top-down fields yields the instance fields by name, a later (subclass) field hiding an earlier one |
| PropertyCaching.CollectDescriptors | fixture-monkey-api/src/main/java/com/navercorp/fixturemonkey/api/property/PropertyCache.java:123-136 | the loop skipping `class` yields the descriptor table |
| PropertyCaching.CollectFactoryMethods | fixture-monkey-api/src/main/java/com/navercorp/fixturemonkey/api/property/PropertyCache.java:168-176 | a method is in the table iff it is declared, static and returns the class itself, and it maps to its own parameters |
| PropertyCaching.Merged | fixture-monkey-api/src/main/java/com/navercorp/fixturemonkey/api/property/PropertyCache.java:91-96 | a name in both tables gives the composite of the field view first and the descriptor view second; a name in one table gives that view alone; the property carries the name |
| PropertyCaching.MergedForStep | fixture-monkey-api/src/main/java/com/navercorp/fixturemonkey/api/property/PropertyCache.java:90-97 | emitting the merged property of one more name extends the one-per-name list by that name |
| PropertyCaching.DistinctNamesCount | fixture-monkey-api/src/main/java/com/navercorp/fixturemonkey/api/property/PropertyCache.java:90-97 | properties with pairwise different names have as many names as properties |
| PropertyCaching.MergedViewSize | fixture-monkey-api/src/main/java/com/navercorp/fixturemonkey/api/property/PropertyCache.java:60-100 | getProperties yields exactly one property per distinct name across both tables, no more and no fewer |
| PropertyCaching.FindByName | fixture-monkey-api/src/main/java/com/navercorp/fixturemonkey/api/property/PropertyCache.java:103-105 | none iff no property has the name; otherwise the first property with that name |
| PropertyCaching.PropertyLookup | fixture-monkey-api/src/main/java/com/navercorp/fixturemonkey/api/property/PropertyCache.java:102-106 | in the merged list a name finds the merged property of that name, and nothing iff neither table has it |
| PropertyCaching.FactoryPropertiesLinkFields | fixture-monkey-api/src/main/java/com/navercorp/fixturemonkey/api/property/PropertyCache.java:149-159 | the i-th factory property carries the i-th parameter's name and the method; it is linked to a field iff the class has an instance field of that name, and then to a non-static field of that name |
| PropertyCaching.LastInstanceField | fixture-monkey-api/src/main/java/com/navercorp/fixturemonkey/api/property/PropertyCache.java:113-116 | every instance field has a last same-named instance field at or after it, the one the table keeps |
| PropertyCaching.CollectFactoryProperties | fixture-monkey-api/src/main/java/com/navercorp/fixturemonkey/api/property/PropertyCache.java:149-160 | the parameter loop yields one factory property per parameter, in order, linked to the same-named field or to none |
| PropertyCaching.GroupFields | fixture-monkey-api/src/main/java/com/navercorp/fixturemonkey/api/property/PropertyCache.java:65-75 | after the field loop each field name maps to the list of its field view, and no other name is present |
| PropertyCaching.GroupDescriptors | fixture-monkey-api/src/main/java/com/navercorp/fixturemonkey/api/property/PropertyCache.java:77-88 | after the descriptor loop each name of either table maps to its field view (if any) followed by its descriptor view (if any) |
| PropertyCaching.MergeGroups | fixture-monkey-api/src/main/java/com/navercorp/fixturemonkey/api/property/PropertyCache.java:90-97 | the result loop yields one merged property per group, in any iteration order |
| PropertyCaching.PropertyCache.constructor | fixture-monkey-api/src/main/java/com/navercorp/fixturemonkey/api/property/PropertyCache.java:54-58 | all three tables start empty |
| PropertyCaching.PropertyCache.GetFields | fixture-monkey-api/src/main/java/com/navercorp/fixturemonkey/api/property/PropertyCache.java:108-119 | returns the class's field table: the stored one when present, otherwise computed and stored; the other tables are unchanged |
| PropertyCaching.PropertyCache.GetPropertyDescriptors | fixture-monkey-api/src/main/java/com/navercorp/fixturemonkey/api/property/PropertyCache.java:121-138 | returns the class's descriptor table: the stored one when present, otherwise computed and stored; the other tables are unchanged |
| PropertyCaching.PropertyCache.GetParametersByFactoryMethods | fixture-monkey-api/src/main/java/com/navercorp/fixturemonkey/api/property/PropertyCache.java:166-178 | returns the class's factory-method table: the stored one when present, otherwise computed and stored; the other tables are unchanged |
| PropertyCaching.PropertyCache.GetProperties | fixture-monkey-api/src/main/java/com/navercorp/fixturemonkey/api/property/PropertyCache.java:60-100 | one merged property per distinct name of the field and descriptor tables, in any order; the field and descriptor tables now hold the class |
| PropertyCaching.PropertyCache.GetProperty | fixture-monkey-api/src/main/java/com/navercorp/fixturemonkey/api/property/PropertyCache.java:102-106 | the merged property of that name, or empty iff neither table has the name |
| PropertyCaching.PropertyCache.GetFactoryProperties | fixture-monkey-api/src/main/java/com/navercorp/fixturemonkey/api/property/PropertyCache.java:140-164 | empty when the class has no factory method; otherwise the properties of the parameters of exactly one of its factory methods, in order, each linked to the same-named field or to none |
| PropertyCaching.PropertyCache.ClearCache | fixture-monkey-api/src/main/java/com/navercorp/fixturemonkey/api/property/PropertyCache.java:180-183 | the descriptor and field tables are emptied; the factory-method table is kept |

## Left out

- Java reflection and bean introspection (`findFields`, `findMethod`, `invokeMethod`, `getBeanInfo`, `setAccessible`) are reduced to a function from a class to its fields, descriptors and declared methods. A builder type is reduced to its method signatures, its initial state and its setters' rejections.
- jqwik arbitraries, `Builders.withBuilder` and random sampling are left out. A sample is given as a list of optional values, one per step.
- The property generator, the name resolver and `ArbitraryExpression.from` are abstract functions. No wildcard or expression-language semantics are assumed, only equality of parsed forms.
- The node resolver is a function from the root node to a list of nodes. Its path resolution is not part of this model.
- `LruCache` eviction (capacity 2000), `ConcurrentHashMap` thread safety and the static global state are left out. The cache is one object with three plain maps, and eviction is not modelled because it only changes cost, never results.
- The following are not modelled, because they only refine types or log: `Types.getActualType`, `Types.resolveWithTypeReferenceGenerics`, annotated types, and the warning logged when bean introspection fails.
- Traverser.Traverse: the source recurses until the generator yields no child properties. The model bounds the depth by the traverser's `maxDepth`, and a node at depth `maxDepth` gets no children.
- Nodes.Materialize: states freshness and properties one level deep. The deeper levels are built the same way but not stated.
- Nodes.AddMapEntry: the appended entry node and its direct children (key and value) are stated fresh with the template's properties; the levels below them are built by the same materialization but not stated.
- A `null` return from `builder()` is not modelled (the source would fail in `getClass()`).
- The nullity and set-value node manipulators are not part of this model's sources. They are modelled only by their effect on `nullInject` and on a fixed value, enough to state the ordering the tests observe. The other manipulators the tests exercise are not modelled: apply, acceptIf, zip, fixed, size, limit.
- Manipulators.ArbitraryManipulator.Manipulate: the resolved nodes are taken to be objects that already exist. A manipulated node's new children are not in the resolved list; the contract states that each is fresh and carries the entry property, and the shape of its own children is stated per application by Nodes.Manipulate, not at this level.
- Manipulators.ArbitraryManipulator.Manipulate: the resolver is a pure function of the root, so the contract cannot say how often or when it runs. The body calls it once, before the first change, and the contract speaks of that one resolved list.
- Iteration order of `HashMap` entry sets is not fixed. Results are proved for every order, and no particular order is modelled.
