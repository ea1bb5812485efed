/**
 * The ancestor list of a node under construction, and the check whether a
 * path expression addresses a given child of that node. The check renders
 * the ancestors and the child as a path string and compares the parsed
 * expression of that string with the parsed caller expression.
 */
module TraverseContexts {
  import opened Wrappers
  import opened Generator

  /** The generated properties from the root's first child down to the current node. */
  datatype TraverseContext = TraverseContext(arbitraryProperties: seq<ArbitraryProperty>, options: GenerateOptions)
  {
    /** A copy of this context with one more ancestor; the receiver is a value and stays as it was. */
    function WithNewArbitraryProperties(arbitraryProperty: ArbitraryProperty): (r: TraverseContext)
      ensures r.arbitraryProperties == arbitraryProperties + [arbitraryProperty]
      ensures r.options == options
      ensures |r.arbitraryProperties| == |arbitraryProperties| + 1
    {
      TraverseContext(arbitraryProperties + [arbitraryProperty], options)
    }
  }

  /** The path segment of an element position. */
  function Bracketed(sequence: nat): string
  {
    "[" + NatToString(sequence) + "]"
  }

  /** One step of the ancestor loop: what one ancestor appends to the path so far. */
  function AppendAncestor(acc: string, a: ArbitraryProperty): string
  {
    match a.property.kind
    case Element(sequence) => acc + Bracketed(sequence)
    case Named => (if |acc| != 0 then acc + "." else acc) + a.resolvedName
  }

  /** The ancestor loop run from the accumulated path acc over the remaining ancestors. */
  function PathFrom(acc: string, ancestors: seq<ArbitraryProperty>): string
    decreases |ancestors|
  {
    if ancestors == [] then acc else PathFrom(AppendAncestor(acc, ancestors[0]), ancestors[1..])
  }

  /** The path the ancestors alone render to. */
  function AncestorPath(ancestors: seq<ArbitraryProperty>): string
  {
    PathFrom("", ancestors)
  }

  /** The segment the target property contributes: its position, or its resolved name. */
  function TargetSegment(options: GenerateOptions, property: Property): string
  {
    match property.kind
    case Element(sequence) => Bracketed(sequence)
    case Named => options.resolveName(property)
  }

  /** The full path isMatch builds for a target property. */
  function TargetPath(context: TraverseContext, property: Property): string
  {
    AncestorPath(context.arbitraryProperties) + TargetSegment(context.options, property)
  }

  /** The match relation the traverser uses when choosing container directives. */
  predicate Matches(context: TraverseContext, property: Property, expression: string)
  {
    context.options.parse(expression) == context.options.parse(TargetPath(context, property))
  }

  /**
   * isMatch: renders the ancestors into a string builder, appends the
   * target's segment, and compares parsed expressions.
   */
  method IsMatch(context: TraverseContext, property: Property, expression: string) returns (check: bool)
    ensures check <==> context.options.parse(expression) == context.options.parse(TargetPath(context, property))
  {
    var ancestors := context.arbitraryProperties;
    var sb := "";
    for i := 0 to |ancestors|
      invariant PathFrom(sb, ancestors[i..]) == AncestorPath(ancestors)
    {
      assert ancestors[i..][0] == ancestors[i] && ancestors[i..][1..] == ancestors[i + 1..];
      var a := ancestors[i];
      ghost var before := sb;
      if a.property.kind.Element? {
        sb := sb + "[";
        sb := sb + NatToString(a.property.kind.sequence);
        sb := sb + "]";
      } else {
        if |sb| != 0 {
          sb := sb + ".";
        }
        sb := sb + a.resolvedName;
      }
      assert sb == AppendAncestor(before, a);
    }
    assert ancestors[|ancestors|..] == [];
    assert sb == AncestorPath(ancestors);
    if property.kind.Element? {
      sb := sb + "[";
      sb := sb + NatToString(property.kind.sequence);
      sb := sb + "]";
    } else {
      sb := sb + context.options.resolveName(property);
    }
    assert sb == TargetPath(context, property);
    check := context.options.parse(expression) == context.options.parse(sb);
  }

  /** Running the loop over one more ancestor is one more step after the loop. */
  lemma {:induction false} PathFromSnoc(acc: string, ancestors: seq<ArbitraryProperty>, a: ArbitraryProperty)
    ensures PathFrom(acc, ancestors + [a]) == AppendAncestor(PathFrom(acc, ancestors), a)
    decreases |ancestors|
  {
    if ancestors == [] {
      assert ([] + [a])[1..] == [];
    } else {
      assert (ancestors + [a])[1..] == ancestors[1..] + [a];
      PathFromSnoc(AppendAncestor(acc, ancestors[0]), ancestors[1..], a);
    }
  }

  /**
   * What an extra ancestor adds to the path: an element adds exactly
   * "[" + position + "]" with no dot, a named property adds its resolved
   * name, preceded by "." only when the path so far is non-empty.
   */
  lemma AncestorContribution(context: TraverseContext, a: ArbitraryProperty)
    ensures var before := AncestorPath(context.arbitraryProperties);
            var after := AncestorPath(context.WithNewArbitraryProperties(a).arbitraryProperties);
            && (a.property.kind.Element? ==> after == before + "[" + NatToString(a.property.kind.sequence) + "]")
            && (a.property.kind.Named? && before != "" ==> after == before + "." + a.resolvedName)
            && (a.property.kind.Named? && before == "" ==> after == a.resolvedName)
  {
    PathFromSnoc("", context.arbitraryProperties, a);
  }

  /** The loop only appends: the accumulated path is a prefix of the result. */
  lemma {:induction false} PathFromExtends(acc: string, ancestors: seq<ArbitraryProperty>)
    ensures acc <= PathFrom(acc, ancestors)
    decreases |ancestors|
  {
    if ancestors != [] {
      var next := AppendAncestor(acc, ancestors[0]);
      assert acc <= next;
      PathFromExtends(next, ancestors[1..]);
    }
  }

  /** The segment an ancestor contributes when the path is still empty. */
  function FirstSegment(a: ArbitraryProperty): string
  {
    match a.property.kind
    case Element(sequence) => Bracketed(sequence)
    case Named => a.resolvedName
  }

  /** No leading separator: the path starts with the first ancestor's own segment. */
  lemma NoLeadingDot(ancestors: seq<ArbitraryProperty>)
    requires ancestors != []
    ensures FirstSegment(ancestors[0]) <= AncestorPath(ancestors)
  {
    PathFromExtends(AppendAncestor("", ancestors[0]), ancestors[1..]);
  }

  /**
   * The target is rendered differently from an ancestor: an element target
   * gives the same path it would give as the last ancestor, but a named
   * target after a non-empty path is appended with no "." in front, so its
   * path is one character shorter than the ancestor rendering. With no
   * ancestors the path is exactly the target's segment.
   */
  lemma TargetVersusAncestorRendering(context: TraverseContext, property: Property, a: ArbitraryProperty)
    requires a.property == property && a.resolvedName == context.options.resolveName(property)
    ensures var asAncestor := AncestorPath(context.arbitraryProperties + [a]);
            && (property.kind.Element? ==> TargetPath(context, property) == asAncestor)
            && (property.kind.Named? && AncestorPath(context.arbitraryProperties) != "" ==>
                  TargetPath(context, property) == AncestorPath(context.arbitraryProperties) + a.resolvedName
                  && |asAncestor| == |TargetPath(context, property)| + 1)
            && (context.arbitraryProperties == [] ==> TargetPath(context, property) == TargetSegment(context.options, property))
  {
    PathFromSnoc("", context.arbitraryProperties, a);
  }

  /** A concrete instance: under a child named "a", a field named "b" renders as "ab". */
  lemma NamedTargetConcatenated(options: GenerateOptions, typ: TypeInfo)
    requires options.resolveName(Property(Named, "b", typ)) == "b"
    ensures var a := ArbitraryProperty(Property(Named, "a", typ), "a", None, [], 0.0);
            TargetPath(TraverseContext([a], options), Property(Named, "b", typ)) == "ab"
  {
    var a := ArbitraryProperty(Property(Named, "a", typ), "a", None, [], 0.0);
    assert PathFrom("", [a]) == PathFrom("a", []);
  }

  /** Only parsed expressions matter: expressions that parse alike match alike. */
  lemma MatchDependsOnlyOnParse(context: TraverseContext, property: Property, e1: string, e2: string)
    requires context.options.parse(e1) == context.options.parse(e2)
    ensures Matches(context, property, e1) <==> Matches(context, property, e2)
  {
  }
}
