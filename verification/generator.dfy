/**
 * The values the property generator works with: a property of a type (an
 * object member or a container element), the "arbitrary property" the
 * generator builds from it, container-size directives, and the options
 * bundle that supplies the generator, the property-name resolver and the
 * path-expression parser. The three collaborators are not part of this
 * model; they are carried as functions.
 */
module Generator {
  import opened Wrappers

  /** The key under which a directive addresses the root of a tree. */
  const HEAD_NAME: string := "$"

  /** What the model needs of a Java type: its name and whether it is a Map. */
  datatype TypeInfo = TypeInfo(typeName: string, isMap: bool)

  /** An element property carries its position in the container. */
  datatype PropertyKind = Element(sequence: nat) | Named

  datatype Property = Property(kind: PropertyKind, name: string, typ: TypeInfo)

  /** Element count bounds for a container node. */
  datatype ContainerInfo = ContainerInfo(elementMinSize: nat, elementMaxSize: nat, manipulated: bool)

  /**
   * One generated node's description. A container is recognised by having
   * container info; nullInject is the probability of producing null.
   */
  datatype ArbitraryProperty = ArbitraryProperty(
    property: Property,
    resolvedName: string,
    containerInfo: Option<ContainerInfo>,
    childProperties: seq<Property>,
    nullInject: real)

  /** The arguments handed to the property generator. */
  datatype GeneratorContext = GeneratorContext(
    property: Property,
    elementIndex: Option<nat>,
    parent: Option<ArbitraryProperty>,
    containerInfo: Option<ContainerInfo>)

  /** A parsed path expression; two parses are compared for equality only. */
  datatype ArbitraryExpression = ArbitraryExpression(normalForm: string)

  datatype GenerateOptions = GenerateOptions(
    generate: GeneratorContext -> ArbitraryProperty,
    resolveName: Property -> string,
    parse: string -> ArbitraryExpression)

  /** True when the generator keeps the property it was asked to generate. */
  ghost predicate KeepsProperty(options: GenerateOptions)
  {
    forall c: GeneratorContext :: options.generate(c).property == c.property
  }

  predicate IsDigit(c: char)
  {
    '0' <= c <= '9'
  }

  function Digit(d: nat): (c: char)
    requires d < 10
    ensures IsDigit(c) && c as int - '0' as int == d
  {
    ('0' as int + d) as char
  }

  /** Decimal rendering of a non-negative int, as StringBuilder.append(int) writes it. */
  function NatToString(n: nat): (s: string)
    ensures |s| > 0
    ensures forall i :: 0 <= i < |s| ==> IsDigit(s[i])
    decreases n
  {
    if n < 10 then [Digit(n)] else NatToString(n / 10) + [Digit(n % 10)]
  }

  /** The number a string of decimal digits denotes. */
  function DigitsValue(s: string): nat
    requires forall i :: 0 <= i < |s| ==> IsDigit(s[i])
  {
    if s == [] then 0
    else
      assert IsDigit(s[|s| - 1]);
      10 * DigitsValue(s[..|s| - 1]) + (s[|s| - 1] as int - '0' as int)
  }

  /** Reading the rendering back gives the number: the rendering loses nothing. */
  lemma {:induction false} NatToStringRoundTrip(n: nat)
    ensures DigitsValue(NatToString(n)) == n
    decreases n
  {
    var s := NatToString(n);
    if n >= 10 {
      NatToStringRoundTrip(n / 10);
      assert s[..|s| - 1] == NatToString(n / 10);
    }
  }

  /** Distinct element positions render differently. */
  lemma NatToStringInjective(m: nat, n: nat)
    ensures NatToString(m) == NatToString(n) ==> m == n
  {
    NatToStringRoundTrip(m);
    NatToStringRoundTrip(n);
  }
}
