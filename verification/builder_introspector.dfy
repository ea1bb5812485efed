/**
 * The builder-pattern construction strategy. For a class with a static
 * builder() method and a builder type with build(), every child whose
 * property name is the name of a one-parameter builder method, and whose
 * arbitrary exists under its resolved name, becomes one builder step; a
 * sampled instance is made by running the steps in order on a fresh
 * builder and calling build() once.
 *
 * A builder is modelled as a map from setter name to value, a setter call
 * as a map update, and build() as returning the final map.
 */
module BuilderIntrospection {
  import opened Wrappers
  import opened Generator

  /** A method signature as reflection reports it. */
  datatype MethodSignature = MethodSignature(name: string, parameterCount: nat)

  /** A value produced by a child's arbitrary. */
  datatype Value = Value(repr: string)

  /** A child's arbitrary; only its identity matters here. */
  datatype Arbitrary = Arbitrary(id: nat)

  /**
   * The class of the object builder() returns: its methods, the state a
   * fresh builder starts in, and the values its setters reject with an
   * IllegalArgumentException (with the message they throw).
   */
  datatype BuilderType = BuilderType(
    methods: seq<MethodSignature>,
    initialState: map<string, Value>,
    rejects: (string, Value) -> Option<string>)

  /** What the introspector is given for one node. */
  datatype IntrospectContext = IntrospectContext(
    typeName: string,
    isInterface: bool,
    builderType: Option<BuilderType>,  // None: the class has no builder() method
    children: seq<ArbitraryProperty>,
    arbitrariesByResolvedName: map<string, Arbitrary>)

  /** A step: feed the arbitrary's sample through the named one-parameter setter. */
  datatype BuilderStep = BuilderStep(setterName: string, arbitrary: Arbitrary)

  datatype IntrospectorResult =
    | Empty
    | BuilderResult(builderType: BuilderType, steps: seq<BuilderStep>)

  const BUILDER_METHOD_NAME: string := "builder"
  const BUILD_METHOD_NAME: string := "build"

  function NoBuilderMessage(typeName: string): string
  {
    "Class has no builder class. " + typeName
  }

  function NoBuildMessage(): string
  {
    "build method could not found. " + BUILD_METHOD_NAME
  }

  /** findMethod(builderType, "build"): a method named build taking no arguments. */
  predicate HasBuildMethod(builderType: BuilderType)
  {
    exists i :: 0 <= i < |builderType.methods| &&
      builderType.methods[i] == MethodSignature(BUILD_METHOD_NAME, 0)
  }

  /** A method with the given name and exactly one parameter. */
  predicate HasSetter(builderType: BuilderType, name: string)
  {
    exists i :: 0 <= i < |builderType.methods| && builderType.methods[i] == MethodSignature(name, 1)
  }

  /** Whether a child contributes a step. */
  predicate Contributes(context: IntrospectContext, builderType: BuilderType, child: ArbitraryProperty)
  {
    HasSetter(builderType, child.property.name) && child.resolvedName in context.arbitrariesByResolvedName
  }

  /** The step a contributing child yields. */
  function StepOf(context: IntrospectContext, child: ArbitraryProperty): BuilderStep
    requires child.resolvedName in context.arbitrariesByResolvedName
  {
    BuilderStep(child.property.name, context.arbitrariesByResolvedName[child.resolvedName])
  }

  /** The steps of the contributing children, in children order. */
  function SelectSteps(context: IntrospectContext, builderType: BuilderType, children: seq<ArbitraryProperty>): (r: seq<BuilderStep>)
    ensures |r| <= |children|
  {
    if children == [] then []
    else
      var rest := SelectSteps(context, builderType, children[1..]);
      if Contributes(context, builderType, children[0]) then [StepOf(context, children[0])] + rest else rest
  }

  /**
   * BuilderArbitraryIntrospector.introspect. An interface gives the empty
   * result before anything is looked up; a missing builder() or build()
   * raises the argument error with its fixed message; otherwise the child
   * loop folds the contributing children into builder steps.
   */
  method Introspect(context: IntrospectContext) returns (r: Result<IntrospectorResult>)
    ensures context.isInterface ==> r == Success(Empty)
    ensures !context.isInterface && context.builderType.None? ==>
              r == Failure(IllegalArgument(NoBuilderMessage(context.typeName)))
    ensures !context.isInterface && context.builderType.Some? && !HasBuildMethod(context.builderType.value) ==>
              r == Failure(IllegalArgument(NoBuildMessage()))
    ensures !context.isInterface && context.builderType.Some? && HasBuildMethod(context.builderType.value) ==>
              r == Success(BuilderResult(context.builderType.value,
                                         SelectSteps(context, context.builderType.value, context.children)))
  {
    if context.isInterface {
      return Success(Empty);
    }
    if context.builderType.None? {
      return Failure(IllegalArgument(NoBuilderMessage(context.typeName)));
    }
    var builderType := context.builderType.value;
    if !HasBuildMethod(builderType) {
      return Failure(IllegalArgument(NoBuildMessage()));
    }
    var steps: seq<BuilderStep> := [];
    for i := 0 to |context.children|
      invariant steps + SelectSteps(context, builderType, context.children[i..])
                == SelectSteps(context, builderType, context.children)
    {
      var child := context.children[i];
      assert context.children[i..][0] == child && context.children[i..][1..] == context.children[i + 1..];
      var fieldName := child.property.name;
      var hasSetter := false;
      for k := 0 to |builderType.methods|
        invariant hasSetter <==> exists j :: 0 <= j < k && builderType.methods[j] == MethodSignature(fieldName, 1)
      {
        if builderType.methods[k].name == fieldName && builderType.methods[k].parameterCount == 1 {
          hasSetter := true;
        }
      }
      assert hasSetter <==> HasSetter(builderType, fieldName);
      if !hasSetter {
        continue;
      }
      if child.resolvedName in context.arbitrariesByResolvedName {
        steps := steps + [StepOf(context, child)];
      }
    }
    assert context.children[|context.children|..] == [];
    assert steps + [] == steps;
    r := Success(BuilderResult(builderType, steps));
  }

  /**
   * One step of the combinator: a null sample leaves the builder as it is,
   * a value goes through the setter, and a setter's IllegalArgumentException
   * propagates with its own message.
   */
  function ApplyStep(builderType: BuilderType, builder: map<string, Value>, setterName: string, value: Option<Value>): (r: Result<map<string, Value>>)
    ensures value.None? ==> r == Success(builder)
    ensures value.Some? && builderType.rejects(setterName, value.value).Some? ==>
              r == Failure(IllegalArgument(builderType.rejects(setterName, value.value).value))
    ensures value.Some? && builderType.rejects(setterName, value.value).None? ==>
              r.Success? && r.value.Keys == builder.Keys + {setterName} && r.value[setterName] == value.value
              && forall n :: n in builder && n != setterName ==> r.value[n] == builder[n]
  {
    match value
    case None => Success(builder)
    case Some(v) =>
      match builderType.rejects(setterName, v)
      case Some(message) => Failure(IllegalArgument(message))
      case None => Success(builder[setterName := v])
  }

  /** The sample is present and the step's setter rejects it. */
  predicate Rejects(builderType: BuilderType, step: BuilderStep, value: Option<Value>)
  {
    value.Some? && builderType.rejects(step.setterName, value.value).Some?
  }

  /** The setter names of the steps whose sample is present. */
  function SetNames(steps: seq<BuilderStep>, values: seq<Option<Value>>): set<string>
    requires |values| == |steps|
  {
    set i | 0 <= i < |steps| && values[i].Some? :: steps[i].setterName
  }

  /** The set names of the steps are those of the first step and of the rest. */
  lemma SetNamesCons(steps: seq<BuilderStep>, values: seq<Option<Value>>)
    requires |values| == |steps| && steps != []
    ensures SetNames(steps, values)
            == (if values[0].Some? then {steps[0].setterName} else {}) + SetNames(steps[1..], values[1..])
  {
    var tail := SetNames(steps[1..], values[1..]);
    forall n | n in tail ensures n in SetNames(steps, values) {
      var i :| 0 <= i < |steps| - 1 && values[1..][i].Some? && steps[1..][i].setterName == n;
      assert steps[i + 1] == steps[1..][i] && values[i + 1] == values[1..][i];
    }
    forall n | n in SetNames(steps, values)
      ensures n in tail || (values[0].Some? && n == steps[0].setterName)
    {
      var i :| 0 <= i < |steps| && values[i].Some? && steps[i].setterName == n;
      if i > 0 {
        assert steps[1..][i - 1] == steps[i] && values[1..][i - 1] == values[i];
      }
    }
  }

  /**
   * Runs the steps in order on builder with the sampled values. The run
   * fails exactly when some setter rejects its present sample; a
   * successful run holds the builder's names and the setter names of the
   * steps with a present sample, and no other name.
   */
  function RunSteps(builderType: BuilderType, builder: map<string, Value>, steps: seq<BuilderStep>, values: seq<Option<Value>>)
    : (r: Result<map<string, Value>>)
    requires |values| == |steps|
    ensures r.Success? <==> forall i :: 0 <= i < |steps| ==> !Rejects(builderType, steps[i], values[i])
    ensures r.Success? ==> r.value.Keys == builder.Keys + SetNames(steps, values)
    decreases |steps|
  {
    if steps == [] then Success(builder)
    else
      assert forall i :: 0 < i < |steps| ==> steps[1..][i - 1] == steps[i] && values[1..][i - 1] == values[i];
      SetNamesCons(steps, values);
      match ApplyStep(builderType, builder, steps[0].setterName, values[0])
      case Failure(e) => Failure(e)
      case Success(next) => RunSteps(builderType, next, steps[1..], values[1..])
  }

  /**
   * The sampled instance: a fresh builder, every step in order, then
   * build() once. It is built exactly when no setter rejects its sample;
   * then it holds the fresh builder's names and the setters of the present
   * samples, and, with distinct setters, each present sample under its
   * step's setter and the fresh builder's value under every other name.
   */
  function Assemble(result: IntrospectorResult, values: seq<Option<Value>>): (r: Result<map<string, Value>>)
    requires result.BuilderResult? && |values| == |result.steps|
    ensures r.Success? <==> forall i :: 0 <= i < |result.steps| ==> !Rejects(result.builderType, result.steps[i], values[i])
    ensures r.Success? ==> r.value.Keys == result.builderType.initialState.Keys + SetNames(result.steps, values)
    ensures r.Success? && DistinctSetters(result.steps) ==>
              && (forall i :: 0 <= i < |result.steps| && values[i].Some? ==>
                    r.value[result.steps[i].setterName] == values[i].value)
              && (forall n :: n in result.builderType.initialState && n !in SetNames(result.steps, values) ==>
                    r.value[n] == result.builderType.initialState[n])
  {
    var built := RunSteps(result.builderType, result.builderType.initialState, result.steps, values);
    if built.Success? && DistinctSetters(result.steps) then
      RunStepsSetsEachStep(result.builderType, result.builderType.initialState, result.steps, values);
      built
    else
      built
  }

  /** The setter names of the steps are pairwise different. */
  predicate DistinctSetters(steps: seq<BuilderStep>)
  {
    forall i, j :: 0 <= i < j < |steps| ==> steps[i].setterName != steps[j].setterName
  }

  /**
   * With distinct setters and no setter rejecting its sample, the built
   * instance holds each present sample under its step's setter and keeps
   * the builder's value under every other name: a null sample leaves its
   * setter's name as the builder had it.
   */
  lemma {:induction false} RunStepsSetsEachStep(
    builderType: BuilderType, builder: map<string, Value>, steps: seq<BuilderStep>, values: seq<Option<Value>>)
    requires |values| == |steps| && DistinctSetters(steps)
    requires forall i :: 0 <= i < |steps| ==> !Rejects(builderType, steps[i], values[i])
    ensures RunSteps(builderType, builder, steps, values).Success?
    ensures var built := RunSteps(builderType, builder, steps, values).value;
            && (forall i :: 0 <= i < |steps| && values[i].Some? ==> built[steps[i].setterName] == values[i].value)
            && (forall n :: n in builder && n !in SetNames(steps, values) ==> built[n] == builder[n])
    decreases |steps|
  {
    if steps != [] {
      var next := ApplyStep(builderType, builder, steps[0].setterName, values[0]).value;
      forall i | 0 <= i < |steps| - 1
        ensures steps[1..][i] == steps[i + 1] && values[1..][i] == values[i + 1]
      {
      }
      RunStepsSetsEachStep(builderType, next, steps[1..], values[1..]);
      SetNamesCons(steps, values);
      var built := RunSteps(builderType, next, steps[1..], values[1..]).value;
      forall i | 0 <= i < |steps| && values[i].Some?
        ensures built[steps[i].setterName] == values[i].value
      {
        if i == 0 {
          assert steps[0].setterName !in SetNames(steps[1..], values[1..]);
        }
      }
    }
  }

  /**
   * The first setter that rejects its value ends the run with that
   * setter's own IllegalArgumentException, unwrapped.
   */
  lemma {:induction false} RunStepsPropagatesRejection(
    builderType: BuilderType, builder: map<string, Value>, steps: seq<BuilderStep>, values: seq<Option<Value>>, k: nat)
    requires |values| == |steps| && k < |steps|
    requires values[k].Some? && builderType.rejects(steps[k].setterName, values[k].value).Some?
    requires forall i :: 0 <= i < k ==> values[i].None? || builderType.rejects(steps[i].setterName, values[i].value).None?
    ensures RunSteps(builderType, builder, steps, values)
            == Failure(IllegalArgument(builderType.rejects(steps[k].setterName, values[k].value).value))
    decreases k
  {
    if k > 0 {
      var next := ApplyStep(builderType, builder, steps[0].setterName, values[0]).value;
      assert steps[1..][k - 1] == steps[k] && values[1..][k - 1] == values[k];
      forall i | 0 <= i < k - 1
        ensures values[1..][i].None? || builderType.rejects(steps[1..][i].setterName, values[1..][i].value).None?
      {
        assert steps[1..][i] == steps[i + 1] && values[1..][i] == values[i + 1];
      }
      RunStepsPropagatesRejection(builderType, next, steps[1..], values[1..], k - 1);
    }
  }

  /**
   * The step of a child is among the steps iff the child contributes: the
   * builder type has a one-parameter method of the child's property name
   * and an arbitrary exists under the child's resolved name. Every step is
   * the step of some contributing child.
   */
  lemma {:induction false} SelectStepsMembership(
    context: IntrospectContext, builderType: BuilderType, children: seq<ArbitraryProperty>)
    ensures forall i :: 0 <= i < |children| && Contributes(context, builderType, children[i]) ==>
              StepOf(context, children[i]) in SelectSteps(context, builderType, children)
    ensures forall s :: s in SelectSteps(context, builderType, children) ==>
              exists i :: 0 <= i < |children| && Contributes(context, builderType, children[i])
                          && s == StepOf(context, children[i])
    decreases |children|
  {
    if children != [] {
      SelectStepsMembership(context, builderType, children[1..]);
      forall i | 1 <= i < |children|
        ensures children[1..][i - 1] == children[i]
      {
      }
    }
  }

  /**
   * The steps are exactly the steps of the contributing children, one per
   * contributing child, in children order: picked lists the positions of
   * the contributing children, increasing, and step k is the step of the
   * child at picked[k].
   */
  lemma {:induction false} SelectStepsInOrder(
    context: IntrospectContext, builderType: BuilderType, children: seq<ArbitraryProperty>)
    returns (picked: seq<int>)
    ensures Picks(context, builderType, children, SelectSteps(context, builderType, children), picked)
    decreases |children|
  {
    if children == [] {
      picked := [];
    } else {
      var rest := SelectStepsInOrder(context, builderType, children[1..]);
      picked := PicksNext(context, builderType, children, SelectSteps(context, builderType, children[1..]), rest);
    }
  }

  /** The picks of the children after the first extend to all children, taking the first if it contributes. */
  lemma PicksNext(context: IntrospectContext, builderType: BuilderType, children: seq<ArbitraryProperty>,
                  steps: seq<BuilderStep>, rest: seq<int>)
    returns (picked: seq<int>)
    requires children != [] && Picks(context, builderType, children[1..], steps, rest)
    ensures Contributes(context, builderType, children[0]) ==>
              Picks(context, builderType, children, [StepOf(context, children[0])] + steps, picked)
    ensures !Contributes(context, builderType, children[0]) ==> Picks(context, builderType, children, steps, picked)
  {
    var shifted := Shift(rest);
    ShiftSteps(context, builderType, children, steps, rest);
    ShiftIncreasing(rest);
    ShiftCovers(context, builderType, children, rest);
    if Contributes(context, builderType, children[0]) {
      picked := [0] + shifted;
      TakeFirstSteps(context, builderType, children, steps, shifted);
      TakeFirstOrder(shifted);
      TakeFirstCovers(context, builderType, children, shifted);
    } else {
      picked := shifted;
      SkipFirstCovers(context, builderType, children, shifted);
    }
  }

  lemma TakeFirstCovers(context: IntrospectContext, builderType: BuilderType, children: seq<ArbitraryProperty>, shifted: seq<int>)
    requires children != []
    requires forall i :: 1 <= i < |children| && Contributes(context, builderType, children[i]) ==> i in shifted
    ensures Covers(context, builderType, children, [0] + shifted)
  {
    var picked := [0] + shifted;
    assert picked[0] == 0;
    forall i | 1 <= i < |children| && i in shifted
      ensures i in picked
    {
      var k :| 0 <= k < |shifted| && shifted[k] == i;
      assert picked[k + 1] == i;
    }
  }

  lemma SkipFirstCovers(context: IntrospectContext, builderType: BuilderType, children: seq<ArbitraryProperty>, shifted: seq<int>)
    requires children != [] && !Contributes(context, builderType, children[0])
    requires forall i :: 1 <= i < |children| && Contributes(context, builderType, children[i]) ==> i in shifted
    ensures Covers(context, builderType, children, shifted)
  {
  }

  /** Picking the first child in front of picks among all children picks its step in front of their steps. */
  lemma TakeFirstSteps(context: IntrospectContext, builderType: BuilderType, children: seq<ArbitraryProperty>,
                       steps: seq<BuilderStep>, shifted: seq<int>)
    requires children != [] && Contributes(context, builderType, children[0])
    requires PicksSteps(context, builderType, children, steps, shifted)
    ensures PicksSteps(context, builderType, children, [StepOf(context, children[0])] + steps, [0] + shifted)
  {
    var picked, all := [0] + shifted, [StepOf(context, children[0])] + steps;
    forall k | 1 <= k < |picked|
      ensures picked[k] == shifted[k - 1] && all[k] == steps[k - 1]
    {
    }
  }

  lemma TakeFirstOrder(shifted: seq<int>)
    requires Increasing(shifted) && forall k :: 0 <= k < |shifted| ==> shifted[k] >= 1
    ensures Increasing([0] + shifted)
  {
    var picked := [0] + shifted;
    forall k | 1 <= k < |picked|
      ensures picked[k] == shifted[k - 1]
    {
    }
  }

  /** Shifted by one, the picks of the children after the first pick the same steps among all children. */
  lemma ShiftSteps(context: IntrospectContext, builderType: BuilderType, children: seq<ArbitraryProperty>,
                   steps: seq<BuilderStep>, rest: seq<int>)
    requires children != [] && PicksSteps(context, builderType, children[1..], steps, rest)
    ensures PicksSteps(context, builderType, children, steps, Shift(rest))
    ensures forall k :: 0 <= k < |rest| ==> Shift(rest)[k] >= 1
  {
    var tail, shifted := children[1..], Shift(rest);
    ShiftIndex(children, rest);
    forall k | 0 <= k < |shifted|
      ensures && 0 <= shifted[k] < |children|
              && Contributes(context, builderType, children[shifted[k]])
              && steps[k] == StepOf(context, children[shifted[k]])
    {
      var child := tail[rest[k]];
      assert children[shifted[k]] == child;
      assert Contributes(context, builderType, child) && steps[k] == StepOf(context, child);
    }
  }

  /** An index into the tail of s, one higher, is the same position of s. */
  lemma ShiftIndex<T>(s: seq<T>, rest: seq<int>)
    requires s != [] && forall k :: 0 <= k < |rest| ==> 0 <= rest[k] < |s| - 1
    ensures forall k :: 0 <= k < |rest| ==>
              1 <= Shift(rest)[k] < |s| && s[Shift(rest)[k]] == s[1..][rest[k]]
  {
  }

  lemma ShiftIncreasing(rest: seq<int>)
    requires Increasing(rest)
    ensures Increasing(Shift(rest))
  {
  }

  /** Shifted by one, the picks of the children after the first cover the contributing children after the first. */
  lemma ShiftCovers(context: IntrospectContext, builderType: BuilderType, children: seq<ArbitraryProperty>, rest: seq<int>)
    requires children != [] && Covers(context, builderType, children[1..], rest)
    ensures forall i :: 1 <= i < |children| && Contributes(context, builderType, children[i]) ==> i in Shift(rest)
  {
    forall i | 1 <= i < |children| && Contributes(context, builderType, children[i])
      ensures i in Shift(rest)
    {
      assert children[1..][i - 1] == children[i];
      var k :| 0 <= k < |rest| && rest[k] == i - 1;
      assert Shift(rest)[k] == i;
    }
  }

  /** Every index one higher. */
  function Shift(indices: seq<int>): (r: seq<int>)
    ensures |r| == |indices| && forall k :: 0 <= k < |indices| ==> r[k] == indices[k] + 1
  {
    if indices == [] then [] else [indices[0] + 1] + Shift(indices[1..])
  }

  /**
   * picked lists, in increasing order, the index of every contributing
   * child and of no other child, and the k-th step is the step of child
   * picked[k].
   */
  ghost predicate Picks(context: IntrospectContext, builderType: BuilderType, children: seq<ArbitraryProperty>,
                        steps: seq<BuilderStep>, picked: seq<int>)
  {
    && PicksSteps(context, builderType, children, steps, picked)
    && Increasing(picked)
    && Covers(context, builderType, children, picked)
  }

  /** Every contributing child is picked. */
  ghost predicate Covers(context: IntrospectContext, builderType: BuilderType, children: seq<ArbitraryProperty>, picked: seq<int>)
  {
    forall i :: 0 <= i < |children| && Contributes(context, builderType, children[i]) ==> i in picked
  }

  /** The k-th step is the step of the contributing child picked[k]. */
  ghost predicate PicksSteps(context: IntrospectContext, builderType: BuilderType, children: seq<ArbitraryProperty>,
                             steps: seq<BuilderStep>, picked: seq<int>)
  {
    && |picked| == |steps|
    && forall k :: 0 <= k < |picked| ==>
         && 0 <= picked[k] < |children|
         && Contributes(context, builderType, children[picked[k]])
         && steps[k] == StepOf(context, children[picked[k]])
  }

  ghost predicate Increasing(picked: seq<int>)
  {
    forall k, l :: 0 <= k < l < |picked| ==> picked[k] < picked[l]
  }


  /** When every child contributes, the steps are the children's steps in the same order. */
  lemma {:induction false} SelectStepsAllContribute(
    context: IntrospectContext, builderType: BuilderType, children: seq<ArbitraryProperty>)
    requires forall i :: 0 <= i < |children| ==> Contributes(context, builderType, children[i])
    ensures var steps := SelectSteps(context, builderType, children);
            && |steps| == |children|
            && forall i :: 0 <= i < |children| ==>
                 children[i].resolvedName in context.arbitrariesByResolvedName && steps[i] == StepOf(context, children[i])
    decreases |children|
  {
    if children != [] {
      SelectStepsAllContribute(context, builderType, children[1..]);
      forall i | 1 <= i < |children|
        ensures children[1..][i - 1] == children[i]
      {
      }
    }
  }
}
