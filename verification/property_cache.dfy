/**
 * The metadata cache: per class, the instance fields by name, the bean
 * property descriptors by name and the static factory methods with their
 * parameters, each memoised on first use. Properties of a class are the
 * field view and the descriptor view merged by name.
 *
 * Reflection is given as a function from a class to what reflection reports
 * about it; the three static tables are the fields of one cache object.
 */
module PropertyCaching {
  import opened Wrappers

  /** A class, identified by its name. */
  type ClassId = string

  datatype Field = Field(name: string, declaringClass: ClassId, isStatic: bool)

  datatype PropertyDescriptor = PropertyDescriptor(name: string)

  datatype Parameter = Parameter(name: string)

  /** A declared method: the key of the factory-method table. */
  datatype MethodInfo = MethodInfo(name: string, isStatic: bool, returnType: ClassId, parameters: seq<Parameter>)

  /**
   * What reflection reports about a class: its fields including inherited
   * ones, superclass fields first; its bean property descriptors (None when
   * bean introspection fails); its declared methods.
   */
  datatype ClassInfo = ClassInfo(
    fieldsTopDown: seq<Field>,
    beanDescriptors: Option<seq<PropertyDescriptor>>,
    declaredMethods: seq<MethodInfo>)

  datatype Property =
    | FieldProperty(field: Field)
    | DescriptorProperty(descriptor: PropertyDescriptor)
    | CompositeProperty(primary: Property, secondary: Property)
    | FactoryMethodProperty(parameterName: string, factoryMethod: MethodInfo, fieldProperty: Option<Field>)

  /** getName: a composite takes the name of its primary view. */
  function PropertyName(p: Property): string
  {
    match p
    case FieldProperty(f) => f.name
    case DescriptorProperty(d) => d.name
    case CompositeProperty(primary, _) => PropertyName(primary)
    case FactoryMethodProperty(parameterName, _, _) => parameterName
  }

  /**
   * A table filled by put(name(x), x) for every kept x in order: a name is
   * present iff some kept entry has it, and it holds the last kept entry
   * with that name.
   */
  function LastByName<T>(xs: seq<T>, name: T -> string, keep: T -> bool): (r: map<string, T>)
    ensures forall n :: n in r <==> exists i :: 0 <= i < |xs| && keep(xs[i]) && name(xs[i]) == n
    ensures forall i :: 0 <= i < |xs| && keep(xs[i])
                        && (forall j :: i < j < |xs| && keep(xs[j]) ==> name(xs[j]) != name(xs[i])) ==>
              r[name(xs[i])] == xs[i]
    ensures forall n :: n in r ==> name(r[n]) == n && keep(r[n])
    decreases |xs|
  {
    if xs == [] then map[]
    else
      var init := xs[..|xs| - 1];
      var x := xs[|xs| - 1];
      var m := LastByName(init, name, keep);
      assert forall i :: 0 <= i < |init| ==> init[i] == xs[i];
      if keep(x) then m[name(x) := x] else m
  }

  function FieldName(f: Field): string
  {
    f.name
  }

  predicate IsInstanceField(f: Field)
  {
    !f.isStatic
  }

  function DescriptorName(d: PropertyDescriptor): string
  {
    d.name
  }

  /** Every descriptor but the one named "class" (from getClass()). */
  predicate IsBeanProperty(d: PropertyDescriptor)
  {
    d.name != "class"
  }

  /** The field table of a class: its instance fields by name, a subclass field hiding an inherited one. */
  function FieldMap(fields: seq<Field>): map<string, Field>
  {
    LastByName(fields, FieldName, IsInstanceField)
  }

  /** The descriptor table of a class: empty when bean introspection fails. */
  function DescriptorMap(descriptors: Option<seq<PropertyDescriptor>>): (r: map<string, PropertyDescriptor>)
    ensures "class" !in r
    ensures descriptors.None? ==> r == map[]
    ensures forall n :: n in r ==> r[n].name == n
  {
    match descriptors
    case None => map[]
    case Some(ds) => LastByName(ds, DescriptorName, IsBeanProperty)
  }

  /** A factory method of c: static, and returning c itself. */
  predicate IsFactoryMethod(c: ClassId, m: MethodInfo)
  {
    m.isStatic && m.returnType == c
  }

  /** The factory-method table of a class: each factory method with its parameters. */
  function FactoryMethodMap(c: ClassId, methods: seq<MethodInfo>): map<MethodInfo, seq<Parameter>>
  {
    map m | m in methods && IsFactoryMethod(c, m) :: m.parameters
  }

  /** The computation getFields memoises: one put per instance field, in top-down order. */
  method CollectFields(fields: seq<Field>) returns (result: map<string, Field>)
    ensures result == FieldMap(fields)
  {
    result := map[];
    for i := 0 to |fields|
      invariant result == FieldMap(fields[..i])
    {
      assert fields[..i + 1][..i] == fields[..i];
      var field := fields[i];
      if !field.isStatic {
        result := result[field.name := field];
      }
    }
    assert fields[..|fields|] == fields;
  }

  /** The computation getPropertyDescriptors memoises: skip "class", put the rest by name. */
  method CollectDescriptors(descriptors: Option<seq<PropertyDescriptor>>) returns (result: map<string, PropertyDescriptor>)
    ensures result == DescriptorMap(descriptors)
  {
    result := map[];
    if descriptors.None? {
      return;
    }
    var ds := descriptors.value;
    for i := 0 to |ds|
      invariant result == LastByName(ds[..i], DescriptorName, IsBeanProperty)
    {
      assert ds[..i + 1][..i] == ds[..i];
      var descriptor := ds[i];
      if descriptor.name == "class" {
        continue;
      }
      result := result[descriptor.name := descriptor];
    }
    assert ds[..|ds|] == ds;
  }

  /** The computation getParametersByFactoryMethods memoises: filter the declared methods, put each. */
  method CollectFactoryMethods(c: ClassId, methods: seq<MethodInfo>) returns (result: map<MethodInfo, seq<Parameter>>)
    ensures forall m :: m in result <==> m in methods && m.isStatic && m.returnType == c
    ensures forall m :: m in result ==> result[m] == m.parameters
    ensures result == FactoryMethodMap(c, methods)
  {
    result := map[];
    for i := 0 to |methods|
      invariant forall m :: m in result <==> m in methods[..i] && IsFactoryMethod(c, m)
      invariant forall m :: m in result ==> result[m] == m.parameters
    {
      assert forall m :: m in methods[..i + 1] <==> m in methods[..i] || m == methods[i];
      var factoryMethod := methods[i];
      if factoryMethod.isStatic && factoryMethod.returnType == c {
        result := result[factoryMethod := factoryMethod.parameters];
      }
    }
    assert methods[..|methods|] == methods;
  }

  /** The views a name has: the field view if any, then the descriptor view if any. */
  function Views(fieldMap: map<string, Field>, descriptorMap: map<string, PropertyDescriptor>, name: string): seq<Property>
  {
    (if name in fieldMap then [FieldProperty(fieldMap[name])] else [])
    + (if name in descriptorMap then [DescriptorProperty(descriptorMap[name])] else [])
  }

  /** The one property getProperties yields for a name: its only view, or a composite of both. */
  function Merged(fieldMap: map<string, Field>, descriptorMap: map<string, PropertyDescriptor>, name: string): (p: Property)
    requires name in fieldMap || name in descriptorMap
    ensures name in fieldMap && name in descriptorMap ==>
              p == CompositeProperty(FieldProperty(fieldMap[name]), DescriptorProperty(descriptorMap[name]))
    ensures name in fieldMap && name !in descriptorMap ==> p == FieldProperty(fieldMap[name])
    ensures name !in fieldMap && name in descriptorMap ==> p == DescriptorProperty(descriptorMap[name])
    ensures (forall n :: n in fieldMap ==> fieldMap[n].name == n) && (forall n :: n in descriptorMap ==> descriptorMap[n].name == n) ==>
              PropertyName(p) == name
  {
    var views := Views(fieldMap, descriptorMap, name);
    if |views| == 1 then views[0] else CompositeProperty(views[0], views[1])
  }

  /** ps holds exactly one property per name in names, the merged one. */
  ghost predicate MergedFor(ps: seq<Property>, fieldMap: map<string, Field>, descriptorMap: map<string, PropertyDescriptor>,
                            names: set<string>)
  {
    && (forall i :: 0 <= i < |ps| ==>
          && PropertyName(ps[i]) in names
          && (PropertyName(ps[i]) in fieldMap || PropertyName(ps[i]) in descriptorMap)
          && ps[i] == Merged(fieldMap, descriptorMap, PropertyName(ps[i])))
    && (forall n :: n in names ==> exists i :: 0 <= i < |ps| && PropertyName(ps[i]) == n)
    && (forall i, j :: 0 <= i < j < |ps| ==> PropertyName(ps[i]) != PropertyName(ps[j]))
  }

  /** ps holds exactly one property per name of either table, the merged one. */
  ghost predicate MergedView(ps: seq<Property>, fieldMap: map<string, Field>, descriptorMap: map<string, PropertyDescriptor>)
  {
    MergedFor(ps, fieldMap, descriptorMap, fieldMap.Keys + descriptorMap.Keys)
  }

  /** Emitting the merged property of one more name extends the view by that name. */
  lemma MergedForStep(ps: seq<Property>, fieldMap: map<string, Field>, descriptorMap: map<string, PropertyDescriptor>,
                      names: set<string>, name: string)
    requires MergedFor(ps, fieldMap, descriptorMap, names) && name !in names
    requires name in fieldMap || name in descriptorMap
    requires PropertyName(Merged(fieldMap, descriptorMap, name)) == name
    ensures MergedFor(ps + [Merged(fieldMap, descriptorMap, name)], fieldMap, descriptorMap, names + {name})
  {
    var r := ps + [Merged(fieldMap, descriptorMap, name)];
    forall n | n in names + {name}
      ensures exists i :: 0 <= i < |r| && PropertyName(r[i]) == n
    {
      if n == name {
        assert PropertyName(r[|ps|]) == n;
      } else {
        var i :| 0 <= i < |ps| && PropertyName(ps[i]) == n;
        assert r[i] == ps[i];
      }
    }
  }

  /** The names of a list of properties. */
  function NamesOf(ps: seq<Property>): set<string>
  {
    set i | 0 <= i < |ps| :: PropertyName(ps[i])
  }

  /** Pairwise different names: as many names as properties. */
  lemma {:induction false} DistinctNamesCount(ps: seq<Property>)
    requires forall i, j :: 0 <= i < j < |ps| ==> PropertyName(ps[i]) != PropertyName(ps[j])
    ensures |NamesOf(ps)| == |ps|
    decreases |ps|
  {
    if ps != [] {
      var init := ps[..|ps| - 1];
      var last := PropertyName(ps[|ps| - 1]);
      assert forall i :: 0 <= i < |init| ==> init[i] == ps[i];
      DistinctNamesCount(init);
      assert NamesOf(ps) == NamesOf(init) + {last};
      assert last !in NamesOf(init);
    }
  }

  /** getProperties yields exactly as many properties as there are distinct names across both tables. */
  lemma MergedViewSize(ps: seq<Property>, fieldMap: map<string, Field>, descriptorMap: map<string, PropertyDescriptor>)
    requires MergedView(ps, fieldMap, descriptorMap)
    ensures NamesOf(ps) == fieldMap.Keys + descriptorMap.Keys
    ensures |ps| == |fieldMap.Keys + descriptorMap.Keys|
  {
    forall n | n in fieldMap.Keys + descriptorMap.Keys
      ensures n in NamesOf(ps)
    {
      var i :| 0 <= i < |ps| && PropertyName(ps[i]) == n;
    }
    DistinctNamesCount(ps);
  }

  /** The stream filter and findFirst of getProperty. */
  function FindByName(ps: seq<Property>, name: string): (r: Option<Property>)
    ensures r.None? <==> forall i :: 0 <= i < |ps| ==> PropertyName(ps[i]) != name
    ensures r.Some? ==> exists i :: 0 <= i < |ps| && ps[i] == r.value && PropertyName(ps[i]) == name
                          && forall j :: 0 <= j < i ==> PropertyName(ps[j]) != name
  {
    if ps == [] then None
    else if PropertyName(ps[0]) == name then Some(ps[0])
    else
      var r := FindByName(ps[1..], name);
      assert forall i :: 1 <= i < |ps| ==> ps[1..][i - 1] == ps[i];
      r
  }

  /** In a merged view, looking a name up finds the merged property of that name, or nothing when neither table has it. */
  lemma PropertyLookup(ps: seq<Property>, fieldMap: map<string, Field>, descriptorMap: map<string, PropertyDescriptor>, name: string)
    requires MergedView(ps, fieldMap, descriptorMap)
    ensures FindByName(ps, name) == if name in fieldMap || name in descriptorMap then Some(Merged(fieldMap, descriptorMap, name)) else None
  {
    var r := FindByName(ps, name);
    if r.Some? {
      var i :| 0 <= i < |ps| && ps[i] == r.value && PropertyName(ps[i]) == name;
    }
  }

  /** The properties of one factory method's parameters, in order, each linked to the same-named field if any. */
  function FactoryProperties(fieldsByName: map<string, Field>, factoryMethod: MethodInfo, parameters: seq<Parameter>): seq<Property>
  {
    seq(|parameters|, i requires 0 <= i < |parameters| =>
      var name := parameters[i].name;
      FactoryMethodProperty(name, factoryMethod, if name in fieldsByName then Some(fieldsByName[name]) else None))
  }

  /**
   * A factory property carries its parameter's name; it is linked to a field
   * exactly when the class has an instance field of that name, and then to
   * the one that hides the others.
   */
  lemma FactoryPropertiesLinkFields(fields: seq<Field>, factoryMethod: MethodInfo, i: nat)
    requires i < |factoryMethod.parameters|
    ensures var p := FactoryProperties(FieldMap(fields), factoryMethod, factoryMethod.parameters)[i];
            var name := factoryMethod.parameters[i].name;
            && PropertyName(p) == name && p.factoryMethod == factoryMethod
            && (p.fieldProperty.Some? <==> exists j :: 0 <= j < |fields| && !fields[j].isStatic && fields[j].name == name)
            && (p.fieldProperty.Some? ==>
                  p.fieldProperty.value.name == name && !p.fieldProperty.value.isStatic && p.fieldProperty.value in fields)
  {
    var fm := FieldMap(fields);
    var name := factoryMethod.parameters[i].name;
    if name in fm {
      var j :| 0 <= j < |fields| && IsInstanceField(fields[j]) && FieldName(fields[j]) == name;
      var last := LastInstanceField(fields, j);
      assert fm[name] == fields[last];
    }
  }

  /** The last instance field at or after position j with the same name as fields[j]. */
  lemma LastInstanceField(fields: seq<Field>, j: nat) returns (last: nat)
    requires j < |fields| && IsInstanceField(fields[j])
    ensures j <= last < |fields| && IsInstanceField(fields[last]) && fields[last].name == fields[j].name
    ensures forall k :: last < k < |fields| && IsInstanceField(fields[k]) ==> fields[k].name != fields[last].name
    decreases |fields| - j
  {
    var k := j + 1;
    while k < |fields| && !(IsInstanceField(fields[k]) && fields[k].name == fields[j].name)
      invariant j < k <= |fields|
      invariant forall m :: j < m < k && IsInstanceField(fields[m]) ==> fields[m].name != fields[j].name
    {
      k := k + 1;
    }
    if k == |fields| {
      last := j;
    } else {
      last := LastInstanceField(fields, k);
    }
  }

  /** The per-parameter loop of getFactoryProperties. */
  method CollectFactoryProperties(fieldsByName: map<string, Field>, factoryMethod: MethodInfo, parameters: seq<Parameter>)
    returns (r: seq<Property>)
    ensures r == FactoryProperties(fieldsByName, factoryMethod, parameters)
  {
    r := [];
    for i := 0 to |parameters|
      invariant r == FactoryProperties(fieldsByName, factoryMethod, parameters[..i])
    {
      var name := parameters[i].name;
      var field := if name in fieldsByName then Some(fieldsByName[name]) else None;
      r := r + [FactoryMethodProperty(name, factoryMethod, field)];
    }
    assert parameters[..|parameters|] == parameters;
  }

  /** The grouping table of getProperties: one entry per name of either table, holding that name's views. */
  ghost predicate Grouped(propertiesMap: map<string, seq<Property>>,
                          fieldMap: map<string, Field>, descriptorMap: map<string, PropertyDescriptor>)
  {
    && (forall n :: n in propertiesMap <==> n in fieldMap || n in descriptorMap)
    && forall n :: n in propertiesMap ==> propertiesMap[n] == Views(fieldMap, descriptorMap, n)
  }

  /** The first loop of getProperties: a one-element list per field name. */
  method GroupFields(fieldMap: map<string, Field>) returns (propertiesMap: map<string, seq<Property>>)
    ensures Grouped(propertiesMap, fieldMap, map[])
  {
    propertiesMap := map[];
    var keys := fieldMap.Keys;
    while keys != {}
      invariant keys <= fieldMap.Keys
      invariant Grouped(propertiesMap, fieldMap - keys, map[])
      decreases keys
    {
      var name :| name in keys;
      // computeIfAbsent always creates here: the names are the keys of a map
      propertiesMap := propertiesMap[name := [FieldProperty(fieldMap[name])]];
      keys := keys - {name};
    }
    assert fieldMap - {} == fieldMap;
  }

  /** The second loop of getProperties: each descriptor appended to the list of its name. */
  method GroupDescriptors(fieldMap: map<string, Field>, descriptorMap: map<string, PropertyDescriptor>,
                          fieldGroups: map<string, seq<Property>>) returns (propertiesMap: map<string, seq<Property>>)
    requires Grouped(fieldGroups, fieldMap, map[])
    requires forall n :: n in descriptorMap ==> descriptorMap[n].name == n
    ensures Grouped(propertiesMap, fieldMap, descriptorMap)
  {
    propertiesMap := fieldGroups;
    var keys := descriptorMap.Keys;
    assert descriptorMap - keys == map[];
    while keys != {}
      invariant keys <= descriptorMap.Keys
      invariant Grouped(propertiesMap, fieldMap, descriptorMap - keys)
      decreases keys
    {
      var key :| key in keys;
      var descriptor := descriptorMap[key];
      var name := descriptor.name;
      var properties := if name in propertiesMap then propertiesMap[name] else [];
      propertiesMap := propertiesMap[name := properties + [DescriptorProperty(descriptor)]];
      keys := keys - {key};
    }
    assert descriptorMap - {} == descriptorMap;
  }

  /** The third loop of getProperties: one property per group, its only view or a composite of both. */
  method MergeGroups(fieldMap: map<string, Field>, descriptorMap: map<string, PropertyDescriptor>,
                     propertiesMap: map<string, seq<Property>>) returns (r: seq<Property>)
    requires Grouped(propertiesMap, fieldMap, descriptorMap)
    requires forall n :: n in fieldMap ==> fieldMap[n].name == n
    requires forall n :: n in descriptorMap ==> descriptorMap[n].name == n
    ensures MergedView(r, fieldMap, descriptorMap)
  {
    r := [];
    var keys := propertiesMap.Keys;
    while keys != {}
      invariant keys <= propertiesMap.Keys
      invariant MergedFor(r, fieldMap, descriptorMap, propertiesMap.Keys - keys)
      decreases keys
    {
      var name :| name in keys;
      var properties := propertiesMap[name];
      var property := if |properties| == 1 then properties[0] else CompositeProperty(properties[0], properties[1]);
      MergedForStep(r, fieldMap, descriptorMap, propertiesMap.Keys - keys, name);
      assert propertiesMap.Keys - keys + {name} == propertiesMap.Keys - (keys - {name});
      r := r + [property];
      keys := keys - {name};
    }
    assert propertiesMap.Keys - {} == fieldMap.Keys + descriptorMap.Keys;
  }

  /**
   * The three memo tables. Every stored entry is what reflection gives for
   * its class, so a lookup returns the same whether or not it was cached.
   */
  class PropertyCache {
    const reflect: ClassId -> ClassInfo
    var propertyDescriptors: map<ClassId, map<string, PropertyDescriptor>>
    var fields: map<ClassId, map<string, Field>>
    var parametersByFactoryMethod: map<ClassId, map<MethodInfo, seq<Parameter>>>

    ghost predicate Valid()
      reads this
    {
      && (forall c :: c in propertyDescriptors ==> propertyDescriptors[c] == DescriptorMap(reflect(c).beanDescriptors))
      && (forall c :: c in fields ==> fields[c] == FieldMap(reflect(c).fieldsTopDown))
      && (forall c :: c in parametersByFactoryMethod ==>
            parametersByFactoryMethod[c] == FactoryMethodMap(c, reflect(c).declaredMethods))
    }

    constructor (reflect: ClassId -> ClassInfo)
      ensures Valid() && this.reflect == reflect
      ensures propertyDescriptors == map[] && fields == map[] && parametersByFactoryMethod == map[]
    {
      this.reflect := reflect;
      propertyDescriptors := map[];
      fields := map[];
      parametersByFactoryMethod := map[];
    }

    /** getFields: the stored table if present, otherwise computed and stored. */
    method GetFields(c: ClassId) returns (r: map<string, Field>)
      requires Valid()
      modifies this
      ensures Valid()
      ensures r == FieldMap(reflect(c).fieldsTopDown)
      ensures c in old(fields) ==> r == old(fields)[c]
      ensures fields == old(fields)[c := r]
      ensures propertyDescriptors == old(propertyDescriptors) && parametersByFactoryMethod == old(parametersByFactoryMethod)
    {
      if c in fields {
        return fields[c];
      }
      r := CollectFields(reflect(c).fieldsTopDown);
      fields := fields[c := r];
    }

    /** getPropertyDescriptors: the stored table if present, otherwise computed and stored. */
    method GetPropertyDescriptors(c: ClassId) returns (r: map<string, PropertyDescriptor>)
      requires Valid()
      modifies this
      ensures Valid()
      ensures r == DescriptorMap(reflect(c).beanDescriptors)
      ensures c in old(propertyDescriptors) ==> r == old(propertyDescriptors)[c]
      ensures propertyDescriptors == old(propertyDescriptors)[c := r]
      ensures fields == old(fields) && parametersByFactoryMethod == old(parametersByFactoryMethod)
    {
      if c in propertyDescriptors {
        return propertyDescriptors[c];
      }
      r := CollectDescriptors(reflect(c).beanDescriptors);
      propertyDescriptors := propertyDescriptors[c := r];
    }

    /** getParametersByFactoryMethods: the stored table if present, otherwise computed and stored. */
    method GetParametersByFactoryMethods(c: ClassId) returns (r: map<MethodInfo, seq<Parameter>>)
      requires Valid()
      modifies this
      ensures Valid()
      ensures r == FactoryMethodMap(c, reflect(c).declaredMethods)
      ensures c in old(parametersByFactoryMethod) ==> r == old(parametersByFactoryMethod)[c]
      ensures parametersByFactoryMethod == old(parametersByFactoryMethod)[c := r]
      ensures propertyDescriptors == old(propertyDescriptors) && fields == old(fields)
    {
      if c in parametersByFactoryMethod {
        return parametersByFactoryMethod[c];
      }
      r := CollectFactoryMethods(c, reflect(c).declaredMethods);
      parametersByFactoryMethod := parametersByFactoryMethod[c := r];
    }

    /**
     * getProperties: group the field views and then the descriptor views by
     * name, then emit one property per group, in the table's (unspecified)
     * iteration order.
     */
    method GetProperties(c: ClassId) returns (r: seq<Property>)
      requires Valid()
      modifies this
      ensures Valid()
      ensures MergedView(r, FieldMap(reflect(c).fieldsTopDown), DescriptorMap(reflect(c).beanDescriptors))
      ensures fields == old(fields)[c := FieldMap(reflect(c).fieldsTopDown)]
      ensures propertyDescriptors == old(propertyDescriptors)[c := DescriptorMap(reflect(c).beanDescriptors)]
      ensures parametersByFactoryMethod == old(parametersByFactoryMethod)
    {
      var fieldMap := GetFields(c);
      var propertiesMap := GroupFields(fieldMap);
      var descriptorMap := GetPropertyDescriptors(c);
      propertiesMap := GroupDescriptors(fieldMap, descriptorMap, propertiesMap);
      r := MergeGroups(fieldMap, descriptorMap, propertiesMap);
    }

    /** getProperty: the first property of getProperties with the given name. */
    method GetProperty(c: ClassId, name: string) returns (r: Option<Property>)
      requires Valid()
      modifies this
      ensures Valid()
      ensures var fieldMap := FieldMap(reflect(c).fieldsTopDown);
              var descriptorMap := DescriptorMap(reflect(c).beanDescriptors);
              r == if name in fieldMap || name in descriptorMap then Some(Merged(fieldMap, descriptorMap, name)) else None
      ensures fields == old(fields)[c := FieldMap(reflect(c).fieldsTopDown)]
      ensures propertyDescriptors == old(propertyDescriptors)[c := DescriptorMap(reflect(c).beanDescriptors)]
      ensures parametersByFactoryMethod == old(parametersByFactoryMethod)
    {
      var properties := GetProperties(c);
      PropertyLookup(properties, FieldMap(reflect(c).fieldsTopDown), DescriptorMap(reflect(c).beanDescriptors), name);
      r := FindByName(properties, name);
    }

    /**
     * getFactoryProperties: the parameters of the first factory method the
     * table yields, and only that one; nothing when there is none.
     */
    method GetFactoryProperties(c: ClassId) returns (r: seq<Property>)
      requires Valid()
      modifies this
      ensures Valid()
      ensures var byMethod := FactoryMethodMap(c, reflect(c).declaredMethods);
              && (byMethod == map[] ==> r == [])
              && (byMethod != map[] ==>
                    exists m :: m in byMethod && r == FactoryProperties(FieldMap(reflect(c).fieldsTopDown), m, m.parameters))
      ensures fields == old(fields)[c := FieldMap(reflect(c).fieldsTopDown)]
      ensures parametersByFactoryMethod == old(parametersByFactoryMethod)[c := FactoryMethodMap(c, reflect(c).declaredMethods)]
      ensures propertyDescriptors == old(propertyDescriptors)
    {
      r := [];
      var fieldsByName := GetFields(c);
      var parametersByFactoryMethods := GetParametersByFactoryMethods(c);
      // the entry loop returns during its first iteration
      if parametersByFactoryMethods != map[] {
        var factoryMethod :| factoryMethod in parametersByFactoryMethods;
        r := CollectFactoryProperties(fieldsByName, factoryMethod, parametersByFactoryMethods[factoryMethod]);
      }
    }

    /** clearCache: empties the descriptor and field tables; the factory-method table is kept. */
    method ClearCache()
      requires Valid()
      modifies this
      ensures Valid()
      ensures propertyDescriptors == map[] && fields == map[]
      ensures parametersByFactoryMethod == old(parametersByFactoryMethod)
    {
      propertyDescriptors := map[];
      fields := map[];
    }
  }
}
