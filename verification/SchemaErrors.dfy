/** Which schemas the upload check accepts and how it fails on the others: the recursion of
    `OutputSchema.Check` said node by node, and the error it was not meant to raise. */
module SchemaErrors {
  import opened Wrappers
  import opened OutputSchema

  // ---- What the check decides, node by node -------------------------------------------------------

  // Every value in the schema, itself first, each before what it contains.
  function Nodes(j: Json): seq<Json>
    decreases j, 1
  {
    match j
    case Obj(fields) => [j] + NodesOfFields(fields)
    case Arr(elems) => [j] + NodesOfAll(elems)
    case _ => [j]
  }

  function NodesOfFields(fields: seq<Field>): seq<Json>
    decreases fields, 0
  {
    if fields == [] then [] else NodesOfField(fields[0]) + NodesOfFields(fields[1..])
  }

  function NodesOfField(f: Field): seq<Json>
    decreases f, 2
  {
    Nodes(f.value)
  }

  function NodesOfAll(elems: seq<Json>): seq<Json>
    decreases elems, 0
  {
    if elems == [] then [] else Nodes(elems[0]) + NodesOfAll(elems[1..])
  }

  // The seven types of JSON Schema.
  predicate GoodType(t: Json)
  {
    t.Str? && t.s in {"object", "array", "string", "number", "integer", "boolean", "null"}
  }

  predicate Unhashable(t: Json) { t.Obj? || t.Arr? }

  predicate OnlySupportedKeys(node: Json)
  {
    node.Obj? ==> forall f <- node.fields :: f.key !in {
      "$ref", "oneOf", "anyOf", "allOf", "not", "patternProperties", "$defs", "additionalProperties",
      "additional_properties"}
  }

  // The types a dictionary declares; other values declare none.
  function Declared(node: Json): seq<Json>
  {
    if !node.Obj? then [] else
    match Get(node.fields, "type")
    case None => []
    case Some(Null) => []
    case Some(Arr(types)) => types
    case Some(t) => [t]
  }

  predicate Supported(node: Json)
  {
    OnlySupportedKeys(node) && forall t <- Declared(node) :: GoodType(t)
  }

  predicate StopsAt(types: seq<Json>, m: nat)
  {
    m < |types| && Unhashable(types[m]) && forall i | 0 <= i < m :: GoodType(types[i])
  }

  // Reading the declared types of the node raises: an unhashable one comes before any unknown one.
  predicate Raises(node: Json)
  {
    OnlySupportedKeys(node) && exists m | 0 <= m < |Declared(node)| :: StopsAt(Declared(node), m)
  }

  predicate FirstToRaise(nodes: seq<Json>, k: nat)
  {
    k < |nodes| && Raises(nodes[k]) && forall i | 0 <= i < k :: Supported(nodes[i])
  }

  function Fault(node: Json): Verdict
  {
    if !OnlySupportedKeys(node) then UnsupportedKeyword else CheckTypes(Declared(node))
  }

  function FirstFault(nodes: seq<Json>): Verdict
  {
    if nodes == [] then Accepted
    else if Fault(nodes[0]).Accepted? then FirstFault(nodes[1..])
    else Fault(nodes[0])
  }

  lemma {:induction false} FirstFaultOfBoth(a: seq<Json>, b: seq<Json>)
    ensures FirstFault(a + b) == if FirstFault(a).Accepted? then FirstFault(b) else FirstFault(a)
    decreases |a|
  {
    if a == [] {
      assert a + b == b;
    } else {
      assert (a + b)[1..] == a[1..] + b;
      FirstFaultOfBoth(a[1..], b);
    }
  }

  // The recursion reports the first fault in reading order, at whatever depth.
  lemma {:induction false} CheckIsFirstFault(j: Json)
    ensures Check(j) == FirstFault(Nodes(j))
    decreases j, 1
  {
    match j
    case Obj(fields) =>
      FirstFaultOfBoth([j], NodesOfFields(fields));
      CheckFieldsIsFirstFault(fields);
    case Arr(elems) =>
      FirstFaultOfBoth([j], NodesOfAll(elems));
      CheckAllIsFirstFault(elems);
    case _ =>
  }

  lemma {:induction false} CheckFieldsIsFirstFault(fields: seq<Field>)
    ensures CheckFields(fields) == FirstFault(NodesOfFields(fields))
    decreases fields, 0
  {
    if fields != [] {
      CheckFieldIsFirstFault(fields[0]);
      CheckFieldsIsFirstFault(fields[1..]);
      FirstFaultOfBoth(NodesOfField(fields[0]), NodesOfFields(fields[1..]));
    }
  }

  lemma {:induction false} CheckFieldIsFirstFault(f: Field)
    ensures CheckField(f) == FirstFault(NodesOfField(f))
    decreases f, 2
  {
    CheckIsFirstFault(f.value);
  }

  lemma {:induction false} CheckAllIsFirstFault(elems: seq<Json>)
    ensures CheckAll(elems) == FirstFault(NodesOfAll(elems))
    decreases elems, 0
  {
    if elems != [] {
      CheckIsFirstFault(elems[0]);
      CheckAllIsFirstFault(elems[1..]);
      FirstFaultOfBoth(Nodes(elems[0]), NodesOfAll(elems[1..]));
    }
  }

  lemma {:induction false} TypesAreChecked(types: seq<Json>)
    ensures CheckTypes(types).Accepted? <==> forall t <- types :: GoodType(t)
    ensures CheckTypes(types) == Crash <==> exists m: nat :: StopsAt(types, m)
    decreases |types|
  {
    if types != [] {
      var rest := types[1..];
      TypesAreChecked(rest);
      assert types == [types[0]] + rest;
      if GoodType(types[0]) {
        if m: nat :| StopsAt(rest, m) {
          assert StopsAt(types, m + 1);
        }
        if m: nat :| StopsAt(types, m) {
          assert StopsAt(rest, m - 1);
        }
      } else if Unhashable(types[0]) {
        assert StopsAt(types, 0);
      }
    }
  }

  lemma FaultOfNode(node: Json)
    ensures Fault(node).Accepted? <==> Supported(node)
    ensures Fault(node) == Crash <==> Raises(node)
  {
    TypesAreChecked(Declared(node));
  }

  lemma {:induction false} FirstFaultIs(nodes: seq<Json>)
    ensures FirstFault(nodes).Accepted? <==> forall n <- nodes :: Supported(n)
    ensures FirstFault(nodes) == Crash <==> exists k: nat :: FirstToRaise(nodes, k)
    decreases |nodes|
  {
    if nodes != [] {
      var rest := nodes[1..];
      FaultOfNode(nodes[0]);
      FirstFaultIs(rest);
      assert nodes == [nodes[0]] + rest;
      if Supported(nodes[0]) {
        if k: nat :| FirstToRaise(rest, k) {
          assert FirstToRaise(nodes, k + 1);
        }
        if k: nat :| FirstToRaise(nodes, k) {
          FaultOfNode(nodes[k]);
          assert FirstToRaise(rest, k - 1);
        }
      } else if Raises(nodes[0]) {
        assert FirstToRaise(nodes, 0);
      }
    }
  }

  // Accepted means: no node has an unsupported keyword, and every declared type is a known one.
  lemma AcceptedExactlyWhen(j: Json)
    ensures Check(j).Accepted? <==> forall n <- Nodes(j) :: Supported(n)
  {
    CheckIsFirstFault(j);
    FirstFaultIs(Nodes(j));
  }

  // The check promises its own error for every schema it rejects.  It raises a TypeError instead exactly
  // when the first node at fault declares an object or an array among its types, before any unknown one.
  ghost predicate CheckRaises(j: Json)
  {
    exists k: nat :: FirstToRaise(Nodes(j), k)
  }

  lemma CrashesExactlyWhen(j: Json)
    ensures Check(j) == Crash <==> CheckRaises(j)
  {
    CheckIsFirstFault(j);
    FirstFaultIs(Nodes(j));
  }

  // So with nothing else wrong, one node that declares an unhashable type is what makes the difference.
  lemma CrashesIfNothingElseIsWrong(j: Json)
    requires forall n <- Nodes(j) ::
      OnlySupportedKeys(n) && forall t <- Declared(n) :: Unhashable(t) || GoodType(t)
    ensures Check(j) == if exists n <- Nodes(j) :: exists t <- Declared(n) :: Unhashable(t) then Crash else Accepted
  {
    AcceptedExactlyWhen(j);
    CheckIsFirstFault(j);
    NothingElse(Nodes(j));
  }

  lemma {:induction false} OnlyUnhashable(types: seq<Json>)
    requires forall t <- types :: Unhashable(t) || GoodType(t)
    ensures CheckTypes(types) == if exists t <- types :: Unhashable(t) then Crash else Accepted
    decreases |types|
  {
    if types != [] {
      assert types == [types[0]] + types[1..];
      OnlyUnhashable(types[1..]);
      if Unhashable(types[0]) {
        assert types[0] in types;
      } else {
        assert GoodType(types[0]) && CheckTypes(types) == CheckTypes(types[1..]);
        assert forall t <- types :: t == types[0] || t in types[1..];
        assert forall t <- types[1..] :: t in types;
      }
    }
  }

  lemma {:induction false} NothingElse(nodes: seq<Json>)
    requires forall n <- nodes :: OnlySupportedKeys(n) && forall t <- Declared(n) :: Unhashable(t) || GoodType(t)
    ensures FirstFault(nodes) ==
      if exists n <- nodes :: exists t <- Declared(n) :: Unhashable(t) then Crash else Accepted
    decreases |nodes|
  {
    if nodes != [] {
      assert nodes == [nodes[0]] + nodes[1..];
      OnlyUnhashable(Declared(nodes[0]));
      NothingElse(nodes[1..]);
    }
  }

  // ---- The promised error, and the other one --------------------------------------------------------

  lemma {:induction false} MeetsNeverCrashes(schema: Json, contract: Contract)
    ensures Meets(schema, contract) != Crash
    decreases |contract|
  {
    if contract != [] { MeetsNeverCrashes(schema, contract[1..]); }
  }

  // The upload check promises a SchemaError for every schema it does not accept.  It fails with a
  // TypeError instead exactly when the stage is known, the top level is an object with properties, and the
  // first node at fault declares an object or an array among its types.
  lemma ValidateCrashesExactlyWhen(stage: string, schema: Json)
    ensures Validate(stage, schema) == Crash <==>
            && ContractOf(stage).Some? && schema.Obj? && Get(schema.fields, "type") == Some(Str("object"))
            && Get(schema.fields, "properties").Some? && Get(schema.fields, "properties").value.Obj?
            && CheckRaises(schema)
  {
    CrashesExactlyWhen(schema);
    if ContractOf(stage).Some? { MeetsNeverCrashes(schema, ContractOf(stage).value); }
  }

  // Replacing the value of a key.
  function Put(fields: seq<Field>, key: string, value: Json): seq<Field>
  {
    if fields == [] then []
    else if fields[0].key == key then [Field(key, value)] + fields[1..]
    else [fields[0]] + Put(fields[1..], key, value)
  }

  lemma {:induction false} PutIs(fields: seq<Field>, key: string, value: Json, other: string)
    ensures Get(Put(fields, key, value), other)
         == if other == key && Get(fields, key).Some? then Some(value) else Get(fields, other)
    ensures forall f <- Put(fields, key, value) :: exists g <- fields :: g.key == f.key
    decreases |fields|
  {
    if fields != [] {
      PutIs(fields[1..], key, value, other);
      var after := Put(fields, key, value);
      assert fields == [fields[0]] + fields[1..];
      assert after[1..] == if fields[0].key == key then fields[1..] else Put(fields[1..], key, value);
      assert after == [after[0]] + after[1..];
    }
  }

  lemma {:induction false} FaultyValueIsFound(fields: seq<Field>, key: string, value: Json)
    requires CheckFields(fields).Accepted? && Get(fields, key).Some? && !Check(value).Accepted?
    ensures CheckFields(Put(fields, key, value)) == Check(value)
    decreases |fields|
  {
    var after := Put(fields, key, value);
    if fields[0].key == key {
      assert CheckField(after[0]) == Check(value);
    } else {
      assert after[1..] == Put(fields[1..], key, value);
      FaultyValueIsFound(fields[1..], key, value);
    }
  }

  lemma {:induction false} CheckedValue(fields: seq<Field>, key: string)
    requires CheckFields(fields).Accepted? && Get(fields, key).Some?
    ensures Check(Get(fields, key).value).Accepted?
    decreases |fields|
  {
    assert CheckField(fields[0]) == Check(fields[0].value);
    if fields[0].key != key { CheckedValue(fields[1..], key); }
  }

  lemma {:induction false} GetAppended(fields: seq<Field>, f: Field)
    requires Get(fields, f.key).None?
    ensures Get(fields + [f], f.key) == Some(f.value)
    decreases |fields|
  {
    if fields != [] {
      assert (fields + [f])[1..] == fields[1..] + [f];
      GetAppended(fields[1..], f);
    }
  }

  // The schema with one more top-level field.
  function WithProperty(schema: Json, f: Field): Json
    requires schema.Obj? && Get(schema.fields, "properties").Some? && Get(schema.fields, "properties").value.Obj?
  {
    Obj(Put(schema.fields, "properties", Obj(Get(schema.fields, "properties").value.fields + [f])))
  }

  lemma MorePropertiesCrash(props: seq<Field>, declaration: seq<Field>)
    requires Check(Obj(props)).Accepted? && Get(props, "type").None?
    ensures Check(Obj(props + [Field("type", Obj(declaration))])) == Crash
  {
    var f := Field("type", Obj(declaration));
    var more := props + [f];
    GetAppended(props, f);
    assert TypesOf(Get(more, "type")) == [Obj(declaration)];
    assert forall g <- more :: g in props || g == f;
  }

  // A schema that is accepted for its stage stops being so, and with the wrong error, by declaring one
  // more field of the name `type`: the properties map is itself read as a node that declares types.
  lemma PropertyNamedTypeCrashes(stage: string, schema: Json, declaration: seq<Field>)
    requires Validate(stage, schema).Accepted? && Get(Get(schema.fields, "properties").value.fields, "type").None?
    ensures Validate(stage, WithProperty(schema, Field("type", Obj(declaration)))) == Crash
  {
    var props := Get(schema.fields, "properties").value.fields;
    var more := Obj(props + [Field("type", Obj(declaration))]);
    CheckedValue(schema.fields, "properties");
    MorePropertiesCrash(props, declaration);
    FaultyPropertiesAreFound(schema.fields, more);
  }

  lemma FaultyPropertiesAreFound(fields: seq<Field>, more: Json)
    requires Check(Obj(fields)).Accepted? && Get(fields, "type") == Some(Str("object"))
    requires Get(fields, "properties").Some? && more.Obj? && Check(more) == Crash
    ensures var after := Put(fields, "properties", more);
      Get(after, "type") == Some(Str("object")) && Get(after, "properties") == Some(more) && Check(Obj(after)) == Crash
  {
    var after := Put(fields, "properties", more);
    FaultyValueIsFound(fields, "properties", more);
    PutIs(fields, "properties", more, "type");
    PutIs(fields, "properties", more, "properties");
    assert forall g <- after :: g.key !in UNSUPPORTED;
  }

  // The smallest case: a schema that says nothing but that it has a string named `type`.
  lemma SmallestCrash(stage: string)
    requires ContractOf(stage).Some?
    ensures var properties := Obj([Field("type", Obj([Field("type", Str("string"))]))]);
      Validate(stage, Obj([Field("type", Str("object")), Field("properties", properties)])) == Crash
  {
    var properties := Obj([Field("type", Obj([Field("type", Str("string"))]))]);
    var fields := [Field("type", Str("object")), Field("properties", properties)];
    assert Get(fields[1..], "properties") == Some(properties) && Get(fields, "properties") == Some(properties);
    assert TypesOf(Get(properties.fields, "type"))[0].Obj? && Check(properties) == Crash;
    assert CheckField(fields[0]) == Check(Str("object")) == Accepted;
    assert CheckField(fields[1]) == Crash && CheckFields(fields[1..]) == Crash && CheckFields(fields) == Crash;
  }
}
