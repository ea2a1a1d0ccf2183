/** Custom output schemas: the upload check (backend/app/judge/schema_validate.py) and the stripping done
    before a schema is sent to the model (backend/app/judge/gemini.py). */
module OutputSchema {
  import opened Wrappers

  datatype Json =
    | Null
    | Bool(b: bool)
    | Num(n: real)
    | Str(s: string)
    | Arr(elems: seq<Json>)
    | Obj(fields: seq<Field>)

  // A dictionary in its own order, each key once.
  datatype Field = Field(key: string, value: Json)

  const STRIPPED: set<string> := {"additionalProperties", "additional_properties"}

  const UNSUPPORTED: set<string> :=
    {"$ref", "oneOf", "anyOf", "allOf", "not", "patternProperties", "$defs"} + STRIPPED

  const TYPES: set<string> := {"object", "array", "string", "number", "integer", "boolean", "null"}

  // `d.get(key)`; None where the key is missing.
  function Get(fields: seq<Field>, key: string): Option<Json>
  {
    if fields == [] then None
    else if fields[0].key == key then Some(fields[0].value)
    else Get(fields[1..], key)
  }

  // ---- Stripping ---------------------------------------------------------------------------------

  function Strip(j: Json): Json
    decreases j, 1
  {
    match j
    case Obj(fields) => Obj(StripFields(fields))
    case Arr(elems) => Arr(StripAll(elems))
    case _ => j
  }

  function StripFields(fields: seq<Field>): seq<Field>
    decreases fields, 0
  {
    if fields == [] then [] else
    var f := fields[0];
    var rest := StripFields(fields[1..]);
    if f.key in STRIPPED then rest else [StripField(f)] + rest
  }

  function StripField(f: Field): Field
    decreases f, 2
  {
    Field(f.key, Strip(f.value))
  }

  function StripAll(elems: seq<Json>): seq<Json>
    decreases elems, 0
  {
    if elems == [] then [] else [Strip(elems[0])] + StripAll(elems[1..])
  }

  // No stripped keyword at any depth.
  predicate Clean(j: Json)
    decreases j, 1
  {
    match j
    case Obj(fields) => CleanFields(fields)
    case Arr(elems) => CleanAll(elems)
    case _ => true
  }

  predicate CleanFields(fields: seq<Field>)
    decreases fields, 0
  {
    fields == [] || (fields[0].key !in STRIPPED && CleanField(fields[0]) && CleanFields(fields[1..]))
  }

  predicate CleanField(f: Field)
    decreases f, 2
  {
    Clean(f.value)
  }

  predicate CleanAll(elems: seq<Json>)
    decreases elems, 0
  {
    elems == [] || (Clean(elems[0]) && CleanAll(elems[1..]))
  }

  // Stripping leaves nothing to strip, and it changes exactly the schemas that have something.
  lemma {:induction false} StripCleans(j: Json)
    ensures Clean(Strip(j)) && (Strip(j) == j <==> Clean(j))
    decreases j, 1
  {
    match j
    case Obj(fields) => StripCleansFields(fields);
    case Arr(elems) => StripCleansAll(elems);
    case _ =>
  }

  lemma {:induction false} StripCleansFields(fields: seq<Field>)
    ensures CleanFields(StripFields(fields)) && |StripFields(fields)| <= |fields|
    ensures StripFields(fields) == fields <==> CleanFields(fields)
    decreases fields, 0
  {
    if fields != [] {
      var f := fields[0];
      StripCleansFields(fields[1..]);
      StripCleansField(f);
      assert f.key !in STRIPPED ==> StripFields(fields)[1..] == StripFields(fields[1..]);
    }
  }

  lemma {:induction false} StripCleansField(f: Field)
    ensures CleanField(StripField(f)) && (StripField(f) == f <==> CleanField(f))
    decreases f, 2
  {
    StripCleans(f.value);
  }

  lemma {:induction false} StripCleansAll(elems: seq<Json>)
    ensures CleanAll(StripAll(elems)) && (StripAll(elems) == elems <==> CleanAll(elems))
    decreases elems, 0
  {
    if elems != [] {
      StripCleans(elems[0]);
      StripCleansAll(elems[1..]);
      assert StripAll(elems)[1..] == StripAll(elems[1..]);
    }
  }

  lemma StripIsIdempotent(j: Json)
    ensures Strip(Strip(j)) == Strip(j)
  {
    StripCleans(j);
    StripCleans(Strip(j));
  }

  // ---- The upload check ---------------------------------------------------------------------------

  // `Crash` is the TypeError of looking up an unhashable value in the set of types.
  datatype Verdict =
    | Accepted
    | UnknownStage
    | NotAnObject
    | NotTypedObject
    | NoProperties
    | UnsupportedKeyword
    | UnsupportedType
    | Crash
    | MissingField
    | WrongKind

  function CheckTypes(types: seq<Json>): Verdict
  {
    if types == [] then Accepted
    else if types[0].Obj? || types[0].Arr? then Crash
    else if !(types[0].Str? && types[0].s in TYPES) then UnsupportedType
    else CheckTypes(types[1..])
  }

  // The declared types: a list as it is, one value as a list, nothing for a missing or null type.
  function TypesOf(t: Option<Json>): seq<Json>
  {
    if t.None? || t.value.Null? then [] else if t.value.Arr? then t.value.elems else [t.value]
  }

  // `_check_subset`.
  function Check(j: Json): Verdict
    decreases j, 1
  {
    match j
    case Obj(fields) =>
      if exists f <- fields :: f.key in UNSUPPORTED then UnsupportedKeyword
      else
        var v := CheckTypes(TypesOf(Get(fields, "type")));
        if v.Accepted? then CheckFields(fields) else v
    case Arr(elems) => CheckAll(elems)
    case _ => Accepted
  }

  function CheckFields(fields: seq<Field>): Verdict
    decreases fields, 0
  {
    if fields == [] then Accepted else
    var v := CheckField(fields[0]);
    if v.Accepted? then CheckFields(fields[1..]) else v
  }

  function CheckField(f: Field): Verdict
    decreases f, 2
  {
    Check(f.value)
  }

  function CheckAll(elems: seq<Json>): Verdict
    decreases elems, 0
  {
    if elems == [] then Accepted else
    var v := Check(elems[0]);
    if v.Accepted? then CheckAll(elems[1..]) else v
  }

  lemma {:induction false} CheckedIsClean(j: Json)
    requires Check(j).Accepted?
    ensures Clean(j)
    decreases j, 1
  {
    match j
    case Obj(fields) => CheckedFieldsAreClean(fields);
    case Arr(elems) => CheckedElemsAreClean(elems);
    case _ =>
  }

  lemma {:induction false} CheckedFieldsAreClean(fields: seq<Field>)
    requires CheckFields(fields).Accepted? && forall f <- fields :: f.key !in UNSUPPORTED
    ensures CleanFields(fields)
    decreases fields, 0
  {
    if fields != [] {
      CheckedFieldIsClean(fields[0]);
      assert fields[0] in fields && forall f <- fields[1..] :: f in fields;
      CheckedFieldsAreClean(fields[1..]);
    }
  }

  lemma {:induction false} CheckedFieldIsClean(f: Field)
    requires CheckField(f).Accepted?
    ensures CleanField(f)
    decreases f, 2
  {
    CheckedIsClean(f.value);
  }

  lemma {:induction false} CheckedElemsAreClean(elems: seq<Json>)
    requires CheckAll(elems).Accepted?
    ensures CleanAll(elems)
    decreases elems, 0
  {
    if elems != [] {
      CheckedIsClean(elems[0]);
      CheckedElemsAreClean(elems[1..]);
    }
  }

  // ---- Contract paths -----------------------------------------------------------------------------

  // One step of a path: a property, and for "name[]" the items of that array.
  datatype Segment = Segment(key: string, items: bool)

  type Path = seq<Segment>

  function StepTo(node: Json, seg: Segment): Option<Json>
  {
    var props := if node.Obj? then Get(node.fields, "properties") else None;
    if props.None? || !props.value.Obj? || Get(props.value.fields, seg.key).None? then None else
    var child := Get(props.value.fields, seg.key).value;
    if !seg.items then Some(child)
    else if !child.Obj? || Get(child.fields, "type") != Some(Str("array")) then None
    else Some(if Get(child.fields, "items").Some? then Get(child.fields, "items").value else Obj([]))
  }

  // `_node_at`: the dictionary at the end of the path, if the path leads to one.
  function NodeAt(node: Json, path: Path): Option<Json>
    decreases |path|
  {
    if path == [] then (if node.Obj? then Some(node) else None) else
    var next := StepTo(node, path[0]);
    if next.None? then None else NodeAt(next.value, path[1..])
  }

  function KindOk(node: Json, kind: string): bool
    requires node.Obj?
  {
    var t := Get(node.fields, "type");
    var types := if t.None? then [Null] else if t.value.Arr? then t.value.elems else [t.value];
    || Str(kind) in types
    || (kind == "number" && Str("integer") in types)
    || (kind == "string" && Get(node.fields, "enum").Some? && !Get(node.fields, "enum").value.Null?)
  }

  lemma {:induction false} GetStripped(fields: seq<Field>, key: string)
    requires key !in STRIPPED
    ensures Get(StripFields(fields), key)
         == if Get(fields, key).Some? then Some(Strip(Get(fields, key).value)) else None
    decreases |fields|
  {
    if fields != [] {
      GetStripped(fields[1..], key);
      if fields[0].key !in STRIPPED {
        assert StripFields(fields) == [StripField(fields[0])] + StripFields(fields[1..]);
        assert StripFields(fields)[1..] == StripFields(fields[1..]);
      }
    }
  }

  lemma StepCommutes(node: Json, seg: Segment)
    requires seg.key !in STRIPPED
    ensures StepTo(Strip(node), seg) == if StepTo(node, seg).Some? then Some(Strip(StepTo(node, seg).value)) else None
  {
    if node.Obj? {
      GetStripped(node.fields, "properties");
      var props := Get(node.fields, "properties");
      if props.Some? && props.value.Obj? {
        GetStripped(props.value.fields, seg.key);
        var child := Get(props.value.fields, seg.key);
        if child.Some? && child.value.Obj? {
          GetStripped(child.value.fields, "type");
          GetStripped(child.value.fields, "items");
        }
      }
    }
  }

  predicate Reaches(path: Path)
  {
    forall seg <- path :: seg.key !in STRIPPED
  }

  // Stripping and following a path can be done in either order, on any schema.
  lemma {:induction false} StripCommutesWithPath(node: Json, path: Path)
    requires Reaches(path)
    ensures NodeAt(Strip(node), path) == if NodeAt(node, path).Some? then Some(Strip(NodeAt(node, path).value))
        else None
    decreases |path|
  {
    if path != [] {
      StepCommutes(node, path[0]);
      if StepTo(node, path[0]).Some? { StripCommutesWithPath(StepTo(node, path[0]).value, path[1..]); }
    }
  }

  lemma {:induction false} StripKeepsStrings(elems: seq<Json>, s: string)
    ensures Str(s) in StripAll(elems) <==> Str(s) in elems
    decreases |elems|
  {
    if elems != [] {
      StripKeepsStrings(elems[1..], s);
      assert elems == [elems[0]] + elems[1..];
    }
  }

  lemma StripKeepsKind(node: Json, kind: string)
    requires node.Obj?
    ensures KindOk(Strip(node), kind) == KindOk(node, kind)
  {
    GetStripped(node.fields, "type");
    GetStripped(node.fields, "enum");
    var t := Get(node.fields, "type");
    if t.Some? && t.value.Arr? {
      StripKeepsStrings(t.value.elems, kind);
      StripKeepsStrings(t.value.elems, "integer");
    }
  }

  // ---- Stages and their contracts -----------------------------------------------------------------

  type Contract = seq<(Path, string)>

  function At(key: string): Path { [Segment(key, false)] }

  function In(key: string, field: string): Path { [Segment(key, false), Segment(field, false)] }

  function Each(key: string, field: string): Path { [Segment(key, true), Segment(field, false)] }

  const FEEDBACK: Contract := [
    (At("summary"), "string"), (At("coaching"), "string"), (At("compliance"), "string"),
    (At("feedback"), "object"), (In("feedback", "strengths"), "array"), (In("feedback", "development"), "array"),
    (At("objections"), "array"), (Each("objections", "text"), "string")]

  const VERDICTS: Contract := [
    (At("verdicts"), "array"), (Each("verdicts", "checklist_item_id"), "string"),
    (Each("verdicts", "answer"), "string"),
    (Each("verdicts", "confidence"), "number"), (Each("verdicts", "evidence_quote"), "string"),
    (Each("verdicts", "needs_review"), "boolean")]

  const IDEAL: Contract := [
    (At("already_ideal"), "boolean"), (At("ideal_conversation"), "array"),
    (Each("ideal_conversation", "speaker"), "string"), (Each("ideal_conversation", "text"), "string")]

  const MERGED: Contract := [
    (At("feedback"), "object"), (In("feedback", "summary"), "string"), (In("feedback", "coaching"), "string"),
    (In("feedback", "compliance"), "string"), (In("feedback", "feedback"), "object"),
    (In("feedback", "objections"), "array"),
    ([Segment("feedback", false), Segment("objections", true), Segment("text", false)], "string")] + VERDICTS

  function ContractOf(stage: string): Option<Contract>
  {
    if stage == "feedback" then Some(FEEDBACK)
    else if stage == "checklist" then Some(VERDICTS)
    else if stage == "ideal" then Some(IDEAL)
    else if stage == "merged" then Some(MERGED)
    else None
  }

  predicate Reachable(contract: Contract)
  {
    forall c <- contract :: Reaches(c.0)
  }

  function Meets(schema: Json, contract: Contract): Verdict
  {
    if contract == [] then Accepted else
    var node := NodeAt(schema, contract[0].0);
    if node.None? then MissingField
    else if !node.value.Obj? || !KindOk(node.value, contract[0].1) then WrongKind
    else Meets(schema, contract[1..])
  }

  // A schema meets a contract exactly if every path of it leads to a node of the required kind.
  lemma {:induction false} MeetsEveryPath(schema: Json, contract: Contract)
    ensures Meets(schema, contract).Accepted? <==>
            forall c <- contract ::
              var node := NodeAt(schema, c.0);
              node.Some? && node.value.Obj? && KindOk(node.value, c.1)
    decreases |contract|
  {
    if contract != [] {
      MeetsEveryPath(schema, contract[1..]);
      assert contract == [contract[0]] + contract[1..];
    }
  }

  // For every schema, accepted or not: what stripping leaves meets the contract exactly if the schema
  // did, and fails it in the same way otherwise.
  lemma {:induction false} StripKeepsContract(schema: Json, contract: Contract)
    requires Reachable(contract)
    ensures Meets(Strip(schema), contract) == Meets(schema, contract)
    decreases |contract|
  {
    if contract != [] {
      var (path, kind) := contract[0];
      assert contract[0] in contract && forall c <- contract[1..] :: c in contract;
      StripCommutesWithPath(schema, path);
      var node := NodeAt(schema, path);
      if node.Some? && node.value.Obj? { StripKeepsKind(node.value, kind); }
      StripKeepsContract(schema, contract[1..]);
    }
  }

  function Validate(stage: string, schema: Json): Verdict
  {
    if ContractOf(stage).None? then UnknownStage
    else if !schema.Obj? then NotAnObject
    else if Get(schema.fields, "type") != Some(Str("object")) then NotTypedObject
    else if Get(schema.fields, "properties").None? || !Get(schema.fields, "properties").value.Obj? then NoProperties
    else
      var v := Check(schema);
      if v.Accepted? then Meets(schema, ContractOf(stage).value) else v
  }

  // ---- What a stage needs, said of the declarations alone -----------------------------------------

  // The declaration of a property, and of the items of a property that is an array.
  function Prop(node: Json, key: string): Option<Json>
  {
    var props := if node.Obj? then Get(node.fields, "properties") else None;
    if props.Some? && props.value.Obj? then Get(props.value.fields, key) else None
  }

  function ItemsOf(node: Json, key: string): Option<Json>
  {
    var a := Prop(node, key);
    if a.Some? && a.value.Obj? && Get(a.value.fields, "type") == Some(Str("array")) then
      Some(if Get(a.value.fields, "items").Some? then Get(a.value.fields, "items").value else Obj([]))
    else None
  }

  // The type itself, or a list with it.
  predicate Says(type': Option<Json>, kind: string)
  {
    type'.Some? && (type'.value == Str(kind) || (type'.value.Arr? && Str(kind) in type'.value.elems))
  }

  // A field of the kind: an integer will do for a number, and for a string an enum of any type.
  predicate Typed(node: Option<Json>, kind: string)
  {
    && node.Some? && node.value.Obj?
    && var t := Get(node.value.fields, "type");
       || Says(t, kind)
       || (kind == "number" && Says(t, "integer"))
       || (kind == "string" && Get(node.value.fields, "enum").Some? && Get(node.value.fields, "enum") != Some(Null))
  }

  predicate PropTyped(node: Json, key: string, kind: string) { Typed(Prop(node, key), kind) }

  predicate ItemTyped(node: Json, list: string, key: string, kind: string)
  {
    ItemsOf(node, list).Some? && PropTyped(ItemsOf(node, list).value, key, kind)
  }

  predicate SubTyped(node: Json, part: string, key: string, kind: string)
  {
    Prop(node, part).Some? && PropTyped(Prop(node, part).value, key, kind)
  }

  predicate VerdictsCore(schema: Json)
  {
    && PropTyped(schema, "verdicts", "array")
    && ItemTyped(schema, "verdicts", "checklist_item_id", "string") && ItemTyped(schema, "verdicts", "answer", "string")
    && ItemTyped(schema, "verdicts", "confidence", "number")
    && ItemTyped(schema, "verdicts", "evidence_quote", "string")
    && ItemTyped(schema, "verdicts", "needs_review", "boolean")
  }

  predicate FeedbackCore(schema: Json)
  {
    && PropTyped(schema, "summary", "string") && PropTyped(schema, "coaching", "string")
    && PropTyped(schema, "compliance", "string") && PropTyped(schema, "feedback", "object")
    && SubTyped(schema, "feedback", "strengths", "array") && SubTyped(schema, "feedback", "development", "array")
    && PropTyped(schema, "objections", "array") && ItemTyped(schema, "objections", "text", "string")
  }

  predicate IdealCore(schema: Json)
  {
    && PropTyped(schema, "already_ideal", "boolean") && PropTyped(schema, "ideal_conversation", "array")
    && ItemTyped(schema, "ideal_conversation", "speaker", "string")
    && ItemTyped(schema, "ideal_conversation", "text", "string")
  }

  predicate MergedCore(schema: Json)
  {
    && PropTyped(schema, "feedback", "object")
    && SubTyped(schema, "feedback", "summary", "string") && SubTyped(schema, "feedback", "coaching", "string")
    && SubTyped(schema, "feedback", "compliance", "string") && SubTyped(schema, "feedback", "feedback", "object")
    && SubTyped(schema, "feedback", "objections", "array")
    && Prop(schema, "feedback").Some? && ItemTyped(Prop(schema, "feedback").value, "objections", "text", "string")
    && VerdictsCore(schema)
  }

  predicate Core(stage: string, schema: Json)
  {
    if stage == "feedback" then FeedbackCore(schema)
    else if stage == "checklist" then VerdictsCore(schema)
    else if stage == "ideal" then IdealCore(schema)
    else stage == "merged" && MergedCore(schema)
  }

  predicate LeadsTo(schema: Json, path: Path, kind: string)
  {
    NodeAt(schema, path).Some? && NodeAt(schema, path).value.Obj? && KindOk(NodeAt(schema, path).value, kind)
  }

  lemma AtIs(schema: Json, key: string, kind: string)
    ensures LeadsTo(schema, At(key), kind) <==> PropTyped(schema, key, kind)
  {
    assert At(key)[1..] == [];
    var next := StepTo(schema, Segment(key, false));
    assert next == Prop(schema, key);
    assert next.Some? ==> NodeAt(schema, At(key)) == NodeAt(next.value, []);
  }

  // The first step of a longer path.
  lemma StepIs(schema: Json, key: string, items: bool, rest: Path, kind: string)
    ensures var next := if items then ItemsOf(schema, key) else Prop(schema, key);
            LeadsTo(schema, [Segment(key, items)] + rest, kind) <==> next.Some? && LeadsTo(next.value, rest, kind)
  {
    var path := [Segment(key, items)] + rest;
    assert path[0] == Segment(key, items) && path[1..] == rest;
    assert StepTo(schema, path[0]) == if items then ItemsOf(schema, key) else Prop(schema, key);
  }

  lemma InIs(schema: Json, part: string, key: string, kind: string)
    ensures LeadsTo(schema, In(part, key), kind) <==> SubTyped(schema, part, key, kind)
  {
    assert In(part, key) == [Segment(part, false)] + At(key);
    StepIs(schema, part, false, At(key), kind);
    if Prop(schema, part).Some? { AtIs(Prop(schema, part).value, key, kind); }
  }

  lemma EachIs(schema: Json, list: string, key: string, kind: string)
    ensures LeadsTo(schema, Each(list, key), kind) <==> ItemTyped(schema, list, key, kind)
  {
    assert Each(list, key) == [Segment(list, true)] + At(key);
    StepIs(schema, list, true, At(key), kind);
    if ItemsOf(schema, list).Some? { AtIs(ItemsOf(schema, list).value, key, kind); }
  }

  lemma MeetsFirst(schema: Json, contract: Contract)
    requires contract != []
    ensures Meets(schema, contract).Accepted? <==>
            LeadsTo(schema, contract[0].0, contract[0].1) && Meets(schema, contract[1..]).Accepted?
  {}

  lemma MeetsEach(schema: Json, contract: Contract)
    ensures Meets(schema, contract).Accepted? <==>
            forall i | 0 <= i < |contract| :: LeadsTo(schema, contract[i].0, contract[i].1)
  {
    MeetsEveryPath(schema, contract);
    assert forall i | 0 <= i < |contract| :: contract[i] in contract;
  }

  lemma VerdictsMeet(schema: Json)
    ensures Meets(schema, VERDICTS).Accepted? <==> VerdictsCore(schema)
  {
    MeetsEach(schema, VERDICTS);
    AtIs(schema, "verdicts", "array");
    EachIs(schema, "verdicts", "checklist_item_id", "string");
    EachIs(schema, "verdicts", "answer", "string");
    EachIs(schema, "verdicts", "confidence", "number");
    EachIs(schema, "verdicts", "evidence_quote", "string");
    EachIs(schema, "verdicts", "needs_review", "boolean");
    assert |VERDICTS| == 6;
    assert VERDICTS[0].0 == At("verdicts") && VERDICTS[1].0 == Each("verdicts", "checklist_item_id");
    assert VERDICTS[2].0 == Each("verdicts", "answer") && VERDICTS[3].0 == Each("verdicts", "confidence");
    assert VERDICTS[4].0 == Each("verdicts", "evidence_quote") && VERDICTS[5].0 == Each("verdicts", "needs_review");
  }

  lemma TextsMeet(schema: Json)
    ensures Meets(schema, FEEDBACK[..4]).Accepted? <==>
            && PropTyped(schema, "summary", "string") && PropTyped(schema, "coaching", "string")
            && PropTyped(schema, "compliance", "string") && PropTyped(schema, "feedback", "object")
  {
    var c := FEEDBACK[..4];
    MeetsEach(schema, c);
    AtIs(schema, "summary", "string");
    AtIs(schema, "coaching", "string");
    AtIs(schema, "compliance", "string");
    AtIs(schema, "feedback", "object");
    assert c[0].0 == At("summary") && c[1].0 == At("coaching");
    assert c[2].0 == At("compliance") && c[3].0 == At("feedback");
  }

  lemma ListsMeet(schema: Json)
    ensures Meets(schema, FEEDBACK[4..]).Accepted? <==>
            && SubTyped(schema, "feedback", "strengths", "array")
            && SubTyped(schema, "feedback", "development", "array")
            && PropTyped(schema, "objections", "array") && ItemTyped(schema, "objections", "text", "string")
  {
    var c := FEEDBACK[4..];
    MeetsEach(schema, c);
    InIs(schema, "feedback", "strengths", "array");
    InIs(schema, "feedback", "development", "array");
    AtIs(schema, "objections", "array");
    EachIs(schema, "objections", "text", "string");
    assert |c| == 4 && c[0].0 == In("feedback", "strengths") && c[1].0 == In("feedback", "development");
    assert c[2].0 == At("objections") && c[3].0 == Each("objections", "text");
  }

  lemma FeedbackMeets(schema: Json)
    ensures Meets(schema, FEEDBACK).Accepted? <==> FeedbackCore(schema)
  {
    assert FEEDBACK == FEEDBACK[..4] + FEEDBACK[4..];
    MeetsBoth(schema, FEEDBACK[..4], FEEDBACK[4..]);
    TextsMeet(schema);
    ListsMeet(schema);
  }

  lemma IdealMeets(schema: Json)
    ensures Meets(schema, IDEAL).Accepted? <==> IdealCore(schema)
  {
    MeetsEach(schema, IDEAL);
    AtIs(schema, "already_ideal", "boolean");
    AtIs(schema, "ideal_conversation", "array");
    EachIs(schema, "ideal_conversation", "speaker", "string");
    EachIs(schema, "ideal_conversation", "text", "string");
    assert |IDEAL| == 4 && IDEAL[0].0 == At("already_ideal") && IDEAL[1].0 == At("ideal_conversation");
    assert IDEAL[2].0 == Each("ideal_conversation", "speaker") && IDEAL[3].0 == Each("ideal_conversation", "text");
  }

  lemma {:induction false} MeetsBoth(schema: Json, first: Contract, second: Contract)
    ensures Meets(schema, first + second).Accepted? <==>
            Meets(schema, first).Accepted? && Meets(schema, second).Accepted?
    decreases |first|
  {
    if first == [] {
      assert first + second == second;
    } else {
      assert (first + second)[1..] == first[1..] + second;
      MeetsBoth(schema, first[1..], second);
    }
  }

  lemma PartMeets(schema: Json)
    ensures Meets(schema, MERGED[..7]).Accepted? <==>
            && PropTyped(schema, "feedback", "object")
            && SubTyped(schema, "feedback", "summary", "string") && SubTyped(schema, "feedback", "coaching", "string")
            && SubTyped(schema, "feedback", "compliance", "string")
            && SubTyped(schema, "feedback", "feedback", "object")
            && SubTyped(schema, "feedback", "objections", "array")
            && Prop(schema, "feedback").Some?
            && ItemTyped(Prop(schema, "feedback").value, "objections", "text", "string")
  {
    var c, text := MERGED[..7], Each("objections", "text");
    MeetsEach(schema, c);
    AtIs(schema, "feedback", "object");
    InIs(schema, "feedback", "summary", "string");
    InIs(schema, "feedback", "coaching", "string");
    InIs(schema, "feedback", "compliance", "string");
    InIs(schema, "feedback", "feedback", "object");
    InIs(schema, "feedback", "objections", "array");
    StepIs(schema, "feedback", false, text, "string");
    if Prop(schema, "feedback").Some? { EachIs(Prop(schema, "feedback").value, "objections", "text", "string"); }
    assert c[0].0 == At("feedback") && c[1].0 == In("feedback", "summary") && c[2].0 == In("feedback", "coaching");
    assert c[3].0 == In("feedback", "compliance") && c[4].0 == In("feedback", "feedback");
    assert c[5].0 == In("feedback", "objections") && c[6].0 == [Segment("feedback", false)] + text;
  }

  lemma MergedMeets(schema: Json)
    ensures Meets(schema, MERGED).Accepted? <==> MergedCore(schema)
  {
    assert MERGED == MERGED[..7] + VERDICTS;
    MeetsBoth(schema, MERGED[..7], VERDICTS);
    PartMeets(schema);
    VerdictsMeet(schema);
  }

  lemma StageMeets(stage: string, schema: Json)
    requires ContractOf(stage).Some?
    ensures Meets(schema, ContractOf(stage).value).Accepted? <==> Core(stage, schema)
  {
    if stage == "feedback" { FeedbackMeets(schema); }
    else if stage == "checklist" { VerdictsMeet(schema); }
    else if stage == "ideal" { IdealMeets(schema); }
    else { MergedMeets(schema); }
  }

  // A rejection names the first path, in the contract's order, that leads to no node of its kind: missing
  // if it leads nowhere.
  lemma {:induction false} FirstUnmetIsNamed(schema: Json, contract: Contract, k: nat)
    requires k < |contract| && !LeadsTo(schema, contract[k].0, contract[k].1)
    requires forall i | 0 <= i < k :: LeadsTo(schema, contract[i].0, contract[i].1)
    ensures Meets(schema, contract) == if NodeAt(schema, contract[k].0).None? then MissingField else WrongKind
    decreases k
  {
    if k > 0 {
      assert LeadsTo(schema, contract[0].0, contract[0].1);
      FirstUnmetIsNamed(schema, contract[1..], k - 1);
    }
  }

  // What an accepted schema has, field by field.
  lemma AcceptedHasTheCore(stage: string, schema: Json)
    ensures Validate(stage, schema).Accepted? <==>
            && schema.Obj? && Get(schema.fields, "type") == Some(Str("object"))
            && Get(schema.fields, "properties").Some? && Get(schema.fields, "properties").value.Obj?
            && Check(schema).Accepted? && Core(stage, schema)
  {
    if ContractOf(stage).Some? { StageMeets(stage, schema); }
  }

  method FindNode(schema: Json, path: Path) returns (found: Option<Json>)
    ensures found == NodeAt(schema, path)
  {
    var node := schema;
    for i := 0 to |path|
      invariant NodeAt(schema, path) == NodeAt(node, path[i..])
    {
      assert path[i..][0] == path[i] && path[i..][1..] == path[i + 1..];
      var props := if node.Obj? then Get(node.fields, "properties") else None;
      if props.None? || !props.value.Obj? { return None; }
      var child := Get(props.value.fields, path[i].key);
      if child.None? { return None; }
      node := child.value;
      if path[i].items {
        if !node.Obj? || Get(node.fields, "type") != Some(Str("array")) { return None; }
        var items := Get(node.fields, "items");
        node := if items.Some? then items.value else Obj([]);
      }
    }
    return if node.Obj? then Some(node) else None;
  }

  method ValidateOutputSchema(stage: string, schema: Json) returns (v: Verdict)
    ensures v == Validate(stage, schema)
    ensures v.Accepted? <==>
            && schema.Obj? && Get(schema.fields, "type") == Some(Str("object"))
            && Get(schema.fields, "properties").Some? && Get(schema.fields, "properties").value.Obj?
            && Check(schema).Accepted? && Core(stage, schema)
    ensures stage !in {"feedback", "checklist", "ideal", "merged"} ==> v.UnknownStage?
    ensures stage in {"feedback", "checklist", "ideal", "merged"} ==>
      && (!schema.Obj? ==> v.NotAnObject?)
      && (schema.Obj? && Get(schema.fields, "type") != Some(Str("object")) ==> v.NotTypedObject?)
  {
    AcceptedHasTheCore(stage, schema);
    var contract := ContractOf(stage);
    if contract.None? { return UnknownStage; }
    if !schema.Obj? { return NotAnObject; }
    if Get(schema.fields, "type") != Some(Str("object")) { return NotTypedObject; }
    var props := Get(schema.fields, "properties");
    if props.None? || !props.value.Obj? { return NoProperties; }
    v := Check(schema);
    if !v.Accepted? { return; }
    for i := 0 to |contract.value|
      invariant Validate(stage, schema) == Meets(schema, contract.value[i..])
    {
      var rest := contract.value[i..];
      assert rest[0] == contract.value[i] && rest[1..] == contract.value[i + 1..];
      var node := FindNode(schema, contract.value[i].0);
      if node.None? { return MissingField; }
      if !node.value.Obj? || !KindOk(node.value, contract.value[i].1) { return WrongKind; }
    }
    return Accepted;
  }

  lemma ContractsAreReachable(stage: string)
    requires ContractOf(stage).Some?
    ensures Reachable(ContractOf(stage).value)
  {
    var c := ContractOf(stage).value;
    assert forall i | 0 <= i < |c| :: Reaches(c[i].0);
  }

  // An accepted schema reaches the model unchanged, and what reaches it is still accepted.
  lemma AcceptedIsSentAsIs(stage: string, schema: Json)
    requires Validate(stage, schema).Accepted?
    ensures Strip(schema) == schema && Validate(stage, Strip(schema)).Accepted?
  {
    CheckedIsClean(schema);
    StripCleans(schema);
  }

  // And whatever is sent, accepted or not, meets its stage's contract at every depth exactly when the
  // schema it was made from does.
  lemma SentMeetsContract(stage: string, schema: Json)
    requires ContractOf(stage).Some?
    ensures Meets(Strip(schema), ContractOf(stage).value) == Meets(schema, ContractOf(stage).value)
  {
    ContractsAreReachable(stage);
    StripKeepsContract(schema, ContractOf(stage).value);
  }
}
