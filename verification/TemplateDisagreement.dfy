/** The accepted templates on which validator and renderer mean different things, one for each way a
    reference can be disturbed: nothing is found, an outer context answers, an object's own field does. */
module TemplateDisagreement {
  import opened TemplateSyntax
  import opened TemplateValidator
  import opened TemplateRenderer
  import opened TemplateAgreement
  import opened Wrappers

  // A name without dots that the renderer reaches is found exactly when it resolves against the
  // renderer's own contexts; otherwise it renders as nothing.
  lemma {:induction false} SimpleNameFoundIff(name: string, stack: seq<Value>, schemas: Contexts)
    requires Aligned(stack, schemas) && '.' !in name
    ensures Resolve(name, schemas).Some? <==> Lookup(name, stack) != Null
    decreases |stack|
  {
    assert Head(name) == name && Rest(name) == "" by { HeadOfSimpleName(name); }
    if stack != [] {
      var v, ctx := stack[|stack| - 1], schemas[|schemas| - 1];
      if name in ctx.fields {
        assert HasKind(v, ctx) && HasKind(v.fields[name], ctx.fields[name]);
      } else {
        assert !v.Dict? || name !in v.fields;
        SimpleNameFoundIff(name, stack[..|stack| - 1], schemas[..|schemas| - 1]);
      }
    }
  }

  // `{{^list}}{{field}}{{/list}}`.
  function WhenEmpty(list: string, field: string): Forest
  {
    Section(true, list, Inline(Var(field), Nil), Nil)
  }

  // A field that only the items of a list of objects have.
  predicate ItemsOnly(list: string, field: string, root: Schema, item: map<string, Kind>)
  {
    && list in root && root[list] == ObjectList(item) && list != "" && '.' !in list
    && field in item && field !in root && '.' !in field && !item[field].Dynamic?
  }

  lemma EmptyListIsAccepted(list: string, field: string, root: Schema, item: map<string, Kind>)
    requires ItemsOnly(list, field, root, item)
    ensures Resolve(list, [Object(root)]) == Some(ObjectList(item))
    ensures Scan(Flatten(WhenEmpty(list, field)), [Object(root)], []).Accepted?
  {
    var inner := Inline(Var(field), Nil);
    HeadOfSimpleName(list);
    HeadOfSimpleName(field);
    var contexts := [Object(root), Object(item)];
    assert contexts == [Object(root)] + [Pushed(ObjectList(item))];
    assert Resolve(field, contexts) == Some(item[field]);
    assert Checked(inner, contexts, true);
    CheckedIsAccepted(WhenEmpty(list, field), root);
  }

  lemma EmptyListIsReached(list: string, field: string, root: Schema, item: map<string, Kind>, context: Value)
    requires ItemsOnly(list, field, root, item) && HasKind(context, Object(root)) && context.fields[list] == List([])
    ensures Lookup(field, [context]) == Null && Seat(field, [context]) == None
    ensures Passes(true, list, [context]) == [[context]]
  {
    HeadOfSimpleName(list);
    HeadOfSimpleName(field);
    assert [context][..0] == [];
    assert Lookup(field, []) == Null && Seat(field, []) == None;
    assert Lookup(list, [context]) == List([]);
  }

  // With a field only the list's items have, the validator accepts `{{^list}}{{field}}{{/list}}`, and
  // whenever the renderer reaches the reference (the list is empty) it finds nothing and the section
  // renders as nothing.
  lemma InvertedObjectListDisagrees(list: string, field: string, root: Schema, item: map<string, Kind>, context: Value,
          fmt: Format)
    requires ItemsOnly(list, field, root, item) && HasKind(context, Object(root)) && context.fields[list] == List([])
    ensures var f := WhenEmpty(list, field);
            && Scan(Flatten(f), [Object(root)], []).Accepted?
            && !AlwaysAgrees(f, [context], [0], [Object(root)])
            && Meaning(f, [context], fmt) == ""
  {
    var inner := Inline(Var(field), Nil);
    EmptyListIsAccepted(list, field, root, item);
    EmptyListIsReached(list, field, root, item, context);
    assert [context] in Passes(true, list, [context]);
    assert !AlwaysAgrees(inner, [context], [0], [Object(root)] + [Object(item)]);
    assert Meaning(inner, [context], fmt) == Show(Var(field), [context], fmt) + Meaning(Nil, [context], fmt) == "";
    var passes: seq<Stack> := [[context]];
    assert Repeated(inner, passes, fmt) == Meaning(inner, passes[0], fmt) + Repeated(inner, passes[1..], fmt) == "";
  }

  // `{{#a}}{{^b}}{{x}}{{/b}}{{/a}}`.
  function Rebinding(a: string, b: string, x: string): Forest
  {
    Section(false, a, Section(true, b, Inline(Var(x), Nil), Nil), Nil)
  }

  predicate BothHave(a: string, b: string, x: string, root: Schema, itemA: Schema, itemB: Schema)
  {
    && '.' !in a && '.' !in b && '.' !in x
    && a in root && root[a] == ObjectList(itemA) && b in root && root[b] == ObjectList(itemB)
    && b !in itemA && x in itemA && x in itemB
  }

  lemma RebindingIsAccepted(a: string, b: string, x: string, root: Schema, itemA: Schema, itemB: Schema)
    requires BothHave(a, b, x, root, itemA, itemB) && a != "" && b != "" && x != ""
    ensures Scan(Flatten(Rebinding(a, b, x)), [Object(root)], []).Accepted?
    ensures Resolve(a, [Object(root)]) == Some(ObjectList(itemA))
    ensures Resolve(b, [Object(root), Object(itemA)]) == Some(ObjectList(itemB))
    ensures Resolve(x, [Object(root), Object(itemA), Object(itemB)]) == Some(itemB[x])
  {
    HeadOfSimpleName(a);
    HeadOfSimpleName(b);
    HeadOfSimpleName(x);
    var one, two, three := [Object(root)], [Object(root), Object(itemA)], [Object(root), Object(itemA), Object(itemB)];
    assert two == one + [Pushed(ObjectList(itemA))] && three == two + [Pushed(ObjectList(itemB))];
    assert two[..1] == one;
    assert Checked(Inline(Var(x), Nil), three, true);
    assert Checked(Section(true, b, Inline(Var(x), Nil), Nil), two, true);
    CheckedIsAccepted(Rebinding(a, b, x), root);
  }

  // The item of the outer list is what the renderer takes the name from.
  lemma RebindingFindsOuter(a: string, b: string, x: string, root: Schema, itemA: Schema, itemB: Schema,
          context: Value, item: Value)
    requires BothHave(a, b, x, root, itemA, itemB) && HasKind(context, Object(root)) && context.fields[a].List?
    requires item in context.fields[a].items && context.fields[b] == List([])
    ensures Seat(x, [context, item]) == Some(1) && HasKind(Lookup(x, [context, item]), itemA[x])
    ensures [context, item] in Passes(false, a, [context])
    ensures Passes(true, b, [context, item]) == [[context, item]]
  {
    HeadOfSimpleName(a);
    HeadOfSimpleName(b);
    HeadOfSimpleName(x);
    var list := context.fields[a];
    assert HasKind(list, ObjectList(itemA)) && item.Dict? && item.fields.Keys == itemA.Keys;
    assert [context, item][..1] == [context];
    assert Lookup(a, [context]) == list && Lookup(b, [context, item]) == Lookup(b, [context]) == List([]);
    var i :| 0 <= i < |list.items| && list.items[i] == item;
    assert Passes(false, a, [context])[i] == [context] + [list.items[i]] == [context, item];
  }

  lemma RebindingSteps(a: string, b: string, x: string, root: Schema, itemA: Schema, itemB: Schema, context: Value,
          item: Value)
    requires BothHave(a, b, x, root, itemA, itemB) && Seat(x, [context, item]) == Some(1)
    requires Resolve(b, [Object(root), Object(itemA)]) == Some(ObjectList(itemB))
    requires [context, item] in Passes(true, b, [context, item])
    ensures !AlwaysAgrees(Section(true, b, Inline(Var(x), Nil), Nil), [context, item], [0, 1],
               [Object(root), Object(itemA)])
  {
    HeadOfSimpleName(x);
    var two, three := [Object(root), Object(itemA)], [Object(root), Object(itemA), Object(itemB)];
    assert three == two + [Pushed(ObjectList(itemB))];
    assert Bound(x, three) == Some(2);
    assert !AlwaysAgrees(Inline(Var(x), Nil), [context, item], [0, 1], three);
  }

  lemma RebindingStarts(a: string, b: string, x: string, root: Schema, itemA: Schema, context: Value, item: Value)
    requires Resolve(a, [Object(root)]) == Some(ObjectList(itemA)) && [context, item] in Passes(false, a, [context])
    requires var inner := Section(true, b, Inline(Var(x), Nil), Nil);
             !AlwaysAgrees(inner, [context, item], [0, 1], [Object(root), Object(itemA)])
    ensures !AlwaysAgrees(Rebinding(a, b, x), [context], [0], [Object(root)])
  {
    var levels: seq<nat> := [0];
    assert levels + [1] == [0, 1];
    assert [Object(root)] + [Pushed(ObjectList(itemA))] == [Object(root), Object(itemA)];
  }

  // Under an outer list whose items have a field of the same name, the renderer does find the name of an
  // empty inner list's section, in the wrong place: the outer item's, whatever kind that has.
  lemma InvertedInsideListRebinds(a: string, b: string, x: string, root: Schema, itemA: Schema, itemB: Schema,
          context: Value, item: Value)
    requires BothHave(a, b, x, root, itemA, itemB) && HasKind(context, Object(root)) && context.fields[a].List?
    requires item in context.fields[a].items && context.fields[b] == List([])
    ensures Scan(Flatten(Rebinding(a, b, x)), [Object(root)], []).Accepted?
    ensures HasKind(Lookup(x, [context, item]), itemA[x])
    ensures !AlwaysAgrees(Rebinding(a, b, x), [context], [0], [Object(root)])
  {
    assert HasKind(context.fields[a], ObjectList(itemA)) && HasKind(item, Object(itemA));
    RebindingIsAccepted(a, b, x, root, itemA, itemB);
    RebindingFindsOuter(a, b, x, root, itemA, itemB, context, item);
    RebindingSteps(a, b, x, root, itemA, itemB, context, item);
    RebindingStarts(a, b, x, root, itemA, context, item);
  }

  lemma CaptureIsAccepted(o: string, x: string, root: Schema, fields: map<string, Kind>)
    requires '.' !in o && '.' !in x && o != "" && x != ""
    requires o in root && root[o] == Object(fields) && x in root && x in fields
    ensures Scan(Flatten(Section(false, o, Inline(Var(x), Nil), Nil)), [Object(root)], []).Accepted?
    ensures Resolve(o, [Object(root)]) == Some(Object(fields))
    ensures Bound(x, [Object(root), Object(map[])]) == Some(0)
  {
    HeadOfSimpleName(o);
    HeadOfSimpleName(x);
    var none: map<string, Kind> := map[];
    var one, two := [Object(root)], [Object(root), Object(none)];
    assert two == one + [Pushed(Object(fields))] && two[..1] == one;
    assert Resolve(x, one) == Some(root[x]) && Resolve(x, two) == Some(root[x]);
    assert Checked(Inline(Var(x), Nil), two, true);
    assert Bound(x, one) == Some(0);
    CheckedIsAccepted(Section(false, o, Inline(Var(x), Nil), Nil), root);
  }

  lemma CaptureIsReached(o: string, x: string, root: Schema, fields: map<string, Kind>, context: Value)
    requires '.' !in o && '.' !in x && HasKind(context, Object(root))
    requires o in root && root[o] == Object(fields) && x in fields
    ensures var val := context.fields[o];
      && Seat(x, [context, val]) == Some(1) && [context, val] in Passes(false, o, [context])
  {
    HeadOfSimpleName(o);
    HeadOfSimpleName(x);
    var val := context.fields[o];
    assert HasKind(val, Object(fields)) && x in val.fields;
    assert [context, val] == [context] + [val] && Lookup(o, [context]) == val;
    assert Passes(false, o, [context]) == [[context] + [val]];
  }

  // `{{#o}}{{x}}{{/o}}` over a plain object: a name the object shares with the outer context means the
  // outer one to the validator and the object's own to the renderer.
  lemma ObjectSectionCaptures(o: string, x: string, root: Schema, fields: map<string, Kind>, context: Value)
    requires '.' !in o && '.' !in x && HasKind(context, Object(root))
    requires o in root && root[o] == Object(fields) && x in root && x in fields
    ensures var f := Section(false, o, Inline(Var(x), Nil), Nil);
      && Scan(Flatten(f), [Object(root)], []).Accepted?
      && !AlwaysAgrees(f, [context], [0], [Object(root)])
  {
    CaptureIsAccepted(o, x, root, fields);
    CaptureIsReached(o, x, root, fields, context);
    HeadOfSimpleName(x);
    var val := context.fields[o];
    assert [Object(root)] + [Pushed(Object(fields))] == [Object(root), Object(map[])];
    var levels: seq<nat> := [0];
    assert levels + [1] == [0, 1];
    assert !AlwaysAgrees(Inline(Var(x), Nil), [context, val], [0, 1], [Object(root), Object(map[])]);
  }
}
