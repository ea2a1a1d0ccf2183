/** What the validator's verdict is worth at render time.  The validator resolves names against
    schemas, the renderer against values, and the two do not push the same contexts: an inverted section
    gives the renderer none, and a section over a plain object gives it the object's fields, which the
    validator does not see.  This module says exactly when they agree about every reference rendered. */
module TemplateAgreement {
  import opened Wrappers
  import opened TemplateSyntax
  import opened TemplateValidator
  import opened TemplateRenderer

  // `v` has the shape the data dictionary promises for a node of kind `k`.
  predicate HasKind(v: Value, k: Kind)
    decreases k
  {
    match k
    case Scalar => v.Str? || v.Num?
    case Flag => v.Bool?
    case ScalarList => v.List? && forall x <- v.items :: x.Str? || x.Num?
    case ObjectList(item) =>
      v.List? && forall x <- v.items ::
        x.Dict? && x.fields.Keys == item.Keys && "" !in item && forall n <- item :: HasKind(x.fields[n], item[n])
    case Object(fields) =>
      v.Dict? && v.fields.Keys == fields.Keys && "" !in fields && forall n <- fields :: HasKind(v.fields[n], fields[n])
    case Dynamic => v.Dict?
  }

  // A render context stands for a schema context: an object with those fields, or something without
  // fields of its own (a scalar list item, the empty dictionary of a flag section).
  predicate Fits(v: Value, ctx: Kind)
  {
    ctx.Object? && if v.Dict? then HasKind(v, ctx) else ctx.fields == map[]
  }

  predicate Aligned(stack: seq<Value>, schemas: Contexts)
  {
    |stack| == |schemas| && forall i :: 0 <= i < |stack| ==> Fits(stack[i], schemas[i])
  }

  // The lookup the renderer makes finds a value of the kind the name resolves to.
  predicate Found(name: string, stack: seq<Value>, schemas: Contexts)
  {
    var node := Resolve(name, schemas);
    node.Some? && (node.value.Dynamic? || HasKind(Lookup(name, stack), node.value))
  }

  lemma {:induction false} ResolvedIsFound(name: string, stack: seq<Value>, schemas: Contexts)
    requires Aligned(stack, schemas) && Resolve(name, schemas).Some?
    ensures Found(name, stack, schemas)
    ensures name != "."
    decreases |name|, |stack|
  {
    var v, ctx := stack[|stack| - 1], schemas[|schemas| - 1];
    if Head(name) in ctx.fields {
      var node := ctx.fields[Head(name)];
      assert HasKind(v, ctx) && HasKind(v.fields[Head(name)], node);
      if Rest(name) != "" && node.Object? {
        ResolvedIsFound(Rest(name), [v.fields[Head(name)]], [node]);
      }
    } else {
      assert !v.Dict? || Head(name) !in v.fields;
      ResolvedIsFound(name, stack[..|stack| - 1], schemas[..|schemas| - 1]);
    }
  }

  // ---- Agreement, in the validator's terms -------------------------------------------------------

  predicate Declares(ctx: Kind, name: string)
  {
    ctx.Object? && Head(name) in ctx.fields
  }

  // Where the validator binds a name: the innermost context that declares it.
  function Bound(name: string, schemas: Contexts): (bound: Option<nat>)
    ensures bound.Some? ==> bound.value < |schemas|
  {
    if schemas == [] then None else
    var last := |schemas| - 1;
    if schemas[last].Dynamic? || Declares(schemas[last], name) then Some(last) else Bound(name, schemas[..last])
  }

  // Where the renderer binds it: the innermost dictionary that has it.
  function Seat(name: string, stack: seq<Value>): (seat: Option<nat>)
    ensures seat.Some? ==> seat.value < |stack|
  {
    if stack == [] then None else
    var last := |stack| - 1;
    if stack[last].Dict? && Head(name) in stack[last].fields then Some(last) else Seat(name, stack[..last])
  }

  // The renderer finds the name in the section the validator resolved it in, with a value of the kind
  // it resolved to.  `levels` says which section each of the renderer's contexts came from.
  predicate MeansTheSame(name: string, stack: seq<Value>, levels: seq<nat>, schemas: Contexts)
  {
    var bound, seat := Bound(name, schemas), Seat(name, stack);
    && bound.Some? && seat.Some? && seat.value < |levels| && levels[seat.value] == bound.value
    && Found(name, stack, schemas)
  }

  // At every step of rendering `f`, in every pass over every section body, validator and renderer mean
  // the same by every name.  `schemas` are the validator's contexts.  Below dynamic data the validator
  // promises nothing.  `{{.}}` is the current item for the renderer and no field for the validator; as
  // the name of a section it is a field for the one and the item for the other.
  predicate AlwaysAgrees(f: Forest, stack: Stack, levels: seq<nat>, schemas: Contexts)
    decreases f
  {
    match f
    case Nil => true
    case Inline(p, rest) =>
      && (p.Text? || p.name == "." || MeansTheSame(p.name, stack, levels, schemas))
      && AlwaysAgrees(rest, stack, levels, schemas)
    case Section(inverted, n, body, rest) =>
      && n != "." && MeansTheSame(n, stack, levels, schemas)
      && var node := Resolve(n, schemas).value;
      && (node.Dynamic? ||
          forall pass <- Passes(inverted, n, stack) ::
            AlwaysAgrees(body, pass, if inverted then levels else levels + [|schemas|], schemas + [Pushed(node)]))
      && AlwaysAgrees(rest, stack, levels, schemas)
  }

  // ---- The exact condition -----------------------------------------------------------------------

  // One open section: the context the validator pushed for it, and the one the renderer did, if any.
  datatype Frame = Frame(seen: Kind, pushed: Option<Kind>)

  function RenderPushed(node: Kind): Kind
  {
    match node
    case ObjectList(item) => Object(item)
    case Object(_) => node
    case _ => Object(map[])
  }

  function FrameOf(inverted: bool, node: Kind): Frame
  {
    Frame(Pushed(node), if inverted then None else Some(RenderPushed(node)))
  }

  function Whole(root: Schema): seq<Frame>
  {
    [Frame(Object(root), Some(Object(root)))]
  }

  // The validator's contexts, the renderer's, and the sections the latter came from.
  function Seen(frames: seq<Frame>): (schemas: Contexts)
    ensures |schemas| == |frames|
  {
    if frames == [] then [] else Seen(frames[..|frames| - 1]) + [frames[|frames| - 1].seen]
  }

  function Given(frames: seq<Frame>): Contexts
  {
    if frames == [] then [] else
    var last := |frames| - 1;
    if frames[last].pushed.Some? then Given(frames[..last]) + [frames[last].pushed.value] else Given(frames[..last])
  }

  function Levels(frames: seq<Frame>): (levels: seq<nat>)
    ensures |levels| == |Given(frames)|
    ensures forall i | 0 <= i < |levels| :: levels[i] < |frames|
  {
    if frames == [] then [] else
    var last := |frames| - 1;
    if frames[last].pushed.Some? then Levels(frames[..last]) + [last] else Levels(frames[..last])
  }

  // The section the validator binds the name in gives the renderer its context, and no section inside
  // it gives the renderer a context of that name.
  predicate Undisturbed(name: string, frames: seq<Frame>)
  {
    frames != [] &&
    var last := frames[|frames| - 1];
    if Declares(last.seen, name) then last.pushed.Some?
    else !(last.pushed.Some? && Declares(last.pushed.value, name)) && Undisturbed(name, frames[..|frames| - 1])
  }

  // Every reference in a body that is rendered on this data is undisturbed.
  predicate UndisturbedIn(f: Forest, stack: Stack, frames: seq<Frame>)
    decreases f
  {
    match f
    case Nil => true
    case Inline(p, rest) =>
      (p.Text? || p.name == "." || Undisturbed(p.name, frames)) && UndisturbedIn(rest, stack, frames)
    case Section(inverted, n, body, rest) =>
      var node := Resolve(n, Seen(frames));
      && n != "." && Undisturbed(n, frames) && node.Some?
      && (node.value.Dynamic? ||
          forall pass <- Passes(inverted, n, stack) ::
            UndisturbedIn(body, pass, frames + [FrameOf(inverted, node.value)]))
      && UndisturbedIn(rest, stack, frames)
  }

  // The same for every reference of the template, with no data.
  predicate UndisturbedEverywhere(f: Forest, frames: seq<Frame>)
  {
    match f
    case Nil => true
    case Inline(p, rest) =>
      (p.Text? || p.name == "." || Undisturbed(p.name, frames)) && UndisturbedEverywhere(rest, frames)
    case Section(inverted, n, body, rest) =>
      var node := Resolve(n, Seen(frames));
      && n != "." && Undisturbed(n, frames) && node.Some?
      && (node.value.Dynamic? || UndisturbedEverywhere(body, frames + [FrameOf(inverted, node.value)]))
      && UndisturbedEverywhere(rest, frames)
  }

  predicate FrameOk(frame: Frame)
  {
    && frame.seen.Object?
    && (frame.pushed.Some? ==>
          frame.pushed.value == frame.seen || (frame.seen == Object(map[]) && frame.pushed.value.Object?))
  }

  predicate FramesOk(frames: seq<Frame>)
  {
    forall i | 0 <= i < |frames| :: FrameOk(frames[i])
  }

  lemma OneMoreFrame(frames: seq<Frame>, frame: Frame)
    ensures Seen(frames + [frame]) == Seen(frames) + [frame.seen]
    ensures Given(frames + [frame])
         == if frame.pushed.Some? then Given(frames) + [frame.pushed.value] else Given(frames)
    ensures Levels(frames + [frame]) == if frame.pushed.Some? then Levels(frames) + [|frames|] else Levels(frames)
  {
    assert (frames + [frame])[..|frames|] == frames;
  }

  lemma FrameOfIsOk(frames: seq<Frame>, inverted: bool, node: Kind)
    requires FramesOk(frames) && !node.Dynamic?
    ensures FramesOk(frames + [FrameOf(inverted, node)])
  {
    assert FrameOk(FrameOf(inverted, node));
  }

  // An undisturbed name, and no other, means the same to both.
  lemma {:induction false} BindingIff(name: string, stack: seq<Value>, frames: seq<Frame>)
    requires FramesOk(frames) && Aligned(stack, Given(frames)) && Resolve(name, Seen(frames)).Some? && name != "."
    ensures MeansTheSame(name, stack, Levels(frames), Seen(frames)) <==> Undisturbed(name, frames)
    decreases |frames|
  {
    var init, last := frames[..|frames| - 1], frames[|frames| - 1];
    assert Seen(frames)[..|init|] == Seen(init);
    if Declares(last.seen, name) {
      if last.pushed.Some? {
        assert last.pushed.value == last.seen;
        assert Fits(stack[|stack| - 1], Given(frames)[|stack| - 1]);
        assert Resolve(name, Given(frames)) == Resolve(name, Seen(frames));
        ResolvedIsFound(name, stack, Given(frames));
      }
    } else if last.pushed.None? {
      BindingIff(name, stack, init);
    } else {
      var outer := stack[..|stack| - 1];
      assert Given(frames)[..|stack| - 1] == Given(init);
      assert Fits(stack[|stack| - 1], last.pushed.value);
      if Declares(last.pushed.value, name) {
        assert Seat(name, stack) == Some(|stack| - 1);
      } else {
        assert forall i | 0 <= i < |outer| :: Fits(outer[i], Given(init)[i]);
        BindingIff(name, outer, init);
        assert Lookup(name, stack) == Lookup(name, outer);
      }
    }
  }

  lemma PassesStayAligned(inverted: bool, name: string, stack: Stack, schemas: Contexts, node: Kind)
    requires Aligned(stack, schemas) && !node.Dynamic? && HasKind(Lookup(name, stack), node)
    ensures forall pass <- Passes(inverted, name, stack) ::
              Aligned(pass, if inverted then schemas else schemas + [RenderPushed(node)])
  {
    var val := Lookup(name, stack);
    forall pass | pass in Passes(inverted, name, stack)
      ensures Aligned(pass, if inverted then schemas else schemas + [RenderPushed(node)])
    {
      if !inverted {
        assert HasKind(Dict(map[]), Object(map[])) by {
          var none: map<string, Value>, noFields: Schema := map[], map[];
          assert none.Keys == noFields.Keys;
        }
        if val.List? {
          var i :| 0 <= i < |val.items| && pass == stack + [val.items[i]];
          assert val.items[i] in val.items;
          assert node.ObjectList? ==> HasKind(val.items[i], Object(node.item));
        }
        assert Fits(pass[|stack|], RenderPushed(node));
      }
    }
  }

  // On data of the promised shape, validator and renderer agree at every step exactly when every
  // reference in a body that is rendered is undisturbed.
  lemma {:induction false} AgreesIff(f: Forest, stack: Stack, frames: seq<Frame>, nested: bool)
    requires FramesOk(frames) && Aligned(stack, Given(frames)) && Checked(f, Seen(frames), nested)
    ensures AlwaysAgrees(f, stack, Levels(frames), Seen(frames)) <==> UndisturbedIn(f, stack, frames)
    decreases f
  {
    match f
    case Nil =>
    case Inline(p, rest) =>
      if !p.Text? && p.name != "." { BindingIff(p.name, stack, frames); }
      AgreesIff(rest, stack, frames, nested);
    case Section(inverted, n, body, rest) =>
      if n != "." {
        BindingIff(n, stack, frames);
        if Undisturbed(n, frames) && !Resolve(n, Seen(frames)).value.Dynamic? {
          BodyAgreesIff(f, stack, frames);
        }
      }
      AgreesIff(rest, stack, frames, nested);
  }

  lemma {:induction false} BodyAgreesIff(f: Forest, stack: Stack, frames: seq<Frame>)
    requires f.Section? && FramesOk(frames) && Aligned(stack, Given(frames))
    requires Resolve(f.name, Seen(frames)).Some? && !Resolve(f.name, Seen(frames)).value.Dynamic?
    requires Checked(f.body, Seen(frames) + [Pushed(Resolve(f.name, Seen(frames)).value)], true)
    requires HasKind(Lookup(f.name, stack), Resolve(f.name, Seen(frames)).value)
    ensures var node := Resolve(f.name, Seen(frames)).value;
      forall pass <- Passes(f.inverted, f.name, stack) ::
        AlwaysAgrees(f.body, pass, if f.inverted then Levels(frames) else Levels(frames) + [|frames|],
          Seen(frames) + [Pushed(node)])
        <==> UndisturbedIn(f.body, pass, frames + [FrameOf(f.inverted, node)])
    decreases f, 0
  {
    var node := Resolve(f.name, Seen(frames)).value;
    OneMoreFrame(frames, FrameOf(f.inverted, node));
    FrameOfIsOk(frames, f.inverted, node);
    PassesStayAligned(f.inverted, f.name, stack, Given(frames), node);
    forall pass | pass in Passes(f.inverted, f.name, stack)
      ensures AlwaysAgrees(f.body, pass, Levels(frames + [FrameOf(f.inverted, node)]), Seen(frames) + [Pushed(node)])
         <==> UndisturbedIn(f.body, pass, frames + [FrameOf(f.inverted, node)])
    {
      AgreesIff(f.body, pass, frames + [FrameOf(f.inverted, node)], true);
    }
  }

  lemma {:induction false} EverywhereIsInAny(f: Forest, stack: Stack, frames: seq<Frame>)
    requires UndisturbedEverywhere(f, frames)
    ensures UndisturbedIn(f, stack, frames)
    decreases f
  {
    match f
    case Nil =>
    case Inline(_, rest) => EverywhereIsInAny(rest, stack, frames);
    case Section(inverted, n, body, rest) =>
      var node := Resolve(n, Seen(frames)).value;
      if !node.Dynamic? {
        forall pass | pass in Passes(inverted, n, stack)
          ensures UndisturbedIn(body, pass, frames + [FrameOf(inverted, node)])
        {
          EverywhereIsInAny(body, pass, frames + [FrameOf(inverted, node)]);
        }
      }
      EverywhereIsInAny(rest, stack, frames);
  }

  lemma AcceptedIsChecked(f: Forest, root: Schema)
    requires Scan(Flatten(f), [Object(root)], []).Accepted?
    ensures Checked(f, [Object(root)], false)
  {
    AcceptsExactlyCheckedTrees(Flatten(f), root);
    var g :| Flatten(g) == Flatten(f) && Checked(g, [Object(root)], false);
    TreeIsUnique(f, g);
  }

  // The promise that the two can never disagree, made exact: for an accepted template and data of the
  // promised shape it holds if and only if the rendered references are undisturbed.
  lemma AgreesExactlyWhen(tokens: seq<Token>, f: Forest, root: Schema, context: Value)
    requires HasKind(context, Object(root)) && Flatten(f) == tokens && Scan(tokens, [Object(root)], []).Accepted?
    ensures AlwaysAgrees(f, [context], [0], [Object(root)]) <==> UndisturbedIn(f, [context], Whole(root))
  {
    AcceptedIsChecked(f, root);
    WholeIs(root);
    AgreesIff(f, [context], Whole(root), false);
  }

  lemma WholeIs(root: Schema)
    ensures FramesOk(Whole(root)) && Levels(Whole(root)) == [0]
    ensures Seen(Whole(root)) == [Object(root)] == Given(Whole(root))
  {
    assert Whole(root)[..0] == [];
    assert Seen([]) == [] && Given([]) == [] && Levels([]) == [];
  }

  // For every data at once: a template that is undisturbed everywhere always agrees.
  lemma UndisturbedTemplateAgrees(tokens: seq<Token>, f: Forest, root: Schema, context: Value)
    requires HasKind(context, Object(root)) && Flatten(f) == tokens && Scan(tokens, [Object(root)], []).Accepted?
    requires UndisturbedEverywhere(f, Whole(root))
    ensures AlwaysAgrees(f, [context], [0], [Object(root)])
  {
    AgreesExactlyWhen(tokens, f, root, context);
    EverywhereIsInAny(f, [context], Whole(root));
  }

  // Without sections over plain objects, as in the report's dictionary, there is one way to be
  // disturbed: to be bound to the context of an inverted section.
  lemma {:induction false} OnlyInvertedDisturb(name: string, frames: seq<Frame>)
    requires forall i | 0 <= i < |frames| ::
      frames[i].seen.Object? && (frames[i].pushed.None? || frames[i].pushed == Some(frames[i].seen))
    ensures var bound := Bound(name, Seen(frames));
      Undisturbed(name, frames) <==> bound.Some? && frames[bound.value].pushed.Some?
    decreases |frames|
  {
    if frames != [] {
      var init := frames[..|frames| - 1];
      assert Seen(frames)[..|init|] == Seen(init);
      OnlyInvertedDisturb(name, init);
    }
  }

  // ---- A simpler sufficient condition ------------------------------------------------------------

  // No inverted section over a list of objects, none over a plain object, none named `.`.
  predicate Plain(f: Forest, schemas: Contexts)
  {
    match f
    case Nil => true
    case Inline(_, rest) => Plain(rest, schemas)
    case Section(inverted, n, body, rest) =>
      var node := Resolve(n, schemas);
      && n != "."
      && (node.Some? ==>
            && !(inverted && node.value.ObjectList?) && !node.value.Object?
            && (node.value.Dynamic? || Plain(body, schemas + [Pushed(node.value)])))
      && Plain(rest, schemas)
  }

  predicate Quiet(frames: seq<Frame>)
  {
    forall i | 0 <= i < |frames| ::
      && frames[i].seen.Object?
      && (frames[i].pushed == Some(frames[i].seen) || (frames[i].pushed.None? && frames[i].seen == Object(map[])))
  }

  lemma {:induction false} QuietIsUndisturbed(name: string, frames: seq<Frame>)
    requires Quiet(frames) && Resolve(name, Seen(frames)).Some?
    ensures Undisturbed(name, frames)
    decreases |frames|
  {
    var init := frames[..|frames| - 1];
    assert Seen(frames)[..|init|] == Seen(init);
    if !Declares(frames[|frames| - 1].seen, name) { QuietIsUndisturbed(name, init); }
  }

  lemma {:induction false} PlainIsUndisturbed(f: Forest, frames: seq<Frame>, nested: bool)
    requires Quiet(frames) && Checked(f, Seen(frames), nested) && Plain(f, Seen(frames))
    ensures UndisturbedEverywhere(f, frames)
    decreases f
  {
    match f
    case Nil =>
    case Inline(p, rest) =>
      if !p.Text? && p.name != "." { QuietIsUndisturbed(p.name, frames); }
      PlainIsUndisturbed(rest, frames, nested);
    case Section(inverted, n, body, rest) =>
      QuietIsUndisturbed(n, frames);
      var node := Resolve(n, Seen(frames)).value;
      if !node.Dynamic? {
        var inner := frames + [FrameOf(inverted, node)];
        assert inner[..|frames|] == frames;
        PlainIsUndisturbed(body, inner, true);
      }
      PlainIsUndisturbed(rest, frames, nested);
  }

  lemma AcceptedPlainAgrees(tokens: seq<Token>, f: Forest, root: Schema, context: Value)
    requires HasKind(context, Object(root)) && Flatten(f) == tokens && Plain(f, [Object(root)])
    requires Scan(tokens, [Object(root)], []).Accepted?
    ensures AlwaysAgrees(f, [context], [0], [Object(root)])
  {
    AcceptedIsChecked(f, root);
    WholeIs(root);
    PlainIsUndisturbed(f, Whole(root), false);
    UndisturbedTemplateAgrees(tokens, f, root, context);
  }

  // The documented use of an inverted section is not plain, and always agrees.
  lemma InvertedNoteAgrees(list: string, note: string, root: Schema, item: map<string, Kind>, context: Value)
    requires list in root && root[list] == ObjectList(item) && '.' !in list && HasKind(context, Object(root))
    ensures var f := Section(true, list, Inline(Text(note), Nil), Nil);
      && Scan(Flatten(f), [Object(root)], []).Accepted? && !Plain(f, [Object(root)])
      && AlwaysAgrees(f, [context], [0], [Object(root)])
  {
    var body := Inline(Text(note), Nil);
    var f := Section(true, list, body, Nil);
    WholeIs(root);
    HeadOfSimpleName(list);
    assert list != "" && Resolve(list, [Object(root)]) == Some(ObjectList(item));
    assert UndisturbedEverywhere(body, Whole(root) + [FrameOf(true, ObjectList(item))]);
    CheckedIsAccepted(f, root);
    UndisturbedTemplateAgrees(Flatten(f), f, root, context);
  }

  lemma CheckedIsAccepted(f: Forest, root: Schema)
    requires Checked(f, [Object(root)], false)
    ensures Scan(Flatten(f), [Object(root)], []).Accepted?
  {
    ScanSkipsChecked(f, [], [Object(root)], []);
    assert Stream(f, []) == Flatten(f);
  }
}
