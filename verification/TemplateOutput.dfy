/** What a rendered template says, in terms of its data alone: tags, sections and the scopes they open,
    and the two entry points that promise it. */
module TemplateOutput {
  import opened Wrappers
  import opened TemplateSyntax
  import opened TemplateValidator
  import opened TemplateRenderer

  // Python's falsy values: nothing, zero, and everything empty.
  predicate Falsy(val: Value)
  {
    val == Null || val == Bool(false) || val == Num(0.0) || val == Str("") || val == List([]) || val == Dict(map[])
  }

  // A name without dots: a field of the section's item, else one of the whole data; `.` is the item.
  function ValueOf(name: string, item: Value, context: map<string, Value>): Value
  {
    if name == "." then item
    else if item.Dict? && name in item.fields then item.fields[name]
    else if name in context then context[name]
    else Null
  }

  // The three kinds of piece: text as it is, `{{x}}` escaped, `{{{x}}}` not; None is written as nothing.
  function Written(p: Piece, val: Value, fmt: Format): string
  {
    match p
    case Text(text) => text
    case Var(_) => if val == Null then "" else fmt.escape(fmt.str(val))
    case Raw(_) => if val == Null then "" else fmt.str(val)
  }

  predicate Simple(p: Piece) { p.Text? || p.name == "." || '.' !in p.name }

  function PieceValue(p: Piece, item: Value, context: map<string, Value>): Value
  {
    if p.Text? then Null else ValueOf(p.name, item, context)
  }

  // A template of one piece; outside all sections the item is the data itself.
  predicate RendersPiece(tokens: seq<Token>, context: map<string, Value>, fmt: Format, out: string)
  {
    |tokens| == 1 && tokens[0].Emit? && Simple(tokens[0].piece) ==>
      out == Written(tokens[0].piece, PieceValue(tokens[0].piece, Dict(context), context), fmt)
  }

  // One piece in a section: per item in list order, or once, or not at all.
  predicate SectionSays(inverted: bool, n: string, p: Piece, context: map<string, Value>, fmt: Format, out: string)
  {
    var val := ValueOf(n, Null, context);
    Simple(p) ==>
      if inverted then
        out == if Falsy(val) then Written(p, PieceValue(p, Dict(context), context), fmt) else ""
      else if val.List? then
        out == Concat(seq(|val.items|, i requires 0 <= i < |val.items| =>
                            Written(p, PieceValue(p, val.items[i], context), fmt)))
      else
        out == if Falsy(val) then ""
               else Written(p, PieceValue(p, if val.Dict? then val else Dict(map[]), context), fmt)
  }

  // A template of one section with one piece in it.
  predicate RendersSection(tokens: seq<Token>, context: map<string, Value>, fmt: Format, out: string)
  {
    && |tokens| == 3 && tokens[0].Open? && tokens[1].Emit? && tokens[2] == Close(tokens[0].name)
    && '.' !in tokens[0].name
    ==> SectionSays(tokens[0].inverted, tokens[0].name, tokens[1].piece, context, fmt, out)
  }

  lemma LookupStep(name: string, outer: seq<Value>, item: Value)
    requires '.' !in name
    ensures Lookup(name, outer + [item])
         == if item.Dict? && name in item.fields then item.fields[name] else Lookup(name, outer)
  {
    HeadOfSimpleName(name);
    var stack := outer + [item];
    assert name != "." && Rest(name) == "" && stack[|stack| - 1] == item && stack[..|stack| - 1] == outer;
  }

  lemma SimpleLookup(name: string, context: map<string, Value>, item: Value)
    requires name == "." || '.' !in name
    ensures Lookup(name, [Dict(context)]) == ValueOf(name, Dict(context), context)
    ensures Lookup(name, [Dict(context), item]) == ValueOf(name, item, context)
  {
    if '.' !in name {
      LookupStep(name, [], Dict(context));
      LookupStep(name, [Dict(context)], item);
      assert [] + [Dict(context)] == [Dict(context)] && [Dict(context)] + [item] == [Dict(context), item];
    }
  }

  lemma PieceMeaning(p: Piece, stack: Stack, fmt: Format)
    ensures Meaning(Inline(p, Nil), stack, fmt) == Written(p, if p.Text? then Null else Lookup(p.name, stack), fmt)
  {
    assert Meaning(Nil, stack, fmt) == "";
  }

  lemma {:induction false} RepeatedIsConcat(body: Forest, passes: seq<Stack>, fmt: Format)
    ensures Repeated(body, passes, fmt)
         == Concat(seq(|passes|, i requires 0 <= i < |passes| => Meaning(body, passes[i], fmt)))
    decreases |passes|
  {
    if passes != [] {
      RepeatedIsConcat(body, passes[1..], fmt);
      var parts := seq(|passes|, i requires 0 <= i < |passes| => Meaning(body, passes[i], fmt));
      assert parts[1..] == seq(|passes[1..]|, i requires 0 <= i < |passes[1..]| => Meaning(body, passes[1..][i], fmt));
    }
  }

  lemma TruthyIsNotFalsy(val: Value)
    ensures Truthy(val) <==> !Falsy(val)
  {}

  lemma PieceIsRendered(tokens: seq<Token>, context: map<string, Value>, fmt: Format, out: string)
    requires forall f :: Flatten(f) == tokens ==> out == Meaning(f, [Dict(context)], fmt)
    ensures RendersPiece(tokens, context, fmt, out)
  {
    if |tokens| == 1 && tokens[0].Emit? && Simple(tokens[0].piece) {
      var p := tokens[0].piece;
      assert Flatten(Inline(p, Nil)) == tokens;
      PieceMeaning(p, [Dict(context)], fmt);
      if !p.Text? { SimpleLookup(p.name, context, Null); }
    }
  }

  // The body of a section with one more context, or none.
  lemma BodyMeaning(p: Piece, context: map<string, Value>, item: Value, fmt: Format)
    requires Simple(p)
    ensures Meaning(Inline(p, Nil), [Dict(context)] + [item], fmt) == Written(p, PieceValue(p, item, context), fmt)
    ensures Meaning(Inline(p, Nil), [Dict(context)], fmt) == Written(p, PieceValue(p, Dict(context), context), fmt)
  {
    assert [Dict(context)] + [item] == [Dict(context), item];
    PieceMeaning(p, [Dict(context), item], fmt);
    PieceMeaning(p, [Dict(context)], fmt);
    if !p.Text? { SimpleLookup(p.name, context, item); }
  }

  lemma OnePass(body: Forest, pass: Stack, fmt: Format)
    ensures Repeated(body, [pass], fmt) == Meaning(body, pass, fmt)
  {
    var passes: seq<Stack> := [pass];
    assert passes[1..] == [] && Repeated(body, passes[1..], fmt) == "";
    assert Repeated(body, passes, fmt) == Meaning(body, pass, fmt) + "";
  }

  lemma ListSays(n: string, p: Piece, context: map<string, Value>, fmt: Format, items: seq<Value>)
    requires Lookup(n, [Dict(context)]) == List(items) && Simple(p)
    ensures Repeated(Inline(p, Nil), Passes(false, n, [Dict(context)]), fmt)
         == Concat(seq(|items|, i requires 0 <= i < |items| => Written(p, PieceValue(p, items[i], context), fmt)))
  {
    var body, passes := Inline(p, Nil), Passes(false, n, [Dict(context)]);
    RepeatedIsConcat(body, passes, fmt);
    var parts := seq(|passes|, i requires 0 <= i < |passes| => Meaning(body, passes[i], fmt));
    forall i | 0 <= i < |items|
      ensures parts[i] == Written(p, PieceValue(p, items[i], context), fmt)
    {
      BodyMeaning(p, context, items[i], fmt);
    }
    assert parts == seq(|items|, i requires 0 <= i < |items| => Written(p, PieceValue(p, items[i], context), fmt));
  }

  lemma OnceSays(inverted: bool, n: string, p: Piece, context: map<string, Value>, fmt: Format)
    requires '.' !in n && Simple(p) && (inverted || !ValueOf(n, Null, context).List?)
    ensures SectionSays(inverted, n, p, context, fmt,
                        Repeated(Inline(p, Nil), Passes(inverted, n, [Dict(context)]), fmt))
  {
    var body, val := Inline(p, Nil), ValueOf(n, Null, context);
    SimpleLookup(n, context, Null);
    TruthyIsNotFalsy(val);
    var pushed := if val.Dict? then val else Dict(map[]);
    BodyMeaning(p, context, pushed, fmt);
    OnePass(body, [Dict(context)], fmt);
    OnePass(body, [Dict(context)] + [pushed], fmt);
  }

  lemma SectionMeaning(inverted: bool, n: string, p: Piece, context: map<string, Value>, fmt: Format)
    requires '.' !in n
    ensures SectionSays(inverted, n, p, context, fmt,
                        Meaning(Section(inverted, n, Inline(p, Nil), Nil), [Dict(context)], fmt))
  {
    var text := Repeated(Inline(p, Nil), Passes(inverted, n, [Dict(context)]), fmt);
    assert Meaning(Section(inverted, n, Inline(p, Nil), Nil), [Dict(context)], fmt) == text + "" == text;
    SimpleLookup(n, context, Null);
    var val := ValueOf(n, Null, context);
    if !inverted && val.List? {
      if Simple(p) { ListSays(n, p, context, fmt, val.items); }
    } else if Simple(p) {
      OnceSays(inverted, n, p, context, fmt);
    }
  }

  lemma SectionIsRendered(tokens: seq<Token>, context: map<string, Value>, fmt: Format, out: string)
    requires forall f :: Flatten(f) == tokens ==> out == Meaning(f, [Dict(context)], fmt)
    ensures RendersSection(tokens, context, fmt, out)
  {
    if && |tokens| == 3 && tokens[0].Open? && tokens[1].Emit? && tokens[2] == Close(tokens[0].name)
       && '.' !in tokens[0].name {
      var body := Inline(tokens[1].piece, Nil);
      assert Flatten(body) == [tokens[1]] && Flatten(Nil) == [];
      assert Flatten(Section(tokens[0].inverted, tokens[0].name, body, Nil)) == tokens;
      SectionMeaning(tokens[0].inverted, tokens[0].name, tokens[1].piece, context, fmt);
    }
  }

  // ---- Longer templates --------------------------------------------------------------------------

  function Then(f: Forest, g: Forest): Forest
  {
    match f
    case Nil => g
    case Inline(p, rest) => Inline(p, Then(rest, g))
    case Section(inverted, n, body, rest) => Section(inverted, n, body, Then(rest, g))
  }

  // Two balanced templates after one another render as their outputs after one another.
  lemma {:induction false} OutputsAppend(f: Forest, g: Forest, stack: Stack, fmt: Format)
    ensures Flatten(Then(f, g)) == Flatten(f) + Flatten(g)
    ensures Meaning(Then(f, g), stack, fmt) == Meaning(f, stack, fmt) + Meaning(g, stack, fmt)
    decreases f
  {
    match f
    case Nil =>
    case Inline(p, rest) =>
      OutputsAppend(rest, g, stack, fmt);
      Associates([Emit(p)], Flatten(rest), Flatten(g));
      Associates(Show(p, stack, fmt), Meaning(rest, stack, fmt), Meaning(g, stack, fmt));
    case Section(inverted, n, body, rest) =>
      OutputsAppend(rest, g, stack, fmt);
      Associates([Open(inverted, n)] + Flatten(body) + [Close(n)], Flatten(rest), Flatten(g));
      Associates(Repeated(body, Passes(inverted, n, stack), fmt), Meaning(rest, stack, fmt), Meaning(g, stack, fmt));
  }

  lemma Associates<T>(a: seq<T>, b: seq<T>, c: seq<T>)
    ensures (a + b) + c == a + (b + c)
  {}

  // `{{a.b}}` is field b of the dictionary a.
  lemma DottedNameRenders(a: string, b: string, context: map<string, Value>, fmt: Format)
    requires '.' !in a && '.' !in b && b != ""
    ensures var val := if a in context && context[a].Dict? then ValueOf(b, Null, context[a].fields) else Null;
            Meaning(Inline(Var(a + "." + b), Nil), [Dict(context)], fmt) == Written(Var(""), val, fmt)
  {
    var n := a + "." + b;
    HeadOfDottedName(a, b);
    PieceMeaning(Var(n), [Dict(context)], fmt);
    assert n != "." && [Dict(context)][..0] == [] && Lookup(n, []) == Null;
    if a in context {
      var val := context[a];
      assert Lookup(n, [Dict(context)]) == Lookup(b, [val]);
      HeadOfSimpleName(b);
      assert [val][..0] == [] && Lookup(b, []) == Null;
    }
  }

  // ---- Scopes ------------------------------------------------------------------------------------

  // The dictionaries of the open sections as one, the innermost one winning.
  function Merged(stack: seq<Value>): map<string, Value>
  {
    if stack == [] then map[] else
    var last := |stack| - 1;
    Merged(stack[..last]) + if stack[last].Dict? then stack[last].fields else map[]
  }

  // `.` is nowhere used as a name.
  predicate NamesOnly(f: Forest)
  {
    match f
    case Nil => true
    case Inline(p, rest) => (p.Text? || p.name != ".") && NamesOnly(rest)
    case Section(_, n, body, rest) => n != "." && NamesOnly(body) && NamesOnly(rest)
  }

  lemma MergedOfOne(fields: map<string, Value>)
    ensures Merged([Dict(fields)]) == fields
  {
    assert [Dict(fields)][..0] == [] && Merged([]) == map[];
  }

  lemma MergedGrows(stack: seq<Value>, val: Value)
    ensures Merged(stack + [val]) == Merged(stack) + if val.Dict? then val.fields else map[]
  {
    assert (stack + [val])[..|stack|] == stack;
  }

  lemma {:induction false} LookupInMerged(name: string, stack: seq<Value>)
    requires name != "."
    ensures Lookup(name, stack) == Lookup(name, [Dict(Merged(stack))])
    decreases |stack|
  {
    var all := [Dict(Merged(stack))];
    assert all[..0] == [] && Lookup(name, []) == Null;
    if stack != [] {
      var last := |stack| - 1;
      if !(stack[last].Dict? && Head(name) in stack[last].fields) {
        LookupInMerged(name, stack[..last]);
        var outer := [Dict(Merged(stack[..last]))];
        assert outer[..0] == [];
      }
    }
  }

  // Whatever sections are open, a body renders as it would in one dictionary: every item's own fields
  // first, and the ones outside after them.
  lemma {:induction false} SectionsMergeScopes(f: Forest, stack: Stack, fmt: Format)
    requires NamesOnly(f)
    ensures Meaning(f, stack, fmt) == Meaning(f, [Dict(Merged(stack))], fmt)
    decreases f, 0
  {
    var one: Stack := [Dict(Merged(stack))];
    match f
    case Nil =>
    case Inline(p, rest) =>
      if !p.Text? { LookupInMerged(p.name, stack); }
      SectionsMergeScopes(rest, stack, fmt);
    case Section(inverted, n, body, rest) =>
      LookupInMerged(n, stack);
      MergedOfOne(Merged(stack));
      BodiesMergeScopes(body, Passes(inverted, n, stack), Passes(inverted, n, one), stack, one, fmt);
      SectionsMergeScopes(rest, stack, fmt);
  }

  lemma {:induction false} BodiesMergeScopes(body: Forest, passes: seq<Stack>, others: seq<Stack>, stack: Stack,
          one: Stack, fmt: Format)
    requires NamesOnly(body) && |passes| == |others| && Merged(stack) == Merged(one)
    requires forall i | 0 <= i < |passes| ::
               || (passes[i] == stack && others[i] == one)
               || (exists val :: passes[i] == stack + [val] && others[i] == one + [val])
    ensures Repeated(body, passes, fmt) == Repeated(body, others, fmt)
    decreases body, 1, |passes|
  {
    if passes != [] {
      if passes[0] != stack || others[0] != one {
        var val :| passes[0] == stack + [val] && others[0] == one + [val];
        MergedGrows(stack, val);
        MergedGrows(one, val);
      }
      SectionsMergeScopes(body, passes[0], fmt);
      SectionsMergeScopes(body, others[0], fmt);
      BodiesMergeScopes(body, passes[1..], others[1..], stack, one, fmt);
    }
  }

  // So a section over a list of dictionaries is its body once per item, in order, with the item's fields
  // laid over the ones outside.
  lemma ListSectionRenders(n: string, body: Forest, items: seq<Value>, context: map<string, Value>, fmt: Format)
    requires '.' !in n && n in context && context[n] == List(items) && NamesOnly(body)
    requires forall i | 0 <= i < |items| :: items[i].Dict?
    ensures Meaning(Section(false, n, body, Nil), [Dict(context)], fmt)
         == Concat(seq(|items|, i requires 0 <= i < |items| =>
                         Meaning(body, [Dict(context + if items[i].Dict? then items[i].fields else map[])], fmt)))
  {
    SimpleLookup(n, context, Null);
    var passes := Passes(false, n, [Dict(context)]);
    RepeatedIsConcat(body, passes, fmt);
    forall i | 0 <= i < |items|
      ensures Meaning(body, passes[i], fmt) == Meaning(body, [Dict(context + items[i].fields)], fmt)
    {
      SectionsMergeScopes(body, passes[i], fmt);
      MergedOfOne(context);
      MergedGrows([Dict(context)], items[i]);
    }
    assert seq(|passes|, i requires 0 <= i < |passes| => Meaning(body, passes[i], fmt))
        == seq(|items|, i requires 0 <= i < |items| =>
                 Meaning(body, [Dict(context + if items[i].Dict? then items[i].fields else map[])], fmt));
    var text := Repeated(body, passes, fmt);
    assert Meaning(Section(false, n, body, Nil), [Dict(context)], fmt) == text + "" == text;
  }

  // ---- The entry points --------------------------------------------------------------------------

  method RenderTemplate(tokens: seq<Token>, context: map<string, Value>, fmt: Format) returns (out: string)
    ensures forall f :: Flatten(f) == tokens ==> out == Meaning(f, [Dict(context)], fmt)
    ensures RendersPiece(tokens, context, fmt, out) && RendersSection(tokens, context, fmt, out)
  {
    var r := new Renderer(tokens, fmt);
    out := r.RenderBlock([Dict(context)], None);
    forall f | Flatten(f) == tokens
      ensures out == Meaning(f, [Dict(context)], fmt)
    {
      RunIsMeaning(f, [Dict(context)], None, fmt);
    }
    PieceIsRendered(tokens, context, fmt, out);
    SectionIsRendered(tokens, context, fmt, out);
  }

  // Validate, then render (`render_html`): an accepted template has exactly one tree, and the output
  // is that tree's meaning; a rejected one is not rendered.
  method ValidateAndRender(tokens: seq<Token>, root: Schema, context: map<string, Value>, fmt: Format)
    returns (out: Result<string, Verdict>)
    ensures out.Err? <==> !exists f :: Flatten(f) == tokens && Checked(f, [Object(root)], false)
    ensures out.Ok? ==> exists f :: Flatten(f) == tokens && out.value == Meaning(f, [Dict(context)], fmt)
    ensures out.Ok? ==>
      RendersPiece(tokens, context, fmt, out.value) && RendersSection(tokens, context, fmt, out.value)
  {
    var v := ValidateTemplate(tokens, root);
    if v.Accepted? {
      var s := RenderTemplate(tokens, context, fmt);
      out := Ok(s);
    } else {
      out := Err(v);
    }
  }
}
