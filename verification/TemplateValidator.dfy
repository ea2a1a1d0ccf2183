/** Upload-time validation (`_resolve`, `validate_template`): one pass over the token stream with a
    stack of schema contexts and a stack of open section names. */
module TemplateValidator {
  import opened Wrappers
  import opened TemplateSyntax

  // The nodes of the report data dictionary.  `Dynamic` stands for "extra": any continuation goes.
  datatype Kind =
    | Scalar
    | Flag
    | ScalarList
    | ObjectList(item: map<string, Kind>)
    | Object(fields: map<string, Kind>)
    | Dynamic

  type Schema = map<string, Kind>

  // A schema context is `Object(fields)` or `Dynamic`; the innermost one is last.
  type Contexts = seq<Kind>

  datatype Verdict =
    | Accepted
    | DotOutsideSection
    | UnknownField(name: string)
    | Unbalanced(name: string)
    | Unclosed(name: string)

  // Python's `name.partition(".")`.
  function Head(name: string): (head: string)
    ensures '.' !in head && head <= name
    ensures |head| < |name| ==> name[|head|] == '.'
  {
    if name == "" || name[0] == '.' then "" else [name[0]] + Head(name[1..])
  }

  function Rest(name: string): string
  {
    name[if |Head(name)| < |name| then |Head(name)| + 1 else |name|..]
  }

  lemma HeadOfSimpleName(name: string)
    requires '.' !in name
    ensures Head(name) == name
  {
    if name != "" {
      assert forall c <- name[1..] :: c in name;
      HeadOfSimpleName(name[1..]);
    }
  }

  lemma {:induction false} HeadOfDottedName(a: string, b: string)
    requires '.' !in a
    ensures Head(a + "." + b) == a && Rest(a + "." + b) == b
    decreases |a|
  {
    var n := a + "." + b;
    if a != "" {
      assert n[1..] == a[1..] + "." + b && forall c <- a[1..] :: c in a;
      HeadOfDottedName(a[1..], b);
      assert Head(n) == [a[0]] + a[1..] == a;
    }
    assert n[|a|] == '.' && n[|a| + 1..] == b;
  }

  function Resolve(name: string, stack: Contexts): Option<Kind>
    decreases |name|, |stack|
  {
    if stack == [] then None else
    var ctx := stack[|stack| - 1];
    if ctx.Dynamic? then Some(Dynamic)
    else if ctx.Object? && Head(name) in ctx.fields then
      var node := ctx.fields[Head(name)];
      if node.Dynamic? then Some(Dynamic)
      else if Rest(name) == "" then Some(node)
      else if node.Object? then Resolve(Rest(name), [node])
      else None
    else Resolve(name, stack[..|stack| - 1])
  }

  // The context a section over `node` pushes.
  function Pushed(node: Kind): Kind
  {
    match node
    case Dynamic => Dynamic
    case ObjectList(item) => Object(item)
    case _ => Object(map[])
  }

  // What the validator says of a bare piece; `nested` when some section is open.
  function CheckPiece(p: Piece, stack: Contexts, nested: bool): Verdict
  {
    if p.Text? then Accepted
    else if p.name == "." then (if nested then Accepted else DotOutsideSection)
    else if Resolve(p.name, stack).None? then UnknownField(p.name)
    else Accepted
  }

  // The verdict on the tokens still to come, given the two stacks.
  function Scan(tokens: seq<Token>, stack: Contexts, open: seq<string>): Verdict
    requires |stack| == |open| + 1
  {
    if tokens == [] then
      if open == [] then Accepted else Unclosed(open[|open| - 1])
    else match tokens[0]
      case Emit(p) =>
        var v := CheckPiece(p, stack, open != []);
        if v.Accepted? then Scan(tokens[1..], stack, open) else v
      case Open(_, n) =>
        var node := Resolve(n, stack);
        if node.None? then UnknownField(n)
        else Scan(tokens[1..], stack + [Pushed(node.value)], open + [n])
      case Close(n) =>
        if open == [] || open[|open| - 1] != n then Unbalanced(n)
        else Scan(tokens[1..], stack[..|stack| - 1], open[..|open| - 1])
  }

  // The same check said of a tree: every reference resolves where it stands.
  predicate Checked(f: Forest, stack: Contexts, nested: bool)
  {
    match f
    case Nil => true
    case Inline(p, rest) => CheckPiece(p, stack, nested).Accepted? && Checked(rest, stack, nested)
    case Section(_, n, body, rest) =>
      && Resolve(n, stack).Some?
      && Checked(body, stack + [Pushed(Resolve(n, stack).value)], true)
      && Checked(rest, stack, nested)
  }

  lemma ScanEmits(p: Piece, rest: seq<Token>, stack: Contexts, open: seq<string>)
    requires |stack| == |open| + 1
    ensures Scan([Emit(p)] + rest, stack, open)
         == if CheckPiece(p, stack, open != []).Accepted? then Scan(rest, stack, open)
            else CheckPiece(p, stack, open != [])
  {
    assert ([Emit(p)] + rest)[1..] == rest;
  }

  lemma ScanOpens(inverted: bool, n: string, rest: seq<Token>, stack: Contexts, open: seq<string>)
    requires |stack| == |open| + 1
    ensures Scan([Open(inverted, n)] + rest, stack, open)
         == if Resolve(n, stack).Some? then Scan(rest, stack + [Pushed(Resolve(n, stack).value)], open + [n])
            else UnknownField(n)
  {
    assert ([Open(inverted, n)] + rest)[1..] == rest;
  }

  lemma ScanCloses(n: string, rest: seq<Token>, stack: Contexts, ctx: Kind, open: seq<string>, name: string)
    requires |stack| == |open| + 1
    ensures Scan([Close(n)] + rest, stack + [ctx], open + [name])
         == if n == name then Scan(rest, stack, open) else Unbalanced(n)
  {
    assert ([Close(n)] + rest)[1..] == rest;
    assert (stack + [ctx])[..|stack|] == stack && (open + [name])[..|open|] == open;
  }

  // Scanning past a checked forest changes neither stack.
  lemma {:induction false} ScanSkipsChecked(f: Forest, s: seq<Token>, stack: Contexts, open: seq<string>)
    requires |stack| == |open| + 1 && Checked(f, stack, open != [])
    ensures Scan(Stream(f, s), stack, open) == Scan(s, stack, open)
  {
    StreamHead(f, s);
    match f
    case Nil =>
    case Inline(p, rest) =>
      ScanEmits(p, Stream(rest, s), stack, open);
      ScanSkipsChecked(rest, s, stack, open);
    case Section(inverted, n, body, rest) =>
      var ctx, after := Pushed(Resolve(n, stack).value), [Close(n)] + Stream(rest, s);
      ScanOpens(inverted, n, Stream(body, after), stack, open);
      ScanSkipsChecked(body, after, stack + [ctx], open + [n]);
      ScanCloses(n, Stream(rest, s), stack, ctx, open, n);
      ScanSkipsChecked(rest, s, stack, open);
  }

  // What an accepting scan has seen: a checked forest, then the end or the innermost close tag.
  lemma {:induction false} ScanReadsForest(tokens: seq<Token>, stack: Contexts, open: seq<string>)
    returns (f: Forest, s: seq<Token>)
    requires |stack| == |open| + 1 && Scan(tokens, stack, open).Accepted?
    ensures tokens == Stream(f, s) && Checked(f, stack, open != [])
    ensures Scan(s, stack, open).Accepted?
    ensures if open == [] then s == [] else s != [] && s[0] == Close(open[|open| - 1])
    decreases |tokens|, 1
  {
    if tokens == [] || tokens[0].Close? {
      f, s := Nil, tokens;
    } else if tokens[0].Emit? {
      assert tokens == [Emit(tokens[0].piece)] + tokens[1..];
      ScanEmits(tokens[0].piece, tokens[1..], stack, open);
      var rest;
      rest, s := ScanReadsForest(tokens[1..], stack, open);
      f := Inline(tokens[0].piece, rest);
    } else {
      f, s := ScanReadsSection(tokens, stack, open);
    }
    StreamHead(f, s);
  }

  lemma {:induction false} ScanReadsSection(tokens: seq<Token>, stack: Contexts, open: seq<string>)
    returns (f: Forest, s: seq<Token>)
    requires |stack| == |open| + 1 && Scan(tokens, stack, open).Accepted? && tokens != [] && tokens[0].Open?
    ensures tokens == Stream(f, s) && Checked(f, stack, open != [])
    ensures Scan(s, stack, open).Accepted?
    ensures if open == [] then s == [] else s != [] && s[0] == Close(open[|open| - 1])
    decreases |tokens|, 0
  {
    var n := tokens[0].name;
    assert tokens == [Open(tokens[0].inverted, n)] + tokens[1..];
    ScanOpens(tokens[0].inverted, n, tokens[1..], stack, open);
    var ctx := Pushed(Resolve(n, stack).value);
    var body, after := ScanReadsForest(tokens[1..], stack + [ctx], open + [n]);
    assert after == [Close(n)] + after[1..];
    ScanCloses(n, after[1..], stack, ctx, open, n);
    var rest;
    rest, s := ScanReadsForest(after[1..], stack, open);
    f := Section(tokens[0].inverted, n, body, rest);
    StreamHead(f, s);
  }

  // The validator accepts exactly the streams that spell a checked tree.
  lemma AcceptsExactlyCheckedTrees(tokens: seq<Token>, root: Schema)
    ensures Scan(tokens, [Object(root)], []).Accepted? <==>
            exists f :: Flatten(f) == tokens && Checked(f, [Object(root)], false)
  {
    if Scan(tokens, [Object(root)], []).Accepted? {
      var f, s := ScanReadsForest(tokens, [Object(root)], []);
      assert Flatten(f) == tokens;
    }
    forall f | Flatten(f) == tokens && Checked(f, [Object(root)], false)
      ensures Scan(tokens, [Object(root)], []).Accepted?
    {
      ScanSkipsChecked(f, [], [Object(root)], []);
      assert Stream(f, []) == tokens;
    }
  }

  // A template rejected only for an unclosed section can be completed: closing the sections that are
  // still open, innermost first, makes it acceptable.  `Unclosed` names the innermost one.
  lemma {:induction false} UnclosedIsCompletable(tokens: seq<Token>, stack: Contexts, open: seq<string>)
    returns (closes: seq<Token>)
    requires |stack| == |open| + 1 && Scan(tokens, stack, open).Unclosed?
    ensures closes != [] && closes[0] == Close(Scan(tokens, stack, open).name)
    ensures forall t <- closes :: t.Close?
    ensures Scan(tokens + closes, stack, open).Accepted?
    decreases |tokens|
  {
    if tokens == [] {
      closes := CloseAll(stack, open);
      assert tokens + closes == closes;
    } else {
      var t, rest := tokens[0], tokens[1..];
      match t {
        case Emit(_) => closes := UnclosedIsCompletable(rest, stack, open);
        case Open(_, n) =>
          closes := UnclosedIsCompletable(rest, stack + [Pushed(Resolve(n, stack).value)], open + [n]);
        case Close(_) => closes := UnclosedIsCompletable(rest, stack[..|stack| - 1], open[..|open| - 1]);
      }
      assert (tokens + closes)[1..] == rest + closes;
    }
  }

  lemma CloseAll(stack: Contexts, open: seq<string>) returns (closes: seq<Token>)
    requires |stack| == |open| + 1
    ensures |closes| == |open| && forall t <- closes :: t.Close?
    ensures open != [] ==> closes[0] == Close(open[|open| - 1])
    ensures Scan(closes, stack, open).Accepted?
    decreases |open|
  {
    closes := [];
    if open != [] {
      var more := CloseAll(stack[..|stack| - 1], open[..|open| - 1]);
      closes := [Close(open[|open| - 1])] + more;
      assert closes[1..] == more;
    }
  }

  // Every other rejection is final: whatever is appended, the verdict stays.
  lemma {:induction false} OtherErrorsAreFinal(tokens: seq<Token>, more: seq<Token>, stack: Contexts, open: seq<string>)
    requires |stack| == |open| + 1
    requires !Scan(tokens, stack, open).Accepted? && !Scan(tokens, stack, open).Unclosed?
    ensures Scan(tokens + more, stack, open) == Scan(tokens, stack, open)
    decreases |tokens|
  {
    var t := tokens[0];
    assert (tokens + more)[1..] == tokens[1..] + more;
    match t
    case Emit(p) =>
      if CheckPiece(p, stack, open != []).Accepted? { OtherErrorsAreFinal(tokens[1..], more, stack, open); }
    case Open(_, n) =>
      if Resolve(n, stack).Some? {
        OtherErrorsAreFinal(tokens[1..], more, stack + [Pushed(Resolve(n, stack).value)], open + [n]);
      }
    case Close(n) =>
      if open != [] && open[|open| - 1] == n {
        OtherErrorsAreFinal(tokens[1..], more, stack[..|stack| - 1], open[..|open| - 1]);
      }
  }

  // A close tag without a name, as in `{{#items}}...{{/}}`, closes a section only if that section's own
  // name is empty.
  lemma AnonymousClose(inverted: bool, name: string, body: Forest, after: seq<Token>, stack: Contexts,
          open: seq<string>)
    requires |stack| == |open| + 1 && Resolve(name, stack).Some?
    requires Checked(body, stack + [Pushed(Resolve(name, stack).value)], true)
    ensures Scan([Open(inverted, name)] + Stream(body, [Close("")] + after), stack, open)
         == if name == "" then Scan(after, stack, open) else Unbalanced("")
  {
    var ctx, closing := Pushed(Resolve(name, stack).value), [Close("")] + after;
    ScanOpens(inverted, name, Stream(body, closing), stack, open);
    ScanSkipsChecked(body, closing, stack + [ctx], open + [name]);
    ScanCloses("", after, stack, ctx, open, name);
  }

  // And a section may have an empty name only below dynamic data, where any name will do.
  lemma {:induction false} EmptyNameIsDynamic(stack: Contexts)
    requires forall i | 0 <= i < |stack| :: stack[i].Object? ==> "" !in stack[i].fields
    ensures Resolve("", stack).Some? <==> Dynamic in stack
    decreases |stack|
  {
    if stack != [] {
      var init := stack[..|stack| - 1];
      EmptyNameIsDynamic(init);
      assert stack == init + [stack[|stack| - 1]];
    }
  }

  // ---- What is accepted, said of the names alone ---------------------------------------------------

  predicate ClosesWith(v: Verdict, n: string, m: string)
  {
    v == if m == n then Accepted else Unbalanced(m)
  }

  // One token: text, a tag, or half a section.
  predicate JudgesToken(tokens: seq<Token>, root: Schema, v: Verdict)
  {
    |tokens| == 1 ==>
      match tokens[0]
      case Emit(Text(_)) => v == Accepted
      case Emit(p) =>
        if p.name == "." then v == DotOutsideSection
        else '.' !in p.name ==> v == if p.name in root then Accepted else UnknownField(p.name)
      case Open(_, n) => '.' !in n ==> v == if n in root then Unclosed(n) else UnknownField(n)
      case Close(n) => v == Unbalanced(n)
  }

  // One piece in a section: the item's fields are known if the section is a list of objects, everything
  // is if it is dynamic, and the fields outside always are.
  predicate JudgesSection(tokens: seq<Token>, root: Schema, v: Verdict)
  {
    |tokens| == 3 && tokens[0].Open? && tokens[1].Emit? && tokens[2].Close? && '.' !in tokens[0].name ==>
      var n, p, m := tokens[0].name, tokens[1].piece, tokens[2].name;
      if n !in root then v == UnknownField(n)
      else if p.Text? || p.name == "." then ClosesWith(v, n, m)
      else '.' !in p.name ==>
        if (root[n].ObjectList? && p.name in root[n].item) || root[n].Dynamic? || p.name in root
        then ClosesWith(v, n, m)
        else v == UnknownField(p.name)
  }

  lemma SimpleStep(name: string, outer: Contexts, ctx: Kind)
    requires '.' !in name && (ctx.Dynamic? || ctx.Object?)
    ensures Resolve(name, outer + [ctx])
         == if ctx.Dynamic? then Some(Dynamic)
            else if name in ctx.fields then Some(ctx.fields[name])
            else Resolve(name, outer)
  {
    HeadOfSimpleName(name);
    var stack := outer + [ctx];
    assert Rest(name) == "" && stack[|stack| - 1] == ctx && stack[..|stack| - 1] == outer;
  }

  lemma SimpleResolve(name: string, root: Schema, inner: Kind)
    requires '.' !in name && (inner.Dynamic? || inner.Object?)
    ensures Resolve(name, [Object(root)]) == if name in root then Some(root[name]) else None
    ensures Resolve(name, [Object(root), inner])
         == if inner.Dynamic? then Some(Dynamic)
            else if name in inner.fields then Some(inner.fields[name])
            else Resolve(name, [Object(root)])
  {
    SimpleStep(name, [], Object(root));
    SimpleStep(name, [Object(root)], inner);
    assert [] + [Object(root)] == [Object(root)] && [Object(root)] + [inner] == [Object(root), inner];
  }

  // A dotted name is known if its first part is an object with the second, or dynamic.
  lemma DottedResolve(a: string, b: string, root: Schema)
    requires '.' !in a && '.' !in b && b != ""
    ensures Resolve(a + "." + b, [Object(root)])
         == if a !in root then None
            else if root[a].Dynamic? then Some(Dynamic)
            else if root[a].Object? && b in root[a].fields then Some(root[a].fields[b])
            else None
  {
    HeadOfDottedName(a, b);
    assert [Object(root)][..0] == [] && Resolve(a + "." + b, []) == None;
    if a in root && root[a].Object? { SimpleResolve(b, root[a].fields, Dynamic); }
  }

  lemma TokenIsJudged(tokens: seq<Token>, root: Schema)
    ensures JudgesToken(tokens, root, Scan(tokens, [Object(root)], []))
  {
    if |tokens| == 1 {
      assert tokens == [tokens[0]] + [] && tokens[1..] == [];
      match tokens[0]
      case Emit(p) => if !p.Text? && '.' !in p.name { SimpleResolve(p.name, root, Dynamic); }
      case Open(_, n) => if '.' !in n { SimpleResolve(n, root, Dynamic); }
      case Close(_) =>
    }
  }

  lemma SectionIsJudged(tokens: seq<Token>, root: Schema)
    ensures JudgesSection(tokens, root, Scan(tokens, [Object(root)], []))
  {
    if |tokens| == 3 && tokens[0].Open? && tokens[1].Emit? && tokens[2].Close? && '.' !in tokens[0].name {
      var n, p, m := tokens[0].name, tokens[1].piece, tokens[2].name;
      SimpleResolve(n, root, Dynamic);
      assert tokens == [tokens[0]] + ([tokens[1]] + ([tokens[2]] + []));
      ScanOpens(tokens[0].inverted, n, [tokens[1]] + ([tokens[2]] + []), [Object(root)], []);
      if n in root {
        var inner := Pushed(root[n]);
        assert [Object(root)] + [inner] == [Object(root), inner] && [] + [n] == [n];
        ScanEmits(p, [tokens[2]] + [], [Object(root), inner], [n]);
        ScanCloses(m, [], [Object(root)], inner, [], n);
        if !p.Text? && '.' !in p.name { SimpleResolve(p.name, root, inner); }
      }
    }
  }

  // `validate_template`: the loop over the tokens with its two stacks.
  method ValidateTemplate(tokens: seq<Token>, root: Schema) returns (v: Verdict)
    ensures v == Scan(tokens, [Object(root)], [])
    ensures v.Accepted? <==> exists f :: Flatten(f) == tokens && Checked(f, [Object(root)], false)
    ensures JudgesToken(tokens, root, v) && JudgesSection(tokens, root, v)
  {
    AcceptsExactlyCheckedTrees(tokens, root);
    TokenIsJudged(tokens, root);
    SectionIsJudged(tokens, root);
    var stack: Contexts, open: seq<string> := [Object(root)], [];
    for i := 0 to |tokens|
      invariant |stack| == |open| + 1
      invariant Scan(tokens, [Object(root)], []) == Scan(tokens[i..], stack, open)
    {
      assert tokens[i..][1..] == tokens[i + 1..];
      match tokens[i]
      case Emit(p) =>
        if p.Var? || p.Raw? {
          if p.name == "." {
            if open == [] { return DotOutsideSection; }
          } else if Resolve(p.name, stack).None? {
            return UnknownField(p.name);
          }
        }
      case Open(_, name) =>
        var node := Resolve(name, stack);
        if node.None? { return UnknownField(name); }
        open := open + [name];
        stack := stack + [Pushed(node.value)];
      case Close(name) =>
        if open == [] || open[|open| - 1] != name { return Unbalanced(name); }
        open := open[..|open| - 1];
        stack := stack[..|stack| - 1];
    }
    return if open == [] then Accepted else Unclosed(open[|open| - 1]);
  }
}
