/** Request-time rendering (`_lookup`, `_truthy`, `render_template`): a machine that walks the flat
    token stream with one cursor, rewinding it for every list item and skipping sections by counting
    tags of the same name.  The theorem is that it computes the recursive meaning of the tree. */
module TemplateRenderer {
  import opened Wrappers
  import opened TemplateSyntax
  import opened TemplateValidator

  // Python values as far as the renderer can tell them apart.
  datatype Value =
    | Null
    | Bool(b: bool)
    | Num(n: real)
    | Str(s: string)
    | List(items: seq<Value>)
    | Dict(fields: map<string, Value>)

  // Python's `str` and `html.escape`, which the renderer only calls.
  datatype Format = Format(str: Value -> string, escape: string -> string)

  type Stack = s: seq<Value> | s != [] witness [Null]

  // None stands for "no such name" as for a stored None: the renderer does not tell them apart.
  function Lookup(name: string, stack: seq<Value>): Value
    decreases |name|, |stack|
  {
    if stack == [] then Null else
    var ctx := stack[|stack| - 1];
    if name == "." then ctx
    else if ctx.Dict? && Head(name) in ctx.fields then
      var val := ctx.fields[Head(name)];
      if Rest(name) != "" then Lookup(Rest(name), [val]) else val
    else Lookup(name, stack[..|stack| - 1])
  }

  predicate Truthy(val: Value)
  {
    match val
    case Null => false
    case Bool(b) => b
    case Num(n) => n != 0.0
    case Str(s) => s != ""
    case List(items) => items != []
    case Dict(fields) => fields != map[]
  }

  function Show(p: Piece, stack: seq<Value>, fmt: Format): string
  {
    if p.Text? then p.text else
    var val := Lookup(p.name, stack);
    if val.Null? then "" else if p.Var? then fmt.escape(fmt.str(val)) else fmt.str(val)
  }

  // The contexts a section's body is rendered with, one after the other.  An inverted section adds
  // no context; a list section adds its items; a truthy one adds the value if that is a dictionary.
  function Passes(inverted: bool, name: string, stack: Stack): seq<Stack>
  {
    var val := Lookup(name, stack);
    if inverted then (if Truthy(val) then [] else [stack])
    else if val.List? then seq(|val.items|, i requires 0 <= i < |val.items| => stack + [val.items[i]])
    else if Truthy(val) then [stack + [if val.Dict? then val else Dict(map[])]]
    else []
  }

  // ---- The meaning of a tree ------------------------------------------------------------------

  function Meaning(f: Forest, stack: Stack, fmt: Format): string
    decreases f, 0
  {
    match f
    case Nil => ""
    case Inline(p, rest) => Show(p, stack, fmt) + Meaning(rest, stack, fmt)
    case Section(inverted, name, body, rest) =>
      Repeated(body, Passes(inverted, name, stack), fmt) + Meaning(rest, stack, fmt)
  }

  function Repeated(body: Forest, passes: seq<Stack>, fmt: Format): string
    decreases body, 1, |passes|
  {
    if passes == [] then "" else Meaning(body, passes[0], fmt) + Repeated(body, passes[1..], fmt)
  }

  // ---- What the cursor machine does on any token stream, balanced or not -------------------------

  // `_skip_block`: the cursor after the close tag that brings the same-name depth to zero, or the end.
  function Skip(tokens: seq<Token>, pos: nat, name: string, depth: nat): (end: nat)
    requires pos <= |tokens| && depth > 0
    ensures pos <= end <= |tokens|
    decreases |tokens| - pos
  {
    if pos == |tokens| then pos
    else if tokens[pos].Open? && tokens[pos].name == name then Skip(tokens, pos + 1, name, depth + 1)
    else if tokens[pos] == Close(name) then
      if depth == 1 then pos + 1 else Skip(tokens, pos + 1, name, depth - 1)
    else Skip(tokens, pos + 1, name, depth)
  }

  // What a run writes and where it leaves the cursor.
  datatype Output = Output(text: string, end: nat)

  // The result of a run, with `s` written first.
  function Before(s: string, run: Output): Output
  {
    Output(s + run.text, run.end)
  }

  lemma BeforeTwice(a: string, b: string, run: Output)
    ensures Before(a, Before(b, run)) == Before(a + b, run)
    ensures Before("", run) == run
    ensures a + "" == a
  {
    assert a + (b + run.text) == (a + b) + run.text;
    assert "" + run.text == run.text;
  }

  // `render_block`: the text it returns and where it leaves the cursor.
  function Run(tokens: seq<Token>, pos: nat, stack: Stack, stop: Option<string>, fmt: Format): (r: Output)
    requires pos <= |tokens|
    ensures pos <= r.end <= |tokens|
    decreases |tokens| - pos, 0
  {
    if pos == |tokens| then Output("", pos)
    else match tokens[pos]
      case Emit(p) =>
        Before(Show(p, stack, fmt), Run(tokens, pos + 1, stack, stop, fmt))
      case Open(inverted, name) =>
        var section := RunPasses(tokens, pos + 1, name, Passes(inverted, name, stack), fmt);
        Before(section.text, Run(tokens, section.end, stack, stop, fmt))
      case Close(name) =>
        if stop == Some(name) then Output("", pos + 1) else Run(tokens, pos + 1, stack, stop, fmt)
  }

  // Every pass starts at `start`; the last one decides where the cursor ends up.
  function RunPasses(tokens: seq<Token>, start: nat, name: string, passes: seq<Stack>, fmt: Format): (r: Output)
    requires start <= |tokens|
    ensures start <= r.end <= |tokens|
    decreases |tokens| - start, 1, |passes|
  {
    if passes == [] then Output("", Skip(tokens, start, name, 1)) else
    var pass := Run(tokens, start, passes[0], Some(name), fmt);
    if |passes| == 1 then pass else
    Before(pass.text, RunPasses(tokens, start, name, passes[1..], fmt))
  }

  // ---- On a balanced stretch the machine computes the meaning ------------------------------------

  // The tokens of `f` stand at `pos`.
  predicate Spells(tokens: seq<Token>, pos: nat, f: Forest): (there: bool)
    ensures there ==> pos + Width(f) <= |tokens|
    decreases f
  {
    match f
    case Nil => pos <= |tokens|
    case Inline(p, rest) => pos < |tokens| && tokens[pos] == Emit(p) && Spells(tokens, pos + 1, rest)
    case Section(inverted, name, body, rest) =>
      var close := pos + 1 + Width(body);
      && close < |tokens|
      && tokens[pos] == Open(inverted, name) && Spells(tokens, pos + 1, body)
      && tokens[close] == Close(name) && Spells(tokens, close + 1, rest)
  }

  lemma Shifted(tokens: seq<Token>, before: seq<Token>, x: seq<Token>, y: seq<Token>)
    requires tokens == before + (x + y)
    ensures tokens == (before + x) + y
  {}

  lemma SectionParts(tokens: seq<Token>, before: seq<Token>, f: Forest, after: seq<Token>)
    returns (inside: seq<Token>, past: seq<Token>)
    requires f.Section? && tokens == before + Stream(f, after)
    ensures |inside| == |before| + 1 && |past| == |before| + 2 + Width(f.body) <= |tokens|
    ensures tokens == inside + Stream(f.body, [Close(f.name)] + Stream(f.rest, after))
    ensures tokens == past + Stream(f.rest, after)
    ensures tokens[|before|] == Open(f.inverted, f.name) && tokens[|past| - 1] == Close(f.name)
  {
    var closing := [Close(f.name)] + Stream(f.rest, after);
    StreamHead(f, after);
    inside := before + [Open(f.inverted, f.name)];
    Shifted(tokens, before, [Open(f.inverted, f.name)], Stream(f.body, closing));
    Shifted(tokens, inside, Flatten(f.body), closing);
    past := inside + Flatten(f.body) + [Close(f.name)];
    Shifted(tokens, inside + Flatten(f.body), [Close(f.name)], Stream(f.rest, after));
  }

  lemma {:induction false} StreamSpells(tokens: seq<Token>, before: seq<Token>, f: Forest, after: seq<Token>)
    requires tokens == before + Stream(f, after)
    ensures Spells(tokens, |before|, f)
    decreases f
  {
    match f
    case Nil =>
    case Inline(p, rest) =>
      StreamHead(f, after);
      Shifted(tokens, before, [Emit(p)], Stream(rest, after));
      StreamSpells(tokens, before + [Emit(p)], rest, after);
    case Section(_, name, body, rest) =>
      var inside, past := SectionParts(tokens, before, f, after);
      StreamSpells(tokens, inside, body, [Close(name)] + Stream(rest, after));
      StreamSpells(tokens, past, rest, after);
      SpellsSection(tokens, |before|, f);
  }

  lemma SpellsSection(tokens: seq<Token>, pos: nat, f: Forest)
    requires f.Section? && pos + 1 + Width(f.body) < |tokens|
    requires tokens[pos] == Open(f.inverted, f.name) && tokens[pos + 1 + Width(f.body)] == Close(f.name)
    requires Spells(tokens, pos + 1, f.body) && Spells(tokens, pos + 2 + Width(f.body), f.rest)
    ensures Spells(tokens, pos, f)
  {}

  // Counting only same-name tags is enough: a balanced stretch leaves the depth as it was, so the
  // skip ends right after the matching close tag.
  lemma SkipCrossesForest(tokens: seq<Token>, pos: nat, f: Forest, name: string, depth: nat)
    requires Spells(tokens, pos, f) && depth > 0
    ensures Skip(tokens, pos, name, depth) == Skip(tokens, pos + Width(f), name, depth)
  {
    SkipReaches(tokens, pos, f, name, depth, Skip(tokens, pos + Width(f), name, depth));
  }

  lemma {:induction false} SkipReaches(tokens: seq<Token>, pos: nat, f: Forest, name: string, depth: nat, end: nat)
    requires Spells(tokens, pos, f) && depth > 0 && Skip(tokens, pos + Width(f), name, depth) == end
    ensures Skip(tokens, pos, name, depth) == end
    decreases f
  {
    match f
    case Nil =>
    case Inline(_, rest) =>
      SpellsInline(tokens, pos, f);
      SkipReaches(tokens, pos + 1, rest, name, depth, end);
      SkipEmits(tokens, pos, name, depth);
    case Section(_, n, body, rest) =>
      var close := pos + 1 + Width(body);
      SectionSpells(tokens, pos, f);
      SkipReaches(tokens, close + 1, rest, name, depth, end);
      SkipCloses(tokens, close, n, name, depth, end);
      SkipReaches(tokens, pos + 1, body, name, if n == name then depth + 1 else depth, end);
      SkipOpens(tokens, pos, n, name, depth);
  }

  lemma SkipCloses(tokens: seq<Token>, pos: nat, n: string, name: string, depth: nat, end: nat)
    requires pos < |tokens| && tokens[pos] == Close(n) && depth > 0 && Skip(tokens, pos + 1, name, depth) == end
    ensures Skip(tokens, pos, name, if n == name then depth + 1 else depth) == end
  {}

  lemma SkipEmits(tokens: seq<Token>, pos: nat, name: string, depth: nat)
    requires pos < |tokens| && tokens[pos].Emit? && depth > 0
    ensures Skip(tokens, pos, name, depth) == Skip(tokens, pos + 1, name, depth)
  {}

  lemma SkipOpens(tokens: seq<Token>, pos: nat, n: string, name: string, depth: nat)
    requires pos < |tokens| && tokens[pos].Open? && tokens[pos].name == n && depth > 0
    ensures Skip(tokens, pos, name, depth) == Skip(tokens, pos + 1, name, if n == name then depth + 1 else depth)
  {}

  lemma SpellsInline(tokens: seq<Token>, pos: nat, f: Forest)
    requires f.Inline? && Spells(tokens, pos, f)
    ensures pos < |tokens| && tokens[pos] == Emit(f.piece) && Spells(tokens, pos + 1, f.rest)
    ensures pos + Width(f) == (pos + 1) + Width(f.rest)
  {}

  lemma {:induction false} RunReaches(tokens: seq<Token>, pos: nat, f: Forest, stack: Stack, stop: Option<string>,
          fmt: Format, tail: Output)
    requires Spells(tokens, pos, f) && Run(tokens, pos + Width(f), stack, stop, fmt) == tail
    ensures Run(tokens, pos, stack, stop, fmt) == Before(Meaning(f, stack, fmt), tail)
    decreases f, 1
  {
    match f
    case Nil =>
      BeforeTwice("", "", tail);
    case Inline(p, rest) =>
      SpellsInline(tokens, pos, f);
      RunReaches(tokens, pos + 1, rest, stack, stop, fmt, tail);
      RunEmits(tokens, pos, f, stack, stop, fmt, tail);
    case Section(_, _, _, _) =>
      RunCrossesSection(tokens, pos, f, stack, stop, fmt, tail);
  }

  lemma SectionSpells(tokens: seq<Token>, pos: nat, f: Forest)
    requires f.Section? && Spells(tokens, pos, f)
    ensures pos + 1 + Width(f.body) < |tokens| && pos + Width(f) == pos + 2 + Width(f.body) + Width(f.rest)
    ensures tokens[pos] == Open(f.inverted, f.name) && tokens[pos + 1 + Width(f.body)] == Close(f.name)
    ensures Spells(tokens, pos + 1, f.body) && Spells(tokens, pos + 2 + Width(f.body), f.rest)
  {}

  lemma {:induction false} RunCrossesSection(tokens: seq<Token>, pos: nat, f: Forest, stack: Stack,
          stop: Option<string>, fmt: Format, tail: Output)
    requires f.Section? && Spells(tokens, pos, f) && Run(tokens, pos + Width(f), stack, stop, fmt) == tail
    ensures Run(tokens, pos, stack, stop, fmt) == Before(Meaning(f, stack, fmt), tail)
    decreases f, 0
  {
    var next := pos + 2 + Width(f.body);
    SectionSpells(tokens, pos, f);
    PassesCrossBody(tokens, pos + 1, f.body, f.name, Passes(f.inverted, f.name, stack), fmt);
    RunReaches(tokens, next, f.rest, stack, stop, fmt, tail);
    RunSection(tokens, pos, f, stack, stop, fmt, next, tail);
  }

  lemma RunEmits(tokens: seq<Token>, pos: nat, f: Forest, stack: Stack, stop: Option<string>, fmt: Format, tail: Output)
    requires f.Inline? && pos < |tokens| && tokens[pos] == Emit(f.piece)
    requires Run(tokens, pos + 1, stack, stop, fmt) == Before(Meaning(f.rest, stack, fmt), tail)
    ensures Run(tokens, pos, stack, stop, fmt) == Before(Meaning(f, stack, fmt), tail)
  {
    BeforeTwice(Show(f.piece, stack, fmt), Meaning(f.rest, stack, fmt), tail);
  }

  lemma RunSection(tokens: seq<Token>, pos: nat, f: Forest, stack: Stack, stop: Option<string>, fmt: Format, next: nat,
          tail: Output)
    requires f.Section? && pos < next <= |tokens| && tokens[pos] == Open(f.inverted, f.name)
    requires var passes := Passes(f.inverted, f.name, stack);
             RunPasses(tokens, pos + 1, f.name, passes, fmt) == Output(Repeated(f.body, passes, fmt), next)
    requires Run(tokens, next, stack, stop, fmt) == Before(Meaning(f.rest, stack, fmt), tail)
    ensures Run(tokens, pos, stack, stop, fmt) == Before(Meaning(f, stack, fmt), tail)
  {
    BeforeTwice(Repeated(f.body, Passes(f.inverted, f.name, stack), fmt), Meaning(f.rest, stack, fmt), tail);
  }

  // A section body ends at the same cursor position whatever the contexts, skipped or rendered any
  // number of times: just after its own close tag.
  lemma {:induction false} PassesCrossBody(tokens: seq<Token>, start: nat, body: Forest, name: string,
          passes: seq<Stack>, fmt: Format)
    requires Spells(tokens, start, body) && start + Width(body) < |tokens|
    requires tokens[start + Width(body)] == Close(name)
    ensures RunPasses(tokens, start, name, passes, fmt) == Output(Repeated(body, passes, fmt), start + Width(body) + 1)
    decreases body, 2, |passes|
  {
    if passes == [] {
      SkipCrossesForest(tokens, start, body, name, 1);
    } else {
      PassEnds(tokens, start, body, name, passes[0], fmt);
      BeforeTwice(Meaning(body, passes[0], fmt), "", Output("", 0));
      if |passes| > 1 { PassesCrossBody(tokens, start, body, name, passes[1..], fmt); }
    }
  }

  lemma {:induction false} PassEnds(tokens: seq<Token>, start: nat, body: Forest, name: string, pass: Stack,
          fmt: Format)
    requires Spells(tokens, start, body) && start + Width(body) < |tokens|
    requires tokens[start + Width(body)] == Close(name)
    ensures Run(tokens, start, pass, Some(name), fmt) == Output(Meaning(body, pass, fmt), start + Width(body) + 1)
    decreases body, 2, 0
  {
    RunStops(tokens, start + Width(body), name, pass, fmt);
    RunReaches(tokens, start, body, pass, Some(name), fmt, Output("", start + Width(body) + 1));
    BeforeTwice(Meaning(body, pass, fmt), "", Output("", 0));
  }

  lemma RunStops(tokens: seq<Token>, pos: nat, name: string, stack: Stack, fmt: Format)
    requires pos < |tokens| && tokens[pos] == Close(name)
    ensures Run(tokens, pos, stack, Some(name), fmt) == Output("", pos + 1)
  {
  }

  lemma RunCrossesForest(tokens: seq<Token>, pos: nat, f: Forest, stack: Stack,
          stop: Option<string>, fmt: Format)
    requires Spells(tokens, pos, f)
    ensures Run(tokens, pos, stack, stop, fmt)
         == Before(Meaning(f, stack, fmt), Run(tokens, pos + Width(f), stack, stop, fmt))
  {
    RunReaches(tokens, pos, f, stack, stop, fmt, Run(tokens, pos + Width(f), stack, stop, fmt));
  }

  lemma WholeRun(tokens: seq<Token>, f: Forest, stack: Stack, stop: Option<string>, fmt: Format)
    requires Spells(tokens, 0, f) && |tokens| == Width(f)
    ensures Run(tokens, 0, stack, stop, fmt) == Output(Meaning(f, stack, fmt), |tokens|)
  {
    RunCrossesForest(tokens, 0, f, stack, stop, fmt);
    BeforeTwice(Meaning(f, stack, fmt), "", Output("", 0));
  }

  // The whole template: the meaning of its tree, with every token consumed.
  lemma RunIsMeaning(f: Forest, stack: Stack, stop: Option<string>, fmt: Format)
    ensures Run(Flatten(f), 0, stack, stop, fmt) == Output(Meaning(f, stack, fmt), |Flatten(f)|)
  {
    var tokens := Flatten(f);
    assert tokens == [] + Stream(f, []);
    StreamSpells(tokens, [], f, []);
    WholeRun(tokens, f, stack, stop, fmt);
  }

  // `"".join(parts)`.
  function Concat(parts: seq<string>): string
  {
    if parts == [] then "" else parts[0] + Concat(parts[1..])
  }

  lemma {:induction false} ConcatMore(parts: seq<string>, s: string)
    ensures Concat(parts + [s]) == Concat(parts) + s
    decreases |parts|
  {
    if parts == [] {
      assert [s][1..] == [] && Concat([s]) == s + "" == s;
    } else {
      assert (parts + [s])[1..] == parts[1..] + [s];
      ConcatMore(parts[1..], s);
    }
  }

  // What the loop does at the cursor, after it has written `parts`.
  lemma LoopEmits(tokens: seq<Token>, pos: nat, stack: Stack, stop: Option<string>, fmt: Format, parts: seq<string>)
    requires pos < |tokens| && tokens[pos].Emit?
    ensures Before(Concat(parts), Run(tokens, pos, stack, stop, fmt))
         == Before(Concat(parts + [Show(tokens[pos].piece, stack, fmt)]), Run(tokens, pos + 1, stack, stop, fmt))
  {
    ConcatMore(parts, Show(tokens[pos].piece, stack, fmt));
    BeforeTwice(Concat(parts), Show(tokens[pos].piece, stack, fmt), Run(tokens, pos + 1, stack, stop, fmt));
  }

  lemma LoopOpens(tokens: seq<Token>, pos: nat, stack: Stack, stop: Option<string>, fmt: Format, parts: seq<string>,
          section: Output)
    requires pos < |tokens| && tokens[pos].Open? && section.end <= |tokens|
    requires section == RunPasses(tokens, pos + 1, tokens[pos].name,
                                  Passes(tokens[pos].inverted, tokens[pos].name, stack), fmt)
    ensures Before(Concat(parts), Run(tokens, pos, stack, stop, fmt))
         == Before(Concat(parts + [section.text]), Run(tokens, section.end, stack, stop, fmt))
  {
    ConcatMore(parts, section.text);
    BeforeTwice(Concat(parts), section.text, Run(tokens, section.end, stack, stop, fmt));
  }

  lemma LoopCloses(tokens: seq<Token>, pos: nat, stack: Stack, stop: Option<string>, fmt: Format, parts: seq<string>)
    requires pos < |tokens| && tokens[pos].Close?
    ensures Before(Concat(parts), Run(tokens, pos, stack, stop, fmt))
         == if stop == Some(tokens[pos].name) then Output(Concat(parts), pos + 1)
            else Before(Concat(parts), Run(tokens, pos + 1, stack, stop, fmt))
  {
    BeforeTwice(Concat(parts), "", Output("", pos));
  }

  lemma LoopEnds(tokens: seq<Token>, stack: Stack, stop: Option<string>, fmt: Format, parts: seq<string>)
    ensures Before(Concat(parts), Run(tokens, |tokens|, stack, stop, fmt)) == Output(Concat(parts), |tokens|)
  {
    BeforeTwice(Concat(parts), "", Output("", |tokens|));
  }

  // ---- The renderer itself -----------------------------------------------------------------------

  // The closure of `render_template`: the tokens and the cursor both inner functions move.
  class Renderer {
    const tokens: seq<Token>
    const fmt: Format
    var pos: nat

    constructor (tokens: seq<Token>, fmt: Format)
      ensures this.tokens == tokens && this.fmt == fmt && pos == 0
    {
      this.tokens, this.fmt, pos := tokens, fmt, 0;
    }

    method RenderBlock(stack: Stack, stop: Option<string>) returns (out: string)
      requires pos <= |tokens|
      modifies this`pos
      ensures Output(out, pos) == Run(tokens, old(pos), stack, stop, fmt)
      decreases |tokens| - pos, 0
    {
      ghost var goal := Run(tokens, pos, stack, stop, fmt);
      BeforeTwice("", "", goal);
      var parts: seq<string> := [];
      while pos < |tokens|
        invariant old(pos) <= pos <= |tokens|
        invariant goal == Before(Concat(parts), Run(tokens, pos, stack, stop, fmt))
        decreases |tokens| - pos
      {
        var token := tokens[pos];
        ghost var at, before := pos, parts;
        pos := pos + 1;
        match token
        case Emit(p) =>
          LoopEmits(tokens, at, stack, stop, fmt, before);
          parts := parts + [Show(p, stack, fmt)];
        case Open(inverted, name) =>
          var s := RenderSection(inverted, name, stack);
          LoopOpens(tokens, at, stack, stop, fmt, before, Output(s, pos));
          parts := parts + [s];
        case Close(name) =>
          LoopCloses(tokens, at, stack, stop, fmt, before);
          if stop == Some(name) { return Concat(parts); }
      }
      LoopEnds(tokens, stack, stop, fmt, parts);
      return Concat(parts);
    }

    method RenderSection(inverted: bool, name: string, stack: Stack) returns (s: string)
      requires pos <= |tokens|
      modifies this`pos
      ensures Output(s, pos) == RunPasses(tokens, old(pos), name, Passes(inverted, name, stack), fmt)
      decreases |tokens| - pos, 2
    {
      var val := Lookup(name, stack);
      s := "";
      if inverted {
        if Truthy(val) { SkipBlock(name); } else { s := RenderBlock(stack, Some(name)); }
      } else if val.List? {
        if val.items == [] {
          SkipBlock(name);
        } else {
          s := RenderItems(val.items, stack, name);
        }
      } else if Truthy(val) {
        s := RenderBlock(stack + [if val.Dict? then val else Dict(map[])], Some(name));
      } else {
        SkipBlock(name);
      }
    }

    // The loop over a list's items: rewind to the section's first token for each of them.
    method RenderItems(items: seq<Value>, stack: Stack, name: string) returns (out: string)
      requires pos <= |tokens| && items != []
      modifies this`pos
      ensures Output(out, pos) == RunPasses(tokens, old(pos), name,
                                            seq(|items|, i requires 0 <= i < |items| => stack + [items[i]]), fmt)
      decreases |tokens| - pos, 1
    {
      var start := pos;
      out := "";
      ghost var passes: seq<Stack> := seq(|items|, i requires 0 <= i < |items| => stack + [items[i]]);
      assert passes[0..] == passes;
      BeforeTwice("", "", RunPasses(tokens, start, name, passes, fmt));
      for i := 0 to |items|
        invariant start <= pos <= |tokens|
        invariant i < |items| ==>
                    RunPasses(tokens, start, name, passes, fmt)
                    == Before(out, RunPasses(tokens, start, name, passes[i..], fmt))
        invariant i == |items| ==> RunPasses(tokens, start, name, passes, fmt) == Output(out, pos)
      {
        assert passes[i..][0] == stack + [items[i]] && passes[i..][1..] == passes[i + 1..];
        pos := start;
        var s := RenderBlock(stack + [items[i]], Some(name));
        BeforeTwice(out, s, RunPasses(tokens, start, name, passes[i + 1..], fmt));
        out := out + s;
      }
    }

    method SkipBlock(name: string)
      requires pos <= |tokens|
      modifies this`pos
      ensures pos == Skip(tokens, old(pos), name, 1)
    {
      var depth := 1;
      while pos < |tokens|
        invariant old(pos) <= pos <= |tokens| && depth > 0
        invariant Skip(tokens, old(pos), name, 1) == Skip(tokens, pos, name, depth)
        decreases |tokens| - pos
      {
        var token := tokens[pos];
        pos := pos + 1;
        if token.Open? && token.name == name {
          depth := depth + 1;
        } else if token == Close(name) {
          depth := depth - 1;
          if depth == 0 { return; }
        }
      }
    }
  }
}
