/** The report template language (backend/app/reports/template.py): its flat token stream, and the
    section trees that the stream spells.  The program itself never builds a tree. */
module TemplateSyntax {
  // What a tag or a stretch of text emits in place; `Var` is HTML-escaped, `Raw` is not.
  datatype Piece = Text(text: string) | Var(name: string) | Raw(name: string)

  // One element of the tokenizer's output.  `Open(false, n)` is `{{#n}}`, `Open(true, n)` is `{{^n}}`.
  datatype Token = Emit(piece: Piece) | Open(inverted: bool, name: string) | Close(name: string)

  // A sequence of pieces and sections, as a first-child / next-sibling tree.
  datatype Forest =
    | Nil
    | Inline(piece: Piece, rest: Forest)
    | Section(inverted: bool, name: string, body: Forest, rest: Forest)

  function Width(f: Forest): nat
  {
    match f
    case Nil => 0
    case Inline(_, rest) => 1 + Width(rest)
    case Section(_, _, body, rest) => 2 + Width(body) + Width(rest)
  }

  function Flatten(f: Forest): (tokens: seq<Token>)
    ensures |tokens| == Width(f)
  {
    match f
    case Nil => []
    case Inline(p, rest) => [Emit(p)] + Flatten(rest)
    case Section(inverted, name, body, rest) =>
      [Open(inverted, name)] + Flatten(body) + [Close(name)] + Flatten(rest)
  }

  predicate EndsOrCloses(s: seq<Token>)
  {
    s == [] || s[0].Close?
  }

  // The stream of a forest followed by `s`, and what is left of it after the first token.
  function Stream(f: Forest, s: seq<Token>): seq<Token>
  {
    Flatten(f) + s
  }

  lemma StreamHead(f: Forest, s: seq<Token>)
    ensures f.Nil? ==> Stream(f, s) == s
    ensures f.Inline? ==> Stream(f, s) == [Emit(f.piece)] + Stream(f.rest, s)
    ensures f.Section? ==>
              Stream(f, s) == [Open(f.inverted, f.name)] + Stream(f.body, [Close(f.name)] + Stream(f.rest, s))
  {
    match f
    case Nil =>
    case Inline(p, rest) =>
      assert ([Emit(p)] + Flatten(rest)) + s == [Emit(p)] + (Flatten(rest) + s);
    case Section(inverted, name, body, rest) =>
      assert ([Open(inverted, name)] + Flatten(body) + [Close(name)] + Flatten(rest)) + s
          == [Open(inverted, name)] + (Flatten(body) + ([Close(name)] + (Flatten(rest) + s)));
  }

  lemma SameTail<T>(a: T, b: T, x: seq<T>, y: seq<T>)
    requires [a] + x == [b] + y
    ensures a == b && x == y
  {
    assert ([a] + x)[0] == ([b] + y)[0];
    assert x == ([a] + x)[1..] && y == ([b] + y)[1..];
  }

  // A forest is a maximal balanced prefix: nothing else can be read off the same stream.
  lemma {:induction false} FlattenIsPrefixFree(f: Forest, g: Forest, s: seq<Token>, t: seq<Token>)
    requires Stream(f, s) == Stream(g, t)
    requires EndsOrCloses(s) && EndsOrCloses(t)
    ensures f == g && s == t
  {
    StreamHead(f, s);
    StreamHead(g, t);
    match (f, g)
    case (Nil, _) =>
    case (_, Nil) =>
    case (Inline(p, r), Inline(q, r')) =>
      SameTail(Emit(p), Emit(q), Stream(r, s), Stream(r', t));
      FlattenIsPrefixFree(r, r', s, t);
    case (Section(i, n, b, r), Section(i', n', b', r')) =>
      var u, u' := [Close(n)] + Stream(r, s), [Close(n')] + Stream(r', t);
      SameTail(Open(i, n), Open(i', n'), Stream(b, u), Stream(b', u'));
      FlattenIsPrefixFree(b, b', u, u');
      SameTail(Close(n), Close(n'), Stream(r, s), Stream(r', t));
      FlattenIsPrefixFree(r, r', s, t);
    case (Inline(p, r), Section(i, n, b, r')) =>
      SameTail(Emit(p), Open(i, n), Stream(r, s), Stream(b, [Close(n)] + Stream(r', t)));
    case (Section(i, n, b, r), Inline(p, r')) =>
      SameTail(Open(i, n), Emit(p), Stream(b, [Close(n)] + Stream(r, s)), Stream(r', t));
  }

  // A token stream spells at most one tree.
  lemma TreeIsUnique(f: Forest, g: Forest)
    requires Flatten(f) == Flatten(g)
    ensures f == g
  {
    assert Stream(f, []) == Flatten(f) && Stream(g, []) == Flatten(g);
    FlattenIsPrefixFree(f, g, [], []);
  }
}
