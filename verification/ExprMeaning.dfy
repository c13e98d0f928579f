/** What resolving a template means: which resolver calls it makes, what it
    depends on, and which rewritings of a template keep its result. */
module ExprMeaning {
  import opened Prelude
  import opened ExprParser
  import opened ExprPrinter
  import opened ExprTemplate
  import opened ExprSemantics
  import opened ExprEval

  // ---------------------------------------------------------------------
  // The resolver is called with the ids written in the template, in order
  // ---------------------------------------------------------------------

  /** The ids written as `$node["id"]` in an expression, left to right. */
  function Ids(n: Node): seq<string>
    decreases n, 0
  {
    match n
    case NodeRef(id) => [id]
    case Member(recv, _) => Ids(recv)
    case Index(recv, _, _) => Ids(recv)
    case Method(recv, _) => Ids(recv)
    case JsonStringify(arg) => Ids(arg)
    case Concat(parts) => PartIds(parts)
    case _ => []
  }

  function PartIds(parts: seq<Node>): seq<string>
    decreases parts, 1
  {
    if parts == [] then [] else Ids(parts[0]) + PartIds(parts[1..])
  }

  function SegmentIds(seg: Segment): seq<string> {
    if seg.Expr? && ParseSpan(seg.text).Ok? then Ids(ParseSpan(seg.text).value) else []
  }

  function TemplateIds(segs: seq<Segment>): seq<string> {
    if segs == [] then [] else SegmentIds(segs[0]) + TemplateIds(segs[1..])
  }

  /** All the written ids are looked up, in order, unless an error cuts the run short. */
  ghost predicate Follows<T>(o: Outcome<T>, ids: seq<string>) {
    o.calls <= ids && (o.result.Ok? ==> o.calls == ids)
  }

  lemma JoinFollows(a: Outcome<string>, x: seq<string>, b: Outcome<string>, y: seq<string>)
    requires Follows(a, x) && Follows(b, y)
    ensures Follows(Join(a, b), x + y)
  {
    if a.result.Ok? {
      assert a.calls + b.calls <= x + y;
    } else {
      assert a.calls <= x <= x + y;
    }
  }

  lemma {:induction false} EvalFollows(n: Node, c: Context)
    ensures Follows(Eval(n, c), Ids(n))
    decreases n, 0
  {
    match n {
      case Member(recv, _) => EvalFollows(recv, c);
      case Index(recv, _, _) => EvalFollows(recv, c);
      case Method(recv, _) => EvalFollows(recv, c);
      case JsonStringify(arg) => EvalFollows(arg, c);
      case Concat(parts) => PartsFollow(parts, c);
      case _ =>
    }
  }

  lemma {:induction false} PartsFollow(parts: seq<Node>, c: Context)
    ensures Follows(EvalParts(parts, c), PartIds(parts))
    decreases parts, 1
  {
    if parts != [] {
      EvalFollows(parts[0], c);
      PartsFollow(parts[1..], c);
      JoinFollows(ToText(Eval(parts[0], c), c), Ids(parts[0]), EvalParts(parts[1..], c), PartIds(parts[1..]));
    }
  }

  /** Resolving a template looks up exactly the node ids written in it, each
      occurrence once and left to right; on an error, an initial part of them. */
  lemma {:induction false} ResolveFollows(segs: seq<Segment>, c: Context)
    ensures Follows(EvalSegments(segs, c), TemplateIds(segs))
  {
    if segs != [] {
      var seg := segs[0];
      if seg.Expr? && ParseSpan(seg.text).Ok? { EvalFollows(ParseSpan(seg.text).value, c); }
      ResolveFollows(segs[1..], c);
      JoinFollows(EvalSegment(seg, c), SegmentIds(seg), EvalSegments(segs[1..], c), TemplateIds(segs[1..]));
    }
  }

  // ---------------------------------------------------------------------
  // The result depends on the resolver only through the calls made
  // ---------------------------------------------------------------------

  /** `d` is `c` with another resolver that answers the listed ids the same way. */
  ghost predicate SameAnswers(c: Context, d: Context, ids: seq<string>) {
    && d == c.(nodeById := d.nodeById)
    && c.nodeById.None? == d.nodeById.None?
    && forall k :: 0 <= k < |ids| && c.nodeById.Some? ==> c.nodeById.value(ids[k]) == d.nodeById.value(ids[k])
  }

  lemma SameAnswersSplit(c: Context, d: Context, a: seq<string>, b: seq<string>)
    requires SameAnswers(c, d, a + b)
    ensures SameAnswers(c, d, a) && SameAnswers(c, d, b)
  {
    assert forall k :: 0 <= k < |a| ==> a[k] == (a + b)[k];
    assert forall k :: 0 <= k < |b| ==> b[k] == (a + b)[|a| + k];
  }

  lemma {:induction false} EvalLocal(n: Node, c: Context, d: Context)
    requires SameAnswers(c, d, Eval(n, c).calls)
    ensures Eval(n, d) == Eval(n, c)
    decreases n, 0
  {
    match n {
      case NodeRef(id) => if c.nodeById.Some? { assert Eval(n, c).calls[0] == id; }
      case Member(recv, _) => EvalLocal(recv, c, d);
      case Index(recv, _, _) => EvalLocal(recv, c, d);
      case Method(recv, name) => if name == "toLowerCase" { EvalLocal(recv, c, d); }
      case JsonStringify(arg) => EvalLocal(arg, c, d);
      case Concat(parts) => PartsLocal(parts, c, d);
      case _ =>
    }
  }

  lemma {:induction false} PartsLocal(parts: seq<Node>, c: Context, d: Context)
    requires SameAnswers(c, d, EvalParts(parts, c).calls)
    ensures EvalParts(parts, d) == EvalParts(parts, c)
    decreases parts, 1
  {
    if parts != [] {
      var first, rest := ToText(Eval(parts[0], c), c), EvalParts(parts[1..], c);
      if first.result.Ok? { SameAnswersSplit(c, d, first.calls, rest.calls); }
      EvalLocal(parts[0], c, d);
      if first.result.Ok? { PartsLocal(parts[1..], c, d); }
    }
  }

  /** Two resolvers that agree on the calls one run makes give the same run. */
  lemma {:induction false} ResolveLocal(segs: seq<Segment>, c: Context, d: Context)
    requires SameAnswers(c, d, EvalSegments(segs, c).calls)
    ensures EvalSegments(segs, d) == EvalSegments(segs, c)
  {
    if segs != [] {
      var first, rest := EvalSegment(segs[0], c), EvalSegments(segs[1..], c);
      if first.result.Ok? { SameAnswersSplit(c, d, first.calls, rest.calls); }
      if segs[0].Expr? && ParseSpan(segs[0].text).Ok? { EvalLocal(ParseSpan(segs[0].text).value, c, d); }
      if first.result.Ok? { ResolveLocal(segs[1..], c, d); }
    }
  }

  // ---------------------------------------------------------------------
  // Resolving is segment-wise
  // ---------------------------------------------------------------------

  /** A template resolves exactly when every segment does, and then to the
      concatenation of the segments' texts. */
  lemma {:induction false} ResolveIsConcatenation(segs: seq<Segment>, texts: seq<string>, c: Context)
    requires |texts| == |segs|
    requires forall k :: 0 <= k < |segs| ==> EvalSegment(segs[k], c).result.Ok? ==> texts[k] == EvalSegment(segs[k], c).result.value
    ensures EvalSegments(segs, c).result.Ok? <==> forall k :: 0 <= k < |segs| ==> EvalSegment(segs[k], c).result.Ok?
    ensures EvalSegments(segs, c).result.Ok? ==> EvalSegments(segs, c).result.value == Flatten(texts)
  {
    if segs != [] {
      assert forall k :: 0 <= k < |segs| - 1 ==> segs[1..][k] == segs[k + 1] && texts[1..][k] == texts[k + 1];
      ResolveIsConcatenation(segs[1..], texts[1..], c);
      if forall k :: 0 <= k < |segs| ==> EvalSegment(segs[k], c).result.Ok? {
      } else if EvalSegment(segs[0], c).result.Ok? {
        var k :| 0 <= k < |segs| && EvalSegment(segs[k], c).result.Err?;
        assert segs[1..][k - 1] == segs[k];
      }
    }
  }

  /** The error reported is that of the first segment that fails. */
  lemma {:induction false} FirstErrorWins(segs: seq<Segment>, k: nat, c: Context)
    requires k < |segs| && EvalSegment(segs[k], c).result.Err?
    requires forall j :: 0 <= j < k ==> EvalSegment(segs[j], c).result.Ok?
    ensures EvalSegments(segs, c).result == EvalSegment(segs[k], c).result
  {
    if k > 0 {
      assert forall j :: 0 <= j < k - 1 ==> segs[1..][j] == segs[j + 1];
      FirstErrorWins(segs[1..], k - 1, c);
    }
  }

  /** Without expression segments a template, secrets included, is its own result. */
  lemma {:induction false} ResolveIdentity(tpl: string, c: Context)
    requires forall k :: 0 <= k < |Split(tpl)| ==> !Split(tpl)[k].Expr?
    ensures EvalSegments(Split(tpl), c) == Outcome(Ok(tpl), [])
  {
    var segs, pieces := Split(tpl), Pieces(tpl);
    SplitLossless(tpl);
    forall k | 0 <= k < |segs| ensures EvalSegment(segs[k], c) == Outcome(Ok(pieces[k]), []) {
      assert PieceOf(segs[k], pieces[k]);
    }
    ResolveIsConcatenation(segs, pieces, c);
    ResolveFollows(segs, c);
    NoTemplateIds(segs);
  }

  lemma {:induction false} NoTemplateIds(segs: seq<Segment>)
    requires forall k :: 0 <= k < |segs| ==> !segs[k].Expr?
    ensures TemplateIds(segs) == []
  {
    if segs != [] { NoTemplateIds(segs[1..]); }
  }

  /** A secret span reaches the result verbatim, braces included. */
  lemma SecretsVerbatim(segs: seq<Segment>, k: nat, texts: seq<string>, c: Context)
    requires k < |segs| && segs[k].Secret? && EvalSegments(segs, c).result.Ok?
    requires |texts| == |segs| && forall j :: 0 <= j < |segs| ==> EvalSegment(segs[j], c).result == Ok(texts[j])
    ensures EvalSegments(segs, c).result.value == Flatten(texts[..k]) + segs[k].text + Flatten(texts[k + 1..])
  {
    ResolveIsConcatenation(segs, texts, c);
    FlattenAround(texts, k);
    assert EvalSegment(segs[k], c).result == Ok(segs[k].text);
  }

  lemma FlattenAround(texts: seq<string>, k: nat)
    requires k < |texts|
    ensures Flatten(texts) == Flatten(texts[..k]) + texts[k] + Flatten(texts[k + 1..])
  {
    assert texts == texts[..k] + texts[k..];
    FlattenAppend(texts[..k], texts[k..]);
    assert texts[k..][0] == texts[k] && texts[k..][1..] == texts[k + 1..];
  }

  // ---------------------------------------------------------------------
  // Rewritings that keep the result
  // ---------------------------------------------------------------------

  lemma {:induction false} PartsAppend(xs: seq<Node>, ys: seq<Node>, c: Context)
    ensures EvalParts(xs + ys, c) == Join(EvalParts(xs, c), EvalParts(ys, c))
  {
    if xs == [] {
      assert xs + ys == ys;
      JoinUnit(EvalParts(ys, c));
    } else {
      assert (xs + ys)[0] == xs[0] && (xs + ys)[1..] == xs[1..] + ys;
      PartsAppend(xs[1..], ys, c);
      JoinAssociative(ToText(Eval(xs[0], c), c), EvalParts(xs[1..], c), EvalParts(ys, c));
    }
  }

  lemma {:induction false} SegmentsAppend(xs: seq<Segment>, ys: seq<Segment>, c: Context)
    ensures EvalSegments(xs + ys, c) == Join(EvalSegments(xs, c), EvalSegments(ys, c))
  {
    if xs == [] {
      assert xs + ys == ys;
      JoinUnit(EvalSegments(ys, c));
    } else {
      assert (xs + ys)[0] == xs[0] && (xs + ys)[1..] == xs[1..] + ys;
      SegmentsAppend(xs[1..], ys, c);
      JoinAssociative(EvalSegment(xs[0], c), EvalSegments(xs[1..], c), EvalSegments(ys, c));
    }
  }

  /** Parentheses around part of a concatenation change nothing: result, error
      and resolver calls are those of the flat one. */
  lemma NestedConcatFlattens(xs: seq<Node>, ys: seq<Node>, zs: seq<Node>, c: Context)
    ensures Eval(Concat(xs + [Concat(ys)] + zs), c) == Eval(Concat(xs + ys + zs), c)
  {
    InnerParts(ys, c);
    PartsAround(xs, [Concat(ys)], zs, c);
    PartsAround(xs, ys, zs, c);
  }

  /** A concatenation as the only part is its parts. */
  lemma InnerParts(ys: seq<Node>, c: Context)
    ensures EvalParts([Concat(ys)], c) == EvalParts(ys, c)
  {
    assert [Concat(ys)][1..] == [];
    JoinUnit(EvalParts(ys, c));
  }

  lemma PartsAround(xs: seq<Node>, ys: seq<Node>, zs: seq<Node>, c: Context)
    ensures EvalParts(xs + ys + zs, c) == Join(Join(EvalParts(xs, c), EvalParts(ys, c)), EvalParts(zs, c))
  {
    PartsAppend(xs + ys, zs, c);
    PartsAppend(xs, ys, c);
  }

  lemma OneSegment(seg: Segment, c: Context)
    ensures EvalSegments([seg], c) == EvalSegment(seg, c)
  {
    assert [seg][1..] == [];
    JoinUnit(EvalSegment(seg, c));
  }

  lemma OnePart(n: Node, c: Context)
    ensures EvalParts([n], c) == ToText(Eval(n, c), c)
  {
    assert [n][1..] == [];
    JoinUnit(ToText(Eval(n, c), c));
  }

  /** Segments with the same outcome can replace each other in any template. */
  lemma ReplaceSegments(before: seq<Segment>, xs: seq<Segment>, ys: seq<Segment>, after: seq<Segment>, c: Context)
    requires EvalSegments(xs, c) == EvalSegments(ys, c)
    ensures EvalSegments(before + xs + after, c) == EvalSegments(before + ys + after, c)
  {
    SegmentsAppend(before + xs, after, c);
    SegmentsAppend(before, xs, c);
    SegmentsAppend(before + ys, after, c);
    SegmentsAppend(before, ys, c);
  }

  /** Two adjacent expression spans resolve like any span that parses to their sum. */
  lemma AdjacentAsOne(before: seq<Segment>, a: string, b: string, ab: string, after: seq<Segment>, c: Context)
    requires ParseSpan(a).Ok? && ParseSpan(b).Ok?
    requires ParseSpan(ab) == Ok(Concat([ParseSpan(a).value, ParseSpan(b).value]))
    ensures EvalSegments(before + [Expr(a), Expr(b)] + after, c) == EvalSegments(before + [Expr(ab)] + after, c)
  {
    var m, n := ParseSpan(a).value, ParseSpan(b).value;
    assert [Expr(a), Expr(b)] == [Expr(a)] + [Expr(b)] && [m, n] == [m] + [n];
    SegmentsAppend([Expr(a)], [Expr(b)], c);
    PartsAppend([m], [n], c);
    OneSegment(Expr(a), c);
    OneSegment(Expr(b), c);
    OneSegment(Expr(ab), c);
    OnePart(m, c);
    OnePart(n, c);
    ReplaceSegments(before, [Expr(a), Expr(b)], [Expr(ab)], after, c);
  }

  /** The text of one span holding the `+` of two. */
  function SumText(a: string, b: string): string
    requires ParseSpan(a).Ok? && ParseSpan(b).Ok?
  {
    ReprintStable(a);
    ReprintStable(b);
    Print(Concat([ParseSpan(a).value, ParseSpan(b).value]))
  }

  lemma SumParses(a: string, b: string)
    requires ParseSpan(a).Ok? && ParseSpan(b).Ok?
    ensures ParseSpan(SumText(a, b)) == Ok(Concat([ParseSpan(a).value, ParseSpan(b).value]))
  {
    ReprintStable(a);
    ReprintStable(b);
    RoundTrip(Concat([ParseSpan(a).value, ParseSpan(b).value]));
  }

  /** Two adjacent expression spans resolve like the one span holding their `+`,
      in any template. */
  lemma AdjacentSpansConcat(before: seq<Segment>, a: string, b: string, after: seq<Segment>, c: Context)
    requires ParseSpan(a).Ok? && ParseSpan(b).Ok?
    ensures EvalSegments(before + [Expr(a), Expr(b)] + after, c) == EvalSegments(before + [Expr(SumText(a, b))] + after, c)
  {
    SumParses(a, b);
    AdjacentAsOne(before, a, b, SumText(a, b), after, c);
  }
}
