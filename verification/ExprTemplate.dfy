/** Splitting a template into literals and `{{ }}` spans (internal/expr/token.go). */
module ExprTemplate {
  import opened Prelude

  datatype Segment =
    | Literal(text: string)
    | Expr(text: string)    // the trimmed inner text
    | Secret(text: string)  // the whole span, braces included

  const SECRET_PREFIX := "secret:"

  /** A `{{ ... }}` span: its only `}}` is at its end. */
  predicate IsSpan(p: string) {
    |p| >= 4 && PairAt(p, '{', 0) && IndexPair(p, '}') == Some(|p| - 2)
  }

  function Inner(span: string): string
    requires |span| >= 4
  {
    span[2..|span| - 2]
  }

  function SpanSegment(span: string): Segment
    requires IsSpan(span)
  {
    var trimmed := TrimSpace(Inner(span));
    if HasPrefix(trimmed, SECRET_PREFIX) then Secret(span) else Expr(trimmed)
  }

  /** Where the first complete span of `tpl` starts and ends, if there is one. */
  function FirstSpan(tpl: string): (r: Option<(nat, nat)>)
    ensures r.Some? ==> r.value.0 + 4 <= r.value.1 <= |tpl| && IsSpan(tpl[r.value.0..r.value.1])
    ensures r.Some? ==> IndexPair(tpl, '{') == Some(r.value.0)
  {
    match IndexPair(tpl, '{')
    case None => None
    case Some(open) =>
      (match IndexPair(tpl[open..], '}')
       case None => None
       case Some(close) =>
         CloseAfterOpen(tpl, open, close);
         Some((open, open + close + 2)))
  }

  lemma CloseAfterOpen(tpl: string, open: nat, close: nat)
    requires PairAt(tpl, '{', open) && IndexPair(tpl[open..], '}') == Some(close)
    ensures close >= 2 && open + close + 2 <= |tpl| && IsSpan(tpl[open..open + close + 2])
  {
    var rest := tpl[open..];
    assert rest[0] == '{' && rest[1] == '{';
    var span := rest[..close + 2];
    assert span == tpl[open..open + close + 2];
    forall m: nat | m < close ensures !PairAt(span, '}', m) {
      assert !PairAt(rest, '}', m);
    }
    IndexPairIs(span, '}', close);
  }

  function LiteralBefore(text: string): seq<Segment> {
    if text == "" then [] else [Literal(text)]
  }

  function TextBefore(text: string): seq<string> {
    if text == "" then [] else [text]
  }

  /** What one round of the splitter takes off the front: some segments, the
      pieces of text they stand for, and the text left. */
  datatype Peeled = Peeled(segs: seq<Segment>, pieces: seq<string>, rest: string)

  function Peel(tpl: string): (r: Peeled)
    requires tpl != ""
    ensures |r.rest| < |tpl|
  {
    match FirstSpan(tpl)
    case None => Peeled([Literal(tpl)], [tpl], "")
    case Some((a, b)) =>
      Peeled(LiteralBefore(tpl[..a]) + [SpanSegment(tpl[a..b])], TextBefore(tpl[..a]) + [tpl[a..b]], tpl[b..])
  }

  function Split(tpl: string): seq<Segment>
    decreases |tpl|
  {
    if tpl == "" then [] else Peel(tpl).segs + Split(Peel(tpl).rest)
  }

  function Pieces(tpl: string): seq<string>
    decreases |tpl|
  {
    if tpl == "" then [] else Peel(tpl).pieces + Pieces(Peel(tpl).rest)
  }

  lemma PeelSpan(tpl: string, open: nat, close: nat)
    requires IndexPair(tpl, '{') == Some(open) && IndexPair(tpl[open..], '}') == Some(close)
    ensures open + close + 2 <= |tpl| && close >= 2 && IsSpan(tpl[open..open + close + 2])
    ensures var p := Peel(tpl);
            p.segs == LiteralBefore(tpl[..open]) + [SpanSegment(tpl[open..open + close + 2])]
            && p.rest == tpl[open + close + 2..]
  {
    CloseAfterOpen(tpl, open, close);
    assert FirstSpan(tpl) == Some((open, open + close + 2));
  }

  lemma LastLiteral(tpl: string)
    requires tpl != "" && FirstSpan(tpl).None?
    ensures Split(tpl) == [Literal(tpl)]
  {
    assert Split(tpl) == [Literal(tpl)] + Split("");
  }

  /** Taking one round off the front: `segs` so far, then what `tpl` splits into. */
  lemma RoundTaken(done: seq<Segment>, tpl: string)
    requires tpl != ""
    ensures done + Split(tpl) == (done + Peel(tpl).segs) + Split(Peel(tpl).rest)
  {
    assert done + (Peel(tpl).segs + Split(Peel(tpl).rest)) == (done + Peel(tpl).segs) + Split(Peel(tpl).rest);
  }

  /** The kind and text of one span, as the loop body computes them. */
  method ClassifySpan(rest: string, close: nat) returns (seg: Segment)
    requires 2 <= close && close + 2 <= |rest| && IsSpan(rest[..close + 2])
    ensures seg == SpanSegment(rest[..close + 2])
  {
    var full := rest[..close + 2];
    var inner := rest[2..close];
    assert inner == Inner(full);
    var trimmed := TrimSpace(inner);
    if HasPrefix(trimmed, SECRET_PREFIX) {
      seg := Secret(full);
    } else {
      seg := Expr(trimmed);
    }
  }

  /** The part of the loop body that handles a complete span: an optional
      literal, the span's segment, and the template after it. */
  method PeelRound(tpl: string, open: nat, close: nat) returns (front: seq<Segment>, tail: string)
    requires IndexPair(tpl, '{') == Some(open) && IndexPair(tpl[open..], '}') == Some(close)
    ensures tpl != "" && front == Peel(tpl).segs && tail == Peel(tpl).rest
  {
    PeelSpan(tpl, open, close);
    var rest := tpl[open..];
    assert rest[..close + 2] == tpl[open..open + close + 2];
    var seg := ClassifySpan(rest, close);
    front := [seg];
    if open > 0 {
      front := [Literal(tpl[..open])] + front;
    }
    tail := tpl[open + close + 2..];
  }

  /** `splitTemplate`: peels literal runs and spans off a shrinking template. */
  method SplitTemplate(template: string) returns (segs: seq<Segment>)
    ensures segs == Split(template)
  {
    segs := [];
    var tpl := template;
    while |tpl| > 0
      invariant Split(template) == segs + Split(tpl)
      decreases |tpl|
    {
      var open := IndexPair(tpl, '{');
      if open.None? {
        LastLiteral(tpl);
        return segs + [Literal(tpl)];
      }
      var close := IndexPair(tpl[open.value..], '}');
      if close.None? {
        LastLiteral(tpl);
        return segs + [Literal(tpl)];
      }
      RoundTaken(segs, tpl);
      var front, tail := PeelRound(tpl, open.value, close.value);
      segs, tpl := segs + front, tail;
    }
  }

  // ---------------------------------------------------------------------
  // Lossless
  // ---------------------------------------------------------------------

  /** The piece of template text a segment stands for. */
  predicate PieceOf(seg: Segment, piece: string) {
    match seg
    case Literal(t) => piece == t && t != ""
    case Secret(t) => piece == t && IsSpan(t) && HasPrefix(TrimSpace(Inner(t)), "secret:")
    case Expr(t) => IsSpan(piece) && t == TrimSpace(Inner(piece)) && !HasPrefix(t, "secret:")
  }

  predicate Aligned(segs: seq<Segment>, pieces: seq<string>) {
    |segs| == |pieces| && forall k :: 0 <= k < |segs| ==> PieceOf(segs[k], pieces[k])
  }

  lemma AlignedAppend(a: seq<Segment>, pa: seq<string>, b: seq<Segment>, pb: seq<string>)
    requires Aligned(a, pa) && Aligned(b, pb)
    ensures Aligned(a + b, pa + pb) && Flatten(pa + pb) == Flatten(pa) + Flatten(pb)
  {
    FlattenAppend(pa, pb);
    forall k | 0 <= k < |a + b| ensures PieceOf((a + b)[k], (pa + pb)[k]) {
      if k < |a| {
        assert (a + b)[k] == a[k] && (pa + pb)[k] == pa[k];
      } else {
        assert (a + b)[k] == b[k - |a|] && (pa + pb)[k] == pb[k - |a|];
      }
    }
  }

  lemma AlignedFirst(lit: string, span: string)
    requires IsSpan(span)
    ensures Aligned(LiteralBefore(lit) + [SpanSegment(span)], TextBefore(lit) + [span])
    ensures Flatten(TextBefore(lit) + [span]) == lit + span
  {
    assert PieceOf(SpanSegment(span), span);
    AlignedAppend(LiteralBefore(lit), TextBefore(lit), [SpanSegment(span)], [span]);
    assert Flatten([span]) == span + Flatten([]);
    if lit != "" { assert Flatten([lit]) == lit + Flatten([]); }
  }

  lemma PeelAligned(tpl: string)
    requires tpl != ""
    ensures Aligned(Peel(tpl).segs, Peel(tpl).pieces) && Flatten(Peel(tpl).pieces) + Peel(tpl).rest == tpl
  {
    if FirstSpan(tpl).Some? {
      var (a, b) := FirstSpan(tpl).value;
      AlignedFirst(tpl[..a], tpl[a..b]);
    } else {
      assert Flatten([tpl]) == tpl + Flatten([]);
    }
  }

  /** Segments cut the template without losing a character: the pieces they
      stand for, in order, concatenate to it. */
  lemma {:induction false} SplitLossless(tpl: string)
    ensures Aligned(Split(tpl), Pieces(tpl)) && Flatten(Pieces(tpl)) == tpl
    decreases |tpl|
  {
    if tpl != "" {
      var p := Peel(tpl);
      PeelAligned(tpl);
      SplitLossless(p.rest);
      AlignedAppend(p.segs, p.pieces, Split(p.rest), Pieces(p.rest));
    }
  }

  /** Segment `k` may be followed by another one: it is not a literal with an
      `{{` in it, nor a literal before a literal. */
  predicate MayPrecede(segs: seq<Segment>, k: nat)
    requires k + 1 < |segs|
  {
    segs[k].Literal? ==> IndexPair(segs[k].text, '{').None? && !segs[k + 1].Literal?
  }

  lemma PrefixOpenFree(tpl: string, a: nat)
    requires IndexPair(tpl, '{') == Some(a)
    ensures IndexPair(tpl[..a], '{').None?
    ensures a > 0 ==> tpl[a - 1] != '{'
  {
    forall k: nat ensures !PairAt(tpl[..a], '{', k) {
      if PairAt(tpl[..a], '{', k) { assert PairAt(tpl, '{', k); }
    }
    assert a > 0 ==> !PairAt(tpl, '{', a - 1);
  }

  lemma PeelMayPrecede(tpl: string)
    requires tpl != ""
    ensures var p := Peel(tpl);
            && (p.rest != "" ==> !p.segs[|p.segs| - 1].Literal?)
            && forall k :: 0 <= k < |p.segs| - 1 ==> MayPrecede(p.segs, k)
  {
    if FirstSpan(tpl).Some? { PrefixOpenFree(tpl, FirstSpan(tpl).value.0); }
  }

  lemma AppendMayPrecede(a: seq<Segment>, b: seq<Segment>)
    requires a != [] && (b != [] ==> !a[|a| - 1].Literal?)
    requires forall k :: 0 <= k < |a| - 1 ==> MayPrecede(a, k)
    requires forall k :: 0 <= k < |b| - 1 ==> MayPrecede(b, k)
    ensures forall k :: 0 <= k < |a + b| - 1 ==> MayPrecede(a + b, k)
  {
    forall k | 0 <= k < |a + b| - 1 ensures MayPrecede(a + b, k) {
      if k >= |a| { assert MayPrecede(b, k - |a|); }
      else if k + 1 < |a| { assert MayPrecede(a, k); }
    }
  }

  /** Only a final literal can contain `{{` (an unterminated span), and two
      literals are never adjacent. */
  lemma {:induction false} OnlyFinalLiteralOpens(tpl: string)
    ensures forall k :: 0 <= k < |Split(tpl)| - 1 ==> MayPrecede(Split(tpl), k)
    decreases |tpl|
  {
    if tpl != "" {
      OnlyFinalLiteralOpens(Peel(tpl).rest);
      PeelMayPrecede(tpl);
      AppendMayPrecede(Peel(tpl).segs, Split(Peel(tpl).rest));
    }
  }

  // ---------------------------------------------------------------------
  // Canonical rendering
  // ---------------------------------------------------------------------

  function RenderSegment(seg: Segment): string {
    if seg.Expr? then "{{ " + seg.text + " }}" else seg.text
  }

  function Render(segs: seq<Segment>): string {
    if segs == [] then "" else RenderSegment(segs[0]) + Render(segs[1..])
  }

  /** A span after an `{{`-free literal is found where it was put. */
  lemma SpanFound(lit: string, span: string, rest: string)
    requires IsSpan(span) && IndexPair(lit, '{').None? && (lit != "" ==> lit[|lit| - 1] != '{')
    ensures FirstSpan(lit + span + rest) == Some((|lit|, |lit| + |span|))
  {
    var t := lit + span + rest;
    var a, c := |lit|, |span| - 2;
    assert PairAt(t, '{', a);
    forall m: nat | m < a ensures !PairAt(t, '{', m) {
      assert !PairAt(lit, '{', m);
    }
    IndexPairIs(t, '{', a);
    var tail := t[a..];
    assert tail == span + rest;
    assert PairAt(span, '}', c);
    forall m: nat | m < c ensures !PairAt(tail, '}', m) {
      assert !PairAt(span, '}', m);
    }
    IndexPairIs(tail, '}', c);
  }

  lemma PeelAtSpan(lit: string, span: string, rest: string)
    requires IsSpan(span) && IndexPair(lit, '{').None? && (lit != "" ==> lit[|lit| - 1] != '{')
    ensures var t := lit + span + rest;
            t != "" && Peel(t).segs == LiteralBefore(lit) + [SpanSegment(span)] && Peel(t).rest == rest
  {
    var t := lit + span + rest;
    SpanFound(lit, span, rest);
    assert t[..|lit|] == lit && t[|lit|..|lit| + |span|] == span && t[|lit| + |span|..] == rest;
  }

  lemma NoCloseInside(span: string)
    requires IsSpan(span)
    ensures IndexPair(Inner(span), '}').None?
  {
    forall k: nat ensures !PairAt(Inner(span), '}', k) {
      if PairAt(Inner(span), '}', k) { assert PairAt(span, '}', k + 2); }
    }
  }

  lemma SliceCloseFree(s: string, a: nat, b: nat)
    requires IndexPair(s, '}').None? && a <= b <= |s|
    ensures IndexPair(s[a..b], '}').None?
  {
    forall k: nat ensures !PairAt(s[a..b], '}', k) {
      assert !PairAt(s, '}', a + k);
    }
  }

  lemma PaddedIsSpan(t: string)
    requires IndexPair(t, '}').None?
    ensures var c := "{{ " + t + " }}"; IsSpan(c) && Inner(c) == " " + t + " "
  {
    var c := "{{ " + t + " }}";
    forall k: nat | k < |c| - 2 ensures !PairAt(c, '}', k) {
      if 3 <= k < 3 + |t| { assert !PairAt(t, '}', k - 3); }
    }
    IndexPairIs(c, '}', |c| - 2);
  }

  /** The canonical text of a span is a span with the same segment. */
  lemma CanonicalSpan(span: string)
    requires IsSpan(span)
    ensures var c := RenderSegment(SpanSegment(span)); IsSpan(c) && SpanSegment(c) == SpanSegment(span)
  {
    if SpanSegment(span).Expr? {
      var inner := Inner(span);
      var t := TrimSpace(inner);
      var lo, hi := TrimSpaceFacts(inner);
      NoCloseInside(span);
      SliceCloseFree(inner, lo, hi);
      PaddedIsSpan(t);
      TrimPadded(t);
    }
  }

  lemma RenderFirst(lit: string, seg: Segment, rest: seq<Segment>)
    ensures Render(LiteralBefore(lit) + [seg] + rest) == lit + RenderSegment(seg) + Render(rest)
  {
    var tail := [seg] + rest;
    assert tail[0] == seg && tail[1..] == rest;
    var all := LiteralBefore(lit) + [seg] + rest;
    if lit == "" {
      assert all == tail;
    } else {
      assert all[0] == Literal(lit) && all[1..] == tail;
    }
  }

  /** What one round peels off is peeled off its canonical text again, whatever follows. */
  lemma PeelRendered(tpl: string, rest: seq<Segment>)
    requires tpl != "" && FirstSpan(tpl).Some?
    ensures var t := Render(Peel(tpl).segs + rest);
            t != "" && Peel(t).segs == Peel(tpl).segs && Peel(t).rest == Render(rest)
  {
    var (a, b) := FirstSpan(tpl).value;
    var lit, span := tpl[..a], tpl[a..b];
    PrefixOpenFree(tpl, a);
    CanonicalSpan(span);
    RenderFirst(lit, SpanSegment(span), rest);
    PeelAtSpan(lit, RenderSegment(SpanSegment(span)), Render(rest));
  }

  /** Splitting is canonical: rendering the segments, with expressions padded by
      one space, and splitting again gives the same segments. */
  lemma {:induction false} SplitCanonical(tpl: string)
    ensures Split(Render(Split(tpl))) == Split(tpl)
    decreases |tpl|
  {
    if tpl != "" && FirstSpan(tpl).Some? {
      SplitCanonical(Peel(tpl).rest);
      PeelRendered(tpl, Split(Peel(tpl).rest));
    } else if tpl != "" {
      assert Split(tpl) == [Literal(tpl)] + Split("") == [Literal(tpl)];
      assert Render([Literal(tpl)]) == tpl + Render([]) == tpl;
    }
  }
}
