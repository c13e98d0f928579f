/** Line breaking for picture books (`wrapText` of internal/picturebook): runes
    are added to a line as long as its measured width allows. */
module LineBreaking {
  import opened Prelude

  /** The font's measurement of a text; None when it fails. */
  type Measure = string -> Option<real>

  /** No measurement says that the text is too wide. */
  predicate Fits(width: Measure, maxW: real, s: string) {
    width(s).Some? ==> width(s).value <= maxW
  }

  /** A line the code may print: it fits, or it cannot be broken further. */
  predicate Good(width: Measure, maxW: real, s: string) { |s| <= 1 || Fits(width, maxW, s) }

  function WrapFrom(width: Measure, maxW: real, cur: string, rest: string): seq<string>
    decreases |rest|
  {
    if rest == "" then [cur]
    else if rest[0] == '\n' then [cur] + WrapFrom(width, maxW, "", rest[1..])
    else if cur != "" && !Fits(width, maxW, cur + [rest[0]]) then [cur] + WrapFrom(width, maxW, [rest[0]], rest[1..])
    else WrapFrom(width, maxW, cur + [rest[0]], rest[1..])
  }

  function Wrap(width: Measure, maxW: real, text: string): seq<string> { WrapFrom(width, maxW, "", text) }

  method WrapText(width: Measure, text: string, maxW: real) returns (lines: seq<string>)
    ensures lines == Wrap(width, maxW, text)
  {
    lines := [];
    var cur := "";
    for i := 0 to |text|
      invariant Wrap(width, maxW, text) == lines + WrapFrom(width, maxW, cur, text[i..])
    {
      var r := text[i];
      assert text[i..][0] == r && text[i..][1..] == text[i + 1..];
      if r == '\n' {
        lines := lines + [cur];
        cur := "";
        continue;
      }
      var candidate := cur + [r];
      var w := width(candidate);
      if w.Some? && w.value > maxW && |cur| > 0 {
        lines := lines + [cur];
        cur := [r];
        continue;
      }
      cur := cur + [r];
    }
    assert text[|text|..] == "";
    lines := lines + [cur];
  }

  predicate NoNewline(s: string) { '\n' !in s }

  /** The lines of a paragraph put together are the paragraph. */
  lemma {:induction false} WrapFromLossless(width: Measure, maxW: real, cur: string, rest: string)
    requires NoNewline(rest)
    ensures Flatten(WrapFrom(width, maxW, cur, rest)) == cur + rest
    decreases |rest|
  {
    if rest != "" {
      var r := rest[0];
      assert r in rest && r != '\n';
      assert rest == [r] + rest[1..];
      WrapFromLossless(width, maxW, [r], rest[1..]);
      WrapFromLossless(width, maxW, cur + [r], rest[1..]);
      assert cur + [r] + rest[1..] == cur + rest;
      var tail := WrapFrom(width, maxW, [r], rest[1..]);
      assert ([cur] + tail)[1..] == tail;
    } else {
      assert [cur][1..] == [] && cur + "" == cur;
    }
  }

  lemma WrapLossless(width: Measure, maxW: real, text: string)
    requires NoNewline(text)
    ensures Flatten(Wrap(width, maxW, text)) == text
  {
    WrapFromLossless(width, maxW, "", text);
  }

  lemma {:induction false} LinesGoodFrom(width: Measure, maxW: real, cur: string, rest: string)
    requires Good(width, maxW, cur)
    ensures forall k :: 0 <= k < |WrapFrom(width, maxW, cur, rest)| ==> Good(width, maxW, WrapFrom(width, maxW, cur, rest)[k])
    decreases |rest|
  {
    if rest != "" {
      var r := rest[0];
      if r == '\n' {
        LinesGoodFrom(width, maxW, "", rest[1..]);
      } else if cur != "" && !Fits(width, maxW, cur + [r]) {
        LinesGoodFrom(width, maxW, [r], rest[1..]);
      } else {
        LinesGoodFrom(width, maxW, cur + [r], rest[1..]);
      }
    }
  }

  /** Every line fits or is a single rune, for any text and any font. */
  lemma LinesGood(width: Measure, maxW: real, text: string)
    ensures forall k :: 0 <= k < |Wrap(width, maxW, text)| ==> Good(width, maxW, Wrap(width, maxW, text)[k])
  {
    LinesGoodFrom(width, maxW, "", text);
  }

  /** A line that can be printed: no measurement says it is wider than the page, or
      it is a single rune. */
  predicate Printable(width: Measure, maxW: real, s: string) {
    |s| <= 1 || width(s) == None || width(s).value <= maxW
  }

  /** The break between two lines of a paragraph is needed: the first rune of the
      second one would have made the first one too wide. */
  predicate BreakNeeded(width: Measure, maxW: real, a: string, b: string) {
    b != "" && a != "" && width(a + [b[0]]).Some? && width(a + [b[0]]).value > maxW
  }

  lemma {:induction false} BreaksNeededFrom(width: Measure, maxW: real, cur: string, rest: string)
    requires NoNewline(rest)
    ensures var lines := WrapFrom(width, maxW, cur, rest);
            && lines != [] && cur <= lines[0] && (rest != "" && cur == "" ==> lines[0] != "" && lines[0][0] == rest[0])
            && forall k :: 0 <= k < |lines| - 1 ==> BreakNeeded(width, maxW, lines[k], lines[k + 1])
    decreases |rest|
  {
    if rest != "" {
      var r := rest[0];
      assert r in rest;
      var lines := WrapFrom(width, maxW, cur, rest);
      if cur != "" && !Fits(width, maxW, cur + [r]) {
        BreaksNeededFrom(width, maxW, [r], rest[1..]);
        var tail := WrapFrom(width, maxW, [r], rest[1..]);
        assert lines == [cur] + tail && tail[0][0] == r;
      } else {
        BreaksNeededFrom(width, maxW, cur + [r], rest[1..]);
        assert (cur + [r])[|cur|] == r && (cur + [r])[..|cur|] == cur;
        assert lines == WrapFrom(width, maxW, cur + [r], rest[1..]);
        assert lines[0][..|cur| + 1] == cur + [r];
      }
    }
  }

  /** Lines are printable, and a paragraph is broken only where it must be. */
  lemma BreaksExactly(width: Measure, maxW: real, text: string)
    requires NoNewline(text)
    ensures var lines := Wrap(width, maxW, text);
            && (forall k :: 0 <= k < |lines| ==> Printable(width, maxW, lines[k]))
            && forall k :: 0 <= k < |lines| - 1 ==> BreakNeeded(width, maxW, lines[k], lines[k + 1])
  {
    BreaksNeededFrom(width, maxW, "", text);
    LinesGood(width, maxW, text);
    var lines := Wrap(width, maxW, text);
    forall k | 0 <= k < |lines| ensures Printable(width, maxW, lines[k]) { assert Good(width, maxW, lines[k]); }
  }

  /** Paragraphs do not influence each other. */
  lemma {:induction false} ParagraphsCompose(width: Measure, maxW: real, cur: string, p: string, q: string)
    ensures WrapFrom(width, maxW, cur, p + "\n" + q) == WrapFrom(width, maxW, cur, p) + Wrap(width, maxW, q)
    decreases |p|
  {
    var all := p + "\n" + q;
    if p == "" {
      assert all[0] == '\n' && all[1..] == q;
    } else {
      assert all[0] == p[0] && all[1..] == p[1..] + "\n" + q;
      ParagraphsCompose(width, maxW, "", p[1..], q);
      ParagraphsCompose(width, maxW, [p[0]], p[1..], q);
      ParagraphsCompose(width, maxW, cur + [p[0]], p[1..], q);
    }
  }

  // ---------------------------------------------------------------------
  // No other way to break a paragraph needs fewer lines
  // ---------------------------------------------------------------------

  /** Part of a fitting text fits. */
  ghost predicate Monotone(width: Measure, maxW: real) {
    forall s: string, i: nat, j: nat :: i <= j <= |s| && Fits(width, maxW, s) ==> Fits(width, maxW, s[i..j])
  }

  /** The first line of `text`, once its first `n` runes are taken, ends at `e`:
      it takes all it can. */
  lemma {:induction false} FirstLine(width: Measure, maxW: real, text: string, n: nat) returns (e: nat)
    requires 1 <= n <= |text| && NoNewline(text)
    ensures n <= e <= |text|
    ensures e == |text| ==> WrapFrom(width, maxW, text[..n], text[n..]) == [text]
    ensures e < |text| ==> WrapFrom(width, maxW, text[..n], text[n..]) == [text[..e]] + WrapFrom(width, maxW, [text[e]], text[e + 1..])
    ensures e < |text| ==> !Fits(width, maxW, text[..e + 1])
    decreases |text| - n
  {
    if n == |text| {
      e := n;
      assert text[..n] == text;
    } else {
      assert text[n] in text;
      assert text[n..][0] == text[n] && text[n..][1..] == text[n + 1..];
      assert text[..n] + [text[n]] == text[..n + 1];
      if !Fits(width, maxW, text[..n + 1]) {
        e := n;
      } else {
        e := FirstLine(width, maxW, text, n + 1);
      }
    }
  }

  /** A good prefix longer than `e` makes the one of `e + 1` runes fit. */
  lemma LongPrefixFits(width: Measure, maxW: real, text: string, p: nat, e: nat)
    requires Monotone(width, maxW) && 1 <= e < |text| && p <= |text| && Good(width, maxW, text[..p])
    ensures p > e ==> Fits(width, maxW, text[..e + 1])
  {
    assert p > e ==> text[..p][0..e + 1] == text[..e + 1];
  }

  /** The greedy lines of a text that does not fit on one. */
  lemma WrapFirst(width: Measure, maxW: real, text: string) returns (e: nat)
    requires NoNewline(text) && text != ""
    ensures 1 <= e <= |text|
    ensures e == |text| ==> |Wrap(width, maxW, text)| == 1
    ensures e < |text| ==> !Fits(width, maxW, text[..e + 1])
    ensures e < |text| ==> |Wrap(width, maxW, text)| == 1 + |Wrap(width, maxW, text[e..])|
  {
    assert text[0] in text;
    assert "" + [text[0]] == text[..1];
    e := FirstLine(width, maxW, text, 1);
    if e < |text| {
      var later := text[e..];
      assert later[0] == text[e] && later[0] in text && later[1..] == text[e + 1..];
      assert "" + [later[0]] == [text[e]];
    }
  }

  /** However a text that ends in `text` is broken into good lines, it takes at
      least as many lines as `text` alone does greedily. */
  lemma {:induction false} GreedyStaysAhead(width: Measure, maxW: real, other: seq<string>, d: nat, text: string)
    requires Monotone(width, maxW) && NoNewline(text) && text != ""
    requires forall k :: 0 <= k < |other| ==> Good(width, maxW, other[k])
    requires d <= |Flatten(other)| && Flatten(other)[d..] == text
    ensures |Wrap(width, maxW, text)| <= |other|
    decreases other
  {
    var o, rest := other[0], other[1..];
    assert Flatten(other) == o + Flatten(rest);
    if |o| <= d {
      assert Flatten(rest)[d - |o|..] == text;
      GreedyStaysAhead(width, maxW, rest, d - |o|, text);
    } else {
      var e := WrapFirst(width, maxW, text);
      if e < |text| {
        var p := |o| - d;
        assert text[..p] == o[d..];
        GoodSuffix(width, maxW, o, d);
        LongPrefixFits(width, maxW, text, p, e);
        assert Flatten(rest)[e - p..] == text[e..];
        assert forall k :: 0 <= k < |text[e..]| ==> text[e..][k] in text;
        GreedyStaysAhead(width, maxW, rest, e - p, text[e..]);
      }
    }
  }

  lemma GoodSuffix(width: Measure, maxW: real, o: string, d: nat)
    requires Monotone(width, maxW) && d <= |o| && Good(width, maxW, o)
    ensures Good(width, maxW, o[d..])
  {
    assert o[d..|o|] == o[d..];
  }

  /** The greedy lines are as few as any: a paragraph cannot be broken into fewer
      lines that fit or are single runes. */
  lemma WrapIsOptimal(width: Measure, maxW: real, text: string, other: seq<string>)
    requires Monotone(width, maxW) && NoNewline(text) && other != []
    requires Flatten(other) == text && forall k :: 0 <= k < |other| ==> Good(width, maxW, other[k])
    ensures |Wrap(width, maxW, text)| <= |other|
  {
    if text != "" {
      assert text[0..] == text;
      GreedyStaysAhead(width, maxW, other, 0, text);
    }
  }
}
