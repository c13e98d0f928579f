/** A printer for template expressions, and the round trip through lexer and parser. */
module ExprPrinter {
  import opened Prelude
  import opened ExprLexer
  import opened ExprParser
  import opened ExprGrammar

  /** A string that one of the two quote kinds can delimit (there are no escapes). */
  predicate Quotable(s: string) { '\'' !in s || '"' !in s }

  /** The nodes the printer accepts; `ParseImage` shows they are all there are. */
  predicate Printable(n: Node) {
    match n
    case RootRef(name) => IsRoot(name)
    case NodeRef(id) => Quotable(id)
    case Member(recv, name) => Printable(recv) && IsIdent(name)
    case Index(recv, key, isInt) => Printable(recv) && if isInt then key != [] && AllDigits(key) else Quotable(key)
    case StrLit(text) => Quotable(text)
    case IntLit(num) => 0 <= num <= MAX_INT64
    case Concat(parts) => |parts| >= 2 && forall p :: p in parts ==> Printable(p)
    case Method(recv, name) => Printable(recv) && name == "toLowerCase"
    case JsonStringify(arg) => Printable(arg)
  }

  const STRINGIFY_HEAD := [Ident("JSON"), Dot, Ident("stringify"), LParen]

  const LOWER_CALL := [Dot, Ident("toLowerCase"), LParen, RParen]

  /** Tokens of a node where the grammar wants a unary: a concat gets parentheses. */
  function UnaryTokens(n: Node): seq<Token>
    requires Printable(n)
    decreases n, 1
  {
    if n.Concat? then [LParen] + Tokens(n) + [RParen] else Tokens(n)
  }

  function Tokens(n: Node): seq<Token>
    requires Printable(n)
    decreases n, 0
  {
    match n
    case RootRef(name) => [Ident(name)]
    case NodeRef(id) => [Ident("$node"), LBracket, Str(id), RBracket]
    case Member(recv, name) => UnaryTokens(recv) + [Dot, Ident(name)]
    case Index(recv, key, isInt) => UnaryTokens(recv) + [LBracket, if isInt then Int(key) else Str(key), RBracket]
    case StrLit(text) => [Str(text)]
    case IntLit(num) => [Int(Decimal(num))]
    case Concat(parts) => SumTokens(parts)
    case Method(recv, name) => UnaryTokens(recv) + LOWER_CALL
    case JsonStringify(arg) => STRINGIFY_HEAD + Tokens(arg) + [RParen]
  }

  function SumTokens(parts: seq<Node>): seq<Token>
    requires parts != [] && forall p :: p in parts ==> Printable(p)
    decreases parts, 2
  {
    if |parts| == 1 then UnaryTokens(parts[0])
    else UnaryTokens(parts[0]) + [Plus] + SumTokens(parts[1..])
  }

  // ---------------------------------------------------------------------
  // The printed tokens derive the node
  // ---------------------------------------------------------------------

  lemma {:induction false} UnaryTokensDerive(ts: seq<Token>, i: nat, j: nat, n: Node)
    requires Printable(n) && i <= j <= |ts| && ts[i..j] == UnaryTokens(n)
    ensures GUnary(ts, i, j, n)
    decreases n, 2
  {
    if n.Concat? {
      Bracketed(ts, i, j, [LParen], Tokens(n));
      assert ts[i] == ts[i..i + 1][0];
      SumTokensDerive(ts, i + 1, j - 1, n.parts);
      SumNonEmpty(ts, i + 1, j - 1, n.parts);
      assert GConcat(ts, i + 1, j - 1, n);
      assert GPrimary(ts, i, j, n);
    } else {
      PlainTokensDerive(ts, i, j, n);
    }
  }

  lemma {:induction false} PlainTokensDerive(ts: seq<Token>, i: nat, j: nat, n: Node)
    requires Printable(n) && !n.Concat? && i <= j <= |ts| && ts[i..j] == Tokens(n)
    ensures GUnary(ts, i, j, n)
    decreases n, 1
  {
    if n.Member? || n.Index? || n.Method? {
      PostfixTokensDerive(ts, i, j, n);
    } else if n.JsonStringify? {
      StringifyTokensDerive(ts, i, j, n);
    } else {
      LeafTokensDerive(ts, i, j, n);
    }
  }

  lemma {:induction false} PostfixTokensDerive(ts: seq<Token>, i: nat, j: nat, n: Node)
    requires Printable(n) && (n.Member? || n.Index? || n.Method?) && i <= j <= |ts| && ts[i..j] == Tokens(n)
    ensures GUnary(ts, i, j, n)
    decreases n, 0
  {
    var tail := Tokens(n)[|UnaryTokens(n.recv)|..];
    assert Tokens(n) == UnaryTokens(n.recv) + tail;
    SplitTail(ts, i, j, UnaryTokens(n.recv), tail);
    UnaryTokensDerive(ts, i, j - |tail|, n.recv);
    UnaryNonEmpty(ts, i, j - |tail|, n.recv);
  }

  lemma {:induction false} StringifyTokensDerive(ts: seq<Token>, i: nat, j: nat, n: Node)
    requires Printable(n) && n.JsonStringify? && i <= j <= |ts| && ts[i..j] == Tokens(n)
    ensures GUnary(ts, i, j, n)
    decreases n, 0
  {
    Bracketed(ts, i, j, STRINGIFY_HEAD, Tokens(n.arg));
    TokensDerive(ts, i + 4, j - 1, n.arg);
    ConcatNonEmpty(ts, i + 4, j - 1, n.arg);
    assert GPrimary(ts, i, j, n);
  }

  lemma LeafTokensDerive(ts: seq<Token>, i: nat, j: nat, n: Node)
    requires Printable(n) && (n.RootRef? || n.NodeRef? || n.StrLit? || n.IntLit?)
    requires i <= j <= |ts| && ts[i..j] == Tokens(n)
    ensures GUnary(ts, i, j, n)
  {
    if n.IntLit? {
      AtoiDecimal(n.num);
      assert ts[i] == ts[i..j][0];
    }
    assert GPrimary(ts, i, j, n);
  }

  lemma Bracketed(ts: seq<Token>, i: nat, j: nat, head: seq<Token>, inner: seq<Token>)
    requires i <= j <= |ts| && ts[i..j] == head + inner + [RParen]
    ensures i + |head| + |inner| == j - 1 && ts[i..i + |head|] == head
    ensures ts[i + |head|..j - 1] == inner && ts[j - 1] == RParen
  {
    assert head + inner + [RParen] == head + (inner + [RParen]);
    SplitTail(ts, i, j, head, inner + [RParen]);
    SplitTail(ts, i + |head|, j, inner, [RParen]);
    assert ts[j - 1] == ts[j - 1..j][0];
  }

  lemma SplitTail(ts: seq<Token>, i: nat, j: nat, a: seq<Token>, b: seq<Token>)
    requires i <= j <= |ts| && ts[i..j] == a + b
    ensures i + |a| == j - |b| && ts[i..i + |a|] == a && ts[j - |b|..j] == b
  {
    assert ts[i..j][..|a|] == ts[i..i + |a|];
    assert ts[i..j][|a|..] == ts[i + |a|..j];
  }

  lemma ConcatNonEmpty(ts: seq<Token>, i: nat, j: nat, n: Node)
    requires i <= j <= |ts| && GConcat(ts, i, j, n)
    ensures i < j
  {
    if GUnary(ts, i, j, n) { UnaryNonEmpty(ts, i, j, n); } else { SumNonEmpty(ts, i, j, n.parts); }
  }

  /** Where the first plus of a printed sum stands. */
  lemma SumCut(ts: seq<Token>, i: nat, j: nat, parts: seq<Node>) returns (k: nat)
    requires |parts| > 1 && (forall p :: p in parts ==> Printable(p))
    requires i <= j <= |ts| && ts[i..j] == SumTokens(parts)
    ensures i <= k < j && ts[i..k] == UnaryTokens(parts[0]) && ts[k] == Plus && ts[k + 1..j] == SumTokens(parts[1..])
  {
    var first, rest := UnaryTokens(parts[0]), SumTokens(parts[1..]);
    k := i + |first|;
    assert ts[i..j] == first + ([Plus] + rest);
    SplitTail(ts, i, j, first, [Plus] + rest);
    SplitTail(ts, k, j, [Plus], rest);
    assert ts[k] == ts[k..k + 1][0];
  }

  lemma {:induction false} SumTokensDerive(ts: seq<Token>, i: nat, j: nat, parts: seq<Node>)
    requires parts != [] && (forall p :: p in parts ==> Printable(p))
    requires i <= j <= |ts| && ts[i..j] == SumTokens(parts)
    ensures GSum(ts, i, j, parts)
    decreases parts, 3
  {
    if |parts| == 1 {
      UnaryTokensDerive(ts, i, j, parts[0]);
    } else {
      var k := SumCut(ts, i, j, parts);
      UnaryTokensDerive(ts, i, k, parts[0]);
      UnaryNonEmpty(ts, i, k, parts[0]);
      SumTokensDerive(ts, k + 1, j, parts[1..]);
      assert SplitAt(ts, i, k, j);
    }
  }

  lemma {:induction false} TokensDerive(ts: seq<Token>, i: nat, j: nat, n: Node)
    requires Printable(n) && i <= j <= |ts| && ts[i..j] == Tokens(n)
    ensures GConcat(ts, i, j, n)
    decreases n, 3
  {
    if n.Concat? {
      SumTokensDerive(ts, i, j, n.parts);
    } else {
      PlainTokensDerive(ts, i, j, n);
    }
  }

  // ---------------------------------------------------------------------
  // The printed tokens can be written without separators
  // ---------------------------------------------------------------------

  lemma FitsAppend(a: seq<Token>, b: seq<Token>)
    requires Fits(a) && Fits(b) && a != [] && b != []
    requires !Wordy(a[|a| - 1]) || !Wordy(b[0])
    ensures Fits(a + b)
  {
    var c := a + b;
    forall k | 0 <= k < |c| - 1 ensures Apart(c, k) {
      if k + 1 < |a| { assert Apart(a, k); }
      else if k >= |a| { assert Apart(b, k - |a|); }
    }
  }

  lemma StringifyHeadFits()
    ensures Fits(STRINGIFY_HEAD)
  {
    assert IsIdent("JSON") && IsIdent("stringify");
  }

  lemma LowerCallFits()
    ensures Fits(LOWER_CALL)
  {
    assert IsIdent("toLowerCase");
  }

  lemma {:induction false} UnaryTokensFit(n: Node)
    requires Printable(n)
    ensures UnaryTokens(n) != [] && Fits(UnaryTokens(n))
    decreases n, 1
  {
    TokensFit(n);
    if n.Concat? {
      FitsAppend([LParen], Tokens(n));
      FitsAppend([LParen] + Tokens(n), [RParen]);
    }
  }

  lemma LeafTokensFit(n: Node)
    requires Printable(n) && (n.RootRef? || n.NodeRef? || n.StrLit? || n.IntLit?)
    ensures Fits(Tokens(n))
  {
    assert IsIdent("$json") && IsIdent("$binary") && IsIdent("$now") && IsIdent("$node");
  }

  lemma {:induction false} TokensFit(n: Node)
    requires Printable(n)
    ensures Tokens(n) != [] && Fits(Tokens(n))
    decreases n, 0
  {
    match n {
      case Member(recv, name) =>
        UnaryTokensFit(recv);
        FitsAppend(UnaryTokens(recv), [Dot, Ident(name)]);
      case Index(recv, key, isInt) =>
        UnaryTokensFit(recv);
        FitsAppend(UnaryTokens(recv), [LBracket, if isInt then Int(key) else Str(key), RBracket]);
      case Method(recv, name) =>
        UnaryTokensFit(recv);
        LowerCallFits();
        FitsAppend(UnaryTokens(recv), LOWER_CALL);
      case Concat(parts) =>
        SumTokensFit(parts);
      case JsonStringify(arg) =>
        TokensFit(arg);
        StringifyHeadFits();
        FitsAppend(STRINGIFY_HEAD, Tokens(arg));
        FitsAppend(STRINGIFY_HEAD + Tokens(arg), [RParen]);
      case _ =>
        LeafTokensFit(n);
    }
  }

  lemma {:induction false} SumTokensFit(parts: seq<Node>)
    requires parts != [] && forall p :: p in parts ==> Printable(p)
    ensures SumTokens(parts) != [] && Fits(SumTokens(parts))
    decreases parts, 2
  {
    UnaryTokensFit(parts[0]);
    if |parts| > 1 {
      SumTokensFit(parts[1..]);
      FitsAppend(UnaryTokens(parts[0]), [Plus]);
      FitsAppend(UnaryTokens(parts[0]) + [Plus], SumTokens(parts[1..]));
    }
  }

  // ---------------------------------------------------------------------
  // The round trip, and its converse
  // ---------------------------------------------------------------------

  function Print(n: Node): string
    requires Printable(n)
  {
    TokensFit(n);
    Write(Tokens(n))
  }

  /** Any text that spells the node's tokens, whatever its white space and
      quote kinds, parses to the node. */
  lemma SpellingParses(span: string, n: Node)
    requires Printable(n) && Spells(span, 0, Tokens(n) + [EOF])
    ensures ParseSpan(span) == Ok(n)
  {
    var ts := Tokens(n) + [EOF];
    SpelledTokens(span, 0, ts);
    assert ts[0..|ts| - 1] == Tokens(n);
    TokensDerive(ts, 0, |ts| - 1, n);
    assert Derives(ts, n);
    SpanDecides(span, n);
  }

  /** Printing then parsing is the identity on every printable node. */
  lemma RoundTrip(n: Node)
    requires Printable(n)
    ensures ParseSpan(Print(n)) == Ok(n)
  {
    TokensFit(n);
    var span := Print(n);
    assert span[0..] == Write(Tokens(n));
    WriteSpells(span, 0, Tokens(n));
    SpellingParses(span, n);
  }

  lemma {:induction false} DerivedPrintable(ts: seq<Token>, i: nat, j: nat, n: Node)
    requires i <= j <= |ts| && GConcat(ts, i, j, n)
    requires forall k :: i <= k < j ==> Writable(ts[k])
    ensures Printable(n)
    decreases j - i, 3
  {
    if GUnary(ts, i, j, n) {
      UnaryPrintable(ts, i, j, n);
    } else {
      SumPrintable(ts, i, j, n.parts);
    }
  }

  lemma {:induction false} SumPrintable(ts: seq<Token>, i: nat, j: nat, parts: seq<Node>)
    requires i <= j <= |ts| && GSum(ts, i, j, parts)
    requires forall k :: i <= k < j ==> Writable(ts[k])
    ensures forall p :: p in parts ==> Printable(p)
    decreases j - i, 2
  {
    if |parts| == 1 {
      UnaryPrintable(ts, i, j, parts[0]);
    } else {
      var k := SumSplit(ts, i, j, parts);
      UnaryPrintable(ts, i, k, parts[0]);
      SumPrintable(ts, k + 1, j, parts[1..]);
      assert parts == [parts[0]] + parts[1..];
    }
  }

  lemma {:induction false} UnaryPrintable(ts: seq<Token>, i: nat, j: nat, n: Node)
    requires i <= j <= |ts| && GUnary(ts, i, j, n)
    requires forall k :: i <= k < j ==> Writable(ts[k])
    ensures Printable(n)
    decreases j - i, 1
  {
    if GPrimary(ts, i, j, n) {
      PrimaryPrintable(ts, i, j, n);
    } else if n.Member? {
      assert ts[j - 1] == ts[j - 2..j][1];
      UnaryPrintable(ts, i, j - 2, n.recv);
    } else if n.Index? {
      assert ts[j - 2] == ts[j - 3..j][1];
      UnaryPrintable(ts, i, j - 3, n.recv);
    } else {
      UnaryPrintable(ts, i, j - 4, n.recv);
    }
  }

  lemma {:induction false} PrimaryPrintable(ts: seq<Token>, i: nat, j: nat, n: Node)
    requires i <= j <= |ts| && GPrimary(ts, i, j, n)
    requires forall k :: i <= k < j ==> Writable(ts[k])
    ensures Printable(n)
    decreases j - i, 0
  {
    if n.StrLit? && ts[i..j] == [Str(n.text)] {
      assert ts[i] == ts[i..j][0];
    } else if n.NodeRef? && ts[i..j] == [Ident("$node"), LBracket, Str(n.id), RBracket] {
      assert ts[i + 2] == ts[i..j][2];
    } else if n.IntLit? && j == i + 1 && ts[i].Int? && Atoi(ts[i].val) == Some(n.num) {
      assert IsDigit(ts[i].val[0]);
    } else if n.RootRef? && IsRoot(n.name) && ts[i..j] == [Ident(n.name)] {
    } else if j - i >= 3 && ts[i] == LParen && ts[j - 1] == RParen && GConcat(ts, i + 1, j - 1, n) {
      DerivedPrintable(ts, i + 1, j - 1, n);
    } else {
      DerivedPrintable(ts, i + 4, j - 1, n.arg);
    }
  }

  /** The printable nodes are exactly those some text parses to. */
  lemma ParseImage(n: Node)
    ensures Printable(n) <==> exists span :: ParseSpan(span) == Ok(n)
  {
    if Printable(n) { RoundTrip(n); }
    if span :| ParseSpan(span) == Ok(n) {
      SpanDecides(span, n);
      var ts :| Spells(span, 0, ts) && Derives(ts, n);
      SpelledTokens(span, 0, ts);
      DerivedPrintable(ts, 0, |ts| - 1, n);
    }
  }

  /** Reprinting what was parsed keeps its meaning: the canonical text of a
      parsed span parses to the same node. */
  lemma ReprintStable(span: string)
    requires ParseSpan(span).Ok?
    ensures Printable(ParseSpan(span).value) && ParseSpan(Print(ParseSpan(span).value)) == ParseSpan(span)
  {
    var n := ParseSpan(span).value;
    ParseImage(n);
    RoundTrip(n);
  }
}
