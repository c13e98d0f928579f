/** The parser decides the grammar: soundness, completeness, unambiguity. */
module ExprGrammar {
  import opened Prelude
  import opened ExprLexer
  import opened ExprParser

  lemma {:induction false} SumNonEmpty(ts: seq<Token>, i: nat, j: nat, parts: seq<Node>)
    requires i <= j <= |ts| && GSum(ts, i, j, parts)
    ensures i < j
    decreases j - i, 2
  {
    if |parts| == 1 { UnaryNonEmpty(ts, i, j, parts[0]); }
  }

  lemma {:induction false} UnaryNonEmpty(ts: seq<Token>, i: nat, j: nat, n: Node)
    requires i <= j <= |ts| && GUnary(ts, i, j, n)
    ensures i < j
  {
  }

  lemma SumSplit(ts: seq<Token>, i: nat, j: nat, parts: seq<Node>) returns (k: nat)
    requires i <= j <= |ts| && |parts| >= 2 && GSum(ts, i, j, parts)
    ensures SplitAt(ts, i, k, j) && GUnary(ts, i, k, parts[0]) && GSum(ts, k + 1, j, parts[1..])
  {
    k :| SplitAt(ts, i, k, j) && GUnary(ts, i, k, parts[0]) && GSum(ts, k + 1, j, parts[1..]);
  }

  // ---------------------------------------------------------------------
  // Completeness: whatever the grammar derives, the parser finds
  // ---------------------------------------------------------------------

  /** A token that can follow a whole expression. */
  predicate Closes(t: Token) { t.RParen? || t.EOF? }

  lemma {:induction false} PrimaryComplete(ts: seq<Token>, i: nat, j: nat, n: Node)
    requires Terminated(ts) && i <= j < |ts| && GPrimary(ts, i, j, n)
    ensures PPrimary(ts, i) == Done(n, j)
    decreases j - i, 0
  {
    if GLeaf(ts, i, j, n) {
      LeafComplete(ts, i, j, n);
    } else if j - i >= 3 && ts[i] == LParen && ts[j - 1] == RParen && GConcat(ts, i + 1, j - 1, n) {
      ConcatComplete(ts, i + 1, j - 1, n);
      ParenComplete(ts, i, j, n);
    } else {
      ConcatComplete(ts, i + 4, j - 1, n.arg);
      StringifyComplete(ts, i, j, n.arg);
    }
  }

  lemma LeafComplete(ts: seq<Token>, i: nat, j: nat, n: Node)
    requires Terminated(ts) && i <= j < |ts| && GLeaf(ts, i, j, n)
    ensures PPrimary(ts, i) == Done(n, j)
  {
    if n.NodeRef? {
      assert ts[i] == ts[i..j][0] && ts[i + 1] == ts[i..j][1] && ts[i + 2] == ts[i..j][2] && ts[i + 3] == ts[i..j][3];
      assert !IsRoot("$node");
    } else {
      assert ts[i] == ts[i..j][0];
    }
  }

  lemma ParenComplete(ts: seq<Token>, i: nat, j: nat, n: Node)
    requires Terminated(ts) && i + 3 <= j < |ts| && ts[i] == LParen && ts[j - 1] == RParen
    requires PConcat(ts, i + 1) == Done(n, j - 1)
    ensures PPrimary(ts, i) == Done(n, j)
  {
  }

  lemma StringifyComplete(ts: seq<Token>, i: nat, j: nat, arg: Node)
    requires Terminated(ts) && i + 6 <= j < |ts| && ts[i..i + 4] == [Ident("JSON"), Dot, Ident("stringify"), LParen]
    requires ts[j - 1] == RParen && PConcat(ts, i + 4) == Done(arg, j - 1)
    ensures PPrimary(ts, i) == Done(JsonStringify(arg), j)
  {
    var h := ts[i..i + 4];
    assert ts[i] == h[0] && ts[i + 1] == h[1] && ts[i + 2] == h[2] && ts[i + 3] == h[3];
    assert !IsRoot("JSON") && "JSON" != "$node" by { assert "JSON"[0] == 'J'; }
    StartsExpression(ts, i + 4, j - 1, arg);
  }

  /** No expression starts with a closing parenthesis. */
  lemma StartsExpression(ts: seq<Token>, i: nat, j: nat, n: Node)
    requires Terminated(ts) && i <= j < |ts| && PConcat(ts, i).Done?
    ensures !ts[i].RParen?
  {
    assert PUnary(ts, i).Done? && PPrimary(ts, i).Done?;
  }

  lemma MemberStep(ts: seq<Token>, j: nat, recv: Node, name: string)
    requires Terminated(ts) && j + 2 < |ts| && ts[j..j + 2] == [Dot, Ident(name)] && !ts[j + 2].LParen?
    ensures !ts[j].LParen? && PPostfix(ts, j, recv) == PPostfix(ts, j + 2, Member(recv, name))
  {
    assert ts[j] == ts[j..j + 2][0] && ts[j + 1] == ts[j..j + 2][1];
  }

  lemma IndexStep(ts: seq<Token>, j: nat, recv: Node, key: string, isInt: bool)
    requires Terminated(ts) && j + 3 < |ts| && ts[j..j + 3] == [LBracket, if isInt then Int(key) else Str(key), RBracket]
    ensures !ts[j].LParen? && PPostfix(ts, j, recv) == PPostfix(ts, j + 3, Index(recv, key, isInt))
  {
    assert ts[j] == ts[j..j + 3][0] && ts[j + 1] == ts[j..j + 3][1] && ts[j + 2] == ts[j..j + 3][2];
  }

  lemma MethodStep(ts: seq<Token>, j: nat, recv: Node)
    requires Terminated(ts) && j + 4 < |ts| && ts[j..j + 4] == [Dot, Ident("toLowerCase"), LParen, RParen]
    ensures !ts[j].LParen? && PPostfix(ts, j, recv) == PPostfix(ts, j + 4, Method(recv, "toLowerCase"))
  {
    var tail := ts[j..j + 4];
    assert ts[j] == tail[0] && ts[j + 1] == tail[1] && ts[j + 2] == tail[2] && ts[j + 3] == tail[3];
  }

  /** Parsing a derivable unary arrives in the postfix loop holding its node. */
  lemma {:induction false} UnaryComplete(ts: seq<Token>, i: nat, j: nat, n: Node)
    requires Terminated(ts) && i <= j < |ts| && GUnary(ts, i, j, n) && !ts[j].LParen?
    ensures PUnary(ts, i) == PPostfix(ts, j, n)
    decreases j - i, 1
  {
    if GPrimary(ts, i, j, n) {
      PrimaryComplete(ts, i, j, n);
    } else if n.Member? {
      MemberStep(ts, j - 2, n.recv, n.name);
      UnaryComplete(ts, i, j - 2, n.recv);
    } else if n.Index? {
      IndexStep(ts, j - 3, n.recv, n.key, n.isInt);
      UnaryComplete(ts, i, j - 3, n.recv);
    } else {
      MethodStep(ts, j - 4, n.recv);
      UnaryComplete(ts, i, j - 4, n.recv);
    }
  }

  /** What the concat loop does from position `i`, where a unary is due. */
  function PSum(ts: seq<Token>, i: nat, acc: seq<Node>): Step<seq<Node>>
    requires Terminated(ts) && i < |ts|
  {
    match PUnary(ts, i)
    case Fail(e) => Fail(e)
    case Done(n, p) => PTail(ts, p, acc + [n])
  }

  lemma PostfixStops(ts: seq<Token>, j: nat, n: Node)
    requires Terminated(ts) && j < |ts| && (Closes(ts[j]) || ts[j].Plus?)
    ensures !ts[j].LParen? && PPostfix(ts, j, n) == Done(n, j)
  {
  }

  /** The last unary of a sum, and one with more behind it. */
  lemma SumEnds(ts: seq<Token>, i: nat, j: nat, n: Node, acc: seq<Node>)
    requires Terminated(ts) && i <= j < |ts| && PUnary(ts, i) == Done(n, j) && Closes(ts[j])
    ensures PSum(ts, i, acc) == Done(acc + [n], j) && PConcat(ts, i) == Done(n, j)
  {
  }

  lemma SumGoesOn(ts: seq<Token>, i: nat, k: nat, n: Node, acc: seq<Node>)
    requires Terminated(ts) && i < |ts| && k + 1 < |ts| && PUnary(ts, i) == Done(n, k) && ts[k].Plus?
    ensures PSum(ts, i, acc) == PSum(ts, k + 1, acc + [n])
  {
    assert PTail(ts, k, acc + [n]) == PSum(ts, k + 1, acc + [n]);
  }

  lemma ConcatOfSum(ts: seq<Token>, i: nat, k: nat, first: Node, parts: seq<Node>, j: nat)
    requires Terminated(ts) && i < |ts| && k + 1 < |ts| && PUnary(ts, i) == Done(first, k) && ts[k].Plus?
    requires PSum(ts, k + 1, [first]) == Done(parts, j)
    ensures PConcat(ts, i) == Done(Concat(parts), j)
  {
    assert PTail(ts, k, [first]) == PSum(ts, k + 1, [first]);
  }

  /** A derivable unary in front of a `+` or of the end. */
  lemma {:induction false} OperandComplete(ts: seq<Token>, i: nat, j: nat, n: Node)
    requires Terminated(ts) && i <= j < |ts| && GUnary(ts, i, j, n) && (Closes(ts[j]) || ts[j].Plus?)
    ensures PUnary(ts, i) == Done(n, j)
    decreases j - i, 2
  {
    PostfixStops(ts, j, n);
    UnaryComplete(ts, i, j, n);
  }

  lemma {:induction false} SumComplete(ts: seq<Token>, i: nat, j: nat, parts: seq<Node>, acc: seq<Node>)
    requires Terminated(ts) && i <= j < |ts| && GSum(ts, i, j, parts) && Closes(ts[j])
    ensures PSum(ts, i, acc) == Done(acc + parts, j)
    decreases j - i, 3
  {
    if |parts| == 1 {
      OperandComplete(ts, i, j, parts[0]);
      SumEnds(ts, i, j, parts[0], acc);
      assert parts == [parts[0]];
    } else {
      var k := SumSplit(ts, i, j, parts);
      OperandComplete(ts, i, k, parts[0]);
      SumGoesOn(ts, i, k, parts[0], acc);
      SumComplete(ts, k + 1, j, parts[1..], acc + [parts[0]]);
      assert acc + [parts[0]] + parts[1..] == acc + parts;
    }
  }

  lemma {:induction false} ConcatComplete(ts: seq<Token>, i: nat, j: nat, n: Node)
    requires Terminated(ts) && i <= j < |ts| && GConcat(ts, i, j, n) && Closes(ts[j])
    ensures PConcat(ts, i) == Done(n, j)
    decreases j - i, 4
  {
    if GUnary(ts, i, j, n) {
      OperandComplete(ts, i, j, n);
      SumEnds(ts, i, j, n, []);
    } else {
      var parts := n.parts;
      var k := SumSplit(ts, i, j, parts);
      OperandComplete(ts, i, k, parts[0]);
      SumComplete(ts, k + 1, j, parts[1..], [parts[0]]);
      assert [parts[0]] + parts[1..] == parts;
      ConcatOfSum(ts, i, k, parts[0], parts, j);
    }
  }

  // ---------------------------------------------------------------------
  // Soundness: whatever the parser returns, the grammar derives
  // ---------------------------------------------------------------------

  lemma {:induction false} PrimarySound(ts: seq<Token>, i: nat)
    requires Terminated(ts) && i < |ts| && PPrimary(ts, i).Done?
    ensures GPrimary(ts, i, PPrimary(ts, i).pos, PPrimary(ts, i).out)
    decreases |ts| - i, 1
  {
    match ts[i] {
      case LParen =>
        ConcatSound(ts, i + 1);
      case Ident(name) =>
        if name == "JSON" {
          assert ts[i..i + 4] == [Ident("JSON"), Dot, Ident("stringify"), LParen];
          ConcatSound(ts, i + 4);
        }
      case _ =>
    }
  }

  lemma MemberDerives(ts: seq<Token>, i: nat, m: nat, recv: Node, name: string)
    requires i < m && m + 2 <= |ts| && GUnary(ts, i, m, recv) && ts[m] == Dot && ts[m + 1] == Ident(name)
    ensures GUnary(ts, i, m + 2, Member(recv, name))
  {
    assert ts[m..m + 2] == [Dot, Ident(name)];
  }

  lemma MethodDerives(ts: seq<Token>, i: nat, m: nat, recv: Node)
    requires i < m && m + 4 <= |ts| && GUnary(ts, i, m, recv)
    requires ts[m] == Dot && ts[m + 1] == Ident("toLowerCase") && ts[m + 2] == LParen && ts[m + 3] == RParen
    ensures GUnary(ts, i, m + 4, Method(recv, "toLowerCase"))
  {
    assert ts[m..m + 4] == [Dot, Ident("toLowerCase"), LParen, RParen];
  }

  lemma IndexDerives(ts: seq<Token>, i: nat, m: nat, recv: Node)
    requires i < m && m + 3 <= |ts| && GUnary(ts, i, m, recv)
    requires ts[m] == LBracket && (ts[m + 1].Str? || ts[m + 1].Int?) && ts[m + 2] == RBracket
    ensures GUnary(ts, i, m + 3, Index(recv, ts[m + 1].val, ts[m + 1].Int?))
  {
    assert ts[m..m + 3] == [LBracket, ts[m + 1], RBracket];
  }

  /** One round of the postfix chain: what it has read so far is again a unary. */
  lemma PostfixRound(ts: seq<Token>, i: nat, m: nat, recv: Node) returns (p: nat, n: Node)
    requires Terminated(ts) && i < m < |ts| && GUnary(ts, i, m, recv) && PPostfix(ts, m, recv).Done?
    requires ts[m].Dot? || ts[m].LBracket?
    ensures m < p < |ts| && GUnary(ts, i, p, n) && PPostfix(ts, p, n) == PPostfix(ts, m, recv)
  {
    if ts[m].LBracket? {
      IndexDerives(ts, i, m, recv);
      return m + 3, Index(recv, ts[m + 1].val, ts[m + 1].Int?);
    }
    if ts[m + 2].LParen? {
      MethodDerives(ts, i, m, recv);
      return m + 4, Method(recv, "toLowerCase");
    }
    MemberDerives(ts, i, m, recv, ts[m + 1].val);
    return m + 2, Member(recv, ts[m + 1].val);
  }

  lemma {:induction false} PostfixSound(ts: seq<Token>, i: nat, m: nat, recv: Node)
    requires Terminated(ts) && i <= m < |ts| && GUnary(ts, i, m, recv) && PPostfix(ts, m, recv).Done?
    ensures GUnary(ts, i, PPostfix(ts, m, recv).pos, PPostfix(ts, m, recv).out)
    decreases |ts| - m
  {
    UnaryNonEmpty(ts, i, m, recv);
    if ts[m].Dot? || ts[m].LBracket? {
      var p, n := PostfixRound(ts, i, m, recv);
      PostfixSound(ts, i, p, n);
    }
  }

  lemma {:induction false} UnarySound(ts: seq<Token>, i: nat)
    requires Terminated(ts) && i < |ts| && PUnary(ts, i).Done?
    ensures GUnary(ts, i, PUnary(ts, i).pos, PUnary(ts, i).out)
    decreases |ts| - i, 2
  {
    PrimarySound(ts, i);
    PostfixSound(ts, i, PPrimary(ts, i).pos, PPrimary(ts, i).out);
  }

  lemma {:induction false} SumSnoc(ts: seq<Token>, i: nat, m: nat, j: nat, parts: seq<Node>, n: Node)
    requires i <= m < j <= |ts| && GSum(ts, i, m, parts) && ts[m] == Plus && GUnary(ts, m + 1, j, n)
    ensures GSum(ts, i, j, parts + [n])
    decreases |parts|
  {
    var all := parts + [n];
    UnaryNonEmpty(ts, m + 1, j, n);
    SumNonEmpty(ts, i, m, parts);
    if |parts| == 1 {
      assert all[1..] == [n];
      assert SplitAt(ts, i, m, j) && GSum(ts, m + 1, j, all[1..]);
    } else {
      var k := SumSplit(ts, i, m, parts);
      SumSnoc(ts, k + 1, m, j, parts[1..], n);
      assert all[1..] == parts[1..] + [n];
      assert SplitAt(ts, i, k, j);
    }
  }

  lemma {:induction false} TailSound(ts: seq<Token>, i: nat, m: nat, parts: seq<Node>)
    requires Terminated(ts) && i <= m < |ts| && GSum(ts, i, m, parts) && PTail(ts, m, parts).Done?
    ensures GSum(ts, i, PTail(ts, m, parts).pos, PTail(ts, m, parts).out)
    ensures |PTail(ts, m, parts).out| >= if ts[m].Plus? then |parts| + 1 else |parts|
    decreases |ts| - m, 3
  {
    if ts[m].Plus? {
      var u := PUnary(ts, m + 1);
      UnarySound(ts, m + 1);
      SumSnoc(ts, i, m, u.pos, parts, u.out);
      TailSound(ts, i, u.pos, parts + [u.out]);
    }
  }

  lemma {:induction false} ConcatSound(ts: seq<Token>, i: nat)
    requires Terminated(ts) && i < |ts| && PConcat(ts, i).Done?
    ensures GConcat(ts, i, PConcat(ts, i).pos, PConcat(ts, i).out)
    decreases |ts| - i, 4
  {
    UnarySound(ts, i);
    var u := PUnary(ts, i);
    if ts[u.pos].Plus? {
      TailSound(ts, i, u.pos, [u.out]);
    }
  }

  // ---------------------------------------------------------------------
  // The theorems
  // ---------------------------------------------------------------------

  ghost predicate Derives(ts: seq<Token>, n: Node) {
    Terminated(ts) && GConcat(ts, 0, |ts| - 1, n)
  }

  /** The parser returns a node exactly when the grammar derives it from all the
      tokens before EOF, and fails exactly when it derives none; so a token list
      has at most one derivable node. */
  lemma ParserDecides(ts: seq<Token>)
    requires Terminated(ts)
    ensures forall n :: ParseTokens(ts) == Ok(n) <==> Derives(ts, n)
    ensures ParseTokens(ts).Err? <==> !exists n :: Derives(ts, n)
    ensures forall m, n :: Derives(ts, m) && Derives(ts, n) ==> m == n
  {
    forall n ensures ParseTokens(ts) == Ok(n) <==> Derives(ts, n) {
      if Derives(ts, n) {
        ConcatComplete(ts, 0, |ts| - 1, n);
      }
      if ParseTokens(ts) == Ok(n) {
        ConcatSound(ts, 0);
      }
    }
  }

  /** A span parses to `n` exactly when it spells a token list that derives `n`. */
  lemma SpanDecides(span: string, n: Node)
    ensures ParseSpan(span) == Ok(n) <==> exists ts :: Spells(span, 0, ts) && Derives(ts, n)
  {
    LexDecides(span);
    if ParseSpan(span) == Ok(n) {
      var ts := Lex(span, 0).value;
      LexTerminated(span);
      ParserDecides(ts);
      assert Spells(span, 0, ts) && Derives(ts, n);
    }
    if ts :| Spells(span, 0, ts) && Derives(ts, n) {
      assert Lex(span, 0) == Ok(ts);
      ParserDecides(ts);
    }
  }
}
