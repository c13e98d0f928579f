/** The recursive-descent parser of template expressions (internal/expr/parser.go)
    and the grammar it decides. */
module ExprParser {
  import opened Prelude
  import opened ExprLexer

  datatype Node =
    | RootRef(name: string)
    | NodeRef(id: string)
    | Member(recv: Node, name: string)
    | Index(recv: Node, key: string, isInt: bool)
    | StrLit(text: string)
    | IntLit(num: int)
    | Concat(parts: seq<Node>)
    | Method(recv: Node, name: string)
    | JsonStringify(arg: Node)

  datatype ParseError =
    | BadToken(lexError: LexError)
    | EmptyExpression
    | TrailingToken(tok: Token)
    | UnexpectedToken(tok: Token)
    | MemberNameExpected
    | MethodNotAllowed(name: string)
    | ToLowerCaseTakesNoArguments
    | IndexNotLiteral
    | IndexUnclosed
    | BadIntLiteral(val: string)
    | ParenUnclosed
    | NodeNotIndexed
    | NodeIndexNotString
    | NodeIndexUnclosed
    | JsonNotStringify
    | StringifyOtherMember
    | StringifyNotCalled
    | StringifyNoArgument
    | StringifyUnclosed
    | UnknownIdentifier(name: string)

  predicate IsRoot(name: string) {
    name == "$json" || name == "$binary" || name == "$now"
  }

  // ---------------------------------------------------------------------
  // Specification functions: parse from a position, report the next position
  // ---------------------------------------------------------------------

  datatype Step<+T> = Done(out: T, pos: nat) | Fail(error: ParseError)

  function PConcat(ts: seq<Token>, i: nat): (r: Step<Node>)
    requires Terminated(ts) && i < |ts|
    ensures r.Done? ==> i < r.pos < |ts|
    decreases |ts| - i, 4
  {
    match PUnary(ts, i)
    case Fail(e) => Fail(e)
    case Done(first, p) =>
      if !ts[p].Plus? then Done(first, p)
      else match PTail(ts, p, [first])
        case Fail(e) => Fail(e)
        case Done(parts, q) => Done(Concat(parts), q)
  }

  /** The `('+' unary)*` part, accumulating into `parts`. */
  function PTail(ts: seq<Token>, i: nat, parts: seq<Node>): (r: Step<seq<Node>>)
    requires Terminated(ts) && i < |ts|
    ensures r.Done? ==> i <= r.pos < |ts|
    decreases |ts| - i, 3
  {
    if !ts[i].Plus? then Done(parts, i)
    else match PUnary(ts, i + 1)
      case Fail(e) => Fail(e)
      case Done(n, p) => PTail(ts, p, parts + [n])
  }

  function PUnary(ts: seq<Token>, i: nat): (r: Step<Node>)
    requires Terminated(ts) && i < |ts|
    ensures r.Done? ==> i < r.pos < |ts|
    decreases |ts| - i, 2
  {
    match PPrimary(ts, i)
    case Fail(e) => Fail(e)
    case Done(recv, p) => PPostfix(ts, p, recv)
  }

  function PPostfix(ts: seq<Token>, i: nat, recv: Node): (r: Step<Node>)
    requires Terminated(ts) && i < |ts|
    ensures r.Done? ==> i <= r.pos < |ts|
    decreases |ts| - i, 0
  {
    match ts[i]
    case Dot =>
      if !ts[i + 1].Ident? then Fail(MemberNameExpected)
      else if ts[i + 2].LParen? then
        if ts[i + 1].val != "toLowerCase" then Fail(MethodNotAllowed(ts[i + 1].val))
        else if !ts[i + 3].RParen? then Fail(ToLowerCaseTakesNoArguments)
        else PPostfix(ts, i + 4, Method(recv, "toLowerCase"))
      else PPostfix(ts, i + 2, Member(recv, ts[i + 1].val))
    case LBracket =>
      if !(ts[i + 1].Str? || ts[i + 1].Int?) then Fail(IndexNotLiteral)
      else if !ts[i + 2].RBracket? then Fail(IndexUnclosed)
      else PPostfix(ts, i + 3, Index(recv, ts[i + 1].val, ts[i + 1].Int?))
    case _ => Done(recv, i)
  }

  function PPrimary(ts: seq<Token>, i: nat): (r: Step<Node>)
    requires Terminated(ts) && i < |ts|
    ensures r.Done? ==> i < r.pos < |ts|
    decreases |ts| - i, 1
  {
    match ts[i]
    case Str(v) => Done(StrLit(v), i + 1)
    case Int(v) =>
      (match Atoi(v)
       case None => Fail(BadIntLiteral(v))
       case Some(n) => Done(IntLit(n), i + 1))
    case LParen =>
      (match PConcat(ts, i + 1)
       case Fail(e) => Fail(e)
       case Done(n, p) => if ts[p].RParen? then Done(n, p + 1) else Fail(ParenUnclosed))
    case Ident(name) => PHead(ts, i, name)
    case t => Fail(UnexpectedToken(t))
  }

  function PHead(ts: seq<Token>, i: nat, name: string): (r: Step<Node>)
    requires Terminated(ts) && i < |ts| && ts[i] == Ident(name)
    ensures r.Done? ==> i < r.pos < |ts|
    decreases |ts| - i, 0
  {
    if IsRoot(name) then Done(RootRef(name), i + 1)
    else if name == "$node" then
      if !ts[i + 1].LBracket? then Fail(NodeNotIndexed)
      else if !ts[i + 2].Str? then Fail(NodeIndexNotString)
      else if !ts[i + 3].RBracket? then Fail(NodeIndexUnclosed)
      else Done(NodeRef(ts[i + 2].val), i + 4)
    else if name == "JSON" then
      if !ts[i + 1].Dot? then Fail(JsonNotStringify)
      else if ts[i + 2] != Ident("stringify") then Fail(StringifyOtherMember)
      else if !ts[i + 3].LParen? then Fail(StringifyNotCalled)
      else if ts[i + 4].RParen? then Fail(StringifyNoArgument)
      else match PConcat(ts, i + 4)
        case Fail(e) => Fail(e)
        case Done(arg, p) =>
          if ts[p].RParen? then Done(JsonStringify(arg), p + 1) else Fail(StringifyUnclosed)
    else Fail(UnknownIdentifier(name))
  }

  function ParseTokens(ts: seq<Token>): Result<Node, ParseError>
    requires Terminated(ts)
  {
    if ts[0].EOF? then Err(EmptyExpression)
    else match PConcat(ts, 0)
      case Fail(e) => Err(e)
      case Done(n, p) => if ts[p].EOF? then Ok(n) else Err(TrailingToken(ts[p]))
  }

  // ---------------------------------------------------------------------
  // The parser itself, over a mutable cursor
  // ---------------------------------------------------------------------

  type Parsed = Result<Node, ParseError>

  /** What a parse method leaves behind: the specification's node and position,
      or its error (after an error the position is never used again). */
  predicate Agrees(spec: Step<Node>, r: Parsed, pos: nat) {
    match spec
    case Done(n, p) => r == Ok(n) && pos == p
    case Fail(e) => r == Err(e)
  }

  class Cursor {
    var pos: nat
    const toks: seq<Token>

    predicate Valid()
      reads this
    {
      Terminated(toks) && pos < |toks|
    }

    constructor (ts: seq<Token>)
      requires Terminated(ts)
      ensures Valid() && pos == 0 && toks == ts
    {
      pos, toks := 0, ts;
    }

    function Peek(): Token
      reads this
      requires Valid()
    {
      toks[pos]
    }

    /** Moves past the current token, but never past the closing EOF. */
    method Next() returns (t: Token)
      requires Valid()
      modifies this
      ensures Valid() && t == toks[old(pos)]
      ensures pos == if t.EOF? then old(pos) else old(pos) + 1
    {
      t := toks[pos];
      if pos < |toks| - 1 {
        pos := pos + 1;
      }
    }

    method ParseConcat() returns (r: Parsed)
      requires Valid()
      modifies this
      ensures Valid() && Agrees(PConcat(toks, old(pos)), r, pos)
      decreases |toks| - pos, 3
    {
      var first := ParseUnary();
      if first.Err? || !Peek().Plus? {
        return first;
      }
      ghost var start := pos;
      var parts := [first.value];
      while Peek().Plus?
        invariant Valid() && start <= pos && old(pos) < pos
        invariant PTail(toks, start, [first.value]) == PTail(toks, pos, parts)
        decreases |toks| - pos
      {
        var _ := Next();
        var nxt := ParseUnary();
        if nxt.Err? {
          return nxt;
        }
        parts := parts + [nxt.value];
      }
      return Ok(Concat(parts));
    }

    method ParseUnary() returns (r: Parsed)
      requires Valid()
      modifies this
      ensures Valid() && Agrees(PUnary(toks, old(pos)), r, pos)
      decreases |toks| - pos, 2
    {
      r := ParsePrimary();
      if r.Ok? {
        r := ParsePostfix(r.value);
      }
    }

    /** One '.name' or '.toLowerCase()' behind a receiver. */
    method ParseSelector(recv: Node) returns (r: Parsed)
      requires Valid() && Peek().Dot?
      modifies this
      ensures Valid() && (r.Ok? ==> pos > old(pos) && PPostfix(toks, old(pos), recv) == PPostfix(toks, pos, r.value))
      ensures r.Err? ==> PPostfix(toks, old(pos), recv) == Fail(r.error)
    {
      var _ := Next();
      var id := Peek();
      if !id.Ident? {
        return Err(MemberNameExpected);
      }
      var _ := Next();
      if !Peek().LParen? {
        return Ok(Member(recv, id.val));
      }
      if id.val != "toLowerCase" {
        return Err(MethodNotAllowed(id.val));
      }
      var _ := Next();
      if !Peek().RParen? {
        return Err(ToLowerCaseTakesNoArguments);
      }
      var _ := Next();
      return Ok(Method(recv, "toLowerCase"));
    }

    /** One '[literal]' behind a receiver. */
    method ParseSubscript(recv: Node) returns (r: Parsed)
      requires Valid() && Peek().LBracket?
      modifies this
      ensures Valid() && (r.Ok? ==> pos > old(pos) && PPostfix(toks, old(pos), recv) == PPostfix(toks, pos, r.value))
      ensures r.Err? ==> PPostfix(toks, old(pos), recv) == Fail(r.error)
    {
      var _ := Next();
      var key := Peek();
      if !key.Str? && !key.Int? {
        return Err(IndexNotLiteral);
      }
      var _ := Next();
      if !Peek().RBracket? {
        return Err(IndexUnclosed);
      }
      var _ := Next();
      return Ok(Index(recv, key.val, key.Int?));
    }

    method ParsePostfix(recv0: Node) returns (r: Parsed)
      requires Valid()
      modifies this
      ensures Valid() && Agrees(PPostfix(toks, old(pos), recv0), r, pos)
      decreases |toks| - pos, 0
    {
      var recv := recv0;
      while true
        invariant Valid() && old(pos) <= pos
        invariant PPostfix(toks, old(pos), recv0) == PPostfix(toks, pos, recv)
        decreases |toks| - pos
      {
        var next: Parsed;
        match Peek() {
          case Dot => next := ParseSelector(recv);
          case LBracket => next := ParseSubscript(recv);
          case _ => return Ok(recv);
        }
        if next.Err? {
          return next;
        }
        recv := next.value;
      }
    }

    method ParsePrimary() returns (r: Parsed)
      requires Valid()
      modifies this
      ensures Valid() && Agrees(PPrimary(toks, old(pos)), r, pos)
      decreases |toks| - pos, 1
    {
      var t := Peek();
      match t {
        case Str(v) =>
          var _ := Next();
          return Ok(StrLit(v));
        case Int(v) =>
          var _ := Next();
          var n := Atoi(v);
          return if n.Some? then Ok(IntLit(n.value)) else Err(BadIntLiteral(v));
        case LParen =>
          var _ := Next();
          r := ParseConcat();
          if r.Ok? {
            if !Peek().RParen? {
              return Err(ParenUnclosed);
            }
            var _ := Next();
          }
        case Ident(_) =>
          r := ParseHead();
        case _ =>
          return Err(UnexpectedToken(t));
      }
    }

    method ParseHead() returns (r: Parsed)
      requires Valid() && toks[pos].Ident?
      modifies this
      ensures Valid() && Agrees(PHead(toks, old(pos), toks[old(pos)].val), r, pos)
      decreases |toks| - pos, 0
    {
      var id := Next();
      if IsRoot(id.val) {
        return Ok(RootRef(id.val));
      } else if id.val == "$node" {
        if !Peek().LBracket? {
          return Err(NodeNotIndexed);
        }
        var _ := Next();
        var key := Peek();
        if !key.Str? {
          return Err(NodeIndexNotString);
        }
        var _ := Next();
        if !Peek().RBracket? {
          return Err(NodeIndexUnclosed);
        }
        var _ := Next();
        return Ok(NodeRef(key.val));
      } else if id.val == "JSON" {
        r := ParseStringify();
      } else {
        return Err(UnknownIdentifier(id.val));
      }
    }

    /** The `JSON` branch of `parseHead`, entered just after that identifier. */
    method ParseStringify() returns (r: Parsed)
      requires Valid() && 0 < pos && toks[pos - 1] == Ident("JSON")
      modifies this
      ensures Valid() && Agrees(PHead(toks, old(pos) - 1, "JSON"), r, pos)
      decreases |toks| - pos, 4
    {
      if !Peek().Dot? {
        return Err(JsonNotStringify);
      }
      var _ := Next();
      if Peek() != Ident("stringify") {
        return Err(StringifyOtherMember);
      }
      var _ := Next();
      if !Peek().LParen? {
        return Err(StringifyNotCalled);
      }
      var _ := Next();
      if Peek().RParen? {
        return Err(StringifyNoArgument);
      }
      r := ParseConcat();
      if r.Ok? {
        if !Peek().RParen? {
          return Err(StringifyUnclosed);
        }
        var _ := Next();
        r := Ok(JsonStringify(r.value));
      }
    }
  }

  function ParseSpan(span: string): Parsed {
    match Lex(span, 0)
    case Err(e) => Err(BadToken(e))
    case Ok(ts) => LexTerminated(span); ParseTokens(ts)
  }

  lemma LexTerminated(span: string)
    requires Lex(span, 0).Ok?
    ensures Terminated(Lex(span, 0).value)
  {
    LexSound(span, 0);
    SpelledTokens(span, 0, Lex(span, 0).value);
  }

  /** `parse`: tokenize, then one expression, then the end of the input. */
  method Parse(span: string) returns (r: Parsed)
    ensures r == ParseSpan(span)
  {
    var toks := Tokenize(span);
    if toks.Err? {
      return Err(BadToken(toks.error));
    }
    LexTerminated(span);
    var c := new Cursor(toks.value);
    if c.Peek().EOF? {
      return Err(EmptyExpression);
    }
    r := c.ParseConcat();
    if r.Ok? && !c.Peek().EOF? {
      return Err(TrailingToken(c.Peek()));
    }
  }

  // ---------------------------------------------------------------------
  // The grammar, as derivability of a node from the tokens i..j
  // ---------------------------------------------------------------------

  /** concat := unary | unary '+' unary ('+' unary)* */
  ghost predicate GConcat(ts: seq<Token>, i: nat, j: nat, n: Node)
    requires i <= j <= |ts|
    decreases j - i, 3
  {
    GUnary(ts, i, j, n) || (n.Concat? && |n.parts| >= 2 && GSum(ts, i, j, n.parts))
  }

  ghost predicate GSum(ts: seq<Token>, i: nat, j: nat, parts: seq<Node>)
    requires i <= j <= |ts|
    decreases j - i, 2
  {
    if parts == [] then false
    else if |parts| == 1 then GUnary(ts, i, j, parts[0])
    else exists k: nat :: SplitAt(ts, i, k, j) && GUnary(ts, i, k, parts[0]) && GSum(ts, k + 1, j, parts[1..])
  }

  predicate SplitAt(ts: seq<Token>, i: nat, k: nat, j: nat) {
    i < k < j <= |ts| && ts[k] == Plus
  }

  /** unary := primary | unary '.' name | unary '[' literal ']' | unary '.toLowerCase()' */
  ghost predicate GUnary(ts: seq<Token>, i: nat, j: nat, n: Node)
    requires i <= j <= |ts|
    decreases j - i, 1
  {
    || GPrimary(ts, i, j, n)
    || (n.Member? && j - i >= 3 && ts[j - 2..j] == [Dot, Ident(n.name)] && GUnary(ts, i, j - 2, n.recv))
    || (n.Index? && j - i >= 4 && ts[j - 3..j] == [LBracket, if n.isInt then Int(n.key) else Str(n.key), RBracket]
        && GUnary(ts, i, j - 3, n.recv))
    || (n.Method? && n.name == "toLowerCase" && j - i >= 5
        && ts[j - 4..j] == [Dot, Ident("toLowerCase"), LParen, RParen] && GUnary(ts, i, j - 4, n.recv))
  }

  /** The primaries without an expression inside. */
  predicate GLeaf(ts: seq<Token>, i: nat, j: nat, n: Node)
    requires i <= j <= |ts|
  {
    || (n.StrLit? && ts[i..j] == [Str(n.text)])
    || (n.IntLit? && j == i + 1 && ts[i].Int? && Atoi(ts[i].val) == Some(n.num))
    || (n.RootRef? && IsRoot(n.name) && ts[i..j] == [Ident(n.name)])
    || (n.NodeRef? && ts[i..j] == [Ident("$node"), LBracket, Str(n.id), RBracket])
  }

  /** primary := literal | root | $node[string] | '(' concat ')' | JSON.stringify '(' concat ')' */
  ghost predicate GPrimary(ts: seq<Token>, i: nat, j: nat, n: Node)
    requires i <= j <= |ts|
    decreases j - i, 0
  {
    || GLeaf(ts, i, j, n)
    || (j - i >= 3 && ts[i] == LParen && ts[j - 1] == RParen && GConcat(ts, i + 1, j - 1, n))
    || (n.JsonStringify? && j - i >= 6 && ts[i..i + 4] == [Ident("JSON"), Dot, Ident("stringify"), LParen]
        && ts[j - 1] == RParen && GConcat(ts, i + 4, j - 1, n.arg))
  }
}
