/** The lexer of the template expression language (internal/expr/token.go). */
module ExprLexer {
  import opened Prelude

  datatype Token =
    | Ident(val: string)
    | Dot
    | LBracket
    | RBracket
    | Str(val: string)
    | Int(val: string)
    | Plus
    | LParen
    | RParen
    | EOF

  datatype LexError = UnterminatedString(offset: nat) | UnexpectedChar(offset: nat)

  type Lexed = Result<seq<Token>, LexError>

  predicate IsIdentStart(c: char) {
    c == '_' || 'A' <= c <= 'Z' || 'a' <= c <= 'z'
  }

  predicate IsIdentPart(c: char) {
    IsIdentStart(c) || IsDigit(c)
  }

  /** The four characters the lexer skips; fewer than `TrimSpace` strips. */
  predicate IsLexSpace(c: char) {
    c == ' ' || c == '\t' || c == '\n' || c == '\r'
  }

  function Punctuation(c: char): Option<Token> {
    match c
    case '.' => Some(Dot)
    case '[' => Some(LBracket)
    case ']' => Some(RBracket)
    case '+' => Some(Plus)
    case '(' => Some(LParen)
    case ')' => Some(RParen)
    case _ => None
  }

  // ---------------------------------------------------------------------
  // Specification functions, scanning from an offset
  // ---------------------------------------------------------------------

  function QuoteEnd(s: string, j: nat, q: char): (k: nat)
    requires j <= |s|
    ensures j <= k <= |s|
    ensures k < |s| ==> s[k] == q
    ensures forall m :: j <= m < k ==> s[m] != q
    decreases |s| - j
  {
    if j == |s| || s[j] == q then j else QuoteEnd(s, j + 1, q)
  }

  function WordEnd(s: string, j: nat): (k: nat)
    requires j <= |s|
    ensures j <= k <= |s|
    ensures k < |s| ==> !IsIdentPart(s[k])
    ensures forall m :: j <= m < k ==> IsIdentPart(s[m])
    decreases |s| - j
  {
    if j < |s| && IsIdentPart(s[j]) then WordEnd(s, j + 1) else j
  }

  function DigitsEnd(s: string, j: nat): (k: nat)
    requires j <= |s|
    ensures j <= k <= |s|
    ensures k < |s| ==> !IsDigit(s[k])
    ensures forall m :: j <= m < k ==> IsDigit(s[m])
    decreases |s| - j
  {
    if j < |s| && IsDigit(s[j]) then DigitsEnd(s, j + 1) else j
  }

  /** The token that starts at `i` and the offset just after it. */
  function TokenAt(s: string, i: nat): (r: Result<(Token, nat), LexError>)
    requires i < |s| && !IsLexSpace(s[i])
    ensures r.Ok? ==> i < r.value.1 <= |s|
  {
    var c := s[i];
    if Punctuation(c).Some? then Ok((Punctuation(c).value, i + 1))
    else if c == '\'' || c == '"' then
      var j := QuoteEnd(s, i + 1, c);
      if j == |s| then Err(UnterminatedString(i)) else Ok((Str(s[i + 1..j]), j + 1))
    else if c == '$' then
      if i + 1 == |s| || !IsIdentStart(s[i + 1]) then Err(UnexpectedChar(i))
      else var j := WordEnd(s, i + 2); Ok((Ident(s[i..j]), j))
    else if IsIdentStart(c) then
      var j := WordEnd(s, i + 1); Ok((Ident(s[i..j]), j))
    else if IsDigit(c) then
      var j := DigitsEnd(s, i); Ok((Int(s[i..j]), j))
    else Err(UnexpectedChar(i))
  }

  function Lex(s: string, i: nat): Lexed
    requires i <= |s|
    decreases |s| - i
  {
    if i == |s| then Ok([EOF])
    else if IsLexSpace(s[i]) then Lex(s, i + 1)
    else match TokenAt(s, i)
      case Err(e) => Err(e)
      case Ok((t, j)) => Prepend([t], Lex(s, j))
  }

  function Prepend(ts: seq<Token>, r: Lexed): Lexed {
    if r.Ok? then Ok(ts + r.value) else r
  }

  lemma PrependPrepend(a: seq<Token>, b: seq<Token>, r: Lexed)
    ensures Prepend(a, Prepend(b, r)) == Prepend(a + b, r)
  {
    if r.Ok? { assert a + (b + r.value) == (a + b) + r.value; }
  }

  method ScanQuote(s: string, from: nat, q: char) returns (j: nat)
    requires from <= |s|
    ensures j == QuoteEnd(s, from, q)
  {
    j := from;
    while j < |s| && s[j] != q
      invariant from <= j <= |s| && QuoteEnd(s, from, q) == QuoteEnd(s, j, q)
    {
      j := j + 1;
    }
  }

  method ScanWord(s: string, from: nat) returns (j: nat)
    requires from <= |s|
    ensures j == WordEnd(s, from)
  {
    j := from;
    while j < |s| && IsIdentPart(s[j])
      invariant from <= j <= |s| && WordEnd(s, from) == WordEnd(s, j)
    {
      j := j + 1;
    }
  }

  method ScanDigits(s: string, from: nat) returns (j: nat)
    requires from <= |s|
    ensures j == DigitsEnd(s, from)
  {
    j := from;
    while j < |s| && IsDigit(s[j])
      invariant from <= j <= |s| && DigitsEnd(s, from) == DigitsEnd(s, j)
    {
      j := j + 1;
    }
  }

  /** The token that starts at `i`. */
  method ScanToken(s: string, i: nat) returns (r: Result<(Token, nat), LexError>)
    requires i < |s| && !IsLexSpace(s[i])
    ensures r == TokenAt(s, i)
  {
    var c := s[i];
    if Punctuation(c).Some? {
      return Ok((Punctuation(c).value, i + 1));
    } else if c == '\'' || c == '"' {
      var j := ScanQuote(s, i + 1, c);
      if j >= |s| {
        return Err(UnterminatedString(i));
      }
      return Ok((Str(s[i + 1..j]), j + 1));
    } else if c == '$' || IsIdentStart(c) {
      var j: nat := i;
      if c == '$' {
        j := j + 1;
        if j >= |s| || !IsIdentStart(s[j]) {
          return Err(UnexpectedChar(i));
        }
      }
      j := ScanWord(s, j + 1);
      return Ok((Ident(s[i..j]), j));
    } else if IsDigit(c) {
      var j := ScanDigits(s, i);
      return Ok((Int(s[i..j]), j));
    }
    return Err(UnexpectedChar(i));
  }

  /** `tokenize`: one pass over an index, appending to the token slice. */
  method Tokenize(span: string) returns (r: Lexed)
    ensures r == Lex(span, 0)
  {
    var toks: seq<Token> := [];
    var i := 0;
    assert Lex(span, 0).Ok? ==> [] + Lex(span, 0).value == Lex(span, 0).value;
    while i < |span|
      invariant 0 <= i <= |span|
      invariant Lex(span, 0) == Prepend(toks, Lex(span, i))
    {
      if IsLexSpace(span[i]) {
        i := i + 1;
      } else {
        var t := ScanToken(span, i);
        if t.Err? {
          return Err(t.error);
        }
        PrependPrepend(toks, [t.value.0], Lex(span, t.value.1));
        toks := toks + [t.value.0];
        i := t.value.1;
      }
    }
    toks := toks + [EOF];
    r := Ok(toks);
  }

  // ---------------------------------------------------------------------
  // The lexical grammar, stated without reference to the scanner
  // ---------------------------------------------------------------------

  /** The alphabet: which characters are spaces, begin and continue a name, and
      stand alone. */
  lemma Alphabet(c: char)
    ensures IsLexSpace(c) <==> c in {' ', '\t', '\n', '\r'}
    ensures IsIdentStart(c) <==> 'a' <= c <= 'z' || 'A' <= c <= 'Z' || c == '_'
    ensures IsIdentPart(c) <==> 'a' <= c <= 'z' || 'A' <= c <= 'Z' || c == '_' || '0' <= c <= '9'
    ensures Punctuation(c).Some? <==> c in {'.', '[', ']', '+', '(', ')'}
    ensures Punctuation(c).Some? ==> Sign(c) == Punctuation(c).value
  {
  }

  function Sign(c: char): Token {
    if c == '.' then Dot else if c == '[' then LBracket else if c == ']' then RBracket
    else if c == '(' then LParen else if c == ')' then RParen else Plus
  }

  predicate IsIdent(w: string) {
    var b := if w != [] && w[0] == '$' then 1 else 0;
    b < |w| && IsIdentStart(w[b]) && forall k :: b <= k < |w| ==> IsIdentPart(w[k])
  }

  predicate QuotedBy(w: string, v: string, q: char) {
    w == [q] + v + [q] && q !in v
  }

  /** `w` is a way to write the token `t`. */
  predicate IsLexeme(w: string, t: Token) {
    match t
    case Ident(v) => w == v && IsIdent(v)
    case Int(v) => w == v && v != [] && AllDigits(v)
    case Str(v) => QuotedBy(w, v, '\'') || QuotedBy(w, v, '"')
    case EOF => false
    case _ => |w| == 1 && Punctuation(w[0]) == Some(t)
  }

  /** A word ends only where the next character cannot continue it. */
  predicate EndsAt(s: string, e: nat, t: Token)
    requires e <= |s|
  {
    && (t.Ident? ==> e == |s| || !IsIdentPart(s[e]))
    && (t.Int? ==> e == |s| || !IsDigit(s[e]))
  }

  predicate LexemeAt(s: string, g: nat, e: nat, t: Token) {
    g < e <= |s| && IsLexeme(s[g..e], t) && EndsAt(s, e, t)
  }

  predicate SpaceBetween(s: string, i: nat, g: nat) {
    i <= g <= |s| && forall k :: i <= k < g ==> IsLexSpace(s[k])
  }

  /** From offset `i` on, `s` spells the tokens `ts`: lexemes separated by
      optional white space, closed by EOF. */
  ghost predicate Spells(s: string, i: nat, ts: seq<Token>)
    decreases |ts|
  {
    if |ts| == 0 then false
    else if |ts| == 1 then ts[0] == EOF && SpaceBetween(s, i, |s|)
    else exists g: nat, e: nat :: LexemeAt(s, g, e, ts[0]) && SpaceBetween(s, i, g) && Spells(s, e, ts[1..])
  }

  lemma IdentIsTokenAt(s: string, g: nat, e: nat, v: string)
    requires LexemeAt(s, g, e, Ident(v))
    ensures !IsLexSpace(s[g]) && TokenAt(s, g) == Ok((Ident(v), e))
  {
    var w := s[g..e];
    assert w[0] == s[g];
    var from := if s[g] == '$' then g + 2 else g + 1;
    if s[g] == '$' { assert w[1] == s[g + 1]; }
    forall k | from <= k < e ensures IsIdentPart(s[k]) { assert s[k] == w[k - g]; }
    assert WordEnd(s, from) == e;
  }

  lemma IntIsTokenAt(s: string, g: nat, e: nat, v: string)
    requires LexemeAt(s, g, e, Int(v))
    ensures !IsLexSpace(s[g]) && TokenAt(s, g) == Ok((Int(v), e))
  {
    var w := s[g..e];
    forall k | g <= k < e ensures IsDigit(s[k]) { assert s[k] == w[k - g]; }
    assert DigitsEnd(s, g) == e;
  }

  lemma QuotedIsTokenAt(s: string, g: nat, e: nat, v: string, q: char)
    requires g < e <= |s| && QuotedBy(s[g..e], v, q) && (q == '\'' || q == '"')
    ensures !IsLexSpace(s[g]) && TokenAt(s, g) == Ok((Str(v), e))
  {
    var w := s[g..e];
    assert q == w[0] == s[g];
    forall k | g < k < e - 1 ensures s[k] != q { assert s[k] == w[k - g] == v[k - g - 1]; }
    assert s[e - 1] == w[|w| - 1] == q;
    assert QuoteEnd(s, g + 1, q) == e - 1;
    assert w[1..|w| - 1] == v;
    assert |s[g + 1..e - 1]| == |v|;
    forall k | 0 <= k < |v| ensures s[g + 1..e - 1][k] == v[k] { assert s[g + 1 + k] == w[k + 1]; }
    assert s[g + 1..e - 1] == v;
  }

  lemma LexemeIsTokenAt(s: string, g: nat, e: nat, t: Token)
    requires LexemeAt(s, g, e, t)
    ensures !IsLexSpace(s[g]) && TokenAt(s, g) == Ok((t, e))
  {
    match t {
      case Ident(v) => IdentIsTokenAt(s, g, e, v);
      case Int(v) => IntIsTokenAt(s, g, e, v);
      case Str(v) => QuotedIsTokenAt(s, g, e, v, if QuotedBy(s[g..e], v, '\'') then '\'' else '"');
      case EOF =>
      case _ =>
        assert s[g..e][0] == s[g];
    }
  }

  lemma TokenAtIsLexeme(s: string, g: nat)
    requires g < |s| && !IsLexSpace(s[g]) && TokenAt(s, g).Ok?
    ensures LexemeAt(s, g, TokenAt(s, g).value.1, TokenAt(s, g).value.0)
  {
    var (t, e) := TokenAt(s, g).value;
    var w := s[g..e];
    assert w[0] == s[g];
    if t.Str? {
      assert w == [s[g]] + t.val + [s[g]];
    }
  }

  lemma {:induction false} LexSkipsSpace(s: string, i: nat, g: nat)
    requires SpaceBetween(s, i, g)
    ensures Lex(s, i) == Lex(s, g)
    decreases g - i
  {
    if i < g { LexSkipsSpace(s, i + 1, g); }
  }

  lemma {:induction false} LexComplete(s: string, i: nat, ts: seq<Token>)
    requires i <= |s| && Spells(s, i, ts)
    ensures Lex(s, i) == Ok(ts)
    decreases |ts|
  {
    if |ts| == 1 {
      LexSkipsSpace(s, i, |s|);
      assert ts == [EOF];
    } else {
      var g: nat, e: nat :| LexemeAt(s, g, e, ts[0]) && SpaceBetween(s, i, g) && Spells(s, e, ts[1..]);
      LexSkipsSpace(s, i, g);
      LexComplete(s, e, ts[1..]);
      LexFirst(s, g, e, ts);
    }
  }

  lemma LexFirst(s: string, g: nat, e: nat, ts: seq<Token>)
    requires ts != [] && LexemeAt(s, g, e, ts[0]) && Lex(s, e) == Ok(ts[1..])
    ensures Lex(s, g) == Ok(ts)
  {
    LexemeIsTokenAt(s, g, e, ts[0]);
    assert [ts[0]] + ts[1..] == ts;
  }

  lemma {:induction false} LexSound(s: string, i: nat)
    requires i <= |s| && Lex(s, i).Ok?
    ensures Spells(s, i, Lex(s, i).value)
    decreases |s| - i
  {
    var ts := Lex(s, i).value;
    if i == |s| {
    } else if IsLexSpace(s[i]) {
      LexSound(s, i + 1);
      SpellsAfterSpace(s, i, ts);
    } else {
      var (t, j) := TokenAt(s, i).value;
      TokenAtIsLexeme(s, i);
      LexSound(s, j);
      assert ts[1..] == Lex(s, j).value;
      assert SpaceBetween(s, i, i);
    }
  }

  lemma SpellsAfterSpace(s: string, i: nat, ts: seq<Token>)
    requires i < |s| && IsLexSpace(s[i]) && Spells(s, i + 1, ts)
    ensures Spells(s, i, ts)
  {
    if |ts| > 1 {
      var g: nat, e: nat :| LexemeAt(s, g, e, ts[0]) && SpaceBetween(s, i + 1, g) && Spells(s, e, ts[1..]);
      assert SpaceBetween(s, i, g);
    }
  }

  /** The lexer decides the lexical grammar: it returns exactly the tokens the
      text spells (so a text spells at most one token list), and fails exactly
      when the text spells none. */
  lemma LexDecides(s: string)
    ensures forall ts :: Lex(s, 0) == Ok(ts) <==> Spells(s, 0, ts)
    ensures Lex(s, 0).Err? <==> !exists ts :: Spells(s, 0, ts)
  {
    forall ts ensures Lex(s, 0) == Ok(ts) <==> Spells(s, 0, ts) {
      if Lex(s, 0) == Ok(ts) { LexSound(s, 0); }
      if Spells(s, 0, ts) { LexComplete(s, 0, ts); }
    }
    if Lex(s, 0).Ok? { LexSound(s, 0); }
  }

  /** Where the lexer stops with an error, everything before that offset lexes:
      the reported offset is the start of the first piece that is no token. */
  lemma {:induction false} ErrorOffsetIsFirst(s: string, i: nat)
    requires i <= |s| && Lex(s, i).Err?
    ensures i <= Lex(s, i).error.offset < |s|
    ensures !IsLexSpace(s[Lex(s, i).error.offset])
    ensures forall t, e: nat :: !LexemeAt(s, Lex(s, i).error.offset, e, t)
    ensures var o := Lex(s, i).error.offset;
            && (Lex(s, i).error.UnterminatedString? <==> s[o] == '\'' || s[o] == '"')
            && (Lex(s, i).error.UnterminatedString? ==> s[o] !in s[o + 1..])
    decreases |s| - i
  {
    if IsLexSpace(s[i]) {
      ErrorOffsetIsFirst(s, i + 1);
    } else if TokenAt(s, i).Ok? {
      ErrorOffsetIsFirst(s, TokenAt(s, i).value.1);
    } else {
      forall t, e: nat ensures !LexemeAt(s, i, e, t) {
        if LexemeAt(s, i, e, t) { LexemeIsTokenAt(s, i, e, t); }
      }
    }
  }

  // ---------------------------------------------------------------------
  // What every token list of the lexer looks like
  // ---------------------------------------------------------------------

  predicate Terminated(ts: seq<Token>) {
    |ts| > 0 && ts[|ts| - 1] == EOF && forall k :: 0 <= k < |ts| - 1 ==> ts[k] != EOF
  }

  /** Some text is a way to write `t`. */
  predicate Writable(t: Token) {
    match t
    case Ident(v) => IsIdent(v)
    case Int(v) => v != [] && AllDigits(v)
    case Str(v) => '\'' !in v || '"' !in v
    case EOF => false
    case _ => true
  }

  lemma {:induction false} SpelledTokens(s: string, i: nat, ts: seq<Token>)
    requires Spells(s, i, ts)
    ensures Terminated(ts) && forall k :: 0 <= k < |ts| - 1 ==> Writable(ts[k])
    decreases |ts|
  {
    if |ts| > 1 {
      var g: nat, e: nat :| LexemeAt(s, g, e, ts[0]) && SpaceBetween(s, i, g) && Spells(s, e, ts[1..]);
      SpelledTokens(s, e, ts[1..]);
      assert Writable(ts[0]);
      forall k | 0 <= k < |ts| - 1 ensures Writable(ts[k]) && ts[k] != EOF {
        if k > 0 { assert ts[k] == ts[1..][k - 1]; }
      }
    }
  }

  /** The canonical way to write a token: double quotes when the value allows. */
  function Lexeme(t: Token): (w: string)
    requires Writable(t)
    ensures w != [] && IsLexeme(w, t)
  {
    match t
    case Ident(v) => v
    case Int(v) => v
    case Str(v) => if '"' !in v then "\"" + v + "\"" else "'" + v + "'"
    case Dot => "."
    case LBracket => "["
    case RBracket => "]"
    case Plus => "+"
    case LParen => "("
    case RParen => ")"
  }

  predicate Wordy(t: Token) { t.Ident? || t.Int? }

  predicate Apart(ts: seq<Token>, k: nat)
    requires k + 1 < |ts|
  {
    !(Wordy(ts[k]) && Wordy(ts[k + 1]))
  }

  /** Tokens that can be written with nothing between them. */
  predicate Fits(ts: seq<Token>) {
    && (forall k :: 0 <= k < |ts| ==> Writable(ts[k]))
    && (forall k :: 0 <= k < |ts| - 1 ==> Apart(ts, k))
  }

  function Write(ts: seq<Token>): string
    requires forall k :: 0 <= k < |ts| ==> Writable(ts[k])
  {
    if ts == [] then "" else Lexeme(ts[0]) + Write(ts[1..])
  }

  lemma LexemeStart(a: Token, b: Token)
    requires Writable(a) && Writable(b) && !(Wordy(a) && Wordy(b))
    ensures a.Ident? ==> !IsIdentPart(Lexeme(b)[0])
    ensures a.Int? ==> !IsDigit(Lexeme(b)[0])
  {
  }

  lemma FitsTail(ts: seq<Token>)
    requires Fits(ts) && ts != []
    ensures Fits(ts[1..])
  {
    forall k | 0 <= k < |ts[1..]| - 1 ensures Apart(ts[1..], k) {
      assert Apart(ts, k + 1);
    }
  }

  lemma CutFront(s: string, i: nat, w: string, rest: string)
    requires i <= |s| && s[i..] == w + rest
    ensures i + |w| <= |s| && s[i..i + |w|] == w && s[i + |w|..] == rest
    ensures rest != "" ==> i + |w| < |s| && s[i + |w|] == rest[0]
  {
    assert s[i..][..|w|] == w && s[i..][|w|..] == rest;
  }

  lemma LexemeStands(s: string, i: nat, e: nat, t: Token)
    requires i <= e <= |s| && Writable(t) && s[i..e] == Lexeme(t)
    requires e < |s| ==> (t.Ident? ==> !IsIdentPart(s[e])) && (t.Int? ==> !IsDigit(s[e]))
    ensures LexemeAt(s, i, e, t)
  {
  }

  /** What is written behind the first token does not continue it. */
  lemma NextStarts(ts: seq<Token>)
    requires ts != [] && Fits(ts) && Fits(ts[1..])
    ensures Write(ts[1..]) != "" ==>
              (ts[0].Ident? ==> !IsIdentPart(Write(ts[1..])[0])) && (ts[0].Int? ==> !IsDigit(Write(ts[1..])[0]))
  {
    var rest := ts[1..];
    if rest != [] {
      assert rest[0] == ts[1] && Apart(ts, 0);
      LexemeStart(ts[0], ts[1]);
      LexemeFirst(ts[1], Write(rest[1..]));
    }
  }

  lemma LexemeFirst(t: Token, rest: string)
    requires Writable(t)
    ensures Lexeme(t) != "" && (Lexeme(t) + rest)[0] == Lexeme(t)[0]
  {
  }

  lemma LexemeInFront(s: string, i: nat, t: Token, rest: string)
    requires i <= |s| && Writable(t) && s[i..] == Lexeme(t) + rest
    requires rest != "" ==> (t.Ident? ==> !IsIdentPart(rest[0])) && (t.Int? ==> !IsDigit(rest[0]))
    ensures var e := i + |Lexeme(t)|; LexemeAt(s, i, e, t) && s[e..] == rest
  {
    CutFront(s, i, Lexeme(t), rest);
    LexemeStands(s, i, i + |Lexeme(t)|, t);
  }

  lemma FirstLexeme(s: string, i: nat, ts: seq<Token>)
    requires i <= |s| && Fits(ts) && ts != [] && s[i..] == Write(ts)
    ensures var e := i + |Lexeme(ts[0])|; LexemeAt(s, i, e, ts[0]) && s[e..] == Write(ts[1..])
  {
    FitsTail(ts);
    var rest := Write(ts[1..]);
    NextStarts(ts);
    LexemeInFront(s, i, ts[0], rest);
  }

  lemma SpellsStep(s: string, i: nat, g: nat, e: nat, ts: seq<Token>)
    requires |ts| > 1 && LexemeAt(s, g, e, ts[0]) && SpaceBetween(s, i, g) && Spells(s, e, ts[1..])
    ensures Spells(s, i, ts)
  {
  }

  lemma WriteStep(s: string, i: nat, ts: seq<Token>)
    requires i <= |s| && Fits(ts) && ts != [] && s[i..] == Write(ts)
    requires i + |Lexeme(ts[0])| <= |s| && Spells(s, i + |Lexeme(ts[0])|, ts[1..] + [EOF])
    ensures Spells(s, i, ts + [EOF])
  {
    FirstLexeme(s, i, ts);
    var all := ts + [EOF];
    assert all[0] == ts[0] && all[1..] == ts[1..] + [EOF];
    SpellsStep(s, i, i, i + |Lexeme(ts[0])|, all);
  }

  lemma {:induction false} WriteSpells(s: string, i: nat, ts: seq<Token>)
    requires i <= |s| && Fits(ts) && s[i..] == Write(ts)
    ensures Spells(s, i, ts + [EOF])
    decreases |ts|
  {
    if ts == [] {
      assert ts + [EOF] == [EOF];
    } else {
      FirstLexeme(s, i, ts);
      FitsTail(ts);
      WriteSpells(s, i + |Lexeme(ts[0])|, ts[1..]);
      WriteStep(s, i, ts);
    }
  }
}
