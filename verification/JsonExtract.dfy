/** Pulling the first JSON object out of a model reply (internal/agents/jsonparse.go). */
module JsonExtract {
  import opened Prelude

  datatype ExtractError = NoObject | Unbalanced

  type Extracted = Result<string, ExtractError>

  // ---------------------------------------------------------------------
  // Fence stripping
  // ---------------------------------------------------------------------

  /** Three backticks at offset `k`. */
  predicate FenceAt(s: string, k: nat) {
    k + 2 < |s| && s[k] == '`' && s[k + 1] == '`' && s[k + 2] == '`'
  }

  function IndexFenceFrom(s: string, i: nat): (r: Option<nat>)
    requires i <= |s|
    ensures r.Some? ==> i <= r.value && FenceAt(s, r.value) && forall k: nat :: i <= k < r.value ==> !FenceAt(s, k)
    ensures r.None? ==> forall k: nat :: i <= k ==> !FenceAt(s, k)
    decreases |s| - i
  {
    if FenceAt(s, i) then Some(i) else if i == |s| then None else IndexFenceFrom(s, i + 1)
  }

  function IndexFence(s: string): Option<nat> { IndexFenceFrom(s, 0) }

  function IndexByteFrom(s: string, c: char, i: nat): (r: Option<nat>)
    requires i <= |s|
    ensures r.Some? ==> i <= r.value < |s| && s[r.value] == c && forall k :: i <= k < r.value ==> s[k] != c
    ensures r.None? ==> forall k :: i <= k < |s| ==> s[k] != c
    decreases |s| - i
  {
    if i == |s| then None else if s[i] == c then Some(i) else IndexByteFrom(s, c, i + 1)
  }

  function IndexByte(s: string, c: char): Option<nat> { IndexByteFrom(s, c, 0) }

  predicate IsAlnum(c: char) { 'a' <= c <= 'z' || 'A' <= c <= 'Z' || '0' <= c <= '9' }

  /** `isWord`: a fence language tag. */
  method IsWord(s: string) returns (r: bool)
    ensures r == Word(s)
  {
    if s == "" { return false; }
    for i := 0 to |s|
      invariant forall k :: 0 <= k < i ==> IsAlnum(s[k])
    {
      if !IsAlnum(s[i]) { return false; }
    }
    return true;
  }

  predicate Word(s: string) { s != "" && forall k :: 0 <= k < |s| ==> IsAlnum(s[k]) }

  /** Drops the rest of the opening fence's line when it is empty or a word. */
  function DropTag(t: string): string {
    match IndexByte(t, '\n')
    case None => t
    case Some(nl) =>
      var first := TrimSpace(t[..nl]);
      if first == "" || Word(first) then t[nl + 1..] else t
  }

  function CutAtFence(t: string): string {
    match IndexFence(t) case None => t case Some(j) => t[..j]
  }

  function StripFence(s: string): string {
    match IndexFence(s) case None => s case Some(i) => CutAtFence(DropTag(s[i + 3..]))
  }

  // ---------------------------------------------------------------------
  // The scanner
  // ---------------------------------------------------------------------

  /** The scan loop from offset `i` in a given state: the offset just after the
      brace that brings the depth to zero, or None at the end of the text. */
  function Scan(t: string, i: nat, depth: int, inStr: bool, esc: bool): (r: Option<nat>)
    requires i <= |t|
    ensures r.Some? ==> i < r.value <= |t|
    decreases |t| - i
  {
    if i == |t| then None
    else if inStr then
      if esc then Scan(t, i + 1, depth, true, false)
      else if t[i] == '\\' then Scan(t, i + 1, depth, true, true)
      else if t[i] == '"' then Scan(t, i + 1, depth, false, esc)
      else Scan(t, i + 1, depth, true, esc)
    else if t[i] == '"' then Scan(t, i + 1, depth, true, esc)
    else if t[i] == '{' then Scan(t, i + 1, depth + 1, false, esc)
    else if t[i] == '}' then if depth - 1 == 0 then Some(i + 1) else Scan(t, i + 1, depth - 1, false, esc)
    else Scan(t, i + 1, depth, false, esc)
  }

  function Extract(s: string): Extracted { ObjectIn(StripFence(s)) }

  /** The object at the first brace of `t`. */
  function ObjectIn(t: string): Extracted {
    match IndexByte(t, '{')
    case None => Err(NoObject)
    case Some(start) =>
      match Scan(t, start, 0, false, false)
      case None => Err(Unbalanced)
      case Some(e) => Ok(t[start..e])
  }

  method DropTagLine(t: string) returns (r: string)
    ensures r == DropTag(t)
  {
    r := t;
    var nl := IndexByte(t, '\n');
    if nl.Some? {
      var firstLine := TrimSpace(t[..nl.value]);
      var word := IsWord(firstLine);
      if firstLine == "" || word {
        r := t[nl.value + 1..];
      }
    }
  }

  /** The fence handling of `extractJSONObject`, reslicing `t` step by step. */
  method StripFences(s: string) returns (t: string)
    ensures t == StripFence(s)
  {
    t := s;
    var i := IndexFence(t);
    if i.Some? {
      t := DropTagLine(t[i.value + 3..]);
      var j := IndexFence(t);
      if j.Some? {
        t := t[..j.value];
      }
    }
  }

  /** `extractJSONObject`. */
  method ExtractJsonObject(s: string) returns (r: Extracted)
    ensures r == Extract(s)
  {
    var t := StripFences(s);
    var start := IndexByte(t, '{');
    if start.None? {
      return Err(NoObject);
    }
    r := ScanObject(t, start.value);
  }

  /** The scan loop of `extractJSONObject`. */
  method ScanObject(t: string, start: nat) returns (r: Extracted)
    requires start < |t|
    ensures r == match Scan(t, start, 0, false, false) case None => Err(Unbalanced) case Some(e) => Ok(t[start..e])
  {
    var depth := 0;
    var inStr, esc := false, false;
    var i := start;
    while i < |t|
      invariant start <= i <= |t|
      invariant Scan(t, start, 0, false, false) == Scan(t, i, depth, inStr, esc)
    {
      var c := t[i];
      if inStr {
        if esc {
          esc := false;
        } else if c == '\\' {
          esc := true;
        } else if c == '"' {
          inStr := false;
        }
      } else if c == '"' {
        inStr := true;
      } else if c == '{' {
        depth := depth + 1;
      } else if c == '}' {
        depth := depth - 1;
        if depth == 0 {
          return Ok(t[start..i + 1]);
        }
      }
      i := i + 1;
    }
    return Err(Unbalanced);
  }

  // ---------------------------------------------------------------------
  // Balanced blocks, stated as a grammar without a depth counter
  // ---------------------------------------------------------------------

  /** A character of a quoted string: itself, or a backslash and any character. */
  datatype QChar = Raw(c: char) | Escaped(c: char)

  datatype Piece =
    | Plain(c: char)
    | Quoted(body: seq<QChar>)
    | Block(inner: seq<Piece>)

  predicate LegalBody(body: seq<QChar>) {
    forall k :: 0 <= k < |body| ==> body[k].Raw? ==> body[k].c != '"' && body[k].c != '\\'
  }

  predicate Legal(p: Piece) {
    match p
    case Plain(c) => c != '"' && c != '{' && c != '}'
    case Quoted(body) => LegalBody(body)
    case Block(inner) => forall q :: q in inner ==> Legal(q)
  }

  predicate AllLegal(ps: seq<Piece>) { forall p :: p in ps ==> Legal(p) }

  function QText(q: QChar): string {
    if q.Raw? then [q.c] else ['\\', q.c]
  }

  function BodyText(body: seq<QChar>): string {
    if body == [] then ""
    else QText(body[0]) + BodyText(body[1..])
  }

  function PieceText(p: Piece): string
    decreases p, 0
  {
    match p
    case Plain(c) => [c]
    case Quoted(body) => "\"" + BodyText(body) + "\""
    case Block(inner) => "{" + PiecesText(inner) + "}"
  }

  function PiecesText(ps: seq<Piece>): string
    decreases ps, 1
  {
    if ps == [] then "" else PieceText(ps[0]) + PiecesText(ps[1..])
  }

  /** `w` is one balanced, string-aware `{ ... }` block. */
  ghost predicate IsBlock(w: string) {
    exists inner :: AllLegal(inner) && w == PieceText(Block(inner))
  }

  // ---------------------------------------------------------------------
  // The scanner finds blocks
  // ---------------------------------------------------------------------

  predicate TextAt(t: string, i: nat, w: string) {
    i + |w| <= |t| && t[i..i + |w|] == w
  }

  lemma TextAtSplit(t: string, i: nat, a: string, b: string)
    requires TextAt(t, i, a + b)
    ensures TextAt(t, i, a) && TextAt(t, i + |a|, b)
  {
    var w := t[i..i + |a + b|];
    assert w[..|a|] == a && w[|a|..] == b;
    assert t[i..i + |a|] == w[..|a|];
    assert t[i + |a|..i + |a + b|] == w[|a|..];
  }

  lemma TextAtChar(t: string, i: nat, c: char)
    requires TextAt(t, i, [c])
    ensures i < |t| && t[i] == c
  {
    assert t[i] == t[i..i + 1][0];
  }

  lemma {:induction false} ScanBody(t: string, i: nat, depth: int, body: seq<QChar>)
    requires LegalBody(body) && TextAt(t, i, BodyText(body))
    ensures Scan(t, i, depth, true, false) == Scan(t, i + |BodyText(body)|, depth, true, false)
    decreases |body|
  {
    if body != [] {
      var head := QText(body[0]);
      TextAtSplit(t, i, head, BodyText(body[1..]));
      ScanChar(t, i, depth, body[0]);
      ScanBody(t, i + |head|, depth, body[1..]);
    }
  }

  lemma ScanChar(t: string, i: nat, depth: int, q: QChar)
    requires (q.Raw? ==> q.c != '"' && q.c != '\\') && TextAt(t, i, QText(q))
    ensures Scan(t, i, depth, true, false) == Scan(t, i + |QText(q)|, depth, true, false)
  {
    if q.Raw? {
      TextAtChar(t, i, q.c);
    } else {
      TextAtSplit(t, i, ['\\'], [q.c]);
      TextAtChar(t, i, '\\');
      TextAtChar(t, i + 1, q.c);
    }
  }

  lemma ScanQuoted(t: string, i: nat, depth: int, body: seq<QChar>)
    requires LegalBody(body) && TextAt(t, i, "\"" + BodyText(body) + "\"")
    ensures Scan(t, i, depth, false, false) == Scan(t, i + |BodyText(body)| + 2, depth, false, false)
  {
    TextAtSplit(t, i, "\"" + BodyText(body), "\"");
    TextAtSplit(t, i, "\"", BodyText(body));
    TextAtChar(t, i, '"');
    TextAtChar(t, i + 1 + |BodyText(body)|, '"');
    ScanBody(t, i + 1, depth, body);
  }

  lemma BlockEnds(t: string, i: nat, inner: seq<Piece>)
    requires TextAt(t, i, PieceText(Block(inner)))
    ensures i < |t| && t[i] == '{' && TextAt(t, i + 1, PiecesText(inner))
    ensures var e := i + 1 + |PiecesText(inner)|; e < |t| && t[e] == '}' && e + 1 == i + |PieceText(Block(inner))|
  {
    TextAtSplit(t, i, "{" + PiecesText(inner), "}");
    TextAtSplit(t, i, "{", PiecesText(inner));
    TextAtChar(t, i, '{');
    TextAtChar(t, i + 1 + |PiecesText(inner)|, '}');
  }

  lemma {:induction false} ScanPiece(t: string, i: nat, depth: int, p: Piece)
    requires depth >= 1 && Legal(p) && TextAt(t, i, PieceText(p))
    ensures Scan(t, i, depth, false, false) == Scan(t, i + |PieceText(p)|, depth, false, false)
    decreases p, 0
  {
    match p {
      case Plain(c) =>
        TextAtChar(t, i, c);
      case Quoted(body) =>
        ScanQuoted(t, i, depth, body);
      case Block(inner) =>
        BlockEnds(t, i, inner);
        ScanPieces(t, i + 1, depth + 1, inner);
    }
  }

  lemma {:induction false} ScanPieces(t: string, i: nat, depth: int, ps: seq<Piece>)
    requires depth >= 1 && AllLegal(ps) && TextAt(t, i, PiecesText(ps))
    ensures Scan(t, i, depth, false, false) == Scan(t, i + |PiecesText(ps)|, depth, false, false)
    decreases ps, 1
  {
    if ps != [] {
      TextAtSplit(t, i, PieceText(ps[0]), PiecesText(ps[1..]));
      ScanPiece(t, i, depth, ps[0]);
      ScanPieces(t, i + |PieceText(ps[0])|, depth, ps[1..]);
    }
  }

  /** A block standing at `i` is exactly what a scan started there stops after. */
  lemma ScanFindsBlock(t: string, i: nat, w: string)
    requires IsBlock(w) && TextAt(t, i, w)
    ensures i < |t| && t[i] == '{' && Scan(t, i, 0, false, false) == Some(i + |w|)
  {
    var inner :| AllLegal(inner) && w == PieceText(Block(inner));
    BlockEnds(t, i, inner);
    ScanPieces(t, i + 1, 1, inner);
  }

  // ---------------------------------------------------------------------
  // What the scanner finds is a block
  // ---------------------------------------------------------------------

  /** The rest of a text inside as many open blocks as `stack` has entries. */
  function Closing(stack: seq<seq<Piece>>): string {
    if stack == [] then "" else PiecesText(stack[0]) + "}" + Closing(stack[1..])
  }

  predicate LegalStack(stack: seq<seq<Piece>>) {
    forall k :: 0 <= k < |stack| ==> AllLegal(stack[k])
  }

  /** Adds a piece in front of the innermost open block. */
  function PushPiece(p: Piece, stack: seq<seq<Piece>>): (r: seq<seq<Piece>>)
    requires stack != [] && Legal(p) && LegalStack(stack)
    ensures |r| == |stack| && LegalStack(r)
  {
    assert AllLegal(stack[0]);
    assert AllLegal([p] + stack[0]);
    [[p] + stack[0]] + stack[1..]
  }

  lemma PushPieceText(p: Piece, stack: seq<seq<Piece>>)
    requires stack != [] && Legal(p) && LegalStack(stack)
    ensures Closing(PushPiece(p, stack)) == PieceText(p) + Closing(stack)
  {
    var ps := [p] + stack[0];
    assert ps[0] == p && ps[1..] == stack[0];
    var r := PushPiece(p, stack);
    assert r[0] == ps && r[1..] == stack[1..];
    assert PieceText(p) + PiecesText(stack[0]) + "}" + Closing(stack[1..])
        == PieceText(p) + (PiecesText(stack[0]) + "}" + Closing(stack[1..]));
  }

  lemma BraceText(a: string, b: string)
    ensures "{" + a + "}" + b == "{" + (a + "}" + b)
  {
  }

  /** A block in front of what is still open. */
  lemma OpenBlock(inner: seq<Piece>, stack: seq<seq<Piece>>)
    requires AllLegal(inner) && LegalStack(stack) && stack != []
    ensures Closing(PushPiece(Block(inner), stack)) == "{" + (PiecesText(inner) + "}" + Closing(stack))
  {
    PushPieceText(Block(inner), stack);
    BraceText(PiecesText(inner), Closing(stack));
  }

  lemma LegalParts(stack: seq<seq<Piece>>)
    requires LegalStack(stack) && stack != []
    ensures AllLegal(stack[0]) && LegalStack(stack[1..])
  {
    assert forall k :: 0 <= k < |stack| - 1 ==> stack[1..][k] == stack[k + 1];
  }

  /** A string in front of what is still open. */
  lemma OpenString(body: seq<QChar>, rest: seq<seq<Piece>>)
    requires LegalBody(body) && LegalStack(rest) && rest != []
    ensures Closing(PushPiece(Quoted(body), rest)) == "\"" + (BodyText(body) + "\"" + Closing(rest))
  {
    PushPieceText(Quoted(body), rest);
    QuoteText(BodyText(body), Closing(rest));
  }

  lemma QuoteText(a: string, b: string)
    ensures "\"" + a + "\"" + b == "\"" + (a + "\"" + b)
  {
  }

  /** A closing brace: one more block open behind it. */
  lemma OpenEmpty(rest: seq<seq<Piece>>)
    requires LegalStack(rest)
    ensures LegalStack([[]] + rest) && Closing([[]] + rest) == "}" + Closing(rest)
  {
    var all := [[]] + rest;
    assert all[0] == [] && all[1..] == rest;
    assert PiecesText([]) == "";
  }

  lemma {:induction false} ScanSound(t: string, i: nat, depth: nat) returns (stack: seq<seq<Piece>>)
    requires i <= |t| && depth >= 1 && Scan(t, i, depth, false, false).Some?
    ensures |stack| == depth && LegalStack(stack)
    ensures t[i..Scan(t, i, depth, false, false).value] == Closing(stack)
    decreases |t| - i
  {
    var e := Scan(t, i, depth, false, false).value;
    assert t[i..e] == [t[i]] + t[i + 1..e];
    if t[i] == '"' {
      var body, rest := ScanStringSound(t, i + 1, depth, false);
      OpenString(body, rest);
      stack := PushPiece(Quoted(body), rest);
    } else if t[i] == '{' {
      var rest := ScanSound(t, i + 1, depth + 1);
      LegalParts(rest);
      OpenBlock(rest[0], rest[1..]);
      stack := PushPiece(Block(rest[0]), rest[1..]);
    } else if t[i] == '}' {
      var rest: seq<seq<Piece>> := [];
      if depth == 1 {
        assert t[i + 1..e] == "";
      } else {
        rest := ScanSound(t, i + 1, depth - 1);
      }
      OpenEmpty(rest);
      stack := [[]] + rest;
    } else {
      var rest := ScanSound(t, i + 1, depth);
      PushPieceText(Plain(t[i]), rest);
      stack := PushPiece(Plain(t[i]), rest);
    }
  }

  lemma FirstOfBody(q: QChar, rest: seq<QChar>, tail: string)
    ensures BodyText([q] + rest) + "\"" + tail == QText(q) + (BodyText(rest) + "\"" + tail)
  {
    assert ([q] + rest)[1..] == rest;
  }

  /** The same inside a string; with `esc`, just after its backslash. */
  lemma {:induction false} ScanStringSound(t: string, i: nat, depth: nat, esc: bool)
    returns (body: seq<QChar>, stack: seq<seq<Piece>>)
    requires i <= |t| && depth >= 1 && Scan(t, i, depth, true, esc).Some?
    ensures |stack| == depth && LegalStack(stack) && LegalBody(body)
    ensures (if esc then "\\" else "") + t[i..Scan(t, i, depth, true, esc).value]
         == BodyText(body) + "\"" + Closing(stack)
    decreases |t| - i
  {
    var e := Scan(t, i, depth, true, esc).value;
    assert t[i..e] == [t[i]] + t[i + 1..e];
    if !esc && t[i] == '\\' {
      body, stack := ScanStringSound(t, i + 1, depth, true);
    } else if !esc && t[i] == '"' {
      stack := ScanSound(t, i + 1, depth);
      body := [];
    } else {
      var rest;
      rest, stack := ScanStringSound(t, i + 1, depth, false);
      body := InStringText(t[i], esc, rest, t[i + 1..e], Closing(stack));
    }
  }

  /** One more character in front of the rest of a string, as the scanner reads it. */
  lemma InStringText(ch: char, esc: bool, rest: seq<QChar>, text: string, tail: string) returns (body: seq<QChar>)
    requires LegalBody(rest) && (esc || (ch != '\\' && ch != '"'))
    requires "" + text == BodyText(rest) + "\"" + tail
    ensures LegalBody(body) && (if esc then "\\" else "") + ([ch] + text) == BodyText(body) + "\"" + tail
  {
    EmptyFirst(text);
    if esc {
      EscapedText(ch, text);
      FirstOfBody(Escaped(ch), rest, tail);
      body := [Escaped(ch)] + rest;
    } else {
      EmptyFirst([ch] + text);
      FirstOfBody(Raw(ch), rest, tail);
      body := [Raw(ch)] + rest;
    }
  }

  lemma EmptyFirst(text: string)
    ensures "" + text == text
  {
  }

  lemma EscapedText(ch: char, text: string)
    ensures "\\" + ([ch] + text) == QText(Escaped(ch)) + text
  {
  }

  lemma ScanYieldsBlock(t: string, i: nat)
    requires i < |t| && t[i] == '{' && Scan(t, i, 0, false, false).Some?
    ensures IsBlock(t[i..Scan(t, i, 0, false, false).value])
  {
    var e := Scan(t, i, 0, false, false).value;
    var stack := ScanSound(t, i + 1, 1);
    assert AllLegal(stack[0]);
    assert stack[1..] == [];
    assert t[i..e] == "{" + t[i + 1..e];
    assert t[i..e] == PieceText(Block(stack[0]));
  }

  // ---------------------------------------------------------------------
  // What counts of a reply
  // ---------------------------------------------------------------------

  ghost predicate FenceFree(s: string) { forall k: nat :: !FenceAt(s, k) }

  ghost predicate FirstFence(s: string, i: nat) { FenceAt(s, i) && forall k: nat :: k < i ==> !FenceAt(s, k) }

  /** A line that only names a language: ASCII letters and digits, or nothing. */
  predicate TagLine(line: string) {
    && '\n' !in line
    && forall c :: c in TrimSpace(line) ==> 'a' <= c <= 'z' || 'A' <= c <= 'Z' || '0' <= c <= '9'
  }

  /** `body` is what stands behind an opening fence, without its tag line. */
  ghost predicate Untagged(t: string, body: string) {
    || (exists line :: TagLine(line) && t == line + "\n" + body)
    || (body == t && forall line, rest :: t == line + "\n" + rest ==> !TagLine(line))
  }

  /** `part` is what stands before the closing fence, if there is one. */
  ghost predicate Unclosed(body: string, part: string) {
    if FenceFree(body) then part == body else exists rest :: body == part + "```" + rest && FirstFence(body, |part|)
  }

  /** `part` is what counts of the reply: all of it, or the first fenced block. */
  ghost predicate Counts(s: string, part: string) {
    if FenceFree(s) then part == s
    else exists intro, t, body :: s == intro + "```" + t && FirstFence(s, |intro|) && Untagged(t, body) && Unclosed(body, part)
  }

  lemma FenceFoundIs(s: string, i: nat)
    ensures IndexFence(s) == Some(i) <==> FirstFence(s, i)
    ensures IndexFence(s).None? <==> FenceFree(s)
  {
    assert FirstFence(s, i) ==> IndexFence(s).Some?;
  }

  lemma FenceSplits(s: string, i: nat)
    requires FenceAt(s, i)
    ensures i + 3 <= |s| && s == s[..i] + "```" + s[i + 3..]
  {
    assert s == s[..i] + [s[i], s[i + 1], s[i + 2]] + s[i + 3..];
  }

  lemma LineEnds(t: string, line: string, rest: string)
    requires t == line + "\n" + rest && '\n' !in line
    ensures IndexByte(t, '\n') == Some(|line|) && t[..|line|] == line && t[|line| + 1..] == rest
  {
    assert t[|line|] == '\n';
    assert forall k :: 0 <= k < |line| ==> t[k] == line[k];
    assert IndexByte(t, '\n').Some?;
  }

  lemma TagDropped(t: string, body: string)
    ensures DropTag(t) == body <==> Untagged(t, body)
  {
    forall line, rest | t == line + "\n" + rest && TagLine(line) ensures DropTag(t) == rest && |rest| < |t| {
      LineEnds(t, line, rest);
      WordTag(line);
    }
    if DropTag(t) != t {
      var nl := IndexByte(t, '\n').value;
      assert t == t[..nl] + "\n" + t[nl + 1..];
      WordTag(t[..nl]);
    }
  }

  lemma WordTag(line: string)
    requires '\n' !in line
    ensures TagLine(line) <==> TrimSpace(line) == "" || Word(TrimSpace(line))
  {
    var w := TrimSpace(line);
    assert forall k :: 0 <= k < |w| ==> w[k] in w;
  }

  lemma ClosedCut(body: string, part: string)
    ensures CutAtFence(body) == part <==> Unclosed(body, part)
  {
    if IndexFence(body).Some? {
      var j := IndexFence(body).value;
      FenceFoundIs(body, j);
      FenceSplits(body, j);
      assert body == body[..j] + "```" + body[j + 3..] && |body[..j]| == j;
      forall rest | body == part + "```" + rest && FirstFence(body, |part|) ensures part == body[..j] {
        FenceFoundIs(body, |part|);
        assert body[..|part|] == part;
      }
      assert part == body[..j] ==> body == part + "```" + body[j + 3..] && FirstFence(body, |part|);
    } else {
      FenceFoundIs(body, 0);
    }
  }

  /** Exactly one part counts, and it is the one the code cuts out. */
  lemma StripDecides(s: string, part: string)
    ensures StripFence(s) == part <==> Counts(s, part)
  {
    if FenceFree(s) {
      FenceFoundIs(s, 0);
    } else {
      var i := IndexFence(s).value;
      FenceFoundIs(s, i);
      FenceSplits(s, i);
      TagDropped(s[i + 3..], DropTag(s[i + 3..]));
      ClosedCut(DropTag(s[i + 3..]), StripFence(s));
      forall intro, t, body | s == intro + "```" + t && FirstFence(s, |intro|) && Untagged(t, body) && Unclosed(body, part)
        ensures StripFence(s) == part
      {
        FenceFoundIs(s, |intro|);
        assert s[|intro| + 3..] == t;
        TagDropped(t, body);
        ClosedCut(body, part);
      }
    }
  }

  lemma ObjectInDecides(t: string)
    ensures IndexByte(t, '{').None? <==> ObjectIn(t) == Err(NoObject)
    ensures IndexByte(t, '{').Some? ==>
              var a := IndexByte(t, '{').value;
              && (forall e: nat :: a <= e <= |t| && IsBlock(t[a..e]) ==> ObjectIn(t) == Ok(t[a..e]))
              && (ObjectIn(t).Ok? ==> IsBlock(ObjectIn(t).value) && TextAt(t, a, ObjectIn(t).value))
              && (ObjectIn(t).Err? ==> ObjectIn(t) == Err(Unbalanced))
  {
    if IndexByte(t, '{').Some? {
      var a := IndexByte(t, '{').value;
      forall e: nat | a <= e <= |t| && IsBlock(t[a..e]) ensures ObjectIn(t) == Ok(t[a..e]) {
        ScanFindsBlock(t, a, t[a..e]);
      }
      if ObjectIn(t).Ok? {
        ScanYieldsBlock(t, a);
      }
    }
  }

  /** The extractor, specified by the part that counts: the text returned is the one
      balanced block standing at the first brace; it reports an unbalanced object
      exactly when no prefix of the text from that brace is balanced, and no object
      exactly when there is no brace. */
  lemma ExtractDecides(s: string, t: string)
    requires Counts(s, t)
    ensures IndexByte(t, '{').None? <==> Extract(s) == Err(NoObject)
    ensures IndexByte(t, '{').Some? ==>
              var a := IndexByte(t, '{').value;
              && (forall e: nat :: a <= e <= |t| && IsBlock(t[a..e]) ==> Extract(s) == Ok(t[a..e]))
              && (Extract(s).Ok? ==> IsBlock(Extract(s).value) && TextAt(t, a, Extract(s).value))
              && (Extract(s).Err? ==> Extract(s) == Err(Unbalanced))
  {
    StripDecides(s, t);
    ObjectInDecides(t);
  }

  lemma FencedCounts(intro: string, tag: string, body: string, part: string)
    requires FenceFree(intro) && (intro != "" ==> intro[|intro| - 1] != '`') && TagLine(tag) && Unclosed(body, part)
    ensures Counts(intro + "```" + (tag + "\n" + body), part)
  {
    var t := tag + "\n" + body;
    FenceAfter(intro, t);
    assert Untagged(t, body);
    assert FenceAt(intro + "```" + t, |intro|);
  }

  /** The first brace stands at `a`, and no block starts there. */
  ghost predicate Hopeless(t: string, a: nat) {
    a < |t| && t[a] == '{' && '{' !in t[..a] && forall e: nat :: a <= e <= |t| ==> !IsBlock(t[a..e])
  }

  lemma ObjectInFails(t: string)
    ensures '{' !in t ==> ObjectIn(t) == Err(NoObject)
    ensures forall a: nat :: Hopeless(t, a) ==> ObjectIn(t) == Err(Unbalanced)
  {
    ObjectInDecides(t);
    forall a: nat | Hopeless(t, a) ensures ObjectIn(t) == Err(Unbalanced) {
      FirstBrace(t, a);
      forall v | TextAt(t, a, v) ensures !IsBlock(v) { assert t[a..a + |v|] == v; }
    }
  }

  /** What follows the closing fence never counts. */
  lemma AfterFenceIgnored(intro: string, tag: string, body: string, rest: string)
    requires FenceFree(intro) && (intro != "" ==> intro[|intro| - 1] != '`') && TagLine(tag)
    requires FenceFree(body) && (body != "" ==> body[|body| - 1] != '`')
    ensures var r := Extract(intro + "```" + (tag + "\n" + (body + "```" + rest)));
            && r == Extract(intro + "```" + (tag + "\n" + body))
            && ('{' !in body ==> r == Err(NoObject))
            && forall a: nat :: Hopeless(body, a) ==> r == Err(Unbalanced)
  {
    FenceAfter(body, rest);
    assert FenceAt(body + "```" + rest, |body|);
    FencedCounts(intro, tag, body + "```" + rest, body);
    FencedCounts(intro, tag, body, body);
    StripDecides(intro + "```" + (tag + "\n" + (body + "```" + rest)), body);
    StripDecides(intro + "```" + (tag + "\n" + body), body);
    ObjectInFails(body);
  }

  lemma FirstBrace(t: string, a: nat)
    requires a < |t| && t[a] == '{' && '{' !in t[..a]
    ensures IndexByte(t, '{') == Some(a)
  {
    assert forall k :: 0 <= k < a ==> t[k] == t[..a][k];
    assert IndexByte(t, '{').Some?;
  }

  lemma FenceAfter(a: string, b: string)
    requires FenceFree(a) && (a != "" ==> a[|a| - 1] != '`')
    ensures FirstFence(a + "```" + b, |a|)
  {
    var s := a + "```" + b;
    forall k: nat | k < |a| ensures !FenceAt(s, k) {
      assert !FenceAt(a, k) && s[|a| - 1] == a[|a| - 1];
    }
  }

  /** No block is a proper prefix of another, so the block at a given offset is
      also the shortest one there. */
  lemma BlocksPrefixFree(v: string, w: string, rest: string)
    requires IsBlock(v) && IsBlock(w) && w == v + rest
    ensures rest == ""
  {
    assert w[0..|v|] == v && w[0..|w|] == w;
    ScanFindsBlock(w, 0, v);
    ScanFindsBlock(w, 0, w);
  }
}
