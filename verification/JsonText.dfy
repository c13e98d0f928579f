/** JSON texts as RFC 8259 writes them, and the promise of the extractor: every
    serialised object comes back exactly, wherever the reply put it. */
module JsonText {
  import opened Prelude
  import opened JsonExtract

  // ---------------------------------------------------------------------
  // Concrete syntax, with white space and escapes kept
  // ---------------------------------------------------------------------

  /** Section 7 of RFC 8259. */
  datatype StrChar =
    | Unescaped(c: char)
    | Escape(c: char)
    | Unicode(hex: string)

  /** Sections 3 to 6.  `gap` fields hold insignificant white space. */
  datatype Json =
    | JName(name: string)
    | JNumber(minus: bool, whole: string, frac: string, exp: string)
    | JString(chars: seq<StrChar>)
    | JArray(gap: string, items: seq<Element>)
    | JObject(gap: string, members: seq<MemberText>)

  datatype Element = Element(before: string, value: Json, after: string)

  datatype MemberText = MemberText(beforeKey: string, key: seq<StrChar>, afterKey: string,
                                   before: string, value: Json, after: string)

  predicate IsGap(w: string) {
    forall k :: 0 <= k < |w| ==> w[k] == ' ' || w[k] == '\t' || w[k] == '\n' || w[k] == '\r'
  }

  predicate IsHex(c: char) { IsDigit(c) || 'a' <= c <= 'f' || 'A' <= c <= 'F' }

  predicate LegalChar(ch: StrChar) {
    match ch
    case Unescaped(c) => c != '"' && c != '\\' && c >= ' '
    case Escape(c) => c in "\"\\/bfnrt"
    case Unicode(hex) => |hex| == 4 && forall k :: 0 <= k < 4 ==> IsHex(hex[k])
  }

  predicate LegalChars(s: seq<StrChar>) { forall k :: 0 <= k < |s| ==> LegalChar(s[k]) }

  predicate LegalNumber(whole: string, frac: string, exp: string) {
    && whole != [] && AllDigits(whole) && (whole[0] == '0' ==> |whole| == 1)
    && (frac != [] ==> |frac| >= 2 && frac[0] == '.' && AllDigits(frac[1..]))
    && (exp != [] ==>
         && (exp[0] == 'e' || exp[0] == 'E')
         && var digits := if |exp| > 1 && (exp[1] == '+' || exp[1] == '-') then exp[2..] else exp[1..];
            digits != [] && AllDigits(digits))
  }

  predicate LegalJson(j: Json) {
    match j
    case JName(name) => name == "true" || name == "false" || name == "null"
    case JNumber(_, whole, frac, exp) => LegalNumber(whole, frac, exp)
    case JString(chars) => LegalChars(chars)
    case JArray(gap, items) =>
      IsGap(gap) && forall x :: x in items ==> IsGap(x.before) && LegalJson(x.value) && IsGap(x.after)
    case JObject(gap, members) =>
      && IsGap(gap)
      && forall m :: m in members ==>
           && IsGap(m.beforeKey) && LegalChars(m.key) && IsGap(m.afterKey)
           && IsGap(m.before) && LegalJson(m.value) && IsGap(m.after)
  }

  function CharText(ch: StrChar): string {
    match ch
    case Unescaped(c) => [c]
    case Escape(c) => ['\\', c]
    case Unicode(hex) => "\\u" + hex
  }

  function CharsText(s: seq<StrChar>): string {
    if s == [] then "" else CharText(s[0]) + CharsText(s[1..])
  }

  function StringText(s: seq<StrChar>): string { "\"" + CharsText(s) + "\"" }

  function Print(j: Json): string
    decreases j, 0
  {
    match j
    case JName(name) => name
    case JNumber(minus, whole, frac, exp) => (if minus then "-" else "") + whole + frac + exp
    case JString(chars) => StringText(chars)
    case JArray(gap, items) => "[" + gap + PrintItems(items) + "]"
    case JObject(gap, members) => "{" + gap + PrintMembers(members) + "}"
  }

  function ItemText(x: Element): string
    decreases x, 1
  {
    x.before + Print(x.value) + x.after
  }

  function PrintItems(items: seq<Element>): string
    decreases items, 2
  {
    if items == [] then ""
    else ItemText(items[0]) + (if |items| == 1 then "" else "," + PrintItems(items[1..]))
  }

  function KeyText(m: MemberText): string {
    m.beforeKey + StringText(m.key) + (m.afterKey + ":" + m.before)
  }

  function PairText(m: MemberText): string
    decreases m, 1
  {
    KeyText(m) + Print(m.value) + m.after
  }

  function PrintMembers(members: seq<MemberText>): string
    decreases members, 2
  {
    if members == [] then ""
    else PairText(members[0]) + (if |members| == 1 then "" else "," + PrintMembers(members[1..]))
  }

  // ---------------------------------------------------------------------
  // A printed value is a run of pieces
  // ---------------------------------------------------------------------

  /** `w` can be cut into legal pieces. */
  ghost predicate IsPieces(w: string) {
    exists ps :: AllLegal(ps) && PiecesText(ps) == w
  }

  lemma {:induction false} PiecesAppend(a: seq<Piece>, b: seq<Piece>)
    ensures PiecesText(a + b) == PiecesText(a) + PiecesText(b)
  {
    if a == [] {
      assert a + b == b;
    } else {
      assert (a + b)[0] == a[0] && (a + b)[1..] == a[1..] + b;
      PiecesAppend(a[1..], b);
    }
  }

  lemma JoinPieces(v: string, w: string)
    requires IsPieces(v) && IsPieces(w)
    ensures IsPieces(v + w)
  {
    var a :| AllLegal(a) && PiecesText(a) == v;
    var b :| AllLegal(b) && PiecesText(b) == w;
    PiecesAppend(a, b);
    assert AllLegal(a + b);
  }

  lemma OnePiece(p: Piece)
    requires Legal(p)
    ensures IsPieces(PieceText(p))
  {
    assert [p][1..] == [];
    assert PiecesText([p]) == PieceText(p);
  }

  predicate PlainText(w: string) {
    forall k :: 0 <= k < |w| ==> w[k] != '"' && w[k] != '{' && w[k] != '}'
  }

  lemma {:induction false} PlainPieces(w: string)
    requires PlainText(w)
    ensures IsPieces(w)
  {
    if w == "" {
      assert PiecesText([]) == w && AllLegal([]);
    } else {
      PlainPieces(w[1..]);
      OnePiece(Plain(w[0]));
      JoinPieces([w[0]], w[1..]);
      assert w == [w[0]] + w[1..];
    }
  }

  lemma {:induction false} CharsAreBody(s: seq<StrChar>) returns (body: seq<QChar>)
    requires LegalChars(s)
    ensures LegalBody(body) && BodyText(body) == CharsText(s)
  {
    if s == [] {
      body := [];
    } else {
      var rest := CharsAreBody(s[1..]);
      match s[0] {
        case Unescaped(c) =>
          body := [Raw(c)] + rest;
          assert body[1..] == rest;
        case Escape(c) =>
          body := [Escaped(c)] + rest;
          assert body[1..] == rest;
        case Unicode(hex) =>
          body := UnicodeBody(hex, rest);
      }
    }
  }

  lemma RawBody(c: char, rest: seq<QChar>)
    requires LegalBody(rest) && LegalBody([Raw(c)])
    ensures LegalBody([Raw(c)] + rest) && BodyText([Raw(c)] + rest) == [c] + BodyText(rest)
  {
    var body := [Raw(c)] + rest;
    assert body[1..] == rest && [Raw(c)][0] == body[0];
  }

  lemma UnicodeBody(hex: string, rest: seq<QChar>) returns (body: seq<QChar>)
    requires LegalChar(Unicode(hex)) && LegalBody(rest)
    ensures LegalBody(body) && BodyText(body) == "\\u" + hex + BodyText(rest)
  {
    RawBody(hex[3], rest);
    var b3 := [Raw(hex[3])] + rest;
    RawBody(hex[2], b3);
    var b2 := [Raw(hex[2])] + b3;
    RawBody(hex[1], b2);
    var b1 := [Raw(hex[1])] + b2;
    RawBody(hex[0], b1);
    var b0 := [Raw(hex[0])] + b1;
    body := [Escaped('u')] + b0;
    assert body[1..] == b0;
    assert BodyText(body) == ['\\', 'u'] + BodyText(b0);
    HexText(hex, BodyText(rest));
  }

  lemma HexText(hex: string, tail: string)
    requires |hex| == 4
    ensures [hex[0]] + ([hex[1]] + ([hex[2]] + ([hex[3]] + tail))) == hex + tail
    ensures ['\\', 'u'] + (hex + tail) == "\\u" + hex + tail
  {
    assert hex == [hex[0], hex[1], hex[2], hex[3]];
  }

  lemma StringPieces(s: seq<StrChar>)
    requires LegalChars(s)
    ensures IsPieces(StringText(s))
  {
    var body := CharsAreBody(s);
    OnePiece(Quoted(body));
  }

  lemma {:induction false} JsonPieces(j: Json)
    requires LegalJson(j)
    ensures IsPieces(Print(j))
    decreases j, 1
  {
    match j {
      case JName(name) => PlainPieces(name);
      case JNumber(_, _, _, _) => NumberPlain(j); PlainPieces(Print(j));
      case JString(chars) => StringPieces(chars);
      case JArray(gap, items) =>
        ItemsPieces(items);
        PlainPieces("[" + gap);
        PlainPieces("]");
        JoinPieces("[" + gap, PrintItems(items));
        JoinPieces("[" + gap + PrintItems(items), "]");
      case JObject(gap, members) =>
        var inner := ObjectBlock(j);
        OnePiece(Block(inner));
    }
  }

  lemma NumberPlain(j: Json)
    requires j.JNumber? && LegalJson(j)
    ensures PlainText(Print(j))
  {
    var exp := j.exp;
    assert PlainText(j.frac) by { assert forall k :: 1 <= k < |j.frac| ==> j.frac[k] == j.frac[1..][k - 1]; }
    assert PlainText(exp) by {
      if |exp| > 1 && (exp[1] == '+' || exp[1] == '-') {
        assert forall k :: 2 <= k < |exp| ==> exp[k] == exp[2..][k - 2];
      } else {
        assert forall k :: 1 <= k < |exp| ==> exp[k] == exp[1..][k - 1];
      }
    }
  }

  lemma ListPieces(first: string, rest: string)
    requires IsPieces(first) && IsPieces(rest)
    ensures IsPieces(first + ("," + rest))
  {
    PlainPieces(",");
    JoinPieces(",", rest);
    JoinPieces(first, "," + rest);
  }

  lemma {:induction false} ItemPieces(x: Element)
    requires IsGap(x.before) && LegalJson(x.value) && IsGap(x.after)
    ensures IsPieces(ItemText(x))
    decreases x, 2
  {
    PlainPieces(x.before);
    JsonPieces(x.value);
    PlainPieces(x.after);
    JoinPieces(x.before, Print(x.value));
    JoinPieces(x.before + Print(x.value), x.after);
  }

  lemma {:induction false} ItemsPieces(items: seq<Element>)
    requires forall x :: x in items ==> IsGap(x.before) && LegalJson(x.value) && IsGap(x.after)
    ensures IsPieces(PrintItems(items))
    decreases items, 3
  {
    if items == [] {
      PlainPieces("");
    } else {
      ItemPieces(items[0]);
      if |items| == 1 {
        assert PrintItems(items) == ItemText(items[0]);
      } else {
        ItemsPieces(items[1..]);
        ListPieces(ItemText(items[0]), PrintItems(items[1..]));
      }
    }
  }

  predicate LegalMember(m: MemberText) {
    IsGap(m.beforeKey) && LegalChars(m.key) && IsGap(m.afterKey) && IsGap(m.before) && LegalJson(m.value) && IsGap(m.after)
  }

  lemma KeyPieces(m: MemberText)
    requires LegalMember(m)
    ensures IsPieces(KeyText(m))
  {
    PlainPieces(m.beforeKey);
    StringPieces(m.key);
    PlainPieces(m.afterKey + ":" + m.before);
    JoinPieces(m.beforeKey, StringText(m.key));
    JoinPieces(m.beforeKey + StringText(m.key), m.afterKey + ":" + m.before);
  }

  lemma {:induction false} PairPieces(m: MemberText)
    requires LegalMember(m)
    ensures IsPieces(PairText(m))
    decreases m, 2
  {
    KeyPieces(m);
    JsonPieces(m.value);
    PlainPieces(m.after);
    JoinPieces(KeyText(m), Print(m.value));
    JoinPieces(KeyText(m) + Print(m.value), m.after);
  }

  lemma {:induction false} MembersPieces(members: seq<MemberText>)
    requires forall m :: m in members ==> LegalMember(m)
    ensures IsPieces(PrintMembers(members))
    decreases members, 3
  {
    if members == [] {
      PlainPieces("");
    } else {
      PairPieces(members[0]);
      if |members| == 1 {
        assert PrintMembers(members) == PairText(members[0]);
      } else {
        MembersPieces(members[1..]);
        ListPieces(PairText(members[0]), PrintMembers(members[1..]));
      }
    }
  }

  lemma {:induction false} ObjectBlock(j: Json) returns (inner: seq<Piece>)
    requires j.JObject? && LegalJson(j)
    ensures AllLegal(inner) && PieceText(Block(inner)) == Print(j)
    decreases j, 0
  {
    forall m | m in j.members ensures LegalMember(m) { }
    MembersPieces(j.members);
    PlainPieces(j.gap);
    JoinPieces(j.gap, PrintMembers(j.members));
    inner :| AllLegal(inner) && PiecesText(inner) == j.gap + PrintMembers(j.members);
    assert "{" + (j.gap + PrintMembers(j.members)) + "}" == "{" + j.gap + PrintMembers(j.members) + "}";
  }

  // ---------------------------------------------------------------------
  // The extractor returns what a printer printed
  // ---------------------------------------------------------------------

  /** With the reply's relevant part `lead + object + tail`, no brace in `lead`. */
  lemma ExtractsAfterLead(s: string, lead: string, j: Json, tail: string)
    requires j.JObject? && LegalJson(j) && '{' !in lead
    requires StripFence(s) == lead + Print(j) + tail
    ensures Extract(s) == Ok(Print(j))
  {
    var t, w := StripFence(s), Print(j);
    var inner := ObjectBlock(j);
    assert IsBlock(w);
    assert t[|lead|..|lead| + |w|] == w;
    ScanFindsBlock(t, |lead|, w);
    assert IndexByte(t, '{') == Some(|lead|) by {
      assert forall k :: 0 <= k < |lead| ==> t[k] == lead[k];
      FirstByteIs(t, '{', |lead|);
    }
  }

  lemma FirstByteIs(s: string, c: char, k: nat)
    requires k < |s| && s[k] == c && forall m :: 0 <= m < k ==> s[m] != c
    ensures IndexByte(s, c) == Some(k)
  {
    assert IndexByte(s, c).Some?;
  }

  /** An object printed inside prose comes back exactly: nothing before it may
      hold a brace, and the reply holds no code fence. */
  lemma ExtractsFromProse(before: string, j: Json, after: string)
    requires j.JObject? && LegalJson(j)
    requires '{' !in before && IndexFence(before + Print(j) + after).None?
    ensures Extract(before + Print(j) + after) == Ok(Print(j))
  {
    ExtractsAfterLead(before + Print(j) + after, before, j, after);
  }

  lemma PrintEnds(j: Json)
    requires j.JObject?
    ensures |Print(j)| >= 2 && Print(j)[0] == '{' && Print(j)[|Print(j)| - 1] == '}'
  {
  }

  lemma BraceIsNoTag(line: string, m: nat)
    requires m < |line| && line[m] == '{'
    ensures TrimSpace(line) != "" && !Word(TrimSpace(line))
  {
    var lo, hi := TrimSpaceFacts(line);
    assert lo <= m < hi;
    assert TrimSpace(line)[m - lo] == '{';
  }

  /** Dropping the opening fence's line never touches an object after it. */
  lemma DropTagKeeps(lead: string, w: string, tail: string) returns (rest: string)
    requires w != "" && w[0] == '{'
    ensures DropTag(lead + w + tail) == rest + w + tail
    ensures |rest| <= |lead| && rest == lead[|lead| - |rest|..]
  {
    var t := lead + w + tail;
    rest := lead;
    if IndexByte(t, '\n').Some? {
      var nl := IndexByte(t, '\n').value;
      if nl < |lead| {
        if DropTag(t) != t {
          rest := lead[nl + 1..];
          assert t[nl + 1..] == rest + w + tail;
        }
      } else {
        assert t[..nl][|lead|] == '{';
        BraceIsNoTag(t[..nl], |lead|);
      }
    }
  }

  /** Cutting at the closing fence never cuts into a fence-free object. */
  lemma CloseFenceKeeps(lead: string, w: string, tail: string)
    requires |w| >= 2 && w[0] == '{' && w[|w| - 1] == '}'
    requires IndexFence(lead).None? && IndexFence(w).None?
    requires IndexFence(lead + w + tail).Some?
    ensures IndexFence(lead + w + tail).value >= |lead| + |w|
  {
    var t := lead + w + tail;
    var k := IndexFence(t).value;
    assert t[|lead|] == '{' && t[|lead| + |w| - 1] == '}';
    assert !FenceAt(lead, k) && (k >= |lead| ==> !FenceAt(w, k - |lead|));
  }

  lemma CutKeeps(lead: string, w: string, tail: string) returns (cut: string)
    requires |w| >= 2 && w[0] == '{' && w[|w| - 1] == '}'
    requires IndexFence(lead).None? && IndexFence(w).None?
    ensures CutAtFence(lead + w + tail) == lead + w + cut
  {
    cut := tail;
    var t := lead + w + tail;
    if IndexFence(t).Some? {
      CloseFenceKeeps(lead, w, tail);
      cut := tail[..IndexFence(t).value - |lead| - |w|];
    }
  }

  lemma FenceFreeSuffix(s: string, k: nat)
    requires IndexFence(s).None? && k <= |s|
    ensures IndexFence(s[k..]).None?
  {
    forall m: nat ensures !FenceAt(s[k..], m) { assert !FenceAt(s, k + m); }
  }

  lemma OpenFenceFound(intro: string, t: string)
    requires IndexFence(intro).None? && (intro != "" ==> intro[|intro| - 1] != '`')
    ensures StripFence(intro + "```" + t) == CutAtFence(DropTag(t))
  {
    var s := intro + "```" + t;
    assert FenceAt(s, |intro|) && s[|intro| + 3..] == t;
    forall k: nat | k < |intro| ensures !FenceAt(s, k) {
      assert !FenceAt(intro, k) && s[|intro| - 1] == intro[|intro| - 1];
    }
    assert IndexFence(s) == Some(|intro|);
  }

  /** An object printed inside a fenced block comes back exactly.  `intro` is
      anything without a fence (it may hold braces), `lead` the rest of the
      fence's line and whatever precedes the object, `tail` anything at all,
      with or without a closing fence. */
  lemma ExtractsFromFence(intro: string, lead: string, j: Json, tail: string)
    requires j.JObject? && LegalJson(j)
    requires IndexFence(intro).None? && (intro != "" ==> intro[|intro| - 1] != '`')
    requires '{' !in lead && IndexFence(lead).None? && IndexFence(Print(j)).None?
    ensures Extract(intro + "```" + (lead + Print(j) + tail)) == Ok(Print(j))
  {
    OpenFenceFound(intro, lead + Print(j) + tail);
    PrintEnds(j);
    var rest := DropTagKeeps(lead, Print(j), tail);
    FenceFreeSuffix(lead, |lead| - |rest|);
    var cut := CutKeeps(rest, Print(j), tail);
    ExtractsAfterLead(intro + "```" + (lead + Print(j) + tail), rest, j, cut);
  }
}
