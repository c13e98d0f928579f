/** What a template expression means: which value it reaches, and which text a
    value becomes.  These are relations; no evaluation order is involved. */
module ExprSemantics {
  import opened Prelude
  import opened ExprParser
  import opened ExprTemplate

  datatype BinaryRef = BinaryRef(assetId: string, mimeType: string, kind: string, status: string)

  datatype Item = Item(json: string, binary: map<string, BinaryRef>)

  datatype Value =
    | VObject(fields: map<string, Value>)
    | VArray(items: seq<Value>)
    | VNumber(literal: string)
    | VString(s: string)
    | VBool(b: bool)
    | VInt(n: int)
    | VNull
    | VBinaries(refs: map<string, BinaryRef>)
    | VBinary(ref: BinaryRef)
    | VItem(item: Item)

  /** The library calls evaluation depends on; None stands for their error. */
  datatype Library = Library(decode: string -> Option<Value>, marshal: Value -> Option<string>,
                             lower: string -> string, now: string, itoa: int -> string)

  datatype Context = Context(self: seq<Item>, nodeById: Option<string -> Result<seq<Item>, string>>,
                             itemIdx: int, lib: Library)

  // ---------------------------------------------------------------------
  // Paths through a value
  // ---------------------------------------------------------------------

  /** One step of a path: a name after a dot, a quoted key or a number in brackets. */
  datatype Hop = Name(name: string) | Key(key: string) | Position(digits: string)

  /** `v` holds `w` under the key. */
  predicate Holds(v: Value, key: string, w: Value) {
    || (v.VObject? && key in v.fields && w == v.fields[key])
    || (v.VBinaries? && key in v.refs && w == VBinary(v.refs[key]))
  }

  /** `w` stands at position `i` of the array `v`: `i` elements come before it. */
  predicate StandsAt(v: Value, i: nat, w: Value) {
    v.VArray? && i < |v.items| && v.items[..i] + [w] + v.items[i + 1..] == v.items
  }

  /** The hop leads from `v` to `w`.  An item has the two members json and binary. */
  predicate Leads(v: Value, hop: Hop, w: Value, lib: Library) {
    match hop
    case Name(name) =>
      || Holds(v, name, w)
      || (v.VItem? && name == "json" && lib.decode(v.item.json) == Some(w))
      || (v.VItem? && name == "binary" && w == VBinaries(v.item.binary))
    case Key(key) => Holds(v, key, w)
    case Position(digits) => Atoi(digits).Some? && Atoi(digits).value >= 0 && StandsAt(v, Atoi(digits).value, w)
  }

  /** The path leads from `v` to `w`. */
  ghost predicate Reaches(v: Value, path: seq<Hop>, w: Value, lib: Library)
    decreases |path|
  {
    if path == [] then v == w
    else var hop, rest := path[0], path[1..]; exists u :: Leads(v, hop, u, lib) && Reaches(u, rest, w, lib)
  }

  /** What a root stands for: the current item's two halves, or the time. */
  predicate RootIs(name: string, c: Context, v: Value) {
    || (name == "$json" && 0 <= c.itemIdx < |c.self| && c.lib.decode(c.self[c.itemIdx].json) == Some(v))
    || (name == "$binary" && 0 <= c.itemIdx < |c.self| && v == VBinaries(c.self[c.itemIdx].binary))
    || (name == "$now" && v == VString(c.lib.now))
  }

  /** `$node["id"]` is the first item the resolver has for the id. */
  predicate NodeIs(id: string, c: Context, v: Value) {
    && c.nodeById.Some? && v.VItem?
    && var found := c.nodeById.value(id);
       found.Ok? && found.value != [] && found.value[0] == v.item
  }

  // ---------------------------------------------------------------------
  // Texts
  // ---------------------------------------------------------------------

  /** The text of a value: strings and numbers as written, null as nothing, a
      binary reference as its asset id, everything composed as JSON. */
  predicate TextIs(v: Value, lib: Library, s: string) {
    || (v == VString(s))
    || (v == VNumber(s))
    || (v == VBool(true) && s == "true")
    || (v == VBool(false) && s == "false")
    || (v.VInt? && s == lib.itoa(v.n))
    || (v == VNull && s == "")
    || (v.VBinary? && s == v.ref.assetId)
    || ((v.VObject? || v.VArray? || v.VItem?) && lib.marshal(v) == Some(s))
  }

  // ---------------------------------------------------------------------
  // Expressions and templates
  // ---------------------------------------------------------------------

  ghost predicate Means(n: Node, c: Context, v: Value)
    decreases n, 0
  {
    match n
    case RootRef(name) => RootIs(name, c, v)
    case NodeRef(id) => NodeIs(id, c, v)
    case StrLit(text) => v == VString(text)
    case IntLit(num) => v == VInt(num)
    case Member(recv, name) => MeansHop(recv, Name(name), c, v)
    case Index(recv, key, isInt) => MeansHop(recv, if isInt then Position(key) else Key(key), c, v)
    case Method(recv, name) => name == "toLowerCase" && exists s :: MeansText(recv, c, s) && v == VString(c.lib.lower(s))
    case JsonStringify(arg) => v.VString? && exists u :: Means(arg, c, u) && c.lib.marshal(u) == Some(v.s)
    case Concat(parts) => v.VString? && SumIs(parts, c, v.s)
  }

  ghost predicate MeansHop(recv: Node, hop: Hop, c: Context, v: Value)
    decreases recv, 1
  {
    exists u :: Means(recv, c, u) && Leads(u, hop, v, c.lib)
  }

  ghost predicate MeansText(n: Node, c: Context, s: string)
    decreases n, 1
  {
    exists v :: Means(n, c, v) && TextIs(v, c.lib, s)
  }

  /** The texts of the parts, one behind the other. */
  ghost predicate SumIs(parts: seq<Node>, c: Context, s: string)
    decreases parts, 2
  {
    if parts == [] then s == ""
    else exists a, b :: MeansText(parts[0], c, a) && SumIs(parts[1..], c, b) && s == a + b
  }

  /** The expression `head` followed by one hop, and by a path. */
  function Then(head: Node, hop: Hop): Node {
    match hop
    case Name(name) => Member(head, name)
    case Key(key) => Index(head, key, false)
    case Position(digits) => Index(head, digits, true)
  }

  function Follow(head: Node, path: seq<Hop>): Node
    decreases |path|
  {
    if path == [] then head else Follow(Then(head, path[0]), path[1..])
  }

  lemma ThenMeans(head: Node, hop: Hop, c: Context, u: Value)
    ensures Means(Then(head, hop), c, u) <==> MeansHop(head, hop, c, u)
  {
  }

  /** `head` has a value from which the path leads to `w`. */
  ghost predicate Finds(head: Node, path: seq<Hop>, c: Context, w: Value) {
    exists v :: Means(head, c, v) && Reaches(v, path, w, c.lib)
  }

  lemma FindsOn(head: Node, hop: Hop, rest: seq<Hop>, c: Context, w: Value, v: Value, u: Value)
    requires Means(head, c, v) && Leads(v, hop, u, c.lib) && Reaches(u, rest, w, c.lib)
    ensures Finds(Then(head, hop), rest, c, w)
  {
    assert MeansHop(head, hop, c, u);
    ThenMeans(head, hop, c, u);
    assert Means(Then(head, hop), c, u);
  }

  lemma FindsBack(head: Node, path: seq<Hop>, c: Context, w: Value, u: Value)
    requires path != [] && MeansHop(head, path[0], c, u) && Reaches(u, path[1..], w, c.lib)
    ensures Finds(head, path, c, w)
  {
    var v :| Means(head, c, v) && Leads(v, path[0], u, c.lib);
    assert Reaches(v, path, w, c.lib);
  }

  lemma FindsForward(head: Node, path: seq<Hop>, c: Context, w: Value)
    requires path != [] && Finds(head, path, c, w)
    ensures Finds(Then(head, path[0]), path[1..], c, w)
  {
    var hop, rest := path[0], path[1..];
    var v :| Means(head, c, v) && Reaches(v, path, w, c.lib);
    var u :| Leads(v, hop, u, c.lib) && Reaches(u, rest, w, c.lib);
    FindsOn(head, hop, rest, c, w, v, u);
  }

  lemma FindsBackward(head: Node, path: seq<Hop>, c: Context, w: Value)
    requires path != [] && Finds(Then(head, path[0]), path[1..], c, w)
    ensures Finds(head, path, c, w)
  {
    var u :| Means(Then(head, path[0]), c, u) && Reaches(u, path[1..], w, c.lib);
    ThenMeans(head, path[0], c, u);
    FindsBack(head, path, c, w, u);
  }

  /** A path of members and indexes means what it leads to from its head's value. */
  lemma {:induction false} FollowMeans(head: Node, path: seq<Hop>, c: Context, w: Value)
    ensures Means(Follow(head, path), c, w) <==> Finds(head, path, c, w)
    decreases |path|
  {
    if path == [] {
      assert Means(head, c, w) ==> Reaches(w, path, w, c.lib);
    } else {
      FollowMeans(Then(head, path[0]), path[1..], c, w);
      if Finds(head, path, c, w) {
        FindsForward(head, path, c, w);
      } else if Finds(Then(head, path[0]), path[1..], c, w) {
        FindsBackward(head, path, c, w);
      }
    }
  }

  /** What a segment contributes: itself, or the text of its expression. */
  ghost predicate Contributes(seg: Segment, c: Context, s: string) {
    if seg.Expr? then ParseSpan(seg.text).Ok? && MeansText(ParseSpan(seg.text).value, c, s) else s == seg.text
  }

  ghost predicate Renders(segs: seq<Segment>, c: Context, s: string) {
    if segs == [] then s == ""
    else exists a, b :: Contributes(segs[0], c, a) && Renders(segs[1..], c, b) && s == a + b
  }
}
