/** Evaluating expressions and resolving templates (internal/expr/eval.go, expr.go).
    JSON decoding and encoding, lower-casing and the clock are parameters. */
module ExprEval {
  import opened Prelude
  import opened ExprParser
  import opened ExprTemplate
  import opened ExprSemantics

  datatype EvalError =
    | ParseFailed(parseError: ParseError)
    | ItemIndexOutOfRange
    | UnknownRoot(name: string)
    | InvalidJson
    | NoResolver(id: string)
    | ResolverFailed(cause: string)
    | NoItems(id: string)
    | NoSuchItemMember(name: string)
    | FieldNotFound(name: string)
    | BinaryKeyNotFound(name: string)
    | NoFields(name: string)
    | NotAnArray
    | InvalidArrayIndex(key: string)
    | ArrayIndexOutOfRange(index: int)
    | NoStringKeys
    | UnknownMethod(name: string)
    | MarshalFailed
    | CannotStringify

  type Evaluated = Result<Value, EvalError>

  /** A result together with the resolver calls made to get it, in order. */
  datatype Outcome<T> = Outcome(result: Result<T, EvalError>, calls: seq<string>)

  function DecodeJson(raw: string, c: Context): Evaluated {
    match c.lib.decode(raw) case None => Err(InvalidJson) case Some(v) => Ok(v)
  }

  function EvalRoot(name: string, c: Context): Evaluated {
    if name == "$json" then
      if 0 <= c.itemIdx < |c.self| then DecodeJson(c.self[c.itemIdx].json, c) else Err(ItemIndexOutOfRange)
    else if name == "$binary" then
      if 0 <= c.itemIdx < |c.self| then Ok(VBinaries(c.self[c.itemIdx].binary)) else Err(ItemIndexOutOfRange)
    else if name == "$now" then Ok(VString(c.lib.now))
    else Err(UnknownRoot(name))
  }

  function EvalNodeRef(id: string, c: Context): Outcome<Value> {
    match c.nodeById
    case None => Outcome(Err(NoResolver(id)), [])
    case Some(resolve) =>
      Outcome(match resolve(id)
              case Err(cause) => Err(ResolverFailed(cause))
              case Ok(items) => if items == [] then Err(NoItems(id)) else Ok(VItem(items[0])),
              [id])
  }

  function GetMember(v: Value, name: string, c: Context): Evaluated {
    match v
    case VItem(item) =>
      if name == "json" then DecodeJson(item.json, c)
      else if name == "binary" then Ok(VBinaries(item.binary))
      else Err(NoSuchItemMember(name))
    case VObject(fields) => if name in fields then Ok(fields[name]) else Err(FieldNotFound(name))
    case VBinaries(refs) => if name in refs then Ok(VBinary(refs[name])) else Err(BinaryKeyNotFound(name))
    case _ => Err(NoFields(name))
  }

  function GetIndex(v: Value, key: string, isInt: bool): Evaluated {
    if isInt then
      if !v.VArray? then Err(NotAnArray)
      else match Atoi(key)
        case None => Err(InvalidArrayIndex(key))
        case Some(i) => if 0 <= i < |v.items| then Ok(v.items[i]) else Err(ArrayIndexOutOfRange(i))
    else match v
      case VObject(fields) => if key in fields then Ok(fields[key]) else Err(FieldNotFound(key))
      case VBinaries(refs) => if key in refs then Ok(VBinary(refs[key])) else Err(BinaryKeyNotFound(key))
      case _ => Err(NoStringKeys)
  }

  function Marshal(v: Value, c: Context): Result<string, EvalError> {
    match c.lib.marshal(v) case None => Err(MarshalFailed) case Some(s) => Ok(s)
  }

  /** `stringify`: the final text of a value; a JSON null is the empty string. */
  function Stringify(v: Value, c: Context): Result<string, EvalError> {
    match v
    case VString(s) => Ok(s)
    case VNumber(literal) => Ok(literal)
    case VBool(b) => Ok(if b then "true" else "false")
    case VInt(n) => Ok(c.lib.itoa(n))
    case VNull => Ok("")
    case VObject(_) => Marshal(v, c)
    case VArray(_) => Marshal(v, c)
    case VBinary(ref) => Ok(ref.assetId)
    case VItem(_) => Marshal(v, c)
    case VBinaries(_) => Err(CannotStringify)
  }

  function ToText(o: Outcome<Value>, c: Context): Outcome<string> {
    match o.result
    case Err(e) => Outcome(Err(e), o.calls)
    case Ok(v) => Outcome(Stringify(v, c), o.calls)
  }

  function TextValue(o: Outcome<string>, f: string -> string): Outcome<Value> {
    match o.result
    case Err(e) => Outcome(Err(e), o.calls)
    case Ok(s) => Outcome(Ok(VString(f(s))), o.calls)
  }

  function Eval(n: Node, c: Context): Outcome<Value>
    decreases n, 0
  {
    match n
    case RootRef(name) => Outcome(EvalRoot(name, c), [])
    case NodeRef(id) => EvalNodeRef(id, c)
    case StrLit(text) => Outcome(Ok(VString(text)), [])
    case IntLit(num) => Outcome(Ok(VInt(num)), [])
    case Concat(parts) => TextValue(EvalParts(parts, c), s => s)
    case Member(recv, name) =>
      var o := Eval(recv, c);
      if o.result.Ok? then Outcome(GetMember(o.result.value, name, c), o.calls) else o
    case Index(recv, key, isInt) =>
      var o := Eval(recv, c);
      if o.result.Ok? then Outcome(GetIndex(o.result.value, key, isInt), o.calls) else o
    case Method(recv, name) =>
      if name != "toLowerCase" then Outcome(Err(UnknownMethod(name)), [])
      else TextValue(ToText(Eval(recv, c), c), c.lib.lower)
    case JsonStringify(arg) =>
      var o := Eval(arg, c);
      if o.result.Err? then o
      else match Marshal(o.result.value, c)
        case Err(e) => Outcome(Err(e), o.calls)
        case Ok(s) => Outcome(Ok(VString(s)), o.calls)
  }

  /** Runs `first`, then `second` unless `first` failed, and joins their texts. */
  function Join(first: Outcome<string>, second: Outcome<string>): Outcome<string> {
    if first.result.Err? then first
    else if second.result.Err? then Outcome(second.result, first.calls + second.calls)
    else Outcome(Ok(first.result.value + second.result.value), first.calls + second.calls)
  }

  /** The operands of a concat: each evaluated and stringified, left to right. */
  function EvalParts(parts: seq<Node>, c: Context): Outcome<string>
    decreases parts, 1
  {
    if parts == [] then Outcome(Ok(""), [])
    else Join(ToText(Eval(parts[0], c), c), EvalParts(parts[1..], c))
  }

  function EvalSegment(seg: Segment, c: Context): Outcome<string> {
    match seg
    case Literal(t) => Outcome(Ok(t), [])
    case Secret(t) => Outcome(Ok(t), [])
    case Expr(t) =>
      match ParseSpan(t)
      case Err(e) => Outcome(Err(ParseFailed(e)), [])
      case Ok(n) => ToText(Eval(n, c), c)
  }

  function EvalSegments(segs: seq<Segment>, c: Context): Outcome<string> {
    if segs == [] then Outcome(Ok(""), [])
    else Join(EvalSegment(segs[0], c), EvalSegments(segs[1..], c))
  }

  lemma JoinAssociative(a: Outcome<string>, b: Outcome<string>, d: Outcome<string>)
    ensures Join(Join(a, b), d) == Join(a, Join(b, d))
  {
    if a.result.Ok? && b.result.Ok? {
      assert a.calls + b.calls + d.calls == a.calls + (b.calls + d.calls);
      if d.result.Ok? {
        assert a.result.value + b.result.value + d.result.value == a.result.value + (b.result.value + d.result.value);
      }
    }
  }

  lemma JoinUnit(a: Outcome<string>)
    ensures Join(Outcome(Ok(""), []), a) == a && Join(a, Outcome(Ok(""), [])) == a
  {
    assert [] + a.calls == a.calls == a.calls + [];
    if a.result.Ok? { assert "" + a.result.value == a.result.value == a.result.value + ""; }
  }

  // ---------------------------------------------------------------------
  // Evaluation computes the meaning
  // ---------------------------------------------------------------------

  lemma StringifyIs(v: Value, c: Context, s: string)
    ensures Stringify(v, c) == Ok(s) <==> TextIs(v, c.lib, s)
  {
  }

  lemma StandsAtIs(v: Value, i: nat, w: Value)
    ensures StandsAt(v, i, w) <==> v.VArray? && i < |v.items| && v.items[i] == w
  {
    if v.VArray? && i < |v.items| {
      assert (v.items[..i] + [w] + v.items[i + 1..])[i] == w;
    }
  }

  lemma GetMemberLeads(v: Value, name: string, c: Context, w: Value)
    ensures GetMember(v, name, c) == Ok(w) <==> Leads(v, Name(name), w, c.lib)
  {
  }

  lemma GetIndexLeads(v: Value, key: string, isInt: bool, w: Value, lib: Library)
    ensures GetIndex(v, key, isInt) == Ok(w) <==> Leads(v, if isInt then Position(key) else Key(key), w, lib)
  {
    if isInt && Atoi(key).Some? && Atoi(key).value >= 0 { StandsAtIs(v, Atoi(key).value, w); }
  }

  function GetHop(v: Value, hop: Hop, c: Context): Evaluated {
    match hop
    case Name(name) => GetMember(v, name, c)
    case Key(key) => GetIndex(v, key, false)
    case Position(digits) => GetIndex(v, digits, true)
  }

  lemma GetHopLeads(v: Value, hop: Hop, c: Context, w: Value)
    ensures GetHop(v, hop, c) == Ok(w) <==> Leads(v, hop, w, c.lib)
  {
    match hop {
      case Name(name) => GetMemberLeads(v, name, c, w);
      case Key(key) => GetIndexLeads(v, key, false, w, c.lib);
      case Position(digits) => GetIndexLeads(v, digits, true, w, c.lib);
    }
  }

  lemma EvalThen(recv: Node, hop: Hop, c: Context)
    ensures Eval(Then(recv, hop), c).result
            == if Eval(recv, c).result.Ok? then GetHop(Eval(recv, c).result.value, hop, c) else Eval(recv, c).result
  {
  }

  lemma HopAgrees(recv: Node, hop: Hop, c: Context, v: Value)
    requires forall u :: Eval(recv, c).result == Ok(u) <==> Means(recv, c, u)
    ensures Eval(Then(recv, hop), c).result == Ok(v) <==> MeansHop(recv, hop, c, v)
  {
    var o := Eval(recv, c).result;
    EvalThen(recv, hop, c);
    if o.Ok? {
      assert Means(recv, c, o.value);
      GetHopLeads(o.value, hop, c, v);
    }
    if u :| Means(recv, c, u) && Leads(u, hop, v, c.lib) { assert o == Ok(u); }
  }

  /** An expression evaluates to a value exactly when it means that value. */
  lemma {:induction false} EvalMeans(n: Node, c: Context, v: Value)
    ensures Eval(n, c).result == Ok(v) <==> Means(n, c, v)
    decreases n, 0
  {
    match n {
      case Member(recv, name) =>
        forall u ensures Eval(recv, c).result == Ok(u) <==> Means(recv, c, u) { EvalMeans(recv, c, u); }
        HopAgrees(recv, Name(name), c, v);
      case Index(recv, key, isInt) =>
        forall u ensures Eval(recv, c).result == Ok(u) <==> Means(recv, c, u) { EvalMeans(recv, c, u); }
        HopAgrees(recv, if isInt then Position(key) else Key(key), c, v);
      case Method(recv, name) =>
        forall s ensures ToText(Eval(recv, c), c).result == Ok(s) <==> MeansText(recv, c, s) { EvalMeansText(recv, c, s); }
      case JsonStringify(arg) =>
        forall u ensures Eval(arg, c).result == Ok(u) <==> Means(arg, c, u) { EvalMeans(arg, c, u); }
      case Concat(parts) =>
        forall s ensures EvalParts(parts, c).result == Ok(s) <==> SumIs(parts, c, s) { EvalPartsSum(parts, c, s); }
      case _ =>
    }
  }

  lemma {:induction false} EvalMeansText(n: Node, c: Context, s: string)
    ensures ToText(Eval(n, c), c).result == Ok(s) <==> MeansText(n, c, s)
    decreases n, 1
  {
    forall v ensures Eval(n, c).result == Ok(v) <==> Means(n, c, v) { EvalMeans(n, c, v); }
    forall v { StringifyIs(v, c, s); }
  }

  lemma {:induction false} EvalPartsSum(parts: seq<Node>, c: Context, s: string)
    ensures EvalParts(parts, c).result == Ok(s) <==> SumIs(parts, c, s)
    decreases parts, 2
  {
    if parts != [] {
      forall a ensures ToText(Eval(parts[0], c), c).result == Ok(a) <==> MeansText(parts[0], c, a) { EvalMeansText(parts[0], c, a); }
      forall b ensures EvalParts(parts[1..], c).result == Ok(b) <==> SumIs(parts[1..], c, b) { EvalPartsSum(parts[1..], c, b); }
    }
  }

  /** What a path of members and indexes evaluates to: the value it leads to from
      the value of its head. */
  lemma PathEvaluates(head: Node, path: seq<Hop>, c: Context, w: Value)
    ensures Eval(Follow(head, path), c).result == Ok(w) <==> Finds(head, path, c, w)
  {
    FollowMeans(head, path, c, w);
    EvalMeans(Follow(head, path), c, w);
  }

  /** Positions count from the front: a decimal number in brackets is the element
      with that many before it. */
  lemma ElementEvaluates(n: Node, items: seq<Value>, i: nat, c: Context)
    requires Eval(n, c).result == Ok(VArray(items)) && i <= MAX_INT64
    ensures Eval(Index(n, Decimal(i), true), c).result == if i < |items| then Ok(items[i]) else Err(ArrayIndexOutOfRange(i))
  {
    AtoiDecimal(i);
  }

  lemma SegmentContributes(seg: Segment, c: Context, s: string)
    ensures EvalSegment(seg, c).result == Ok(s) <==> Contributes(seg, c, s)
  {
    if seg.Expr? && ParseSpan(seg.text).Ok? { EvalMeansText(ParseSpan(seg.text).value, c, s); }
  }

  /** A template resolves to a text exactly when it renders as that text. */
  lemma {:induction false} SegmentsRender(segs: seq<Segment>, c: Context, s: string)
    ensures EvalSegments(segs, c).result == Ok(s) <==> Renders(segs, c, s)
  {
    if segs != [] {
      forall a ensures EvalSegment(segs[0], c).result == Ok(a) <==> Contributes(segs[0], c, a) { SegmentContributes(segs[0], c, a); }
      forall b ensures EvalSegments(segs[1..], c).result == Ok(b) <==> Renders(segs[1..], c, b) { SegmentsRender(segs[1..], c, b); }
    }
  }

  // ---------------------------------------------------------------------
  // A path that leads nowhere is an error, never an empty text
  // ---------------------------------------------------------------------

  /** The hop leads nowhere from `v`, and why. */
  predicate Blocks(v: Value, hop: Hop, e: EvalError, lib: Library) {
    match e
    case FieldNotFound(name) => (hop == Name(name) || hop == Key(name)) && v.VObject? && name !in v.fields
    case BinaryKeyNotFound(name) => (hop == Name(name) || hop == Key(name)) && v.VBinaries? && name !in v.refs
    case NoSuchItemMember(name) => hop == Name(name) && v.VItem? && name != "json" && name != "binary"
    case InvalidJson => hop == Name("json") && v.VItem? && lib.decode(v.item.json).None?
    case NoFields(name) => hop == Name(name) && !v.VObject? && !v.VBinaries? && !v.VItem?
    case NoStringKeys => hop.Key? && !v.VObject? && !v.VBinaries?
    case NotAnArray => hop.Position? && !v.VArray?
    case InvalidArrayIndex(digits) => hop == Position(digits) && v.VArray? && Atoi(digits).None?
    case ArrayIndexOutOfRange(i) =>
      hop.Position? && v.VArray? && Atoi(hop.digits) == Some(i) && (i < 0 || |v.items| <= i)
    case _ => false
  }

  /** Some hop of the path leads nowhere, after the ones before it led on. */
  ghost predicate Stops(v: Value, path: seq<Hop>, e: EvalError, lib: Library)
    decreases |path|, 0
  {
    path != [] && (Blocks(v, path[0], e, lib) || LeadsOn(v, path[0], path[1..], e, lib))
  }

  ghost predicate LeadsOn(v: Value, hop: Hop, rest: seq<Hop>, e: EvalError, lib: Library)
    decreases |rest|, 1
  {
    exists u :: Leads(v, hop, u, lib) && Stops(u, rest, e, lib)
  }

  lemma GetHopBlocks(v: Value, hop: Hop, c: Context, e: EvalError)
    ensures GetHop(v, hop, c) == Err(e) <==> Blocks(v, hop, e, c.lib)
  {
    match hop { case Name(_) => case Key(_) => case Position(_) => }
  }

  lemma StopsStep(v: Value, path: seq<Hop>, c: Context, e: EvalError)
    requires path != []
    ensures Stops(v, path, e, c.lib) <==>
            if GetHop(v, path[0], c).Err? then GetHop(v, path[0], c).error == e
            else Stops(GetHop(v, path[0], c).value, path[1..], e, c.lib)
  {
    var o := GetHop(v, path[0], c);
    GetHopBlocks(v, path[0], c, e);
    if o.Ok? { GetHopLeads(v, path[0], c, o.value); }
    if u :| Leads(v, path[0], u, c.lib) && Stops(u, path[1..], e, c.lib) { GetHopLeads(v, path[0], c, u); }
  }

  /** The error of a path is its head's, or that of the first hop that leads nowhere. */
  lemma {:induction false} PathFails(head: Node, path: seq<Hop>, c: Context, e: EvalError)
    ensures Eval(Follow(head, path), c).result == Err(e) <==>
            if Eval(head, c).result.Err? then Eval(head, c).result.error == e
            else Stops(Eval(head, c).result.value, path, e, c.lib)
    decreases |path|
  {
    if path != [] {
      EvalThen(head, path[0], c);
      PathFails(Then(head, path[0]), path[1..], c, e);
      if Eval(head, c).result.Ok? { StopsStep(Eval(head, c).result.value, path, c, e); }
    }
  }

  /** Which error a head reports; a resolver's own error comes through. */
  lemma HeadFails(c: Context, id: string, cause: string)
    ensures Eval(RootRef("$json"), c).result == Err(ItemIndexOutOfRange) <==> c.itemIdx < 0 || |c.self| <= c.itemIdx
    ensures Eval(RootRef("$binary"), c).result == Err(ItemIndexOutOfRange) <==> c.itemIdx < 0 || |c.self| <= c.itemIdx
    ensures Eval(NodeRef(id), c).result == Err(NoResolver(id)) <==> c.nodeById.None?
    ensures c.nodeById.Some? ==>
              var found := c.nodeById.value(id);
              && (Eval(NodeRef(id), c).result == Err(ResolverFailed(cause)) <==> found.Err? && found.error == cause)
              && (Eval(NodeRef(id), c).result == Err(NoItems(id)) <==> found.Ok? && |found.value| == 0)
  {
  }

  /** `Resolve`: writes segment after segment, stopping at the first error. */
  method Resolve(template: string, c: Context) returns (r: Result<string, EvalError>, ghost calls: seq<string>)
    ensures r == EvalSegments(Split(template), c).result
    ensures calls == EvalSegments(Split(template), c).calls
    ensures forall s :: r == Ok(s) <==> Renders(Split(template), c, s)
  {
    forall s { SegmentsRender(Split(template), c, s); }
    var segs := SplitTemplate(template);
    var sb := "";
    calls := [];
    JoinUnit(EvalSegments(segs, c));
    for i := 0 to |segs|
      invariant EvalSegments(segs, c) == Join(Outcome(Ok(sb), calls), EvalSegments(segs[i..], c))
    {
      JoinAssociative(Outcome(Ok(sb), calls), EvalSegment(segs[i], c), EvalSegments(segs[i..][1..], c));
      assert segs[i..][1..] == segs[i + 1..];
      ghost var step := EvalSegment(segs[i], c);
      match segs[i] {
        case Literal(t) => sb := sb + t;
        case Secret(t) => sb := sb + t;
        case Expr(t) =>
          var n := Parse(t);
          if n.Err? {
            calls := calls + step.calls;
            return Err(ParseFailed(n.error)), calls;
          }
          var v := Eval(n.value, c).result;
          if v.Err? {
            calls := calls + step.calls;
            return Err(v.error), calls;
          }
          var s := Stringify(v.value, c);
          if s.Err? {
            calls := calls + step.calls;
            return Err(s.error), calls;
          }
          sb := sb + s.value;
      }
      calls := calls + step.calls;
    }
    JoinUnit(Outcome(Ok(sb), calls));
    return Ok(sb), calls;
  }
}
