/** Routing of object storage (internal/storagerouter): where a write lands, what
    token is stored with it, and where that token leads later. */
module StorageRouting {
  import opened Prelude
  import opened StorageConfig
  import opened StorageIdentity

  // ---------------------------------------------------------------------
  // The router
  // ---------------------------------------------------------------------

  /** What is fixed for a process: the store built from a configuration (None when
      building fails), the built-in store, and whether secrets can be decrypted. */
  datatype Env<!S> = Env(build: Resolved -> Option<S>, def: S, box: bool)

  function StoreOf<S>(env: Env<S>, found: Lookup): S {
    if found.Found? && env.build(found.rs).Some? then env.build(found.rs).value else env.def
  }

  /** The token of a write and the lookup its store comes from. */
  datatype Target = Target(token: string, found: Lookup)

  function DefaultTarget(configs: Configs, box: bool, org: string, defaultId: Option<string>): Target {
    if defaultId.Some? && ResolveById(configs, box, org, defaultId.value).Found?
    then Target(defaultId.value, ResolveById(configs, box, org, defaultId.value))
    else Target(BUILTIN, Miss)
  }

  /** Project override, then the org's default, then the built-in store. */
  function WriteTarget(configs: Configs, box: bool, org: string, override: string, defaultId: Option<string>): Target {
    if override != "" && ResolveById(configs, box, org, override).Found?
    then Target(override, ResolveById(configs, box, org, override))
    else DefaultTarget(configs, box, org, defaultId)
  }

  function Serve<S>(env: Env<S>, configs: Configs, org: string, token: string): S {
    if token == BUILTIN then env.def else StoreOf(env, ResolveForServe(configs, env.box, org, token))
  }

  /** One call of `buildCached`: the cache afterwards and the store returned. */
  function Cached<S>(env: Env<S>, digest: string -> string, cache: map<string, S>, rs: Resolved): (map<string, S>, S) {
    var key := Identity(rs, digest);
    if key in cache then (cache, cache[key])
    else if env.build(rs).None? then (cache, env.def)
    else (cache[key := env.build(rs).value], env.build(rs).value)
  }

  /** The store of a lookup, by way of the cache. */
  function Through<S>(env: Env<S>, digest: string -> string, cache: map<string, S>, found: Lookup): S {
    if found.Found? then Cached(env, digest, cache, found.rs).1 else env.def
  }

  /** Where a token leads in one process. */
  function ServeThrough<S>(env: Env<S>, digest: string -> string, cache: map<string, S>, configs: Configs, org: string, token: string): S {
    if token == BUILTIN then env.def else Through(env, digest, cache, ResolveForServe(configs, env.box, org, token))
  }

  /** A new object of the org may go there. */
  predicate Writable(configs: Configs, box: bool, org: string, id: string) {
    id in configs && configs[id].enabled && Readable(configs[id], box, org)
  }

  /** Where a write goes: to the project's own choice if that is usable, else to a
      default of the org if that is, else to the built-in store. */
  ghost predicate WritesTo(configs: Configs, box: bool, org: string, override: string, token: string) {
    if override != "" && Writable(configs, box, org, override) then token == override
    else
      || (Writable(configs, box, org, token) && DefaultOf(configs[token], org))
      || (token == BUILTIN && exists d :: IsDefaultId(configs, org, d) && (d.Some? ==> !Writable(configs, box, org, d.value)))
  }

  lemma TargetIs(configs: Configs, box: bool, org: string, override: string, d: Option<string>)
    requires IsDefaultId(configs, org, d)
    ensures WritesTo(configs, box, org, override, WriteTarget(configs, box, org, override, d).token)
    ensures var t := WriteTarget(configs, box, org, override, d);
            t.found.Found? ==> t.token in configs && IsUnsealed(t.found.rs, configs[t.token])
  {
    ResolveFinds(configs, box, org, override);
    if d.Some? { ResolveFinds(configs, box, org, d.value); }
  }

  /** A read goes to the store of the token's row, enabled or not, when the org may
      read it; to the built-in store in every other case. */
  lemma ServesFrom<S>(env: Env<S>, configs: Configs, org: string, token: string)
    ensures token == BUILTIN || token !in configs || !Readable(configs[token], env.box, org) ==> Serve(env, configs, org, token) == env.def
    ensures token != BUILTIN && token in configs && Readable(configs[token], env.box, org) ==>
              forall rs :: IsUnsealed(rs, configs[token]) ==>
                Serve(env, configs, org, token) == if env.build(rs).Some? then env.build(rs).value else env.def
  {
    ResolveFinds(configs, env.box, org, token);
  }

  /** The cache after further calls. */
  function CacheAfter<S>(env: Env<S>, digest: string -> string, cache: map<string, S>, calls: seq<Resolved>): map<string, S> {
    if calls == [] then cache
    else Cached(env, digest, CacheAfter(env, digest, cache, calls[..|calls| - 1]), calls[|calls| - 1]).0
  }

  /** Once a configuration has a store, it keeps that store in this process,
      whatever else is asked for, ambiguous or not. */
  lemma {:induction false} AnswerSticks<S>(env: Env<S>, digest: string -> string, cache: map<string, S>, rs: Resolved, calls: seq<Resolved>)
    requires env.build(rs).Some? || Identity(rs, digest) in cache
    ensures var first := Cached(env, digest, cache, rs);
            && Identity(rs, digest) in CacheAfter(env, digest, first.0, calls)
            && Cached(env, digest, CacheAfter(env, digest, first.0, calls), rs).1 == first.1
  {
    if calls != [] { AnswerSticks(env, digest, cache, rs, calls[..|calls| - 1]); }
  }

  /** Every cached store was built from some configuration with that identity. */
  ghost predicate CacheSound<S>(env: Env<S>, digest: string -> string, cache: map<string, S>) {
    forall key :: key in cache ==> exists rs :: Identity(rs, digest) == key && env.build(rs) == Some(cache[key])
  }

  lemma CachedSound<S>(env: Env<S>, digest: string -> string, cache: map<string, S>, rs: Resolved)
    requires CacheSound(env, digest, cache)
    ensures CacheSound(env, digest, Cached(env, digest, cache, rs).0)
    ensures IsDigest(digest) && !Ambiguous(rs.backend, digest) ==> Cached(env, digest, cache, rs).1 == StoreOf(env, Found(rs))
  {
    var key := Identity(rs, digest);
    if key in cache {
      var other :| Identity(other, digest) == key && env.build(other) == Some(cache[key]);
      if IsDigest(digest) && !Ambiguous(rs.backend, digest) {
        IdentityShared(rs, digest);
        assert other == rs;
      }
    } else {
      forall k | k in Cached(env, digest, cache, rs).0
        ensures exists r :: Identity(r, digest) == k && env.build(r) == Some(Cached(env, digest, cache, rs).0[k])
      {
        if k == key { assert Identity(rs, digest) == k; }
      }
    }
  }

  lemma {:induction false} CacheAfterSound<S>(env: Env<S>, digest: string -> string, history: seq<Resolved>)
    ensures CacheSound(env, digest, CacheAfter(env, digest, map[], history))
  {
    if history != [] {
      var front := history[..|history| - 1];
      CacheAfterSound(env, digest, front);
      CachedSound(env, digest, CacheAfter(env, digest, map[], front), history[|history| - 1]);
    }
  }

  /** The cache is invisible for a configuration - whatever builds stores, whatever
      was built before - exactly when it is unambiguous. */
  lemma CacheInvisibleExactly<S(!new)>(rs: Resolved, digest: string -> string, x: S, y: S)
    requires IsDigest(digest) && x != y
    ensures (forall env: Env<S>, history: seq<Resolved> ::
               Cached(env, digest, CacheAfter(env, digest, map[], history), rs).1 == StoreOf(env, Found(rs)))
            <==> !Ambiguous(rs.backend, digest)
  {
    if Ambiguous(rs.backend, digest) {
      IdentityShared(rs, digest);
      var b :| b != rs && Identity(b, digest) == Identity(rs, digest);
      var env := Env((r: Resolved) => Some(if r == rs then x else y), x, true);
      TwinAnswers(env, digest, b, rs);
    } else {
      forall env: Env<S>, history: seq<Resolved>
        ensures Cached(env, digest, CacheAfter(env, digest, map[], history), rs).1 == StoreOf(env, Found(rs))
      {
        CacheAfterSound(env, digest, history);
        CachedSound(env, digest, CacheAfter(env, digest, map[], history), rs);
      }
    }
  }

  /** Once the twin of a configuration was built, its store is what the other gets. */
  lemma TwinAnswers<S>(env: Env<S>, digest: string -> string, twin: Resolved, rs: Resolved)
    requires Identity(twin, digest) == Identity(rs, digest) && env.build(twin).Some?
    ensures Cached(env, digest, CacheAfter(env, digest, map[], [twin]), rs).1 == env.build(twin).value
  {
    assert [twin][..0] == [];
    assert CacheAfter(env, digest, map[], [twin]) == map[Identity(twin, digest) := env.build(twin).value];
  }

  /** Two inputs the configuration table accepts: the second is served from the
      first one's store. */
  lemma CollisionServed<S>(env: Env<S>, digest: string -> string)
    requires env.build(Resolved(FIRST_TWIN, "")).Some?
    ensures IsValid(Input(FIRST_TWIN, true, "", "")) && IsValid(Input(SECOND_TWIN, true, "", "")) && FIRST_TWIN != SECOND_TWIN
    ensures Cached(env, digest, CacheAfter(env, digest, map[], [Resolved(FIRST_TWIN, "")]), Resolved(SECOND_TWIN, "")).1
            == env.build(Resolved(FIRST_TWIN, "")).value
  {
    IdentityCollides(digest);
    TwinAnswers(env, digest, Resolved(FIRST_TWIN, ""), Resolved(SECOND_TWIN, ""));
  }

  lemma PickedServes(configs: Configs, box: bool, org: string, mode: string, id: string)
    requires PickedForMode(configs, org, mode, id)
    ensures id in configs && ResolveForServe(configs, box, org, id) == Unsealed(configs[id], box)
  {
  }

  class Router<S(==)> {
    const env: Env<S>
    const digest: string -> string
    const configs: ConfigStore?
    var cache: map<string, S>

    ghost predicate Valid()
      reads this
    {
      IsDigest(digest) && (configs != null ==> configs.box == env.box) && CacheSound(env, digest, cache)
    }

    constructor (env: Env<S>, digest: string -> string, configs: ConfigStore?)
      requires IsDigest(digest) && (configs != null ==> configs.box == env.box)
      ensures Valid() && this.env == env && this.digest == digest && this.configs == configs && cache == map[]
    {
      this.env, this.digest, this.configs, this.cache := env, digest, configs, map[];
    }

    /** A cached store answers for every configuration with its key; that is Build's
        answer for an unambiguous one, whatever else was cached before. */
    method BuildCached(rs: Resolved) returns (s: S)
      requires Valid()
      modifies this`cache
      ensures Valid()
      ensures (cache, s) == Cached(env, digest, old(cache), rs)
      ensures !Ambiguous(rs.backend, digest) ==> s == StoreOf(env, Found(rs))
    {
      CachedSound(env, digest, cache, rs);
      var key := Identity(rs, digest);
      if key in cache {
        return cache[key];
      }
      var built := env.build(rs);
      if built.None? { return env.def; }
      cache := cache[key := built.value];
      return built.value;
    }

    method ResolveWriteTarget(org: string, override: string) returns (s: S, token: string)
      requires Valid()
      modifies this`cache
      ensures Valid()
      ensures configs == null ==> s == env.def && token == BUILTIN
      ensures configs != null ==>
                exists d: Option<string> :: IsDefaultId(configs.configs, org, d)
                  && var t := WriteTarget(configs.configs, env.box, org, override, d);
                     && token == t.token && s == Through(env, digest, old(cache), t.found)
                     && ((t.found.Found? ==> !Ambiguous(t.found.rs.backend, digest)) ==> s == StoreOf(env, t.found))
      ensures configs != null ==> WritesTo(configs.configs, env.box, org, override, token)
    {
      if configs == null { return env.def, BUILTIN; }
      var id := configs.DefaultConfigId(org);
      assert IsDefaultId(configs.configs, org, id);
      TargetIs(configs.configs, env.box, org, override, id);
      if override != "" {
        var found := ResolveById(configs.configs, env.box, org, override);
        if found.Found? {
          s := BuildCached(found.rs);
          return s, override;
        }
      }
      if id.Some? {
        var found := ResolveById(configs.configs, env.box, org, id.value);
        if found.Found? {
          s := BuildCached(found.rs);
          return s, id.value;
        }
      }
      return env.def, BUILTIN;
    }

    method BlobStoreForConfigId(org: string, token: string) returns (s: S)
      requires Valid()
      modifies this`cache
      ensures Valid()
      ensures configs == null || token == BUILTIN ==> s == env.def
      ensures configs != null ==> s == ServeThrough(env, digest, old(cache), configs.configs, org, token)
      ensures configs != null ==>
                var found := ResolveForServe(configs.configs, env.box, org, token);
                (token != BUILTIN && found.Found? ==> !Ambiguous(found.rs.backend, digest)) ==> s == Serve(env, configs.configs, org, token)
    {
      if token == BUILTIN || configs == null { return env.def; }
      var found := ResolveForServe(configs.configs, env.box, org, token);
      if !found.Found? { return env.def; }
      s := BuildCached(found.rs);
    }

    method BlobStoreForMode(org: string, mode: string) returns (s: S)
      requires Valid()
      modifies this`cache
      ensures Valid()
      ensures configs == null ==> s == env.def
      ensures configs != null ==> forall id :: PickedForMode(configs.configs, org, mode, id) ==>
                s == Through(env, digest, old(cache), Unsealed(configs.configs[id], env.box))
                  == Through(env, digest, cache, Unsealed(configs.configs[id], env.box))
      ensures configs != null ==> forall id :: PickedForMode(configs.configs, org, mode, id) ==>
                !Ambiguous(configs.configs[id].backend, digest) ==> s == StoreOf(env, Unsealed(configs.configs[id], env.box))
      ensures configs != null && (forall id :: !PickedForMode(configs.configs, org, mode, id)) ==> s == env.def
    {
      if configs == null { return env.def; }
      var row := configs.PickForMode(org, mode);
      if row.None? { return env.def; }
      forall id | PickedForMode(configs.configs, org, mode, id) ensures id == row.value {
        PickIsUnique(configs.configs, org, mode, id, row.value);
      }
      var found := Unsealed(configs.configs[row.value], env.box);
      if !found.Found? { return env.def; }
      s := BuildCached(found.rs);
    }

    method ConfigIdForMode(org: string, mode: string) returns (token: string)
      requires Valid()
      ensures configs == null ==> token == BUILTIN
      ensures configs != null && token != BUILTIN ==> PickedForMode(configs.configs, org, mode, token)
      ensures configs != null && token == BUILTIN ==>
                forall id :: PickedForMode(configs.configs, org, mode, id) ==> id == "" || id == BUILTIN
    {
      if configs == null { return BUILTIN; }
      var id := configs.PickForMode(org, mode);
      if id.None? || id.value == "" {
        forall k | PickedForMode(configs.configs, org, mode, k) ensures k == "" {
          if id.Some? { PickIsUnique(configs.configs, org, mode, id.value, k); }
        }
        return BUILTIN;
      }
      forall k | PickedForMode(configs.configs, org, mode, k) ensures k == id.value {
        PickIsUnique(configs.configs, org, mode, id.value, k);
      }
      return id.value;
    }

    /** A write by mode asks twice, for the store and for the token to record: the
        token leads to that store in this process, and in every process when its
        configuration is unambiguous. */
    method TargetForMode(org: string, mode: string) returns (s: S, token: string)
      requires Valid() && (configs != null ==> BUILTIN !in configs.configs && "" !in configs.configs)
      modifies this`cache
      ensures Valid()
      ensures configs == null ==> s == env.def && token == BUILTIN
      ensures configs != null ==> s == ServeThrough(env, digest, cache, configs.configs, org, token)
      ensures configs != null && (token in configs.configs ==> !Ambiguous(configs.configs[token].backend, digest)) ==>
                s == Serve(env, configs.configs, org, token)
    {
      s := BlobStoreForMode(org, mode);
      token := ConfigIdForMode(org, mode);
      if configs != null {
        if token != BUILTIN {
          PickedServes(configs.configs, env.box, org, mode, token);
        } else {
          assert forall id :: !PickedForMode(configs.configs, org, mode, id);
        }
      }
    }
  }

  ghost predicate IsDefaultId(configs: Configs, org: string, d: Option<string>) {
    if d.Some? then d.value in configs && DefaultOf(configs[d.value], org) && configs[d.value].enabled
    else !HasEnabledDefault(configs, org)
  }

  // ---------------------------------------------------------------------
  // Runs: reconfiguration between write and read
  // ---------------------------------------------------------------------

  /** One stored object: its org, the token recorded with it, and the store its
      bytes are in.  Covers and generated media are asset rows; the artifacts of
      export jobs are not. */
  datatype Put<S> = Put(org: string, token: string, where: S, isAsset: bool)

  /** SetDefault and Delete look first and write later, with no lock in between:
      what such a transaction has found, until it writes. */
  datatype Check = MayDefault(org: string, id: string) | MayDelete(org: string, id: string)

  datatype State<S> = State(configs: Configs, puts: map<string, Put<S>>, open: multiset<Check>)

  datatype Step =
    | Create(id: string, org: string, input: Input, sawDefault: bool, now: int)
    | Update(org: string, id: string, input: Input)
    | UpsertGlobal(id: string, input: Input, now: int)
    | CheckDefault(org: string, id: string)
    | WriteDefault(org: string, id: string)
    | CountRefs(org: string, id: string)
    | DeleteRow(org: string, id: string)
    | Rollback(check: Check)
    | Write(key: string, org: string, override: string, defaultId: Option<string>, isAsset: bool)

  /** How many assets carry the id. */
  function Refs<S>(s: State<S>, id: string): nat { |AssetsOf(s, id)| }

  function AssetsOf<S>(s: State<S>, id: string): set<string> {
    set k | k in s.puts && s.puts[k].isAsset && s.puts[k].token == id
  }

  function NewPut<S>(env: Env<S>, s: State<S>, org: string, override: string, defaultId: Option<string>, isAsset: bool): Put<S> {
    var t := WriteTarget(s.configs, env.box, org, override, defaultId);
    Put(org, t.token, StoreOf(env, t.found), isAsset)
  }

  function ConfigsAfter<S>(s: State<S>, step: Step): Configs {
    match step
    case Create(id, org, input, sawDefault, now) =>
      if id in s.configs || id == BUILTIN || id == "" then s.configs else InsertOrg(s.configs, id, org, input, sawDefault, now)
    case Update(org, id, input) => UpdateIn(s.configs, org, id, input)
    case UpsertGlobal(id, input, now) => if id == BUILTIN || id == "" then s.configs else UpsertGlobalIn(s.configs, id, input, now)
    case WriteDefault(org, id) => if MayDefault(org, id) in s.open then DefaultWritten(s.configs, org, id) else s.configs
    case DeleteRow(org, id) => if MayDelete(org, id) in s.open then RowDeleted(s.configs, org, id) else s.configs
    case _ => s.configs
  }

  ghost predicate Stores<S>(s: State<S>, step: Step) {
    && step.Write? && IsDefaultId(s.configs, step.org, step.defaultId)
    && (step.key in s.puts ==> s.puts[step.key].isAsset == step.isAsset)
  }

  ghost function PutsAfter<S>(env: Env<S>, s: State<S>, step: Step): map<string, Put<S>> {
    if Stores(s, step)
    then s.puts[step.key := NewPut(env, s, step.org, step.override, step.defaultId, step.isAsset)]
    else s.puts
  }

  function OpenAfter<S>(s: State<S>, step: Step): multiset<Check> {
    match step
    case CheckDefault(org, id) =>
      if IsOrgRow(s.configs, org, id) && s.configs[id].enabled then s.open + multiset{MayDefault(org, id)} else s.open
    case CountRefs(org, id) => if Refs(s, id) == 0 then s.open + multiset{MayDelete(org, id)} else s.open
    case WriteDefault(org, id) => s.open - multiset{MayDefault(org, id)}
    case DeleteRow(org, id) => s.open - multiset{MayDelete(org, id)}
    case Rollback(check) => s.open - multiset{check}
    case _ => s.open
  }

  ghost function Apply<S>(env: Env<S>, s: State<S>, step: Step): State<S> {
    State(ConfigsAfter(s, step), PutsAfter(env, s, step), OpenAfter(s, step))
  }

  ghost function Run<S>(env: Env<S>, s: State<S>, steps: seq<Step>): State<S>
    decreases |steps|
  {
    if steps == [] then s else Run(env, Apply(env, s, steps[0]), steps[1..])
  }

  function Start<S>(): State<S> { State(map[], map[], multiset{}) }

  /** The step leaves the backend fields and secret of every row alone. */
  predicate KeepsBackends<S>(s: State<S>, step: Step) {
    match step
    case Update(_, id, input) => SameBackend(s.configs, id, input)
    case UpsertGlobal(id, input, _) => SameBackend(s.configs, id, input)
    case _ => true
  }

  predicate SameBackend(configs: Configs, id: string, input: Input) {
    id in configs ==> input.backend == configs[id].backend && (input.secret == "" || configs[id].secret == Some(input.secret))
  }

  ghost predicate KeepsAll<S>(env: Env<S>, s: State<S>, steps: seq<Step>)
    decreases |steps|
  {
    steps != [] ==> KeepsBackends(s, steps[0]) && KeepsAll(env, Apply(env, s, steps[0]), steps[1..])
  }

  /** The token still names the store that holds the bytes. */
  predicate Intact<S(==)>(env: Env<S>, configs: Configs, p: Put<S>) {
    if p.token == BUILTIN then p.where == env.def
    else p.token in configs && OwnedOrGlobal(configs[p.token], p.org) && p.where == StoreOf(env, Unsealed(configs[p.token], env.box))
  }

  lemma IntactServes<S>(env: Env<S>, configs: Configs, p: Put<S>)
    requires Intact(env, configs, p)
    ensures Serve(env, configs, p.org, p.token) == p.where
  {
  }

  predicate IdsSound(configs: Configs) { BUILTIN !in configs && "" !in configs }

  lemma IdsSoundKept<S>(s: State<S>, step: Step)
    requires IdsSound(s.configs)
    ensures IdsSound(ConfigsAfter(s, step))
  {
    match step case Create(_, _, _, _, _) => case _ =>
  }

  /** A fresh write is intact. */
  lemma WriteIntact<S>(env: Env<S>, s: State<S>, org: string, override: string, d: Option<string>, isAsset: bool)
    requires IdsSound(s.configs) && IsDefaultId(s.configs, org, d)
    ensures Intact(env, s.configs, NewPut(env, s, org, override, d, isAsset))
  {
  }

  /** The step deletes configuration `id`. */
  predicate TakesRow<S>(s: State<S>, step: Step, id: string) {
    step.DeleteRow? && MayDelete(step.org, step.id) in s.open && step.id == id && IsOrgRow(s.configs, step.org, step.id)
  }

  lemma ConfigKept<S>(s: State<S>, step: Step, id: string)
    requires id in s.configs && KeepsBackends(s, step) && id in ConfigsAfter(s, step)
    ensures var c, d := s.configs[id], ConfigsAfter(s, step)[id];
            d.backend == c.backend && d.secret == c.secret && d.org == c.org && d.global == c.global
  {
    match step { case Update(_, _, _) => case _ => }
  }

  lemma ConfigStays<S>(s: State<S>, step: Step, id: string)
    requires id in s.configs
    ensures id !in ConfigsAfter(s, step) <==> TakesRow(s, step, id)
  {
    match step { case DeleteRow(_, _) => case _ => }
  }

  /** An object keeps its store as long as its row stays. */
  lemma IntactKept<S>(env: Env<S>, s: State<S>, step: Step, p: Put<S>)
    requires IdsSound(s.configs) && KeepsBackends(s, step) && Intact(env, s.configs, p)
    ensures Intact(env, ConfigsAfter(s, step), p) <==> !TakesRow(s, step, p.token)
  {
    if p.token != BUILTIN {
      ConfigStays(s, step, p.token);
      if p.token in ConfigsAfter(s, step) { ConfigKept(s, step, p.token); }
    }
  }

  /** The token of an intact object stops naming its store in exactly one way. */
  lemma IntactUnlessTaken<S>(env: Env<S>, s: State<S>, step: Step, key: string)
    requires IdsSound(s.configs) && KeepsBackends(s, step) && key in s.puts && Intact(env, s.configs, s.puts[key])
    ensures var t := Apply(env, s, step);
            && key in t.puts && t.puts[key].isAsset == s.puts[key].isAsset
            && (Intact(env, t.configs, t.puts[key]) <==> !TakesRow(s, step, s.puts[key].token))
  {
    if Stores(s, step) && step.key == key {
      WriteIntact(env, s, step.org, step.override, step.defaultId, step.isAsset);
    } else {
      IntactKept(env, s, step, s.puts[key]);
    }
  }

  /** One step makes the token of an intact object lead away from the store that
      holds its bytes exactly when it deletes the configuration the token names,
      and the bytes are not in the built-in store. */
  lemma AstrayExactly<S>(env: Env<S>, s: State<S>, step: Step, key: string)
    requires IdsSound(s.configs) && KeepsBackends(s, step) && key in s.puts && Intact(env, s.configs, s.puts[key])
    ensures var t := Apply(env, s, step);
            && key in t.puts
            && (Serve(env, t.configs, t.puts[key].org, t.puts[key].token) == t.puts[key].where <==>
                !(TakesRow(s, step, s.puts[key].token) && s.puts[key].where != env.def))
  {
    IntactUnlessTaken(env, s, step, key);
    var t := Apply(env, s, step);
    if !TakesRow(s, step, s.puts[key].token) {
      IntactServes(env, t.configs, t.puts[key]);
    } else {
      ConfigStays(s, step, step.id);
      assert t.puts == s.puts;
    }
  }

  // ---------------------------------------------------------------------
  // Assets
  // ---------------------------------------------------------------------

  /** A transaction that counted no references is about to delete row `id`. */
  ghost predicate Doomed<S>(s: State<S>, id: string) {
    exists org :: MayDelete(org, id) in s.open && IsOrgRow(s.configs, org, id)
  }

  /** The step writes the asset with the token of a doomed row. */
  ghost predicate Races<S>(env: Env<S>, s: State<S>, step: Step, key: string) {
    && Stores(s, step) && step.key == key && step.isAsset
    && Doomed(s, NewPut(env, s, step.org, step.override, step.defaultId, true).token)
  }

  /** If the object is an asset, its token names its store and nothing is about to
      delete that row. */
  ghost predicate Secure<S>(env: Env<S>, s: State<S>, key: string) {
    key in s.puts && s.puts[key].isAsset ==> Intact(env, s.configs, s.puts[key]) && !Doomed(s, s.puts[key].token)
  }

  lemma AssetCounted<S>(s: State<S>, key: string)
    requires key in s.puts && s.puts[key].isAsset
    ensures Refs(s, s.puts[key].token) > 0
  {
    assert key in AssetsOf(s, s.puts[key].token);
  }

  lemma OrgRowStays<S>(s: State<S>, step: Step, org: string, id: string)
    requires id in s.configs && IsOrgRow(ConfigsAfter(s, step), org, id)
    ensures IsOrgRow(s.configs, org, id)
  {
    match step { case Update(_, _, _) => case _ => }
  }

  /** No step dooms the row of an asset that is there: the count sees the asset. */
  lemma NotDoomedLater<S>(env: Env<S>, s: State<S>, step: Step, key: string)
    requires IdsSound(s.configs) && key in s.puts && s.puts[key].isAsset
    requires Intact(env, s.configs, s.puts[key]) && !Doomed(s, s.puts[key].token)
    ensures !Doomed(Apply(env, s, step), s.puts[key].token)
  {
    var t, id := Apply(env, s, step), s.puts[key].token;
    AssetCounted(s, key);
    IdsSoundKept(s, step);
    forall org | IsOrgRow(t.configs, org, id) ensures IsOrgRow(s.configs, org, id) {
      OrgRowStays(s, step, org, id);
    }
    assert forall org :: MayDelete(org, id) in t.open ==> MayDelete(org, id) in s.open;
  }

  /** A secure asset stays secure exactly unless its own write races a delete. */
  lemma SecureExactly<S>(env: Env<S>, s: State<S>, step: Step, key: string)
    requires IdsSound(s.configs) && KeepsBackends(s, step) && Secure(env, s, key)
    ensures Secure(env, Apply(env, s, step), key) <==> !Races(env, s, step, key)
  {
    var t := Apply(env, s, step);
    if Stores(s, step) && step.key == key {
      WriteIntact(env, s, step.org, step.override, step.defaultId, step.isAsset);
      SameDoom(s, t, t.puts[key].token);
    } else if key in s.puts && s.puts[key].isAsset {
      IntactUnlessTaken(env, s, step, key);
      NotDoomedLater(env, s, step, key);
    }
  }

  lemma SameDoom<S>(s: State<S>, t: State<S>, id: string)
    requires t.configs == s.configs && t.open == s.open
    ensures Doomed(t, id) <==> Doomed(s, id)
  {
  }

  ghost predicate NeverRaces<S>(env: Env<S>, s: State<S>, steps: seq<Step>, key: string)
    decreases |steps|
  {
    steps != [] ==> !Races(env, s, steps[0], key) && NeverRaces(env, Apply(env, s, steps[0]), steps[1..], key)
  }

  lemma {:induction false} RunKeepsSecure<S>(env: Env<S>, s: State<S>, steps: seq<Step>, key: string)
    requires IdsSound(s.configs) && Secure(env, s, key) && KeepsAll(env, s, steps) && NeverRaces(env, s, steps, key)
    ensures Secure(env, Run(env, s, steps), key)
    decreases |steps|
  {
    if steps != [] {
      IdsSoundKept(s, steps[0]);
      SecureExactly(env, s, steps[0], key);
      RunKeepsSecure(env, Apply(env, s, steps[0]), steps[1..], key);
    }
  }

  /** Over every run that leaves backend fields alone, whatever the defaults,
      overrides, disablings and deletions: the token of an asset serves it from
      the store its bytes were written to, unless it was written between the
      count and the DELETE that removes its row. */
  lemma AssetsAreServed<S>(env: Env<S>, steps: seq<Step>, key: string)
    requires KeepsAll(env, Start(), steps) && NeverRaces(env, Start(), steps, key)
    ensures var s := Run(env, Start(), steps);
            key in s.puts && s.puts[key].isAsset ==> Serve(env, s.configs, s.puts[key].org, s.puts[key].token) == s.puts[key].where
  {
    RunKeepsSecure(env, Start(), steps, key);
    var s := Run(env, Start(), steps);
    if key in s.puts && s.puts[key].isAsset { IntactServes(env, s.configs, s.puts[key]); }
  }

  /** The exception is exact: an intact asset whose write raced, with bytes outside
      the built-in store, is one step from being looked for elsewhere; no other is. */
  lemma RaceLosesExactly<S>(env: Env<S>, s: State<S>, key: string)
    requires IdsSound(s.configs) && key in s.puts && Intact(env, s.configs, s.puts[key])
    ensures (exists step :: KeepsBackends(s, step) && key in Apply(env, s, step).puts
                            && var p := Apply(env, s, step).puts[key];
                               Serve(env, Apply(env, s, step).configs, p.org, p.token) != p.where)
            <==> Doomed(s, s.puts[key].token) && s.puts[key].where != env.def
  {
    var id := s.puts[key].token;
    if Doomed(s, id) {
      var org :| MayDelete(org, id) in s.open && IsOrgRow(s.configs, org, id);
      AstrayExactly(env, s, DeleteRow(org, id), key);
      assert KeepsBackends(s, DeleteRow(org, id));
    }
    if step :| KeepsBackends(s, step) && key in Apply(env, s, step).puts
               && var p := Apply(env, s, step).puts[key]; Serve(env, Apply(env, s, step).configs, p.org, p.token) != p.where {
      AstrayExactly(env, s, step, key);
      assert TakesRow(s, step, id);
    }
  }

  /** The first write to an org whose only configuration is "c". */
  lemma FirstWrite<S>(env: Env<S>, s: State<S>, input: Input, key: string, isAsset: bool)
    requires input.enabled && input.secret == "" && env.build(Resolved(input.backend, "")).Some?
    requires s.configs == map["c" := NewConfig("o", input, true, 0)] && s.puts == map[]
    ensures var p := Put("o", "c", env.build(Resolved(input.backend, "")).value, isAsset);
            Apply(env, s, Write(key, "o", "", Some("c"), isAsset)) == s.(puts := map[key := p]) && Intact(env, s.configs, p)
  {
    assert IsDefaultId(s.configs, "o", Some("c"));
    assert WriteTarget(s.configs, env.box, "o", "", Some("c")) == Target("c", Found(Resolved(input.backend, "")));
  }

  /** A concrete case: the count sees no asset, one is written, the row goes. */
  lemma LateDeleteLosesAsset<S>(env: Env<S>, input: Input)
    requires input.enabled && input.secret == "" && env.build(Resolved(input.backend, "")).Some?
    requires env.build(Resolved(input.backend, "")).value != env.def
    ensures var s0 := Apply(env, Apply(env, Start(), Create("c", "o", input, false, 0)), CountRefs("o", "c"));
            var s1 := Apply(env, s0, Write("a", "o", "", Some("c"), true));
            var s2 := Apply(env, s1, DeleteRow("o", "c"));
            && "a" in s1.puts && s1.puts["a"].isAsset && Intact(env, s1.configs, s1.puts["a"])
            && "a" in s2.puts && Serve(env, s2.configs, "o", s2.puts["a"].token) == env.def != s2.puts["a"].where
  {
    var s := Apply(env, Start<S>(), Create("c", "o", input, false, 0));
    assert s.configs == map["c" := NewConfig("o", input, true, 0)];
    assert AssetsOf(s, "c") == {};
    var s0 := Apply(env, s, CountRefs("o", "c"));
    FirstWrite(env, s0, input, "a", true);
    var s1 := Apply(env, s0, Write("a", "o", "", Some("c"), true));
    assert Apply(env, s1, DeleteRow("o", "c")).configs == map[];
  }

  /** Deleting does not look at export jobs: after create, export, delete the
      artifact is looked for in the built-in store. */
  lemma ExportArtifactOrphaned<S>(env: Env<S>, input: Input)
    requires input.enabled && input.secret == "" && env.build(Resolved(input.backend, "")).Some?
    requires env.build(Resolved(input.backend, "")).value != env.def
    ensures var s0 := Apply(env, Start(), Create("c", "o", input, false, 0));
            var s1 := Apply(env, s0, Write("e", "o", "", Some("c"), false));
            var s2 := Apply(env, Apply(env, s1, CountRefs("o", "c")), DeleteRow("o", "c"));
            && "e" in s1.puts && Intact(env, s1.configs, s1.puts["e"])
            && "e" in s2.puts && Serve(env, s2.configs, "o", s2.puts["e"].token) == env.def != s2.puts["e"].where
  {
    var s0 := Apply(env, Start<S>(), Create("c", "o", input, false, 0));
    assert s0.configs == map["c" := NewConfig("o", input, true, 0)];
    FirstWrite(env, s0, input, "e", false);
    var s1 := Apply(env, s0, Write("e", "o", "", Some("c"), false));
    assert AssetsOf(s1, "c") == {};
    var s2 := Apply(env, Apply(env, s1, CountRefs("o", "c")), DeleteRow("o", "c"));
    assert s2.puts == s1.puts && s2.configs == map[];
  }

  // ---------------------------------------------------------------------
  // Defaults
  // ---------------------------------------------------------------------

  /** SetDefault writes for a row that was disabled since its check. */
  predicate LateDefault<S>(s: State<S>, step: Step) {
    && step.WriteDefault? && MayDefault(step.org, step.id) in s.open
    && IsOrgRow(s.configs, step.org, step.id) && !s.configs[step.id].enabled
  }

  /** One step keeps the defaults sound exactly when it is no such write. */
  lemma DefaultsSoundExactly<S>(env: Env<S>, s: State<S>, step: Step)
    requires DefaultsSound(s.configs)
    ensures DefaultsSound(Apply(env, s, step).configs) <==> !LateDefault(s, step)
  {
    match step
    case Create(id, org, input, sawDefault, now) =>
      if id !in s.configs { InsertKeepsDefaults(s.configs, id, org, input, sawDefault, now); }
    case Update(org, id, input) => UpdateKeepsDefaults(s.configs, org, id, input, 0);
    case UpsertGlobal(id, input, now) => UpdateKeepsDefaults(s.configs, "", id, input, now);
    case WriteDefault(org, id) => LateDefaultSoundExactly(s.configs, org, id);
    case _ =>
  }

  ghost predicate NoLateDefault<S>(env: Env<S>, s: State<S>, steps: seq<Step>)
    decreases |steps|
  {
    steps != [] ==> !LateDefault(s, steps[0]) && NoLateDefault(env, Apply(env, s, steps[0]), steps[1..])
  }

  /** Over every run without such a write each org has one default at most, and it
      is enabled. */
  lemma {:induction false} DefaultsStaySound<S>(env: Env<S>, s: State<S>, steps: seq<Step>)
    requires DefaultsSound(s.configs) && NoLateDefault(env, s, steps)
    ensures DefaultsSound(Run(env, s, steps).configs)
    decreases |steps|
  {
    if steps != [] {
      DefaultsSoundExactly(env, s, steps[0]);
      DefaultsStaySound(env, Apply(env, s, steps[0]), steps[1..]);
    }
  }
}
