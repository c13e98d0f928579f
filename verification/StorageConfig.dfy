/** The storage_configs table: which object store an organisation writes to
    (internal/storageconfig). */
module StorageConfig {
  import opened Prelude

  datatype Backend = Backend(mode: string, endpoint: string, region: string, bucket: string, accessKeyId: string,
                             useSsl: bool, publicPrefix: string)

  /** `secret` is None when the column is NULL. */
  datatype Config = Config(global: bool, org: string, backend: Backend, secret: Option<string>,
                           enabled: bool, name: string, isDefault: bool, createdAt: int)

  /** What the router builds a store from. */
  datatype Resolved = Resolved(backend: Backend, secretKey: string)

  datatype Input = Input(backend: Backend, enabled: bool, secret: string, name: string)

  datatype Error = Missing | Invalid | EncUnavailable | NotFound | NotEnabled | InUse | Conflict

  type Configs = map<string, Config>

  const BUILTIN := "builtin"

  predicate IsValid(in_: Input) {
    match in_.backend.mode
    case "localfs" => true
    case "s3" => in_.backend.bucket != "" && in_.backend.endpoint != ""
    case "cos" => in_.backend.bucket != "" && in_.backend.endpoint != ""
    case "oss" => in_.backend.bucket != "" && in_.backend.endpoint != ""
    case "github" => in_.backend.bucket != "" && in_.backend.accessKeyId != ""
    case _ => false
  }

  // ---------------------------------------------------------------------
  // One statement or transaction as a function on the table
  // ---------------------------------------------------------------------

  predicate DefaultOf(c: Config, org: string) { !c.global && c.org == org && c.isDefault }

  /** The unique index storage_configs_one_org_default. */
  predicate DefaultTaken(configs: Configs, org: string) {
    exists id :: id in configs && DefaultOf(configs[id], org)
  }

  predicate HasEnabledDefault(configs: Configs, org: string) {
    exists id :: id in configs && DefaultOf(configs[id], org) && configs[id].enabled
  }

  function NewConfig(org: string, in_: Input, isDefault: bool, now: int): Config {
    Config(false, org, in_.backend, if in_.secret == "" then None else Some(in_.secret), in_.enabled, in_.name, isDefault, now)
  }

  /** The INSERT of Create, which the unique index may refuse: `sawDefault` is
      what the earlier, separate query had found. */
  function InsertOrg(configs: Configs, id: string, org: string, in_: Input, sawDefault: bool, now: int): Configs {
    if in_.enabled && !sawDefault && DefaultTaken(configs, org) then configs
    else configs[id := NewConfig(org, in_, in_.enabled && !sawDefault, now)]
  }

  predicate IsOrgRow(configs: Configs, org: string, id: string) {
    id in configs && !configs[id].global && configs[id].org == org
  }

  function Updated(c: Config, in_: Input): Config {
    c.(backend := in_.backend, secret := if in_.secret == "" then c.secret else Some(in_.secret), enabled := in_.enabled,
       name := in_.name, isDefault := c.isDefault && in_.enabled)
  }

  function UpdateIn(configs: Configs, org: string, id: string, in_: Input): Configs {
    if IsOrgRow(configs, org, id) then configs[id := Updated(configs[id], in_)] else configs
  }

  /** The two updates of SetDefault, which look at nothing but org and id. */
  function DefaultWritten(configs: Configs, org: string, id: string): Configs {
    map k | k in configs :: if configs[k].org == org && !configs[k].global then configs[k].(isDefault := k == id) else configs[k]
  }

  predicate HasGlobal(configs: Configs) { exists g :: g in configs && configs[g].global }

  /** INSERT .. ON CONFLICT: there is one global row; its name and default stay. */
  function UpsertGlobalIn(configs: Configs, id: string, in_: Input, now: int): Configs {
    if id in configs && configs[id].global
    then configs[id := Updated(configs[id], in_).(name := configs[id].name, isDefault := configs[id].isDefault)]
    else if HasGlobal(configs) || id in configs then configs
    else configs[id := NewConfig("", in_, false, now).(global := true)]
  }

  /** The DELETE, which looks at nothing but org and id. */
  function RowDeleted(configs: Configs, org: string, id: string): Configs {
    if IsOrgRow(configs, org, id) then configs - {id} else configs
  }

  // ---------------------------------------------------------------------
  // Lookups
  // ---------------------------------------------------------------------

  datatype Lookup = Miss | Failed | Found(rs: Resolved)

  /** The decrypting half of `resolveOne`; `box` says whether decryption is configured. */
  function Unsealed(c: Config, box: bool): Lookup {
    match c.secret
    case None => Found(Resolved(c.backend, ""))
    case Some(s) => if box then Found(Resolved(c.backend, s)) else Failed
  }

  predicate OwnedOrGlobal(c: Config, org: string) { c.org == org || c.global }

  function ResolveById(configs: Configs, box: bool, org: string, id: string): Lookup {
    if id in configs && configs[id].enabled && OwnedOrGlobal(configs[id], org) then Unsealed(configs[id], box) else Miss
  }

  function ResolveForServe(configs: Configs, box: bool, org: string, id: string): Lookup {
    if id in configs && OwnedOrGlobal(configs[id], org) then Unsealed(configs[id], box) else Miss
  }

  /** The configuration can be read by the org: its own or the global one, and its
      secret can be decrypted. */
  predicate Readable(c: Config, box: bool, org: string) {
    (c.global || c.org == org) && (c.secret.Some? ==> box)
  }

  /** What a store is built from: the backend and the secret of row `c`. */
  predicate IsUnsealed(rs: Resolved, c: Config) {
    rs.backend == c.backend && (c.secret.None? ==> rs.secretKey == "") && (c.secret.Some? ==> rs.secretKey == c.secret.value)
  }

  /** A write finds a configuration exactly when it is there, enabled and readable;
      a read looks at disabled ones too. */
  lemma ResolveFinds(configs: Configs, box: bool, org: string, id: string)
    ensures var w := ResolveById(configs, box, org, id);
            && (w.Found? <==> id in configs && configs[id].enabled && Readable(configs[id], box, org))
            && (w.Found? ==> IsUnsealed(w.rs, configs[id]))
    ensures var r := ResolveForServe(configs, box, org, id);
            && (r.Found? <==> id in configs && Readable(configs[id], box, org))
            && (r.Found? ==> IsUnsealed(r.rs, configs[id]))
  {
  }

  /** Which inputs are refused: an unknown mode, or one that lacks what it needs. */
  lemma ValidExactly(in_: Input)
    ensures var b := in_.backend;
            IsValid(in_) <==>
              || b.mode == "localfs"
              || (b.mode in {"s3", "oss", "cos"} && b.bucket != "" && b.endpoint != "")
              || (b.mode == "github" && b.bucket != "" && b.accessKeyId != "")
  {
  }

  /** The columns of a row that an input writes; an empty secret keeps the old one. */
  predicate Holds(c: Config, in_: Input, kept: Option<string>) {
    && c.backend == in_.backend && c.enabled == in_.enabled
    && (in_.secret != "" ==> c.secret == Some(in_.secret)) && (in_.secret == "" ==> c.secret == kept)
  }

  /** There is one global row: a second upsert updates it, and touches no other. */
  lemma UpsertGlobalIs(configs: Configs, id: string, in_: Input, now: int)
    ensures var after := UpsertGlobalIn(configs, id, in_, now);
            && (forall k :: k in configs && k != id ==> k in after && after[k] == configs[k])
            && (id in configs && configs[id].global ==>
                  id in after && Holds(after[id], in_, configs[id].secret) && after[id].global && after[id].name == configs[id].name)
            && (id !in configs && (forall k :: k in configs ==> !configs[k].global) ==>
                  id in after && Holds(after[id], in_, None) && after[id].global && !after[id].isDefault)
  {
  }

  predicate ModeMatches(c: Config, mode: string) { mode == "" || c.backend.mode == mode }

  predicate OrgCandidate(c: Config, org: string, mode: string) {
    org != "" && !c.global && c.org == org && c.enabled && ModeMatches(c, mode)
  }

  predicate GlobalCandidate(c: Config, mode: string) { c.global && c.enabled && ModeMatches(c, mode) }

  /** `ORDER BY created_at DESC, id`. */
  predicate Precedes(configs: Configs, a: string, b: string)
    requires a in configs && b in configs
  {
    configs[a].createdAt > configs[b].createdAt || (configs[a].createdAt == configs[b].createdAt && Less(a, b))
  }

  /** The row both by-mode queries return: the org's own candidates first, then
      the global ones, newest first. */
  predicate PickedForMode(configs: Configs, org: string, mode: string, id: string) {
    && id in configs
    && (OrgCandidate(configs[id], org, mode) || GlobalCandidate(configs[id], mode))
    && (forall k :: k in configs && OrgCandidate(configs[k], org, mode) ==> OrgCandidate(configs[id], org, mode))
    && (forall k :: k in configs && k != id && SameTier(configs[k], configs[id], org, mode) ==> Precedes(configs, id, k))
  }

  predicate SameTier(a: Config, b: Config, org: string, mode: string) {
    if OrgCandidate(b, org, mode) then OrgCandidate(a, org, mode) else GlobalCandidate(a, mode)
  }

  /** The org may use the row for the mode; an empty mode is any. */
  predicate Eligible(c: Config, org: string, mode: string) {
    c.enabled && (mode == "" || c.backend.mode == mode) && (c.global || (org != "" && c.org == org))
  }

  /** Row `a` gives way to row `b`: an own row goes before the global one, then the
      newer, then the smaller id. */
  predicate Yields(a: Config, aId: string, b: Config, bId: string) {
    if a.global != b.global then a.global
    else a.createdAt < b.createdAt || (a.createdAt == b.createdAt && Less(bId, aId))
  }

  lemma PickedIsBest(configs: Configs, org: string, mode: string, id: string)
    requires PickedForMode(configs, org, mode, id)
    ensures Eligible(configs[id], org, mode)
    ensures forall k :: k in configs && k != id && Eligible(configs[k], org, mode) ==> Yields(configs[k], k, configs[id], id)
  {
    forall k | k in configs && k != id && Eligible(configs[k], org, mode) ensures Yields(configs[k], k, configs[id], id) {
      assert OrgCandidate(configs[k], org, mode) || GlobalCandidate(configs[k], mode);
    }
  }

  /** So the row is the same one for `resolveOne` and `configIDOne`. */
  lemma PickIsUnique(configs: Configs, org: string, mode: string, a: string, b: string)
    requires PickedForMode(configs, org, mode, a) && PickedForMode(configs, org, mode, b)
    ensures a == b
  {
    LessTotal(a, b);
  }

  lemma {:induction false} FirstOf(configs: Configs, ids: set<string>) returns (first: string)
    requires ids != {} && ids <= configs.Keys
    ensures first in ids && forall k :: k in ids && k != first ==> Precedes(configs, first, k)
    decreases |ids|
  {
    var x :| x in ids;
    first := x;
    if ids - {x} != {} {
      var y := FirstOf(configs, ids - {x});
      LessTotal(x, y);
      first := if Precedes(configs, x, y) then x else y;
      forall k | k in ids && k != first ensures Precedes(configs, first, k) {
        if k != x && k != y {
          assert k in ids - {x};
          PrecedesTransitive(configs, first, y, k);
        }
      }
    } else {
      assert forall k :: k in ids && k != x ==> k in ids - {x};
    }
  }

  lemma PrecedesTransitive(configs: Configs, a: string, b: string, c: string)
    requires a in configs && b in configs && c in configs && (a == b || Precedes(configs, a, b)) && Precedes(configs, b, c)
    ensures Precedes(configs, a, c)
  {
    if a != b && Less(a, b) && Less(b, c) { LessTransitive(a, b, c); }
  }

  // ---------------------------------------------------------------------
  // The store
  // ---------------------------------------------------------------------

  class ConfigStore {
    const box: bool
    var configs: Configs
    var overrides: map<string, string>  // projects.storage_config_id

    constructor (box: bool)
      ensures this.box == box && configs == map[] && overrides == map[]
    {
      this.box, configs, overrides := box, map[], map[];
    }

    /** `sawDefault` is the answer the separate EXISTS query got. */
    method Create(newId: string, org: string, in_: Input, sawDefault: bool, now: int) returns (r: Result<Config, Error>)
      requires newId !in configs && newId != BUILTIN && newId != ""
      modifies this`configs
      ensures r.Err? ==> configs == old(configs)
      ensures r.Ok? ==> configs == InsertOrg(old(configs), newId, org, in_, sawDefault, now) && newId in configs && r.value == configs[newId]
      ensures r.Ok? ==>
                && Holds(r.value, in_, None) && !r.value.global && r.value.org == org && r.value.name == in_.name
                && r.value.createdAt == now && (r.value.isDefault <==> in_.enabled && !sawDefault)
      ensures r == Err(Missing) <==> org == ""
      ensures r == Err(Invalid) <==> org != "" && !IsValid(in_)
      ensures r == Err(EncUnavailable) <==> org != "" && IsValid(in_) && in_.secret != "" && !box
      ensures r == Err(Conflict) <==>
                org != "" && IsValid(in_) && (in_.secret == "" || box) && in_.enabled && !sawDefault && DefaultTaken(old(configs), org)
    {
      if org == "" { return Err(Missing); }
      if !IsValid(in_) { return Err(Invalid); }
      if in_.secret != "" && !box { return Err(EncUnavailable); }
      var isDefault := in_.enabled && !sawDefault;
      if isDefault && DefaultTaken(configs, org) { return Err(Conflict); }
      configs := configs[newId := NewConfig(org, in_, isDefault, now)];
      return Ok(configs[newId]);
    }

    method Update(org: string, id: string, in_: Input) returns (r: Result<Config, Error>)
      modifies this`configs
      ensures r.Err? ==> configs == old(configs)
      ensures r.Ok? ==> IsOrgRow(old(configs), org, id) && configs == UpdateIn(old(configs), org, id, in_) && r.value == configs[id]
      ensures r == Err(NotFound) <==> org != "" && id != "" && IsValid(in_) && (in_.secret == "" || box) && !IsOrgRow(old(configs), org, id)
      ensures r.Ok? ==>
                var c := old(configs)[id];
                && Holds(r.value, in_, c.secret) && !r.value.global && r.value.org == org && r.value.name == in_.name
                && r.value.createdAt == c.createdAt && (r.value.isDefault <==> c.isDefault && in_.enabled)
      ensures r.Ok? ==> forall k :: k in old(configs) && k != id ==> k in configs && configs[k] == old(configs)[k]
    {
      if org == "" || id == "" { return Err(Missing); }
      if !IsValid(in_) { return Err(Invalid); }
      if in_.secret != "" && !box { return Err(EncUnavailable); }
      if !IsOrgRow(configs, org, id) { return Err(NotFound); }
      configs := configs[id := Updated(configs[id], in_)];
      return Ok(configs[id]);
    }

    /** `seen` is the table its SELECT got; the updates may come later.  First
        clear, then set: the other order would hit the unique index. */
    method SetDefault(org: string, id: string, seen: Configs) returns (r: Result<bool, Error>)
      modifies this`configs
      ensures r.Ok? <==> org != "" && id != "" && IsOrgRow(seen, org, id) && seen[id].enabled
      ensures r == Err(NotEnabled) <==> org != "" && id != "" && IsOrgRow(seen, org, id) && !seen[id].enabled
      ensures configs == if r.Ok? then DefaultWritten(old(configs), org, id) else old(configs)
      ensures configs.Keys == old(configs).Keys
      ensures forall k :: k in configs ==>
                var a, b := old(configs)[k], configs[k];
                if !a.global && a.org == org then b == a.(isDefault := b.isDefault) else b == a
      ensures r.Ok? && IsOrgRow(old(configs), org, id) ==> forall k :: k in configs ==> (DefaultOf(configs[k], org) <==> k == id)
    {
      if org == "" || id == "" { return Err(Missing); }
      if !IsOrgRow(seen, org, id) { return Err(NotFound); }
      if !seen[id].enabled { return Err(NotEnabled); }
      configs := map k | k in configs :: if configs[k].org == org && !configs[k].global then configs[k].(isDefault := false) else configs[k];
      if IsOrgRow(configs, org, id) {
        configs := configs[id := configs[id].(isDefault := true)];
      }
      return Ok(true);
    }

    /** `seen` are the tokens of the assets its count got; the DELETE may come later. */
    method Delete(org: string, id: string, seen: map<string, string>) returns (r: Result<bool, Error>)
      modifies this`configs, this`overrides
      ensures r == Err(InUse) <==> org != "" && id != "" && id in seen.Values
      ensures r == Err(NotFound) <==> org != "" && id != "" && id !in seen.Values && !IsOrgRow(old(configs), org, id)
      ensures r.Ok? <==> org != "" && id != "" && id !in seen.Values && IsOrgRow(old(configs), org, id)
      ensures r.Ok? ==> configs == RowDeleted(old(configs), org, id) == old(configs) - {id}
      ensures r.Err? ==> configs == old(configs) && overrides == old(overrides)
      ensures r.Ok? ==> id !in overrides.Values && overrides.Keys == old(overrides).Keys
                        && forall p :: p in overrides && old(overrides)[p] != id ==> overrides[p] == old(overrides)[p]
    {
      if org == "" || id == "" { return Err(Missing); }
      if id in seen.Values { return Err(InUse); }
      if !IsOrgRow(configs, org, id) { return Err(NotFound); }
      configs := configs - {id};
      overrides := map p | p in overrides :: if overrides[p] == id then "" else overrides[p];
      return Ok(true);
    }

    method DefaultConfigId(org: string) returns (r: Option<string>)
      ensures r.Some? ==> r.value in configs && DefaultOf(configs[r.value], org) && configs[r.value].enabled
      ensures r.None? <==> !HasEnabledDefault(configs, org)
      ensures r.Some? ==> var c := configs[r.value]; !c.global && c.org == org && c.isDefault && c.enabled
      ensures r.None? ==> forall k :: k in configs && configs[k].org == org && !configs[k].global ==> !(configs[k].isDefault && configs[k].enabled)
    {
      if id :| id in configs && DefaultOf(configs[id], org) && configs[id].enabled {
        return Some(id);
      }
      return None;
    }

    /** Both ResolveForOrgAndMode and ConfigIDForOrgAndMode select this row. */
    method PickForMode(org: string, mode: string) returns (r: Option<string>)
      ensures r.Some? ==> PickedForMode(configs, org, mode, r.value)
      ensures r.None? <==> forall k :: k in configs ==> !OrgCandidate(configs[k], org, mode) && !GlobalCandidate(configs[k], mode)
      ensures r.Some? ==> Eligible(configs[r.value], org, mode)
      ensures r.Some? ==> forall k :: k in configs && k != r.value && Eligible(configs[k], org, mode) ==>
                            Yields(configs[k], k, configs[r.value], r.value)
      ensures r.None? ==> forall k :: k in configs ==> !Eligible(configs[k], org, mode)
    {
      var own := set k | k in configs && OrgCandidate(configs[k], org, mode);
      if own != {} {
        ghost var first := FirstOf(configs, own);
        assert forall k :: k in configs && OrgCandidate(configs[k], org, mode) ==> k in own;
        assert PickedForMode(configs, org, mode, first);
        var id :| id in configs && PickedForMode(configs, org, mode, id);
        PickedIsBest(configs, org, mode, id);
        return Some(id);
      }
      assert forall k :: k in configs && OrgCandidate(configs[k], org, mode) ==> k in own;
      var shared := set k | k in configs && GlobalCandidate(configs[k], mode);
      if shared != {} {
        ghost var first := FirstOf(configs, shared);
        assert forall k :: k in configs && GlobalCandidate(configs[k], mode) ==> k in shared;
        assert PickedForMode(configs, org, mode, first);
        var id :| id in configs && PickedForMode(configs, org, mode, id);
        PickedIsBest(configs, org, mode, id);
        return Some(id);
      }
      assert forall k :: k in configs && GlobalCandidate(configs[k], mode) ==> k in shared;
      return None;
    }
  }

  // ---------------------------------------------------------------------
  // Defaults
  // ---------------------------------------------------------------------

  /** Each org has at most one default, and every default is enabled. */
  ghost predicate DefaultsSound(configs: Configs) {
    && (forall a, b :: a in configs && b in configs && DefaultOf(configs[a], configs[b].org) && DefaultOf(configs[b], configs[b].org) ==> a == b)
    && (forall a :: a in configs && configs[a].isDefault ==> configs[a].enabled && !configs[a].global)
  }

  lemma InsertKeepsDefaults(configs: Configs, id: string, org: string, in_: Input, sawDefault: bool, now: int)
    requires DefaultsSound(configs) && id !in configs
    ensures DefaultsSound(InsertOrg(configs, id, org, in_, sawDefault, now))
  {
  }

  lemma UpdateKeepsDefaults(configs: Configs, org: string, id: string, in_: Input, now: int)
    requires DefaultsSound(configs)
    ensures DefaultsSound(UpdateIn(configs, org, id, in_)) && DefaultsSound(UpsertGlobalIn(configs, id, in_, now))
  {
  }

  /** SetDefault checks first and updates later, without locking the row.  Whatever
      was committed in between, the updates leave the defaults sound exactly when
      the row is still enabled (or gone) by then. */
  lemma LateDefaultSoundExactly(configs: Configs, org: string, id: string)
    requires DefaultsSound(configs)
    ensures DefaultsSound(DefaultWritten(configs, org, id)) <==> (IsOrgRow(configs, org, id) ==> configs[id].enabled)
  {
    var t := DefaultWritten(configs, org, id);
    if IsOrgRow(configs, org, id) && !configs[id].enabled {
      assert t[id].isDefault && !t[id].enabled;
    }
  }

  /** A concrete case: SetDefault sees an enabled configuration, it is disabled,
      the updates come late.  The org then has a default that is none, and the
      unique index refuses every enabled configuration that Create adds. */
  lemma LateDefaultBlocksOrg(in_: Input, off: Input, more: Input)
    requires in_.enabled && !off.enabled && more.enabled
    ensures var s0 := InsertOrg(map[], "c", "o", in_, false, 0);
            var s1 := UpdateIn(s0, "o", "c", off);
            var s2 := DefaultWritten(s1, "o", "c");
            && IsOrgRow(s0, "o", "c") && s0["c"].enabled && DefaultsSound(s0) && DefaultsSound(s1)
            && !DefaultsSound(s2) && !HasEnabledDefault(s2, "o") && DefaultTaken(s2, "o")
            && InsertOrg(s2, "d", "o", more, false, 1) == s2
  {
    var s0 := InsertOrg(map[], "c", "o", in_, false, 0);
    assert s0 == map["c" := NewConfig("o", in_, true, 0)];
    var s1 := UpdateIn(s0, "o", "c", off);
    var s2 := DefaultWritten(s1, "o", "c");
    assert s2 == map["c" := Updated(s0["c"], off).(isDefault := true)];
    assert DefaultOf(s2["c"], "o") && !s2["c"].enabled;
  }
}
