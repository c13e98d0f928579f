/** Configuration caches of several server replicas over one database, kept
    coherent by NOTIFY.  A reload is one step and NOTIFY is reliable for a
    connected listener. */
module CacheHub {
  import opened Prelude
  import LocalCache

  datatype Message = Message(table: string, origin: string)

  function Load<DATA>(db: map<string, seq<DATA>>, table: string): seq<DATA> {
    if table in db then db[table] else []
  }

  function LoadOf<DATA>(db: map<string, seq<DATA>>, failing: set<string>, table: string): Option<seq<DATA>> {
    if table in failing then None else Some(Load(db, table))
  }

  datatype HubError = UnknownTable | ReloadFailed

  /** What `handle` does to the cached tables: None stands for a payload that is
      not a message. */
  function Handled<DATA>(caches: map<string, seq<DATA>>, origin: string, payload: Option<Message>, db: map<string, seq<DATA>>)
      : map<string, seq<DATA>> {
    if payload.None? || payload.value.origin == origin || payload.value.table !in caches then caches
    else caches[payload.value.table := Load(db, payload.value.table)]
  }

  /** A change of one cache, seen on all of them. */
  lemma OneChanged<DATA>(before: map<string, seq<DATA>>, after: map<string, seq<DATA>>, table: string, rows: seq<DATA>)
    requires table in before && after.Keys == before.Keys && after[table] == rows
    requires forall t :: t in before && t != table ==> after[t] == before[t]
    ensures after == before[table := rows]
    ensures rows == before[table] ==> after == before
  {
  }

  class Hub<DATA(==)> {
    const origin: string
    var reload: map<string, LocalCache.Cache<DATA>>

    ghost predicate Valid()
      reads this, reload.Values
    {
      && (forall t :: t in reload ==> reload[t].Valid())
      && (forall t, u :: t in reload && u in reload && t != u ==> reload[t] != reload[u])
    }

    ghost function Caches(): map<string, seq<DATA>>
      reads this, reload.Values
    {
      map t | t in reload :: reload[t].arr
    }

    constructor (origin: string)
      ensures Valid() && reload == map[] && this.origin == origin
    {
      this.origin, reload := origin, map[];
    }

    method Register(table: string, cache: LocalCache.Cache<DATA>)
      requires Valid() && cache.Valid() && cache !in reload.Values
      modifies this
      ensures Valid() && reload == old(reload)[table := cache]
    {
      reload := reload[table := cache];
    }

    /** One registered reload; `load` is None when the loader fails. */
    method ReloadTable(table: string, load: Option<seq<DATA>>) returns (ok: bool)
      requires Valid() && table in reload
      modifies reload[table]
      ensures Valid() && ok == load.Some?
      ensures forall t :: t in reload && t != table ==> reload[t].arr == old(reload[t].arr)
      ensures reload[table].arr == if load.Some? then load.value else old(reload[table].arr)
    {
      assert forall t :: t in reload && t != table ==> reload[t] != reload[table];
      ok := reload[table].ReloadAll(load);
    }

    /** The same, with what it does to all caches together. */
    method ReloadNamed(table: string, load: Option<seq<DATA>>) returns (ok: bool)
      requires Valid() && table in reload
      modifies reload[table]
      ensures Valid() && ok == load.Some?
      ensures Caches() == if load.Some? then old(Caches())[table := load.value] else old(Caches())
    {
      ghost var before := Caches();
      ok := ReloadTable(table, load);
      OneChanged(before, Caches(), table, if load.Some? then load.value else before[table]);
    }

    /** Reload the local cache first, then tell the peers: the caller reads its own
        write.  `failing` are the tables that cannot be loaded just now.  The message
        is what the peers get; None when sending fails, which is only logged. */
    method Invalidate(table: string, db: map<string, seq<DATA>>, failing: set<string>, sends: bool)
      returns (r: Result<Option<Message>, HubError>)
      requires Valid()
      modifies reload.Values
      ensures Valid()
      ensures r == if table !in reload then Err(UnknownTable)
                   else if table in failing then Err(ReloadFailed)
                   else Ok(if sends then Some(Message(table, origin)) else None)
      ensures Caches() == if r.Ok? then old(Caches())[table := Load(db, table)] else old(Caches())
      ensures r.Ok? ==> reload[table].arr == if table in db then db[table] else []
    {
      if table !in reload { return Err(UnknownTable); }
      var ok := ReloadNamed(table, LoadOf(db, failing, table));
      if !ok { return Err(ReloadFailed); }
      assert Caches()[table] == reload[table].arr;
      return Ok(if sends then Some(Message(table, origin)) else None);
    }

    method Handle(payload: Option<Message>, db: map<string, seq<DATA>>, failing: set<string>)
      requires Valid()
      modifies reload.Values
      ensures Valid()
      ensures Caches() == if payload.Some? && payload.value.table in failing then old(Caches())
                          else Handled(old(Caches()), origin, payload, db)
      ensures forall t :: t in reload ==>
                if payload.Some? && payload.value.origin != origin && payload.value.table == t && t !in failing
                then reload[t].arr == if t in db then db[t] else []
                else reload[t].arr == old(reload[t].arr)
    {
      ghost var before := Caches();
      if payload.None? { return; }
      var p := payload.value;
      if p.origin == origin { return; }
      if p.table !in reload { return; }
      var ok := ReloadNamed(p.table, LoadOf(db, failing, p.table));
      assert forall t :: t in reload ==> Caches()[t] == reload[t].arr && before[t] == old(reload[t].arr);
    }

    /** At start-up: every registered table, in any order, up to the first that
        cannot be loaded. */
    method PreloadAll(db: map<string, seq<DATA>>, failing: set<string>) returns (failed: Option<string>)
      requires Valid()
      modifies reload.Values
      ensures Valid()
      ensures failed.None? <==> reload.Keys !! failing
      ensures failed.Some? ==> failed.value in reload && failed.value in failing
      ensures failed.None? ==> forall t :: t in reload ==> reload[t].arr == Load(db, t)
    {
      var tables := reload.Keys;
      while tables != {}
        invariant tables <= reload.Keys && Valid()
        invariant forall t :: t in reload && t !in tables ==> t !in failing && reload[t].arr == Load(db, t)
      {
        var t :| t in tables;
        tables := tables - {t};
        var ok := ReloadTable(t, LoadOf(db, failing, t));
        if !ok { return Some(t); }
      }
      return None;
    }

    /** The catch-up of `listenOnce`: every registered table; one that cannot be
        loaded is logged and keeps its rows. */
    method ReloadEverything(db: map<string, seq<DATA>>, failing: set<string>)
      requires Valid()
      modifies reload.Values
      ensures Valid()
      ensures forall t :: t in reload ==> reload[t].arr == if t in failing then old(reload[t].arr) else Load(db, t)
    {
      var tables := reload.Keys;
      while tables != {}
        invariant tables <= reload.Keys && Valid()
        invariant forall t :: t in reload && t in tables ==> reload[t].arr == old(reload[t].arr)
        invariant forall t :: t in reload && t !in tables ==>
                    reload[t].arr == if t in failing then old(reload[t].arr) else Load(db, t)
      {
        var t :| t in tables;
        tables := tables - {t};
        var ok := ReloadTable(t, LoadOf(db, failing, t));
      }
    }
  }

  // ---------------------------------------------------------------------
  // The protocol: any number of replicas, writers and tables
  // ---------------------------------------------------------------------

  /** `Listening(todo)` holds a LISTEN connection and has still to catch up on `todo`. */
  datatype Link = Dead | Disconnected | Listening(todo: set<string>)

  datatype Replica<DATA> = Replica(caches: map<string, seq<DATA>>, link: Link, inbox: seq<Message>)

  /** A committed write whose `Invalidate` has not finished; `reloaded` once its
      own replica has reloaded. */
  datatype Debt = Debt(table: string, origin: string, reloaded: bool)

  datatype State<DATA> = State(db: map<string, seq<DATA>>, replicas: map<string, Replica<DATA>>, debts: map<nat, Debt>)

  datatype Step<DATA> =
    | Boot(origin: string, registered: set<string>)
    | Crash(origin: string)
    | Write(id: nat, origin: string, table: string, rows: seq<DATA>)
    | ReloadOwn(id: nat)
    | Notify(id: nat)
    | Connect(origin: string)
    | Disconnect(origin: string)
    | CatchUp(origin: string, table: string)
    | Deliver(origin: string)
    | Refresh(origin: string, table: string)

  predicate Alive<DATA>(s: State<DATA>, origin: string) {
    origin in s.replicas && !s.replicas[origin].link.Dead?
  }

  predicate Cached<DATA>(s: State<DATA>, origin: string, table: string) {
    Alive(s, origin) && table in s.replicas[origin].caches
  }

  /** The listener is connected and has reloaded `table` since. */
  predicate CaughtUp<DATA>(s: State<DATA>, origin: string, table: string) {
    Cached(s, origin, table) && s.replicas[origin].link.Listening? && table !in s.replicas[origin].link.todo
  }

  function Reloaded<DATA>(r: Replica<DATA>, table: string, db: map<string, seq<DATA>>): Replica<DATA> {
    r.(caches := r.caches[table := Load(db, table)])
  }

  /** A NOTIFY reaches every session that listens at that moment, the sender's too. */
  function Posted<DATA>(r: Replica<DATA>, m: Message): Replica<DATA> {
    if r.link.Listening? then r.(inbox := r.inbox + [m]) else r
  }

  function Apply<DATA>(s: State<DATA>, step: Step<DATA>): State<DATA> {
    match step
    case Boot(o, registered) =>
      if o in s.replicas then s
      else s.(replicas := s.replicas[o := Replica(map t | t in registered :: Load(s.db, t), Disconnected, [])])
    case Crash(o) => if Alive(s, o) then s.(replicas := s.replicas[o := s.replicas[o].(link := Dead, inbox := [])]) else s
    case Write(id, o, table, rows) =>
      if Cached(s, o, table) && id !in s.debts
      then s.(db := s.db[table := rows], debts := s.debts[id := Debt(table, o, false)])
      else s
    case ReloadOwn(id) =>
      if id in s.debts && Cached(s, s.debts[id].origin, s.debts[id].table)
      then
        var d := s.debts[id];
        s.(replicas := s.replicas[d.origin := Reloaded(s.replicas[d.origin], d.table, s.db)],
           debts := s.debts[id := d.(reloaded := true)])
      else s
    case Notify(id) =>
      if id in s.debts && s.debts[id].reloaded && Alive(s, s.debts[id].origin)
      then
        var m := Message(s.debts[id].table, s.debts[id].origin);
        s.(replicas := map o | o in s.replicas :: Posted(s.replicas[o], m), debts := s.debts - {id})
      else s
    case Connect(o) =>
      if Alive(s, o) && s.replicas[o].link.Disconnected?
      then s.(replicas := s.replicas[o := s.replicas[o].(link := Listening(s.replicas[o].caches.Keys), inbox := [])])
      else s
    case Disconnect(o) =>
      if Alive(s, o) then s.(replicas := s.replicas[o := s.replicas[o].(link := Disconnected, inbox := [])]) else s
    case CatchUp(o, table) =>
      if Cached(s, o, table) && s.replicas[o].link.Listening? && table in s.replicas[o].link.todo
      then
        var r := s.replicas[o];
        s.(replicas := s.replicas[o := Reloaded(r, table, s.db).(link := Listening(r.link.todo - {table}))])
      else s
    case Deliver(o) =>
      // the wait loop starts after the catch-up
      if Alive(s, o) && s.replicas[o].link == Listening({}) && s.replicas[o].inbox != []
      then
        var r := s.replicas[o];
        s.(replicas := s.replicas[o := r.(caches := Handled(r.caches, o, Some(r.inbox[0]), s.db), inbox := r.inbox[1..])])
      else s
    case Refresh(o, table) =>
      if Cached(s, o, table) then s.(replicas := s.replicas[o := Reloaded(s.replicas[o], table, s.db)]) else s
  }

  function Run<DATA>(s: State<DATA>, steps: seq<Step<DATA>>): State<DATA>
    decreases |steps|
  {
    if steps == [] then s else Run(Apply(s, steps[0]), steps[1..])
  }

  function Start<DATA>(db: map<string, seq<DATA>>): State<DATA> { State(db, map[], map[]) }

  // ---------------------------------------------------------------------
  // Coherence
  // ---------------------------------------------------------------------

  ghost predicate Fresh<DATA>(s: State<DATA>, origin: string, table: string)
    requires Cached(s, origin, table)
  {
    s.replicas[origin].caches[table] == Load(s.db, table)
  }

  /** A foreign notification for the table waits in the inbox. */
  predicate Announced<DATA>(s: State<DATA>, origin: string, table: string)
    requires origin in s.replicas
  {
    exists k :: 0 <= k < |s.replicas[origin].inbox|
      && s.replicas[origin].inbox[k].table == table && s.replicas[origin].inbox[k].origin != origin
  }

  predicate Owed<DATA>(s: State<DATA>, origin: string, table: string) {
    exists id :: id in s.debts && s.debts[id].table == table && (s.debts[id].origin == origin ==> !s.debts[id].reloaded)
  }

  /** Each caught-up cache equals the table, or a foreign notification waits, or
      some writer has not finished `Invalidate`. */
  ghost predicate Coherent<DATA>(s: State<DATA>, origin: string, table: string) {
    CaughtUp(s, origin, table) ==> Fresh(s, origin, table) || Announced(s, origin, table) || Owed(s, origin, table)
  }

  ghost predicate AllCoherent<DATA>(s: State<DATA>) {
    forall o, t :: Coherent(s, o, t)
  }

  /** A debt other than `id` still counts after `id` is gone or reloaded. */
  lemma OwedKept<DATA>(s: State<DATA>, t: State<DATA>, o: string, table: string)
    requires Owed(s, o, table)
    requires forall id :: id in s.debts && s.debts[id].table == table && (s.debts[id].origin == o ==> !s.debts[id].reloaded) ==>
               id in t.debts && t.debts[id] == s.debts[id]
    ensures Owed(t, o, table)
  {
    var id :| id in s.debts && s.debts[id].table == table && (s.debts[id].origin == o ==> !s.debts[id].reloaded);
    assert id in t.debts;
  }

  lemma WriteKeeps<DATA>(s: State<DATA>, id: nat, w: string, written: string, rows: seq<DATA>, o: string, table: string)
    requires Coherent(s, o, table)
    ensures Coherent(Apply(s, Write(id, w, written, rows)), o, table)
  {
    var t := Apply(s, Write(id, w, written, rows));
    if Cached(s, w, written) && id !in s.debts && CaughtUp(s, o, table) {
      if table == written {
        assert id in t.debts && !t.debts[id].reloaded;
      } else if Owed(s, o, table) {
        OwedKept(s, t, o, table);
      } else if Announced(s, o, table) {
        assert Announced(t, o, table);
      }
    }
  }

  lemma ReloadOwnKeeps<DATA>(s: State<DATA>, id: nat, o: string, table: string)
    requires Coherent(s, o, table)
    ensures Coherent(Apply(s, ReloadOwn(id)), o, table)
  {
    var t := Apply(s, ReloadOwn(id));
    if id in s.debts && Cached(s, s.debts[id].origin, s.debts[id].table) && CaughtUp(s, o, table) {
      var d := s.debts[id];
      if d.origin == o && d.table == table {
        assert Fresh(t, o, table);
      } else if d.table == table {
        assert id in t.debts && t.debts[id].origin != o;
      } else if Owed(s, o, table) {
        OwedKept(s, t, o, table);
      } else if Announced(s, o, table) {
        assert t.replicas[o].inbox == s.replicas[o].inbox;
        assert Announced(t, o, table);
      }
    }
  }

  /** The debt turns into messages; the writer's own copy is skipped on arrival, but it has reloaded. */
  lemma NotifyKeeps<DATA>(s: State<DATA>, id: nat, o: string, table: string)
    requires Coherent(s, o, table)
    ensures Coherent(Apply(s, Notify(id)), o, table)
  {
    var t := Apply(s, Notify(id));
    if id in s.debts && s.debts[id].reloaded && Alive(s, s.debts[id].origin) && CaughtUp(s, o, table) {
      var d := s.debts[id];
      var inbox := s.replicas[o].inbox;
      assert t.replicas[o].inbox == inbox + [Message(d.table, d.origin)];
      if Announced(s, o, table) {
        var k :| 0 <= k < |inbox| && inbox[k].table == table && inbox[k].origin != o;
        assert t.replicas[o].inbox[k] == inbox[k];
      } else if d.table == table && d.origin != o {
        assert t.replicas[o].inbox[|inbox|] == Message(table, d.origin);
        assert Announced(t, o, table);
      } else if Owed(s, o, table) {
        OwedKept(s, t, o, table);
      }
    }
  }

  lemma DeliverKeeps<DATA>(s: State<DATA>, r: string, o: string, table: string)
    requires Coherent(s, o, table)
    ensures Coherent(Apply(s, Deliver(r)), o, table)
  {
    var t := Apply(s, Deliver(r));
    if CaughtUp(s, o, table) && o == r && s.replicas[o].inbox != [] && s.replicas[o].link == Listening({}) {
      var inbox := s.replicas[o].inbox;
      if inbox[0].table == table && inbox[0].origin != o {
        assert Fresh(t, o, table);
      } else if Announced(s, o, table) {
        var k :| 0 <= k < |inbox| && inbox[k].table == table && inbox[k].origin != o;
        assert inbox[1..][k - 1] == inbox[k];
        assert Announced(t, o, table);
      } else if Owed(s, o, table) {
        OwedKept(s, t, o, table);
      }
    } else if CaughtUp(s, o, table) {
      assert t.replicas[o] == s.replicas[o];
    }
  }

  /** The steps that touch one replica and neither the table nor the debts. */
  lemma LinkKeeps<DATA>(s: State<DATA>, step: Step<DATA>, o: string, table: string)
    requires Coherent(s, o, table)
    requires step.Boot? || step.Crash? || step.Connect? || step.Disconnect? || step.CatchUp? || step.Refresh?
    ensures Coherent(Apply(s, step), o, table)
  {
    var t := Apply(s, step);
    if CaughtUp(t, o, table) && !Fresh(t, o, table) {
      assert CaughtUp(s, o, table) && !Fresh(s, o, table);
      if Announced(s, o, table) {
        assert t.replicas[o].inbox == s.replicas[o].inbox;
        assert Announced(t, o, table);
      } else {
        OwedKept(s, t, o, table);
      }
    }
  }

  lemma StepKeeps<DATA>(s: State<DATA>, step: Step<DATA>)
    requires AllCoherent(s)
    ensures AllCoherent(Apply(s, step))
  {
    forall o, t ensures Coherent(Apply(s, step), o, t) {
      assert Coherent(s, o, t);
      match step
      case Write(id, w, written, rows) => WriteKeeps(s, id, w, written, rows, o, t);
      case ReloadOwn(id) => ReloadOwnKeeps(s, id, o, t);
      case Notify(id) => NotifyKeeps(s, id, o, t);
      case Deliver(r) => DeliverKeeps(s, r, o, t);
      case _ => LinkKeeps(s, step, o, t);
    }
  }

  lemma {:induction false} RunCoherent<DATA>(s: State<DATA>, steps: seq<Step<DATA>>)
    requires AllCoherent(s)
    ensures AllCoherent(Run(s, steps))
    decreases |steps|
  {
    if steps != [] {
      StepKeeps(s, steps[0]);
      RunCoherent(Apply(s, steps[0]), steps[1..]);
    }
  }

  /** In every run from an empty fleet: a caught-up cache equals the table, or a
      foreign notification waits, or a writer is not done. */
  lemma ReachableCoherent<DATA>(db: map<string, seq<DATA>>, steps: seq<Step<DATA>>)
    ensures AllCoherent(Run(Start(db), steps))
  {
    RunCoherent(Start(db), steps);
  }

  /** With no write half done, two caught-up replicas with empty inboxes agree on
      every table both cache, and both hold the table. */
  lemma QuietReplicasAgree<DATA>(db: map<string, seq<DATA>>, steps: seq<Step<DATA>>, a: string, b: string, table: string)
    requires var s := Run(Start(db), steps);
             && s.debts == map[]
             && CaughtUp(s, a, table) && s.replicas[a].inbox == []
             && CaughtUp(s, b, table) && s.replicas[b].inbox == []
    ensures var s := Run(Start(db), steps);
            s.replicas[a].caches[table] == s.replicas[b].caches[table] == Load(s.db, table)
  {
    var s := Run(Start(db), steps);
    ReachableCoherent(db, steps);
    assert Coherent(s, a, table) && Coherent(s, b, table);
  }

  /** `n` deliveries to one replica. */
  function Deliveries<DATA>(origin: string, n: nat): seq<Step<DATA>> {
    if n == 0 then [] else [Deliver(origin)] + Deliveries(origin, n - 1)
  }

  /** Once the writers are done, working off the inbox is all a connected replica needs. */
  lemma {:induction false} InboxHeals<DATA>(s: State<DATA>, origin: string, table: string)
    requires AllCoherent(s) && s.debts == map[]
    requires Cached(s, origin, table) && s.replicas[origin].link == Listening({})
    ensures var t := Run(s, Deliveries(origin, |s.replicas[origin].inbox|));
            && t.db == s.db && t.debts == map[] && Cached(t, origin, table) && t.replicas[origin].inbox == []
            && Fresh(t, origin, table)
    decreases |s.replicas[origin].inbox|
  {
    if s.replicas[origin].inbox == [] {
      assert Coherent(s, origin, table);
    } else {
      StepKeeps(s, Deliver(origin));
      var next := Apply(s, Deliver(origin));
      var n := |s.replicas[origin].inbox|;
      assert Deliveries<DATA>(origin, n)[0] == Deliver(origin) && Deliveries<DATA>(origin, n)[1..] == Deliveries(origin, n - 1);
      InboxHeals(next, origin, table);
    }
  }

  /** The step writes no new rows to the table. */
  predicate KeepsTable<DATA>(step: Step<DATA>, table: string) { step.Write? ==> step.table != table }

  lemma FreshKept<DATA>(s: State<DATA>, step: Step<DATA>, origin: string, table: string)
    requires Cached(s, origin, table) && Fresh(s, origin, table) && KeepsTable(step, table)
    ensures Cached(Apply(s, step), origin, table) ==> Fresh(Apply(s, step), origin, table)
    ensures Alive(Apply(s, step), origin) ==> Cached(Apply(s, step), origin, table)
  {
    match step {
      case Write(_, _, _, _) =>
      case Deliver(_) =>
      case _ =>
    }
  }

  lemma DeadStays<DATA>(s: State<DATA>, step: Step<DATA>, origin: string)
    requires origin in s.replicas && !Alive(s, origin)
    ensures origin in Apply(s, step).replicas && !Alive(Apply(s, step), origin)
  {
    match step { case Deliver(_) => case _ => }
  }

  lemma ReplicaStays<DATA>(s: State<DATA>, step: Step<DATA>, origin: string)
    requires origin in s.replicas
    ensures origin in Apply(s, step).replicas
  {
    match step { case Deliver(_) => case _ => }
  }

  /** A fresh cache stays fresh in every run that writes nothing to its table,
      until its replica dies. */
  lemma {:induction false} FreshUntilWritten<DATA>(s: State<DATA>, steps: seq<Step<DATA>>, origin: string, table: string)
    requires origin in s.replicas
    requires Alive(s, origin) ==> Cached(s, origin, table) && Fresh(s, origin, table)
    requires forall k :: 0 <= k < |steps| ==> KeepsTable(steps[k], table)
    ensures var t := Run(s, steps); Alive(t, origin) ==> Cached(t, origin, table) && Fresh(t, origin, table)
    decreases |steps|
  {
    if steps != [] {
      ReplicaStays(s, steps[0], origin);
      if Alive(s, origin) { FreshKept(s, steps[0], origin, table); } else { DeadStays(s, steps[0], origin); }
      assert forall k :: 0 <= k < |steps[1..]| ==> steps[1..][k] == steps[k + 1];
      FreshUntilWritten(Apply(s, steps[0]), steps[1..], origin, table);
    }
  }

  /** Between the reload of a write on its own replica and the next write of that
      table, by whomever, that replica serves the write, whatever else happens. */
  lemma ReadYourWrite<DATA>(s: State<DATA>, id: nat, steps: seq<Step<DATA>>)
    requires id in s.debts && Cached(s, s.debts[id].origin, s.debts[id].table)
    requires forall k :: 0 <= k < |steps| ==> KeepsTable(steps[k], s.debts[id].table)
    ensures var o, table, t := s.debts[id].origin, s.debts[id].table, Run(Apply(s, ReloadOwn(id)), steps);
            Alive(t, o) ==> Cached(t, o, table) && Fresh(t, o, table)
  {
    FreshUntilWritten(Apply(s, ReloadOwn(id)), steps, s.debts[id].origin, s.debts[id].table);
  }

  /** Two replicas hold the current table and neither listens. */
  function Unconnected(): State<int> {
    var idle := Replica(map["t" := [1]], Disconnected, []);
    State(map["t" := [1]], map["a" := idle, "b" := idle], map[])
  }

  function WrittenBy(s: State<int>, origin: string): State<int> {
    Apply(Apply(Apply(s, Write(0, origin, "t", [2])), ReloadOwn(0)), Notify(0))
  }

  /** "b" reloads, "a" writes, and only then "b" listens. */
  function LateListener(): State<int> {
    var t := WrittenBy(Apply(Unconnected(), Refresh("b", "t")), "a");
    if "b" in t.replicas then t.(replicas := t.replicas["b" := t.replicas["b"].(link := Listening({}), inbox := [])]) else t
  }

  /** Why LISTEN must come before the catch-up: "b" ends connected, caught up, with
      an empty inbox and no writer at work, and still stale. */
  lemma ReloadBeforeListenMisses()
    ensures AllCoherent(Unconnected())
    ensures Complacent(LateListener(), "b", "t")
    ensures CaughtUp(LateListener(), "b", "t") && !Fresh(LateListener(), "b", "t")
  {
    var s := Apply(Unconnected(), Refresh("b", "t"));
    var s1 := Apply(s, Write(0, "a", "t", [2]));
    assert s1.db == map["t" := [2]] && s1.debts == map[0 := Debt("t", "a", false)];
    assert s1.replicas["b"].caches == map["t" := [1]];
    var s2 := Apply(s1, ReloadOwn(0));
    assert s2.db == s1.db && s2.debts == map[0 := Debt("t", "a", true)] && s2.replicas["b"] == s1.replicas["b"];
    var s3 := Apply(s2, Notify(0));
    assert s3.db == s1.db && s3.debts == map[] && s3.replicas["b"] == s1.replicas["b"];
  }

  /** The replica believes itself caught up, and nothing is on its way to it. */
  predicate Complacent<DATA>(s: State<DATA>, origin: string, table: string) {
    && origin in s.replicas && table in s.replicas[origin].caches && s.debts == map[]
    && s.replicas[origin].inbox == [] && (s.replicas[origin].link.Listening? ==> s.replicas[origin].link.todo == {})
  }

  /** Not a write, not a refresh of this replica, not a reconnect of it. */
  predicate NoRescue<DATA>(step: Step<DATA>, origin: string) {
    !step.Write? && (step.Refresh? ==> step.origin != origin) && (step.Connect? ==> step.origin != origin)
  }

  lemma ComplacentKept<DATA>(s: State<DATA>, step: Step<DATA>, origin: string, table: string)
    requires Complacent(s, origin, table) && NoRescue(step, origin)
    ensures var t := Apply(s, step);
            Complacent(t, origin, table) && t.db == s.db && t.replicas[origin].caches == s.replicas[origin].caches
  {
    match step { case Deliver(_) => case CatchUp(_, _) => case _ => }
  }

  /** Such a replica keeps its rows, right or wrong, in every run without a rescue. */
  lemma {:induction false} ComplacentForGood<DATA>(s: State<DATA>, steps: seq<Step<DATA>>, origin: string, table: string)
    requires Complacent(s, origin, table) && forall k :: 0 <= k < |steps| ==> NoRescue(steps[k], origin)
    ensures var t := Run(s, steps);
            Complacent(t, origin, table) && t.db == s.db && t.replicas[origin].caches == s.replicas[origin].caches
    decreases |steps|
  {
    if steps != [] {
      ComplacentKept(s, steps[0], origin, table);
      assert forall k :: 0 <= k < |steps[1..]| ==> steps[1..][k] == steps[k + 1];
      ComplacentForGood(Apply(s, steps[0]), steps[1..], origin, table);
    }
  }

  /** So the replica that reloaded before it listened stays stale in every later
      run without a write, a refresh of it or a reconnect. */
  lemma LateListenerStaysStale(steps: seq<Step<int>>)
    requires forall k :: 0 <= k < |steps| ==> NoRescue(steps[k], "b")
    ensures var t := Run(LateListener(), steps);
            "b" in t.replicas && "t" in t.replicas["b"].caches && t.replicas["b"].caches["t"] != Load(t.db, "t")
  {
    ReloadBeforeListenMisses();
    ComplacentForGood(LateListener(), steps, "b", "t");
  }
}
