/**
  The client-side factory for a remote database: it resolves database names
  to storages through its name-to-storage table, opens plain and pooled
  sessions over them, runs administrative operations on short-lived server
  administration connections, and shuts everything down on close.

  Pure functions state what each operation does to the call log and what it
  returns; the class RemoteDBFactory carries the mutable table and a ghost
  log of collaborator calls, and its methods are proved against those
  functions.
 */
module RemoteDB {
  import opened Collaborators

  /** The configured hosts. The factory only ever indexes the first one. */
  type HostList = h: seq<string> | |h| > 0 witness ["localhost"]

  /** The database type handed to create; Unrecognised stands for any other value, null included. */
  datatype DatabaseType = Memory | PLocal | Unrecognised

  // ---------------------------------------------------------------- URLs and type tokens

  /** The URL of database `name`: the first host, a slash, then the name. */
  function BuildUrl(hosts: HostList, name: string): (url: string)
    ensures |url| == |hosts[0]| + 1 + |name|
    ensures url[..|hosts[0]|] == hosts[0]
    ensures url[|hosts[0]|] == '/'
    ensures url[|hosts[0]| + 1..] == name
  {
    hosts[0] + "/" + name
  }

  /** Hosts after the first never influence a URL. */
  lemma BuildUrlIgnoresOtherHosts(hosts: HostList, others: HostList, name: string)
    requires hosts[0] == others[0]
    ensures BuildUrl(hosts, name) == BuildUrl(others, name)
  {
  }

  /** Two names give the same URL only if they are the same name. */
  lemma BuildUrlInjective(hosts: HostList, a: string, b: string)
    requires BuildUrl(hosts, a) == BuildUrl(hosts, b)
    ensures a == b
  {
  }

  /** The wire token sent for a database type; None is the null token. */
  function TypeToken(t: DatabaseType): (token: Option<string>)
    ensures token == Some("memory") <==> t == Memory
    ensures token == Some("plocal") <==> t == PLocal
    ensures token == None <==> t == Unrecognised
  {
    match t
    case Memory => Some("memory")
    case PLocal => Some("plocal")
    case Unrecognised => None
  }

  // ---------------------------------------------------------------- opening sessions

  /** The storage a session is built over: the table's entry, or else what createStorage gave. */
  function Resolve(storages: map<string, StorageId>, name: string, created: Result<StorageId>): Result<StorageId>
  {
    if name in storages then Ok(storages[name]) else created
  }

  /**
    The calls open and poolOpen make: createStorage for a name missing from
    the table, then internalOpen on a session over the resolved storage.
   */
  function OpenTrace(hosts: HostList, storages: map<string, StorageId>, name: string, user: string, password: string,
                     pool: Option<PoolId>, created: Result<StorageId>): seq<Event>
  {
    (if name in storages then [] else [CreateStorage(BuildUrl(hosts, name), map[])]) +
    (match Resolve(storages, name, created)
     case Ok(s) => [InternalOpen(Session(s, pool), user, password)]
     case Thrown(_) => [])
  }

  /**
    createStorage is called exactly when the name is missing from the table,
    once, on the name's URL with empty options; the session is opened over
    the resolved storage, with the given pool and exactly the given
    credentials, once and last, and only when a storage was obtained.
   */
  lemma OpenTraceCalls(hosts: HostList, storages: map<string, StorageId>, name: string, user: string, password: string,
                       pool: Option<PoolId>, created: Result<StorageId>)
    ensures var trace := OpenTrace(hosts, storages, name, user, password, pool, created);
      && (forall e | e in trace :: e.CreateStorage? || e.InternalOpen?)
      && (forall e | e in trace && e.CreateStorage? :: e == CreateStorage(BuildUrl(hosts, name), map[]))
      && multiset(trace)[CreateStorage(BuildUrl(hosts, name), map[])] == (if name in storages then 0 else 1)
      && (forall e | e in trace && e.InternalOpen? ::
            Resolve(storages, name, created).Ok? &&
            e == InternalOpen(Session(Resolve(storages, name, created).value, pool), user, password))
      && (Resolve(storages, name, created).Ok? ==>
            |trace| > 0 && trace[|trace| - 1] == InternalOpen(Session(Resolve(storages, name, created).value, pool), user, password))
      && |trace| == (if name in storages then 0 else 1) + (if Resolve(storages, name, created).Ok? then 1 else 0)
  {
  }

  /** What open and poolOpen return: the session, or the collaborator's exception untranslated. */
  function OpenResult(storages: map<string, StorageId>, name: string, pool: Option<PoolId>,
                      created: Result<StorageId>, auth: Option<Exception>): (r: Result<Session>)
    ensures r.Ok? <==> Resolve(storages, name, created).Ok? && auth.None?
    ensures r.Ok? ==> r.value == Session(Resolve(storages, name, created).value, pool)
    ensures name in storages && r.Ok? ==> r.value.storage == storages[name]
    ensures name !in storages && created.Thrown? ==> r == Thrown(created.error)
    ensures Resolve(storages, name, created).Ok? && auth.Some? ==> r == Thrown(auth.value)
  {
    match Resolve(storages, name, created)
    case Thrown(e) => Thrown(e)
    case Ok(s) => if auth.Some? then Thrown(auth.value) else Ok(Session(s, pool))
  }

  // ---------------------------------------------------------------- administration connections

  /** The catch clause: an IOException leaves as a database exception carrying it, anything else unchanged. */
  function Translate(e: Exception): Exception
  {
    if e.IOException? then DatabaseException(e) else e
  }

  /** The first exception thrown inside the try block: building the client, connecting, or the operation. */
  function Raised<T>(faults: AdminFaults, reply: Result<T>): Option<Exception>
  {
    if faults.construct.Some? then faults.construct
    else if faults.connect.Some? then faults.connect
    else if reply.Thrown? then Some(reply.error)
    else None
  }

  /** The calls one administrative operation makes on its throwaway connection. */
  function AdminTrace(url: string, user: string, password: string, call: AdminCall, faults: AdminFaults): seq<Event>
  {
    if faults.construct.Some? then [AdminConstruct(url)]
    else if faults.connect.Some? then [AdminConstruct(url), AdminConnect(user, password), AdminClose]
    else [AdminConstruct(url), AdminConnect(user, password), AdminExecute(call), AdminClose]
  }

  /**
    Guaranteed release: the client is built exactly once, as the first call;
    once built it is closed exactly once, as the last call, whether connect or
    the operation succeeded or threw; one whose construction threw is never
    closed. Connect and the operation are each attempted at most once, the
    operation only after a successful connect.
   */
  lemma AdminTraceReleases(url: string, user: string, password: string, call: AdminCall, faults: AdminFaults)
    ensures var trace := AdminTrace(url, user, password, call, faults);
      && |trace| > 0 && trace[0] == AdminConstruct(url)
      && multiset(trace)[AdminConstruct(url)] == 1
      && |trace| == (if faults.construct.Some? then 1 else if faults.connect.Some? then 3 else 4)
      && (forall e | e in trace ::
            e == AdminConstruct(url) || e == AdminConnect(user, password) || e == AdminExecute(call) || e == AdminClose)
      && multiset(trace)[AdminClose] == (if faults.construct.None? then 1 else 0)
      && (faults.construct.None? ==> trace[|trace| - 1] == AdminClose)
      && multiset(trace)[AdminConnect(user, password)] == (if faults.construct.None? then 1 else 0)
      && multiset(trace)[AdminExecute(call)] == (if faults.construct.None? && faults.connect.None? then 1 else 0)
      && (faults.construct.None? ==> |trace| > 1 && trace[1] == AdminConnect(user, password))
      && (faults.construct.None? && faults.connect.None? ==> |trace| > 2 && trace[2] == AdminExecute(call))
  {
  }

  /** What an administrative operation returns or throws, given what each step did. */
  function AdminResult<T>(faults: AdminFaults, reply: Result<T>): (r: Result<T>)
    // the operation's value comes back unchanged, and only when no step threw
    ensures r.Ok? <==> Raised(faults, reply).None? && faults.close.None?
    ensures r.Ok? ==> r == reply
    // an exception from closing a built client replaces whatever the try block produced
    ensures faults.construct.None? && faults.close.Some? ==> r == Thrown(faults.close.value)
    // otherwise the first exception leaves: an IOException wrapped with its cause, any other unchanged
    ensures (faults.construct.Some? || faults.close.None?) && Raised(faults, reply).Some? ==>
      var e := Raised(faults, reply).value;
      r == if e.IOException? then Thrown(DatabaseException(e)) else Thrown(e)
  {
    if faults.construct.Some? then Thrown(Translate(faults.construct.value))
    else if faults.close.Some? then Thrown(faults.close.value)
    else if faults.connect.Some? then Thrown(Translate(faults.connect.value))
    else match reply
      case Ok(_) => reply
      case Thrown(e) => Thrown(Translate(e))
  }

  /** The operation of listDatabases: the key set of the server's name-to-metadata map. */
  function KeysOf(listed: Result<map<string, string>>): Result<set<string>>
  {
    match listed
    case Ok(m) => Ok(m.Keys)
    case Thrown(e) => Thrown(e)
  }

  // ---------------------------------------------------------------- shutting down

  /** `order` lists every key of `m` exactly once: one order a hash map may iterate in. */
  ghost predicate IsIterationOrder(order: seq<string>, m: map<string, StorageId>)
  {
    && (forall k :: k in order <==> k in m)
    && (forall i, j | 0 <= i < j < |order| :: order[i] != order[j])
  }

  /** The copy of the table's values taken in iteration order `order`. */
  function Snapshot(m: map<string, StorageId>, order: seq<string>): (values: seq<StorageId>)
    requires forall k | k in order :: k in m
  {
    seq(|order|, i requires 0 <= i < |order| => m[order[i]])
  }

  /** A sequence without repetitions is as long as the set of its elements. */
  lemma {:induction false} DistinctLength(order: seq<string>)
    requires forall i, j | 0 <= i < j < |order| :: order[i] != order[j]
    ensures |set k | k in order| == |order|
  {
    if order != [] {
      var rest := order[1..];
      DistinctLength(rest);
      assert (set k | k in order) == {order[0]} + (set k | k in rest);
      assert order[0] !in rest;
    }
  }

  /** A snapshot in any iteration order holds one entry per name and exactly the table's values. */
  lemma SnapshotOfTable(m: map<string, StorageId>, order: seq<string>)
    requires IsIterationOrder(order, m)
    ensures |Snapshot(m, order)| == |m|
    ensures forall s :: s in Snapshot(m, order) <==> s in m.Values
  {
    DistinctLength(order);
    assert (set k | k in order) == m.Keys;
    var values := Snapshot(m, order);
    forall s | s in m.Values ensures s in values {
      var k :| k in m && m[k] == s;
      var i :| 0 <= i < |order| && order[i] == k;
      assert values[i] == s;
    }
  }

  /** One shutdown attempt per snapshot entry, in order, whatever the earlier attempts did. */
  function ShutdownTrace(snapshot: seq<StorageId>, failing: set<StorageId>): (trace: seq<Event>)
    ensures |trace| == |snapshot|
    ensures forall i | 0 <= i < |snapshot| :: trace[i] == StorageShutdown(snapshot[i], snapshot[i] in failing)
  {
    if snapshot == [] then []
    else
      var last := snapshot[|snapshot| - 1];
      ShutdownTrace(snapshot[..|snapshot| - 1], failing) + [StorageShutdown(last, last in failing)]
  }

  /** The number of shutdown attempts on storage `s` in a call log. */
  function Attempts(trace: seq<Event>, s: StorageId): nat
  {
    if trace == [] then 0
    else
      var e := trace[|trace| - 1];
      Attempts(trace[..|trace| - 1], s) + if e.StorageShutdown? && e.storage == s then 1 else 0
  }

  /** Each storage gets as many shutdown attempts as it has entries in the snapshot. */
  lemma {:induction false} ShutdownAttempts(snapshot: seq<StorageId>, failing: set<StorageId>, s: StorageId)
    ensures Attempts(ShutdownTrace(snapshot, failing), s) == multiset(snapshot)[s]
  {
    if snapshot != [] {
      var prefix := snapshot[..|snapshot| - 1];
      ShutdownAttempts(prefix, failing, s);
      assert ShutdownTrace(snapshot, failing)[..|prefix|] == ShutdownTrace(prefix, failing);
      assert snapshot == prefix + [snapshot[|prefix|]];
    }
  }

  /** The calls close makes on a table iterated in `order`: every storage's shutdown, then the engine's. */
  function CloseTrace(m: map<string, StorageId>, order: seq<string>, failing: set<StorageId>): (trace: seq<Event>)
    requires IsIterationOrder(order, m)
    ensures |trace| == |m| + 1
    ensures forall i | 0 <= i < |trace| - 1 :: trace[i].StorageShutdown?
    ensures trace[|trace| - 1] == EngineShutdown
  {
    SnapshotOfTable(m, order);
    ShutdownTrace(Snapshot(m, order), failing) + [EngineShutdown]
  }

  /**
    Every entry of the snapshot taken at entry gets exactly one shutdown
    attempt in close, so every storage in the table gets at least one.
   */
  lemma CloseShutsDownEachOnce(m: map<string, StorageId>, order: seq<string>, failing: set<StorageId>, s: StorageId)
    requires IsIterationOrder(order, m)
    ensures Attempts(CloseTrace(m, order, failing), s) == multiset(Snapshot(m, order))[s]
    ensures s in m.Values <==> Attempts(CloseTrace(m, order, failing), s) > 0
  {
    SnapshotOfTable(m, order);
    var shutdowns := ShutdownTrace(Snapshot(m, order), failing);
    ShutdownAttempts(Snapshot(m, order), failing, s);
    assert CloseTrace(m, order, failing)[..|shutdowns|] == shutdowns;
  }

  /** On an empty table the only call close makes is the engine's shutdown. */
  lemma CloseOnEmptyTable(order: seq<string>, failing: set<StorageId>)
    requires IsIterationOrder(order, map[])
    ensures CloseTrace(map[], order, failing) == [EngineShutdown]
  {
  }

  // ---------------------------------------------------------------- the factory

  class RemoteDBFactory {
    const hosts: HostList
    /** Name-to-storage table; in this class it is read and cleared, never filled. */
    var storages: map<string, StorageId>
    /** Every collaborator call made so far, in order. */
    ghost var events: seq<Event>

    constructor (hosts: HostList)
      ensures this.hosts == hosts && storages == map[] && events == []
    {
      this.hosts := hosts;
      storages := map[];
      events := [];
    }

    /** open(name, user, password); `created` and `auth` are what createStorage and internalOpen do. */
    method Open(name: string, user: string, password: string, created: Result<StorageId>, auth: Option<Exception>)
      returns (r: Result<Session>)
      modifies this`events
      ensures storages == old(storages)
      ensures events == old(events) + OpenTrace(hosts, storages, name, user, password, None, created)
      ensures r == OpenResult(storages, name, None, created, auth)
    {
      r := OpenOver(name, user, password, None, created, auth);
    }

    /** poolOpen(name, user, password, pool): as open, with a pooled session bound to `pool`. */
    method PoolOpen(name: string, user: string, password: string, pool: PoolId,
                    created: Result<StorageId>, auth: Option<Exception>)
      returns (r: Result<Session>)
      modifies this`events
      ensures storages == old(storages)
      ensures events == old(events) + OpenTrace(hosts, storages, name, user, password, Some(pool), created)
      ensures r == OpenResult(storages, name, Some(pool), created, auth)
    {
      r := OpenOver(name, user, password, Some(pool), created, auth);
    }

    /** The body open and poolOpen share: look the storage up, create it if missing, open a session. */
    method OpenOver(name: string, user: string, password: string, pool: Option<PoolId>,
                    created: Result<StorageId>, auth: Option<Exception>)
      returns (r: Result<Session>)
      modifies this`events
      ensures events == old(events) + OpenTrace(hosts, storages, name, user, password, pool, created)
      ensures r == OpenResult(storages, name, pool, created, auth)
    {
      var storage: Result<StorageId>;
      if name in storages {
        storage := Ok(storages[name]);
      } else {
        // the new storage is kept in a local only; the table is not updated
        events := events + [CreateStorage(BuildUrl(hosts, name), map[])];
        storage := created;
      }
      if storage.Thrown? {
        r := Thrown(storage.error);
        return;
      }
      var session := Session(storage.value, pool);
      events := events + [InternalOpen(session, user, password)];
      if auth.Some? {
        r := Thrown(auth.value);
      } else {
        r := Ok(session);
      }
    }

    /**
      connectEndExecute: build an administration client for `name`, connect,
      run `call` (whose outcome is `reply`), translate an IOException, and
      close the client in every case where it was built.
     */
    method ConnectAndExecute<T>(name: string, user: string, password: string, call: AdminCall,
                                reply: Result<T>, faults: AdminFaults)
      returns (r: Result<T>)
      modifies this`events
      ensures events == old(events) + AdminTrace(BuildUrl(hosts, name), user, password, call, faults)
      ensures r == AdminResult(faults, reply)
    {
      events := events + [AdminConstruct(BuildUrl(hosts, name))];
      if faults.construct.Some? {
        // the client reference stays null, so the finally block closes nothing
        r := Thrown(Translate(faults.construct.value));
        return;
      }
      events := events + [AdminConnect(user, password)];
      if faults.connect.Some? {
        r := Thrown(Translate(faults.connect.value));
      } else {
        events := events + [AdminExecute(call)];
        r := if reply.Thrown? then Thrown(Translate(reply.error)) else reply;
      }
      // finally
      events := events + [AdminClose];
      if faults.close.Some? {
        r := Thrown(faults.close.value);
      }
    }

    /** create(name, user, password, type): createDatabase(name, null, token of type). */
    method Create(name: string, user: string, password: string, databaseType: DatabaseType,
                  reply: Result<()>, faults: AdminFaults)
      returns (r: Result<()>)
      modifies this`events
      ensures events == old(events) +
        AdminTrace(BuildUrl(hosts, name), user, password, CreateDatabase(name, None, TypeToken(databaseType)), faults)
      ensures r == AdminResult(faults, reply)
    {
      r := ConnectAndExecute(name, user, password, CreateDatabase(name, None, TypeToken(databaseType)), reply, faults);
    }

    /** exist(name, user, password): existsDatabase(name, null). */
    method Exist(name: string, user: string, password: string, reply: Result<bool>, faults: AdminFaults)
      returns (r: Result<bool>)
      modifies this`events
      ensures events == old(events) + AdminTrace(BuildUrl(hosts, name), user, password, ExistsDatabase(name, None), faults)
      ensures r == AdminResult(faults, reply)
    {
      r := ConnectAndExecute(name, user, password, ExistsDatabase(name, None), reply, faults);
    }

    /** drop(name, user, password): dropDatabase(name, null); its return value is discarded. */
    method Drop(name: string, user: string, password: string, reply: Result<()>, faults: AdminFaults)
      returns (r: Result<()>)
      modifies this`events
      ensures events == old(events) + AdminTrace(BuildUrl(hosts, name), user, password, DropDatabase(name, None), faults)
      ensures r == AdminResult(faults, reply)
    {
      r := ConnectAndExecute(name, user, password, DropDatabase(name, None), reply, faults);
    }

    /** listDatabases(user, password): the names the server lists, on the URL of the empty name. */
    method ListDatabases(user: string, password: string, listed: Result<map<string, string>>, faults: AdminFaults)
      returns (r: Result<set<string>>)
      modifies this`events
      ensures events == old(events) + AdminTrace(BuildUrl(hosts, ""), user, password, Collaborators.ListDatabases, faults)
      ensures r == AdminResult(faults, KeysOf(listed))
      ensures r.Ok? ==> listed.Ok? && r.value == listed.value.Keys
    {
      r := ConnectAndExecute("", user, password, Collaborators.ListDatabases, KeysOf(listed), faults);
    }

    /**
      new ArrayList<>(storages.values()): the table's values, copied in its
      iteration order, which is not specified; `order` is the order taken.
     */
    method ValuesSnapshot() returns (ghost order: seq<string>, copy: seq<StorageId>)
      ensures IsIterationOrder(order, storages)
      ensures copy == Snapshot(storages, order)
      ensures |copy| == |storages|
      ensures forall s :: s in copy <==> s in storages.Values
    {
      var remaining := storages.Keys;
      copy, order := [], [];
      while remaining != {}
        invariant remaining <= storages.Keys
        invariant forall k :: k in order <==> k in storages && k !in remaining
        invariant forall i, j | 0 <= i < j < |order| :: order[i] != order[j]
        invariant copy == Snapshot(storages, order)
        decreases remaining
      {
        var k :| k in remaining;
        order, copy := order + [k], copy + [storages[k]];
        remaining := remaining - {k};
      }
      SnapshotOfTable(storages, order);
    }

    /**
      close(): shut down every storage of a snapshot of the table, each
      failure caught, then clear the table and shut the engine down.
      `failing` holds the storages whose shutdown throws, `engineFault` what the
      engine's shutdown throws; `order` is the iteration order taken.
     */
    method Close(failing: set<StorageId>, engineFault: Option<Exception>)
      returns (ghost order: seq<string>, raised: Option<Exception>)
      modifies this`storages, this`events
      ensures IsIterationOrder(order, old(storages))
      ensures storages == map[]
      ensures events == old(events) + CloseTrace(old(storages), order, failing)
      ensures raised == engineFault
    {
      var copy;
      order, copy := ValuesSnapshot();
      var i := 0;
      while i < |copy|
        invariant storages == old(storages)
        invariant 0 <= i <= |copy|
        invariant events == old(events) + ShutdownTrace(copy[..i], failing)
      {
        // a failing shutdown is caught and logged; the loop goes on
        events := events + [StorageShutdown(copy[i], copy[i] in failing)];
        assert copy[..i + 1][..i] == copy[..i];
        i := i + 1;
      }
      assert copy[..i] == copy;
      storages := map[];
      events := events + [EngineShutdown];
      raised := engineFault;
    }
  }

  // ---------------------------------------------------------------- client scenarios

  /**
    On a fresh factory, opening the same name twice calls createStorage
    twice, and the two sessions sit on the two storages created.
   */
  method SameNameOpenedTwice(hosts: HostList, name: string, user: string, password: string,
                             first: StorageId, second: StorageId)
    returns (f: RemoteDBFactory, a: Result<Session>, b: Result<Session>)
    ensures a == Ok(Session(first, None)) && b == Ok(Session(second, None))
    ensures f.storages == map[]
    ensures f.events == [CreateStorage(BuildUrl(hosts, name), map[]), InternalOpen(Session(first, None), user, password),
                         CreateStorage(BuildUrl(hosts, name), map[]), InternalOpen(Session(second, None), user, password)]
  {
    f := new RemoteDBFactory(hosts);
    a := f.Open(name, user, password, Ok(first), None);
    b := f.Open(name, user, password, Ok(second), None);
  }

  /** A second close shuts down no storage: its only call is the engine's shutdown. */
  method CloseTwice(f: RemoteDBFactory, failing: set<StorageId>)
    modifies f
    ensures f.storages == map[]
    ensures exists order :: (IsIterationOrder(order, old(f.storages)) &&
      f.events == old(f.events) + CloseTrace(old(f.storages), order, failing) + [EngineShutdown])
  {
    ghost var first, second;
    var raised;
    first, raised := f.Close(failing, None);
    second, raised := f.Close(failing, None);
    CloseOnEmptyTable(second, failing);
  }
}
