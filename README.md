# ORemoteDBFactory, modelled in Dafny

A model of OrientDB's client-side factory for a remote database. The factory
resolves database names to storage handles through a name-to-storage table
(`storages`). It opens document sessions and pooled sessions over those
storages. It runs the administrative operations (create, exist, drop,
listDatabases) on short-lived server administration clients, and it always
closes a client it built. On close it shuts every held storage down and then
shuts the remote engine down.

The collaborators (`OEngine`, `OStorage`, `OServerAdmin`, the session classes)
are not modelled. What the factory does with them is recorded in a ghost call
log (`events`). What they do back is a parameter of each operation: a
`Result` (value or exception) for a call that can return, an
`Option<Exception>` for a call that can only throw, `AdminFaults` for the
three lifecycle steps of an administration client, and a set of failing
storages for close.

Files:

- `collaborators.dfy` (module `Collaborators`): storage and pool handles, the
  exception kinds (`IOException`, any other `RuntimeFault`, and
  `DatabaseException` carrying a cause), `Result`, `Session`, the admin calls
  and the call-log `Event`s.
- `remote_db_factory.dfy` (module `RemoteDB`): the pure functions that say
  what each operation logs and returns, the lemmas about them, and the class
  `RemoteDBFactory` with `const hosts`, `var storages` and `ghost var events`.
  Each method is proved against those functions. Two client methods at the
  end show what callers can conclude.

Two behaviours of the code shape the model:

- open and poolOpen do not cache a created storage: lines 44 and 68 assign
  it to a local variable only, so the table is only ever read and cleared.
  `Open` and `PoolOpen` therefore never change `storages`.
  `SameNameOpenedTwice` shows the result: on a fresh factory, two opens of
  one name call `createStorage` twice, and each session sits on what its own
  call returned; nothing in the factory makes the two the same.
- connectEndExecute wraps only `IOException` (line 85); every other exception
  propagates unchanged. An exception thrown by `admin.close()` in the
  `finally` block replaces the operation's outcome, as Java's `finally` does.

## Model

| member | source | states |
|---|---|---|
| `RemoteDB.BuildUrl` | client/src/main/java/com/orientechnologies/orient/core/db/ORemoteDBFactory.java:36-38 | the URL is the first host, then `/`, then the name, with nothing else in it |
| `RemoteDB.BuildUrlIgnoresOtherHosts` | client/src/main/java/com/orientechnologies/orient/core/db/ORemoteDBFactory.java:36-38 | two host lists with the same first host give the same URL: later hosts are never used |
| `RemoteDB.BuildUrlInjective` | client/src/main/java/com/orientechnologies/orient/core/db/ORemoteDBFactory.java:36-38 | different names give different URLs, so a storage created for one name is never requested for another |
| `RemoteDB.TypeToken` | client/src/main/java/com/orientechnologies/orient/core/db/ORemoteDBFactory.java:54-59 | MEMORY gives `"memory"`, PLOCAL gives `"plocal"`, any other type gives null, each in both directions |
| `RemoteDB.OpenTraceCalls` | client/src/main/java/com/orientechnologies/orient/core/db/ORemoteDBFactory.java:42-47 | `createStorage(buildUrl(name), empty options)` is called once if the name is missing from the table and never if present; `internalOpen` runs exactly once and last, with exactly the given credentials, on a session over the resolved storage with the given pool, and only if a storage was obtained |
| `RemoteDB.OpenResult` | client/src/main/java/com/orientechnologies/orient/core/db/ORemoteDBFactory.java:41-49 | the result is a session over the table's storage when the name is present, else over the created one; a `createStorage` or `internalOpen` exception propagates untranslated |
| `RemoteDB.RemoteDBFactory.Open` | client/src/main/java/com/orientechnologies/orient/core/db/ORemoteDBFactory.java:41-49 | `storages` is unchanged; the log grows by exactly `OpenTrace` with no pool; the result is `OpenResult` |
| `RemoteDB.RemoteDBFactory.PoolOpen` | client/src/main/java/com/orientechnologies/orient/core/db/ORemoteDBFactory.java:65-73 | as `Open`, with the session bound to the given pool |
| `RemoteDB.RemoteDBFactory.OpenOver` | client/src/main/java/com/orientechnologies/orient/core/db/ORemoteDBFactory.java:66-71 | the lookup, creation and session opening shared by open and poolOpen: the log grows by `OpenTrace` and the result is `OpenResult` |
| `RemoteDB.AdminTraceReleases` | client/src/main/java/com/orientechnologies/orient/core/db/ORemoteDBFactory.java:79-91 | the client is built exactly once, as the first call; once built it is closed exactly once, as the last call, whether connect or the operation succeeded or threw; a client whose construction threw is never closed; the operation runs at most once, only after a successful connect, which is the second call |
| `RemoteDB.AdminResult` | client/src/main/java/com/orientechnologies/orient/core/db/ORemoteDBFactory.java:79-91 | the operation's value is returned unchanged exactly when no step throws; the first exception leaves as a `DatabaseException` carrying it if it is an `IOException`, and unchanged otherwise; an exception from closing a built client replaces the outcome |
| `RemoteDB.RemoteDBFactory.ConnectAndExecute` | client/src/main/java/com/orientechnologies/orient/core/db/ORemoteDBFactory.java:79-91 | the log grows by exactly `AdminTrace` for the URL of the name, and the result is `AdminResult` |
| `RemoteDB.RemoteDBFactory.Create` | client/src/main/java/com/orientechnologies/orient/core/db/ORemoteDBFactory.java:52-63 | runs one guarded admin call, `createDatabase(name, null, TypeToken(type))` |
| `RemoteDB.RemoteDBFactory.Exist` | client/src/main/java/com/orientechnologies/orient/core/db/ORemoteDBFactory.java:94-99 | runs one guarded admin call, `existsDatabase(name, null)`, and returns its answer |
| `RemoteDB.RemoteDBFactory.Drop` | client/src/main/java/com/orientechnologies/orient/core/db/ORemoteDBFactory.java:102-107 | runs one guarded admin call, `dropDatabase(name, null)` |
| `RemoteDB.RemoteDBFactory.ListDatabases` | client/src/main/java/com/orientechnologies/orient/core/db/ORemoteDBFactory.java:110-115 | connects to the URL of the empty name; on success it returns exactly the key set of the server's `listDatabases()` map |
| `RemoteDB.RemoteDBFactory.ValuesSnapshot` | client/src/main/java/com/orientechnologies/orient/core/db/ORemoteDBFactory.java:124 | the copy has one entry per name and holds exactly the table's values, taken in an iteration order that lists every name once |
| `RemoteDB.SnapshotOfTable` | client/src/main/java/com/orientechnologies/orient/core/db/ORemoteDBFactory.java:124 | a snapshot in any iteration order has one entry per name and holds exactly the table's values |
| `RemoteDB.ShutdownTrace` | client/src/main/java/com/orientechnologies/orient/core/db/ORemoteDBFactory.java:125-132 | one shutdown attempt per snapshot entry, in snapshot order, whether or not the earlier attempts threw |
| `RemoteDB.ShutdownAttempts` | client/src/main/java/com/orientechnologies/orient/core/db/ORemoteDBFactory.java:125-132 | each storage gets as many shutdown attempts as it has entries in the snapshot |
| `RemoteDB.CloseTrace` | client/src/main/java/com/orientechnologies/orient/core/db/ORemoteDBFactory.java:122-137 | close makes one call per table entry plus one: storage shutdowns first, then the engine's shutdown once, as the last call |
| `RemoteDB.CloseShutsDownEachOnce` | client/src/main/java/com/orientechnologies/orient/core/db/ORemoteDBFactory.java:124-132 | every entry of the snapshot taken at entry gets exactly one shutdown attempt; a storage gets an attempt if and only if it is in the table |
| `RemoteDB.CloseOnEmptyTable` | client/src/main/java/com/orientechnologies/orient/core/db/ORemoteDBFactory.java:122-137 | on an empty table the only call close makes is the engine's shutdown |
| `RemoteDB.RemoteDBFactory.Close` | client/src/main/java/com/orientechnologies/orient/core/db/ORemoteDBFactory.java:122-137 | the log grows by exactly `CloseTrace` of the table at entry; afterwards `storages` is empty; storage shutdown failures are swallowed, and only the engine's shutdown exception leaves |
| `RemoteDB.RemoteDBFactory.constructor` | client/src/main/java/com/orientechnologies/orient/core/db/ORemoteDBFactory.java:25-29 | the factory keeps the given hosts and starts with an empty table and no calls made |
| `RemoteDB.SameNameOpenedTwice` | client/src/main/java/com/orientechnologies/orient/core/db/ORemoteDBFactory.java:41-49 | on a fresh factory, two opens of one name call `createStorage` twice and give sessions over the two storages created |
| `RemoteDB.CloseTwice` | client/src/main/java/com/orientechnologies/orient/core/db/ORemoteDBFactory.java:122-137 | a second close shuts down no storage: its only call is the engine's shutdown |

## Left out

- `synchronized` on open, create, exist and drop, and the missing lock on poolOpen, listDatabases and close (which reads and clears the table open reads): the model is sequential and claims nothing about concurrent callers.
- The engine registry lookup `Orient.instance().getEngine("remote")` and the registration and self-removal of the shutdown hook in the constructor: runtime bootstrap. The engine appears only through the `CreateStorage` and `EngineShutdown` calls.
- An empty host array: a `HostList` is never empty, whereas the code would throw `ArrayIndexOutOfBoundsException` on its first `buildUrl`.
- What the collaborators do (wire protocol, authentication, storage teardown, session semantics): only their calls and outcomes are kept. Building a session object is taken never to throw.
- `openPool`: it only constructs a pool object over the factory and has no logic of its own.
- Logging in close and the text of the wrapping exception's message. The log line's `stg.getName()` runs inside the same try as `stg.shutdown()`, so a logged failed attempt (`StorageShutdown(s, true)`) may be one where shutdown itself was never reached; and because failure is keyed on the storage, a storage listed under two names fails on both attempts or on neither.
- `const hosts`: Java keeps the caller's `String[]` by reference and reads `hosts[0]` on every call, so a caller changing the array after construction changes later URLs; the model fixes the hosts at construction.
- The memory-database case marked TODO in exist, drop and listDatabases: the model sends the null storage mode exactly as the code does.
- `DatabaseType` values other than MEMORY and PLOCAL, and a null type, are all covered by `Unrecognised`, because the enum's other constants are not part of this model.
- The admin server's metadata values in the listDatabases map are modelled as strings and dropped, as the code drops them.
