/**
  The interface between the remote database factory and the collaborators it
  calls into: the remote engine, the storages it creates, the document
  sessions built over them and the short-lived server administration client.
  What those collaborators do is not modelled; only the calls the factory
  makes (as events) and their outcomes (as values chosen by the caller of the
  model) are.
 */
module Collaborators {

  datatype Option<T> = None | Some(value: T)

  /** An opaque storage handle, as returned by the engine's createStorage. */
  type StorageId = nat

  /** An opaque reference to the pool a pooled session returns itself to. */
  type PoolId = nat

  /** The exceptions that can leave a collaborator call or the factory. */
  datatype Exception =
    | IOException(code: nat)                 // java.io.IOException from the admin client
    | RuntimeFault(code: nat)                // any other exception or error
    | DatabaseException(cause: Exception)    // ODatabaseException carrying its cause

  /** A value returned normally, or an exception thrown. */
  datatype Result<T> = Ok(value: T) | Thrown(error: Exception)

  /**
    A session object built over one storage: a plain document session when
    `pool` is None, a pooled session bound to `pool` otherwise.
   */
  datatype Session = Session(storage: StorageId, pool: Option<PoolId>)

  /**
    The one operation an administration connection executes, with its
    arguments in the order the factory passes them. `second` is the second
    argument (None is null). `token` is the type token create sends third.
   */
  datatype AdminCall =
    | CreateDatabase(name: string, second: Option<string>, token: Option<string>)
    | ExistsDatabase(name: string, second: Option<string>)
    | DropDatabase(name: string, second: Option<string>)
    | ListDatabases

  /**
    Which steps of an administration connection's lifecycle throw: building
    the client, connecting it, and closing it.
   */
  datatype AdminFaults = AdminFaults(construct: Option<Exception>, connect: Option<Exception>, close: Option<Exception>)

  /** One call the factory makes into a collaborator. */
  datatype Event =
    | CreateStorage(url: string, options: map<string, string>)
    | InternalOpen(session: Session, user: string, password: string)
    | AdminConstruct(url: string)
    | AdminConnect(user: string, password: string)
    | AdminExecute(call: AdminCall)
    | AdminClose
    | StorageShutdown(storage: StorageId, failed: bool)
    | EngineShutdown
}
