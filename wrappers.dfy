/** Optional values and the results of operations that can throw. */
module Wrappers {

  /** A value that may be absent: TypeScript's `T | undefined` or `T | null`. */
  datatype Option<+T> = None | Some(value: T)

  /** The value when present, `default` otherwise: a field of a partial object spread over a
      complete one. */
  function GetOr<T>(o: Option<T>, default: T): T {
    if o.Some? then o.value else default
  }

  /** `o` when present, `other` otherwise. */
  function OrElse<T>(o: Option<T>, other: Option<T>): Option<T> {
    if o.Some? then o else other
  }

  /** Why a promise of the persistence layer rejects instead of resolving. */
  datatype DbError =
    | NoConnection                  // `throw new Error('No database connection')`
    | DuplicateKey(column: string)  // an INSERT that breaks a PRIMARY KEY or UNIQUE column
    | UnknownColumn(column: string) // an UPDATE that names a column the table does not have
    | BadValue(column: string)      // an UPDATE that binds a value of the wrong kind to a column
    | MissingMethod(name: string)   // a call to a method the fallback store does not define

  /** The settled state of a promise: resolved with a value, or rejected. */
  datatype Result<+T> = Ok(value: T) | Err(error: DbError)
}
