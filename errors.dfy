/** The sentinel errors of the storage layer and of the service layer. */
module Errors {

  /** `datastore.Err*`: the fixed taxonomy every repository operation reports. */
  datatype StoreError =
    | ConnectionFailed
    | InvalidData
    | RecordNotFound
    | DuplicateRecord
    | TableDoesNotExist
    | TransactionFailed

  /** `services.Err*`: what the entity service reports to its callers. */
  datatype ServiceError =
    | EntityNotFound
    | EntityAlreadyExists
    | InternalError
}
