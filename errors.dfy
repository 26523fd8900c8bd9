/** The exceptions that can leave the core, as values. */
module Errors {

  datatype Error =
    | KeyError(key: string)  // a missing dictionary key, such as result["answer"]
    | ChainFailure           // any exception raised while the chain is invoked
    | IntegrityError         // SQLite refused an insert (a foreign key it enforces)

  datatype Result<+T> = Ok(value: T) | Err(error: Error)
}
