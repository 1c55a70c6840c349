/** The error values of the store (src/error.rs). Message texts are kept only where a property depends on them. */
module StoreErrors {

  datatype StoreError =
    | RocksDb(code: int)
    | Deserialization(message: string)
    | InvalidConfiguration(message: string)
    | MergeError(message: string)
    | UnknownCf(name: string)
    | Other(message: string)
    /** `Other` as FixedRetry formats it: the configured maximum and the last error. */
    | Exhausted(maxAttempts: nat, last: StoreError)
    /** A Rust panic (failed assertion, slice out of range, unwrap of None). */
    | Panic
}
