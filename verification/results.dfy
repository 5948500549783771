/** Stand-in for the `result.Result` type that the stream and reader code
    import: a computation either succeeded with a value, produced nothing
    (`Result()` in the library), or failed with a message. */
module Results {

  datatype Result<+T> = Success(value: T) | Empty | Failure(message: string)
}
