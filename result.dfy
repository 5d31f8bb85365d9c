/** The exceptions the compiler throws (`std::runtime_error`), as values. */
module Results {

  /** Either a value or the message of the exception that replaced it. */
  datatype Result<T> = Ok(value: T) | Err(message: string)
}
