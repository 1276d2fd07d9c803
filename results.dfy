/** The optional-value and success-or-error wrappers the models return. */
module Results {

  datatype Option<T> = None | Some(value: T)

  datatype Result<T, E> = Ok(value: T) | Err(error: E)
}
