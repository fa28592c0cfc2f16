/** Values shared by every part of the model: optional values (JavaScript's
    `undefined`) and the outcome of awaiting an opaque asynchronous call into
    the audio capability or the database. */
module Effects {

  datatype Option<+T> = None | Some(value: T)

  /** An awaited call either resolves with a value or throws an error whose
      `message` the caller may read. */
  datatype Call<+T> = Returned(value: T) | Threw(message: string)
}
