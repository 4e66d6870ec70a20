/** JavaScript's `undefined`/`null` results (a missing storage entry, a
    failed `find`) as an optional value. */
module Options {
  datatype Option<T> = None | Some(value: T)
}
