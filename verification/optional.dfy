/** An optional value: `None` stands for JavaScript's "no result" (`-1` from
    `findIndex`, a failed fetch, a handler that was not passed in). */
module Optional {

  datatype Option<+T> = None | Some(value: T)
}
