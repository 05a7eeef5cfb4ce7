/** An optional value: `None` stands for JavaScript's `null`/`undefined`
    (an absent error argument, an unwritten array slot). */
module Optional {

  datatype Option<+T> = None | Some(value: T)
}
