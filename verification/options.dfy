/** The optional value returned by JavaScript's `Array.prototype.find`:
    either nothing (`undefined`) or the element found. */
module Options {

  datatype Option<+T> = None | Some(value: T)

}
