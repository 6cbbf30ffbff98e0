/** The conventional optional value, used where the runtime returns NULL or aborts. */
module Options {

  datatype Option<+T> = None | Some(value: T)
}
