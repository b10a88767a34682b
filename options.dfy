/** The optional value used where the source holds `number | null`. */
module Options {

  datatype Option<+T> = None | Some(value: T)

}
