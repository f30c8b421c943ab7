/** The optional value used for every record field that is present only when its
    pattern matched: `Some` means the key is in the source's dictionary. */
module Options {

  datatype Option<+T> = None | Some(value: T)

}
