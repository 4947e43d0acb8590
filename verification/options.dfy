/** The Some/None datatype used wherever the source can come back empty-handed
    (a NULL from strstr, an undefined array element in JavaScript). */
module Options {

  datatype Option<+T> = None | Some(value: T)

}
