/** The optional value used for the widget's nullable state cells (`null` is `None`). */
module Options {

  datatype Option<+T> = None | Some(value: T)
}
