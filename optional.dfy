/** A value that may be absent: a field a record has not been given, or a lookup that found nothing. */
module Optional {

  datatype Option<+T> = None | Some(value: T)
}
