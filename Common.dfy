/** Small shared wrappers: an optional value, for the fields and lookups
    the source treats as possibly absent (`None`, `undefined`, a missing document). */
module Common {
  datatype Option<+T> = None | Some(value: T)
}
