/** Optional values shared by the modules of the contact-form model. */
module Wrappers {

  /** A value that may be absent: a missing JSON field, or "no field yet". */
  datatype Option<+T> = None | Some(value: T)
}
