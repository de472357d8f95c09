/** Small value wrappers shared by the other modules. */
module Wrappers {

  /** A value that may be absent; `None` stands for a NULL entry or a missing object. */
  datatype Option<+T> = None | Some(value: T)

  /** The setup status codes of the analyzer framework (kOK / kInitError). */
  datatype Status = OK | InitError
}
