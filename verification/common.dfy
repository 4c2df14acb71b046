/** Small wrappers shared by every script model. */
module Common {

  datatype Option<T> = None | Some(value: T)

  /** How a remote call that the scripts guard with try/except came back. */
  datatype Reply =
    | Accepted          // the call returned normally
    | Fault             // the transport raised its RPC fault type
    | Failure           // any other exception

  /** How a script run ends: an early `sys.exit`, normally, or by an uncaught exception. */
  datatype Outcome = Exited | Completed | Crashed
}
