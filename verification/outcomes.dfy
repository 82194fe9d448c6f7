/**
 Failure-compatible results for the handler: a Java method either returns a
 value or throws. The exceptions the handler can throw are modelled by the
 message they carry.
 */
module Outcomes {

  datatype Option<+T> = None | Some(value: T)

  /** The exceptions that leave the handler's methods. */
  datatype JavaException =
    | Exception(message: string)          // `new Exception(message)` thrown by the handler itself
    | NumberFormatException(input: string) // thrown by Integer.parseInt / Float.parseFloat
    | NullPointerException                 // a call on the scheduler before `init` created it

  /** A call that returns `value` or throws `error`. */
  datatype Outcome<+T> = Ok(value: T) | Thrown(error: JavaException)

  const ConfigError: JavaException := Exception("config error")
  const MaxTasksOutOfRange: JavaException := Exception("`max_tasks` out of range")
  const CompressionOutOfRange: JavaException := Exception("`compression` out of range")
  const CommandNotFound: JavaException := Exception("Command not found")
  const UserNotAllowed: JavaException := Exception("User not allowed")
}
