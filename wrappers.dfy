/** Option and Result, standing for Java's nullable references and thrown exceptions. */
module Wrappers {

  /** A nullable Java reference: None is null. */
  datatype Option<+T> = None | Some(value: T) {
    function GetOr(default: T): T {
      match this
      case Some(v) => v
      case None => default
    }
  }

  /** The kind of exception a Java operation ends with. */
  datatype Fault =
    | DaoFault(message: string)      // keepalive.exceptions.DAOException (checked)
    | RuntimeFault(message: string)  // NullPointerException, IndexOutOfBounds, NumberFormatException, ...

  const NULL_POINTER := RuntimeFault("NullPointerException")
  const INDEX_OUT_OF_BOUNDS := RuntimeFault("IndexOutOfBoundsException")
  const STRING_INDEX_OUT_OF_BOUNDS := RuntimeFault("StringIndexOutOfBoundsException")
  const NUMBER_FORMAT := RuntimeFault("NumberFormatException")
  const NEGATIVE_ARRAY_SIZE := RuntimeFault("NegativeArraySizeException")
  /** A java.lang.Exception that a wrapper rethrows around the message of its cause. */
  const EXCEPTION := RuntimeFault("Exception")

  /** The value an operation returns, or the exception it throws. */
  datatype Result<+T> = Ok(value: T) | Err(fault: Fault)

  /** A void operation that may throw. */
  datatype Status = Done | Failed(fault: Fault) {
    predicate IsDaoFault() { Failed? && fault.DaoFault? }
  }
}
