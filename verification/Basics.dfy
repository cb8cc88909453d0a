/** Small types shared by the whole project. */
module Basics {
  datatype Option<+T> = None | Some(value: T)

  /** A remote call may fail without effect, or take effect and still report an error. */
  datatype Fault = NoFault | Lost | Applied

  /** How a piece of the operator's code ends. A panic ends the whole process. */
  datatype Status = Fine | Erred | Panicked
}
