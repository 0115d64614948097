/** Status codes shared by the buffer, taper and station modules.
    OSKAR reports errors through an `int` status where 0 means success; the
    model keeps the named error kinds apart and keeps any code it cannot see
    (a CUDA error, a code from a free routine) as `Foreign`. */
module Status {

  datatype ErrorKind =
    | InvalidArgument
    | DimensionMismatch
    | TypeMismatch
    | LocationMismatch
    | BadLocation
    | BadDataType
    | CudaNotAvailable
    | Foreign(code: int)

  datatype Status = Success | Error(kind: ErrorKind) {
    predicate IsError() { Error? }
  }
}
