/** Types shared by both plugins: libyang's LY_ERR return codes and an optional value
    standing for a pointer that may be NULL. */
module LyCommon {

  /** LY_ERR, in declaration order; LY_SUCCESS is 0 and every other code is an error. */
  datatype LyErr =
    | Success
    | EMem
    | ESys
    | EInval
    | EExist
    | ENotFound
    | EInt
    | EValid
    | EDenied
    | EIncomplete
    | ERecompile
    | ENot
    | EOther
    | EPlugin

  /** A pointer that may be NULL. */
  datatype Option<T> = None | Some(value: T)
}
