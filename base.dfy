/** Scalar types, errno values and the Option wrapper shared by every module. */
module Base {

  /** A C++ `int32_t`. */
  newtype int32 = x: int | -0x8000_0000 <= x < 0x8000_0000

  /** A C++ `uint32_t`. */
  newtype uint32 = x: int | 0 <= x < 0x1_0000_0000

  /** The numeric outcome that crosses the process boundary. */
  type ErrCode = int32

  datatype Option<+T> = None | Some(value: T)

  const ERR_OK: ErrCode := 0
  /** The transport's "no error" result. */
  const NO_ERROR: int32 := 0

  // errno values (Linux numbering).
  const EPERM: ErrCode := 1
  const ENOENT: ErrCode := 2
  const EINVAL: ErrCode := 22
  const EPIPE: ErrCode := 32
}
