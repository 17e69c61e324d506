/**
 Shared vocabulary of the model: bytes, optional values and the unsigned
 integer widths that appear at the Python/Rust boundary.
 */
module Common {

  /** A byte as Python's `bytes` and Rust's `u8` see it. */
  type byte = x: int | 0 <= x < 256

  /** Python `bytes` / Rust `Vec<u8>`. */
  type Bytes = seq<byte>

  /** Python `Optional[T]` / Rust `Option<T>`. */
  datatype Option<+T> = None | Some(value: T)

  const TWO_TO_THE_32: int := 0x1_0000_0000

  /** A value of C type `uint32_t` (ctypes `c_uint32`, Rust `u32`). */
  type u32 = x: int | 0 <= x < TWO_TO_THE_32

  const TWO_TO_THE_64: int := 0x1_0000_0000_0000_0000

  /** A value of C type `uint64_t` (ctypes `c_uint64`, Rust `u64`). */
  type u64 = x: int | 0 <= x < TWO_TO_THE_64

  /** Storing a Python int into a `c_uint64` keeps its low 64 bits. */
  function WrapU64(x: int): (r: u64)
    ensures 0 <= x < TWO_TO_THE_64 ==> r == x
    ensures x < 0 && -TWO_TO_THE_64 <= x ==> r == x + TWO_TO_THE_64
  {
    x % TWO_TO_THE_64
  }

  /** A value of Rust type `u8`. */
  type u8 = x: int | 0 <= x < 256

  /**
   Storing a Python int into a `c_uint32` keeps its low 32 bits; for a
   negative int that is the two's-complement residue, which is exactly the
   Euclidean remainder Dafny computes.
   */
  function WrapU32(x: int): (r: u32)
    ensures 0 <= x < TWO_TO_THE_32 ==> r == x
    ensures (r - x) % TWO_TO_THE_32 == 0
  {
    x % TWO_TO_THE_32
  }

  /** Python's `str.startswith`. */
  predicate StartsWith(s: string, prefix: string) {
    |prefix| <= |s| && s[..|prefix|] == prefix
  }
}
