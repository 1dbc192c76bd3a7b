/** Result and option types, machine integers and byte strings shared by every module. */
module Base {

  datatype Option<+T> = None | Some(value: T) {
    function GetOr(default: T): T {
      match this
      case Some(v) => v
      case None => default
    }
  }

  /** The failure-compatible result type; `:-` propagates `Err` as Rust's `?` does. */
  datatype Result<+T, +E> = Ok(value: T) | Err(error: E) {
    predicate IsFailure() {
      Err?
    }

    function PropagateFailure<U>(): (r: Result<U, E>)
      requires Err?
    {
      Err(error)
    }

    function Extract(): T
      requires Ok?
    {
      value
    }
  }

  const TWO_64: int := 0x1_0000_0000_0000_0000
  const TWO_128: int := 0x1_0000_0000_0000_0000_0000_0000_0000_0000
  const TWO_256: int := 0x1_0000_0000_0000_0000_0000_0000_0000_0000_0000_0000_0000_0000_0000_0000_0000_0000

  /** One more than `isize::MAX`, the largest size of a Rust buffer. */
  const MAX_BUFFER: int := 0x8000_0000_0000_0000

  type U64 = x: int | 0 <= x < TWO_64
  type U128 = x: int | 0 <= x < TWO_128
  type U256 = x: int | 0 <= x < TWO_256

  type Byte = x: int | 0 <= x < 256
  type Bytes = seq<Byte>

  /** A byte string that fits a Rust buffer. */
  type Blob = s: Bytes | |s| < MAX_BUFFER witness []

  type B64 = s: Bytes | |s| == 8 witness Zeros(8)
  type Address = s: Bytes | |s| == 20 witness Zeros(20)
  type B256 = s: Bytes | |s| == 32 witness Zeros(32)
  type BlsPublicKey = s: Bytes | |s| == 48 witness Zeros(48)
  type Bloom = s: Bytes | |s| == 256 witness Zeros(256)

  function Zeros(n: nat): (s: Bytes)
    ensures |s| == n
  {
    seq(n, _ => 0)
  }

  /** The hash function tells these two byte strings apart. */
  predicate NoCollision(hash: Bytes -> B256, x: Bytes, y: Bytes) {
    hash(x) == hash(y) ==> x == y
  }

  function Min(a: int, b: int): int {
    if a <= b then a else b
  }

  function Max(a: int, b: int): int {
    if a >= b then a else b
  }
}
