/** Machine integers as bounded naturals, and optional values. */
module Base {
  /** Integers are unbounded here, so the widths of the original are stated as bounds. */
  const U32_LIMIT: nat := 0x1_0000_0000
  const U64_LIMIT: nat := 0x1_0000_0000_0000_0000
  const U64_MAX: nat := U64_LIMIT - 1
  const U32_MAX: nat := U32_LIMIT - 1

  /** Microseconds in a second. */
  const MICROS: nat := 1_000_000

  /** The version every snapshot section starts with. */
  const SECTION_VERSION: nat := 1

  type byte = b: int | 0 <= b < 256
  type u32 = n: int | 0 <= n < U32_LIMIT
  type u64 = n: int | 0 <= n < U64_LIMIT

  datatype Option<+T> = None | Some(value: T) {
    predicate IsFailure() { None? }
    function PropagateFailure<U>(): Option<U> requires None? { None }
    function Extract(): T requires Some? { value }
  }

  function Bit(b: bool): nat { if b then 1 else 0 }
}
