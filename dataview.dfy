/** Option, as used for the source's `null` results. */
module Wrappers {
  datatype Option<+T> = None | Some(value: T)
}

/**
 * Big-endian reads over the bytes of one media fragment, as a JavaScript
 * `DataView` performs them. A read that runs past either end of the buffer
 * throws a `RangeError` in the source; here it is the `RangeError` value.
 */
module DataView {

  /** One byte of the fragment buffer, as returned by `getUint8`. */
  type byte = b: int | 0 <= b < 0x100

  /** The value of a read, or the `RangeError` it throws. */
  datatype Result<+T> = Ok(value: T) | RangeError

  /** `getUint8(pos)` */
  function U8(raw: seq<byte>, pos: int): Result<byte>
  {
    if 0 <= pos < |raw| then Ok(raw[pos]) else RangeError
  }

  /** `getUint16(pos)`, big-endian. */
  function U16(raw: seq<byte>, pos: int): Result<nat>
  {
    if 0 <= pos && pos + 2 <= |raw| then Ok((raw[pos] as int) * 0x100 + raw[pos + 1] as int) else RangeError
  }

  /** `getUint32(pos)`, big-endian. */
  function U32(raw: seq<byte>, pos: int): Result<nat>
  {
    if 0 <= pos && pos + 4 <= |raw|
    then Ok((((raw[pos] as int) * 0x100 + raw[pos + 1] as int) * 0x100 + raw[pos + 2] as int) * 0x100 + raw[pos + 3] as int)
    else RangeError
  }

  /** `prefix` followed by the list `r` carries, unless `r` failed. */
  function Prepend<T>(prefix: seq<T>, r: Result<seq<T>>): Result<seq<T>>
  {
    match r
    case Ok(rest) => Ok(prefix + rest)
    case RangeError => RangeError
  }

  lemma PrependNothing<T>(r: Result<seq<T>>)
    ensures Prepend([], r) == r
  {
    if r.Ok? {
      assert [] + r.value == r.value;
    }
  }

  lemma PrependTwice<T>(a: seq<T>, b: seq<T>, r: Result<seq<T>>)
    ensures Prepend(a, Prepend(b, r)) == Prepend(a + b, r)
  {
    if r.Ok? {
      assert a + (b + r.value) == (a + b) + r.value;
    }
  }
}
