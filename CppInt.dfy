/** C++ integer behaviour that the compositor's arithmetic depends on. */
module CppInt {

  /** An 8-bit channel value (uchar). */
  type Byte = x: int | 0 <= x < 256

  /** A 32-bit signed int, the result type of std::stoi. */
  newtype int32 = x: int | -0x8000_0000 <= x < 0x8000_0000

  /** Number of values of std::size_t (64-bit target). */
  const SIZE_T_RANGE: int := 0x1_0000_0000_0000_0000

  /** C++ `a / b` for a positive divisor: the quotient is truncated toward zero,
      so the remainder takes the sign of the dividend (Dafny's `/` is Euclidean). */
  function TDiv(a: int, b: int): (q: int)
    requires b > 0
    ensures 0 <= a ==> 0 <= a - q * b < b
    ensures a < 0 ==> -b < a - q * b <= 0
  {
    if a >= 0 then a / b else -((-a) / b)
  }

  /** Conversion of an int to std::size_t: wraps modulo 2^64. */
  function ToSizeT(x: int): (r: int)
    ensures 0 <= r < SIZE_T_RANGE
    ensures 0 <= x < SIZE_T_RANGE ==> r == x
    ensures -SIZE_T_RANGE <= x < 0 ==> r == x + SIZE_T_RANGE
  {
    x % SIZE_T_RANGE
  }

  /** Conversion of an int to uchar (as in cv::Vec4b's constructor): wraps modulo 256. */
  function ToByte(x: int): (r: Byte)
    ensures 0 <= x < 256 ==> r == x
  {
    x % 256
  }

  function Min(a: int, b: int): (m: int)
    ensures m <= a && m <= b && (m == a || m == b)
  {
    if a < b then a else b
  }

  function Max(a: int, b: int): (m: int)
    ensures m >= a && m >= b && (m == a || m == b)
  {
    if a < b then b else a
  }
}
