/** The rotation and the five bitwise selection functions of RIPEMD-160, as the hash
    module writes them.  The visualizer's `f`..`j` and the display component's `F`..`J`
    are the same bitwise expressions (with or without a trailing `>>> 0`, which does not
    change the 32 bits), so all three are modelled by the functions here. */
module Selection {
  import opened Bits

  /** `rotateLeft(value, r)`: the rotation amount is `r & 31`, the mask `2^32 - 1` keeps
      all 32 bits, and for a zero amount `value >>> 32` shifts by 0. */
  function RotateLeft(value: Word, r: Word): Word
  {
    RotateBy(value, r & 31)
  }

  /** The expression of `rotateLeft` once the amount has been reduced to `rotation`. */
  function RotateBy(value: Word, rotation: Word): Word
  {
    (Shl(value, rotation) & 0xFFFF_FFFF) | Ushr(value, 32 - rotation)
  }

  /** For a non-zero amount k = r mod 32, `rotateLeft` is the 32-bit rotation
      (value << k) | (value >> (32 - k)): the k high bits wrap round to the bottom. */
  lemma RotateLeftIsRotation(value: Word, r: Word)
    requires r & 31 != 0
    ensures RotateLeft(value, r) == (value << (r & 31)) | (value >> (32 - (r & 31)))
  {
  }

  /** An amount that is a multiple of 32 returns the value's bits unchanged. */
  lemma RotateLeftByZero(value: Word, r: Word)
    requires r & 31 == 0
    ensures RotateLeft(value, r) == value
  {
  }

  /** Only the amount mod 32 matters. */
  lemma RotateLeftModulo(value: Word, r: Word)
    ensures RotateLeft(value, r) == RotateLeft(value, r & 31)
  {
    assert (r & 31) & 31 == r & 31;
  }

  function F(x: Word, y: Word, z: Word): Word {
    x ^ y ^ z
  }

  function G(x: Word, y: Word, z: Word): Word {
    (x & y) | (!x & z)
  }

  function H(x: Word, y: Word, z: Word): Word {
    (x | !y) ^ z
  }

  function I(x: Word, y: Word, z: Word): Word {
    (x & z) | (y & !z)
  }

  function J(x: Word, y: Word, z: Word): Word {
    x ^ (y | !z)
  }

  /** I is G with its arguments rotated, and J is H with its arguments rotated. */
  lemma RotatedArguments(x: Word, y: Word, z: Word)
    ensures I(x, y, z) == G(z, x, y)
    ensures J(x, y, z) == H(y, z, x)
  {
  }
}
