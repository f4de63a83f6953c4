/**
  Integer lanes of a 512-bit AVX-512 register.

  A register is modelled as a sequence of signed lanes: 64 lanes of int8,
  32 of int16 or 16 of int32, depending on how the instruction reads it.
  All integers are unbounded; every narrowing the hardware performs is
  written out here as a saturation (Sat8, Sat16) or a wrap-around (Wrap8).
 */
module Lanes {

  const Int8Lanes: nat := 64
  const Int16Lanes: nat := 32
  const Int32Lanes: nat := 16

  predicate IsInt8(x: int) { -128 <= x <= 127 }
  predicate IsInt16(x: int) { -32768 <= x <= 32767 }
  predicate IsInt32(x: int) { -0x8000_0000 <= x <= 0x7fff_ffff }

  /** A register read as 64 signed bytes. */
  predicate IsVec8(v: seq<int>) {
    |v| == Int8Lanes && forall i :: 0 <= i < |v| ==> IsInt8(v[i])
  }

  /** A register read as 32 signed 16-bit words. */
  predicate IsVec16(v: seq<int>) {
    |v| == Int16Lanes && forall i :: 0 <= i < |v| ==> IsInt16(v[i])
  }

  /** A register read as 16 signed 32-bit double words. */
  predicate IsVec32(v: seq<int>) {
    |v| == Int32Lanes && forall i :: 0 <= i < |v| ==> IsInt32(v[i])
  }

  function Max(x: int, y: int): int { if x < y then y else x }

  function Abs(x: int): int { if x < 0 then -x else x }

  /** Signed saturation to int8 (SaturateSignedWordToSignedByte and friends). */
  function Sat8(x: int): (r: int)
    ensures IsInt8(r)
    ensures IsInt8(x) ==> r == x
    ensures x < -128 ==> r == -128
    ensures x > 127 ==> r == 127
  {
    if x < -128 then -128 else if x > 127 then 127 else x
  }

  /** Signed saturation to int16 (SaturateSignedDwordToSignedWord, SaturateToSignedWord). */
  function Sat16(x: int): (r: int)
    ensures IsInt16(r)
    ensures IsInt16(x) ==> r == x
    ensures x < -32768 ==> r == -32768
    ensures x > 32767 ==> r == 32767
  {
    if x < -32768 then -32768 else if x > 32767 then 32767 else x
  }

  /**
    Two's-complement wrap-around to a signed byte: the result is the one
    value in [-128, 127] that differs from x by a multiple of 256. The
    byte instructions modelled here wrap a difference or an absolute value
    of bytes, so x never leaves [-384, 383].
   */
  function Wrap8(x: int): (r: int)
    requires -384 <= x <= 383
    ensures IsInt8(r)
    ensures r == x || r == x - 256 || r == x + 256
    ensures IsInt8(x) ==> r == x
  {
    if x < -128 then x + 256 else if x > 127 then x - 256 else x
  }

  /** The eight bits of a signed byte read as an unsigned byte. */
  function Unsigned8(x: int): (r: int)
    requires IsInt8(x)
    ensures 0 <= r < 256
    ensures r == x || r == x + 256
    ensures 0 <= x ==> r == x
  {
    if x < 0 then x + 256 else x
  }

  /**
    The value the 8-bit quantizer keeps for an int32 input: clamped to the
    symmetric range [-127, 127], so that -128 never appears.
   */
  function QuantizedInt8(x: int): (r: int)
    ensures -127 <= r <= 127
    ensures -127 <= x <= 127 ==> r == x
    ensures x < -127 ==> r == -127
    ensures x > 127 ==> r == 127
  {
    Sat8(Max(x, -127))
  }

  /**
    Narrowing an int32 in two saturating steps (to int16, then to int8) and
    raising the result to -127 gives the same byte as raising first and
    saturating once.
   */
  lemma TwoStepNarrowing(x: int)
    ensures Max(Sat8(Sat16(x)), -127) == QuantizedInt8(x)
    ensures Sat8(Sat16(x)) == Sat8(x)
  {
  }

  /** Both quantizers are monotone: they never swap the order of two inputs. */
  lemma QuantizersMonotone(x: int, y: int)
    requires x <= y
    ensures Sat16(x) <= Sat16(y)
    ensures QuantizedInt8(x) <= QuantizedInt8(y)
  {
  }
}
