/**
  AVX512_16bit: quantizing A to int16 and the constants of the 16-bit
  backend.

  Input values are the int32 values the floats become after the
  multiplication by quant_mult and the rounding conversion; input[i] is the
  value for the i-th float. The output buffer is an array the methods
  write in place.
 */
module Avx512Int16 {
  import opened Lanes
  import opened Intrinsics
  import opened Avx512f
  import opened Backend

  /** kBTileRow: B is prepared in tiles of 32 rows ... */
  const BTileRow: nat := 32
  /** ... by kBTileCol = 8 columns. */
  const BTileCol: nat := 8
  /** kName */
  const Name: string := "16-bit AVX512"
  /** kUses */
  const Uses: CPUType := AVX512BW

  /**
    The descriptor of the 16-bit backend. A tile of B holds exactly eight
    registers of int16.
   */
  function Describe(): (d: Descriptor)
    ensures d.integerBits == 16 && d.uses == AVX512BW
    ensures d.bTileRow == 32 && d.bTileCol == 8 && d.name == "16-bit AVX512"
    ensures d.bTileRow * d.bTileCol * d.integerBits == 8 * RegisterBits
  {
    Descriptor(16, BTileRow, BTileCol, Name, Uses)
  }

  /**
    AVX512_16bit::Quantize: every 16 values are grabbed into one register
    and stored through the masked saturating store with all sixteen mask
    bits set. The loop steps by 16 until it reaches size exactly, so size
    must be a multiple of 16. Output i is input i saturated to int16; -32768
    is not banned. Elements at and past size are not touched.
   */
  method Quantize(input: seq<int>, output: array<int>, size: nat)
    requires size % 16 == 0
    requires size <= |input| && size <= output.Length
    modifies output
    ensures forall i :: 0 <= i < size ==> output[i] == Sat16(input[i])
    ensures forall i :: size <= i < output.Length ==> output[i] == old(output[i])
  {
    FullMaskSelectsAll();
    var p := 0;
    while p != size
      invariant 0 <= p <= size && p % 16 == 0
      invariant forall i :: 0 <= i < p ==> output[i] == Sat16(input[i])
      invariant forall i :: p <= i < output.Length ==> output[i] == old(output[i])
      decreases size - p
    {
      MaskCvtsepi32StoreuEpi16(output, p, 0xffff, QuantizerGrab(input, p));
      p := p + 16;
    }
  }

  /**
    AVX512_16bit::PrepareA: A is prepared by quantizing its rows * cols
    values in place order, so element (r, c) of the output is element
    (r, c) of the input saturated to int16.
   */
  method PrepareA(input: seq<int>, output: array<int>, rows: nat, cols: nat)
    requires rows * cols % 16 == 0
    requires rows * cols <= |input| && rows * cols <= output.Length
    modifies output
    ensures forall i :: 0 <= i < rows * cols ==> output[i] == Sat16(input[i])
    ensures forall i :: rows * cols <= i < output.Length ==> output[i] == old(output[i])
  {
    Quantize(input, output, rows * cols);
  }
}
