/**
  The avx512f helpers of the AVX-512 backend: loading 16 values, loading two
  8-value halves, and the two tile codecs that produce one register of the
  prepared B matrix.

  The source loads floats (QuantizerGrabHalves first concatenates two
  8-float halves), multiplies them by the quantization multiplier and
  rounds them to int32. Multiplication and rounding act lane by lane, so
  they commute with the loads and the concatenation, and the model takes
  the rounded int32 values as its input: q[p] is the int32 that the float
  at offset p becomes. A window of B is addressed the way the source
  addresses it, by a base offset and a row stride `cols`.
 */
module Avx512f {
  import opened Lanes
  import opened Intrinsics

  /** Element (row, col) of the window that starts at base, with row stride cols. */
  function At(q: seq<int>, base: nat, cols: nat, row: nat, col: nat): int
    requires base + row * cols + col < |q|
  {
    q[base + row * cols + col]
  }

  /** QuantizerGrab: the 16 consecutive values at p, as one register of int32 lanes. */
  function QuantizerGrab(q: seq<int>, p: nat): (r: seq<int>)
    requires p + 16 <= |q|
    ensures |r| == Int32Lanes
    ensures forall i :: 0 <= i < Int32Lanes ==> r[i] == q[p + i]
  {
    q[p .. p + 16]
  }

  /**
    _mm512_castps256_ps512: widens a 256-bit register. The upper half is
    undefined by the manual; any value may stand there, and the model puts
    the parameter `upper` there so that no result can depend on a choice.
   */
  function CastPs256Ps512(x: seq<int>, upper: seq<int>): (r: seq<int>)
    requires |x| == 8 && |upper| == 8
    ensures |r| == 16 && r[..8] == x
  {
    x + upper
  }

  /** VINSERTF32X8 (_mm512_insertf32x8(a, b, imm)): replaces the 256-bit half imm of a by b. */
  function InsertF32x8(a: seq<int>, b: seq<int>, imm: nat): (r: seq<int>)
    requires |a| == 16 && |b| == 8 && imm < 2
    ensures |r| == 16
    ensures imm == 0 ==> r[..8] == b && r[8..] == a[8..]
    ensures imm == 1 ==> r[..8] == a[..8] && r[8..] == b
  {
    if imm == 0 then b + a[8..] else a[..8] + b
  }

  /**
    Concat: the first 256-bit register in lanes 0..7 and the second in
    lanes 8..15, whatever the cast left in the upper half.
   */
  function Concat(first: seq<int>, second: seq<int>, upper: seq<int>): (r: seq<int>)
    requires |first| == 8 && |second| == 8 && |upper| == 8
    ensures |r| == Int32Lanes
    ensures forall i :: 0 <= i < 8 ==> r[i] == first[i]
    ensures forall i :: 8 <= i < 16 ==> r[i] == second[i - 8]
  {
    InsertF32x8(CastPs256Ps512(first, upper), second, 1)
  }

  /**
    QuantizerGrabHalves: 8 values from p0 in lanes 0..7 and 8 values from p1
    in lanes 8..15, in order.
   */
  function QuantizerGrabHalves(q: seq<int>, p0: nat, p1: nat): (r: seq<int>)
    requires p0 + 8 <= |q| && p1 + 8 <= |q|
    ensures |r| == Int32Lanes
    ensures forall i :: 0 <= i < 8 ==> r[i] == q[p0 + i]
    ensures forall i :: 8 <= i < 16 ==> r[i] == q[p1 + i - 8]
  {
    var first := q[p0 .. p0 + 8];
    Concat(first, q[p1 .. p1 + 8], first)
  }

  /* ---------------------------------------------------------------- */
  /* QuantizeTile16                                                    */
  /* ---------------------------------------------------------------- */

  /** The permute immediate 0xd8 selects qwords 0, 2, 1, 3 in each 256-bit half. */
  lemma PermuteImmD8()
    ensures Imm2(0xd8, 0) == 0 && Imm2(0xd8, 1) == 2 && Imm2(0xd8, 2) == 1 && Imm2(0xd8, 3) == 3
  {
  }

  /**
    The lane arithmetic of the 16-bit codec on two grabbed registers: after
    the pack and the 0xd8 qword permute, the 32 words are lanes 0..7 of g0,
    lanes 0..7 of g1, lanes 8..15 of g0 and lanes 8..15 of g1, in that
    order, each saturated to int16.
   */
  lemma PackAndPermute16(g0: seq<int>, g1: seq<int>, r: seq<int>)
    requires |g0| == Int32Lanes && |g1| == Int32Lanes
    requires r == PermutexEpi64(PacksEpi32(g0, g1), 0xd8)
    ensures forall i :: 0 <= i < 8 ==> r[i] == Sat16(g0[i])
    ensures forall i :: 8 <= i < 16 ==> r[i] == Sat16(g1[i - 8])
    ensures forall i :: 16 <= i < 24 ==> r[i] == Sat16(g0[i - 8])
    ensures forall i :: 24 <= i < 32 ==> r[i] == Sat16(g1[i - 16])
  {
    PermuteImmD8();
  }

  /**
    QuantizeTile16::ForReshape: the 32 int16 lanes are columns 0..7 of rows
    0, 8, 16 and 24 of the window, in that order, each saturated to int16
    as the 16-bit Quantize saturates.
   */
  function ForReshape16(q: seq<int>, base: nat, cols: nat): (r: seq<int>)
    requires base + 24 * cols + 8 <= |q|
    ensures IsVec16(r)
    ensures forall i :: 0 <= i < 8 ==> r[i] == Sat16(At(q, base, cols, 0, i))
    ensures forall i :: 8 <= i < 16 ==> r[i] == Sat16(At(q, base, cols, 8, i - 8))
    ensures forall i :: 16 <= i < 24 ==> r[i] == Sat16(At(q, base, cols, 16, i - 16))
    ensures forall i :: 24 <= i < 32 ==> r[i] == Sat16(At(q, base, cols, 24, i - 24))
  {
    var g0 := QuantizerGrabHalves(q, base, base + 16 * cols);
    var g1 := QuantizerGrabHalves(q, base + 8 * cols, base + 24 * cols);
    var packed := PacksEpi32(g0, g1);
    var r := PermutexEpi64(packed, 0xd8);
    PackAndPermute16(g0, g1, r);
    WindowRows16(q, base, cols, g0, g1, r);
    r
  }

  /** Reads the block order of PackAndPermute16 as rows of the window. */
  lemma WindowRows16(q: seq<int>, base: nat, cols: nat, g0: seq<int>, g1: seq<int>, r: seq<int>)
    requires base + 24 * cols + 8 <= |q| && |g0| == Int32Lanes && |g1| == Int32Lanes && |r| == Int16Lanes
    requires forall i :: 0 <= i < 8 ==> g0[i] == q[base + i]
    requires forall i :: 8 <= i < 16 ==> g0[i] == q[base + 16 * cols + i - 8]
    requires forall i :: 0 <= i < 8 ==> g1[i] == q[base + 8 * cols + i]
    requires forall i :: 8 <= i < 16 ==> g1[i] == q[base + 24 * cols + i - 8]
    requires forall i :: 0 <= i < 8 ==> r[i] == Sat16(g0[i])
    requires forall i :: 8 <= i < 16 ==> r[i] == Sat16(g1[i - 8])
    requires forall i :: 16 <= i < 24 ==> r[i] == Sat16(g0[i - 8])
    requires forall i :: 24 <= i < 32 ==> r[i] == Sat16(g1[i - 16])
    ensures forall i :: 0 <= i < 8 ==> r[i] == Sat16(At(q, base, cols, 0, i))
    ensures forall i :: 8 <= i < 16 ==> r[i] == Sat16(At(q, base, cols, 8, i - 8))
    ensures forall i :: 16 <= i < 24 ==> r[i] == Sat16(At(q, base, cols, 16, i - 16))
    ensures forall i :: 24 <= i < 32 ==> r[i] == Sat16(At(q, base, cols, 24, i - 24))
  {
  }

  /* ---------------------------------------------------------------- */
  /* QuantizeTile8                                                     */
  /* ---------------------------------------------------------------- */

  /** shuffle_param: _mm512_set_epi32(15, 11, 7, 3, 14, 10, 6, 2, 13, 9, 5, 1, 12, 8, 4, 0). */
  const ShuffleParam: seq<int> := SetEpi32([15, 11, 7, 3, 14, 10, 6, 2, 13, 9, 5, 1, 12, 8, 4, 0])

  /** Read from dword 0 up, shuffle_param is 0, 4, 8, 12, 1, 5, 9, 13, ... */
  lemma ShuffleParamValues()
    ensures ShuffleParam == [0, 4, 8, 12, 1, 5, 9, 13, 2, 6, 10, 14, 3, 7, 11, 15]
  {
  }

  /**
    shuffle_param transposes a 4 x 4 grid of dwords: destination dword d
    takes source dword 4 * (d % 4) + d / 4. It is therefore a permutation
    of 0..15, and its own inverse.
   */
  lemma ShuffleParamTransposes()
    ensures |ShuffleParam| == Int32Lanes
    ensures forall d :: 0 <= d < Int32Lanes ==> ShuffleParam[d] == 4 * (d % 4) + d / 4
    ensures forall d :: 0 <= d < Int32Lanes ==> 0 <= ShuffleParam[d] < Int32Lanes
    ensures forall d :: 0 <= d < Int32Lanes ==> ShuffleParam[ShuffleParam[d]] == d
    ensures forall d, e :: 0 <= d < e < Int32Lanes ==> ShuffleParam[d] != ShuffleParam[e]
  {
    forall d | 0 <= d < Int32Lanes
      ensures ShuffleParam[d] == 4 * (d % 4) + d / 4
      ensures 0 <= ShuffleParam[d] < Int32Lanes && ShuffleParam[ShuffleParam[d]] == d
    {
      ShuffleParamAt(d);
    }
  }

  /** One dword of shuffle_param, and where it sends it back. */
  lemma ShuffleParamAt(d: nat)
    requires d < Int32Lanes
    ensures ShuffleParam[d] == 4 * (d % 4) + d / 4
    ensures 0 <= ShuffleParam[d] < Int32Lanes && ShuffleParam[ShuffleParam[d]] == d
  {
    ShuffleParamValues();
    if d < 8 {
      if d < 4 {
        assert d == 0 || d == 1 || d == 2 || d == 3;
      } else {
        assert d == 4 || d == 5 || d == 6 || d == 7;
      }
    } else {
      if d < 12 {
        assert d == 8 || d == 9 || d == 10 || d == 11;
      } else {
        assert d == 12 || d == 13 || d == 14 || d == 15;
      }
    }
  }

  /** Entry 4x + s of shuffle_param is 4s + x. */
  lemma ShuffleParamGrid(x: nat, s: nat)
    requires x < 4 && s < 4
    ensures ShuffleParam[4 * x + s] == 4 * s + x
  {
    ShuffleParamAt(4 * x + s);
  }

  /** The 8-bit quantizer applied to every lane of v. */
  function Quantized8(v: seq<int>): (r: seq<int>)
    ensures |r| == |v|
    ensures forall i :: 0 <= i < |v| ==> r[i] == QuantizedInt8(v[i])
  {
    seq(|v|, i requires 0 <= i < |v| => QuantizedInt8(v[i]))
  }

  /**
    After the dword transpose, byte j of destination dword 4x + s is byte j
    of source dword 4s + x.
   */
  lemma TransposedByte(m: seq<int>, r: seq<int>, x: nat, s: nat, j: nat)
    requires |m| == Int8Lanes && r == PermutexvarEpi32(ShuffleParam, m)
    requires x < 4 && s < 4 && j < 4
    ensures r[16 * x + 4 * s + j] == m[16 * s + 4 * x + j]
  {
    ShuffleParamGrid(x, s);
    assert DwordOf(16 * x + 4 * s + j) == 4 * x + s;
  }

  /**
    After the two packs and the -127 floor, byte j of dword 4l + k (in
    128-bit block l) comes from lane 4l + j of the k-th grabbed register,
    quantized as the 8-bit Quantize does.
   */
  lemma PackedByte(g0: seq<int>, g1: seq<int>, g2: seq<int>, g3: seq<int>, m: seq<int>, l: nat, k: nat, j: nat)
    requires |g0| == Int32Lanes && |g1| == Int32Lanes && |g2| == Int32Lanes && |g3| == Int32Lanes
    requires m == MaxLanes(PacksEpi16(PacksEpi32(g0, g1), PacksEpi32(g2, g3)), Set1(Int8Lanes, -127))
    requires l < 4 && k < 4 && j < 4
    ensures m[16 * l + 4 * k + j] == QuantizedInt8([g0, g1, g2, g3][k][4 * l + j])
  {
    TwoStepNarrowing([g0, g1, g2, g3][k][4 * l + j]);
  }

  /** One byte of the 8-bit codec: byte 16x + 4s + j is lane 4s + j of grab x, quantized. */
  lemma ShuffledByte8(g0: seq<int>, g1: seq<int>, g2: seq<int>, g3: seq<int>, r: seq<int>, x: nat, s: nat, j: nat)
    requires |g0| == Int32Lanes && |g1| == Int32Lanes && |g2| == Int32Lanes && |g3| == Int32Lanes
    requires r == PermutexvarEpi32(ShuffleParam,
                    MaxLanes(PacksEpi16(PacksEpi32(g0, g1), PacksEpi32(g2, g3)), Set1(Int8Lanes, -127)))
    requires x < 4 && s < 4 && j < 4
    ensures r[16 * x + 4 * s + j] == QuantizedInt8([g0, g1, g2, g3][x][4 * s + j])
  {
    var m := MaxLanes(PacksEpi16(PacksEpi32(g0, g1), PacksEpi32(g2, g3)), Set1(Int8Lanes, -127));
    TransposedByte(m, r, x, s, j);
    PackedByte(g0, g1, g2, g3, m, s, x, j);
  }

  /**
    The lane arithmetic of the 8-bit codec on four grabbed registers: the
    dword transpose undoes the interleaving of the two packs, so the 64
    bytes are the lanes of g0, g1, g2 and g3 in order, each quantized as
    the 8-bit Quantize does.
   */
  lemma PackAndShuffle8(g0: seq<int>, g1: seq<int>, g2: seq<int>, g3: seq<int>, r: seq<int>)
    requires |g0| == Int32Lanes && |g1| == Int32Lanes && |g2| == Int32Lanes && |g3| == Int32Lanes
    requires r == PermutexvarEpi32(ShuffleParam,
                    MaxLanes(PacksEpi16(PacksEpi32(g0, g1), PacksEpi32(g2, g3)), Set1(Int8Lanes, -127)))
    ensures r == Quantized8(g0 + g1 + g2 + g3)
  {
    forall i | 0 <= i < Int8Lanes ensures r[i] == Quantized8(g0 + g1 + g2 + g3)[i] {
      ShuffledLane8(g0, g1, g2, g3, r, i);
    }
  }

  /** PackAndShuffle8 for byte i. */
  lemma ShuffledLane8(g0: seq<int>, g1: seq<int>, g2: seq<int>, g3: seq<int>, r: seq<int>, i: nat)
    requires |g0| == Int32Lanes && |g1| == Int32Lanes && |g2| == Int32Lanes && |g3| == Int32Lanes
    requires r == PermutexvarEpi32(ShuffleParam,
                    MaxLanes(PacksEpi16(PacksEpi32(g0, g1), PacksEpi32(g2, g3)), Set1(Int8Lanes, -127)))
    requires i < Int8Lanes
    ensures r[i] == Quantized8(g0 + g1 + g2 + g3)[i]
  {
    var x, s, j := i / 16, i % 16 / 4, i % 4;
    assert i == 16 * x + 4 * s + j;
    GrabLane(g0, g1, g2, g3, x, 4 * s + j);
    ShuffledByte8(g0, g1, g2, g3, r, x, s, j);
  }

  /** Lane 16x + t of the four grabs one after the other is lane t of grab x. */
  lemma GrabLane(g0: seq<int>, g1: seq<int>, g2: seq<int>, g3: seq<int>, x: nat, t: nat)
    requires |g0| == Int32Lanes && |g1| == Int32Lanes && |g2| == Int32Lanes && |g3| == Int32Lanes
    requires x < 4 && t < 16
    ensures (g0 + g1 + g2 + g3)[16 * x + t] == [g0, g1, g2, g3][x][t]
  {
  }

  /** Columns 0..7 of row `row` of the window. */
  function WindowRow(q: seq<int>, base: nat, cols: nat, row: nat): (r: seq<int>)
    requires base + row * cols + 8 <= |q|
    ensures |r| == 8
    ensures forall c :: 0 <= c < 8 ==> r[c] == At(q, base, cols, row, c)
  {
    q[base + row * cols .. base + row * cols + 8]
  }

  /**
    The rows one 8-bit tile register takes, grabbed in pairs: columns 0..7
    of rows 0 and 2, 16 and 18, 32 and 34, 48 and 50.
   */
  function TileRows8(q: seq<int>, base: nat, cols: nat): (r: seq<int>)
    requires base + 50 * cols + 8 <= |q|
    ensures |r| == Int8Lanes
  {
    (WindowRow(q, base, cols, 0) + WindowRow(q, base, cols, 2))
    + (WindowRow(q, base, cols, 16) + WindowRow(q, base, cols, 18))
    + (WindowRow(q, base, cols, 32) + WindowRow(q, base, cols, 34))
    + (WindowRow(q, base, cols, 48) + WindowRow(q, base, cols, 50))
  }

  /**
    The register QuantizeTile8::ForReshape is meant to produce, lane by
    lane: columns 0..7 of rows 0, 2, 16, 18, 32, 34, 48 and 50 of the
    window, in that order, each quantized as the 8-bit Quantize does, so
    that no byte is -128.
   */
  function Reshaped8(q: seq<int>, base: nat, cols: nat): (r: seq<int>)
    requires base + 50 * cols + 8 <= |q|
    ensures IsVec8(r)
    ensures forall i :: 0 <= i < Int8Lanes ==> -127 <= r[i] <= 127
    ensures forall i :: 0 <= i < 8 ==> r[i] == QuantizedInt8(At(q, base, cols, 0, i))
    ensures forall i :: 8 <= i < 16 ==> r[i] == QuantizedInt8(At(q, base, cols, 2, i - 8))
    ensures forall i :: 16 <= i < 24 ==> r[i] == QuantizedInt8(At(q, base, cols, 16, i - 16))
    ensures forall i :: 24 <= i < 32 ==> r[i] == QuantizedInt8(At(q, base, cols, 18, i - 24))
    ensures forall i :: 32 <= i < 40 ==> r[i] == QuantizedInt8(At(q, base, cols, 32, i - 32))
    ensures forall i :: 40 <= i < 48 ==> r[i] == QuantizedInt8(At(q, base, cols, 34, i - 40))
    ensures forall i :: 48 <= i < 56 ==> r[i] == QuantizedInt8(At(q, base, cols, 48, i - 48))
    ensures forall i :: 56 <= i < 64 ==> r[i] == QuantizedInt8(At(q, base, cols, 50, i - 56))
  {
    Quantized8(TileRows8(q, base, cols))
  }

  /** QuantizerGrabHalves is the two 8-value runs at p0 and p1, one after the other. */
  lemma GrabHalvesRuns(q: seq<int>, p0: nat, p1: nat)
    requires p0 + 8 <= |q| && p1 + 8 <= |q|
    ensures QuantizerGrabHalves(q, p0, p1) == q[p0 .. p0 + 8] + q[p1 .. p1 + 8]
  {
  }

  /**
    QuantizeTile8::ForReshape: the four grabs, the two packs, the -127 floor
    and the dword transpose produce exactly Reshaped8.
   */
  function ForReshape8(q: seq<int>, base: nat, cols: nat): (r: seq<int>)
    requires base + 50 * cols + 8 <= |q|
    ensures r == Reshaped8(q, base, cols)
  {
    var neg127 := Set1(Int8Lanes, -127);
    var g0 := QuantizerGrabHalves(q, base, base + 2 * cols);
    var g1 := QuantizerGrabHalves(q, base + 16 * cols, base + 18 * cols);
    var g2 := QuantizerGrabHalves(q, base + 32 * cols, base + 34 * cols);
    var g3 := QuantizerGrabHalves(q, base + 48 * cols, base + 50 * cols);
    var packed0 := PacksEpi32(g0, g1);
    var packed1 := PacksEpi32(g2, g3);
    var packed := PacksEpi16(packed0, packed1);
    var banned := MaxLanes(packed, neg127);  // -128 is banned
    var r := PermutexvarEpi32(ShuffleParam, banned);
    PackAndShuffle8(g0, g1, g2, g3, r);
    GrabbedRows8(q, base, cols);
    r
  }

  /** The four grabs of ForReshape8, one after the other, are TileRows8. */
  lemma GrabbedRows8(q: seq<int>, base: nat, cols: nat)
    requires base + 50 * cols + 8 <= |q|
    ensures QuantizerGrabHalves(q, base, base + 2 * cols) + QuantizerGrabHalves(q, base + 16 * cols, base + 18 * cols)
            + QuantizerGrabHalves(q, base + 32 * cols, base + 34 * cols) + QuantizerGrabHalves(q, base + 48 * cols, base + 50 * cols)
            == TileRows8(q, base, cols)
  {
    GrabHalvesRuns(q, base, base + 2 * cols);
    GrabHalvesRuns(q, base + 16 * cols, base + 18 * cols);
    GrabHalvesRuns(q, base + 32 * cols, base + 34 * cols);
    GrabHalvesRuns(q, base + 48 * cols, base + 50 * cols);
  }
}
