/**
  Lane semantics of the AVX-512 instructions the backend uses, after the
  operation descriptions in the Intel 64 and IA-32 Architectures Software
  Developer's Manual, Volume 2.

  Each body gives, lane by lane, the value the manual's pseudo-code assigns to
  that lane; the ensures clauses state the lane count and the range the
  result lanes lie in.
 */
module Intrinsics {
  import opened Lanes

  /* ---------------------------------------------------------------- */
  /* Constant registers                                                */
  /* ---------------------------------------------------------------- */

  /** _mm512_set1_epi8 / _epi16 / _epi32: broadcast one value to n lanes. */
  function Set1(n: nat, x: int): (r: seq<int>)
    ensures |r| == n
    ensures forall i :: 0 <= i < n ==> r[i] == x
  {
    seq(n, _ => x)
  }

  /** _mm512_set_epi32(e15, ..., e0): the arguments are listed from the top lane down. */
  function SetEpi32(args: seq<int>): (r: seq<int>)
    requires |args| == Int32Lanes
    ensures |r| == Int32Lanes
    ensures forall i :: 0 <= i < Int32Lanes ==> r[i] == args[Int32Lanes - 1 - i]
    ensures r[0] == args[15] && r[15] == args[0]
  {
    seq(Int32Lanes, i requires 0 <= i < Int32Lanes => args[Int32Lanes - 1 - i])
  }

  /* ---------------------------------------------------------------- */
  /* Pack with signed saturation                                       */
  /* ---------------------------------------------------------------- */

  /*
    The manual lists the lanes of the packs and permutes one by one; the
    source-lane functions below do the same, one branch per group of lanes,
    so that a lane's source is a plain offset of the lane index.
   */

  /**
    VPACKSSDW (_mm512_packs_epi32): in every 128-bit block l, int16 lanes
    8l..8l+3 are dwords 4l..4l+3 of a and lanes 8l+4..8l+7 are dwords
    4l..4l+3 of b, each saturated to int16.
   */
  function PacksEpi32(a: seq<int>, b: seq<int>): (r: seq<int>)
    requires |a| == Int32Lanes && |b| == Int32Lanes
    ensures IsVec16(r)
  {
    seq(Int16Lanes, i requires 0 <= i < Int16Lanes => Sat16(PackDwordSource(a, b, i)))
  }

  /** The dword VPACKSSDW narrows into int16 lane i. */
  function PackDwordSource(a: seq<int>, b: seq<int>, i: nat): int
    requires |a| == Int32Lanes && |b| == Int32Lanes && i < Int16Lanes
  {
    if i < 4 then a[i] else if i < 8 then b[i - 4]
    else if i < 12 then a[i - 4] else if i < 16 then b[i - 8]
    else if i < 20 then a[i - 8] else if i < 24 then b[i - 12]
    else if i < 28 then a[i - 12] else b[i - 16]
  }

  /**
    VPACKSSWB (_mm512_packs_epi16): in every 128-bit block l, bytes
    16l..16l+7 are words 8l..8l+7 of a and bytes 16l+8..16l+15 are words
    8l..8l+7 of b, each saturated to int8.
   */
  function PacksEpi16(a: seq<int>, b: seq<int>): (r: seq<int>)
    requires |a| == Int16Lanes && |b| == Int16Lanes
    ensures IsVec8(r)
  {
    seq(Int8Lanes, i requires 0 <= i < Int8Lanes => Sat8(PackWordSource(a, b, i)))
  }

  /** The word VPACKSSWB narrows into byte i. */
  function PackWordSource(a: seq<int>, b: seq<int>, i: nat): int
    requires |a| == Int16Lanes && |b| == Int16Lanes && i < Int8Lanes
  {
    if i < 8 then a[i] else if i < 16 then b[i - 8]
    else if i < 24 then a[i - 8] else if i < 32 then b[i - 16]
    else if i < 40 then a[i - 16] else if i < 48 then b[i - 24]
    else if i < 56 then a[i - 24] else b[i - 32]
  }

  /* ---------------------------------------------------------------- */
  /* Permutes                                                          */
  /* ---------------------------------------------------------------- */

  /** The 2-bit field j of an 8-bit immediate: the source qword for destination qword j. */
  function Imm2(imm: nat, j: nat): (r: nat)
    requires imm < 256 && j < 4
    ensures r < 4
  {
    if j == 0 then imm % 4
    else if j == 1 then imm / 4 % 4
    else if j == 2 then imm / 16 % 4
    else imm / 64
  }

  /**
    VPERMQ with an immediate (_mm512_permutex_epi64), read on 32 int16
    lanes: inside each 256-bit half, destination qword j is source qword
    imm[2j+1:2j] of the same half, so words never leave their half.
   */
  function PermutexEpi64(v: seq<int>, imm: nat): (r: seq<int>)
    requires |v| == Int16Lanes && imm < 256
    ensures |r| == Int16Lanes
    ensures IsVec16(v) ==> IsVec16(r)
  {
    seq(Int16Lanes, i requires 0 <= i < Int16Lanes => v[QwordSource(imm, i)])
  }

  /** The source word of int16 lane i under VPERMQ with immediate imm. */
  function QwordSource(imm: nat, i: nat): (s: nat)
    requires imm < 256 && i < Int16Lanes
    ensures s < Int16Lanes
    ensures (s < 16) == (i < 16)
  {
    if i < 4 then 4 * Imm2(imm, 0) + i else if i < 8 then 4 * Imm2(imm, 1) + i - 4
    else if i < 12 then 4 * Imm2(imm, 2) + i - 8 else if i < 16 then 4 * Imm2(imm, 3) + i - 12
    else if i < 20 then 16 + 4 * Imm2(imm, 0) + i - 16 else if i < 24 then 16 + 4 * Imm2(imm, 1) + i - 20
    else if i < 28 then 16 + 4 * Imm2(imm, 2) + i - 24 else 16 + 4 * Imm2(imm, 3) + i - 28
  }

  /**
    VPERMD (_mm512_permutexvar_epi32(idx, v)), read on 64 bytes: destination
    dword d is the source dword selected by the low four bits of idx[d].
   */
  function PermutexvarEpi32(idx: seq<int>, v: seq<int>): (r: seq<int>)
    requires |idx| == Int32Lanes && |v| == Int8Lanes
    ensures |r| == Int8Lanes
    ensures IsVec8(v) ==> IsVec8(r)
  {
    seq(Int8Lanes, i requires 0 <= i < Int8Lanes => v[4 * (idx[DwordOf(i)] % 16) + i - 4 * DwordOf(i)])
  }

  /** The dword that byte i belongs to. */
  function DwordOf(i: nat): (d: nat)
    requires i < Int8Lanes
    ensures d < Int32Lanes && 4 * d <= i < 4 * d + 4
  {
    if i < 4 then 0 else if i < 8 then 1 else if i < 12 then 2 else if i < 16 then 3
    else if i < 20 then 4 else if i < 24 then 5 else if i < 28 then 6 else if i < 32 then 7
    else if i < 36 then 8 else if i < 40 then 9 else if i < 44 then 10 else if i < 48 then 11
    else if i < 52 then 12 else if i < 56 then 13 else if i < 60 then 14 else 15
  }

  /* ---------------------------------------------------------------- */
  /* Lane-wise arithmetic                                              */
  /* ---------------------------------------------------------------- */

  /** VPMAXSB / VPMAXSD (_mm512_max_epi8, _mm512_max_epi32): lane-wise signed maximum. */
  function MaxLanes(a: seq<int>, b: seq<int>): (r: seq<int>)
    requires |a| == |b|
    ensures |r| == |a|
    ensures forall i :: 0 <= i < |a| ==> r[i] >= a[i] && r[i] >= b[i] && (r[i] == a[i] || r[i] == b[i])
  {
    seq(|a|, i requires 0 <= i < |a| => Max(a[i], b[i]))
  }

  /** VPABSB (_mm512_abs_epi8): |a| in every byte; |-128| = 0x80, which is -128 read as signed. */
  function AbsEpi8(a: seq<int>): (r: seq<int>)
    requires IsVec8(a)
    ensures IsVec8(r)
    ensures forall i :: 0 <= i < Int8Lanes ==> Unsigned8(r[i]) == Abs(a[i])
  {
    seq(Int8Lanes, i requires 0 <= i < Int8Lanes => Wrap8(Abs(a[i])))
  }

  /** Bitwise AND of two bytes is non-zero. */
  predicate TestBits8(x: int, y: int)
    requires IsInt8(x) && IsInt8(y)
  {
    ((Unsigned8(x) as bv8) & (Unsigned8(y) as bv8)) != 0
  }

  /** VPTESTMB (_mm512_test_epi8_mask): mask bit i is set when a[i] AND b[i] is non-zero. */
  function TestEpi8Mask(a: seq<int>, b: seq<int>): (k: seq<bool>)
    requires IsVec8(a) && IsVec8(b)
    ensures |k| == Int8Lanes
  {
    seq(Int8Lanes, i requires 0 <= i < Int8Lanes => TestBits8(a[i], b[i]))
  }

  /** Testing a byte against 0x80 (set1_epi8(-128)) reads its sign bit. */
  lemma TestSignBit(x: int)
    requires IsInt8(x)
    ensures TestBits8(x, -128) <==> x < 0
  {
    assert Unsigned8(-128) == 128;
    if x < 0 {
      assert Unsigned8(x) == x + 256;
    }
  }

  /**
    VPSUBB with merge masking (_mm512_mask_sub_epi8(src, k, a, b)): where
    bit i of k is set the byte is a[i] - b[i] wrapped to 8 bits, elsewhere
    it is src[i].
   */
  function MaskSubEpi8(src: seq<int>, k: seq<bool>, a: seq<int>, b: seq<int>): (r: seq<int>)
    requires IsVec8(src) && IsVec8(a) && IsVec8(b) && |k| == Int8Lanes
    ensures IsVec8(r)
    ensures forall i :: 0 <= i < Int8Lanes ==> r[i] == (if k[i] then Wrap8(a[i] - b[i]) else src[i])
  {
    seq(Int8Lanes, i requires 0 <= i < Int8Lanes => if k[i] then Wrap8(a[i] - b[i]) else src[i])
  }

  /**
    VPMADDUBSW (_mm512_maddubs_epi16): bytes of a read as unsigned, bytes of
    b as signed; adjacent products are added and saturated to int16.
   */
  function MaddubsEpi16(a: seq<int>, b: seq<int>): (r: seq<int>)
    requires IsVec8(a) && IsVec8(b)
    ensures IsVec16(r)
  {
    seq(Int16Lanes, i requires 0 <= i < Int16Lanes =>
      Sat16(Unsigned8(a[2 * i]) * b[2 * i] + Unsigned8(a[2 * i + 1]) * b[2 * i + 1]))
  }

  /** Two's-complement wrap-around to a signed 32-bit integer. */
  function Wrap32(x: int): (r: int)
    ensures IsInt32(r)
    ensures IsInt32(x) ==> r == x
  {
    (x + 0x8000_0000) % 0x1_0000_0000 - 0x8000_0000
  }

  /**
    VPMADDWD (_mm512_madd_epi16): adjacent signed word products are added
    into one dword; the only sum that overflows (all four words -32768)
    wraps to -2^31.
   */
  function MaddEpi16(a: seq<int>, b: seq<int>): (r: seq<int>)
    requires IsVec16(a) && IsVec16(b)
    ensures IsVec32(r)
  {
    seq(Int32Lanes, i requires 0 <= i < Int32Lanes =>
      Wrap32(a[2 * i] * b[2 * i] + a[2 * i + 1] * b[2 * i + 1]))
  }

  /** VPADDSW (_mm512_adds_epi16): lane-wise add with signed saturation to int16. */
  function AddsEpi16(a: seq<int>, b: seq<int>): (r: seq<int>)
    requires IsVec16(a) && IsVec16(b)
    ensures IsVec16(r)
    ensures forall i :: 0 <= i < Int16Lanes ==>
      (IsInt16(a[i] + b[i]) ==> r[i] == a[i] + b[i]) &&
      (a[i] + b[i] > 32767 ==> r[i] == 32767) &&
      (a[i] + b[i] < -32768 ==> r[i] == -32768)
  {
    seq(Int16Lanes, i requires 0 <= i < Int16Lanes => Sat16(a[i] + b[i]))
  }
  /* ---------------------------------------------------------------- */
  /* Masked narrowing stores                                           */
  /* ---------------------------------------------------------------- */

  /** Bit l of a 16-bit write mask. */
  predicate MaskBit(k: bv16, l: nat)
    requires l < 16
  {
    (k >> l) & 1 == 1
  }

  /** The mask 0xffff the quantizers pass selects all sixteen lanes. */
  lemma FullMaskSelectsAll()
    ensures forall l :: 0 <= l < 16 ==> MaskBit(0xffff, l)
  {
  }

  /**
    VPMOVSDW with a write mask (_mm512_mask_cvtsepi32_storeu_epi16(out + p, k, v)):
    for every set bit l of k, dword l of v saturated to int16 is stored at
    out[p + l]; every other element of memory keeps its value.
   */
  method MaskCvtsepi32StoreuEpi16(out: array<int>, p: nat, k: bv16, v: seq<int>)
    requires |v| == Int32Lanes && p + 16 <= out.Length
    modifies out
    ensures forall j :: 0 <= j < out.Length ==>
      out[j] == (if p <= j < p + 16 && MaskBit(k, j - p) then Sat16(v[j - p]) else old(out[j]))
  {
    forall l | 0 <= l < 16 && MaskBit(k, l) {
      out[p + l] := Sat16(v[l]);
    }
  }

  /**
    VPMOVSDB with a write mask (_mm512_mask_cvtsepi32_storeu_epi8(out + p, k, v)):
    for every set bit l of k, dword l of v saturated to int8 is stored at
    out[p + l]; every other element of memory keeps its value.
   */
  method MaskCvtsepi32StoreuEpi8(out: array<int>, p: nat, k: bv16, v: seq<int>)
    requires |v| == Int32Lanes && p + 16 <= out.Length
    modifies out
    ensures forall j :: 0 <= j < out.Length ==>
      out[j] == (if p <= j < p + 16 && MaskBit(k, j - p) then Sat8(v[j - p]) else old(out[j]))
  {
    forall l | 0 <= l < 16 && MaskBit(k, l) {
      out[p + l] := Sat8(v[l]);
    }
  }
}
