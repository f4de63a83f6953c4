/**
  AVX512_8bit: quantizing A to int8, the multiply kernel and the constants
  of the 8-bit backend.

  Input values are the int32 values the floats become after the
  multiplication by quant_mult and the rounding conversion. Matrices handed
  to Multiply are sequences of 64-byte registers: A holds A_rows rows of
  width / 64 registers each, B holds the prepared B matrix, 8 * (width / 64)
  registers per tile of 8 columns.
 */
module Avx512Int8 {
  import opened Lanes
  import opened Intrinsics
  import opened Avx512f
  import opened Backend

  /** kBTileRow: B is prepared in tiles of 64 rows ... */
  const BTileRow: nat := 64
  /** ... by kBTileCol = 8 columns. */
  const BTileCol: nat := 8
  /** kName */
  const Name: string := "8-bit AVX512"
  /** kUses */
  const Uses: CPUType := AVX512BW

  /**
    The descriptor of the 8-bit backend. A tile of B holds exactly eight
    registers of int8, and one ForReshape8 call covers its 8 columns in
    eight of its rows.
   */
  function Describe(): (d: Descriptor)
    ensures d.integerBits == 8 && d.uses == AVX512BW
    ensures d.bTileRow == 64 && d.bTileCol == 8 && d.name == "8-bit AVX512"
    ensures d.bTileRow * d.bTileCol * d.integerBits == 8 * RegisterBits
    ensures d.bTileCol * 8 == Int8Lanes
  {
    Descriptor(8, BTileRow, BTileCol, Name, Uses)
  }

  /* ---------------------------------------------------------------- */
  /* Quantize, PrepareA                                                */
  /* ---------------------------------------------------------------- */

  /**
    AVX512_8bit::Quantize: every 16 values are grabbed into one register,
    raised to at least -127 and stored through the masked saturating store
    with all sixteen mask bits set. Output i is input i clamped to
    [-127, 127], so -128 is never written. Elements at and past size are
    not touched.
   */
  method Quantize(input: seq<int>, output: array<int>, size: nat)
    requires size % 16 == 0
    requires size <= |input| && size <= output.Length
    modifies output
    ensures forall i :: 0 <= i < size ==> output[i] == QuantizedInt8(input[i])
    ensures forall i :: 0 <= i < size ==> -127 <= output[i] <= 127
    ensures forall i :: size <= i < output.Length ==> output[i] == old(output[i])
  {
    FullMaskSelectsAll();
    var neg127 := Set1(Int32Lanes, -127);
    var p := 0;
    while p < size
      invariant 0 <= p <= size && p % 16 == 0
      invariant forall i :: 0 <= i < p ==> output[i] == QuantizedInt8(input[i])
      invariant forall i :: p <= i < output.Length ==> output[i] == old(output[i])
      decreases size - p
    {
      var asint := QuantizerGrab(input, p);
      asint := MaxLanes(asint, neg127);
      MaskCvtsepi32StoreuEpi8(output, p, 0xffff, asint);
      p := p + 16;
    }
  }

  /**
    AVX512_8bit::PrepareA: A is prepared by quantizing its rows * cols
    values in place order, so element (r, c) of the output is element
    (r, c) of the input clamped to [-127, 127].
   */
  method PrepareA(input: seq<int>, output: array<int>, rows: nat, cols: nat)
    requires rows * cols % 16 == 0
    requires rows * cols <= |input| && rows * cols <= output.Length
    modifies output
    ensures forall i :: 0 <= i < rows * cols ==> output[i] == QuantizedInt8(input[i])
    ensures forall i :: rows * cols <= i < output.Length ==> output[i] == old(output[i])
  {
    Quantize(input, output, rows * cols);
  }

  /* ---------------------------------------------------------------- */
  /* Sign correction                                                   */
  /* ---------------------------------------------------------------- */

  /**
    The sign trick for one byte pair: |a| times b negated where a is
    negative is a * b, for every a and every b except -128.
   */
  lemma SignCorrection(a: int, b: int)
    requires IsInt8(a) && IsInt8(b) && b != -128
    ensures Abs(a) * CorrectedByte(a, b) == a * b
  {
    if a < 0 {
      assert CorrectedByte(a, b) == -b;
      NegatedProduct(a, b);
    }
  }

  lemma NegatedProduct(a: int, b: int)
    requires a < 0
    ensures Abs(a) * -b == a * b
  {
  }

  /**
    Why b must not be -128: negating -128 in eight bits gives -128 again,
    so for a = -1 the corrected product is -128 instead of 128.
   */
  lemma SignCorrectionFailsAtMinus128()
    ensures Abs(-1) * CorrectedByte(-1, -128) == -128
    ensures (-1) * (-128) == 128
  {
  }

  /** A product of an int8 and a byte in [-127, 127] lies within 128 * 127 of zero. */
  lemma ByteProductBound(a: int, b: int)
    requires IsInt8(a) && -127 <= b <= 127
    ensures -16256 <= a * b <= 16256
  {
    MulBelow127(Abs(a), Abs(b));
    if a < 0 && b < 0 {
      assert a * b == Abs(a) * Abs(b);
    } else if a < 0 {
      assert a * b == -(Abs(a) * Abs(b));
    } else if b < 0 {
      assert a * b == -(Abs(a) * Abs(b));
    } else {
      assert a * b == Abs(a) * Abs(b);
    }
  }

  lemma {:induction false} MulBelow127(x: nat, y: nat)
    requires y <= 127
    ensures x * y <= x * 127
  {
    if x > 0 {
      MulBelow127(x - 1, y);
      assert x * y == (x - 1) * y + y;
      assert x * 127 == (x - 1) * 127 + 127;
    }
  }

  /** Every byte of a register lies in [-127, 127]: what the 8-bit quantizers produce. */
  predicate NoMinus128(v: seq<int>)
  {
    IsVec8(v) && forall j :: 0 <= j < Int8Lanes ==> v[j] != -128
  }

  /**
    One lane of the sign correction: b negated in eight bits where a is
    negative, b itself elsewhere.
   */
  function CorrectedByte(a: int, b: int): (r: int)
    requires IsInt8(b)
    ensures IsInt8(r)
  {
    if a < 0 then Wrap8(0 - b) else b
  }

  /**
    One step of the kernel for one column, word by word: |a| in bytes 2k
    and 2k+1 times the sign-corrected bytes of b, added and saturated to
    int16.
   */
  function Product(a: seq<int>, b: seq<int>): (r: seq<int>)
    requires IsVec8(a) && IsVec8(b)
    ensures IsVec16(r)
  {
    seq(Int16Lanes, k requires 0 <= k < Int16Lanes =>
      Sat16(Abs(a[2 * k]) * CorrectedByte(a[2 * k], b[2 * k]) +
            Abs(a[2 * k + 1]) * CorrectedByte(a[2 * k + 1], b[2 * k + 1])))
  }

  /**
    The instructions of one step compute Product: the sign mask of a
    (a test against set1(-128)), the masked subtraction of b from zero,
    the absolute value of a and maddubs.
   */
  lemma KernelIsProduct(a: seq<int>, b: seq<int>)
    requires IsVec8(a) && IsVec8(b)
    ensures MaddubsEpi16(AbsEpi8(a), Corrected(a, b)) == Product(a, b)
  {
    forall k | 0 <= k < Int16Lanes ensures MaddubsEpi16(AbsEpi8(a), Corrected(a, b))[k] == Product(a, b)[k] {
      KernelWord(a, b, k);
    }
  }

  /** Word k of the kernel is word k of Product. */
  lemma KernelWord(a: seq<int>, b: seq<int>, k: nat)
    requires IsVec8(a) && IsVec8(b) && k < Int16Lanes
    ensures MaddubsEpi16(AbsEpi8(a), Corrected(a, b))[k] == Product(a, b)[k]
  {
    KernelByte(a, b, 2 * k);
    KernelByte(a, b, 2 * k + 1);
  }

  /**
    The bytes of b with the sign of a moved onto them: where a byte of a is
    negative (its sign bit tests set against 0x80) the byte of b becomes
    0 - b, wrapped to 8 bits; elsewhere it is kept.
   */
  function Corrected(a: seq<int>, b: seq<int>): (r: seq<int>)
    requires IsVec8(a) && IsVec8(b)
    ensures IsVec8(r)
  {
    MaskSubEpi8(b, TestEpi8Mask(a, Set1(Int8Lanes, -128)), Set1(Int8Lanes, 0), b)
  }

  /**
    Corrected negates exactly the bytes of b where a is negative: every
    byte is CorrectedByte of the matching bytes of a and b.
   */
  lemma CorrectedBytes(a: seq<int>, b: seq<int>)
    requires IsVec8(a) && IsVec8(b)
    ensures forall j :: 0 <= j < Int8Lanes ==> Corrected(a, b)[j] == CorrectedByte(a[j], b[j])
  {
    forall j | 0 <= j < Int8Lanes ensures Corrected(a, b)[j] == CorrectedByte(a[j], b[j]) {
      KernelByte(a, b, j);
    }
  }

  /** Byte j of the kernel: |a[j]| read as unsigned, and the sign-corrected b[j]. */
  lemma KernelByte(a: seq<int>, b: seq<int>, j: nat)
    requires IsVec8(a) && IsVec8(b) && j < Int8Lanes
    ensures Unsigned8(AbsEpi8(a)[j]) == Abs(a[j]) && Corrected(a, b)[j] == CorrectedByte(a[j], b[j])
  {
    TestSignBit(a[j]);
  }

  /**
    When no byte of b is -128 the sign correction is exact and maddubs
    does not saturate, so word k of Product is the exact sum of the two
    products of bytes 2k and 2k+1.
   */
  lemma ProductExact(a: seq<int>, b: seq<int>)
    requires IsVec8(a) && NoMinus128(b)
    ensures forall k :: 0 <= k < Int16Lanes ==>
      Product(a, b)[k] == a[2 * k] * b[2 * k] + a[2 * k + 1] * b[2 * k + 1]
  {
    forall k | 0 <= k < Int16Lanes
      ensures Product(a, b)[k] == a[2 * k] * b[2 * k] + a[2 * k + 1] * b[2 * k + 1]
    {
      ProductLane(a, b, k);
    }
  }

  /** Word k of Product: the two corrected byte products, which fit in int16 and so are not saturated. */
  lemma ProductLane(a: seq<int>, b: seq<int>, k: nat)
    requires NoMinus128(b) && IsVec8(a) && k < Int16Lanes
    ensures Product(a, b)[k] == a[2 * k] * b[2 * k] + a[2 * k + 1] * b[2 * k + 1]
  {
    var j := 2 * k;
    var p0 := CorrectedProduct(a[j], b[j], Abs(a[j]), CorrectedByte(a[j], b[j]));
    var p1 := CorrectedProduct(a[j + 1], b[j + 1], Abs(a[j + 1]), CorrectedByte(a[j + 1], b[j + 1]));
    assert Product(a, b)[k] == Sat16(p0 + p1);
  }

  /**
    One corrected byte product: u is |a| and v the sign-corrected b; then
    u * v == a * b, within 128 * 127 of zero.
   */
  lemma CorrectedProduct(a: int, b: int, u: int, v: int) returns (p: int)
    requires IsInt8(a) && IsInt8(b) && b != -128
    requires u == Abs(a) && v == CorrectedByte(a, b)
    ensures p == u * v == a * b
    ensures -16256 <= p <= 16256
  {
    SignCorrection(a, b);
    ByteProductBound(a, b);
    p := a * b;
  }

  /* ---------------------------------------------------------------- */
  /* Multiply                                                          */
  /* ---------------------------------------------------------------- */

  /** Every register of the sequence holds 64 signed bytes. */
  predicate AllVec8(vs: seq<seq<int>>)
  {
    forall i :: 0 <= i < |vs| ==> IsVec8(vs[i])
  }

  /** Every register of the sequence holds bytes in [-127, 127], as prepared B does. */
  predicate AllNoMinus128(vs: seq<seq<int>>)
  {
    forall i :: 0 <= i < |vs| ==> NoMinus128(vs[i])
  }

  /**
    The arguments Multiply accepts: width a multiple of 64 and at least 64
    (the inner loop steps until it meets the end of the row, so a row must
    hold at least one register), B_cols a multiple of 8, A_rows rows of
    width / 64 registers in A and B_cols / 8 tiles of 8 * (width / 64)
    registers in B.
   */
  predicate MultiplyArgs(A: seq<seq<int>>, B: seq<seq<int>>, aRows: nat, width: nat, bCols: nat)
  {
    width % 64 == 0 && width >= 64 && bCols % 8 == 0 &&
    aRows * (width / 64) <= |A| && bCols * (width / 64) <= |B| &&
    AllVec8(A) && AllVec8(B)
  }

  /**
    The 16-bit running sum of column c (sum0 .. sum7) after the first n
    steps along the shared dimension, for the row of A that starts at
    register aRow and the tile of B that starts at register bTile: step s
    reads register aRow + s of A and register bTile + 8 * s + c of B, and
    its product is added with signed saturation. Every lane stays in the
    int16 range.
   */
  function Accumulated(A: seq<seq<int>>, B: seq<seq<int>>, aRow: nat, bTile: nat, c: nat, n: nat): (r: seq<int>)
    requires AllVec8(A) && AllVec8(B)
    requires c < 8 && 1 <= n && aRow + n <= |A| && bTile + 8 * n <= |B|
    ensures IsVec16(r)
    decreases n
  {
    var step := Product(A[aRow + n - 1], B[bTile + 8 * (n - 1) + c]);
    if n == 1 then step else AddsEpi16(Accumulated(A, B, aRow, bTile, c, n - 1), step)
  }

  /** The first step sets the sum; every later step adds one product to it. */
  lemma AccumulatedStep(A: seq<seq<int>>, B: seq<seq<int>>, aRow: nat, bTile: nat, c: nat, n: nat)
    requires AllVec8(A) && AllVec8(B)
    requires c < 8 && aRow + n + 1 <= |A| && bTile + 8 * (n + 1) <= |B|
    ensures n == 0 ==> Accumulated(A, B, aRow, bTile, c, 1) == Product(A[aRow], B[bTile + c])
    ensures n >= 1 ==>
      Accumulated(A, B, aRow, bTile, c, n + 1) ==
      AddsEpi16(Accumulated(A, B, aRow, bTile, c, n), Product(A[aRow + n], B[bTile + 8 * n + c]))
  {
  }

  /** Lane k of the sum Accumulated would hold after n steps in exact arithmetic. */
  function ExactSum(A: seq<seq<int>>, B: seq<seq<int>>, aRow: nat, bTile: nat, c: nat, n: nat, k: nat): int
    requires AllVec8(A) && AllVec8(B)
    requires c < 8 && k < Int16Lanes && aRow + n <= |A| && bTile + 8 * n <= |B|
    decreases n
  {
    if n == 0 then 0
    else
      var a, b := A[aRow + n - 1], B[bTile + 8 * (n - 1) + c];
      ExactSum(A, B, aRow, bTile, c, n - 1, k) + a[2 * k] * b[2 * k] + a[2 * k + 1] * b[2 * k + 1]
  }

  /** No saturating add on lane k clips: every exact partial sum up to n steps fits in int16. */
  predicate NoClip(A: seq<seq<int>>, B: seq<seq<int>>, aRow: nat, bTile: nat, c: nat, n: nat, k: nat)
    requires AllVec8(A) && AllVec8(B)
    requires c < 8 && k < Int16Lanes && aRow + n <= |A| && bTile + 8 * n <= |B|
  {
    forall m :: 1 <= m <= n ==> IsInt16(ExactSum(A, B, aRow, bTile, c, m, k))
  }

  /**
    Saturation is the only approximation: when B has no -128 byte and no
    partial sum of lane k leaves the int16 range, the accumulator holds the
    exact dot-product partial sum.
   */
  lemma {:induction false} AccumulatedExact(A: seq<seq<int>>, B: seq<seq<int>>, aRow: nat, bTile: nat, c: nat, n: nat, k: nat)
    requires AllVec8(A) && AllVec8(B) && AllNoMinus128(B)
    requires c < 8 && k < Int16Lanes && 1 <= n && aRow + n <= |A| && bTile + 8 * n <= |B|
    requires NoClip(A, B, aRow, bTile, c, n, k)
    ensures Accumulated(A, B, aRow, bTile, c, n)[k] == ExactSum(A, B, aRow, bTile, c, n, k)
  {
    var b := B[bTile + 8 * (n - 1) + c];
    assert NoMinus128(b);
    ProductExact(A[aRow + n - 1], b);
    assert IsInt16(ExactSum(A, B, aRow, bTile, c, n, k));
    if n > 1 {
      AccumulatedExact(A, B, aRow, bTile, c, n - 1, k);
    }
  }

  /**
    madd_epi16 with a register of ones: each int32 lane is the sum of two
    adjacent int16 lanes, which never wraps.
   */
  function Widen(sum: seq<int>): (r: seq<int>)
    requires IsVec16(sum)
    ensures IsVec32(r)
    ensures forall k :: 0 <= k < Int32Lanes ==> r[k] == sum[2 * k] + sum[2 * k + 1]
  {
    MaddEpi16(sum, Set1(Int16Lanes, 1))
  }

  /**
    The arguments of one callback call: the eight widened sums (one per
    column of the tile), then A_rowidx, B0_colidx, A_rows, width, B_cols.
   */
  datatype CallbackArgs = CallbackArgs(sums: seq<seq<int>>, rowIdx: nat, colIdx: nat, aRows: nat, width: nat, bCols: nat)

  /** The row of A and the tile of B a call reads lie inside A and B. */
  lemma RowAndTileInBounds(A: seq<seq<int>>, B: seq<seq<int>>, aRows: nat, width: nat, bCols: nat, r: nat, t: nat)
    requires MultiplyArgs(A, B, aRows, width, bCols) && r < aRows && t < bCols / 8
    ensures r * (width / 64) + width / 64 <= |A|
    ensures 8 * (width / 64) * t + 8 * (width / 64) <= |B|
  {
    var sw := width / 64;
    MulLe(r + 1, aRows, sw);
    MulLe(8 * (t + 1), bCols, sw);
    assert (r + 1) * sw == r * sw + sw;
    assert 8 * (t + 1) * sw == 8 * sw * t + 8 * sw;
  }

  lemma {:induction false} MulLe(x: nat, y: nat, z: nat)
    requires x <= y
    ensures x * z <= y * z
  {
    if z > 0 {
      MulLe(x, y, z - 1);
      assert x * z == x * (z - 1) + x;
      assert y * z == y * (z - 1) + y;
    }
  }

  /** The callback call for row r of A and tile t of B (columns 8t .. 8t+7). */
  function RowCall(A: seq<seq<int>>, B: seq<seq<int>>, aRows: nat, width: nat, bCols: nat, r: nat, t: nat): (call: CallbackArgs)
    requires MultiplyArgs(A, B, aRows, width, bCols) && r < aRows && t < bCols / 8
    ensures call.rowIdx == r && call.colIdx == 8 * t
    ensures call.aRows == aRows && call.width == width && call.bCols == bCols
    ensures |call.sums| == 8 && forall c :: 0 <= c < 8 ==> IsVec32(call.sums[c])
  {
    var sw := width / 64;
    RowAndTileInBounds(A, B, aRows, width, bCols, r, t);
    var sums := seq(8, c requires 0 <= c < 8 => Widen(Accumulated(A, B, r * sw, 8 * sw * t, c, sw)));
    CallbackArgs(sums, r, 8 * t, aRows, width, bCols)
  }

  /**
    What the callback receives for row r and tile t: for each column c of
    the tile, the 16-bit sum over the simd_width steps of the row, widened
    to int32 pairwise.
   */
  lemma RowCallSums(A: seq<seq<int>>, B: seq<seq<int>>, aRows: nat, width: nat, bCols: nat, r: nat, t: nat)
    requires MultiplyArgs(A, B, aRows, width, bCols) && r < aRows && t < bCols / 8
    ensures r * (width / 64) + width / 64 <= |A| && 8 * (width / 64) * t + 8 * (width / 64) <= |B|
    ensures forall c :: 0 <= c < 8 ==>
      RowCall(A, B, aRows, width, bCols, r, t).sums[c] ==
      Widen(Accumulated(A, B, r * (width / 64), 8 * (width / 64) * t, c, width / 64))
  {
    RowAndTileInBounds(A, B, aRows, width, bCols, r, t);
  }

  /** The calls for tile t, one per row of A, in row order. */
  function TileCalls(A: seq<seq<int>>, B: seq<seq<int>>, aRows: nat, width: nat, bCols: nat, t: nat): (calls: seq<CallbackArgs>)
    requires MultiplyArgs(A, B, aRows, width, bCols) && t < bCols / 8
    ensures |calls| == aRows
  {
    seq(aRows, r requires 0 <= r < aRows => RowCall(A, B, aRows, width, bCols, r, t))
  }

  /** The calls for tiles 0 .. nt-1. */
  function Tiles(A: seq<seq<int>>, B: seq<seq<int>>, aRows: nat, width: nat, bCols: nat, nt: nat): (tiles: seq<seq<CallbackArgs>>)
    requires MultiplyArgs(A, B, aRows, width, bCols) && nt <= bCols / 8
    ensures |tiles| == nt && forall t :: 0 <= t < nt ==> |tiles[t]| == aRows
  {
    seq(nt, t requires 0 <= t < nt => TileCalls(A, B, aRows, width, bCols, t))
  }

  /** The calls for the first nt tiles, tile after tile. */
  function AllCalls(A: seq<seq<int>>, B: seq<seq<int>>, aRows: nat, width: nat, bCols: nat, nt: nat): (calls: seq<CallbackArgs>)
    requires MultiplyArgs(A, B, aRows, width, bCols) && nt <= bCols / 8
    ensures |calls| == nt * aRows
  {
    FlattenLength(Tiles(A, B, aRows, width, bCols, nt), aRows);
    Flatten(Tiles(A, B, aRows, width, bCols, nt))
  }

  /** The sequences of a sequence, one after another. */
  function Flatten<T>(ss: seq<seq<T>>): seq<T>
  {
    if ss == [] then [] else Flatten(ss[..|ss| - 1]) + ss[|ss| - 1]
  }

  /** Flattening sequences of equal length w puts element r of sequence t at t * w + r. */
  lemma {:induction false} FlattenIndex<T>(ss: seq<seq<T>>, w: nat, t: nat, r: nat)
    requires forall i :: 0 <= i < |ss| ==> |ss[i]| == w
    requires t < |ss| && r < w
    ensures |Flatten(ss)| == |ss| * w
    ensures t * w + r < |Flatten(ss)| && Flatten(ss)[t * w + r] == ss[t][r]
  {
    var n := |ss|;
    var init := ss[..n - 1];
    FlattenLength(ss, w);
    FlattenLength(init, w);
    if t < n - 1 {
      FlattenIndex(init, w, t, r);
    } else {
      assert t * w + r == |Flatten(init)| + r;
    }
  }

  lemma {:induction false} FlattenLength<T>(ss: seq<seq<T>>, w: nat)
    requires forall i :: 0 <= i < |ss| ==> |ss[i]| == w
    ensures |Flatten(ss)| == |ss| * w
  {
    if ss != [] {
      FlattenLength(ss[..|ss| - 1], w);
      assert |ss| * w == (|ss| - 1) * w + w;
    }
  }

  /**
    The callback order: one call per (tile, row) pair, tiles outer and rows
    inner, so call number t * A_rows + r is the one for row r and columns
    8t .. 8t+7, and there are nt * A_rows calls in all.
   */
  lemma CallOrder(A: seq<seq<int>>, B: seq<seq<int>>, aRows: nat, width: nat, bCols: nat, nt: nat, t: nat, r: nat)
    requires MultiplyArgs(A, B, aRows, width, bCols) && nt <= bCols / 8
    requires t < nt && r < aRows
    ensures |AllCalls(A, B, aRows, width, bCols, nt)| == nt * aRows
    ensures t * aRows + r < nt * aRows
    ensures AllCalls(A, B, aRows, width, bCols, nt)[t * aRows + r] == RowCall(A, B, aRows, width, bCols, r, t)
  {
    FlattenIndex(Tiles(A, B, aRows, width, bCols, nt), aRows, t, r);
  }

  /** Taking one more element of s extends the prefix after done by s[k]. */
  lemma PrefixExtend<T>(done: seq<T>, s: seq<T>, k: nat)
    requires k < |s|
    ensures done + s[..k] + [s[k]] == done + s[..k + 1]
  {
    assert s[..k + 1] == s[..k] + [s[k]];
  }

  /** Finishing tile nt appends its calls. */
  lemma AllCallsStep(A: seq<seq<int>>, B: seq<seq<int>>, aRows: nat, width: nat, bCols: nat, nt: nat)
    requires MultiplyArgs(A, B, aRows, width, bCols) && nt < bCols / 8
    ensures AllCalls(A, B, aRows, width, bCols, nt + 1) ==
      AllCalls(A, B, aRows, width, bCols, nt) + TileCalls(A, B, aRows, width, bCols, nt)
  {
    var tiles := Tiles(A, B, aRows, width, bCols, nt + 1);
    assert tiles[..nt] == Tiles(A, B, aRows, width, bCols, nt);
  }

  /**
    One step along the shared dimension: the sign of each byte of a is
    moved onto the matching byte of each of the eight B registers (the
    test mask, then the masked subtraction from zero), and maddubs
    multiplies |a| by the corrected bytes.
   */
  method StepProducts(a: seq<int>, B: seq<seq<int>>, bLive: nat) returns (products: seq<seq<int>>)
    requires IsVec8(a) && AllVec8(B) && bLive + 8 <= |B|
    ensures |products| == 8
    ensures forall c :: 0 <= c < 8 ==> products[c] == Product(a, B[bLive + c])
  {
    var zeros := Set1(Int8Lanes, 0);
    var negMask := TestEpi8Mask(a, Set1(Int8Lanes, -128));
    var aPositive := AbsEpi8(a);
    products := seq(8, c requires 0 <= c < 8 =>
      MaddubsEpi16(aPositive, MaskSubEpi8(B[bLive + c], negMask, zeros, B[bLive + c])));
    forall c | 0 <= c < 8 ensures products[c] == Product(a, B[bLive + c]) {
      KernelIsProduct(a, B[bLive + c]);
    }
  }

  /** Adding the products of step n + 1 to the sums after n steps gives the sums after n + 1 steps. */
  lemma AccumulateColumns(A: seq<seq<int>>, B: seq<seq<int>>, aRow: nat, b0Col: nat, n: nat, aLive: nat, bLive: nat,
                          previous: seq<seq<int>>, products: seq<seq<int>>, sums: seq<seq<int>>)
    requires AllVec8(A) && AllVec8(B)
    requires 1 <= n && aLive == aRow + n && bLive == b0Col + 8 * n
    requires aLive < |A| && bLive + 8 <= |B|
    requires |previous| == 8 && forall c :: 0 <= c < 8 ==> previous[c] == Accumulated(A, B, aRow, b0Col, c, n)
    requires |products| == 8 && forall c :: 0 <= c < 8 ==> products[c] == Product(A[aLive], B[bLive + c])
    requires |sums| == 8 && forall c :: 0 <= c < 8 ==>
      IsVec16(previous[c]) && IsVec16(products[c]) && sums[c] == AddsEpi16(previous[c], products[c])
    ensures forall c :: 0 <= c < 8 ==> sums[c] == Accumulated(A, B, aRow, b0Col, c, n + 1)
  {
    forall c | 0 <= c < 8 ensures sums[c] == Accumulated(A, B, aRow, b0Col, c, n + 1) {
      AccumulatedStep(A, B, aRow, b0Col, c, n);
    }
  }

  /**
    One pass of the inner loop of Multiply: register aLive of A times the
    eight registers of B from bLive on, added into the sums, which moves
    every column sum from n steps to n + 1.
   */
  method AccumulateStep(A: seq<seq<int>>, B: seq<seq<int>>, aRow: nat, b0Col: nat, ghost n: nat,
                        aLive: nat, bLive: nat, sums: seq<seq<int>>) returns (next: seq<seq<int>>)
    requires AllVec8(A) && AllVec8(B)
    requires 1 <= n && aLive == aRow + n && bLive == b0Col + 8 * n
    requires aLive < |A| && bLive + 8 <= |B|
    requires |sums| == 8 && forall c :: 0 <= c < 8 ==> sums[c] == Accumulated(A, B, aRow, b0Col, c, n)
    ensures |next| == 8
    ensures forall c :: 0 <= c < 8 ==> next[c] == Accumulated(A, B, aRow, b0Col, c, n + 1)
  {
    var products := StepProducts(A[aLive], B, bLive);
    next := seq(8, c requires 0 <= c < 8 => AddsEpi16(sums[c], products[c]));
    AccumulateColumns(A, B, aRow, b0Col, n, aLive, bLive, sums, products, next);
  }

  /**
    The body of Multiply for one row of A and one tile of B: the first step
    sets sum0 .. sum7 and every later step along the shared dimension adds
    one product to each with signed saturation. It reads registers
    aRow .. aRow + simdWidth - 1 of A and registers b0Col .. b0Col +
    8 * simdWidth - 1 of B.
   */
  method RowSums(A: seq<seq<int>>, B: seq<seq<int>>, aRow: nat, b0Col: nat, simdWidth: nat) returns (sums: seq<seq<int>>)
    requires AllVec8(A) && AllVec8(B)
    requires 1 <= simdWidth && aRow + simdWidth <= |A| && b0Col + 8 * simdWidth <= |B|
    ensures |sums| == 8
    ensures forall c :: 0 <= c < 8 ==> sums[c] == Accumulated(A, B, aRow, b0Col, c, simdWidth)
  {
    var aLive := aRow;
    var aEnd := aLive + simdWidth;
    var bLive := b0Col;

    // The first step initializes the sums.
    sums := StepProducts(A[aLive], B, bLive);
    forall c | 0 <= c < 8 ensures sums[c] == Accumulated(A, B, aRow, b0Col, c, 1) {
      AccumulatedStep(A, B, aRow, b0Col, c, 0);
    }
    aLive := aLive + 1;
    bLive := bLive + 8;

    ghost var n := 1;
    while aLive != aEnd
      invariant 1 <= n <= simdWidth
      invariant aLive == aRow + n && bLive == b0Col + 8 * n
      invariant |sums| == 8
      invariant forall c :: 0 <= c < 8 ==> sums[c] == Accumulated(A, B, aRow, b0Col, c, n)
      decreases aEnd - aLive
    {
      sums := AccumulateStep(A, B, aRow, b0Col, n, aLive, bLive, sums);
      aLive := aLive + 1;
      bLive := bLive + 8;
      n := n + 1;
    }
    assert n == simdWidth;
  }

  /**
    AVX512_8bit::Multiply: for each tile of 8 columns of B, for each row of
    A, it runs along the shared dimension one register at a time, moves the
    sign of a onto the eight B registers of the step, multiplies with
    maddubs and adds into sum0 .. sum7 with signed saturation; it then
    widens the sums to int32 and calls the callback. The calls it makes are
    returned in order.
   */
  method Multiply(A: seq<seq<int>>, B: seq<seq<int>>, aRows: nat, width: nat, bCols: nat) returns (calls: seq<CallbackArgs>)
    requires MultiplyArgs(A, B, aRows, width, bCols)
    ensures calls == AllCalls(A, B, aRows, width, bCols, bCols / 8)
  {
    var simdWidth := width / 64;
    var ones := Set1(Int16Lanes, 1);
    calls := [];
    var b0Col := 0;
    var b0ColIdx := 0;
    while b0ColIdx != bCols
      invariant b0ColIdx <= bCols && b0ColIdx % 8 == 0
      invariant b0Col == 8 * simdWidth * (b0ColIdx / 8)
      invariant calls == AllCalls(A, B, aRows, width, bCols, b0ColIdx / 8)
      decreases bCols - b0ColIdx
    {
      var t := b0ColIdx / 8;
      var aRowIdx := 0;
      while aRowIdx < aRows
        invariant aRowIdx <= aRows
        invariant calls == AllCalls(A, B, aRows, width, bCols, t) + TileCalls(A, B, aRows, width, bCols, t)[..aRowIdx]
      {
        RowAndTileInBounds(A, B, aRows, width, bCols, aRowIdx, t);
        var aRow := aRowIdx * simdWidth;
        var sums := RowSums(A, B, aRow, b0Col, simdWidth);
        // Upcast to 32 bits and hand the sums to the callback.
        var widened := seq(8, c requires 0 <= c < 8 => MaddEpi16(sums[c], ones));
        assert CallbackArgs(widened, aRowIdx, b0ColIdx, aRows, width, bCols) == RowCall(A, B, aRows, width, bCols, aRowIdx, t);
        PrefixExtend(AllCalls(A, B, aRows, width, bCols, t), TileCalls(A, B, aRows, width, bCols, t), aRowIdx);
        calls := calls + [CallbackArgs(widened, aRowIdx, b0ColIdx, aRows, width, bCols)];
        aRowIdx := aRowIdx + 1;
      }
      assert TileCalls(A, B, aRows, width, bCols, t)[..aRows] == TileCalls(A, B, aRows, width, bCols, t);
      AllCallsStep(A, B, aRows, width, bCols, t);
      b0Col := b0Col + 8 * simdWidth;
      b0ColIdx := b0ColIdx + 8;
    }
  }
}
