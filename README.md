# AVX-512 integer GEMM backend (intgemm `avx512_gemm.h`)

This project models the integer side of intgemm's AVX-512 backend and proves
what its code promises: how it quantizes A, the lane order of the two B-tile
codecs, and the 8-bit multiply kernel with its sign-correction trick and
saturating accumulation.

- `lanes.dfy` (module `Lanes`) defines the lane view of a 512-bit register.
  A register is a `seq<int>` of 64 int8, 32 int16 or 16 int32 lanes. It also
  defines the narrowing functions: saturation to int16 and int8, and the
  8-bit quantizer's clamp to [-127, 127].
- `intrinsics.dfy` (module `Intrinsics`) gives each instruction the backend
  uses its lane semantics: VPACKSSDW, VPACKSSWB, VPERMQ, VPERMD, VPMAXSB and
  VPMAXSD, VPABSB, VPTESTMB, masked VPSUBB, VPMADDUBSW, VPMADDWD, VPADDSW,
  and the masked saturating stores VPMOVSDW and VPMOVSDB. The stores write
  into an `array<int>` in place.
- `avx512f.dfy` (module `Avx512f`) models the `avx512f` namespace:
  - `QuantizerGrab`, `Concat` and `QuantizerGrabHalves`;
  - `QuantizeTile16::ForReshape` and `QuantizeTile8::ForReshape`, as pure
    functions over a window of B given by a base offset and the row stride
    `cols`.

  The 8-bit codec is proved equal to `Reshaped8`, a lane-by-lane reference.
  That reference takes columns 0..7 of rows 0, 2, 16, 18, 32, 34, 48 and 50.
- `avx512_16bit.dfy` and `avx512_8bit.dfy` (modules `Avx512Int16` and
  `Avx512Int8`) hold the two backend structs:
  - their constants;
  - `Quantize` and `PrepareA`, as loops that store into the output array;
  - for the 8-bit struct, `Multiply`. It is modelled as the triple loop of
    the source: tiles of 8 columns of B, then rows of A, then the shared
    dimension. `Multiply` returns the sequence of callback calls it makes.
    `AllCalls` is the reference that sequence is proved equal to. `CallOrder`
    states the call order, and `AccumulatedExact` states when the 16-bit sums
    are exact.
- `backend.dfy` (module `Backend`) holds the descriptor type shared by both
  structs, and the two CPU tags.

The float side is not modelled. The source loads floats (QuantizerGrabHalves
first concatenates two 8-float halves), multiplies them by `quant_mult` and
converts them to int32. The multiplication and the conversion act lane by
lane, so they commute with the loads and with Concat. The model's inputs are
the converted int32 values.

## Model

| member | source | states |
|---|---|---|
| Lanes.Sat16 | avx512_gemm.h:147 | The result lies in int16. It is x when x is in int16, and -32768 or 32767 when x is below or above. |
| Lanes.Sat8 | avx512_gemm.h:199 | The result lies in int8. It is x when x is in int8, and -128 or 127 when x is below or above. |
| Lanes.QuantizedInt8 | avx512_gemm.h:196-199 | The result (max with -127, then saturation to int8) lies in [-127, 127]. It is x inside that range, -127 below it and 127 above it. |
| Lanes.TwoStepNarrowing | avx512_gemm.h:105-110 | Packing to int16, then to int8, then raising to -127 gives the same byte as the 8-bit Quantize. Saturating in two steps equals saturating once. |
| Lanes.QuantizersMonotone | avx512_gemm.h:189-201 | Both quantizers keep the order of their inputs. |
| Lanes.Wrap8 | avx512_gemm.h:283-290 | Wrap-around to a byte: the result lies in int8, differs from x by 0 or ±256, and is x when x is already in int8. |
| Lanes.Unsigned8 | avx512_gemm.h:292-299 | A signed byte read as unsigned lies in [0, 256) and is x or x + 256. Non-negative bytes keep their value. |
| Intrinsics.Set1 | avx512_gemm.h:95 | n lanes, each equal to x. |
| Intrinsics.SetEpi32 | avx512_gemm.h:97 | _mm512_set_epi32 lists lanes from the top down: lane i is argument 15 - i, so lane 0 is the last argument and lane 15 the first. |
| Intrinsics.PacksEpi32 | avx512_gemm.h:77 | VPACKSSDW yields 32 lanes, all in int16. |
| Intrinsics.PacksEpi16 | avx512_gemm.h:108 | VPACKSSWB yields 64 lanes, all in int8. |
| Intrinsics.PermutexEpi64 | avx512_gemm.h:79 | VPERMQ keeps the lane count and the int16 range. |
| Intrinsics.PermutexvarEpi32 | avx512_gemm.h:112 | VPERMD keeps the lane count and the int8 range. |
| Intrinsics.MaxLanes | avx512_gemm.h:110 | Each lane is one of the two inputs and is at least as large as both. |
| Intrinsics.AbsEpi8 | avx512_gemm.h:247 | VPABSB read as unsigned is abs(a) in every lane, including a = -128. |
| Intrinsics.TestSignBit | avx512_gemm.h:246 | Testing a byte against set1_epi8(-128) is true exactly when the byte is negative. |
| Intrinsics.TestEpi8Mask | avx512_gemm.h:246 | VPTESTMB gives one mask bit per byte. |
| Intrinsics.MaskSubEpi8 | avx512_gemm.h:283-290 | Masked lanes are a - b wrapped to a byte. Other lanes keep src. Every lane is in int8. |
| Intrinsics.MaddubsEpi16 | avx512_gemm.h:292-299 | VPMADDUBSW yields 32 words, each in int16. |
| Intrinsics.MaddEpi16 | avx512_gemm.h:315-322 | VPMADDWD yields 16 dwords, each in int32. |
| Intrinsics.AddsEpi16 | avx512_gemm.h:303-310 | Each lane is the exact sum when that sum fits in int16. Otherwise it is 32767 or -32768, by the sign of the overflow. |
| Intrinsics.FullMaskSelectsAll | avx512_gemm.h:147 | The mask 0xffff selects all 16 lanes. |
| Intrinsics.MaskCvtsepi32StoreuEpi16 | avx512_gemm.h:147 | Each selected lane l stores Sat16(v[l]) at out[p + l]. Every other array element is unchanged. |
| Intrinsics.MaskCvtsepi32StoreuEpi8 | avx512_gemm.h:199 | Each selected lane l stores Sat8(v[l]) at out[p + l]. Every other array element is unchanged. |
| Avx512f.QuantizerGrab | avx512_gemm.h:38-40 | Lane i is the value at p + i, for 16 lanes. |
| Avx512f.CastPs256Ps512 | avx512_gemm.h:53 | The lower 8 lanes of the widened register are the 256-bit input. |
| Avx512f.InsertF32x8 | avx512_gemm.h:53 | The selected half is replaced by b. The other half is kept. |
| Avx512f.Concat | avx512_gemm.h:51-54 | Lanes 0..7 are `first` and lanes 8..15 are `second`, whatever the cast left in the upper half. |
| Avx512f.QuantizerGrabHalves | avx512_gemm.h:58-62 | Lanes 0..7 are the values from p0 and lanes 8..15 the values from p1, in order. |
| Avx512f.GrabHalvesRuns | avx512_gemm.h:58-62 | The grabbed register equals the run at p0 followed by the run at p1. |
| Avx512f.PermuteImmD8 | avx512_gemm.h:79 | Immediate 0xd8 selects qwords 0, 2, 1, 3. |
| Avx512f.PackAndPermute16 | avx512_gemm.h:77-79 | After the pack and the 0xd8 permute, the words are lanes 0..7 of g0, 0..7 of g1, 8..15 of g0 and 8..15 of g1, each saturated to int16. |
| Avx512f.WindowRows16 | avx512_gemm.h:75-76 | Reads that block order as rows 0, 8, 16 and 24 of the window. |
| Avx512f.ForReshape16 | avx512_gemm.h:74-80 | The 32 words are columns 0..7 of rows 0, 8, 16 and 24 of the window, in that order, each saturated to int16. |
| Avx512f.ShuffleParamValues | avx512_gemm.h:97 | Read from dword 0 up, shuffle_param is 0, 4, 8, 12, 1, 5, 9, 13, 2, 6, 10, 14, 3, 7, 11, 15. |
| Avx512f.ShuffleParamTransposes | avx512_gemm.h:97 | shuffle_param transposes a 4 x 4 grid: entry d is 4 * (d % 4) + d / 4. It is a permutation of 0..15 (in range, pairwise distinct) and its own inverse. |
| Avx512f.TransposedByte | avx512_gemm.h:112 | After the dword permute, byte j of dword 4x + s is byte j of source dword 4s + x. |
| Avx512f.PackedByte | avx512_gemm.h:105-110 | After the two packs and the -127 floor, byte j of dword 4l + k is lane 4l + j of grab k, quantized as the 8-bit Quantize does. |
| Avx512f.ShuffledByte8 | avx512_gemm.h:105-112 | The two stages combined: byte 16x + 4s + j is lane 4s + j of grab x, quantized. |
| Avx512f.PackAndShuffle8 | avx512_gemm.h:104-112 | The permute undoes the interleaving of the packs. The 64 bytes are the lanes of g0, g1, g2 and g3 in order, each quantized. |
| Avx512f.GrabbedRows8 | avx512_gemm.h:100-103 | The four grabs, one after another, are columns 0..7 of rows 0, 2, 16, 18, 32, 34, 48 and 50. |
| Avx512f.Reshaped8 | avx512_gemm.h:93-113 | Reference register. Bytes 8k..8k+7 are columns 0..7 of the k-th of rows 0, 2, 16, 18, 32, 34, 48, 50, quantized. Every byte is in [-127, 127], so -128 never appears. |
| Avx512f.ForReshape8 | avx512_gemm.h:93-113 | The grabs, packs, -127 floor and shuffle_param permute produce exactly Reshaped8. |
| Avx512Int16.Describe | avx512_gemm.h:153-154 | kBTileRow = 32, kBTileCol = 8, kName = "16-bit AVX512" (line 171) and kUses = AVX512BW (line 173), with 16-bit integers. A tile is 8 registers of int16. |
| Avx512Int16.Quantize | avx512_gemm.h:139-149 | For size % 16 == 0, output[i] = Sat16(input[i]) for every i < size, with no -32768 ban. Elements past size are unchanged. |
| Avx512Int16.PrepareA | avx512_gemm.h:130-132 | Quantize over rows * cols elements, in place order. |
| Avx512Int8.Describe | avx512_gemm.h:204-205 | kBTileRow = 64, kBTileCol = 8, kName = "8-bit AVX512" (line 332) and kUses = AVX512BW (line 334), with 8-bit integers. A tile is 8 registers of int8. |
| Avx512Int8.Quantize | avx512_gemm.h:189-201 | output[i] = QuantizedInt8(input[i]) for every i < size, and every output lies in [-127, 127]. Elements past size are unchanged. |
| Avx512Int8.PrepareA | avx512_gemm.h:181-183 | Quantize over rows * cols elements, in place order. |
| Avx512Int8.SignCorrection | avx512_gemm.h:246-249 | For int8 a and b != -128, abs(a) times (a < 0 ? -b : b) equals a * b. |
| Avx512Int8.SignCorrectionFailsAtMinus128 | avx512_gemm.h:249 | At b = -128 the trick fails: for a = -1 the corrected product is -128 instead of 128. |
| Avx512Int8.ByteProductBound | avx512_gemm.h:292-299 | An int8 times a byte in [-127, 127] lies within ±16256, so a pair sum fits in int16. |
| Avx512Int8.CorrectedByte | avx512_gemm.h:283-290 | The sign-corrected byte lies in int8. |
| Avx512Int8.Corrected | avx512_gemm.h:246-249 | The test mask against -128 and the masked subtraction from zero yield a register of int8 bytes. |
| Avx512Int8.CorrectedBytes | avx512_gemm.h:283-290 | Byte j of the corrected register is 0 - b[j] wrapped to a byte where a[j] is negative, and b[j] elsewhere. |
| Avx512Int8.Product | avx512_gemm.h:292-299 | One kernel step yields 32 words in int16. |
| Avx512Int8.KernelIsProduct | avx512_gemm.h:245-256 | The instruction sequence (test mask against -128, masked subtraction from zero, VPABSB, VPMADDUBSW) computes Product. |
| Avx512Int8.ProductExact | avx512_gemm.h:292-299 | When b has no -128 byte, maddubs does not saturate. Word k is exactly a[2k] * b[2k] + a[2k+1] * b[2k+1]. |
| Avx512Int8.CorrectedProduct | avx512_gemm.h:292-299 | abs(a) times the corrected b equals a * b, within ±16256. |
| Avx512Int8.Accumulated | avx512_gemm.h:303-310 | The running sums sum0..sum7 stay in the int16 range after every step. |
| Avx512Int8.AccumulatedStep | avx512_gemm.h:249-310 | The first step sets the sum. Each later step adds that step's product with VPADDSW. |
| Avx512Int8.AccumulatedExact | avx512_gemm.h:303-310 | When B has no -128 and no partial sum of lane k leaves int16, lane k of the accumulator is the exact dot-product partial sum. |
| Avx512Int8.Widen | avx512_gemm.h:314-322 | madd with ones: int32 lane k is sum[2k] + sum[2k+1], with no wrap. |
| Avx512Int8.RowAndTileInBounds | avx512_gemm.h:231-242 | Row r of A (width / 64 registers) and tile t of B (8 * width / 64 registers, from 8 * simd_width * t) lie inside A and B. |
| Avx512Int8.RowCall | avx512_gemm.h:313-327 | The call for row r and tile t gets A_rowidx = r, B0_colidx = 8t, the sizes, and eight int32 registers. |
| Avx512Int8.RowCallSums | avx512_gemm.h:313-327 | Register c the callback receives for row r and tile t is the 16-bit sum of column c over the simd_width steps of that row and tile, widened pairwise to int32. |
| Avx512Int8.TileCalls | avx512_gemm.h:238 | There are A_rows calls per tile. |
| Avx512Int8.Tiles | avx512_gemm.h:236 | There are nt tiles of A_rows calls each. |
| Avx512Int8.AllCalls | avx512_gemm.h:236-238 | The reference call trace: the calls of tiles 0..nt-1 one after another. There are exactly nt * A_rows of them, also when A_rows or B_cols is 0. |
| Avx512Int8.CallOrder | avx512_gemm.h:236-238 | For every tile t < nt and row r < A_rows, call t * A_rows + r is the one for row r and columns 8t..8t+7, so tiles are the outer loop. The total count nt * A_rows is AllCalls' own contract. |
| Avx512Int8.AllCallsStep | avx512_gemm.h:236 | Finishing a tile appends its calls. |
| Avx512Int8.StepProducts | avx512_gemm.h:245-256 | The eight products of one step are Product(a, B[bLive + c]) for c = 0..7. |
| Avx512Int8.AccumulateColumns | avx512_gemm.h:303-310 | Adding the products of step n + 1 to the sums after n steps gives the sums after n + 1 steps. |
| Avx512Int8.AccumulateStep | avx512_gemm.h:263-311 | One inner-loop pass adds each column's product into its sum with saturation, moving every column sum from n steps to n + 1 and reading A register aRow + n and B registers b0Col + 8n .. + 7. |
| Avx512Int8.RowSums | avx512_gemm.h:240-312 | The sums after the inner loop are Accumulated over simd_width steps. The loop reads simd_width registers of A and 8 * simd_width registers of B. |
| Avx512Int8.Multiply | avx512_gemm.h:221-330 | For width % 64 == 0, width >= 64 and B_cols % 8 == 0, the calls made are AllCalls. The B base moves by 8 * simd_width registers per tile. |

## Left out

- Float arithmetic is not modelled: the multiplication by `quant_mult` and the rounding conversion to int32 in `QuantizerGrab`, `QuantizerGrabHalves` and `kernels::quantize`. The inputs are the converted int32 values.
- The alignment asserts on pointer addresses are not modelled. The model has no addresses.
- PrepareB, SelectColumnsOfB, the 16-bit Multiply and MaxAbsolute are not modelled. They are generated by macros whose bodies (interleave.h, multiply.h) are not part of this model. The commented-out PrepareB bodies are left out too.
- SelectColumnsB (both structs) is not modelled. It is a hand-written wrapper that only forwards to SelectColumnsOfB, with `rows * 2` or `rows`.
- Pack0123, PermuteSummer and callbacks::CallbackImpl are not part of this model (multiply.h). The callback's arguments are modelled as the eight widened registers.
- The `maddubs_epi16` and `madd_epi16` wrappers (kernels.h) are modelled as the instructions they wrap.
- CPU dispatch is not modelled. types.h is not part of this model. CPUType has only the two tags this file names.
- Avx512Int8.Multiply: requires width >= 64. The source asserts only width % 64 == 0; with width 0 it reads one register past the row and its inner loop never meets its end.
- Avx512Int8.Multiply: returns the list of callback calls instead of calling an arbitrary callback. Side effects of the callback are not modelled.
- Avx512Int8.Multiply: A and B are sequences of 64-byte registers, not byte pointers. Reading a register is indexing into the sequence.
- Avx512Int16.Quantize: requires size % 16 == 0, as the source asserts. The model does not describe the unbounded loop the source would run otherwise.
- Avx512Int8.Quantize: requires size % 16 == 0, as the source asserts. Otherwise the source's `input < end` loop would store a whole 16-lane chunk past size; the model does not describe that.
- Avx512Int16.PrepareA, Avx512Int8.PrepareA and Avx512Int8.Multiply: sizes, rows, columns and offsets are unbounded `nat`s. The source computes them in the fixed-width `Index` type of types.h and in `int`: `rows * cols` (avx512_gemm.h:131, 182), `simd_width` (line 231), the `B0_col` and `B0_colidx` steps (line 236) and `A_rowidx * width` (line 240). The model assumes all of these fit; where `rows * cols` would wrap, the source quantizes only the wrapped count and the model does not describe that.
- Avx512f.CastPs256Ps512: the upper half the manual leaves undefined is a parameter. Concat's result is proved not to depend on it.
- Lanes.Wrap8 and Lanes.Unsigned8: defined only on the ranges the instructions feed them: [-384, 383] and int8.
- Intrinsics.PacksEpi32, Intrinsics.PacksEpi16, Intrinsics.PermutexEpi64 and Intrinsics.PermutexvarEpi32: their contracts state only lane counts and ranges. The lane order is proved about the codecs in PackAndPermute16, TransposedByte and PackedByte.
- Intrinsics.MaddubsEpi16 and Intrinsics.MaddEpi16: their contracts state only ranges. Their lane sums are proved in KernelIsProduct, ProductExact and Widen.
- Avx512Int8.Product and Avx512Int8.Accumulated: their contracts state the int16 range. Exactness is proved in ProductExact and AccumulatedExact.
- Intrinsics.TestEpi8Mask: its contract states only the mask length. The sign test is TestSignBit.
