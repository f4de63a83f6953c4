/**
  What every backend variant publishes about itself: the width of its
  integers, the tile shape B must be a multiple of, a name and the CPU
  capability it needs. Selecting a variant at run time is not part of
  this model.
 */
module Backend {

  /**
    Capability tags. The full CPUType enumeration lives in types.h, which
    is not part of this model; these are the two tags the AVX-512 backend
    names.
   */
  datatype CPUType = AVX2 | AVX512BW

  /** The static members kBTileRow, kBTileCol, kName and kUses, with the integer width. */
  datatype Descriptor = Descriptor(integerBits: nat, bTileRow: nat, bTileCol: nat, name: string, uses: CPUType)

  /** Bits in one AVX-512 register. */
  const RegisterBits: nat := 512
}
