/** The Groestl family table: four fixed-size hashers, two variable-size
    ones, and the digest sizes each accepts. The compression function is
    not modelled. Sizes are in bytes. */
module Groestl {
  import opened Wrappers

  datatype FixedFamily = Groestl224 | Groestl256 | Groestl384 | Groestl512

  datatype VariableFamily = GroestlSmall | GroestlBig

  /** The digest size and block size of a hasher. */
  datatype Params = Params(outputSize: nat, blockSize: nat)

  /** The arguments of a variable family: its block size, the bound its
      digest size must exceed and the bound it may reach. */
  datatype SizeBounds = SizeBounds(blockSize: nat, above: nat, upTo: nat)

  /** Raised when a variable family is asked for a size it does not accept. */
  datatype InvalidOutputSize = InvalidOutputSize

  /** The documented overall digest range. */
  const MinDigestSize: nat := 1
  const MaxDigestSize: nat := 64

  /** The digest width in bits that a fixed family is named after. */
  function NamedBits(f: FixedFamily): nat {
    match f
    case Groestl224 => 224
    case Groestl256 => 256
    case Groestl384 => 384
    case Groestl512 => 512
  }

  /** Groestl's two block sizes: 64 bytes for digests of at most 32 bytes,
      128 bytes for longer ones. */
  function BlockSizeFor(outputSize: nat): nat {
    if outputSize <= 32 then 64 else 128
  }

  /** The `impl_groestl!` invocations: digest size and block size. */
  function FixedParams(f: FixedFamily): (p: Params)
    ensures p.outputSize * 8 == NamedBits(f)
    ensures p.blockSize == BlockSizeFor(p.outputSize)
    ensures MinDigestSize <= p.outputSize <= MaxDigestSize
  {
    match f
    case Groestl512 => Params(64, 128)
    case Groestl384 => Params(48, 128)
    case Groestl256 => Params(32, 64)
    case Groestl224 => Params(28, 64)
  }

  /** The `impl_variable_groestl!` invocations. */
  function VariableBounds(v: VariableFamily): (b: SizeBounds)
    ensures b.above + 1 == DocumentedMin(v) && b.upTo == DocumentedMax(v)
    ensures BlockSizeFor(b.above + 1) == BlockSizeFor(b.upTo) == b.blockSize
  {
    match v
    case GroestlBig => SizeBounds(128, 32, 64)
    case GroestlSmall => SizeBounds(64, 0, 32)
  }

  /** The documented digest range of a variable family, both ends included. */
  function DocumentedMin(v: VariableFamily): (n: nat)
    ensures MinDigestSize <= n <= MaxDigestSize
  {
    match v
    case GroestlSmall => 1
    case GroestlBig => 33
  }

  function DocumentedMax(v: VariableFamily): (n: nat)
    ensures DocumentedMin(v) <= n <= MaxDigestSize
  {
    match v
    case GroestlSmall => 32
    case GroestlBig => 64
  }

  /** `VariableOutput::new`: a hasher of the requested digest size, or
      `InvalidOutputSize` when the size is outside the family's bounds. */
  function NewVariable(v: VariableFamily, outputSize: nat): (r: Result<Params, InvalidOutputSize>)
    ensures r.Ok? <==> DocumentedMin(v) <= outputSize <= DocumentedMax(v)
    ensures r.Ok? ==> r.value.outputSize == outputSize
    ensures r.Ok? ==> r.value.blockSize == VariableBounds(v).blockSize == BlockSizeFor(outputSize)
  {
    var b := VariableBounds(v);
    if b.above < outputSize <= b.upTo then Ok(Params(outputSize, b.blockSize))
    else Err(InvalidOutputSize)
  }

  /** Small and Big accept disjoint sizes, and together exactly the
      documented overall range. */
  lemma VariableRangesPartition(n: nat)
    ensures !(NewVariable(GroestlSmall, n).Ok? && NewVariable(GroestlBig, n).Ok?)
    ensures NewVariable(GroestlSmall, n).Ok? || NewVariable(GroestlBig, n).Ok?
            <==> MinDigestSize <= n <= MaxDigestSize
  {
  }

  /** Each end of a variable range is accepted, and one past either end
      is refused. */
  lemma RangeEnds(v: VariableFamily)
    ensures NewVariable(v, DocumentedMin(v)).Ok? && NewVariable(v, DocumentedMax(v)).Ok?
    ensures NewVariable(v, DocumentedMin(v) - 1) == Err(InvalidOutputSize)
    ensures NewVariable(v, DocumentedMax(v) + 1) == Err(InvalidOutputSize)
  {
  }

  /** Every fixed family has the parameters of the variable family whose
      range holds its digest size, asked for that size. */
  lemma FixedWithinVariable(f: FixedFamily)
    ensures var p := FixedParams(f);
            NewVariable(if p.outputSize <= 32 then GroestlSmall else GroestlBig, p.outputSize) == Ok(p)
  {
  }
}
