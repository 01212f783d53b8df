/** The state machine shared by every SHA-3 and SHAKE variant: a Keccak
    state and a block buffer of `rate` bytes; `Absorb` pushes input through
    the buffer, `ApplyPadding` absorbs one padded final block, and the
    variant then either reads a fixed-size digest from the state or hands
    the state to an extendable-output reader. */
module Sha3 {
  import opened Wrappers
  import opened Buffering

  /** The parts of the Keccak permutation state the machine relies on:
      its default value, `absorb_block` and `as_bytes`. Their internals
      are not modelled. */
  datatype Keccak<!S> = Keccak(init: S, absorbBlock: (S, seq<Byte>) -> S, asBytes: S -> seq<Byte>)

  /** A SHA-3 variant yields a fixed-size digest; a SHAKE variant yields
      an extendable-output reader. */
  datatype OutputKind = Fixed(outputSize: nat) | Extendable

  /** What one macro invocation fixes: the rate in bytes, the padding
      rule, the permutation, and the output kind. The padding rule maps
      the pending bytes and the rate to the final block, or to `None`
      when the buffer is full. */
  datatype Variant<!S> = Variant(rate: nat, pad: (seq<Byte>, nat) -> Option<seq<Byte>>, keccak: Keccak<S>, kind: OutputKind)

  /** The only facts assumed of a padding rule: on a buffer shorter than
      the rate it succeeds with one full block that starts with the
      buffer. */
  ghost predicate PadRuleOk(pad: (seq<Byte>, nat) -> Option<seq<Byte>>) {
    forall buf: seq<Byte>, rate: nat ::
      |buf| < rate ==>
        pad(buf, rate).Some? && |pad(buf, rate).value| == rate && pad(buf, rate).value[..|buf|] == buf
  }

  ghost predicate VariantOk<S(!new)>(v: Variant<S>) {
    && v.rate > 0
    && PadRuleOk(v.pad)
    && (v.kind.Fixed? ==> forall s: S :: v.kind.outputSize <= |v.keccak.asBytes(s)|)
  }

  /** The final block absorbed by the padding step for pending bytes `buf`. */
  function PadBlock<S(!new)>(v: Variant<S>, buf: seq<Byte>): (block: seq<Byte>)
    requires VariantOk(v) && |buf| < v.rate
    ensures |block| == v.rate && block[..|buf|] == buf
  {
    v.pad(buf, v.rate).value
  }

  /** Every block the permutation receives for the message `input`: its
      full blocks in order, then exactly one padding block. */
  function FinalBlocks<S(!new)>(v: Variant<S>, input: seq<Byte>): (blocks: seq<seq<Byte>>)
    requires VariantOk(v)
  {
    SplitCovers(input, v.rate);
    Blocks(input, v.rate) + [PadBlock(v, Tail(input, v.rate))]
  }

  /** The permutation state once `input` has been absorbed and padded. */
  function FinalState<S(!new)>(v: Variant<S>, input: seq<Byte>): S
    requires VariantOk(v)
  {
    Fold(v.keccak.absorbBlock, v.keccak.init, FinalBlocks(v, input))
  }

  /** The digest of `input` for a fixed-output variant: exactly
      `outputSize` bytes, the leading bytes of the final state. */
  function Digest<S(!new)>(v: Variant<S>, input: seq<Byte>): (d: seq<Byte>)
    requires VariantOk(v) && v.kind.Fixed?
    ensures |d| == v.kind.outputSize
    ensures d <= v.keccak.asBytes(FinalState(v, input))
  {
    v.keccak.asBytes(FinalState(v, input))[..v.kind.outputSize]
  }

  /** The reader built by `xof_result`: a copy of the post-padding state
      and the variant's rate. Squeezing is not modelled. */
  datatype XofReader<S> = XofReader(state: S, rate: nat)

  class Sha3Hasher<S(!new)> {
    const variant: Variant<S>
    var state: S
    var buffer: seq<Byte>
    /** Every byte absorbed so far, in order. */
    ghost var input: seq<Byte>
    /** Every block handed to `absorb_block` so far, in order. */
    ghost var absorbed: seq<seq<Byte>>
    /** Whether the padding block has been absorbed; once it has, the
        value has been consumed by `fixed_result` or `xof_result`. */
    ghost var padded: bool

    ghost predicate Valid()
      reads this
    {
      && VariantOk(variant)
      && |buffer| < variant.rate
      && (if padded then
            absorbed == FinalBlocks(variant, input) && buffer == []
          else
            absorbed == Blocks(input, variant.rate) && buffer == Tail(input, variant.rate))
      && state == Fold(variant.keccak.absorbBlock, variant.keccak.init, absorbed)
    }

    /** `Default`: the initial permutation state and an empty buffer. */
    constructor (variant: Variant<S>)
      requires VariantOk(variant)
      ensures Valid() && this.variant == variant
      ensures state == variant.keccak.init && buffer == []
      ensures input == [] && absorbed == [] && !padded
    {
      this.variant := variant;
      state := variant.keccak.init;
      buffer := [];
      input := [];
      absorbed := [];
      padded := false;
    }

    /** The effect of absorbing `data`: the full blocks of the old buffer
        followed by `data` reach the permutation in order, and the rest is
        the new buffer. */
    twostate predicate AbsorbedData(data: seq<Byte>)
      reads this
    {
      && variant.rate > 0
      && input == old(input) + data
      && absorbed == old(absorbed) + Blocks(old(buffer) + data, variant.rate)
      && Buffered(state, buffer)
         == Input(variant.keccak.absorbBlock, variant.rate, old(state), old(buffer), data)
      && AllRateSized(absorbed, variant.rate)
      && Flatten(absorbed) + buffer == input
      && !padded
    }

    method Absorb(data: seq<Byte>)
      requires Valid() && !padded
      modifies this
      ensures Valid() && AbsorbedData(data)
    {
      ghost var newBlocks := Blocks(buffer + data, variant.rate);
      state, buffer := BufferInput(variant.keccak.absorbBlock, variant.rate, state, buffer, data);
      BlocksAppend(input, data, variant.rate);
      FoldAppend(variant.keccak.absorbBlock, variant.keccak.init, absorbed, newBlocks);
      absorbed := absorbed + newBlocks;
      input := input + data;
      SplitCovers(input, variant.rate);
    }

    /** `Input::process` of both the SHA-3 and the SHAKE variants. */
    method Process(data: seq<Byte>)
      requires Valid() && !padded
      modifies this
      ensures Valid() && AbsorbedData(data)
    {
      Absorb(data);
    }

    /** Absorbs exactly one more block: the padding of the pending bytes,
        a full block that starts with them. The padding rule cannot fail
        here because the buffer never holds a full block. */
    method ApplyPadding()
      requires Valid() && !padded
      modifies this
      ensures Valid() && padded
      ensures input == old(input) && buffer == []
      ensures |PadBlock(variant, old(buffer))| == variant.rate
      ensures PadBlock(variant, old(buffer))[..|old(buffer)|] == old(buffer)
      ensures absorbed == old(absorbed) + [PadBlock(variant, old(buffer))]
      ensures state == variant.keccak.absorbBlock(old(state), PadBlock(variant, old(buffer)))
    {
      var r := variant.pad(buffer, variant.rate);
      assert r.Some?;
      var block := r.value;
      buffer := [];
      state := variant.keccak.absorbBlock(state, block);
      assert (absorbed + [block])[..|absorbed|] == absorbed;
      absorbed := absorbed + [block];
      padded := true;
    }

    /** `fixed_result`: pads, then returns the leading `outputSize` bytes
        of the permutation state. */
    method FixedResult() returns (out: seq<Byte>)
      requires Valid() && !padded && variant.kind.Fixed?
      modifies this
      ensures Valid() && padded && input == old(input)
      ensures absorbed == old(absorbed) + [PadBlock(variant, old(buffer))]
      ensures |out| == variant.kind.outputSize
      ensures out == variant.keccak.asBytes(state)[..variant.kind.outputSize]
      ensures out == Digest(variant, input)
    {
      ApplyPadding();
      var n := variant.kind.outputSize;
      var bytes := variant.keccak.asBytes(state);
      out := bytes[..n];
    }

    /** `xof_result`: pads, then wraps the state and the rate in a reader. */
    method XofResult() returns (reader: XofReader<S>)
      requires Valid() && !padded && variant.kind.Extendable?
      modifies this
      ensures Valid() && padded && input == old(input)
      ensures absorbed == old(absorbed) + [PadBlock(variant, old(buffer))]
      ensures reader == XofReader(state, variant.rate)
      ensures reader.state == FinalState(variant, input)
    {
      ApplyPadding();
      var r := variant.rate;
      reader := XofReader(state, r);
    }

    /** `reset`: swaps a default value into `this` and returns the value
        `this` had before. */
    method Reset() returns (prior: Sha3Hasher<S>)
      requires Valid() && !padded
      modifies this
      ensures fresh(prior) && prior.Valid() && prior.variant == variant
      ensures prior.state == old(state) && prior.buffer == old(buffer)
      ensures prior.input == old(input) && prior.absorbed == old(absorbed) && !prior.padded
      ensures Valid()
      ensures state == variant.keccak.init && buffer == []
      ensures input == [] && absorbed == [] && !padded
    {
      var temp := new Sha3Hasher(variant);
      var s, b := state, buffer;
      ghost var i, a, p := input, absorbed, padded;
      state, buffer := temp.state, temp.buffer;
      input, absorbed, padded := temp.input, temp.absorbed, temp.padded;
      temp.state, temp.buffer := s, b;
      temp.input, temp.absorbed, temp.padded := i, a, p;
      prior := temp;
    }
  }

  /** Hashes a message given as one `process` call. */
  method HashWhole<S(!new)>(v: Variant<S>, m: seq<Byte>) returns (digest: seq<Byte>)
    requires VariantOk(v) && v.kind.Fixed?
    ensures digest == Digest(v, m)
  {
    var h := new Sha3Hasher(v);
    h.Process(m);
    assert h.input == m;
    digest := h.FixedResult();
  }

  /** Hashes a message given as two `process` calls. */
  method HashSplit<S(!new)>(v: Variant<S>, a: seq<Byte>, b: seq<Byte>) returns (digest: seq<Byte>)
    requires VariantOk(v) && v.kind.Fixed?
    ensures digest == Digest(v, a + b)
  {
    var h := new Sha3Hasher(v);
    h.Process(a);
    assert h.input == a;
    h.Process(b);
    assert h.input == a + b;
    digest := h.FixedResult();
  }

  /** Chunk invariance from the caller's side: a message fed in two
      `process` calls has the same digest as the message fed in one. */
  method ChunkedDigest<S(!new)>(v: Variant<S>, a: seq<Byte>, b: seq<Byte>) returns (split: seq<Byte>, whole: seq<Byte>)
    requires VariantOk(v) && v.kind.Fixed?
    ensures split == whole
    ensures |split| == v.kind.outputSize
  {
    split := HashSplit(v, a, b);
    whole := HashWhole(v, a + b);
  }

  /** The empty message: finalizing still absorbs exactly one block, the
      padding of the empty buffer, and yields a full-width digest. */
  method EmptyMessageDigest<S(!new)>(v: Variant<S>) returns (digest: seq<Byte>, ghost log: seq<seq<Byte>>)
    requires VariantOk(v) && v.kind.Fixed?
    ensures log == [PadBlock(v, [])]
    ensures |digest| == v.kind.outputSize
    ensures digest == v.keccak.asBytes(v.keccak.absorbBlock(v.keccak.init, PadBlock(v, [])))[..v.kind.outputSize]
  {
    var h := new Sha3Hasher(v);
    digest := h.FixedResult();
    log := h.absorbed;
  }

  /** A message of exactly one block: absorbing it hands that block to
      the permutation, and finalizing adds one padding block. */
  method OneBlockMessage<S(!new)>(v: Variant<S>, data: seq<Byte>) returns (ghost duringAbsorb: seq<seq<Byte>>, ghost total: seq<seq<Byte>>, digest: seq<Byte>)
    requires VariantOk(v) && v.kind.Fixed? && |data| == v.rate
    ensures duringAbsorb == [data]
    ensures total == [data, PadBlock(v, [])]
    ensures digest == Digest(v, data)
  {
    var h := new Sha3Hasher(v);
    h.Process(data);
    assert [] + data == data;
    assert data[v.rate..] == [];
    assert data[..v.rate] == data;
    assert Blocks(data, v.rate) == [data] + Blocks([], v.rate);
    duringAbsorb := h.absorbed;
    digest := h.FixedResult();
    total := h.absorbed;
  }

  /** A hasher that is reset behaves like a new one: the same later
      input yields the same digest. The value returned by `reset` still
      yields the digest of what had been absorbed before. */
  method ResetIndependence<S(!new)>(v: Variant<S>, before: seq<Byte>, after: seq<Byte>) returns (fromReset: seq<Byte>, fromNew: seq<Byte>, fromPrior: seq<Byte>)
    requires VariantOk(v) && v.kind.Fixed?
    ensures fromReset == fromNew == Digest(v, after)
    ensures fromPrior == Digest(v, before)
  {
    var h := new Sha3Hasher(v);
    h.Process(before);
    assert h.input == before;
    var prior := h.Reset();
    h.Process(after);
    assert h.input == after;
    fromReset := h.FixedResult();
    fromNew := HashWhole(v, after);
    fromPrior := prior.FixedResult();
  }
}
