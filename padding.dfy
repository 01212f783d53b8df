/** The padding rule of the SHA-3 and SHAKE variants: the domain
    separation suffix followed by pad10*1 (FIPS 202, sections 5.1 and 6.1
    to 6.2, with the byte layout of Appendix B.2). The state machine
    assumes only `Sha3.PadRuleOk` of its rule; this module shows that
    this rule meets it, and builds variants on it. */
module Fips202Padding {
  import opened Wrappers
  import opened Buffering
  import Sha3

  /** The suffix byte of SHA3-224 to SHA3-512: bits 01, then the first
      bit of pad10*1. */
  const Sha3Suffix: Byte := 0x06
  /** The suffix byte of SHAKE128 and SHAKE256: bits 1111, then the first
      bit of pad10*1. */
  const ShakeSuffix: Byte := 0x1F

  /** Pads `buf` to one `rate`-byte block: the suffix byte right after the
      buffer, zeros, and the final bit set in the last byte. Fails when the
      buffer already holds a full block. */
  function Pad10Star1(suffix: Byte, buf: seq<Byte>, rate: nat): (r: Option<seq<Byte>>)
    ensures r.Some? <==> |buf| < rate
    ensures r.Some? ==> |r.value| == rate && r.value[..|buf|] == buf
    ensures r.Some? && |buf| + 1 < rate ==>
              && r.value[|buf|] == suffix
              && (forall i :: |buf| < i < rate - 1 ==> r.value[i] == 0)
              && r.value[rate - 1] == 0x80
    ensures r.Some? && |buf| + 1 == rate ==> r.value[|buf|] == suffix | 0x80
  {
    if |buf| >= rate then None
    else
      var block := buf + [suffix] + seq(rate - |buf| - 1, _ => 0 as Byte);
      Some(block[rate - 1 := block[rate - 1] | 0x80])
  }

  lemma Pad10Star1Ok(suffix: Byte)
    ensures Sha3.PadRuleOk((buf: seq<Byte>, rate: nat) => Pad10Star1(suffix, buf, rate))
  {
    forall buf: seq<Byte>, rate: nat | |buf| < rate
      ensures Pad10Star1(suffix, buf, rate).Some?
    {
    }
  }

  /** A fixed-output variant as `sha3_impl!` builds it. */
  function Sha3Variant<S(!new)>(keccak: Sha3.Keccak<S>, rate: nat, outputSize: nat): (v: Sha3.Variant<S>)
    requires rate > 0
    requires forall s: S :: outputSize <= |keccak.asBytes(s)|
    ensures Sha3.VariantOk(v) && v.kind == Sha3.Fixed(outputSize) && v.rate == rate
  {
    Pad10Star1Ok(Sha3Suffix);
    Sha3.Variant(rate, (buf: seq<Byte>, r: nat) => Pad10Star1(Sha3Suffix, buf, r), keccak, Sha3.Fixed(outputSize))
  }

  /** An extendable-output variant as `shake_impl!` builds it. */
  function ShakeVariant<S(!new)>(keccak: Sha3.Keccak<S>, rate: nat): (v: Sha3.Variant<S>)
    requires rate > 0
    ensures Sha3.VariantOk(v) && v.kind == Sha3.Extendable && v.rate == rate
  {
    Pad10Star1Ok(ShakeSuffix);
    Sha3.Variant(rate, (buf: seq<Byte>, r: nat) => Pad10Star1(ShakeSuffix, buf, r), keccak, Sha3.Extendable)
  }
}
