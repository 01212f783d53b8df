# SHA-3 / SHAKE sponge state machine and the Groestl family table

This project models two parts of a Rust collection of hash functions.

**The SHA-3 and SHAKE state machine** (`sha3/src/macros.rs`). Every SHA-3 and SHAKE variant is generated by the same macros. Each holds a Keccak permutation state and a block buffer of `rate` bytes. `absorb` (and its alias `process`) pushes input through the buffer, and every completed rate-sized block goes to `absorb_block`. `apply_padding` absorbs exactly one padded final block. A SHA-3 variant then returns the leading `OutputSize` bytes of the state (`fixed_result`). A SHAKE variant instead wraps the state and the rate in an extendable-output reader (`xof_result`). `reset` swaps a default value into the hasher and returns the old one.

The model is the class `Sha3.Sha3Hasher<S>`:
- Its real fields are the permutation state `state` and the pending bytes `buffer`.
- Its ghost fields are the message absorbed so far (`input`), the log of blocks handed to `absorb_block` (`absorbed`), and a flag `padded`.
- `padded` stands for the hasher having been consumed by `fixed_result` or `xof_result`. In Rust these take `self` by value.
- The macro parameters are one `Sha3.Variant` value: the rate, the padding rule, the permutation interface (`Default`, `absorb_block`, `as_bytes`, all passed in as function values) and the output kind (`Fixed(outputSize)` for `sha3_impl!`, `Extendable` for `shake_impl!`).
- The object invariant `Valid()` ties the fields to the absorbed message. The buffer is shorter than the rate. Before padding, the block log is the full rate-sized blocks of the message and the buffer is what follows them. After padding, the log has exactly one more block, the padding of that tail. The state is always the permutation folded over the log.

The buffer's input routine (`Buffering.BufferInput`) is written as the loop it is: complete the pending block, absorb whole blocks straight from the input, keep the rest. It is proved against the specification function `Buffering.Input`. Chunk invariance is proved both for that function and for the class's callers.

The padding rule is only assumed to succeed on a buffer shorter than the rate, and to give one rate-long block that starts with the buffer (`Sha3.PadRuleOk`). `Fips202Padding` shows that the SHA-3/SHAKE rule meets this assumption. That rule is the domain suffix followed by pad10*1, from sections 5.1, 6.1 and 6.2 and Appendix B.2 of FIPS 202.

**The Groestl family table** (`groestl/src/lib.rs`) is modelled as pure functions:
- the four fixed families with their digest and block sizes;
- the two variable families with their size bounds;
- a validating constructor that returns `InvalidOutputSize` for a size outside a family's range.

Sizes are in bytes throughout. Bytes are `bv8`.

## Model

| member | source | states |
|---|---|---|
| Buffering.BufferInput | sha3/src/macros.rs:12-15 | The buffer's input loop leaves exactly the state and pending bytes of `Input`: every full block of old buffer + data absorbed in order, the rest pending, fewer than `rate` bytes |
| Buffering.SplitCovers | sha3/src/macros.rs:12-15 | Every block cut from a message is exactly `rate` bytes, the tail is shorter than `rate`, and blocks followed by tail spell the message: each byte reaches `absorb_block` in order or stays in the buffer |
| Buffering.SplitUnique | sha3/src/macros.rs:12-15 | Any split of a message into rate-sized blocks and a short tail is the one the buffer makes |
| Buffering.BlocksAppend | sha3/src/macros.rs:12-15 | Feeding `d` then `m` cuts the blocks of `d`, then those of its tail plus `m`, which are the blocks of `d + m`; the tails agree too |
| Buffering.FoldAppend | sha3/src/macros.rs:14 | Absorbing the blocks `a + b` yields the state reached by absorbing `a` and then `b` |
| Buffering.InputChunked | sha3/src/macros.rs:12-15 | Chunk invariance: two `absorb` calls with `a` and `b` leave the same state and buffer as one call with `a + b`, from any starting state and buffer |
| Sha3.PadBlock | sha3/src/macros.rs:18-19 | The padding block of a buffer shorter than the rate is exactly `rate` bytes and begins with the buffer |
| Sha3.Digest | sha3/src/macros.rs:44-53 | The digest of a message is exactly `OutputSize` bytes and is a prefix of `as_bytes` of the post-padding state |
| Sha3.Sha3Hasher.constructor | sha3/src/macros.rs:5-9 | `Default`: initial permutation state, empty buffer, nothing absorbed |
| Sha3.Sha3Hasher.Absorb | sha3/src/macros.rs:12-15 | The message grows by `data`; the blocks of old buffer + `data` are appended to the log in order; state and buffer are `Input` of the old ones; the log is rate-sized blocks that, with the buffer, spell the whole message; the buffer stays below the rate |
| Sha3.Sha3Hasher.Process | sha3/src/macros.rs:36-38 | Has exactly the effect `Absorb` has (the same two-state predicate), for the SHA-3 variants and equally for the SHAKE variants (lines 74-76) |
| Sha3.Sha3Hasher.ApplyPadding | sha3/src/macros.rs:17-21 | Appends exactly one block to the log, the padding of the old buffer, which is `rate` long and starts with the buffer; the state absorbs it; the buffer empties; the padding rule cannot fail since the buffer is never full |
| Sha3.Sha3Hasher.FixedResult | sha3/src/macros.rs:44-53 | Pads once, then returns exactly `OutputSize` bytes, the first bytes of `as_bytes` of the post-padding state, which is the `Digest` of everything absorbed |
| Sha3.Sha3Hasher.XofResult | sha3/src/macros.rs:82-87 | Pads once, then returns a reader holding the post-padding state (the fold of all blocks and the padding block) and the variant's rate |
| Sha3.Sha3Hasher.Reset | sha3/src/macros.rs:56-61 | Swap: the returned value is a fresh object with the old state, buffer and logs; `this` becomes the default value (same code in `shake_impl!`, lines 90-95) |
| Sha3.HashWhole | sha3/src/macros.rs:36-53 | A fresh hasher given `m` in one `process` call finalizes to `Digest(m)` |
| Sha3.HashSplit | sha3/src/macros.rs:36-53 | A fresh hasher given `a` and then `b` finalizes to `Digest(a + b)` |
| Sha3.ChunkedDigest | sha3/src/macros.rs:12-15 | The digest of a message fed in two calls equals the digest of it fed in one, and has `OutputSize` bytes |
| Sha3.EmptyMessageDigest | sha3/src/macros.rs:44-53 | On empty input, finalizing absorbs exactly one block, the padding of the empty buffer, and returns a full `OutputSize`-byte digest |
| Sha3.OneBlockMessage | sha3/src/macros.rs:12-21 | A message of exactly `rate` bytes reaches `absorb_block` as one block during absorption, and finalizing adds exactly one padding block |
| Sha3.ResetIndependence | sha3/src/macros.rs:56-61 | After `reset`, the hasher digests later input as a new hasher would, and the returned value still digests what was absorbed before |
| Fips202Padding.Pad10Star1 | sha3/src/macros.rs:18 | The SHA-3/SHAKE padding succeeds exactly when the buffer is not full; the block is `rate` bytes: the buffer, the suffix byte, zeros, and a last byte with its top bit set |
| Fips202Padding.Pad10Star1Ok | sha3/src/macros.rs:18-19 | That padding rule meets the assumption the state machine makes of its padding rule |
| Fips202Padding.Sha3Variant | sha3/src/macros.rs:26-29 | A `sha3_impl!` variant with a positive rate and an output no wider than the state is well formed |
| Fips202Padding.ShakeVariant | sha3/src/macros.rs:69-71 | A `shake_impl!` variant with a positive rate is well formed |
| Groestl.FixedParams | groestl/src/lib.rs:45-48 | Each fixed family's digest is its named bit width over 8 (28, 32, 48, 64 bytes); the block size is 64 for digests of at most 32 bytes and 128 otherwise; each size lies in 1..64 |
| Groestl.VariableBounds | groestl/src/lib.rs:50-51 | The `impl_variable_groestl!` arguments (block 128, bounds 32 and 64 for Big; block 64, bounds 0 and 32 for Small): one past the lower bound is the documented minimum, the upper bound is the documented maximum, and the block size is the one the 64/128 rule gives at both ends |
| Groestl.DocumentedMin | groestl/src/lib.rs:10-12 | The smallest documented digest size of a variable family (1 for Small, 33 for Big) lies in the overall range 1..64 |
| Groestl.DocumentedMax | groestl/src/lib.rs:10-12 | The largest documented digest size of a variable family (32 for Small, 64 for Big) is at least its minimum and at most 64 |
| Groestl.NewVariable | groestl/src/lib.rs:50-51 | Succeeds exactly on the documented range (1..32 for Small, 33..64 for Big) and otherwise yields `InvalidOutputSize` and no instance; a result has the requested size and the family's block size, which matches the 64/128 rule |
| Groestl.VariableRangesPartition | groestl/src/lib.rs:7-12 | No size is accepted by both Small and Big, and a size is accepted by one of them exactly when it is in 1..64 |
| Groestl.RangeEnds | groestl/src/lib.rs:10-12 | Both ends of each variable range are accepted, and one below the lower end or above the upper end is refused |
| Groestl.FixedWithinVariable | groestl/src/lib.rs:45-51 | Every fixed family has the parameters the variable family covering its size returns for that size |

## Left out

- The Keccak-f permutation, the layout of `Sha3State` and the byte order of `as_bytes` are not modelled. The model takes them as function values in `Sha3.Keccak`. It assumes only that `as_bytes` is at least `OutputSize` bytes long for fixed variants, which is what `&state[..n]` needs.
- Sha3.Sha3Hasher.XofResult: the reader's squeezing (`Sha3XofReader`) is not modelled. Only its construction from the state and the rate is modelled.
- The concrete rates, output sizes and padding types of each variant are chosen in `sha3/src/lib.rs`, which is not part of this model. They are parameters here.
- `Fips202Padding` follows FIPS 202. The crate's own padding file is not part of this model.
- The block buffer is modelled as the sequence of pending bytes, not as a fixed-size array with a position index. Its copying into and out of that array is therefore not modelled.
- `input_lazy` is never used, so the error that `pad_with` could return is modelled only as the `None` of the padding rule, which `ApplyPadding` shows cannot occur.
- Consuming `self` in `fixed_result` and `xof_result` is modelled by the ghost flag `padded`. Absorbing and finalizing require it to be false. Rust enforces this through ownership.
- Groestl.NewVariable: the body of `impl_variable_groestl!` is not part of this model. Its arguments `0, 32` and `32, 64` are read as an exclusive lower and an inclusive upper bound, which gives the documented ranges 1..32 and 33..64.
- The Groestl compression function and its `groestl`, `state`, `matrix` and `consts` modules are not modelled, and neither is the body of `impl_groestl!`.
- `impl_opaque_debug!` and `impl_write!` are not modelled: they are debug formatting and `std::io::Write` glue.
- The `BlockInput`, `Input`, `Digest`, `FixedOutput`, `VariableOutput` and `Reset` trait plumbing and the type-level sizes are not modelled. Sizes are plain numbers.
- The padded block is taken from the buffer and absorbed directly. It does not go back through the buffer's input routine; `ApplyPadding` models exactly that.
- `reset` takes `&mut self`, so it can only be called on a hasher that has not been consumed by `fixed_result` or `xof_result`. `Sha3.Sha3Hasher.Reset` therefore requires `padded` to be false.
