/** The block buffer that sits in front of the permutation: input bytes are
    cut into rate-sized blocks, each full block is handed to the block
    function in input order, and at most `rate - 1` bytes stay pending. */
module Buffering {

  type Byte = bv8

  /** The full rate-sized blocks of `data`, in order; a trailing partial
      block is not included. */
  function Blocks(data: seq<Byte>, rate: nat): seq<seq<Byte>>
    requires rate > 0
    decreases |data|
  {
    if |data| < rate then [] else [data[..rate]] + Blocks(data[rate..], rate)
  }

  /** The bytes of `data` after its last full block. */
  function Tail(data: seq<Byte>, rate: nat): seq<Byte>
    requires rate > 0
    decreases |data|
  {
    if |data| < rate then data else Tail(data[rate..], rate)
  }

  /** The concatenation of a sequence of blocks. */
  function Flatten(blocks: seq<seq<Byte>>): seq<Byte>
    decreases |blocks|
  {
    if blocks == [] then [] else blocks[0] + Flatten(blocks[1..])
  }

  ghost predicate AllRateSized(blocks: seq<seq<Byte>>, rate: nat) {
    forall i :: 0 <= i < |blocks| ==> |blocks[i]| == rate
  }

  /** The state reached by handing `blocks` to `absorbBlock` one after the
      other, first block first, starting from `s`. */
  function Fold<S>(absorbBlock: (S, seq<Byte>) -> S, s: S, blocks: seq<seq<Byte>>): S
    decreases |blocks|
  {
    if blocks == [] then s
    else absorbBlock(Fold(absorbBlock, s, blocks[..|blocks| - 1]), blocks[|blocks| - 1])
  }

  /** A buffer state: the permutation state and the pending bytes. */
  datatype Buffered<S> = Buffered(state: S, pending: seq<Byte>)

  /** What one call of the buffer's input routine does to (state, pending
      bytes): every full block of `pending + data` is absorbed, the rest
      stays pending. */
  function Input<S>(absorbBlock: (S, seq<Byte>) -> S, rate: nat, st: S, pending: seq<Byte>, data: seq<Byte>): Buffered<S>
    requires rate > 0
  {
    Buffered(Fold(absorbBlock, st, Blocks(pending + data, rate)), Tail(pending + data, rate))
  }

  lemma FlattenCons(b: seq<Byte>, bs: seq<seq<Byte>>)
    ensures Flatten([b] + bs) == b + Flatten(bs)
  {
    assert ([b] + bs)[0] == b;
    assert ([b] + bs)[1..] == bs;
  }

  lemma AppendAssoc(a: seq<Byte>, b: seq<Byte>, c: seq<Byte>)
    ensures (a + b) + c == a + (b + c)
  {
  }

  lemma AllRateSizedAppend(a: seq<seq<Byte>>, b: seq<seq<Byte>>, rate: nat)
    requires AllRateSized(a, rate) && AllRateSized(b, rate)
    ensures AllRateSized(a + b, rate)
  {
    forall i | 0 <= i < |a + b| ensures |(a + b)[i]| == rate {
      if i >= |a| { assert (a + b)[i] == b[i - |a|]; }
    }
  }

  /** Every block the buffer cuts is exactly `rate` bytes, and what stays
      pending is shorter than a block. */
  lemma {:induction false} SplitSizes(data: seq<Byte>, rate: nat)
    requires rate > 0
    ensures AllRateSized(Blocks(data, rate), rate)
    ensures |Tail(data, rate)| < rate
    decreases |data|
  {
    if |data| >= rate {
      var head, rest := data[..rate], data[rate..];
      SplitSizes(rest, rate);
      assert Blocks(data, rate) == [head] + Blocks(rest, rate);
      AllRateSizedAppend([head], Blocks(rest, rate), rate);
    }
  }

  /** The blocks followed by the tail spell `data` again. */
  lemma {:induction false} SplitSpells(data: seq<Byte>, rate: nat)
    requires rate > 0
    ensures Flatten(Blocks(data, rate)) + Tail(data, rate) == data
    decreases |data|
  {
    if |data| >= rate {
      var head, rest := data[..rate], data[rate..];
      SplitSpells(rest, rate);
      var bs, t := Blocks(rest, rate), Tail(rest, rate);
      assert Blocks(data, rate) == [head] + bs;
      assert Tail(data, rate) == t;
      FlattenCons(head, bs);
      var f := Flatten(bs);
      AppendAssoc(head, f, t);
      assert head + rest == data;
    }
  }

  /** Every byte of `data` is either in a full block, in order, or in the
      tail, and the tail is shorter than a block. */
  lemma SplitCovers(data: seq<Byte>, rate: nat)
    requires rate > 0
    ensures AllRateSized(Blocks(data, rate), rate)
    ensures |Tail(data, rate)| < rate
    ensures Flatten(Blocks(data, rate)) + Tail(data, rate) == data
  {
    SplitSizes(data, rate);
    SplitSpells(data, rate);
  }

  /** The split into full blocks and a short tail is the only one:
      any rate-sized blocks followed by a short tail that spell `data`
      are `Blocks(data)` and `Tail(data)`. */
  lemma {:induction false} SplitUnique(blocks: seq<seq<Byte>>, tail: seq<Byte>, data: seq<Byte>, rate: nat)
    requires rate > 0
    requires AllRateSized(blocks, rate) && |tail| < rate
    requires Flatten(blocks) + tail == data
    ensures blocks == Blocks(data, rate) && tail == Tail(data, rate)
    decreases |blocks|
  {
    if blocks != [] {
      var rest := Flatten(blocks[1..]) + tail;
      assert data == blocks[0] + rest;
      assert data[..rate] == blocks[0];
      assert data[rate..] == rest;
      SplitUnique(blocks[1..], tail, rest, rate);
      assert blocks == [blocks[0]] + blocks[1..];
    }
  }

  lemma {:induction false} FlattenAppend(a: seq<seq<Byte>>, b: seq<seq<Byte>>)
    ensures Flatten(a + b) == Flatten(a) + Flatten(b)
    decreases |a|
  {
    if a == [] {
      assert a + b == b;
    } else {
      assert (a + b)[0] == a[0];
      assert (a + b)[1..] == a[1..] + b;
      FlattenAppend(a[1..], b);
    }
  }

  /** Feeding `data` and then `more` cuts the same blocks as feeding
      `data + more`: the blocks of `data`, then those of its tail followed
      by `more`. */
  lemma {:induction false} BlocksAppend(data: seq<Byte>, more: seq<Byte>, rate: nat)
    requires rate > 0
    ensures Blocks(data + more, rate) == Blocks(data, rate) + Blocks(Tail(data, rate) + more, rate)
    ensures Tail(data + more, rate) == Tail(Tail(data, rate) + more, rate)
  {
    var b1, t := Blocks(data, rate), Tail(data, rate);
    var b2, t2 := Blocks(t + more, rate), Tail(t + more, rate);
    SplitCovers(data, rate);
    SplitCovers(t + more, rate);
    AllRateSizedAppend(b1, b2, rate);
    FlattenAppend(b1, b2);
    var f1, f2 := Flatten(b1), Flatten(b2);
    AppendAssoc(f1, f2, t2);
    AppendAssoc(f1, t, more);
    SplitUnique(b1 + b2, t2, data + more, rate);
  }

  /** Absorbing `a + b` is absorbing `a`, then `b`. */
  lemma {:induction false} FoldAppend<S>(absorbBlock: (S, seq<Byte>) -> S, s: S, a: seq<seq<Byte>>, b: seq<seq<Byte>>)
    ensures Fold(absorbBlock, s, a + b) == Fold(absorbBlock, Fold(absorbBlock, s, a), b)
    decreases |b|
  {
    if b == [] {
      assert a + b == a;
    } else {
      var b' := b[..|b| - 1];
      assert (a + b)[..|a + b| - 1] == a + b';
      FoldAppend(absorbBlock, s, a, b');
    }
  }

  /** Chunk invariance: two input calls with `a` and then `b` leave the
      same state and pending bytes as one call with `a + b`. */
  lemma {:induction false} InputChunked<S>(absorbBlock: (S, seq<Byte>) -> S, rate: nat, st: S, pending: seq<Byte>, a: seq<Byte>, b: seq<Byte>)
    requires rate > 0
    ensures var mid := Input(absorbBlock, rate, st, pending, a);
            Input(absorbBlock, rate, mid.state, mid.pending, b) == Input(absorbBlock, rate, st, pending, a + b)
  {
    var d := pending + a;
    assert pending + (a + b) == d + b;
    BlocksAppend(d, b, rate);
    FoldAppend(absorbBlock, st, Blocks(d, rate), Blocks(Tail(d, rate) + b, rate));
  }

  /** The buffer's input routine: complete the pending block if `data`
      has enough bytes, absorb every further full block straight from
      `data`, and keep the rest pending. */
  method BufferInput<S>(absorbBlock: (S, seq<Byte>) -> S, rate: nat, st: S, pending: seq<Byte>, data: seq<Byte>)
    returns (st': S, pending': seq<Byte>)
    requires rate > 0 && |pending| < rate
    ensures Buffered(st', pending') == Input(absorbBlock, rate, st, pending, data)
    ensures |pending'| < rate
  {
    ghost var all := pending + data;
    ghost var done: seq<seq<Byte>> := [];
    var rest := data;
    st', pending' := st, pending;
    if |pending| != 0 && |data| >= rate - |pending| {
      var k := rate - |pending|;
      var block := pending + data[..k];
      st' := absorbBlock(st', block);
      rest := data[k..];
      pending' := [];
      assert all[..rate] == block && all[rate..] == rest;
      assert Blocks(all, rate) == [block] + Blocks(rest, rate);
      assert Tail(all, rate) == Tail(rest, rate);
      assert pending' + rest == rest;
      done := [block];
      assert Fold(absorbBlock, st, done) == st' by {
        assert done[..0] == [];
      }
    }
    assert pending' == [] || pending' + rest == all;
    while |rest| >= rate
      invariant pending' == [] || |pending' + rest| < rate
      invariant Blocks(all, rate) == done + Blocks(pending' + rest, rate)
      invariant Tail(all, rate) == Tail(pending' + rest, rate)
      invariant st' == Fold(absorbBlock, st, done)
      decreases |rest|
    {
      assert pending' + rest == rest;
      var block := rest[..rate];
      assert Blocks(rest, rate) == [block] + Blocks(rest[rate..], rate);
      assert Tail(rest, rate) == Tail(rest[rate..], rate);
      st' := absorbBlock(st', block);
      rest := rest[rate..];
      assert pending' + rest == rest;
      assert (done + [block])[..|done|] == done;
      done := done + [block];
    }
    assert |pending' + rest| < rate;
    assert Blocks(pending' + rest, rate) == [];
    assert done + [] == done;
    pending' := pending' + rest;
  }
}
