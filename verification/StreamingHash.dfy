/**
 SHA-256 and MD5 fed a piece at a time: whatever the pieces, the block function ends up folded over
 the padded whole. Models src/codec/sha256.c and src/codec/md5.c around their block functions, which
 stay uninterpreted.
 */
module StreamingHash {
  import opened Base

  const BLOCK := 64
  const COUNTER := 0x1_0000_0000_0000_0000

  // ---- what a hash is --------------------------------------------------------------------

  /** The block function, applied to `blocks` blocks in turn. */
  function Fold<S>(compress: (S, seq<byte>) -> S, init: S, message: seq<byte>, blocks: nat): S
    requires |message| == BLOCK * blocks
  {
    if blocks == 0 then init
    else
      var cut := BLOCK * (blocks - 1);
      compress(Fold(compress, init, message[..cut], blocks - 1), message[cut..])
  }

  function Little(value: nat, n: nat): (s: seq<byte>)
    ensures |s| == n
  {
    if n == 0 then [] else [value % 256] + Little(value / 256, n - 1)
  }

  function Big(value: nat, n: nat): (s: seq<byte>)
    ensures |s| == n
  {
    if n == 0 then [] else Big(value / 256, n - 1) + [value % 256]
  }

  function FromLittle(s: seq<byte>): nat {
    if s == [] then 0 else (s[0] as int) + 256 * FromLittle(s[1..])
  }

  function FromBig(s: seq<byte>): nat {
    if s == [] then 0 else 256 * FromBig(s[..|s| - 1]) + (s[|s| - 1] as int)
  }

  function Power256(n: nat): nat {
    if n == 0 then 1 else 256 * Power256(n - 1)
  }

  /** The length field means the length, in either byte order. */
  lemma {:induction false} LengthRoundTrip(value: nat, n: nat)
    requires value < Power256(n)
    ensures FromLittle(Little(value, n)) == value && FromBig(Big(value, n)) == value
    decreases n
  {
    if n > 0 {
      LengthRoundTrip(value / 256, n - 1);
      var little, big := Little(value / 256, n - 1), Big(value / 256, n - 1);
      assert ([value % 256] + little)[1..] == little;
      assert (big + [value % 256])[..n - 1] == big;
    }
  }

  /** How many zeros bring a message and its end mark to the length field. */
  function Zeros(length: nat): (n: nat)
    ensures n < BLOCK && (length + 1 + n) % BLOCK == 56
  {
    (55 - length) % BLOCK
  }

  /** It is the smallest number of zeros that will do. */
  lemma ZerosLeast(length: nat, n: nat)
    requires (length + 1 + n) % BLOCK == 56
    ensures n >= Zeros(length)
  {
  }

  function Zeroed(n: nat): (s: seq<byte>)
    ensures |s| == n && forall i :: 0 <= i < n ==> s[i] == 0
  {
    seq(n, _ => 0)
  }

  /** The end mark, the zeros and the length: section 5.1.1 of FIPS 180-4, sections 3.1 and 3.2 of RFC 1321. */
  function Padded(message: seq<byte>, length: seq<byte>): (s: seq<byte>)
    requires |length| == 8
    ensures |s| % BLOCK == 0
  {
    message + [0x80] + Zeroed(Zeros(|message|)) + length
  }

  /** The number of bits in a message, as a 64-bit counter holds it. */
  function Bits(message: seq<byte>): (n: nat)
    ensures n < COUNTER
    ensures |message| < 0x2000_0000_0000_0000 ==> n == 8 * |message|
  {
    8 * |message| % COUNTER
  }

  function ShaPadded(message: seq<byte>): (s: seq<byte>)
    ensures |s| % BLOCK == 0
  {
    Padded(message, Big(Bits(message), 8))
  }

  function Md5Padded(message: seq<byte>): (s: seq<byte>)
    ensures |s| % BLOCK == 0
  {
    Padded(message, Little(Bits(message), 8))
  }

  /** A hash in one go. */
  function Hash<S>(compress: (S, seq<byte>) -> S, init: S, padded: seq<byte>): S
    requires |padded| % BLOCK == 0
  {
    Fold(compress, init, padded, |padded| / BLOCK)
  }

  // ---- arithmetic ------------------------------------------------------------------------

  lemma CounterAdds(a: nat, b: nat)
    ensures (a % COUNTER + b) % COUNTER == (a + b) % COUNTER
  {
  }

  lemma CounterScales(bytes: nat)
    ensures 8 * (bytes % COUNTER) % COUNTER == 8 * bytes % COUNTER
  {
  }

  /** A value shifted right by whole bytes. */
  function Shifted(value: nat, n: nat): nat {
    if n == 0 then value else Shifted(value, n - 1) / 256
  }

  method LengthBig(bits: nat) returns (length: array<byte>)
    ensures fresh(length) && length[..] == Big(bits, 8)
  {
    length := new byte[8];
    for i := 0 to 8
      invariant length[..i] == Big(Shifted(bits, 8 - i), i)
    {
      length[i] := Shifted(bits, 7 - i) % 256;
      assert length[..i + 1] == length[..i] + [length[i]];
    }
    assert length[..8] == length[..] && Shifted(bits, 0) == bits;
  }

  method LengthLittle(bits: nat) returns (length: array<byte>)
    ensures fresh(length) && length[..] == Little(bits, 8)
  {
    length := new byte[8];
    for i := 0 to 8
      invariant length[..i] + Little(Shifted(bits, i), 8 - i) == Little(bits, 8)
    {
      length[i] := Shifted(bits, i) % 256;
      assert length[..i + 1] == length[..i] + [length[i]];
    }
    assert length[..8] == length[..];
  }

  // ---- the context -----------------------------------------------------------------------

  /** `counter` is what has been fed, modulo 2^64: in bits for SHA-256, in bytes for MD5. */
  class Context<S> {
    const compress: (S, seq<byte>) -> S
    const init: S
    const block: array<byte>
    var state: S
    var blockLen: nat
    var counter: nat

    ghost var fed: seq<byte>
    ghost var blocks: nat

    ghost predicate Valid()
      reads this, block
    {
      && block.Length == BLOCK && blockLen < BLOCK && |fed| == BLOCK * blocks + blockLen
      && state == Fold(compress, init, fed[..BLOCK * blocks], blocks)
      && block[..blockLen] == fed[BLOCK * blocks..]
    }

    constructor (compress: (S, seq<byte>) -> S, init: S)
      ensures Valid() && fed == [] && counter == 0 && fresh(block)
      ensures this.compress == compress && this.init == init
    {
      this.compress, this.init := compress, init;
      block := new byte[BLOCK](_ => 0);
      state, blockLen, counter, fed, blocks := init, 0, 0, [], 0;
    }

    /** Takes one full block in. */
    method Compress()
      requires block.Length == BLOCK && |fed| == BLOCK * blocks + BLOCK
      requires state == Fold(compress, init, fed[..BLOCK * blocks], blocks) && block[..] == fed[BLOCK * blocks..]
      modifies this`state, this`blockLen, this`blocks
      ensures Valid() && blockLen == 0
    {
      assert fed[..BLOCK * (blocks + 1)] == fed;
      assert fed[..BLOCK * blocks] == fed[..BLOCK * (blocks + 1)][..BLOCK * blocks];
      state := compress(state, block[..]);
      blockLen, blocks := 0, blocks + 1;
    }

    /** Buffers a run that fits, and takes the block in once it is full. */
    method Buffer(data: seq<byte>)
      requires Valid() && 0 < |data| <= BLOCK - blockLen
      modifies this`state, this`blockLen, this`blocks, this`fed, block
      ensures Valid() && fed == old(fed) + data
    {
      ghost var done := BLOCK * blocks;
      forall i | 0 <= i < |data| {
        block[blockLen + i] := data[i];
      }
      blockLen, fed := blockLen + |data|, fed + data;
      assert fed[..done] == old(fed)[..done];
      assert block[..blockLen] == fed[done..] by {
        assert fed[done..] == old(fed)[done..] + data;
        assert block[..blockLen] == old(block[..blockLen]) + data;
      }
      if blockLen == block.Length {
        assert block[..] == block[..blockLen];
        Compress();
      }
    }

    method Absorb(data: seq<byte>)
      requires Valid()
      modifies this`state, this`blockLen, this`blocks, this`fed, block
      ensures Valid() && fed == old(fed) + data
    {
      var at := 0;
      while at < |data|
        invariant at <= |data| && Valid() && fed == old(fed) + data[..at]
      {
        var room := BLOCK - blockLen;
        var take := if |data| - at < room then |data| - at else room;
        assert data[..at] + data[at..at + take] == data[..at + take];
        Buffer(data[at..at + take]);
        at := at + take;
      }
      assert data[..at] == data;
    }

    /** The end mark, and zeros up to the length field, from wherever in a block the message ended. */
    method Pad()
      requires Valid()
      modifies this`state, this`blockLen, this`blocks, this`fed, block
      ensures Valid() && blockLen == 56
      ensures fed == old(fed) + [0x80] + Zeroed(Zeros(|old(fed)|))
    {
      hide Fold;
      hide Zeros;
      hide Zeroed;
      Absorb([0x80]);
      ghost var n, zeros := 0, Zeros(|fed| - 1);
      ghost var marked := fed;
      ZeroedNone(marked);
      while blockLen != 56
        invariant Valid() && fed == marked + Zeroed(n) && n <= zeros
        decreases zeros - n
      {
        Offset(|marked| - 1, n, blocks, blockLen);
        Absorb([0]);
        ZeroedGrows(marked, n);
        n := n + 1;
      }
      Aligned(|marked| - 1, n, blocks);
    }

    // ---- SHA-256 -------------------------------------------------------------------------

    method ShaUpdate(data: seq<byte>)
      requires Valid() && counter == Bits(fed)
      modifies this, block
      ensures Valid() && fed == old(fed) + data && counter == Bits(fed)
    {
      CounterAdds(8 * |fed|, |data| * 8);
      counter := (counter + |data| * 8) % COUNTER;
      Absorb(data);
    }

    /** The length goes straight into the block, most significant byte first. */
    method ShaFinal() returns (digest: S)
      requires Valid() && counter == Bits(fed)
      modifies this, block
      ensures digest == Hash(compress, init, ShaPadded(old(fed)))
    {
      ghost var message := fed;
      var bits := counter;
      Pad();
      var length := LengthBig(bits);
      Buffer(length[..]);
      WholeBlocks(ShaPadded(message), blocks);
      return state;
    }

    // ---- MD5 -----------------------------------------------------------------------------

    method Md5Update(data: seq<byte>)
      requires Valid() && counter == |fed| % COUNTER
      modifies this, block
      ensures Valid() && fed == old(fed) + data && counter == |fed| % COUNTER
    {
      CounterAdds(|fed|, |data|);
      counter := (counter + |data|) % COUNTER;
      Absorb(data);
    }

    /** The length goes through the buffer like any other bytes, least significant first. */
    method Md5Final() returns (digest: S)
      requires Valid() && counter == |fed| % COUNTER
      modifies this, block
      ensures digest == Hash(compress, init, Md5Padded(old(fed)))
    {
      ghost var message := fed;
      var bits := counter * 8 % COUNTER;
      CounterScales(|fed|);
      Pad();
      var length := LengthLittle(bits);
      Absorb(length[..]);
      WholeBlocks(Md5Padded(message), blocks);
      return state;
    }
  }

  /** Where in a block a message stands once it and `n` zeros are in. */
  lemma Offset(length: nat, n: nat, blocks: nat, blockLen: nat)
    requires length + 1 + n == BLOCK * blocks + blockLen && blockLen < BLOCK && blockLen != 56
    requires n <= Zeros(length)
    ensures n < Zeros(length)
  {
  }

  lemma Aligned(length: nat, n: nat, blocks: nat)
    requires length + 1 + n == BLOCK * blocks + 56 && n <= Zeros(length)
    ensures n == Zeros(length)
  {
  }

  lemma ZeroedNone(s: seq<byte>)
    ensures s + Zeroed(0) == s
  {
  }

  lemma ZeroedGrows(s: seq<byte>, n: nat)
    ensures s + Zeroed(n) + [0] == s + Zeroed(n + 1)
  {
    assert Zeroed(n) + [0] == Zeroed(n + 1);
  }

  lemma WholeBlocks(s: seq<byte>, blocks: nat)
    requires |s| % BLOCK == 0 && |s| / BLOCK == blocks
    ensures s[..BLOCK * blocks] == s
  {
  }

  // ---- however the message is cut --------------------------------------------------------

  function Joined(pieces: seq<seq<byte>>): seq<byte> {
    if pieces == [] then [] else Joined(pieces[..|pieces| - 1]) + pieces[|pieces| - 1]
  }

  method Sha256<S>(compress: (S, seq<byte>) -> S, init: S, pieces: seq<seq<byte>>) returns (digest: S)
    ensures digest == Hash(compress, init, ShaPadded(Joined(pieces)))
  {
    var c := new Context<S>(compress, init);
    for i := 0 to |pieces|
      invariant c.Valid() && fresh(c) && fresh(c.block) && c.compress == compress && c.init == init
      invariant c.fed == Joined(pieces[..i]) && c.counter == Bits(c.fed)
    {
      assert pieces[..i + 1][..i] == pieces[..i];
      c.ShaUpdate(pieces[i]);
    }
    assert pieces[..|pieces|] == pieces;
    digest := c.ShaFinal();
  }

  method Md5<S>(compress: (S, seq<byte>) -> S, init: S, pieces: seq<seq<byte>>) returns (digest: S)
    ensures digest == Hash(compress, init, Md5Padded(Joined(pieces)))
  {
    var c := new Context<S>(compress, init);
    for i := 0 to |pieces|
      invariant c.Valid() && fresh(c) && fresh(c.block) && c.compress == compress && c.init == init
      invariant c.fed == Joined(pieces[..i]) && c.counter == |c.fed| % COUNTER
    {
      assert pieces[..i + 1][..i] == pieces[..i];
      c.Md5Update(pieces[i]);
    }
    assert pieces[..|pieces|] == pieces;
    digest := c.Md5Final();
  }
}
