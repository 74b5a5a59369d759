/**
 HKDF-SHA256 (RFC 5869) as the Kotlin side computes it. HMAC is a parameter of which only
 the output length is known.
 */
module Hkdf {
  import opened Wrappers
  import opened Text

  type Bytes = seq<Byte>

  const HASH_LEN := 32

  /** HMAC-SHA256: (key, message) to 32 bytes. */
  type Mac = mac: (Bytes, Bytes) -> Bytes | forall k, m :: |mac(k, m)| == HASH_LEN
    witness (k, m) => seq(HASH_LEN, i => 0)

  datatype HkdfError = LengthOutOfRange(len: int) | EmptyKey

  // ---------------------------------------------------------------------------
  // Reference: section 2.3 of RFC 5869
  // ---------------------------------------------------------------------------

  /** T(i), with the octet i in the last position. */
  function T(mac: Mac, prk: Bytes, info: Bytes, i: nat): (t: Bytes)
    requires i <= 255
    ensures i > 0 ==> |t| == HASH_LEN
  {
    if i == 0 then [] else mac(prk, T(mac, prk, info, i - 1) + info + [i])
  }

  /** T(1) || ... || T(n) */
  function Blocks(mac: Mac, prk: Bytes, info: Bytes, n: nat): (b: Bytes)
    requires n <= 255
    ensures |b| == HASH_LEN * n
  {
    if n == 0 then [] else Blocks(mac, prk, info, n - 1) + T(mac, prk, info, n)
  }

  /** N = ceil(L / HashLen) */
  function BlockCount(len: nat): nat {
    (len + HASH_LEN - 1) / HASH_LEN
  }

  function Expand(mac: Mac, prk: Bytes, info: Bytes, len: nat): (okm: Bytes)
    requires len <= 255 * HASH_LEN
    ensures |okm| == len
  {
    Blocks(mac, prk, info, BlockCount(len))[..len]
  }

  function Extract(mac: Mac, salt: Bytes, secret: Bytes): Bytes {
    mac(salt, secret)
  }

  // ---------------------------------------------------------------------------
  // The Kotlin loop
  // ---------------------------------------------------------------------------

  /** `Int.toByte()`: keep the low eight bits as a signed value. */
  function ToSignedByte(n: int): (b: int)
    ensures -128 <= b <= 127
  {
    var low := n % 256;
    if low < 128 then low else low - 256
  }

  /** The octet a signed byte stands for when fed to the MAC. */
  function Octet(b: int): Byte
    requires -128 <= b <= 127
  {
    if b < 0 then b + 256 else b
  }

  /** The counter after `i` increments from zero. */
  function CounterAfter(i: nat): (b: int)
    ensures -128 <= b <= 127
  {
    if i == 0 then 0 else ToSignedByte(CounterAfter(i - 1) + 1)
  }

  /** The wrapping signed counter carries octet `i mod 256`; it wraps to 0 first at block 256. */
  lemma {:induction false} CounterCarriesOctet(i: nat)
    ensures Octet(CounterAfter(i)) == i % 256
    ensures 1 <= i <= 255 ==> Octet(CounterAfter(i)) == i && CounterAfter(i) != 0
  {
    if i > 0 {
      CounterCarriesOctet(i - 1);
      OctetOfNext(CounterAfter(i - 1));
      NextRemainder(i - 1);
    }
  }

  lemma NextRemainder(i: nat)
    ensures (i + 1) % 256 == if i % 256 == 255 then 0 else i % 256 + 1
    ensures i < 256 ==> i % 256 == i
  {
  }

  lemma OctetOfNext(b: int)
    requires -128 <= b <= 127
    ensures Octet(ToSignedByte(b + 1)) == if Octet(b) == 255 then 0 else Octet(b) + 1
  {
  }

  lemma {:induction false} BlocksPrefix(mac: Mac, prk: Bytes, info: Bytes, m: nat, n: nat)
    requires m <= n <= 255
    ensures Blocks(mac, prk, info, m) <= Blocks(mac, prk, info, n)
  {
    if m < n {
      BlocksPrefix(mac, prk, info, m, n - 1);
    }
  }

  lemma NextBlock(mac: Mac, prk: Bytes, info: Bytes, i: nat, take: nat)
    requires 1 <= i <= 255 && take <= HASH_LEN
    ensures Blocks(mac, prk, info, i)[..HASH_LEN * (i - 1) + take] ==
      Blocks(mac, prk, info, i - 1) + T(mac, prk, info, i)[..take]
  {
  }

  /** `System.arraycopy(src, 0, out, at, take)` */
  method CopyInto(src: Bytes, out: array<Byte>, at: nat, take: nat)
    requires take <= |src| && at + take <= out.Length
    modifies out
    ensures out[..at + take] == old(out[..at]) + src[..take]
  {
    forall k | 0 <= k < take {
      out[at + k] := src[k];
    }
  }

  /** The expansion loop, filling `out` in place. */
  method ExpandInto(mac: Mac, prk: Bytes, info: Bytes, out: array<Byte>)
    requires out.Length <= 255 * HASH_LEN
    modifies out
    ensures out[..] == Expand(mac, prk, info, out.Length)
  {
    var len := out.Length;
    var written := 0;
    var prev: Bytes := [];
    var counter := 0;
    ghost var i := 0;
    while written < len
      invariant 0 <= written <= len && i <= 255
      invariant written == if HASH_LEN * i < len then HASH_LEN * i else len
      invariant counter == CounterAfter(i) && prev == T(mac, prk, info, i)
      invariant out[..written] == Blocks(mac, prk, info, i)[..written]
      decreases len - written
    {
      CounterCarriesOctet(i + 1);
      counter := ToSignedByte(counter + 1);
      prev := mac(prk, prev + info + [Octet(counter)]);
      var take := if HASH_LEN < len - written then HASH_LEN else len - written;
      assert out[..written] == Blocks(mac, prk, info, i);
      CopyInto(prev, out, written, take);
      i := i + 1;
      NextBlock(mac, prk, info, i, take);
      written := written + take;
    }
    BlocksPrefix(mac, prk, info, BlockCount(len), i);
    assert out[..] == out[..written];
  }

  /**
   `Hkdf.hkdfSha256`. A salt of no bytes is refused when the key specification is built; any
   other salt and a length in 1..8160 gives the RFC's output.
   */
  method HkdfSha256(mac: Mac, secret: Bytes, salt: Bytes, info: Bytes, len: int)
    returns (r: Result<Bytes, HkdfError>)
    ensures r.Ok? <==> 1 <= len <= 255 * HASH_LEN && salt != []
    ensures r.Ok? ==> r.value == Expand(mac, Extract(mac, salt, secret), info, len)
    ensures !(1 <= len <= 255 * HASH_LEN) ==> r == Err(LengthOutOfRange(len))
    ensures 1 <= len <= 255 * HASH_LEN && salt == [] ==> r == Err(EmptyKey)
  {
    if !(1 <= len <= 255 * HASH_LEN) {
      return Err(LengthOutOfRange(len));
    }
    if salt == [] {
      return Err(EmptyKey);
    }
    var prk := mac(salt, secret);
    var out := new Byte[len](_ => 0);
    ExpandInto(mac, prk, info, out);
    r := Ok(out[..]);
  }

  /**
   Written out for up to two blocks: the salt keys the extraction, each block ends with its
   octet, and the second begins with the first.
   */
  lemma TwoBlocks(mac: Mac, salt: Bytes, secret: Bytes, info: Bytes, len: nat)
    requires len <= 2 * HASH_LEN
    ensures var prk := mac(salt, secret);
      var first := mac(prk, info + [1]);
      Expand(mac, Extract(mac, salt, secret), info, len) == (first + mac(prk, first + info + [2]))[..len]
  {
    var prk := mac(salt, secret);
    assert T(mac, prk, info, 0) + info + [1] == info + [1];
    var t1, t2 := T(mac, prk, info, 1), T(mac, prk, info, 2);
    assert Blocks(mac, prk, info, 0) + t1 == t1;
    assert Blocks(mac, prk, info, 1) == t1 && Blocks(mac, prk, info, 2) == t1 + t2;
    BlocksPrefix(mac, prk, info, BlockCount(len), 2);
  }

  /** Asking for fewer bytes gives a prefix. */
  lemma ShorterIsPrefix(mac: Mac, prk: Bytes, info: Bytes, short: nat, long: nat)
    requires short <= long <= 255 * HASH_LEN
    ensures Expand(mac, prk, info, short) == Expand(mac, prk, info, long)[..short]
  {
    BlocksPrefix(mac, prk, info, BlockCount(short), BlockCount(long));
  }
}
