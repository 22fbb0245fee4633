/**
 * Bytes, fixed-width little-endian integers and the 32-byte digests that
 * identify transactions (txid, ntxid). Digests are opaque: nothing in the
 * model depends on how they are computed.
 */
module Bytes {
  import opened Wrappers

  newtype byte = x: int | 0 <= x < 256

  /** A 32-byte digest (bc::hash_digest). */
  type Hash = h: seq<byte> | |h| == 32 witness seq(32, i => 0)

  /** The all-zero digest (bc::null_hash). */
  const NullHash: Hash := [0, 0, 0, 0, 0, 0, 0, 0, 0, 0, 0, 0, 0, 0, 0, 0,
                           0, 0, 0, 0, 0, 0, 0, 0, 0, 0, 0, 0, 0, 0, 0, 0]

  const TWO_63: int := 0x8000_0000_0000_0000
  const TWO_64: int := 0x1_0000_0000_0000_0000

  /** A size_t or uint64_t value. */
  type Uint64 = x: nat | x < TWO_64

  function Pow256(n: nat): (r: nat)
    ensures r >= 1
  {
    if n == 0 then 1 else 256 * Pow256(n - 1)
  }

  /** The n-byte little-endian encoding of x, reduced modulo 256^n. */
  function LE(x: nat, n: nat): (r: seq<byte>)
    ensures |r| == n
  {
    if n == 0 then [] else [(x % 256) as byte] + LE(x / 256, n - 1)
  }

  /** The value of a little-endian byte string. */
  function FromLE(s: seq<byte>): (x: nat)
    ensures x < Pow256(|s|)
  {
    if s == [] then 0 else s[0] as nat + 256 * FromLE(s[1..])
  }

  lemma {:induction false} FromLEOfLE(x: nat, n: nat)
    requires x < Pow256(n)
    ensures FromLE(LE(x, n)) == x
  {
    if n > 0 {
      var r := LE(x, n);
      assert r[1..] == LE(x / 256, n - 1);
      FromLEOfLE(x / 256, n - 1);
    }
  }

  /**
   * Reads an n-byte little-endian integer from the front of s; None when
   * fewer than n bytes remain (the deserializer's end_of_stream).
   */
  function ReadLE(s: seq<byte>, n: nat): (r: Option<(nat, seq<byte>)>)
    ensures r.Some? <==> |s| >= n
    ensures r.Some? ==> r.value.0 < Pow256(n) && r.value.1 == s[n..]
  {
    if |s| < n then None else Some((FromLE(s[..n]), s[n..]))
  }

  lemma ReadLEOfLE(x: nat, n: nat, rest: seq<byte>)
    requires x < Pow256(n)
    ensures ReadLE(LE(x, n) + rest, n) == Some((x, rest))
  {
    var s := LE(x, n) + rest;
    assert s[..n] == LE(x, n);
    assert s[n..] == rest;
    FromLEOfLE(x, n);
  }

  /** Reads one byte. */
  function ReadByte(s: seq<byte>): (r: Option<(byte, seq<byte>)>)
    ensures r.Some? <==> |s| >= 1
    ensures r.Some? ==> r.value == (s[0], s[1..])
  {
    if |s| < 1 then None else Some((s[0], s[1..]))
  }

  /** Reads a 32-byte digest. */
  function ReadHash(s: seq<byte>): (r: Option<(Hash, seq<byte>)>)
    ensures r.Some? <==> |s| >= 32
    ensures r.Some? ==> r.value == (s[..32], s[32..])
  {
    if |s| < 32 then None else Some((s[..32], s[32..]))
  }

  lemma ReadHashOfHash(h: Hash, rest: seq<byte>)
    ensures ReadHash(h + rest) == Some((h, rest))
  {
    assert (h + rest)[..32] == h;
    assert (h + rest)[32..] == rest;
  }

  /** True when x fits a signed 64-bit integer (long long, time_t). */
  predicate IsInt64(x: int) {
    -TWO_63 <= x < TWO_63
  }

  /**
   * The low 64 bits of x as an unsigned value: the bit pattern a signed
   * 64-bit integer is written with, and the wrap of an unsigned one.
   */
  function ToUint64(x: int): (u: nat)
    ensures u < TWO_64
    ensures 0 <= x < TWO_64 ==> u == x
  {
    x % TWO_64
  }

  /** The signed 64-bit integer whose bit pattern is u. */
  function FromUint64(u: nat): (x: int)
    requires u < TWO_64
    ensures IsInt64(x)
    ensures u < TWO_63 ==> x == u
    ensures ToUint64(x) == u
  {
    if u >= TWO_63 then u - TWO_64 else u
  }

  /** Reading back the bit pattern of a signed 64-bit integer gives the integer. */
  lemma Uint64RoundTrip(x: int)
    requires IsInt64(x)
    ensures FromUint64(ToUint64(x)) == x
  {
    if x < 0 {
      assert ToUint64(x) == x + TWO_64;
    }
  }

  lemma Pow256Values()
    ensures Pow256(1) == 256 && Pow256(2) == 0x1_0000
    ensures Pow256(4) == 0x1_0000_0000 && Pow256(8) == TWO_64
  {
    assert Pow256(2) == 0x1_0000;
    assert Pow256(4) == 0x1_0000_0000;
  }
}
