/**
 * The encrypted package (abcd/crypto/Crypto.cpp). The plaintext framing is
 *
 *   h | h header bytes | 4-byte big-endian data length | data |
 *   f | f footer bytes | SHA-256 of everything before it
 *
 * with random header and footer; the whole is AES-256-CBC encrypted under
 * a key and IV cut or zero-padded to 32 and 16 bytes. SHA-256 (FIPS
 * 180-4), AES and the random source are parameters: the model fixes only
 * the framing, the length checks and the error codes around them.
 */
module Crypto {
  import opened Wrappers
  import opened Bytes
  import opened Status
  import opened Arith

  const AES_256_KEY_LENGTH: nat := 32
  const AES_256_IV_LENGTH: nat := 16
  const SHA256_DIGEST_LENGTH: nat := 32

  /** unsigned int arithmetic wraps modulo this. */
  const UINT_MODULUS: int := 0x1_0000_0000

  /** SHA-256, left abstract. */
  type Sha256 = seq<byte> -> Hash

  type Key = k: seq<byte> | |k| == AES_256_KEY_LENGTH witness seq(32, i => 0)
  type Iv = v: seq<byte> | |v| == AES_256_IV_LENGTH witness seq(16, i => 0)

  /**
   * AES-256-CBC with padding, left abstract. Decryption may fail (a bad
   * padding block); the source's own wrapper never reports that failure,
   * so `decrypt` returning None is the case the package code guards.
   */
  datatype Cipher = Cipher(
    encrypt: (Key, Iv, seq<byte>) -> seq<byte>,
    decrypt: (Key, Iv, seq<byte>) -> Option<seq<byte>>)

  /** Decryption undoes encryption under the same key and IV. */
  ghost predicate Inverts(c: Cipher) {
    forall k: Key, v: Iv, p: seq<byte> :: c.decrypt(k, v, c.encrypt(k, v, p)) == Some(p)
  }

  // ---------------------------------------------------------------------
  // cryptoCompare

  /** Bitwise exclusive or of two unsigned integers, one bit at a time. */
  function Xor(x: nat, y: nat): nat
    decreases x + y
  {
    if x == 0 && y == 0 then 0 else 2 * Xor(x / 2, y / 2) + (if x % 2 == y % 2 then 0 else 1)
  }

  /** Bitwise inclusive or of two unsigned integers. */
  function Or(x: nat, y: nat): nat
    decreases x + y
  {
    if x == 0 && y == 0 then 0 else 2 * Or(x / 2, y / 2) + (if x % 2 == 0 && y % 2 == 0 then 0 else 1)
  }

  lemma {:induction false} XorZero(x: nat, y: nat)
    ensures Xor(x, y) == 0 <==> x == y
    decreases x + y
  {
    if !(x == 0 && y == 0) {
      XorZero(x / 2, y / 2);
    }
  }

  lemma {:induction false} OrZero(x: nat, y: nat)
    ensures Or(x, y) == 0 <==> x == 0 && y == 0
    decreases x + y
  {
    if !(x == 0 && y == 0) {
      OrZero(x / 2, y / 2);
    }
  }

  /** The OR of the byte-wise XOR of the first n bytes. */
  function Diff(a: seq<byte>, b: seq<byte>, n: nat): nat
    requires n <= |a| && n <= |b|
  {
    if n == 0 then 0 else Or(Diff(a, b, n - 1), Xor(a[n - 1] as nat, b[n - 1] as nat))
  }

  lemma {:induction false} DiffZero(a: seq<byte>, b: seq<byte>, n: nat)
    requires n <= |a| && n <= |b|
    ensures Diff(a, b, n) == 0 <==> a[..n] == b[..n]
  {
    if n > 0 {
      DiffZero(a, b, n - 1);
      XorZero(a[n - 1] as nat, b[n - 1] as nat);
      OrZero(Diff(a, b, n - 1), Xor(a[n - 1] as nat, b[n - 1] as nat));
      assert a[..n] == a[..n - 1] + [a[n - 1]];
      assert b[..n] == b[..n - 1] + [b[n - 1]];
      if a[..n] == b[..n] {
        assert a[..n - 1] == a[..n][..n - 1];
        assert b[..n - 1] == b[..n][..n - 1];
        assert a[n - 1] == a[..n][n - 1];
      }
    }
  }

  /** cryptoCompare: the constant-time comparison, true iff the first n bytes agree. */
  method CryptoCompare(a: seq<byte>, b: seq<byte>, n: nat) returns (equal: bool)
    requires n <= |a| && n <= |b|
    ensures equal <==> a[..n] == b[..n]
  {
    var out: nat := 0;
    var i := 0;
    while i < n
      invariant i <= n
      invariant out == Diff(a, b, i)
    {
      out := Or(out, Xor(a[i] as nat, b[i] as nat));
      i := i + 1;
    }
    DiffZero(a, b, n);
    equal := out == 0;
  }

  // ---------------------------------------------------------------------
  // Key and IV

  /** The first n bytes of s, zero-padded to n. */
  function Fit(s: seq<byte>, n: nat): (r: seq<byte>)
    ensures |r| == n
    ensures forall i | 0 <= i < n :: r[i] == if i < |s| then s[i] else 0
  {
    seq(n, i requires 0 <= i < n => if i < |s| then s[i] else 0)
  }

  /** The AES key: truncated to 32 bytes, or zero-padded when shorter. */
  function AesKey(key: seq<byte>): (r: Key)
    ensures |key| >= AES_256_KEY_LENGTH ==> r == key[..AES_256_KEY_LENGTH]
    ensures |key| < AES_256_KEY_LENGTH ==> r[..|key|] == key
    ensures forall i | |key| <= i < AES_256_KEY_LENGTH :: r[i] == 0
  {
    Fit(key, AES_256_KEY_LENGTH)
  }

  /** The AES IV: truncated to 16 bytes, or zero-padded when shorter. */
  function AesIv(iv: seq<byte>): (r: Iv)
    ensures |iv| >= AES_256_IV_LENGTH ==> r == iv[..AES_256_IV_LENGTH]
    ensures |iv| < AES_256_IV_LENGTH ==> r[..|iv|] == iv
    ensures forall i | |iv| <= i < AES_256_IV_LENGTH :: r[i] == 0
  {
    Fit(iv, AES_256_IV_LENGTH)
  }

  /** Keys that agree on their first 32 bytes encrypt alike. */
  lemma AesKeyIgnoresTail(key: seq<byte>, tail: seq<byte>)
    requires |key| >= AES_256_KEY_LENGTH
    ensures AesKey(key + tail) == AesKey(key)
  {
    assert (key + tail)[..AES_256_KEY_LENGTH] == key[..AES_256_KEY_LENGTH];
  }

  // ---------------------------------------------------------------------
  // The length field

  /** The four big-endian bytes of n mod 2^32 (the shifts and masks of the encoder). */
  function BE4(n: nat): (r: seq<byte>)
    ensures |r| == 4
  {
    [((n / 0x100_0000) % 256) as byte, ((n / 0x1_0000) % 256) as byte,
     ((n / 0x100) % 256) as byte, (n % 256) as byte]
  }

  /** The decoder's reassembly of four big-endian bytes. */
  function FromBE4(s: seq<byte>): (n: nat)
    requires |s| == 4
    ensures n < UINT_MODULUS
  {
    s[0] as nat * 0x100_0000 + s[1] as nat * 0x1_0000 + s[2] as nat * 0x100 + s[3] as nat
  }

  lemma FromBE4OfBE4(n: nat)
    ensures FromBE4(BE4(n)) == n % UINT_MODULUS
  {
    var d := n % 256;
    var n1 := n / 256;
    var c := n1 % 256;
    var n2 := n1 / 256;
    var b := n2 % 256;
    var n3 := n2 / 256;
    var a := n3 % 256;
    var n4 := n3 / 256;
    assert n == 0x100_0000_00 * n4 + 0x100_0000 * a + 0x1_0000 * b + 0x100 * c + d;
    DivModUnique(n, n1, d, 0x100);
    DivModUnique(n, n2, 0x100 * c + d, 0x1_0000);
    DivModUnique(n, n3, 0x1_0000 * b + 0x100 * c + d, 0x100_0000);
    DivModUnique(n, n4, 0x100_0000 * a + 0x1_0000 * b + 0x100 * c + d, UINT_MODULUS);
  }

  lemma BE4OfFromBE4(s: seq<byte>)
    requires |s| == 4
    ensures BE4(FromBE4(s)) == s
  {
    var s0, s1, s2, s3 := s[0] as nat, s[1] as nat, s[2] as nat, s[3] as nat;
    var n := FromBE4(s);
    DivModUnique(n, s0, 0x1_0000 * s1 + 0x100 * s2 + s3, 0x100_0000);
    DivModUnique(n, 0x100 * s0 + s1, 0x100 * s2 + s3, 0x1_0000);
    DivModUnique(n, 0x1_0000 * s0 + 0x100 * s1 + s2, s3, 0x100);
    DivModUnique(s0, 0, s0, 256);
    DivModUnique(0x100 * s0 + s1, s0, s1, 256);
    DivModUnique(0x1_0000 * s0 + 0x100 * s1 + s2, 0x100 * s0 + s1, s2, 256);
    assert BE4(n) == [s[0], s[1], s[2], s[3]];
  }

  // ---------------------------------------------------------------------
  // Encoding

  /** Everything the checksum covers: count, header, length, data, count, footer. */
  function Body(header: seq<byte>, data: seq<byte>, footer: seq<byte>): (r: seq<byte>)
    requires |header| < 256 && |footer| < 256
    ensures |r| == 1 + |header| + 4 + |data| + 1 + |footer|
  {
    [|header| as byte] + header + BE4(|data|) + data + [|footer| as byte] + footer
  }

  /** The plaintext package: the body and its SHA-256. */
  function Pack(header: seq<byte>, data: seq<byte>, footer: seq<byte>, sha: Sha256): (r: seq<byte>)
    requires |header| < 256 && |footer| < 256
    ensures |r| == 1 + |header| + 4 + |data| + 1 + |footer| + SHA256_DIGEST_LENGTH
  {
    var body := Body(header, data, footer);
    body + sha(body)
  }

  /** Where each part of a package sits. */
  lemma PackLayout(header: seq<byte>, data: seq<byte>, footer: seq<byte>, sha: Sha256)
    requires |header| < 256 && |footer| < 256
    ensures var p := Pack(header, data, footer, sha); var h := |header|;
      && p[0] as nat == h
      && p[1..1 + h] == header
      && p[1 + h..5 + h] == BE4(|data|)
      && p[5 + h..5 + h + |data|] == data
      && p[5 + h + |data|] as nat == |footer|
      && p[6 + h + |data|..6 + h + |data| + |footer|] == footer
      && p[..6 + h + |data| + |footer|] == Body(header, data, footer)
      && p[6 + h + |data| + |footer|..] == sha(Body(header, data, footer))
  {
    var h := |header|;
    var body := Body(header, data, footer);
    var p := body + sha(body);
    assert p[..|body|] == body;
    assert body == [h as byte] + header + BE4(|data|) + data + [|footer| as byte] + footer;
    assert p[1..1 + h] == body[1..1 + h];
    assert p[1 + h..5 + h] == body[1 + h..5 + h];
    assert p[5 + h..5 + h + |data|] == body[5 + h..5 + h + |data|];
    assert p[6 + h + |data|..6 + h + |data| + |footer|] == body[6 + h + |data|..6 + h + |data| + |footer|];
  }

  /**
   * ABC_CryptoEncryptAES256Package: the header, footer and IV are the
   * random draws; the result is the IV and the ciphertext of the package.
   */
  function EncryptPackage(data: seq<byte>, key: seq<byte>, iv: seq<byte>,
                          header: seq<byte>, footer: seq<byte>, c: Cipher, sha: Sha256): (r: (seq<byte>, seq<byte>))
    requires |header| < 256 && |footer| < 256
    ensures r.0 == iv
    ensures Inverts(c) ==> c.decrypt(AesKey(key), AesIv(iv), r.1) == Some(Pack(header, data, footer, sha))
  {
    (iv, c.encrypt(AesKey(key), AesIv(iv), Pack(header, data, footer, sha)))
  }

  // ---------------------------------------------------------------------
  // Decoding

  const TOO_SHORT: string := "Decrypted data is not long enough"
  const BAD_CHECKSUM: string := "Decrypted data failed checksum (SHA) check"

  /**
   * The package checks with unbounded arithmetic: every read is inside
   * the buffer, and a declared length that does not fit is rejected.
   */
  function Unpack(p: seq<byte>, sha: Sha256): (r: Result<seq<byte>>)
    ensures r.Fail? ==> r.code == DecryptFailure
    ensures r.Ok? ==> |p| > 0 && var h := p[0] as nat;
      && |p| >= 1 + h + 4 + 1 + 1 + SHA256_DIGEST_LENGTH
      && var len := FromBE4(p[1 + h..5 + h]);
      && 5 + h + len < |p|
      && var f := p[5 + h + len] as nat;
      && |p| >= 6 + h + len + f + SHA256_DIGEST_LENGTH
      && sha(p[..6 + h + len + f]) == p[6 + h + len + f..6 + h + len + f + SHA256_DIGEST_LENGTH]
      && r.value == p[5 + h..5 + h + len]
  {
    if |p| == 0 then Fail(DecryptFailure, TOO_SHORT)
    else
      var h := p[0] as nat;
      if |p| < 1 + h + 4 + 1 + 1 + SHA256_DIGEST_LENGTH then Fail(DecryptFailure, TOO_SHORT)
      else
        var len := FromBE4(p[1 + h..5 + h]);
        if |p| < 1 + h + 4 + len + 1 + SHA256_DIGEST_LENGTH then Fail(DecryptFailure, TOO_SHORT)
        else
          var f := p[5 + h + len] as nat;
          if |p| < 1 + h + 4 + len + 1 + f + SHA256_DIGEST_LENGTH then Fail(DecryptFailure, TOO_SHORT)
          else
            var check := 6 + h + len + f;
            if sha(p[..check]) != p[check..check + SHA256_DIGEST_LENGTH] then Fail(DecryptFailure, BAD_CHECKSUM)
            else Ok(p[5 + h..5 + h + len])
  }

  /**
   * Unpacking a package gives back its data whenever the data length fits
   * the 32-bit field and the package is one byte longer than the
   * smallest possible (data or footer nonempty), which the first length
   * check demands.
   */
  lemma UnpackPack(header: seq<byte>, data: seq<byte>, footer: seq<byte>, sha: Sha256)
    requires |header| < 256 && |footer| < 256
    requires |data| < UINT_MODULUS && |data| + |footer| >= 1
    ensures Unpack(Pack(header, data, footer, sha), sha) == Ok(data)
  {
    var p := Pack(header, data, footer, sha);
    var h, len, f := |header|, |data|, |footer|;
    PackLayout(header, data, footer, sha);
    FromBE4OfBE4(len);
    DivModUnique(len, 0, len, UINT_MODULUS);
    var lenField := p[1 + h..5 + h];
    assert lenField == BE4(len);
    assert FromBE4(lenField) == len;
    UnpackLaidOut(p, sha, h, len, f);
  }

  /** A buffer laid out as a package, with its parts' sizes given, unpacks to its data part. */
  lemma UnpackLaidOut(p: seq<byte>, sha: Sha256, h: nat, len: nat, f: nat)
    requires |p| == 6 + h + len + f + SHA256_DIGEST_LENGTH && len + f >= 1
    requires p[0] as nat == h && FromBE4(p[1 + h..5 + h]) == len && p[5 + h + len] as nat == f
    requires sha(p[..6 + h + len + f]) == p[6 + h + len + f..]
    ensures Unpack(p, sha) == Ok(p[5 + h..5 + h + len])
  {
    assert p[6 + h + len + f..] == p[6 + h + len + f..6 + h + len + f + SHA256_DIGEST_LENGTH];
  }

  /** The one package shape the first check refuses: empty data and no footer. */
  lemma SmallestPackRejected(header: seq<byte>, sha: Sha256)
    requires |header| < 256
    ensures Unpack(Pack(header, [], [], sha), sha) == Fail(DecryptFailure, TOO_SHORT)
  {
    PackLayout(header, [], [], sha);
  }

  /**
   * ABC_CryptoDecryptAES256Package: a failed decryption or any failed
   * check of the plaintext is DecryptFailure.
   */
  function DecryptPackage(enc: seq<byte>, key: seq<byte>, iv: seq<byte>, c: Cipher, sha: Sha256): (r: Result<seq<byte>>)
    ensures r.Fail? ==> r.code == DecryptFailure
    ensures c.decrypt(AesKey(key), AesIv(iv), enc).None? ==> r.Fail?
    ensures c.decrypt(AesKey(key), AesIv(iv), enc).Some? ==> r == Unpack(c.decrypt(AesKey(key), AesIv(iv), enc).value, sha)
  {
    match c.decrypt(AesKey(key), AesIv(iv), enc)
    case None => Fail(DecryptFailure, "")
    case Some(p) => Unpack(p, sha)
  }

  /** Decrypting what the package encryption produced gives back the data. */
  lemma DecryptEncryptPackage(data: seq<byte>, key: seq<byte>, iv: seq<byte>,
                              header: seq<byte>, footer: seq<byte>, c: Cipher, sha: Sha256)
    requires |header| < 256 && |footer| < 256
    requires |data| < UINT_MODULUS && |data| + |footer| >= 1
    requires Inverts(c)
    ensures var e := EncryptPackage(data, key, iv, header, footer, c, sha);
      DecryptPackage(e.1, key, e.0, c, sha) == Ok(data)
  {
    UnpackPack(header, data, footer, sha);
  }

  // ---------------------------------------------------------------------
  // The decoder as written: 32-bit sums

  /** A byte read at position i; past the end of the buffer it is whatever lies there. */
  function At(p: seq<byte>, i: nat, stray: byte): byte {
    if i < |p| then p[i] else stray
  }

  /** n bytes read from position i, past the end as above. */
  function Window(p: seq<byte>, i: nat, n: nat, stray: byte): (r: seq<byte>)
    ensures |r| == n
    ensures i + n <= |p| ==> r == p[i..i + n]
  {
    var w := seq(n, k requires 0 <= k < n => At(p, i + k, stray));
    assert forall k | 0 <= k < n :: w[k] == At(p, i + k, stray);
    assert i + n <= |p| ==> w == p[i..i + n];
    w
  }

  /**
   * The decoder as the source computes it: byte 0 is read before any
   * check, and minSize and the checksum length are unsigned int sums that
   * wrap modulo 2^32. The footer count is found by pointer arithmetic,
   * which does not wrap on a 64-bit target. `stray` stands for memory
   * outside the buffer.
   */
  function UnpackAsWritten(p: seq<byte>, sha: Sha256, stray: byte): (r: Result<seq<byte>>)
    ensures r.Fail? ==> r.code == DecryptFailure
  {
    var h := At(p, 0, stray) as nat;
    var min1 := (1 + h + 4 + 1 + 1 + SHA256_DIGEST_LENGTH) % UINT_MODULUS;
    if |p| < min1 then Fail(DecryptFailure, TOO_SHORT)
    else
      var len := FromBE4(Window(p, 1 + h, 4, stray));
      var min2 := (1 + h + 4 + len + 1 + SHA256_DIGEST_LENGTH) % UINT_MODULUS;
      if |p| < min2 then Fail(DecryptFailure, TOO_SHORT)
      else
        var f := At(p, 1 + h + 4 + len, stray) as nat;
        var min3 := (1 + h + 4 + len + 1 + f + SHA256_DIGEST_LENGTH) % UINT_MODULUS;
        if |p| < min3 then Fail(DecryptFailure, TOO_SHORT)
        else
          var check := (1 + h + 4 + len + 1 + f) % UINT_MODULUS;
          if sha(Window(p, 0, check, stray)) != Window(p, check, SHA256_DIGEST_LENGTH, stray) then
            Fail(DecryptFailure, BAD_CHECKSUM)
          else Ok(Window(p, 1 + h + 4, len, stray))
  }

  /** Reading byte 0 of an empty buffer is harmless: the first check fails whatever it holds. */
  lemma EmptyRejectedAsWritten(sha: Sha256, stray: byte)
    ensures UnpackAsWritten([], sha, stray) == Fail(DecryptFailure, TOO_SHORT)
  {
  }

  /**
   * The crafted plaintext before its checksum: no header, length
   * 0xffffffff, then f zero bytes, f being the byte that lies past the
   * buffer where the decoder looks for the footer count.
   */
  function WrapPrefix(f: byte): (r: seq<byte>)
    ensures |r| == 5 + f as nat
  {
    [0, 255, 255, 255, 255] + seq(f as nat, i => 0)
  }

  /**
   * With a declared length of 0xffffffff the 32-bit sums wrap: whatever
   * byte the decoder finds past the buffer, a plaintext of 39 bytes plus
   * that many, with a valid checksum and two trailing bytes to pass the
   * first check, passes every check, and the decoder
   * hands back 2^32 - 1 bytes, almost all read from outside the buffer.
   * The unbounded checks reject it.
   */
  lemma LengthWrapAcceptedAsWritten(sha: Sha256, stray: byte)
    ensures var p := WrapPrefix(stray) + sha(WrapPrefix(stray)) + [0, 0];
      && |p| == 39 + stray as nat
      && UnpackAsWritten(p, sha, stray).Ok?
      && |UnpackAsWritten(p, sha, stray).value| == UINT_MODULUS - 1
      && Unpack(p, sha) == Fail(DecryptFailure, TOO_SHORT)
  {
    var pre := WrapPrefix(stray);
    var p := pre + sha(pre) + [0, 0];
    var f := stray as nat;
    var len := UINT_MODULUS - 1;
    assert p[0] == 0;
    assert Window(p, 1, 4, stray) == p[1..5] == [255, 255, 255, 255];
    assert FromBE4(Window(p, 1, 4, stray)) == len;
    DivModUnique(1 + 4 + len + 1 + SHA256_DIGEST_LENGTH, 1, 37, UINT_MODULUS);
    assert At(p, 1 + 4 + len, stray) == stray;
    DivModUnique(1 + 4 + len + 1 + f + SHA256_DIGEST_LENGTH, 1, 37 + f, UINT_MODULUS);
    DivModUnique(1 + 4 + len + 1 + f, 1, 5 + f, UINT_MODULUS);
    assert Window(p, 0, 5 + f, stray) == p[..5 + f] == pre;
    assert Window(p, 5 + f, 32, stray) == p[5 + f..37 + f] == sha(pre);
  }

  // ---------------------------------------------------------------------
  // The JSON envelope

  /**
   * tABC_CryptoType: AES256 is its first member. The size of the
   * enumeration (ABC_CryptoType_Count) is declared in a header that is not
   * part of this model, so it is a parameter here.
   */
  const CRYPTO_TYPE_AES256: nat := 0

  /** The envelope {encryptionType, iv_hex, data_base64}, with the encodings undone. */
  datatype Envelope = Envelope(cryptoType: int, iv: seq<byte>, data: seq<byte>)

  /**
   * ABC_CryptoEncryptJSONObject: a type outside the enumeration is
   * UnknownCryptoType, any other type but AES256 is InvalidCryptoType, and
   * AES256 packages the data.
   */
  function EncryptEnvelope(data: seq<byte>, key: seq<byte>, cryptoType: nat, typeCount: nat, iv: seq<byte>,
                           header: seq<byte>, footer: seq<byte>, c: Cipher, sha: Sha256): (r: Result<Envelope>)
    requires CRYPTO_TYPE_AES256 < typeCount
    requires |header| < 256 && |footer| < 256
    ensures cryptoType >= typeCount ==> r.Fail? && r.code == UnknownCryptoType
    ensures cryptoType < typeCount && cryptoType != CRYPTO_TYPE_AES256 ==>
      r.Fail? && r.code == InvalidCryptoType
    ensures r.Ok? <==> cryptoType == CRYPTO_TYPE_AES256
    ensures r.Ok? ==> r.value.cryptoType == CRYPTO_TYPE_AES256 && r.value.iv == iv
  {
    if cryptoType >= typeCount then Fail(UnknownCryptoType, "Invalid encryption type")
    else if cryptoType != CRYPTO_TYPE_AES256 then Fail(InvalidCryptoType, "Unsupported encryption type")
    else
      var e := EncryptPackage(data, key, iv, header, footer, c, sha);
      Ok(Envelope(CRYPTO_TYPE_AES256, e.0, e.1))
  }

  /**
   * A JSON number as the envelope's type field may hold it. A real keeps
   * no value, because json_integer_value reads every real as 0.
   */
  datatype Number = Integer(i: int) | Real

  /**
   * `(int) json_integer_value(v)` on a number: a real reads as 0, and an
   * integer keeps its low 32 bits, read as a signed int.
   */
  function TypeOf(n: Number): (t: int)
    ensures n.Real? ==> t == 0
    ensures n.Integer? && -0x8000_0000 <= n.i < 0x8000_0000 ==> t == n.i
    ensures n.Integer? ==> -0x8000_0000 <= t < 0x8000_0000 && (n.i - t) % 0x1_0000_0000 == 0
  {
    match n
    case Real => 0
    case Integer(i) =>
      var u := i % 0x1_0000_0000;
      if u >= 0x8000_0000 then u - 0x1_0000_0000 else u
  }

  /**
   * ABC_CryptoDecryptJSONObject: a missing or non-numeric type is
   * DecryptError; a type that does not read as AES256 through the int cast
   * is UnknownCryptoType; a missing or mistyped IV or data is DecryptError;
   * and the package is then decrypted.
   */
  function DecryptEnvelope(cryptoType: Field<Number>, iv: Field<seq<byte>>, data: Field<seq<byte>>,
                           key: seq<byte>, c: Cipher, sha: Sha256): (r: Result<seq<byte>>)
    ensures !cryptoType.Present? ==> r.Fail? && r.code == DecryptError
    ensures cryptoType.Present? && TypeOf(cryptoType.value) != CRYPTO_TYPE_AES256 ==>
      r.Fail? && r.code == UnknownCryptoType
    ensures cryptoType.Present? && TypeOf(cryptoType.value) == CRYPTO_TYPE_AES256 && (!iv.Present? || !data.Present?) ==>
      r.Fail? && r.code == DecryptError
    ensures cryptoType.Present? && TypeOf(cryptoType.value) == CRYPTO_TYPE_AES256 && iv.Present? && data.Present? ==>
      r == DecryptPackage(data.value, key, iv.value, c, sha)
  {
    if !cryptoType.Present? then Fail(DecryptError, "Error parsing JSON encrypt package - missing type")
    else if TypeOf(cryptoType.value) != CRYPTO_TYPE_AES256 then Fail(UnknownCryptoType, "Invalid encryption type")
    else if !iv.Present? then Fail(DecryptError, "Error parsing JSON encrypt package - missing iv")
    else if !data.Present? then Fail(DecryptError, "Error parsing JSON encrypt package - missing data")
    else DecryptPackage(data.value, key, iv.value, c, sha)
  }

  /**
   * Through the int cast, a type of 2^32 and a real type are both read as
   * AES256, so such envelopes are decrypted like one of type 0.
   */
  lemma DecryptEnvelopeCastTypes(iv: seq<byte>, data: seq<byte>, key: seq<byte>, c: Cipher, sha: Sha256)
    ensures DecryptEnvelope(Present(Integer(0x1_0000_0000)), Present(iv), Present(data), key, c, sha)
            == DecryptPackage(data, key, iv, c, sha)
    ensures DecryptEnvelope(Present(Real), Present(iv), Present(data), key, c, sha)
            == DecryptPackage(data, key, iv, c, sha)
    ensures DecryptEnvelope(Present(Integer(1)), Present(iv), Present(data), key, c, sha).code == UnknownCryptoType
  {
    assert TypeOf(Integer(0x1_0000_0000)) == 0;
  }

  /** An envelope made by EncryptEnvelope decrypts to the data under the same key. */
  lemma DecryptEnvelopeOfEncrypt(data: seq<byte>, key: seq<byte>, typeCount: nat, iv: seq<byte>,
                                 header: seq<byte>, footer: seq<byte>, c: Cipher, sha: Sha256)
    requires CRYPTO_TYPE_AES256 < typeCount
    requires |header| < 256 && |footer| < 256
    requires |data| < UINT_MODULUS && |data| + |footer| >= 1
    requires Inverts(c)
    ensures var e := EncryptEnvelope(data, key, CRYPTO_TYPE_AES256, typeCount, iv, header, footer, c, sha);
      && e.Ok?
      && DecryptEnvelope(Present(Integer(e.value.cryptoType)), Present(e.value.iv), Present(e.value.data), key, c, sha) == Ok(data)
  {
    DecryptEncryptPackage(data, key, iv, header, footer, c, sha);
  }
}
