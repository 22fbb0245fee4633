/**
 * Scrypt parameter selection (abcd/crypto/Scrypt.cpp). A new key
 * derivation starts from the server's cost parameters and is made
 * stronger on faster devices, judged by the time one default-cost hash
 * took. The hash itself and the clock are not modelled: the measured time
 * in microseconds and the random salt are inputs.
 */
module Scrypt {
  import opened Bytes
  import opened Arith

  const SERVER_N: nat := 16384
  const SERVER_R: nat := 1
  const SERVER_P: nat := 1
  const CLIENT_N_SHIFT: nat := 14
  const MAX_CLIENT_N_SHIFT: nat := 17
  const MAX_CLIENT_R: nat := 8
  /** The intended duration of one hash, in microseconds. */
  const TARGET_USECONDS: int := 250000
  const SALT_LENGTH: nat := 32

  /** The salt and the three cost parameters of scrypt. */
  datatype Snrp = Snrp(salt: seq<byte>, n: nat, r: nat, p: nat)

  function Pow2(k: nat): (r: nat)
    ensures r >= 1
  {
    if k == 0 then 1 else 2 * Pow2(k - 1)
  }

  lemma {:induction false} Pow2Monotone(a: nat, b: nat)
    requires a <= b
    ensures Pow2(a) <= Pow2(b)
    decreases b
  {
    if a < b {
      Pow2Monotone(a, b - 1);
    }
  }

  /** The work of one hash is proportional to n * r * p. */
  function Cost(s: Snrp): nat {
    s.n * s.r * s.p
  }

  /**
   * The number of extra doublings a very fast device earns: the unsigned
   * quotient of the fast threshold by the time, less one. The quotient is
   * at least 1 there, so the unsigned decrement never wraps.
   */
  function Shifts(totalTime: int): (k: nat)
    requires 0 < totalTime < TARGET_USECONDS / MAX_CLIENT_R as int
    ensures (k + 1) * totalTime <= TARGET_USECONDS / MAX_CLIENT_R as int < (k + 2) * totalTime
  {
    var q := (TARGET_USECONDS / MAX_CLIENT_R as int) / totalTime;
    q - 1
  }

  /**
   * The r of a medium device: the target divided by the time, so that r
   * hashes of the measured length fit the target and r + 1 would not.
   */
  function MediumR(totalTime: int): (r: nat)
    requires TARGET_USECONDS / MAX_CLIENT_R as int <= totalTime < TARGET_USECONDS
    ensures 1 <= r <= MAX_CLIENT_R
    ensures r * totalTime <= TARGET_USECONDS < (r + 1) * totalTime
  {
    TARGET_USECONDS / totalTime
  }

  /** A fast device's parameters for n shifted `shift` times: n is capped, the excess goes into p. */
  function FastSnrp(salt: seq<byte>, shift: nat): (s: Snrp)
    requires shift >= CLIENT_N_SHIFT
    ensures s.r == MAX_CLIENT_R && s.p >= 1
    ensures shift <= MAX_CLIENT_N_SHIFT ==> s.n == Pow2(shift) && s.p == SERVER_P
    ensures shift > MAX_CLIENT_N_SHIFT ==>
      s.n == Pow2(MAX_CLIENT_N_SHIFT) && s.p == SERVER_P + shift - MAX_CLIENT_N_SHIFT
    ensures SERVER_N <= s.n <= Pow2(MAX_CLIENT_N_SHIFT)
  {
    assert Pow2(CLIENT_N_SHIFT) == SERVER_N;
    Pow2Monotone(CLIENT_N_SHIFT, shift);
    if MAX_CLIENT_N_SHIFT < shift then
      Snrp(salt, Pow2(MAX_CLIENT_N_SHIFT), MAX_CLIENT_R, SERVER_P + (shift - MAX_CLIENT_N_SHIFT))
    else
      Pow2Monotone(shift, MAX_CLIENT_N_SHIFT);
      Snrp(salt, Pow2(shift), MAX_CLIENT_R, SERVER_P)
  }

  /**
   * ScryptSnrp::create, after the benchmark: a slow device (or a clock
   * that went backwards) keeps the defaults; a medium device scales r; a
   * fast device takes the largest r and doubles n up to its cap, and the
   * doublings past the cap go into p.
   */
  function Tune(salt: seq<byte>, totalTime: int): (s: Snrp)
    ensures s.salt == salt
    ensures totalTime >= TARGET_USECONDS || totalTime <= 0 ==> s == Snrp(salt, SERVER_N, SERVER_R, SERVER_P)
    ensures TARGET_USECONDS / MAX_CLIENT_R as int <= totalTime < TARGET_USECONDS ==>
      s.n == SERVER_N && s.p == SERVER_P
      && s.r * totalTime <= TARGET_USECONDS < (s.r + 1) * totalTime
    ensures 0 < totalTime < TARGET_USECONDS / MAX_CLIENT_R as int ==>
      s == FastSnrp(salt, CLIENT_N_SHIFT + Shifts(totalTime))
    ensures 1 <= s.r <= MAX_CLIENT_R && s.p >= 1
    ensures SERVER_N <= s.n <= Pow2(MAX_CLIENT_N_SHIFT)
  {
    if totalTime >= TARGET_USECONDS || totalTime <= 0 then Snrp(salt, SERVER_N, SERVER_R, SERVER_P)
    else if totalTime >= TARGET_USECONDS / MAX_CLIENT_R as int then
      Snrp(salt, SERVER_N, MediumR(totalTime), SERVER_P)
    else
      FastSnrp(salt, CLIENT_N_SHIFT + Shifts(totalTime))
  }

  /** More doublings never lower a fast device's cost. */
  lemma FastCostMonotone(salt: seq<byte>, lo: nat, hi: nat)
    requires CLIENT_N_SHIFT <= lo <= hi
    ensures Cost(FastSnrp(salt, lo)) <= Cost(FastSnrp(salt, hi))
  {
    var a, b := FastSnrp(salt, lo), FastSnrp(salt, hi);
    if hi <= MAX_CLIENT_N_SHIFT {
      Pow2Monotone(lo, hi);
      MulMonotone(a.n, b.n, MAX_CLIENT_R);
    } else if lo <= MAX_CLIENT_N_SHIFT {
      Pow2Monotone(lo, MAX_CLIENT_N_SHIFT);
      MulMonotone(a.n, b.n, MAX_CLIENT_R);
      MulLeftMonotone(b.n * MAX_CLIENT_R, 1, b.p);
    } else {
      MulLeftMonotone(b.n * MAX_CLIENT_R, a.p, b.p);
    }
  }

  /** Every tuning costs at least n = SERVER_N times its r. */
  lemma CostAtLeast(s: Snrp)
    requires s.n >= SERVER_N && s.p >= 1
    ensures Cost(s) >= SERVER_N * s.r
  {
    MulMonotone(SERVER_N, s.n, s.r);
    MulLeftMonotone(s.n * s.r, 1, s.p);
  }

  /** A faster device never gets cheaper parameters than a slower one. */
  lemma TuneMonotone(salt: seq<byte>, fast: int, slow: int)
    requires 0 < fast <= slow
    ensures Cost(Tune(salt, fast)) >= Cost(Tune(salt, slow))
  {
    var a, b := Tune(salt, fast), Tune(salt, slow);
    var mid := TARGET_USECONDS / MAX_CLIENT_R as int;
    CostAtLeast(a);
    if slow >= TARGET_USECONDS {
      assert Cost(b) == SERVER_N;
    } else if slow >= mid {
      assert Cost(b) == SERVER_N * b.r;
      if fast >= mid {
        DivAntitone(TARGET_USECONDS, fast, slow);
      }
      MulLeftMonotone(SERVER_N, b.r, a.r);
    } else {
      DivAntitone(mid, fast, slow);
      FastCostMonotone(salt, CLIENT_N_SHIFT + Shifts(slow), CLIENT_N_SHIFT + Shifts(fast));
    }
  }

  lemma DivAntitone(x: int, a: int, b: int)
    requires x >= 0 && 0 < a <= b
    ensures x / b <= x / a
  {
    var qb := x / b;
    MulLeftMonotone(qb, a, b);
    QuotientMaximal(x, a, qb);
  }

  /** The quotient is the largest multiplier that stays within the dividend. */
  lemma QuotientMaximal(x: int, a: int, q: int)
    requires x >= 0 && a > 0 && q * a <= x
    ensures q <= x / a
  {
    if q > x / a {
      MulMonotone(x / a + 1, q, a);
    }
  }

  /** The fixed salt of the username hash on the main network. */
  const MAINNET_USERNAME_SALT: seq<byte> := [
    0xb5, 0x86, 0x5f, 0xfb, 0x9f, 0xa7, 0xb3, 0xbf,
    0xe4, 0xb2, 0x38, 0x4d, 0x47, 0xce, 0x83, 0x1e,
    0xe2, 0x2a, 0x4a, 0x9d, 0x5c, 0x34, 0xc7, 0xef,
    0x7d, 0x21, 0x46, 0x7c, 0xc7, 0x58, 0xf8, 0x1b]

  /** The fixed salt of the username hash on the test network. */
  const TESTNET_USERNAME_SALT: seq<byte> := [
    0xa5, 0x96, 0x3f, 0x3b, 0x9c, 0xa6, 0xb3, 0xbf,
    0xe4, 0xb2, 0x36, 0x42, 0x37, 0xfe, 0x87, 0x1e,
    0xf2, 0x2a, 0x4a, 0x9d, 0x4c, 0x34, 0xa7, 0xef,
    0x3d, 0x21, 0x47, 0x8c, 0xc7, 0x58, 0xf8, 0x1b]

  /**
   * usernameSnrp: the server's parameters with a fixed salt per network,
   * so every client derives the same username hash; the two networks'
   * hashes differ.
   */
  function UsernameSnrp(testnet: bool): (s: Snrp)
    ensures s.n == SERVER_N && s.r == SERVER_R && s.p == SERVER_P
    ensures |s.salt| == SALT_LENGTH
  {
    Snrp(if testnet then TESTNET_USERNAME_SALT else MAINNET_USERNAME_SALT, SERVER_N, SERVER_R, SERVER_P)
  }

  lemma UsernameSaltsDiffer()
    ensures UsernameSnrp(true).salt != UsernameSnrp(false).salt
  {
    assert UsernameSnrp(true).salt[0] != UsernameSnrp(false).salt[0];
  }
}
