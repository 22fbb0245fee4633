/**
 * Server-supplied general settings (abcd/General.cpp): the miner-fee
 * table with its consistency fix-up, and the server lists with their
 * built-in fallbacks.
 *
 * Reading the cached JSON files is not modelled; their parsed contents
 * are inputs. An integer field that the file lacks is None and takes the
 * field's default, as the ABC_JSON_INTEGER getters do; an array entry is
 * either a string or some other JSON value.
 */
module General {
  import opened Wrappers

  // ---------------------------------------------------------------------
  // Miner fees

  /** The defaults of the server-side fee table, confirmFees1 … confirmFees5. */
  const DEFAULT_CONFIRM_FEES: seq<int> := [43210, 32110, 21098, 16001, 11002]

  /** One JSON object holding confirmFees1 … confirmFees5, each possibly absent. */
  datatype FeesJson = FeesJson(confirmFees: seq<Option<int>>)

  /** The five fee levels, fastest confirmation first. */
  datatype BitcoinFeeInfo = BitcoinFeeInfo(confirmFees: seq<int>)

  predicate WellFormed(info: BitcoinFeeInfo) {
    |info.confirmFees| == 5
  }

  /** A fee table is consistent when a faster level never costs less than a slower one. */
  predicate Consistent(fees: seq<int>) {
    forall i | 0 < i < |fees| :: fees[i] <= fees[i - 1]
  }

  /** Level i of a JSON fee object: the value held, else the default. */
  function FieldOr(json: FeesJson, i: nat, default: int): int {
    if i < |json.confirmFees| then json.confirmFees[i].GetOr(default) else default
  }

  /**
   * The fees before the fix-up: a nonzero estimate wins, otherwise the
   * server table's value, whose own default is DEFAULT_CONFIRM_FEES. An
   * estimate that is absent counts as 0.
   */
  function Chosen(server: FeesJson, estimate: FeesJson): (r: seq<int>)
    ensures |r| == 5
    ensures forall i | 0 <= i < 5 ::
      r[i] == (if FieldOr(estimate, i, 0) != 0 then FieldOr(estimate, i, 0)
               else FieldOr(server, i, DEFAULT_CONFIRM_FEES[i]))
  {
    seq(5, i requires 0 <= i < 5 =>
      var e := FieldOr(estimate, i, 0);
      if e != 0 then e else FieldOr(server, i, DEFAULT_CONFIRM_FEES[i]))
  }

  /**
   * The fix-up: walking from level 2 to level 5, a level above the one
   * before it is lowered to it. Each step sees the already-lowered level.
   */
  function FixUp(fees: seq<int>): (r: seq<int>)
    ensures |r| == |fees|
    ensures Consistent(r)
    ensures forall i | 0 <= i < |fees| :: r[i] <= fees[i]
    ensures fees != [] ==> r[0] == fees[0]
    decreases |fees|
  {
    if |fees| <= 1 then fees
    else
      var front := FixUp(fees[..|fees| - 1]);
      var last := fees[|fees| - 1];
      front + [if last > front[|front| - 1] then front[|front| - 1] else last]
  }

  /** The least of the first n levels. */
  function PrefixMin(fees: seq<int>, n: nat): int
    requires 0 < n <= |fees|
  {
    if n == 1 then fees[0]
    else
      var m := PrefixMin(fees, n - 1);
      if fees[n - 1] < m then fees[n - 1] else m
  }

  lemma {:induction false} PrefixMinPrefix(fees: seq<int>, k: nat, n: nat)
    requires 0 < n <= k <= |fees|
    ensures PrefixMin(fees[..k], n) == PrefixMin(fees, n)
  {
    assert fees[..k][n - 1] == fees[n - 1];
    if n > 1 {
      PrefixMinPrefix(fees, k, n - 1);
    }
  }

  /** Each level after the fix-up is the least of that level and every faster one. */
  lemma {:induction false} FixUpIsPrefixMin(fees: seq<int>)
    ensures forall i | 0 <= i < |fees| :: FixUp(fees)[i] == PrefixMin(fees, i + 1)
    decreases |fees|
  {
    if |fees| > 1 {
      var init := fees[..|fees| - 1];
      FixUpIsPrefixMin(init);
      forall i | 0 <= i < |fees|
        ensures FixUp(fees)[i] == PrefixMin(fees, i + 1)
      {
        if i < |fees| - 1 {
          PrefixMinPrefix(fees, |fees| - 1, i + 1);
        } else {
          PrefixMinPrefix(fees, |fees| - 1, i);
        }
      }
    }
  }

  /** A consistent table passes the fix-up unchanged; so the fix-up is idempotent. */
  lemma {:induction false} FixUpKeepsConsistent(fees: seq<int>)
    requires Consistent(fees)
    ensures FixUp(fees) == fees
    decreases |fees|
  {
    if |fees| > 1 {
      var init := fees[..|fees| - 1];
      assert Consistent(init);
      FixUpKeepsConsistent(init);
      assert fees == init + [fees[|fees| - 1]];
    }
  }

  lemma FixUpIdempotent(fees: seq<int>)
    ensures FixUp(FixUp(fees)) == FixUp(fees)
  {
    FixUpKeepsConsistent(FixUp(fees));
  }

  /** generalBitcoinFeeInfo: choose each level, then make the table consistent. */
  function FeeInfo(server: FeesJson, estimate: FeesJson): (r: BitcoinFeeInfo)
    ensures WellFormed(r) && Consistent(r.confirmFees)
    ensures forall i | 0 <= i < 5 :: r.confirmFees[i] <= Chosen(server, estimate)[i]
    ensures r.confirmFees[0] == Chosen(server, estimate)[0]
  {
    BitcoinFeeInfo(FixUp(Chosen(server, estimate)))
  }

  /** With no files at all, the table is the defaults, which need no fix-up. */
  lemma DefaultFeeInfo()
    ensures FeeInfo(FeesJson([]), FeesJson([])).confirmFees == DEFAULT_CONFIRM_FEES
  {
    var chosen := Chosen(FeesJson([]), FeesJson([]));
    assert chosen == DEFAULT_CONFIRM_FEES;
    FixUpKeepsConsistent(DEFAULT_CONFIRM_FEES);
  }

  // ---------------------------------------------------------------------
  // Server lists

  datatype JsonValue = JString(s: string) | JOther

  const TESTNET_BITCOIN_SERVERS: seq<string> := ["tcp://obelisk-testnet.airbitz.co:9091"]

  const FALLBACK_BITCOIN_SERVERS: seq<string> := [
    "tcp://obelisk.airbitz.co:9091",
    "stratum://stratum-az-wusa.airbitz.co:50001",
    "stratum://stratum-az-wjapan.airbitz.co:50001",
    "stratum://stratum-az-neuro.airbitz.co:50001"]

  const DEFAULT_SYNC_SERVER: string := "https://git.sync.airbitz.co/repos"

  /** The string entries of a JSON array, in order; other entries are skipped. */
  function Strings(entries: seq<JsonValue>): (r: seq<string>)
    ensures forall s :: s in r <==> JString(s) in entries
    ensures |r| <= |entries|
    decreases |entries|
  {
    if entries == [] then []
    else
      var rest := Strings(entries[1..]);
      assert forall s :: JString(s) in entries <==> entries[0] == JString(s) || JString(s) in entries[1..];
      match entries[0]
      case JString(s) => [s] + rest
      case JOther => rest
  }

  /** Skipping distributes over concatenation, so the kept entries keep their order. */
  lemma {:induction false} StringsAppend(a: seq<JsonValue>, b: seq<JsonValue>)
    ensures Strings(a + b) == Strings(a) + Strings(b)
    decreases |a|
  {
    if a != [] {
      assert (a + b)[1..] == a[1..] + b;
      StringsAppend(a[1..], b);
    } else {
      assert a + b == b;
    }
  }

  /** An array of strings only is kept entire. */
  lemma {:induction false} StringsOfStrings(names: seq<string>)
    ensures Strings(seq(|names|, i requires 0 <= i < |names| => JString(names[i]))) == names
    decreases |names|
  {
    var entries := seq(|names|, i requires 0 <= i < |names| => JString(names[i]));
    if names != [] {
      assert entries[1..] == seq(|names| - 1, i requires 0 <= i < |names| - 1 => JString(names[1..][i]));
      StringsOfStrings(names[1..]);
      assert names == [names[0]] + names[1..];
    }
  }

  /**
   * generalBitcoinServers: on testnet, exactly the testnet server; on
   * mainnet, the configured string entries, or the fallbacks when there
   * are none.
   */
  function BitcoinServers(testnet: bool, obeliskServers: seq<JsonValue>): (r: seq<string>)
    ensures testnet ==> r == TESTNET_BITCOIN_SERVERS
    ensures !testnet && Strings(obeliskServers) != [] ==> r == Strings(obeliskServers)
    ensures !testnet && Strings(obeliskServers) == [] ==> r == FALLBACK_BITCOIN_SERVERS
    ensures r != []
  {
    if testnet then TESTNET_BITCOIN_SERVERS
    else
      var out := Strings(obeliskServers);
      if out == [] then FALLBACK_BITCOIN_SERVERS else out
  }

  /** The fallbacks replace a list exactly when it has no string entry. */
  lemma FallbackWhenNoString(obeliskServers: seq<JsonValue>)
    ensures BitcoinServers(false, obeliskServers) == FALLBACK_BITCOIN_SERVERS
            <==> (forall s :: JString(s) !in obeliskServers) || Strings(obeliskServers) == FALLBACK_BITCOIN_SERVERS
  {
    assert Strings(obeliskServers) != [] ==> Strings(obeliskServers)[0] in Strings(obeliskServers);
  }

  /** generalSyncServers: the configured string entries, or the one default. */
  function SyncServers(syncServers: seq<JsonValue>): (r: seq<string>)
    ensures Strings(syncServers) != [] ==> r == Strings(syncServers)
    ensures Strings(syncServers) == [] ==> r == [DEFAULT_SYNC_SERVER]
    ensures forall s | s in r :: JString(s) in syncServers || s == DEFAULT_SYNC_SERVER
  {
    var out := Strings(syncServers);
    if out == [] then [DEFAULT_SYNC_SERVER] else out
  }
}
