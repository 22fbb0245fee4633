/**
 * Building, pricing and saving a spend (abcd/spend/Spend.cpp): the
 * unsigned transaction with the change-only unspent outputs tried first
 * and all of them as the fallback, the fee report, the maximum
 * spendable amount, and the store side of saving a signed transaction.
 */
module Spend {
  import opened Wrappers
  import opened Status
  import opened Bytes
  import opened Wire
  import opened Script
  import opened Outputs
  import opened TxDatabase
  import opened TxFilter
  import opened Inputs
  import opened Seqs

  /** outputsFinalize: adds the change output; its code is not part of this model. */
  type Finalizer = (seq<TxOutput>, nat, string) -> Result<seq<TxOutput>>

  /** generalAirbitzFeeSpendable over the current Airbitz fee settings, left abstract. */
  type Spendable = (nat, bool) -> nat

  /** What a wallet's spend needs besides the store: network, parsers, fee schedule and library calls. */
  datatype Env = Env(
    net: Network,
    parse: AddressParser,
    table: FeeTable,
    size: Sizer,
    select: Selector,
    finalize: Finalizer,
    spendable: Spendable)

  predicate ValidEnv(env: Env) {
    |env.table| > 0
  }

  /** A fresh transaction: version 1, locktime 0, nothing in it yet. */
  const EMPTY_TX: Transaction := Transaction(1, [], [], 0)

  /** The optimal pick over the change-only outputs, or over all outputs when that fails. */
  function PickWithFallback(env: Env, tx: Transaction, filtered: seq<OutputInfo>, all: seq<OutputInfo>)
    : (r: Result<Pick>)
    requires ValidEnv(env)
    ensures PickOptimal(env.table, env.size, env.select, filtered, tx).Ok? ==>
      r == PickOptimal(env.table, env.size, env.select, filtered, tx)
    ensures PickOptimal(env.table, env.size, env.select, filtered, tx).Fail? ==>
      r == PickOptimal(env.table, env.size, env.select, all, tx)
  {
    match PickOptimal(env.table, env.size, env.select, filtered, tx)
    case Ok(p) => Ok(p)
    case Fail(_, _) => PickOptimal(env.table, env.size, env.select, all, tx)
  }

  /**
   * spendMakeTx over the two unspent-output lists. The request's Airbitz
   * fee is cleared as soon as the outputs are built, so it stays cleared
   * when a later step fails; on success the miner fee is the pick's fee.
   */
  function MakeTx(env: Env, info: SendInfo, changeAddress: string,
                  filtered: seq<OutputInfo>, all: seq<OutputInfo>)
    : (r: (Result<Transaction>, SendInfo))
    requires ValidEnv(env) && IsInt64(info.details.amountSatoshi)
    ensures var built := OutputsForSendInfo(env.net, env.parse, [], info);
      var pick := PickWithFallback(env, EMPTY_TX.(outputs := built.1), filtered, all);
      && (built.0.Failed? ==> r == (Fail(built.0.code, built.0.message), info))
      && (built.0.Pass? ==>
            (r.1.details.amountFeesAirbitzSatoshi == 0
             && r.1.details.amountSatoshi == info.details.amountSatoshi
             && r.1.destAddress == info.destAddress && r.1.transfer == info.transfer))
      && (built.0.Pass? && pick.Fail? ==> r.0.Fail? && r.0.code == InsufficientFunds)
      && (r.0.Ok? ==>
            (built.0.Pass? && pick.Ok?
             && r.0.value.version == 1 && r.0.value.locktime == 0
             && r.0.value.inputs == pick.value.tx.inputs
             && r.1.details.amountFeesMinersSatoshi == pick.value.fee))
      && (r.0.Ok? <==>
            (built.0.Pass? && pick.Ok?
             && env.finalize(pick.value.tx.outputs, pick.value.change, changeAddress).Ok?))
  {
    var (outcome, outs, info') := OutputsForSendInfo(env.net, env.parse, EMPTY_TX.outputs, info);
    if outcome.Failed? then (Fail(outcome.code, outcome.message), info)
    else
      var tx := EMPTY_TX.(outputs := outs);
      match PickWithFallback(env, tx, filtered, all)
      case Fail(code, message) => (Fail(code, message), info')
      case Ok(pick) =>
        match env.finalize(pick.tx.outputs, pick.change, changeAddress)
        case Fail(code, message) => (Fail(code, message), info')
        case Ok(outs') =>
          (Ok(pick.tx.(outputs := outs')), info'.(details := info'.details.(amountFeesMinersSatoshi := pick.fee)))
  }

  /**
   * What a successful spendMakeTx promises: the Airbitz fee cleared, the
   * miner fee at most the cap, and the inputs spending outputs from the
   * change-only list when that list can pay, and from the full list
   * otherwise.
   */
  lemma MakeTxShape(env: Env, info: SendInfo, changeAddress: string,
                    filtered: seq<OutputInfo>, all: seq<OutputInfo>)
    requires ValidEnv(env) && IsInt64(info.details.amountSatoshi)
    requires forall target :: SoundSelection(filtered, target, env.select(filtered, target))
    requires forall target :: SoundSelection(all, target, env.select(all, target))
    ensures var r := MakeTx(env, info, changeAddress, filtered, all);
      var tx := EMPTY_TX.(outputs := OutputsForSendInfo(env.net, env.parse, [], info).1);
      var fromFiltered := PickOptimal(env.table, env.size, env.select, filtered, tx).Ok?;
      r.0.Ok? ==>
        && r.1.details.amountFeesAirbitzSatoshi == 0
        && 0 <= r.1.details.amountFeesMinersSatoshi <= FEE_CAP
        && exists chosen ::
             && r.0.value.inputs == SpendInputs(chosen)
             && (fromFiltered ==> forall x | x in chosen :: x in filtered)
             && (!fromFiltered ==> forall x | x in chosen :: x in all)
  {
    var built := OutputsForSendInfo(env.net, env.parse, [], info);
    if built.0.Pass? {
      var tx := EMPTY_TX.(outputs := built.1);
      PickOptimalCovers(env.table, env.size, env.select, filtered, tx);
      PickOptimalCovers(env.table, env.size, env.select, all, tx);
    }
  }

  /** The full list is consulted only when the change-only list cannot pay. */
  lemma MakeTxIgnoresAll(env: Env, info: SendInfo, changeAddress: string,
                         filtered: seq<OutputInfo>, all: seq<OutputInfo>, all': seq<OutputInfo>)
    requires ValidEnv(env) && IsInt64(info.details.amountSatoshi)
    ensures PickOptimal(env.table, env.size, env.select, filtered,
                        EMPTY_TX.(outputs := OutputsForSendInfo(env.net, env.parse, [], info).1)).Ok? ==>
      MakeTx(env, info, changeAddress, filtered, all) == MakeTx(env, info, changeAddress, filtered, all')
  {
  }

  /** An unspent-output list is exactly what get_utxos answers for the wallet's addresses. */
  ghost predicate UtxoList(db: Db, order: seq<Hash>, rank: map<Hash, nat>, extract: Extractor,
                           addresses: set<PaymentAddress>, filter: bool, utxos: seq<OutputInfo>)
  {
    && Enumerates(db, order) && Ranked(db, rank)
    && forall x :: x in utxos <==> IsUtxo(db, order, rank, extract, addresses, filter, x)
  }

  /**
   * spendMakeTx against the store: build the outputs, query the
   * change-only unspent outputs, and query all of them only when the
   * first pick fails. The answer is MakeTx over the lists the queries
   * returned.
   */
  method SpendMakeTx(env: Env, db: Db, order: seq<Hash>, ghost rank: map<Hash, nat>, extract: Extractor,
                     addresses: set<PaymentAddress>, info: SendInfo, changeAddress: string)
    returns (r: Result<Transaction>, info': SendInfo, filtered: seq<OutputInfo>, all: seq<OutputInfo>)
    requires ValidEnv(env) && IsInt64(info.details.amountSatoshi)
    requires Enumerates(db, order) && Ranked(db, rank)
    ensures (r, info') == MakeTx(env, info, changeAddress, filtered, all)
    ensures var built := OutputsForSendInfo(env.net, env.parse, [], info);
      && (built.0.Pass? ==> UtxoList(db, order, rank, extract, addresses, true, filtered))
      && (built.0.Pass? && PickOptimal(env.table, env.size, env.select, filtered, EMPTY_TX.(outputs := built.1)).Fail? ==>
            UtxoList(db, order, rank, extract, addresses, false, all))
  {
    var built := OutputsForSendInfo(env.net, env.parse, EMPTY_TX.outputs, info);
    filtered, all := [], [];
    if built.0.Failed? {
      return Fail(built.0.code, built.0.message), info, filtered, all;
    }
    var tx := EMPTY_TX.(outputs := built.1);
    var utxos := GetUtxos(db, order, rank, extract, addresses, true);
    filtered := utxos;
    var pick := PickOptimal(env.table, env.size, env.select, utxos, tx);
    if pick.Fail? {
      var utxos' := GetUtxos(db, order, rank, extract, addresses, false);
      all := utxos';
      pick := PickOptimal(env.table, env.size, env.select, utxos', tx);
    }
    assert pick == PickWithFallback(env, tx, filtered, all);
    if pick.Fail? {
      return Fail(pick.code, pick.message), built.2, filtered, all;
    }
    var p := pick.value;
    var fin := env.finalize(p.tx.outputs, p.change, changeAddress);
    if fin.Fail? {
      return Fail(fin.code, fin.message), built.2, filtered, all;
    }
    r := Ok(p.tx.(outputs := fin.value));
    info' := built.2.(details := built.2.details.(amountFeesMinersSatoshi := p.fee));
  }

  /**
   * spendCalculateFees: both fees are cleared, a change address is
   * obtained, and the unsigned transaction is built; the answer is the
   * sum of the two fees afterwards, which is the miner fee alone.
   */
  function CalculateFees(env: Env, info: SendInfo, changeAddress: Result<string>,
                         filtered: seq<OutputInfo>, all: seq<OutputInfo>)
    : (r: (Result<int>, SendInfo))
    requires ValidEnv(env) && IsInt64(info.details.amountSatoshi)
    ensures var zeroed := info.(details := info.details.(amountFeesAirbitzSatoshi := 0, amountFeesMinersSatoshi := 0));
      && (changeAddress.Fail? ==> r == (Fail(changeAddress.code, changeAddress.message), zeroed))
      && (changeAddress.Ok? ==>
            var made := MakeTx(env, zeroed, changeAddress.value, filtered, all);
            && r.1 == made.1
            && (r.0.Ok? <==> made.0.Ok?)
            && (made.0.Fail? ==> r.0 == Fail(made.0.code, made.0.message)))
    ensures r.0.Ok? ==> r.1.details.amountFeesAirbitzSatoshi == 0 && r.0.value == r.1.details.amountFeesMinersSatoshi
  {
    var zeroed := info.(details := info.details.(amountFeesAirbitzSatoshi := 0, amountFeesMinersSatoshi := 0));
    match changeAddress
    case Fail(code, message) => (Fail(code, message), zeroed)
    case Ok(address) =>
      var (made, info') := MakeTx(env, zeroed, address, filtered, all);
      match made
      case Fail(code, message) => (Fail(code, message), info')
      case Ok(_) => (Ok(info'.details.amountFeesAirbitzSatoshi + info'.details.amountFeesMinersSatoshi), info')
  }

  /** The reported fee is the fee of the optimal pick the transaction was built with. */
  lemma CalculateFeesIsPickFee(env: Env, info: SendInfo, changeAddress: Result<string>,
                               filtered: seq<OutputInfo>, all: seq<OutputInfo>)
    requires ValidEnv(env) && IsInt64(info.details.amountSatoshi)
    ensures var r := CalculateFees(env, info, changeAddress, filtered, all);
      r.0.Ok? ==>
        var tx := EMPTY_TX.(outputs := OutputsForSendInfo(env.net, env.parse, [], info).1);
        var pick := PickWithFallback(env, tx, filtered, all);
        pick.Ok? && r.0.value == pick.value.fee <= FEE_CAP
  {
    var zeroed := info.(details := info.details.(amountFeesAirbitzSatoshi := 0, amountFeesMinersSatoshi := 0));
    assert OutputsForSendInfo(env.net, env.parse, [], zeroed).1 == OutputsForSendInfo(env.net, env.parse, [], info).1;
  }

  /**
   * spendCalculateMax: only the change-only outputs are used. When every
   * one of them together cannot pay the request the answer is 0, not an
   * error; otherwise it is the Airbitz-spendable part of what is left.
   */
  function CalculateMax(env: Env, info: SendInfo, filtered: seq<OutputInfo>)
    : (r: (Result<nat>, SendInfo))
    requires ValidEnv(env) && IsInt64(info.details.amountSatoshi)
    ensures var built := OutputsForSendInfo(env.net, env.parse, [], info);
      && (built.0.Failed? <==> r.0.Fail?)
      && (built.0.Failed? ==> r == (Fail(built.0.code, built.0.message), info))
      && (built.0.Pass? ==>
            var pick := PickMaximum(env.table, env.size, filtered, EMPTY_TX.(outputs := built.1));
            && r.1 == built.2
            && (pick.Fail? ==> r.0 == Ok(0))
            && (pick.Ok? ==> r.0 == Ok(env.spendable(pick.value.change, info.transfer))))
  {
    var (outcome, outs, info') := OutputsForSendInfo(env.net, env.parse, EMPTY_TX.outputs, info);
    if outcome.Failed? then (Fail(outcome.code, outcome.message), info)
    else
      match PickMaximum(env.table, env.size, filtered, EMPTY_TX.(outputs := outs))
      case Ok(pick) => (Ok(env.spendable(pick.change, info'.transfer)), info')
      case Fail(_, _) => (Ok(0), info')
  }

  /**
   * The maximum is zero when the uint64 sum of the inputs falls short of the
   * requested amount plus the miner fee, that sum also taken as uint64.
   */
  lemma CalculateMaxShort(env: Env, info: SendInfo, filtered: seq<OutputInfo>)
    requires ValidEnv(env) && IsInt64(info.details.amountSatoshi)
    ensures var built := OutputsForSendInfo(env.net, env.parse, [], info);
      built.0.Pass? ==>
        var tx := WithInputs(EMPTY_TX.(outputs := built.1), filtered);
        var sourced := ToUint64(Sum(Values(filtered)));
        var fee := MinerFee(env.table, env.size, tx, sourced);
        sourced < ToUint64(ToUint64(info.details.amountSatoshi) + fee) ==>
          CalculateMax(env, info, filtered).0 == Ok(0)
  {
    var built := OutputsForSendInfo(env.net, env.parse, [], info);
    if built.0.Pass? {
      SendTotal(env, info);
      var tx := EMPTY_TX.(outputs := built.1);
      MaxOfPick(env, info, filtered, tx);
      PickMaximumFor(env.table, env.size, filtered, tx, info.details.amountSatoshi);
    }
  }

  /**
   * Otherwise the maximum is taken from what the inputs hold beyond the
   * requested amount and the miner fee, all as uint64.
   */
  lemma CalculateMaxUsable(env: Env, info: SendInfo, filtered: seq<OutputInfo>)
    requires ValidEnv(env) && IsInt64(info.details.amountSatoshi)
    ensures var built := OutputsForSendInfo(env.net, env.parse, [], info);
      built.0.Pass? ==>
        var tx := WithInputs(EMPTY_TX.(outputs := built.1), filtered);
        var sourced := ToUint64(Sum(Values(filtered)));
        var fee := MinerFee(env.table, env.size, tx, sourced);
        var need := ToUint64(ToUint64(info.details.amountSatoshi) + fee);
        sourced >= need ==>
          CalculateMax(env, info, filtered).0 == Ok(env.spendable(sourced - need, info.transfer))
  {
    var built := OutputsForSendInfo(env.net, env.parse, [], info);
    if built.0.Pass? {
      SendTotal(env, info);
      var tx := EMPTY_TX.(outputs := built.1);
      MaxOfPick(env, info, filtered, tx);
      PickMaximumFor(env.table, env.size, filtered, tx, info.details.amountSatoshi);
    }
  }

  /** With the outputs built, the maximum is read off the maximum pick. */
  lemma MaxOfPick(env: Env, info: SendInfo, filtered: seq<OutputInfo>, tx: Transaction)
    requires ValidEnv(env) && IsInt64(info.details.amountSatoshi)
    requires OutputsForSendInfo(env.net, env.parse, [], info).0.Pass?
    requires tx == EMPTY_TX.(outputs := OutputsForSendInfo(env.net, env.parse, [], info).1)
    ensures var pick := PickMaximum(env.table, env.size, filtered, tx);
      CalculateMax(env, info, filtered).0 == if pick.Ok? then Ok(env.spendable(pick.value.change, info.transfer)) else Ok(0)
  {
  }

  /** The outputs built for a send total its amount, as uint64. */
  lemma SendTotal(env: Env, info: SendInfo)
    requires IsInt64(info.details.amountSatoshi)
    ensures var built := OutputsForSendInfo(env.net, env.parse, [], info);
      built.0.Pass? ==> OutputsTotal(built.1) == ToUint64(info.details.amountSatoshi)
  {
    var outs := OutputsForSendInfo(env.net, env.parse, [], info).1;
    if OutputsForSendInfo(env.net, env.parse, [], info).0.Pass? {
      assert OutputsTotal(outs) == OutputsTotal(outs[..0]) + outs[0].value;
    }
  }

  /** Values below 2^64 read the same as uint64. */
  lemma NoWrap(sourced: int, amount: int, fee: int)
    requires 0 <= sourced < TWO_64 && 0 <= amount && 0 <= fee && amount + fee < TWO_64
    ensures ToUint64(sourced) == sourced && ToUint64(amount) == amount
    ensures ToUint64(ToUint64(amount) + fee) == amount + fee
  {
  }

  /**
   * For a non-negative amount and balances that stay below 2^64, the
   * maximum is taken from the plain difference.
   */
  lemma CalculateMaxUnwrapped(env: Env, info: SendInfo, filtered: seq<OutputInfo>)
    requires ValidEnv(env) && IsInt64(info.details.amountSatoshi)
    requires 0 <= info.details.amountSatoshi
    ensures var built := OutputsForSendInfo(env.net, env.parse, [], info);
      built.0.Pass? && Sum(Values(filtered)) < TWO_64 ==>
        var tx := WithInputs(EMPTY_TX.(outputs := built.1), filtered);
        var fee := MinerFee(env.table, env.size, tx, Sum(Values(filtered)));
        info.details.amountSatoshi + fee < TWO_64 ==>
          && (Sum(Values(filtered)) < info.details.amountSatoshi + fee ==> CalculateMax(env, info, filtered).0 == Ok(0))
          && (Sum(Values(filtered)) >= info.details.amountSatoshi + fee ==>
                CalculateMax(env, info, filtered).0
                  == Ok(env.spendable(Sum(Values(filtered)) - info.details.amountSatoshi - fee, info.transfer)))
  {
    var built := OutputsForSendInfo(env.net, env.parse, [], info);
    var sourced := Sum(Values(filtered));
    if built.0.Pass? && sourced < TWO_64 {
      var tx := WithInputs(EMPTY_TX.(outputs := built.1), filtered);
      var fee := MinerFee(env.table, env.size, tx, sourced);
      if info.details.amountSatoshi + fee < TWO_64 {
        NoWrap(sourced, info.details.amountSatoshi, fee);
        CalculateMaxShort(env, info, filtered);
        CalculateMaxUsable(env, info, filtered);
      }
    }
  }

  /**
   * spendSaveTx, the store side: the decoded transaction is inserted, and
   * the watcher is saved exactly when the insert added a row.
   */
  function SaveTx(db: Db, hs: Hashers, raw: seq<byte>, now: int): (r: (bool, Db))
    requires Decode(raw).Some?
    ensures var tx := Decode(raw).value.0;
      && (r.0 <==> hs.txid(tx) !in db.rows)
      && r.1.rows.Keys == db.rows.Keys + {hs.txid(tx)}
      && (forall k | k in db.rows :: r.1.rows[k] == db.rows[k])
      && r.1.lastHeight == db.lastHeight
  {
    var tx := Decode(raw).value.0;
    Insert(db, hs, tx, now)
  }

  /** Saving the same transaction again adds nothing and does not save the watcher. */
  lemma SaveTwice(db: Db, hs: Hashers, raw: seq<byte>, now: int, later: int)
    requires Decode(raw).Some?
    ensures var (_, once) := SaveTx(db, hs, raw, now);
      SaveTx(once, hs, raw, later) == (false, once)
  {
  }

  /** A transaction built and encoded by the wallet is saved as itself. */
  lemma SaveOfEncoded(db: Db, hs: Hashers, tx: Transaction, now: int)
    requires WellFormed(tx)
    ensures Decode(Encode(tx)).Some? && Decode(Encode(tx)).value.0 == tx
    ensures var r := SaveTx(db, hs, Encode(tx), now);
      r.0 ==> r.1.rows[hs.txid(tx)] == TxRow(tx, hs.txid(tx), hs.ntxid(tx), Unconfirmed, 0, now)
  {
    DecodeOfEncode(tx, []);
    assert Encode(tx) + [] == Encode(tx);
  }
}
