/**
 * Choosing and signing the inputs of a spend (abcd/spend/Inputs.cpp): the
 * miner-fee formula over the size-based fee schedule, the two input
 * pickers, the challenge (previous output script) lookup and the signing
 * of unsigned inputs.
 */
module Inputs {
  import opened Wrappers
  import opened Status
  import opened Bytes
  import opened Wire
  import opened Script
  import opened Outputs
  import opened Seqs
  import opened TxDatabase
  import opened TxFilter
  import opened Arith

  // ---------------------------------------------------------------------
  // The miner fee

  /** One entry of the fee schedule: transactions up to maxSize bytes pay fee. */
  datatype FeeRow = FeeRow(maxSize: nat, fee: nat)

  predicate Ascending(rows: seq<FeeRow>) {
    forall i, j | 0 <= i < j < |rows| :: rows[i].maxSize < rows[j].maxSize
  }

  /** The schedule as a std::map from size to fee: entries in ascending key order. */
  type FeeTable = rows: seq<FeeRow> | Ascending(rows) witness []

  /** Bytes added per input for the signature script still to come (72 + 32). */
  const SIGNATURE_ALLOWANCE: nat := 104

  /**
   * satoshi_raw_size, left abstract here so that fee reasoning does not
   * unfold the encoder; Wire.RawSize is the size of the real encoding.
   */
  type Sizer = Transaction -> nat

  /** The size the fee is charged on: the raw transaction plus the signature allowance. */
  function FeeSize(size: Sizer, tx: Transaction): nat {
    size(tx) + SIGNATURE_ALLOWANCE * |tx.inputs|
  }

  /** The index of the first row whose size bound admits `size`, if any. */
  function FirstFit(table: seq<FeeRow>, size: nat): (r: Option<nat>)
    ensures r.None? <==> forall k | 0 <= k < |table| :: table[k].maxSize < size
    ensures r.Some? ==> r.value < |table| && size <= table[r.value].maxSize
    ensures r.Some? ==> forall j | 0 <= j < r.value :: table[j].maxSize < size
  {
    if table == [] then None
    else if size <= table[0].maxSize then Some(0)
    else match FirstFit(table[1..], size)
      case None => None
      case Some(k) => Some(k + 1)
  }

  /** In an ascending schedule the first fitting row is the tightest one. */
  lemma FirstFitTightest(table: FeeTable, size: nat, k: nat)
    requires k < |table| && size <= table[k].maxSize
    ensures FirstFit(table, size).Some?
    ensures table[FirstFit(table, size).value].maxSize <= table[k].maxSize
  {
  }

  /**
   * The size-based fee: the fee of the first row that fits, unless no row
   * fits or that fee is zero, in which case the last row's fee.
   */
  function SizeFee(table: FeeTable, size: nat): (f: nat)
    requires |table| > 0
    ensures FirstFit(table, size).Some? && table[FirstFit(table, size).value].fee != 0 ==>
      f == table[FirstFit(table, size).value].fee
    ensures FirstFit(table, size).None? || table[FirstFit(table, size).value].fee == 0 ==>
      f == table[|table| - 1].fee
  {
    match FirstFit(table, size)
    case Some(k) => if table[k].fee != 0 then table[k].fee else table[|table| - 1].fee
    case None => table[|table| - 1].fee
  }

  /**
   * The schedule lookup without FirstFit: the fee of any row that admits
   * the size while no earlier row does, unless that fee is zero; the last
   * row's fee when no row admits the size.
   */
  lemma SizeFeeOfRow(table: FeeTable, size: nat)
    requires |table| > 0
    ensures forall k | 0 <= k < |table| && size <= table[k].maxSize && table[k].fee != 0
                       && (forall j | 0 <= j < k :: table[j].maxSize < size) ::
      SizeFee(table, size) == table[k].fee
    ensures (forall k | 0 <= k < |table| :: table[k].maxSize < size) ==>
      SizeFee(table, size) == table[|table| - 1].fee
  {
  }

  /** The amount fee (0.1% of what is sourced) clamped to [sizeFee / 2, sizeFee]. */
  function ClampedFee(sizeFee: nat, sourced: nat): (c: nat)
    ensures sizeFee / 2 <= c <= sizeFee
    ensures sizeFee / 2 <= sourced / 1000 <= sizeFee ==> c == sourced / 1000
    ensures sourced / 1000 < sizeFee / 2 ==> c == sizeFee / 2
    ensures sizeFee < sourced / 1000 ==> c == sizeFee
  {
    var amountFee := sourced / 1000;
    var atLeast := if amountFee < sizeFee / 2 then sizeFee / 2 else amountFee;
    if sizeFee < atLeast then sizeFee else atLeast
  }

  /**
   * minerFee as written: the clamped fee rounded down to a multiple of a
   * tenth of the size fee. A size fee below 10 makes that tenth zero and
   * the rounding a modulo by zero, which None stands for.
   */
  function MinerFeeAsWritten(table: FeeTable, size: Sizer, tx: Transaction, sourced: nat): (r: Option<nat>)
    requires |table| > 0
    ensures r.None? <==> SizeFee(table, FeeSize(size, tx)) < 10
  {
    var sizeFee := SizeFee(table, FeeSize(size, tx));
    var incFee := sizeFee / 10;
    var c := ClampedFee(sizeFee, sourced);
    if incFee == 0 then None else Some(c - c % incFee)
  }

  /** A one-row schedule charging 9 satoshi: every fee computation divides by zero. */
  lemma MinerFeeDividesByZero(size: Sizer, tx: Transaction, sourced: nat)
    ensures MinerFeeAsWritten([FeeRow(1000, 9)], size, tx, sourced).None?
  {
  }

  /**
   * minerFee with the rounding skipped when the tenth is zero; the fee
   * every caller in this model uses.
   */
  function MinerFee(table: FeeTable, size: Sizer, tx: Transaction, sourced: nat): (fee: nat)
    requires |table| > 0
    ensures MinerFeeAsWritten(table, size, tx, sourced).Some? ==> fee == MinerFeeAsWritten(table, size, tx, sourced).value
    ensures MinerFeeAsWritten(table, size, tx, sourced).None? ==>
      fee == ClampedFee(SizeFee(table, FeeSize(size, tx)), sourced)
  {
    var sizeFee := SizeFee(table, FeeSize(size, tx));
    var incFee := sizeFee / 10;
    var c := ClampedFee(sizeFee, sourced);
    if incFee == 0 then c else c - c % incFee
  }

  /**
   * The fee lies in [sizeFee / 2 rounded down to a tenth, sizeFee]; for a
   * size fee of at least 10 it is the largest multiple of a tenth of the
   * size fee not above the clamped amount fee, and it agrees with the
   * source wherever the source is defined.
   */
  lemma MinerFeeBounds(table: FeeTable, size: Sizer, tx: Transaction, sourced: nat)
    requires |table| > 0
    ensures var sizeFee, fee := SizeFee(table, FeeSize(size, tx)), MinerFee(table, size, tx, sourced);
      && fee <= sizeFee
      && (sizeFee >= 10 ==>
            var inc, c := sizeFee / 10, ClampedFee(sizeFee, sourced);
            && fee % inc == 0 && fee <= c < fee + inc
            && sizeFee / 2 - (sizeFee / 2) % inc <= fee)
      && (MinerFeeAsWritten(table, size, tx, sourced).Some? ==> MinerFeeAsWritten(table, size, tx, sourced).value == fee)
  {
    var sizeFee := SizeFee(table, FeeSize(size, tx));
    if sizeFee >= 10 {
      var inc, c := sizeFee / 10, ClampedFee(sizeFee, sourced);
      RoundDown(c, inc);
      RoundDownMonotone(sizeFee / 2, c, inc);
    }
  }

  // ---------------------------------------------------------------------
  // Picking inputs

  /** The cap inputsPickOptimal puts on any computed fee. */
  const FEE_CAP: nat := 1_000_000

  /** What select_outputs returns: the chosen unspent outputs and the change over the target. */
  datatype Selection = Selection(chosen: seq<OutputInfo>, change: nat)

  /** libbitcoin's select_outputs, left abstract. */
  type Selector = (seq<OutputInfo>, nat) -> Selection

  /** The property select_outputs promises: the chosen outputs come from the list and cover the target exactly with the change. */
  predicate SoundSelection(utxos: seq<OutputInfo>, target: nat, s: Selection) {
    s.chosen != [] ==>
      && (forall x | x in s.chosen :: x in utxos)
      && Sum(Values(s.chosen)) == target + s.change
  }

  function Values(xs: seq<OutputInfo>): (r: seq<nat>)
    ensures |r| == |xs| && forall i | 0 <= i < |xs| :: r[i] == xs[i].value
  {
    seq(|xs|, i requires 0 <= i < |xs| => xs[i].value)
  }

  /** outputsTotal: the value of all outputs. */
  function OutputsTotal(outs: seq<TxOutput>): nat {
    if outs == [] then 0 else OutputsTotal(outs[..|outs| - 1]) + outs[|outs| - 1].value
  }

  /** Unsigned inputs spending the given outputs, in order, with sequence 0xffffffff. */
  function SpendInputs(xs: seq<OutputInfo>): (ins: seq<TxInput>)
    ensures |ins| == |xs|
    ensures forall i | 0 <= i < |xs| :: ins[i] == TxInput(xs[i].point, [], 0xFFFF_FFFF)
  {
    seq(|xs|, i requires 0 <= i < |xs| => TxInput(xs[i].point, [], 0xFFFF_FFFF))
  }

  function WithInputs(tx: Transaction, xs: seq<OutputInfo>): Transaction {
    tx.(inputs := SpendInputs(xs))
  }

  /** A picker's answer: the fee, the change, and the transaction with its inputs filled in. */
  datatype Pick = Pick(fee: nat, change: nat, tx: Transaction)

  /**
   * A final round of inputsPickOptimal: selecting for `target` (the
   * outputs plus the previous fee) gave a non-empty choice, the fee for
   * those inputs is within what the choice sources, and the change is
   * what is left over.
   */
  predicate Settles(table: FeeTable, size: Sizer, select: Selector, utxos: seq<OutputInfo>, tx: Transaction,
                    target: nat, p: Pick)
    requires |table| > 0
  {
    var s := select(utxos, target);
    var totalOut := OutputsTotal(tx.outputs);
    && totalOut <= target
    && s.chosen != []
    && p.tx == WithInputs(tx, s.chosen)
    && p.fee == Min(FEE_CAP, MinerFee(table, size, p.tx, target + s.change))
    && target + s.change == totalOut + p.fee + p.change
  }

  function Min(a: nat, b: nat): nat {
    if a < b then a else b
  }

  /** One pass of the loop body: no choice, a settled pick, or a retry with a higher fee. */
  datatype Round = NoChoice | Settled(p: Pick) | Retry(fee: nat)

  function PickRound(table: FeeTable, size: Sizer, select: Selector, utxos: seq<OutputInfo>, tx: Transaction, fee: nat)
    : (r: Round)
    requires |table| > 0
    ensures r.NoChoice? <==> select(utxos, OutputsTotal(tx.outputs) + fee).chosen == []
    ensures r.Settled? ==> r.p.fee <= FEE_CAP && Settles(table, size, select, utxos, tx, OutputsTotal(tx.outputs) + fee, r.p)
    ensures r.Retry? ==> fee < r.fee <= FEE_CAP
  {
    var totalOut := OutputsTotal(tx.outputs);
    var s := select(utxos, totalOut + fee);
    if s.chosen == [] then NoChoice
    else
      var sourced := totalOut + fee + s.change;
      var tx' := WithInputs(tx, s.chosen);
      var fee' := Min(FEE_CAP, MinerFee(table, size, tx', sourced));
      if sourced < totalOut + fee' then Retry(fee')
      else Settled(Pick(fee', sourced - (totalOut + fee'), tx'))
  }

  /**
   * The loop of inputsPickOptimal from a given fee. A retry happens only
   * when the new fee exceeds the old fee plus the change, so the fee
   * rises strictly under its cap and the loop ends.
   */
  function PickRounds(table: FeeTable, size: Sizer, select: Selector, utxos: seq<OutputInfo>, tx: Transaction, fee: nat)
    : (r: Result<Pick>)
    requires |table| > 0 && fee <= FEE_CAP
    ensures select(utxos, OutputsTotal(tx.outputs) + fee).chosen == [] ==>
      r == Fail(InsufficientFunds, "Insufficent funds")
    ensures r.Fail? ==> r.code == InsufficientFunds
    ensures r.Ok? ==> (r.value.fee <= FEE_CAP
      && exists target | OutputsTotal(tx.outputs) + fee <= target :: Settles(table, size, select, utxos, tx, target, r.value))
    decreases FEE_CAP - fee
  {
    match PickRound(table, size, select, utxos, tx, fee)
    case NoChoice => Fail(InsufficientFunds, "Insufficent funds")
    case Settled(p) => Ok(p)
    case Retry(fee') => PickRounds(table, size, select, utxos, tx, fee')
  }

  /** inputsPickOptimal: the loop started from a zero fee. */
  function PickOptimal(table: FeeTable, size: Sizer, select: Selector, utxos: seq<OutputInfo>, tx: Transaction): (r: Result<Pick>)
    requires |table| > 0
    ensures select(utxos, OutputsTotal(tx.outputs)).chosen == [] ==> r == Fail(InsufficientFunds, "Insufficent funds")
    ensures r.Fail? ==> r.code == InsufficientFunds
    ensures r.Ok? ==> (r.value.fee <= FEE_CAP && r.value.tx.outputs == tx.outputs
      && r.value.tx.version == tx.version && r.value.tx.locktime == tx.locktime
      && exists target | OutputsTotal(tx.outputs) <= target :: Settles(table, size, select, utxos, tx, target, r.value))
  {
    PickRounds(table, size, select, utxos, tx, 0)
  }

  /**
   * With a selector that keeps its promise, the inputs of an optimal pick
   * are unspent outputs from the list whose value pays exactly the
   * outputs, the fee and the change.
   */
  lemma PickOptimalCovers(table: FeeTable, size: Sizer, select: Selector, utxos: seq<OutputInfo>, tx: Transaction)
    requires |table| > 0
    requires forall target :: SoundSelection(utxos, target, select(utxos, target))
    ensures var r := PickOptimal(table, size, select, utxos, tx);
      r.Ok? ==> exists chosen ::
        && r.value.tx.inputs == SpendInputs(chosen)
        && (forall x | x in chosen :: x in utxos)
        && Sum(Values(chosen)) == OutputsTotal(tx.outputs) + r.value.fee + r.value.change
  {
    var r := PickOptimal(table, size, select, utxos, tx);
    if r.Ok? {
      var target :| OutputsTotal(tx.outputs) <= target && Settles(table, size, select, utxos, tx, target, r.value);
      assert SoundSelection(utxos, target, select(utxos, target));
    }
  }

  /**
   * inputsPickMaximum: every unspent output becomes an input, in order;
   * the fee is computed (uncapped) for that transaction, and the pick
   * fails exactly when the outputs plus that fee exceed what is sourced.
   * The sums and the comparison are uint64: each is taken modulo 2^64
   * (wrapping every addition and wrapping once at the end agree).
   */
  function PickMaximum(table: FeeTable, size: Sizer, utxos: seq<OutputInfo>, tx: Transaction): (r: Result<Pick>)
    requires |table| > 0
    ensures var tx', sourced := WithInputs(tx, utxos), ToUint64(Sum(Values(utxos)));
      var fee := MinerFee(table, size, tx', sourced);
      var need := ToUint64(ToUint64(OutputsTotal(tx.outputs)) + fee);
      && (r.Fail? <==> sourced < need)
      && (r.Fail? ==> r == Fail(InsufficientFunds, "Insufficent funds"))
      && (r.Ok? ==> r.value.tx == tx' && r.value.fee == fee && sourced == need + r.value.change)
  {
    var tx' := WithInputs(tx, utxos);
    var sourced := ToUint64(Sum(Values(utxos)));
    var fee := MinerFee(table, size, tx', sourced);
    var totalIn := ToUint64(Sum(Values(utxos)));
    var totalOut := ToUint64(OutputsTotal(tx.outputs));
    var need := ToUint64(totalOut + fee);
    if totalIn < need then Fail(InsufficientFunds, "Insufficent funds")
    else Ok(Pick(fee, totalIn - need, tx'))
  }

  /** The maximum pick restated for outputs whose uint64 total is that of `v`. */
  lemma PickMaximumFor(table: FeeTable, size: Sizer, utxos: seq<OutputInfo>, tx: Transaction, v: int)
    requires |table| > 0 && ToUint64(OutputsTotal(tx.outputs)) == ToUint64(v)
    ensures var sourced := ToUint64(Sum(Values(utxos)));
      var need := ToUint64(ToUint64(v) + MinerFee(table, size, WithInputs(tx, utxos), sourced));
      var r := PickMaximum(table, size, utxos, tx);
      && (r.Ok? <==> sourced >= need)
      && (r.Ok? ==> r.value.change == sourced - need)
  {
  }

  /**
   * Without wrap-around, the maximum pick fails exactly when the outputs
   * plus the fee exceed the inputs, and its change is the difference.
   */
  lemma PickMaximumUnwrapped(table: FeeTable, size: Sizer, utxos: seq<OutputInfo>, tx: Transaction)
    requires |table| > 0
    ensures var tx', sourced := WithInputs(tx, utxos), Sum(Values(utxos));
      var fee := MinerFee(table, size, tx', ToUint64(sourced));
      var r := PickMaximum(table, size, utxos, tx);
      sourced < TWO_64 && OutputsTotal(tx.outputs) + fee < TWO_64 ==>
        && (r.Fail? <==> sourced < OutputsTotal(tx.outputs) + fee)
        && (r.Ok? ==> sourced == OutputsTotal(tx.outputs) + r.value.fee + r.value.change)
  {
  }

  /**
   * The uint64 test lets a pick through that the outputs cannot pay: one
   * output of 2^64 - 1 with a one-row schedule of fee 20 (a size fee of 20,
   * so a miner fee of 10, defined in the source) wraps the requirement to
   * 9, below the 1000 satoshi sourced.
   */
  lemma PickMaximumWraps(size: Sizer, utxos: seq<OutputInfo>, tx: Transaction)
    requires tx.outputs == [TxOutput(TWO_64 - 1, [])] && Sum(Values(utxos)) == 1000
    ensures MinerFeeAsWritten([FeeRow(0, 20)], size, WithInputs(tx, utxos), 1000) == Some(10)
    ensures PickMaximum([FeeRow(0, 20)], size, utxos, tx).Ok?
    ensures PickMaximum([FeeRow(0, 20)], size, utxos, tx).value.change == 991
  {
    var tx' := WithInputs(tx, utxos);
    assert OutputsTotal(tx.outputs) == OutputsTotal(tx.outputs[..0]) + (TWO_64 - 1);
    assert SizeFee([FeeRow(0, 20)], FeeSize(size, tx')) == 20;
    assert MinerFee([FeeRow(0, 20)], size, tx', 1000) == 10;
  }

  // ---------------------------------------------------------------------
  // Challenges and signatures

  /** The source of an input can be read: stored, with the referenced output present. */
  predicate Resolves(db: Db, p: OutPoint) {
    p.hash in db.rows && p.index < |db.rows[p.hash].tx.outputs|
  }

  /**
   * What gather_challenges reads without bounds checks: every input up to
   * the first one whose source is missing refers to an existing output.
   */
  predicate ChallengesReadable(db: Db, ins: seq<TxInput>) {
    forall i | 0 <= i < |ins| && ins[i].previousOutput.hash in db.rows ::
      (exists j | 0 <= j < i :: ins[j].previousOutput.hash !in db.rows) || Resolves(db, ins[i].previousOutput)
  }

  /**
   * gather_challenges: None when some input's source transaction is not
   * stored, otherwise the output script each input spends.
   */
  method GatherChallenges(db: Db, tx: Transaction) returns (r: Option<seq<seq<byte>>>)
    requires ChallengesReadable(db, tx.inputs)
    ensures r.None? <==> exists i | 0 <= i < |tx.inputs| :: tx.inputs[i].previousOutput.hash !in db.rows
    ensures r.Some? ==> |r.value| == |tx.inputs| && forall i | 0 <= i < |tx.inputs| ::
      Resolves(db, tx.inputs[i].previousOutput)
      && r.value[i] == db.rows[tx.inputs[i].previousOutput.hash].tx.outputs[tx.inputs[i].previousOutput.index].script
  {
    var challenges: seq<seq<byte>> := [];
    for i := 0 to |tx.inputs|
      invariant |challenges| == i
      invariant forall j | 0 <= j < i :: tx.inputs[j].previousOutput.hash in db.rows
      invariant forall j | 0 <= j < i :: (Resolves(db, tx.inputs[j].previousOutput)
        && challenges[j] == db.rows[tx.inputs[j].previousOutput.hash].tx.outputs[tx.inputs[j].previousOutput.index].script)
    {
      var p := tx.inputs[i].previousOutput;
      if p.hash !in db.rows {
        return None;
      }
      challenges := challenges + [db.rows[p.hash].tx.outputs[p.index].script];
    }
    return Some(challenges);
  }

  /** A signing key (bc::ec_secret) and whether its public key is compressed. */
  datatype Key = Key(secret: seq<byte>, compressed: bool)

  /**
   * The elliptic-curve primitives, left abstract: the signature hash of
   * input i under SIGHASH_ALL (which sees the transaction with every input
   * script blanked and the given script in place of input i's), the
   * deterministic-nonce signature, and the public key of a secret.
   */
  datatype Signer = Signer(
    sighash: (Transaction, nat, seq<byte>) -> Hash,
    sign: (seq<byte>, Hash) -> seq<byte>,
    pubkey: (seq<byte>, bool) -> seq<byte>)

  /** Signatures and public keys short enough for a data push (the source asserts this). */
  ghost predicate Pushable(sg: Signer) {
    && (forall s, h :: |sg.sign(s, h)| < 0xFFFF_FFFE)
    && (forall s, c :: |sg.pubkey(s, c)| < 0xFFFF_FFFF)
  }

  /** The transaction with every input script blanked: all SIGHASH_ALL looks at besides the one script. */
  function Blank(tx: Transaction): (b: Transaction)
    ensures |b.inputs| == |tx.inputs| && b.outputs == tx.outputs
  {
    tx.(inputs := seq(|tx.inputs|, i requires 0 <= i < |tx.inputs| => tx.inputs[i].(script := [])))
  }

  function SigHash(sg: Signer, tx: Transaction, i: nat, script: seq<byte>): Hash {
    sg.sighash(Blank(tx), i, script)
  }

  /** The signature script: a push of the signature with SIGHASH_ALL appended, then a push of the public key. */
  function ScriptSig(sg: Signer, key: Key, h: Hash): (s: seq<byte>)
    requires Pushable(sg)
    ensures s != []
  {
    var sig := sg.sign(key.secret, h) + [0x01];
    var ops := [CreateDataOperation(sig), CreateDataOperation(sg.pubkey(key.secret, key.compressed))];
    assert AllEncodable(ops);
    SaveScript(ops)
  }

  /**
   * The signature script parses back to exactly two pushes: the signature
   * with SIGHASH_ALL appended, then the public key.
   */
  lemma ScriptSigParses(sg: Signer, key: Key, h: Hash)
    requires Pushable(sg)
    ensures var ops := ParseScript(ScriptSig(sg, key, h));
      && ops.Some? && |ops.value| == 2
      && IsPush(ops.value[0].code) && ops.value[0].data == sg.sign(key.secret, h) + [0x01]
      && IsPush(ops.value[1].code) && ops.value[1].data == sg.pubkey(key.secret, key.compressed)
  {
    var sig := sg.sign(key.secret, h) + [0x01];
    var ops := [CreateDataOperation(sig), CreateDataOperation(sg.pubkey(key.secret, key.compressed))];
    assert AllEncodable(ops);
    ParseOfSave(ops);
  }

  /** What sign_tx puts in an unsigned input i: None when it has to skip it. */
  function InputScript(sg: Signer, extract: Extractor, keys: map<PaymentAddress, Key>, tx: Transaction, i: nat,
                       challenge: seq<byte>): (r: Option<seq<byte>>)
    requires Pushable(sg)
    ensures r.Some? <==> extract(challenge).Some? && extract(challenge).value in keys
                         && SigHash(sg, tx, i, challenge) != NullHash
  {
    match extract(challenge)
    case None => None
    case Some(a) =>
      if a !in keys then None
      else
        var h := SigHash(sg, tx, i, challenge);
        if h == NullHash then None else Some(ScriptSig(sg, keys[a], h))
  }

  /** An input sign_tx leaves unsigned: no script yet, and no way to make one. */
  predicate Unsignable(sg: Signer, extract: Extractor, keys: map<PaymentAddress, Key>, tx: Transaction, i: nat,
                       challenges: seq<seq<byte>>)
    requires Pushable(sg) && |challenges| == |tx.inputs| && i < |tx.inputs|
  {
    tx.inputs[i].script == [] && InputScript(sg, extract, keys, tx, i, challenges[i]).None?
  }

  /** sign_tx's effect on one input. */
  function SignedInput(sg: Signer, extract: Extractor, keys: map<PaymentAddress, Key>, tx: Transaction, i: nat,
                       challenges: seq<seq<byte>>): TxInput
    requires Pushable(sg) && |challenges| == |tx.inputs| && i < |tx.inputs|
  {
    var input := tx.inputs[i];
    if input.script != [] then input
    else match InputScript(sg, extract, keys, tx, i, challenges[i])
      case None => input
      case Some(s) => input.(script := s)
  }

  /**
   * sign_tx: every input that already has a script is kept; each other
   * input gets a signature script when its challenge names an address we
   * hold a key for and the signature hash is not null, and is skipped
   * otherwise. The answer is true exactly when nothing was skipped.
   */
  method SignTx(sg: Signer, extract: Extractor, keys: map<PaymentAddress, Key>, tx: Transaction,
                challenges: seq<seq<byte>>)
    returns (tx': Transaction, allDone: bool)
    requires Pushable(sg) && |challenges| == |tx.inputs|
    ensures tx'.version == tx.version && tx'.outputs == tx.outputs && tx'.locktime == tx.locktime
    ensures |tx'.inputs| == |tx.inputs|
    ensures forall i | 0 <= i < |tx.inputs| :: tx'.inputs[i] == SignedInput(sg, extract, keys, tx, i, challenges)
    ensures allDone <==> forall i | 0 <= i < |tx.inputs| :: !Unsignable(sg, extract, keys, tx, i, challenges)
  {
    allDone := true;
    tx' := tx;
    for i := 0 to |tx.inputs|
      invariant tx'.version == tx.version && tx'.outputs == tx.outputs && tx'.locktime == tx.locktime
      invariant |tx'.inputs| == |tx.inputs|
      invariant Blank(tx') == Blank(tx)
      invariant forall j | 0 <= j < i :: tx'.inputs[j] == SignedInput(sg, extract, keys, tx, j, challenges)
      invariant forall j | i <= j < |tx.inputs| :: tx'.inputs[j] == tx.inputs[j]
      invariant allDone <==> forall j | 0 <= j < i :: !Unsignable(sg, extract, keys, tx, j, challenges)
    {
      var input := tx'.inputs[i];
      if input.script != [] {
        continue;
      }
      SameInputScript(sg, extract, keys, tx', tx, i, challenges[i]);
      assert Unsignable(sg, extract, keys, tx, i, challenges) <==> InputScript(sg, extract, keys, tx', i, challenges[i]).None?;
      match InputScript(sg, extract, keys, tx', i, challenges[i])
      case None =>
        allDone := false;
      case Some(script) =>
        var old' := tx';
        tx' := tx'.(inputs := tx'.inputs[i := input.(script := script)]);
        BlankOfScript(old', i, script);
    }
  }

  /** The script sign_tx makes depends on the transaction only through its blanked form. */
  lemma SameInputScript(sg: Signer, extract: Extractor, keys: map<PaymentAddress, Key>, tx: Transaction,
                        tx': Transaction, i: nat, challenge: seq<byte>)
    requires Pushable(sg) && Blank(tx) == Blank(tx')
    ensures InputScript(sg, extract, keys, tx, i, challenge) == InputScript(sg, extract, keys, tx', i, challenge)
  {
    assert SigHash(sg, tx, i, challenge) == SigHash(sg, tx', i, challenge);
  }

  /** Changing one input's script does not change the blanked transaction. */
  lemma BlankOfScript(tx: Transaction, i: nat, script: seq<byte>)
    requires i < |tx.inputs|
    ensures Blank(tx.(inputs := tx.inputs[i := tx.inputs[i].(script := script)])) == Blank(tx)
  {
    var tx' := tx.(inputs := tx.inputs[i := tx.inputs[i].(script := script)]);
    assert Blank(tx').inputs == Blank(tx).inputs;
  }

  /** sign_tx as a whole transaction, for stating what a second pass does. */
  function SignedTx(sg: Signer, extract: Extractor, keys: map<PaymentAddress, Key>, tx: Transaction,
                    challenges: seq<seq<byte>>): (r: Transaction)
    requires Pushable(sg) && |challenges| == |tx.inputs|
    ensures |r.inputs| == |tx.inputs|
  {
    tx.(inputs := seq(|tx.inputs|, i requires 0 <= i < |tx.inputs| => SignedInput(sg, extract, keys, tx, i, challenges)))
  }

  /**
   * Signing twice signs nothing new: the second pass keeps every input the
   * first one signed and skips the same inputs again.
   */
  lemma SignTwice(sg: Signer, extract: Extractor, keys: map<PaymentAddress, Key>, tx: Transaction,
                  challenges: seq<seq<byte>>)
    requires Pushable(sg) && |challenges| == |tx.inputs|
    ensures var once := SignedTx(sg, extract, keys, tx, challenges);
      && SignedTx(sg, extract, keys, once, challenges) == once
      && forall i | 0 <= i < |tx.inputs| ::
           Unsignable(sg, extract, keys, once, i, challenges) == Unsignable(sg, extract, keys, tx, i, challenges)
  {
    var once := SignedTx(sg, extract, keys, tx, challenges);
    assert Blank(once).inputs == Blank(tx).inputs;
    assert Blank(once) == Blank(tx);
    var twice := SignedTx(sg, extract, keys, once, challenges);
    assert twice.inputs == once.inputs;
  }

  /** When sign_tx reports success every input carries a script. */
  lemma AllDoneAllSigned(sg: Signer, extract: Extractor, keys: map<PaymentAddress, Key>, tx: Transaction,
                         challenges: seq<seq<byte>>)
    requires Pushable(sg) && |challenges| == |tx.inputs|
    requires forall i | 0 <= i < |tx.inputs| :: !Unsignable(sg, extract, keys, tx, i, challenges)
    ensures forall i | 0 <= i < |tx.inputs| :: SignedTx(sg, extract, keys, tx, challenges).inputs[i].script != []
  {
    forall i | 0 <= i < |tx.inputs|
      ensures SignedTx(sg, extract, keys, tx, challenges).inputs[i].script != []
    {
      assert !Unsignable(sg, extract, keys, tx, i, challenges);
    }
  }

  // ---------------------------------------------------------------------
  // signTx: signing against the wallet's store and key table

  /** The wallet's key table lookup: address encoding and WIF decoding, left abstract. */
  datatype KeyCodec = KeyCodec(
    encode: PaymentAddress -> string,
    wifSecret: string -> seq<byte>,
    wifCompressed: string -> bool)

  /** Every input spends an output the store holds: signTx reads it without checking. */
  predicate AllResolve(db: Db, ins: seq<TxInput>) {
    forall i | 0 <= i < |ins| :: Resolves(db, ins[i].previousOutput)
  }

  function SourceScript(db: Db, p: OutPoint): seq<byte>
    requires Resolves(db, p)
  {
    db.rows[p.hash].tx.outputs[p.index].script
  }

  /**
   * The body of signTx's loop for input k: the source output names the
   * address; a missing address or key, or a null signature hash over the
   * pay-to-pubkey-hash script of that address, is an error; otherwise
   * the signature script for the key.
   */
  function WalletScript(sg: Signer, codec: KeyCodec, extract: Extractor, keys: map<string, string>, db: Db,
                        tx: Transaction, k: nat): (r: Result<seq<byte>>)
    requires Pushable(sg) && AllResolve(db, tx.inputs) && k < |tx.inputs|
    ensures r.Fail? <==> SignBlocked(codec, extract, keys, db, sg, tx, k)
    ensures r.Fail? ==> r.code == Error
    ensures r.Ok? ==> r.value != []
  {
    var p := tx.inputs[k].previousOutput;
    match extract(SourceScript(db, p))
    case None => Fail(Error, "Invalid address")
    case Some(a) =>
      if codec.encode(a) !in keys then Fail(Error, "Missing signing key")
      else
        var wif := keys[codec.encode(a)];
        var key := Key(codec.wifSecret(wif), codec.wifCompressed(wif));
        var h := SigHash(sg, tx, k, SaveScript(OutputScriptForPubkey(a.hash)));
        if h == NullHash then Fail(Error, "Unable to sign")
        else Ok(ScriptSig(sg, key, h))
  }

  /** The reasons signTx stops at input k. */
  predicate SignBlocked(codec: KeyCodec, extract: Extractor, keys: map<string, string>, db: Db, sg: Signer,
                        tx: Transaction, k: nat)
    requires AllResolve(db, tx.inputs) && k < |tx.inputs|
  {
    var a := extract(SourceScript(db, tx.inputs[k].previousOutput));
    || a.None?
    || codec.encode(a.value) !in keys
    || SigHash(sg, tx, k, SaveScript(OutputScriptForPubkey(a.value.hash))) == NullHash
  }

  /** The script signTx makes for input k depends only on its outpoint and the blanked transaction. */
  lemma SameWalletScript(sg: Signer, codec: KeyCodec, extract: Extractor, keys: map<string, string>, db: Db,
                         tx: Transaction, tx': Transaction, k: nat)
    requires Pushable(sg) && AllResolve(db, tx.inputs) && AllResolve(db, tx'.inputs)
    requires k < |tx.inputs| && k < |tx'.inputs|
    requires Blank(tx) == Blank(tx') && tx.inputs[k].previousOutput == tx'.inputs[k].previousOutput
    ensures WalletScript(sg, codec, extract, keys, db, tx, k) == WalletScript(sg, codec, extract, keys, db, tx', k)
  {
    match extract(SourceScript(db, tx.inputs[k].previousOutput))
    case None =>
    case Some(a) =>
      var c := SaveScript(OutputScriptForPubkey(a.hash));
      assert SigHash(sg, tx, k, c) == SigHash(sg, tx', k, c);
  }

  /** The first i inputs of tx' carry the scripts signTx makes for tx. */
  ghost predicate SignedUpTo(sg: Signer, codec: KeyCodec, extract: Extractor, keys: map<string, string>, db: Db,
                             tx: Transaction, tx': Transaction, i: nat)
    requires Pushable(sg) && AllResolve(db, tx.inputs) && i <= |tx.inputs| == |tx'.inputs|
  {
    forall j | 0 <= j < i :: WalletScript(sg, codec, extract, keys, db, tx, j) == Ok(tx'.inputs[j].script)
  }

  lemma SignedStep(sg: Signer, codec: KeyCodec, extract: Extractor, keys: map<string, string>, db: Db,
                   tx: Transaction, tx': Transaction, i: nat, script: seq<byte>)
    requires Pushable(sg) && AllResolve(db, tx.inputs) && i < |tx.inputs| == |tx'.inputs|
    requires SignedUpTo(sg, codec, extract, keys, db, tx, tx', i)
    requires WalletScript(sg, codec, extract, keys, db, tx, i) == Ok(script)
    ensures SignedUpTo(sg, codec, extract, keys, db, tx,
                       tx'.(inputs := tx'.inputs[i := tx'.inputs[i].(script := script)]), i + 1)
  {
  }

  /**
   * signTx: sign each input in turn against the source output it spends,
   * stopping at the first error. It fails exactly when some input is
   * blocked; on success every input carries a signature script and
   * nothing but the input scripts changed.
   */
  method SignWallet(sg: Signer, codec: KeyCodec, extract: Extractor, keys: map<string, string>, db: Db,
                    tx: Transaction)
    returns (r: Result<Transaction>)
    requires Pushable(sg) && AllResolve(db, tx.inputs)
    ensures r.Fail? <==> exists k | 0 <= k < |tx.inputs| :: SignBlocked(codec, extract, keys, db, sg, tx, k)
    ensures r.Fail? ==> r.code == Error
    ensures r.Ok? ==> (Blank(r.value) == Blank(tx) && r.value.version == tx.version
      && r.value.locktime == tx.locktime && r.value.outputs == tx.outputs && |r.value.inputs| == |tx.inputs|
      && forall j | 0 <= j < |tx.inputs| :: WalletScript(sg, codec, extract, keys, db, tx, j).Ok?
           && r.value.inputs[j].script == WalletScript(sg, codec, extract, keys, db, tx, j).value
           && r.value.inputs[j].previousOutput == tx.inputs[j].previousOutput)
  {
    var tx' := tx;
    for i := 0 to |tx.inputs|
      invariant tx'.version == tx.version && tx'.locktime == tx.locktime && tx'.outputs == tx.outputs
      invariant |tx'.inputs| == |tx.inputs| && Blank(tx') == Blank(tx)
      invariant forall j | 0 <= j < |tx.inputs| :: tx'.inputs[j].previousOutput == tx.inputs[j].previousOutput
      invariant forall j | i <= j < |tx.inputs| :: tx'.inputs[j] == tx.inputs[j]
      invariant SignedUpTo(sg, codec, extract, keys, db, tx, tx', i)
    {
      assert AllResolve(db, tx'.inputs);
      SameWalletScript(sg, codec, extract, keys, db, tx, tx', i);
      match WalletScript(sg, codec, extract, keys, db, tx', i)
      case Fail(code, message) =>
        assert SignBlocked(codec, extract, keys, db, sg, tx, i);
        return Fail(code, message);
      case Ok(script) =>
        SignedStep(sg, codec, extract, keys, db, tx, tx', i, script);
        BlankOfScript(tx', i, script);
        tx' := tx'.(inputs := tx'.inputs[i := tx'.inputs[i].(script := script)]);
    }
    SignedAll(sg, codec, extract, keys, db, tx, tx');
    r := Ok(tx');
  }

  /** Every input signed: none is blocked, and each carries its script. */
  lemma SignedAll(sg: Signer, codec: KeyCodec, extract: Extractor, keys: map<string, string>, db: Db,
                  tx: Transaction, tx': Transaction)
    requires Pushable(sg) && AllResolve(db, tx.inputs) && |tx.inputs| == |tx'.inputs|
    requires SignedUpTo(sg, codec, extract, keys, db, tx, tx', |tx.inputs|)
    ensures !exists k | 0 <= k < |tx.inputs| :: SignBlocked(codec, extract, keys, db, sg, tx, k)
    ensures forall j | 0 <= j < |tx.inputs| :: WalletScript(sg, codec, extract, keys, db, tx, j).Ok?
              && tx'.inputs[j].script == WalletScript(sg, codec, extract, keys, db, tx, j).value
  {
    forall k | 0 <= k < |tx.inputs|
      ensures !SignBlocked(codec, extract, keys, db, sg, tx, k)
    {
      assert WalletScript(sg, codec, extract, keys, db, tx, k).Ok?;
    }
  }

}
