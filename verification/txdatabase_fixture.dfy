/**
 * The store the transaction-database test builds (test/TxDatabase.cpp) and
 * the two UTXO queries it makes. Seven transactions, all version 0 and
 * locktime 0:
 *
 *   irrelevant   spends fake:0, pays 1 to a foreign address
 *   incoming     spends fake:1 (empty script), pays 2 to us
 *   buried       spends fake:2, pays 3 and 4 to us; confirmed at 100
 *   confirmed    spends buried:0, pays 5 to us; confirmed at 100
 *   doubleSpend  spends buried:0 again, pays 6 to us
 *   change       spends buried:1, pays 7 and 8 to us
 *   badSpend     spends doubleSpend:0 and change:0, pays 9 to us
 *
 * "fake" is the all-zero txid in the test; here it is any txid. Transaction
 * hashing stays abstract: the seven txids are only assumed distinct from
 * each other and from the fake one. Address extraction stays abstract too: it is assumed to
 * read our receive and spend scripts as our address, the foreign receive
 * script as some other address, and the empty script as no address.
 */
module TxDatabaseFixture {
  import opened Wrappers
  import opened Bytes
  import opened Wire
  import opened Script
  import opened Outputs
  import opened Seqs
  import opened TxDatabase
  import opened TxFilter

  /** The three scripts of the test. */
  datatype Scripts = Scripts(ourReceive: seq<byte>, ourSpend: seq<byte>, otherReceive: seq<byte>)

  /**
   * Paying our key hash, spending with a fake one-byte signature and our
   * public key, and paying a foreign key hash.
   */
  function TestScripts(ourHash: ShortHash, otherHash: ShortHash, ourPubkey: seq<byte>): (sc: Scripts)
    requires |ourPubkey| < 0xFFFF_FFFF
    ensures sc.ourReceive == P2PKH_PREFIX + ourHash + P2PKH_SUFFIX
    ensures sc.otherReceive == P2PKH_PREFIX + otherHash + P2PKH_SUFFIX
  {
    var spend := [CreateDataOperation([0xff]), CreateDataOperation(ourPubkey)];
    Scripts(SaveScript(OutputScriptForPubkey(ourHash)), SaveScript(spend),
            SaveScript(OutputScriptForPubkey(otherHash)))
  }

  function Spend(prev: Hash, index: nat, script: seq<byte>): TxInput {
    TxInput(OutPoint(prev, index), script, 0)
  }

  function IrrelevantTx(sc: Scripts, fake: Hash): Transaction {
    Transaction(0, [Spend(fake, 0, [])], [TxOutput(1, sc.otherReceive)], 0)
  }

  function IncomingTx(sc: Scripts, fake: Hash): Transaction {
    Transaction(0, [Spend(fake, 1, [])], [TxOutput(2, sc.ourReceive)], 0)
  }

  function BuriedTx(sc: Scripts, fake: Hash): Transaction {
    Transaction(0, [Spend(fake, 2, [])], [TxOutput(3, sc.ourReceive), TxOutput(4, sc.ourReceive)], 0)
  }

  function ConfirmedTx(sc: Scripts, buried: Hash): Transaction {
    Transaction(0, [Spend(buried, 0, sc.ourSpend)], [TxOutput(5, sc.ourReceive)], 0)
  }

  function DoubleSpendTx(sc: Scripts, buried: Hash): Transaction {
    Transaction(0, [Spend(buried, 0, sc.ourSpend)], [TxOutput(6, sc.ourReceive)], 0)
  }

  function ChangeTx(sc: Scripts, buried: Hash): Transaction {
    Transaction(0, [Spend(buried, 1, sc.ourSpend)], [TxOutput(7, sc.ourReceive), TxOutput(8, sc.ourReceive)], 0)
  }

  function BadSpendTx(sc: Scripts, doubleSpend: Hash, change: Hash): Transaction {
    Transaction(0, [Spend(doubleSpend, 0, sc.ourSpend), Spend(change, 0, sc.ourSpend)],
                [TxOutput(9, sc.ourReceive)], 0)
  }

  datatype Ids = Ids(fake: Hash, irrelevant: Hash, incoming: Hash, buried: Hash, confirmed: Hash,
                     doubleSpend: Hash, change: Hash, badSpend: Hash)

  function TestIds(hs: Hashers, sc: Scripts, fake: Hash): Ids {
    var buried := hs.txid(BuriedTx(sc, fake));
    var doubleSpend := hs.txid(DoubleSpendTx(sc, buried));
    var change := hs.txid(ChangeTx(sc, buried));
    Ids(fake, hs.txid(IrrelevantTx(sc, fake)), hs.txid(IncomingTx(sc, fake)), buried,
        hs.txid(ConfirmedTx(sc, buried)), doubleSpend, change,
        hs.txid(BadSpendTx(sc, doubleSpend, change)))
  }

  function IdList(ids: Ids): seq<Hash> {
    [ids.irrelevant, ids.incoming, ids.buried, ids.confirmed, ids.doubleSpend, ids.change, ids.badSpend]
  }

  /** No two of the test's transactions share a txid, and none has the fake one. */
  predicate Collisionless(ids: Ids) {
    Distinct(IdList(ids)) && ids.fake !in IdList(ids)
  }

  /** Where each of the test's rows sits in the store, with its state. */
  predicate Stored(db: Db, t: Hash, tx: Transaction, state: TxState) {
    t in db.rows && db.rows[t].tx == tx && db.rows[t].state == state
  }

  /** The store holds exactly the seven rows of the test. */
  predicate Shaped(db: Db, sc: Scripts, ids: Ids) {
    && db.rows.Keys == {ids.irrelevant, ids.incoming, ids.buried, ids.confirmed,
                        ids.doubleSpend, ids.change, ids.badSpend}
    && Stored(db, ids.irrelevant, IrrelevantTx(sc, ids.fake), Unconfirmed)
    && Stored(db, ids.incoming, IncomingTx(sc, ids.fake), Unconfirmed)
    && Stored(db, ids.buried, BuriedTx(sc, ids.fake), Confirmed)
    && Stored(db, ids.confirmed, ConfirmedTx(sc, ids.buried), Confirmed)
    && Stored(db, ids.doubleSpend, DoubleSpendTx(sc, ids.buried), Unconfirmed)
    && Stored(db, ids.change, ChangeTx(sc, ids.buried), Unconfirmed)
    && Stored(db, ids.badSpend, BadSpendTx(sc, ids.doubleSpend, ids.change), Unconfirmed)
  }

  lemma IdsApart(ids: Ids)
    requires Collisionless(ids)
    ensures ids.irrelevant != ids.incoming && ids.irrelevant != ids.buried && ids.irrelevant != ids.confirmed
    ensures ids.irrelevant != ids.doubleSpend && ids.irrelevant != ids.change && ids.irrelevant != ids.badSpend
    ensures ids.incoming != ids.buried && ids.incoming != ids.confirmed && ids.incoming != ids.doubleSpend
    ensures ids.incoming != ids.change && ids.incoming != ids.badSpend
    ensures ids.buried != ids.confirmed && ids.buried != ids.doubleSpend && ids.buried != ids.change
    ensures ids.buried != ids.badSpend
    ensures ids.confirmed != ids.doubleSpend && ids.confirmed != ids.change && ids.confirmed != ids.badSpend
    ensures ids.doubleSpend != ids.change && ids.doubleSpend != ids.badSpend && ids.change != ids.badSpend
    ensures ids.fake !in {ids.irrelevant, ids.incoming, ids.buried, ids.confirmed,
                          ids.doubleSpend, ids.change, ids.badSpend}
  {
    var l := IdList(ids);
    assert l[0] == ids.irrelevant && l[1] == ids.incoming && l[2] == ids.buried && l[3] == ids.confirmed;
    assert l[4] == ids.doubleSpend && l[5] == ids.change && l[6] == ids.badSpend;
  }

  /** Inserting a transaction whose txid is not stored adds exactly its fresh row. */
  lemma InsertFresh(db: Db, hs: Hashers, tx: Transaction, now: int)
    requires hs.txid(tx) !in db.rows
    ensures Insert(db, hs, tx, now).1
         == db.(rows := db.rows[hs.txid(tx) := TxRow(tx, hs.txid(tx), hs.ntxid(tx), Unconfirmed, 0, now)])
  {
  }

  /** The rows the test has stored once buried is confirmed. */
  predicate Received(db: Db, sc: Scripts, ids: Ids) {
    && db.rows.Keys == {ids.irrelevant, ids.incoming, ids.buried}
    && Stored(db, ids.irrelevant, IrrelevantTx(sc, ids.fake), Unconfirmed)
    && Stored(db, ids.incoming, IncomingTx(sc, ids.fake), Unconfirmed)
    && Stored(db, ids.buried, BuriedTx(sc, ids.fake), Confirmed) && db.rows[ids.buried].blockHeight == 100
  }

  /** The rows the test has stored once confirmed is confirmed too. */
  predicate Settled(db: Db, sc: Scripts, ids: Ids) {
    && db.rows.Keys == {ids.irrelevant, ids.incoming, ids.buried, ids.confirmed}
    && Stored(db, ids.irrelevant, IrrelevantTx(sc, ids.fake), Unconfirmed)
    && Stored(db, ids.incoming, IncomingTx(sc, ids.fake), Unconfirmed)
    && Stored(db, ids.buried, BuriedTx(sc, ids.fake), Confirmed) && db.rows[ids.buried].blockHeight == 100
    && Stored(db, ids.confirmed, ConfirmedTx(sc, ids.buried), Confirmed) && db.rows[ids.confirmed].blockHeight == 100
  }

  /** The first part of the test's setup: height 100, three receives, buried confirmed at 100. */
  method Receive(hs: Hashers, sc: Scripts, fake: Hash, now: int, timeout: nat) returns (db: Db)
    requires Collisionless(TestIds(hs, sc, fake))
    ensures db.lastHeight == 100 && db.unconfirmedTimeout == timeout
    ensures Received(db, sc, TestIds(hs, sc, fake))
  {
    var ids := TestIds(hs, sc, fake);
    IdsApart(ids);
    db := AtHeight(NewDb(timeout), 100);
    InsertFresh(db, hs, IrrelevantTx(sc, ids.fake), now);
    db := Insert(db, hs, IrrelevantTx(sc, ids.fake), now).1;
    InsertFresh(db, hs, IncomingTx(sc, ids.fake), now);
    db := Insert(db, hs, IncomingTx(sc, ids.fake), now).1;
    InsertFresh(db, hs, BuriedTx(sc, ids.fake), now);
    db := Insert(db, hs, BuriedTx(sc, ids.fake), now).1;
    db := MarkConfirmed(db, ids.buried, 100);
  }

  /** The spend of buried:0 that gets confirmed at 100. */
  method SpendConfirmed(db: Db, hs: Hashers, sc: Scripts, fake: Hash, now: int) returns (db': Db)
    requires Collisionless(TestIds(hs, sc, fake)) && Received(db, sc, TestIds(hs, sc, fake))
    ensures db'.lastHeight == db.lastHeight && db'.unconfirmedTimeout == db.unconfirmedTimeout
    ensures Settled(db', sc, TestIds(hs, sc, fake))
  {
    var ids := TestIds(hs, sc, fake);
    IdsApart(ids);
    InsertFresh(db, hs, ConfirmedTx(sc, ids.buried), now);
    db' := Insert(db, hs, ConfirmedTx(sc, ids.buried), now).1;
    db' := MarkConfirmed(db', ids.confirmed, 100);
  }

  /** The three transactions left unconfirmed: the double spend, the change and the bad spend. */
  method SpendUnconfirmed(db: Db, hs: Hashers, sc: Scripts, fake: Hash, now: int) returns (db': Db)
    requires Collisionless(TestIds(hs, sc, fake)) && Settled(db, sc, TestIds(hs, sc, fake))
    ensures db'.lastHeight == db.lastHeight && db'.unconfirmedTimeout == db.unconfirmedTimeout
    ensures Shaped(db', sc, TestIds(hs, sc, fake))
  {
    var ids := TestIds(hs, sc, fake);
    IdsApart(ids);
    InsertFresh(db, hs, DoubleSpendTx(sc, ids.buried), now);
    db' := Insert(db, hs, DoubleSpendTx(sc, ids.buried), now).1;
    InsertFresh(db', hs, ChangeTx(sc, ids.buried), now);
    db' := Insert(db', hs, ChangeTx(sc, ids.buried), now).1;
    InsertFresh(db', hs, BadSpendTx(sc, ids.doubleSpend, ids.change), now);
    db' := Insert(db', hs, BadSpendTx(sc, ids.doubleSpend, ids.change), now).1;
  }

  /**
   * The test's store. Without txid collisions every insert adds a fresh
   * row, so the store ends up holding exactly the seven rows.
   */
  method TestDb(hs: Hashers, sc: Scripts, fake: Hash, now: int, timeout: nat) returns (db: Db)
    requires Collisionless(TestIds(hs, sc, fake))
    ensures db.lastHeight == 100 && db.unconfirmedTimeout == timeout
    ensures Shaped(db, sc, TestIds(hs, sc, fake))
  {
    db := Receive(hs, sc, fake, now, timeout);
    db := SpendConfirmed(db, hs, sc, fake, now);
    db := SpendUnconfirmed(db, hs, sc, fake, now);
  }

  /** A ranking of the test's rows: each spends only from lower-ranked ones. */
  function TestRank(ids: Ids): map<Hash, nat> {
    map[ids.irrelevant := 0, ids.incoming := 0, ids.buried := 0, ids.confirmed := 1,
        ids.doubleSpend := 1, ids.change := 1, ids.badSpend := 2]
  }

  lemma TestRanked(db: Db, sc: Scripts, ids: Ids)
    requires Shaped(db, sc, ids) && Collisionless(ids)
    ensures Ranked(db, TestRank(ids))
  {
    IdsApart(ids);
  }

  /** The inputs of the test: which input of which row spends which outpoint. */
  lemma Spenders(db: Db, sc: Scripts, ids: Ids, t: Hash, i: nat, p: OutPoint)
    requires Shaped(db, sc, ids) && SpendsAt(db, t, i, p)
    ensures || (t == ids.irrelevant && i == 0 && p == OutPoint(ids.fake, 0))
            || (t == ids.incoming && i == 0 && p == OutPoint(ids.fake, 1))
            || (t == ids.buried && i == 0 && p == OutPoint(ids.fake, 2))
            || (t == ids.confirmed && i == 0 && p == OutPoint(ids.buried, 0))
            || (t == ids.doubleSpend && i == 0 && p == OutPoint(ids.buried, 0))
            || (t == ids.change && i == 0 && p == OutPoint(ids.buried, 1))
            || (t == ids.badSpend && i == 0 && p == OutPoint(ids.doubleSpend, 0))
            || (t == ids.badSpend && i == 1 && p == OutPoint(ids.change, 0))
  {
  }

  /** The outpoints the seven rows spend. */
  function TestSpent(ids: Ids): set<OutPoint> {
    {OutPoint(ids.fake, 0), OutPoint(ids.fake, 1), OutPoint(ids.fake, 2), OutPoint(ids.buried, 0),
     OutPoint(ids.buried, 1), OutPoint(ids.doubleSpend, 0), OutPoint(ids.change, 0)}
  }

  lemma TestSpentExactly(db: Db, sc: Scripts, ids: Ids, p: OutPoint)
    requires Shaped(db, sc, ids)
    ensures Spent(db, p) <==> p in TestSpent(ids)
  {
    if Spent(db, p) {
      var t, i :| t in db.rows && 0 <= i < |db.rows[t].tx.inputs| && db.rows[t].tx.inputs[i].previousOutput == p;
      Spenders(db, sc, ids, t, i, p);
    }
    if p in TestSpent(ids) {
      var bad := db.rows[ids.badSpend].tx.inputs;
      assert db.rows[ids.irrelevant].tx.inputs[0].previousOutput == OutPoint(ids.fake, 0);
      assert db.rows[ids.incoming].tx.inputs[0].previousOutput == OutPoint(ids.fake, 1);
      assert db.rows[ids.buried].tx.inputs[0].previousOutput == OutPoint(ids.fake, 2);
      assert db.rows[ids.confirmed].tx.inputs[0].previousOutput == OutPoint(ids.buried, 0);
      assert db.rows[ids.change].tx.inputs[0].previousOutput == OutPoint(ids.buried, 1);
      assert bad[0].previousOutput == OutPoint(ids.doubleSpend, 0) && bad[1].previousOutput == OutPoint(ids.change, 0);
    }
  }

  lemma TestEnumerates(db: Db, sc: Scripts, ids: Ids)
    requires Shaped(db, sc, ids) && Collisionless(ids)
    ensures Enumerates(db, IdList(ids))
  {
  }

  /** Only buried:0 is spent twice (by confirmed and by doubleSpend), whatever the walk. */
  lemma TestDoubleSpends(db: Db, sc: Scripts, ids: Ids, order: seq<Hash>)
    requires Shaped(db, sc, ids) && Collisionless(ids) && Enumerates(db, order)
    ensures DoubleSpends(db, order) == {OutPoint(ids.buried, 0)}
  {
    DoubleSpendsSpentTwice(db, order);
    IdsApart(ids);
    var b0 := OutPoint(ids.buried, 0);
    assert SpendsAt(db, ids.confirmed, 0, b0) && SpendsAt(db, ids.doubleSpend, 0, b0);
    forall p | SpentTwice(db, p)
      ensures p == b0
    {
      var t1, i1, t2, i2 :| SpendsAt(db, t1, i1, p) && SpendsAt(db, t2, i2, p) && (t1 != t2 || i1 != i2);
      Spenders(db, sc, ids, t1, i1, p);
      Spenders(db, sc, ids, t2, i2, p);
    }
  }

  /** With only buried:0 double spent, the rows that spend nothing double spent are safe. */
  lemma TestSafeRows(db: Db, sc: Scripts, ids: Ids)
    requires Shaped(db, sc, ids) && Collisionless(ids) && Ranked(db, TestRank(ids))
    ensures var ds, r := {OutPoint(ids.buried, 0)}, TestRank(ids);
      && Safe(db, ds, r, ids.irrelevant) && Safe(db, ds, r, ids.incoming)
      && Safe(db, ds, r, ids.buried) && Safe(db, ds, r, ids.confirmed) && Safe(db, ds, r, ids.change)
  {
    IdsApart(ids);
    var ds, r := {OutPoint(ids.buried, 0)}, TestRank(ids);
    SafeByCases(db, ds, r, ids.fake);
    SafeByCases(db, ds, r, ids.buried);
    SafeByCases(db, ds, r, ids.confirmed);
    SafeByCases(db, ds, r, ids.irrelevant);
    SafeByCases(db, ds, r, ids.incoming);
    SafeByCases(db, ds, r, ids.change);
  }

  /** doubleSpend spends buried:0 itself, and badSpend spends doubleSpend:0: both are unsafe. */
  lemma TestUnsafeRows(db: Db, sc: Scripts, ids: Ids)
    requires Shaped(db, sc, ids) && Collisionless(ids) && Ranked(db, TestRank(ids))
    ensures var ds, r := {OutPoint(ids.buried, 0)}, TestRank(ids);
      !Safe(db, ds, r, ids.doubleSpend) && !Safe(db, ds, r, ids.badSpend)
  {
    IdsApart(ids);
    var ds, r := {OutPoint(ids.buried, 0)}, TestRank(ids);
    SafeByCases(db, ds, r, ids.doubleSpend);
    SafeByCases(db, ds, r, ids.badSpend);
    assert db.rows[ids.doubleSpend].tx.inputs[0].previousOutput in ds;
    assert db.rows[ids.badSpend].tx.inputs[0].previousOutput.hash == ids.doubleSpend;
  }

  /**
   * How the address extractor reads the test's scripts: our receive and
   * spend scripts as our address, the foreign receive script and the
   * empty script as something else.
   */
  predicate Reads(extract: Extractor, sc: Scripts, our: PaymentAddress) {
    && extract(sc.ourReceive) == Some(our) && extract(sc.ourSpend) == Some(our)
    && extract(sc.otherReceive) != Some(our) && extract([]) != Some(our)
  }

  /** The standard templates read the two receive scripts as the two key hashes' addresses. */
  lemma StandardReceives(net: Network, ourHash: ShortHash, otherHash: ShortHash, ourPubkey: seq<byte>)
    requires |ourPubkey| < 0xFFFF_FFFF
    ensures var sc := TestScripts(ourHash, otherHash, ourPubkey);
      && ExtractStandard(net, sc.ourReceive) == Some(PaymentAddress(net.pubkeyVersion, ourHash))
      && ExtractStandard(net, sc.otherReceive) == Some(PaymentAddress(net.pubkeyVersion, otherHash))
  {
    var sc := TestScripts(ourHash, otherHash, ourPubkey);
    assert sc.ourReceive[3..23] == ourHash && sc.ourReceive[..3] == P2PKH_PREFIX && sc.ourReceive[23..] == P2PKH_SUFFIX;
    assert sc.otherReceive[3..23] == otherHash && sc.otherReceive[..3] == P2PKH_PREFIX
        && sc.otherReceive[23..] == P2PKH_SUFFIX;
  }

  /** The outputs the filtered query keeps: confirmed:0 (5) and change:1 (8). */
  function FilteredExpected(ids: Ids): set<OutputInfo> {
    {OutputInfo(OutPoint(ids.confirmed, 0), 5), OutputInfo(OutPoint(ids.change, 1), 8)}
  }

  /** The outputs the unfiltered query keeps: incoming:0 (2) as well. */
  function AllExpected(ids: Ids): set<OutputInfo> {
    FilteredExpected(ids) + {OutputInfo(OutPoint(ids.incoming, 0), 2)}
  }

  /** Output x is stored, unspent and pays us: what get_utxos asks before check. */
  ghost predicate Candidate(db: Db, extract: Extractor, our: PaymentAddress, x: OutputInfo) {
    && x.point.hash in db.rows
    && x.point.index < |db.rows[x.point.hash].tx.outputs|
    && x.value == db.rows[x.point.hash].tx.outputs[x.point.index].value
    && !Spent(db, x.point)
    && extract(db.rows[x.point.hash].tx.outputs[x.point.index].script) == Some(our)
  }

  /** The unspent outputs paying us, badSpend:0 among them. */
  function Candidates(ids: Ids): set<OutputInfo> {
    AllExpected(ids) + {OutputInfo(OutPoint(ids.badSpend, 0), 9)}
  }

  lemma TestCandidates(db: Db, sc: Scripts, ids: Ids, extract: Extractor, our: PaymentAddress, x: OutputInfo)
    requires Shaped(db, sc, ids) && Collisionless(ids) && Reads(extract, sc, our)
    ensures Candidate(db, extract, our, x) <==> x in Candidates(ids)
  {
    IdsApart(ids);
    TestSpentExactly(db, sc, ids, x.point);
  }

  /**
   * The rows that pass check against buried:0: with the filter off every
   * safe row, with it on only the confirmed rows and our own change.
   */
  lemma TestPasses(db: Db, sc: Scripts, ids: Ids, extract: Extractor, our: PaymentAddress, filter: bool, t: Hash)
    requires Shaped(db, sc, ids) && Collisionless(ids) && Reads(extract, sc, our) && t in db.rows
    ensures Ranked(db, TestRank(ids))
    ensures Passes(db, {OutPoint(ids.buried, 0)}, TestRank(ids), extract, {our}, t, filter)
        <==> t in Passing(ids, filter)
  {
    TestRanked(db, sc, ids);
    TestSafeRows(db, sc, ids);
    TestUnsafeRows(db, sc, ids);
    IdsApart(ids);
    assert db.rows[ids.irrelevant].tx.inputs[0].script == [];
    assert db.rows[ids.incoming].tx.inputs[0].script == [];
  }

  /** The rows check lets through. */
  function Passing(ids: Ids, filter: bool): set<Hash> {
    if filter then {ids.buried, ids.confirmed, ids.change}
    else {ids.irrelevant, ids.incoming, ids.buried, ids.confirmed, ids.change}
  }

  /** Of the candidates, those whose row passes are the expected ones. */
  lemma ExpectedOfPassing(ids: Ids, filter: bool, x: OutputInfo)
    requires Collisionless(ids)
    ensures x in Candidates(ids) && x.point.hash in Passing(ids, filter)
        <==> x in (if filter then FilteredExpected(ids) else AllExpected(ids))
  {
    IdsApart(ids);
  }

  /** Which outputs get_utxos reports on the test's store, for either filter setting. */
  lemma TestUtxo(db: Db, sc: Scripts, ids: Ids, order: seq<Hash>, extract: Extractor, our: PaymentAddress,
                 filter: bool, x: OutputInfo)
    requires Shaped(db, sc, ids) && Collisionless(ids) && Enumerates(db, order) && Reads(extract, sc, our)
    ensures Ranked(db, TestRank(ids))
    ensures IsUtxo(db, order, TestRank(ids), extract, {our}, filter, x)
        <==> x in (if filter then FilteredExpected(ids) else AllExpected(ids))
  {
    TestRanked(db, sc, ids);
    TestDoubleSpends(db, sc, ids, order);
    TestCandidates(db, sc, ids, extract, our, x);
    ExpectedOfPassing(ids, filter, x);
    if x.point.hash in db.rows {
      TestPasses(db, sc, ids, extract, our, filter, x.point.hash);
    }
  }

  /**
   * The test's store and one get_utxos call on it, walking the rows in
   * insertion order (UtxosOrderFree gives the same answer for any walk).
   */
  method TestQuery(hs: Hashers, sc: Scripts, extract: Extractor, our: PaymentAddress, filter: bool,
                   now: int, timeout: nat)
    returns (db: Db, utxos: seq<OutputInfo>)
    requires Collisionless(TestIds(hs, sc, NullHash)) && Reads(extract, sc, our)
    ensures db.lastHeight == 100
    ensures Distinct(utxos)
    ensures forall x :: x in utxos <==>
      x in (if filter then FilteredExpected(TestIds(hs, sc, NullHash)) else AllExpected(TestIds(hs, sc, NullHash)))
  {
    var ids := TestIds(hs, sc, NullHash);
    db := TestDb(hs, sc, NullHash, now, timeout);
    TestEnumerates(db, sc, ids);
    TestRanked(db, sc, ids);
    utxos := GetUtxos(db, IdList(ids), TestRank(ids), extract, {our}, filter);
    forall x
      ensures x in utxos <==> x in (if filter then FilteredExpected(ids) else AllExpected(ids))
    {
      TestUtxo(db, sc, ids, IdList(ids), extract, our, filter, x);
    }
  }

  /**
   * The "filtered utxos" section: exactly confirmed:0 and change:1; not
   * badSpend:0, the foreign irrelevant:0, the spent buried outputs or the
   * unconfirmed incoming:0.
   */
  method FilteredUtxos(hs: Hashers, sc: Scripts, extract: Extractor, our: PaymentAddress, now: int, timeout: nat)
    returns (utxos: seq<OutputInfo>)
    requires Collisionless(TestIds(hs, sc, NullHash)) && Reads(extract, sc, our)
    ensures var ids := TestIds(hs, sc, NullHash);
      && |utxos| == 2
      && (exists x | x in utxos :: x.point == OutPoint(ids.confirmed, 0))
      && (exists x | x in utxos :: x.point == OutPoint(ids.change, 1))
      && (forall x | x in utxos :: x.point !in {OutPoint(ids.badSpend, 0), OutPoint(ids.irrelevant, 0),
                                                OutPoint(ids.buried, 0), OutPoint(ids.buried, 1),
                                                OutPoint(ids.incoming, 0)})
  {
    var ids := TestIds(hs, sc, NullHash);
    var db;
    db, utxos := TestQuery(hs, sc, extract, our, true, now, timeout);
    IdsApart(ids);
    DistinctCard(utxos, FilteredExpected(ids));
    assert OutputInfo(OutPoint(ids.confirmed, 0), 5) in utxos;
    assert OutputInfo(OutPoint(ids.change, 1), 8) in utxos;
  }

  /**
   * The "all utxos" section: exactly incoming:0, confirmed:0 and change:1;
   * not badSpend:0, irrelevant:0 or the spent buried outputs.
   */
  method AllUtxos(hs: Hashers, sc: Scripts, extract: Extractor, our: PaymentAddress, now: int, timeout: nat)
    returns (utxos: seq<OutputInfo>)
    requires Collisionless(TestIds(hs, sc, NullHash)) && Reads(extract, sc, our)
    ensures var ids := TestIds(hs, sc, NullHash);
      && |utxos| == 3
      && (exists x | x in utxos :: x.point == OutPoint(ids.incoming, 0))
      && (exists x | x in utxos :: x.point == OutPoint(ids.confirmed, 0))
      && (exists x | x in utxos :: x.point == OutPoint(ids.change, 1))
      && (forall x | x in utxos :: x.point !in {OutPoint(ids.badSpend, 0), OutPoint(ids.irrelevant, 0),
                                                OutPoint(ids.buried, 0), OutPoint(ids.buried, 1)})
  {
    var ids := TestIds(hs, sc, NullHash);
    var db;
    db, utxos := TestQuery(hs, sc, extract, our, false, now, timeout);
    IdsApart(ids);
    DistinctCard(utxos, AllExpected(ids));
    assert OutputInfo(OutPoint(ids.incoming, 0), 2) in utxos;
    assert OutputInfo(OutPoint(ids.confirmed, 0), 5) in utxos;
    assert OutputInfo(OutPoint(ids.change, 1), 8) in utxos;
  }
}
