/**
 * The transaction store (abcd/bitcoin/TxDatabase.cpp): a map from txid to
 * a row holding the transaction, its txid and normalized txid (ntxid), its
 * confirmation state, block height and the time it was last seen, plus the
 * last block height the wallet knows of.
 *
 * The std::unordered_map is a Dafny map; wherever the source walks the map
 * and the result depends on the walk, the walk is an explicit `order`
 * that enumerates the keys (Enumerates).
 */
module TxDatabase {
  import opened Wrappers
  import opened Bytes
  import opened Status
  import opened Wire
  import opened Seqs
  import opened Script

  /** TxState, stored as one byte: 0 unconfirmed, 1 confirmed; load keeps any other byte. */
  datatype TxState = Unconfirmed | Confirmed | Unknown(code: byte)

  predicate ValidState(s: TxState) {
    s.Unknown? ==> s.code >= 2
  }

  function StateOfByte(b: byte): (s: TxState)
    ensures ValidState(s)
  {
    if b == 0 then Unconfirmed else if b == 1 then Confirmed else Unknown(b)
  }

  /** The byte a state is stored as (static_cast<uint8_t>). */
  function StateByte(s: TxState): (b: byte)
    ensures ValidState(s) ==> StateOfByte(b) == s
  {
    match s
    case Unconfirmed => 0
    case Confirmed => 1
    case Unknown(c) => c
  }

  datatype TxRow = TxRow(
    tx: Transaction,
    txid: Hash,
    ntxid: Hash,
    state: TxState,
    blockHeight: int,
    timestamp: int)

  datatype Db = Db(lastHeight: int, rows: map<Hash, TxRow>, unconfirmedTimeout: nat)

  /** bc::hash_transaction and makeNtxid, left abstract. */
  datatype Hashers = Hashers(txid: Transaction -> Hash, ntxid: Transaction -> Hash)

  /** `order` lists every key of the store exactly once (an iteration of rows_). */
  predicate Enumerates(db: Db, order: seq<Hash>) {
    && Distinct(order)
    && (forall t | t in order :: t in db.rows)
    && (forall t | t in db.rows :: t in order)
  }

  /** A new store: height 0, no rows. */
  function NewDb(unconfirmedTimeout: nat): Db {
    Db(0, map[], unconfirmedTimeout)
  }

  /** Only the row `t` differs between the two stores, and its key stays. */
  predicate OnlyRowChanged(db: Db, db': Db, t: Hash) {
    && db'.lastHeight == db.lastHeight
    && db'.unconfirmedTimeout == db.unconfirmedTimeout
    && db'.rows.Keys == db.rows.Keys
    && forall k | k in db.rows && k != t :: db'.rows[k] == db.rows[k]
  }

  // ---------------------------------------------------------------------
  // Updates

  /**
   * insert: a transaction whose txid is absent gets a fresh unconfirmed
   * row at height 0 stamped `now`; an existing row is never overwritten.
   */
  function Insert(db: Db, hs: Hashers, tx: Transaction, now: int): (r: (bool, Db))
    ensures var t := hs.txid(tx);
      && (r.0 <==> t !in db.rows)
      && r.1.lastHeight == db.lastHeight
      && r.1.unconfirmedTimeout == db.unconfirmedTimeout
      && r.1.rows.Keys == db.rows.Keys + {t}
      && (forall k | k in db.rows :: r.1.rows[k] == db.rows[k])
      && (r.0 ==> r.1.rows[t] == TxRow(tx, t, hs.ntxid(tx), Unconfirmed, 0, now))
  {
    var t := hs.txid(tx);
    if t !in db.rows then
      (true, db.(rows := db.rows[t := TxRow(tx, t, hs.ntxid(tx), Unconfirmed, 0, now)]))
    else (false, db)
  }

  /** clear: height 0 and no rows. */
  function Clear(db: Db): (r: Db)
    ensures r.lastHeight == 0 && r.rows == map[]
    ensures r.unconfirmedTimeout == db.unconfirmedTimeout
  {
    db.(lastHeight := 0, rows := map[])
  }

  /** at_height: the last height becomes h, with no check that it grows. */
  function AtHeight(db: Db, h: int): (r: Db)
    ensures r.lastHeight == h && r.rows == db.rows
    ensures r.unconfirmedTimeout == db.unconfirmedTimeout
  {
    db.(lastHeight := h)
  }

  /** confirmed: the row becomes confirmed at height h; nothing else changes. */
  function MarkConfirmed(db: Db, t: Hash, h: int): (r: Db)
    requires t in db.rows
    ensures OnlyRowChanged(db, r, t)
    ensures r.rows[t] == db.rows[t].(state := Confirmed, blockHeight := h)
  {
    db.(rows := db.rows[t := db.rows[t].(state := Confirmed, blockHeight := h)])
  }

  /** unconfirmed: the row becomes unconfirmed at height 0; nothing else changes. */
  function MarkUnconfirmed(db: Db, t: Hash): (r: Db)
    requires t in db.rows
    ensures OnlyRowChanged(db, r, t)
    ensures r.rows[t] == db.rows[t].(state := Unconfirmed, blockHeight := 0)
  {
    db.(rows := db.rows[t := db.rows[t].(state := Unconfirmed, blockHeight := 0)])
  }

  /** reset_timestamp: a stored row is stamped `now`; a missing txid is ignored. */
  function ResetTimestamp(db: Db, t: Hash, now: int): (r: Db)
    ensures t !in db.rows ==> r == db
    ensures t in db.rows ==>
      OnlyRowChanged(db, r, t) && r.rows[t] == db.rows[t].(timestamp := now)
  {
    if t in db.rows then db.(rows := db.rows[t := db.rows[t].(timestamp := now)]) else db
  }

  // ---------------------------------------------------------------------
  // Queries

  /** txidLookup: the stored transaction, or an empty one when missing. */
  function TxidLookup(db: Db, t: Hash): (tx: Transaction)
    ensures t in db.rows ==> tx == db.rows[t].tx
    ensures t !in db.rows ==> tx == EmptyTx
  {
    if t in db.rows then db.rows[t].tx else EmptyTx
  }

  /** txidHeight: the block height of a confirmed row, else 0. */
  function TxidHeight(db: Db, t: Hash): (h: int)
    ensures t in db.rows && db.rows[t].state == Confirmed ==> h == db.rows[t].blockHeight
    ensures t !in db.rows || db.rows[t].state != Confirmed ==> h == 0
  {
    if t !in db.rows then 0
    else if db.rows[t].state != Confirmed then 0
    else db.rows[t].blockHeight
  }

  /** The txids of the rows sharing one ntxid: the malleated variants of a transaction. */
  function Variants(db: Db, n: Hash): set<Hash> {
    set t | t in db.rows && db.rows[t].ntxid == n
  }

  /** ntxidLookupAll: the variants' txids, in iteration order. */
  function NtxidLookupAll(db: Db, order: seq<Hash>, n: Hash): (r: seq<Hash>)
    ensures forall t :: t in r <==> t in order && t in Variants(db, n)
    ensures forall i | 0 <= i < |r| :: r[i] in db.rows && db.rows[r[i]].ntxid == n
    ensures Distinct(order) ==> Distinct(r)
    ensures |r| <= |order|
  {
    if order == [] then []
    else
      var more := NtxidLookupAll(db, order[1..], n);
      if order[0] in db.rows && db.rows[order[0]].ntxid == n then
        DistinctTail(order);
        [order[0]] + more
      else more
  }

  lemma VariantsListed(db: Db, order: seq<Hash>, n: Hash)
    requires Enumerates(db, order)
    ensures |NtxidLookupAll(db, order, n)| == |Variants(db, n)|
    ensures forall t :: t in NtxidLookupAll(db, order, n) <==> t in Variants(db, n)
  {
    var r := NtxidLookupAll(db, order, n);
    DistinctCard(r, Variants(db, n));
  }

  /** ntxidExists: some row carries the ntxid. */
  function NtxidExists(db: Db, n: Hash): (b: bool)
    ensures b <==> exists t :: t in db.rows && db.rows[t].ntxid == n
  {
    exists t | t in db.rows :: db.rows[t].ntxid == n
  }

  /** The position of the first confirmed row in ks at or after k, or |ks| when there is none. */
  function FirstConfirmed(db: Db, ks: seq<Hash>, k: nat): (f: nat)
    requires k <= |ks| && forall i | 0 <= i < |ks| :: ks[i] in db.rows
    ensures k <= f <= |ks|
    ensures forall i | k <= i < f :: db.rows[ks[i]].state != Confirmed
    ensures f < |ks| ==> db.rows[ks[f]].state == Confirmed
    decreases |ks| - k
  {
    if k == |ks| then k
    else if db.rows[ks[k]].state == Confirmed then k
    else FirstConfirmed(db, ks, k + 1)
  }

  /**
   * ntxidLookup: the first confirmed variant met while walking `order`,
   * else the last variant met, else an empty transaction.
   */
  function NtxidLookup(db: Db, order: seq<Hash>, n: Hash): (tx: Transaction)
    ensures var ks := NtxidLookupAll(db, order, n);
      var f := FirstConfirmed(db, ks, 0);
      && (f < |ks| ==> tx == db.rows[ks[f]].tx)
      && (f == |ks| ==> tx == if ks == [] then EmptyTx else db.rows[ks[|ks| - 1]].tx)
  {
    var ks := NtxidLookupAll(db, order, n);
    PickVariant(db, ks, 0, EmptyTx)
  }

  /** The loop of ntxidLookup from position k, `out` being the last variant seen so far. */
  function PickVariant(db: Db, ks: seq<Hash>, k: nat, out: Transaction): (tx: Transaction)
    requires k <= |ks| && forall i | 0 <= i < |ks| :: ks[i] in db.rows
    ensures var f := FirstConfirmed(db, ks, k);
      && (f < |ks| ==> tx == db.rows[ks[f]].tx)
      && (f == |ks| ==> tx == if k == |ks| then out else db.rows[ks[|ks| - 1]].tx)
    decreases |ks| - k
  {
    if k == |ks| then out
    else if db.rows[ks[k]].state == Confirmed then db.rows[ks[k]].tx
    else PickVariant(db, ks, k + 1, db.rows[ks[k]].tx)
  }

  /** The largest confirmed variant height, counting from 0 as the source does. */
  predicate IsMaxConfirmedHeight(db: Db, n: Hash, h: int) {
    && h >= 0
    && (forall t | t in Variants(db, n) && db.rows[t].state == Confirmed :: db.rows[t].blockHeight <= h)
    && (h == 0 || exists t | t in Variants(db, n) :: db.rows[t].state == Confirmed && db.rows[t].blockHeight == h)
  }

  /** The largest confirmed height among ks[..k], starting from 0 (the loop of ntxidHeight). */
  function MaxConfirmed(db: Db, ks: seq<Hash>, k: nat): (h: int)
    requires k <= |ks| && forall i | 0 <= i < |ks| :: ks[i] in db.rows
    ensures h >= 0
    ensures forall j | 0 <= j < k && db.rows[ks[j]].state == Confirmed :: db.rows[ks[j]].blockHeight <= h
    ensures h == 0 || exists j | 0 <= j < k :: db.rows[ks[j]].state == Confirmed && db.rows[ks[j]].blockHeight == h
  {
    if k == 0 then 0
    else
      var h := MaxConfirmed(db, ks, k - 1);
      var row := db.rows[ks[k - 1]];
      if row.state == Confirmed && h < row.blockHeight then row.blockHeight else h
  }

  /** The maximum over a list of the variants is the maximum over the variants. */
  lemma MaxOverVariants(db: Db, n: Hash, ks: seq<Hash>, height: int)
    requires forall t :: t in ks <==> t in Variants(db, n)
    requires forall i | 0 <= i < |ks| :: ks[i] in db.rows
    requires height >= 0
    requires forall j | 0 <= j < |ks| && db.rows[ks[j]].state == Confirmed :: db.rows[ks[j]].blockHeight <= height
    requires height == 0 || exists j | 0 <= j < |ks| :: db.rows[ks[j]].state == Confirmed && db.rows[ks[j]].blockHeight == height
    ensures IsMaxConfirmedHeight(db, n, height)
    ensures height == 0 <==>
      forall t | t in Variants(db, n) :: db.rows[t].state != Confirmed || db.rows[t].blockHeight <= 0
  {
    forall t | t in Variants(db, n) && db.rows[t].state == Confirmed
      ensures db.rows[t].blockHeight <= height
    {
      var j :| 0 <= j < |ks| && ks[j] == t;
    }
    if height != 0 {
      var j :| 0 <= j < |ks| && db.rows[ks[j]].state == Confirmed && db.rows[ks[j]].blockHeight == height;
      assert ks[j] in Variants(db, n);
    }
  }

  /**
   * ntxidHeight: Synchronizing when no row has the ntxid; otherwise the
   * largest confirmed height, or -1 ("malleated and unconfirmed") when
   * there are several variants and none is confirmed above height 0.
   */
  method NtxidHeight(db: Db, order: seq<Hash>, n: Hash) returns (r: Result<int>)
    requires Enumerates(db, order)
    ensures Variants(db, n) == {} <==> r.Fail?
    ensures r.Fail? ==> r == Fail(Synchronizing, "tx isn't in the database")
    ensures r.Ok? ==>
      if |Variants(db, n)| > 1 && (forall t | t in Variants(db, n) :: db.rows[t].state != Confirmed || db.rows[t].blockHeight <= 0)
      then r.value == -1
      else IsMaxConfirmedHeight(db, n, r.value)
  {
    var ks := NtxidLookupAll(db, order, n);
    VariantsListed(db, order, n);
    if |ks| == 0 {
      assert forall t :: t !in Variants(db, n);
      return Fail(Synchronizing, "tx isn't in the database");
    }
    var height := 0;
    var k := 0;
    while k < |ks|
      invariant 0 <= k <= |ks|
      invariant height == MaxConfirmed(db, ks, k)
    {
      var row := db.rows[ks[k]];
      if row.state == Confirmed && height < row.blockHeight {
        height := row.blockHeight;
      }
      assert height == MaxConfirmed(db, ks, k + 1);
      k := k + 1;
    }
    MaxOverVariants(db, n, ks, height);
    if 1 < |ks| && height == 0 {
      height := -1;
    }
    return Ok(height);
  }

  /** has_history: some stored output pays the address. */
  method HasHistory(db: Db, order: seq<Hash>, extract: seq<byte> -> Option<PaymentAddress>,
                    address: PaymentAddress) returns (b: bool)
    requires Enumerates(db, order)
    ensures b <==> exists t, i | t in db.rows && 0 <= i < |db.rows[t].tx.outputs| ::
      extract(db.rows[t].tx.outputs[i].script) == Some(address)
  {
    for k := 0 to |order|
      invariant forall j, i | 0 <= j < k && 0 <= i < |db.rows[order[j]].tx.outputs| ::
        extract(db.rows[order[j]].tx.outputs[i].script) != Some(address)
    {
      var outs := db.rows[order[k]].tx.outputs;
      for i := 0 to |outs|
        invariant forall i' | 0 <= i' < i :: extract(outs[i'].script) != Some(address)
      {
        if extract(outs[i].script) == Some(address) {
          return true;
        }
      }
    }
    forall t, i | t in db.rows && 0 <= i < |db.rows[t].tx.outputs|
      ensures extract(db.rows[t].tx.outputs[i].script) != Some(address)
    {
      var j :| 0 <= j < |order| && order[j] == t;
    }
    return false;
  }

  /** foreach_unconfirmed: the txids, in iteration order, of every row not confirmed. */
  function ForeachUnconfirmed(db: Db, order: seq<Hash>): (r: seq<Hash>)
    ensures forall t :: t in r <==> t in order && t in db.rows && db.rows[t].state != Confirmed
    ensures Distinct(order) ==> Distinct(r)
  {
    if order == [] then []
    else
      var more := ForeachUnconfirmed(db, order[1..]);
      if order[0] in db.rows && db.rows[order[0]].state != Confirmed then
        DistinctTail(order);
        [order[0]] + more
      else more
  }

  // ---------------------------------------------------------------------
  // How the updates and queries fit together

  lemma InsertThenLookup(db: Db, hs: Hashers, tx: Transaction, now: int)
    ensures var db' := Insert(db, hs, tx, now).1;
      && TxidLookup(db', hs.txid(tx)) == (if hs.txid(tx) in db.rows then db.rows[hs.txid(tx)].tx else tx)
      && TxidHeight(db', hs.txid(tx)) == TxidHeight(db, hs.txid(tx))
  {
  }

  /** Inserting the same transaction again reports false and changes nothing. */
  lemma InsertIdempotent(db: Db, hs: Hashers, tx: Transaction, now: int, later: int)
    ensures var db' := Insert(db, hs, tx, now).1;
      Insert(db', hs, tx, later) == (false, db')
  {
  }

  lemma ConfirmedHeight(db: Db, t: Hash, h: int)
    requires t in db.rows
    ensures TxidHeight(MarkConfirmed(db, t, h), t) == h
    ensures TxidHeight(MarkUnconfirmed(MarkConfirmed(db, t, h), t), t) == 0
    ensures forall k | k != t :: TxidHeight(MarkConfirmed(db, t, h), k) == TxidHeight(db, k)
  {
  }

  /** A row that has just been marked unconfirmed is reported again by foreach_unconfirmed. */
  lemma UnconfirmedListed(db: Db, order: seq<Hash>, t: Hash)
    requires t in db.rows && Enumerates(db, order)
    ensures t in ForeachUnconfirmed(MarkUnconfirmed(db, t), order)
    ensures t !in ForeachUnconfirmed(MarkConfirmed(db, t, 0), order)
  {
  }
}
