/**
 * The on-disk form of the transaction store (TxDatabase::serialize and
 * TxDatabase::load): a 4-byte magic, the 8-byte last block height, then one
 * record per kept row. All integers are little-endian; signed heights and
 * timestamps travel as their 64-bit two's-complement bit pattern.
 *
 * A record is: tag 0x42, the row's key, the transaction in wire format,
 * the state byte, an 8-byte height slot (the timestamp for unconfirmed
 * rows, the block height otherwise), a zero byte once used as need_check,
 * txid, ntxid, a malleated flag (always written 0) and a master-confirm
 * flag (written as state == confirmed).
 */
module TxDatabaseFormat {
  import opened Wrappers
  import opened Bytes
  import opened Status
  import opened Wire
  import opened TxDatabase

  const OLD_SERIAL_MAGIC: nat := 0x3eab61c3
  const SERIAL_MAGIC: nat := 0xfecdb763
  const SERIAL_TX: byte := 0x42

  const TRUNCATED: string := "Truncated transaction database"
  const OUTDATED: string := "Outdated transaction database format"
  const UNKNOWN_HEADER: string := "Unknown transaction database header"
  const UNKNOWN_ENTRY: string := "Unknown entry in transaction database"

  /** serialize drops unconfirmed rows not seen for longer than the timeout. */
  predicate Stale(db: Db, row: TxRow, now: int) {
    row.timestamp + db.unconfirmedTimeout < now && row.state == Unconfirmed
  }

  /** What the 8-byte height slot of a record holds. */
  function HeightSlot(row: TxRow): int {
    if row.state == Unconfirmed then row.timestamp else row.blockHeight
  }

  /** The fields a record stores after the transaction. */
  datatype Fields = Fields(
    stateByte: byte,
    height: nat,        // the raw 8-byte height slot
    txid: Hash,
    ntxid: Hash,
    malleated: byte,
    masterConfirm: byte)

  /** The fields serialize writes for a row. */
  function FieldsOf(row: TxRow): (f: Fields)
    ensures f.height < TWO_64
  {
    Fields(StateByte(row.state), ToUint64(HeightSlot(row)), row.txid, row.ntxid,
           0, if row.state == Confirmed then 1 else 0)
  }

  function FieldBytes(f: Fields): seq<byte> {
    [f.stateByte] + LE(f.height, 8) + [0] + f.txid + f.ntxid + [f.malleated] + [f.masterConfirm]
  }

  function Record(key: Hash, row: TxRow): seq<byte> {
    [SERIAL_TX] + key + Encode(row.tx) + FieldBytes(FieldsOf(row))
  }

  /** The records of the rows listed in `order`, stale rows skipped. */
  function Records(db: Db, order: seq<Hash>, now: int): seq<byte> {
    if order == [] then []
    else
      var t := order[0];
      (if t in db.rows && !Stale(db, db.rows[t], now) then Record(t, db.rows[t]) else [])
        + Records(db, order[1..], now)
  }

  /** serialize: header, then the records in the map's iteration order. */
  function Serialize(db: Db, order: seq<Hash>, now: int): (data: seq<byte>)
    requires Enumerates(db, order)
    ensures |data| >= 12
    ensures data[..4] == LE(SERIAL_MAGIC, 4)
    ensures data[4..12] == LE(ToUint64(db.lastHeight), 8)
  {
    var data := LE(SERIAL_MAGIC, 4) + LE(ToUint64(db.lastHeight), 8) + Records(db, order, now);
    assert data[..4] == LE(SERIAL_MAGIC, 4);
    assert data[4..12] == LE(ToUint64(db.lastHeight), 8);
    data
  }

  /**
   * The row load builds from a record. `probe` is the state the height
   * test looks at. A record flagged malleated without master confirmation
   * comes back unconfirmed at height 0, whatever its stored state.
   */
  function RestoreRow(tx: Transaction, f: Fields, probe: TxState, now: int): (row: TxRow)
    requires f.height < TWO_64
    ensures row.tx == tx && row.txid == f.txid && row.ntxid == f.ntxid
    ensures f.malleated != 0 && f.masterConfirm == 0 ==> row.state == Unconfirmed && row.blockHeight == 0
    ensures !(f.malleated != 0 && f.masterConfirm == 0) ==> row.state == StateOfByte(f.stateByte)
    ensures probe == Unconfirmed ==> row.blockHeight == 0 && row.timestamp == FromUint64(f.height)
    ensures probe != Unconfirmed ==> row.timestamp == now
    ensures probe != Unconfirmed && !(f.malleated != 0 && f.masterConfirm == 0) ==>
      row.blockHeight == FromUint64(f.height)
  {
    var blockHeight := if probe == Unconfirmed then 0 else FromUint64(f.height);
    var timestamp := if probe == Unconfirmed then FromUint64(f.height) else now;
    if f.malleated != 0 && f.masterConfirm == 0 then TxRow(tx, f.txid, f.ntxid, Unconfirmed, 0, timestamp)
    else TxRow(tx, f.txid, f.ntxid, StateOfByte(f.stateByte), blockHeight, timestamp)
  }

  /** A read past the end of the data: end_of_stream, reported as truncation. */
  function Need<T>(o: Option<T>): (r: Result<T>)
    ensures o.Some? ==> r == Ok(o.value)
    ensures o.None? ==> r == Fail(ParseError, TRUNCATED)
  {
    match o
    case Some(v) => Ok(v)
    case None => Fail(ParseError, TRUNCATED)
  }

  /** The fields after the transaction, each read in turn. */
  function ReadFields(s: seq<byte>): (r: Result<(Fields, seq<byte>)>)
    ensures r.Fail? ==> r == Fail(ParseError, TRUNCATED)
    ensures r.Ok? ==> r.value.0.height < TWO_64 && |r.value.1| < |s|
  {
    var (stateByte, r1) :- Need(ReadByte(s));
    var (height, r2) :- Need(ReadLE(r1, 8));
    var (_, r3) :- Need(ReadByte(r2));
    var (txid, r4) :- Need(ReadHash(r3));
    var (ntxid, r5) :- Need(ReadHash(r4));
    var (malleated, r6) :- Need(ReadByte(r5));
    var (masterConfirm, r7) :- Need(ReadByte(r6));
    Pow256Values();
    Ok((Fields(stateByte, height, txid, ntxid, malleated, masterConfirm), r7))
  }

  /**
   * One record. `garbage` selects what the height test at the head of the
   * row assembly compares: None for the state byte just read, Some(g) for
   * a row whose state field still holds g.
   */
  function ParseRecord(s: seq<byte>, now: int, garbage: Option<TxState>)
    : (r: Result<(Hash, TxRow, seq<byte>)>)
    requires s != []
    ensures r.Fail? ==> r.code == ParseError
    ensures s[0] != SERIAL_TX ==> r == Fail(ParseError, UNKNOWN_ENTRY)
    ensures r.Ok? ==> |r.value.2| < |s|
  {
    if s[0] != SERIAL_TX then Fail(ParseError, UNKNOWN_ENTRY)
    else
      var (hash, r1) :- Need(ReadHash(s[1..]));
      var (tx, _) :- Need(Decode(r1));
      if |r1| < RawSize(tx) then Fail(ParseError, TRUNCATED)
      else
        var (f, rest) :- ReadFields(r1[RawSize(tx)..]);
        var probe := garbage.GetOr(StateOfByte(f.stateByte));
        Ok((hash, RestoreRow(tx, f, probe, now), rest))
  }

  /** Records until the data ends; a later record for the same key replaces an earlier one. */
  function ParseRecords(s: seq<byte>, acc: map<Hash, TxRow>, now: int, garbage: Option<TxState>)
    : (r: Result<map<Hash, TxRow>>)
    ensures r.Fail? ==> r.code == ParseError
    ensures s != [] && s[0] != SERIAL_TX ==> r == Fail(ParseError, UNKNOWN_ENTRY)
    decreases |s|
  {
    if s == [] then Ok(acc)
    else
      var (hash, row, rest) :- ParseRecord(s, now, garbage);
      ParseRecords(rest, acc[hash := row], now, garbage)
  }

  /**
   * The shared body of load: on success the store takes the decoded height
   * and exactly the decoded rows; on any error it is returned unchanged.
   */
  function LoadWith(db: Db, data: seq<byte>, now: int, garbage: Option<TxState>): (r: (Outcome, Db))
    ensures r.0.Failed? ==> r.0.code == ParseError && r.1 == db
    ensures |data| < 4 ==> r.0 == Failed(ParseError, TRUNCATED)
    ensures |data| >= 4 && FromLE(data[..4]) == OLD_SERIAL_MAGIC ==>
      r.0 == Failed(ParseError, OUTDATED)
    ensures |data| >= 4 && FromLE(data[..4]) != OLD_SERIAL_MAGIC && FromLE(data[..4]) != SERIAL_MAGIC ==>
      r.0 == Failed(ParseError, UNKNOWN_HEADER)
    ensures |data| >= 4 && FromLE(data[..4]) == SERIAL_MAGIC && |data| < 12 ==>
      r.0 == Failed(ParseError, TRUNCATED)
    ensures r.0.Pass? ==>
      && |data| >= 12 && FromLE(data[..4]) == SERIAL_MAGIC
      && ParseRecords(data[12..], map[], now, garbage) == Ok(r.1.rows)
      && r.1 == db.(lastHeight := r.1.lastHeight, rows := r.1.rows)
      && FromLE(data[4..12]) < TWO_64
      && r.1.lastHeight == FromUint64(FromLE(data[4..12]))
  {
    match ReadLE(data, 4)
    case None => (Failed(ParseError, TRUNCATED), db)
    case Some((magic, r1)) =>
      if magic != SERIAL_MAGIC then
        (Failed(ParseError, if magic == OLD_SERIAL_MAGIC then OUTDATED else UNKNOWN_HEADER), db)
      else
        match ReadLE(r1, 8)
        case None => (Failed(ParseError, TRUNCATED), db)
        case Some((lastHeight, r2)) =>
          assert r1 == data[4..] && r1[..8] == data[4..12] && r2 == data[12..];
          Pow256Values();
          match ParseRecords(r2, map[], now, garbage)
          case Fail(code, message) => (Failed(code, message), db)
          case Ok(rows) => (Pass, db.(lastHeight := FromUint64(lastHeight), rows := rows))
  }

  /** load as it should read: the height test looks at the state byte just read. */
  function Load(db: Db, data: seq<byte>, now: int): (r: (Outcome, Db))
    ensures r.0.Failed? ==> r.0.code == ParseError && r.1 == db
    ensures |data| < 4 ==> r.0 == Failed(ParseError, TRUNCATED)
    ensures |data| >= 4 && FromLE(data[..4]) == OLD_SERIAL_MAGIC ==>
      r.0 == Failed(ParseError, OUTDATED)
    ensures |data| >= 4 && FromLE(data[..4]) != OLD_SERIAL_MAGIC && FromLE(data[..4]) != SERIAL_MAGIC ==>
      r.0 == Failed(ParseError, UNKNOWN_HEADER)
    ensures |data| > 12 && FromLE(data[..4]) == SERIAL_MAGIC && data[12] != SERIAL_TX ==>
      r.0 == Failed(ParseError, UNKNOWN_ENTRY)
  {
    LoadWith(db, data, now, None)
  }

  /**
   * load as written: the height test reads the new row's state field before
   * anything is stored in it, so it sees whatever `uninitialised` is.
   */
  function LoadAsWritten(db: Db, data: seq<byte>, now: int, uninitialised: TxState): (r: (Outcome, Db))
    ensures r.0.Failed? ==> r.0.code == ParseError && r.1 == db
  {
    LoadWith(db, data, now, Some(uninitialised))
  }

  // ---------------------------------------------------------------------
  // The round trip.

  /** What the store can write and read back: 64-bit values, valid states, well-formed txs. */
  predicate Storable(db: Db) {
    && IsInt64(db.lastHeight)
    && forall t | t in db.rows ::
         && WellFormed(db.rows[t].tx)
         && ValidState(db.rows[t].state)
         && IsInt64(db.rows[t].blockHeight)
         && IsInt64(db.rows[t].timestamp)
  }

  /**
   * A row as the corrected load gives it back: an unconfirmed row keeps its
   * timestamp and has height 0; any other row keeps its height and is
   * stamped with the load time.
   */
  function Reloaded(row: TxRow, now: int): (r: TxRow)
    ensures r.tx == row.tx && r.txid == row.txid && r.ntxid == row.ntxid && r.state == row.state
    ensures row.state == Unconfirmed ==> r.blockHeight == 0 && r.timestamp == row.timestamp
    ensures row.state != Unconfirmed ==> r.blockHeight == row.blockHeight && r.timestamp == now
  {
    if row.state == Unconfirmed then row.(blockHeight := 0) else row.(timestamp := now)
  }

  /** The row a record reads back as, for either form of the height test. */
  function ReadBack(row: TxRow, now: int, garbage: Option<TxState>): TxRow {
    RestoreRow(row.tx, FieldsOf(row), garbage.GetOr(StateOfByte(StateByte(row.state))), now)
  }

  lemma ReadBackCorrected(row: TxRow, now: int)
    requires IsInt64(HeightSlot(row)) && ValidState(row.state)
    ensures ReadBack(row, now, None) == Reloaded(row, now)
  {
    Uint64RoundTrip(HeightSlot(row));
  }

  lemma ReadFieldsOf(f: Fields, rest: seq<byte>)
    requires f.height < TWO_64
    ensures ReadFields(FieldBytes(f) + rest) == Ok((f, rest))
  {
    Pow256Values();
    var r6 := [f.masterConfirm] + rest;
    var r5 := [f.malleated] + r6;
    var r4 := f.ntxid + r5;
    var r3 := f.txid + r4;
    var r1 := LE(f.height, 8) + ([0] + r3);
    assert FieldBytes(f) + rest == [f.stateByte] + r1;
    ReadLEOfLE(f.height, 8, [0] + r3);
    ReadHashOfHash(f.txid, r4);
    ReadHashOfHash(f.ntxid, r5);
  }

  /** The record parser on a tag, a key, a decodable transaction and the fields after it. */
  lemma ParseRecordOfParts(s: seq<byte>, key: Hash, r1: seq<byte>, tx: Transaction,
                           f: Fields, rest: seq<byte>, now: int, garbage: Option<TxState>)
    requires s == [SERIAL_TX] + (key + r1)
    requires Decode(r1).Some? && Decode(r1).value.0 == tx
    requires RawSize(tx) <= |r1| && ReadFields(r1[RawSize(tx)..]) == Ok((f, rest))
    ensures ParseRecord(s, now, garbage)
         == Ok((key, RestoreRow(tx, f, garbage.GetOr(StateOfByte(f.stateByte)), now), rest))
  {
    assert s[1..] == key + r1;
    ReadHashOfHash(key, r1);
  }

  /** Reading a record back gives its key, its row, and the bytes after it. */
  lemma ParseRecordOfRecord(key: Hash, row: TxRow, rest: seq<byte>, now: int, garbage: Option<TxState>)
    requires WellFormed(row.tx)
    ensures ParseRecord(Record(key, row) + rest, now, garbage)
         == Ok((key, ReadBack(row, now, garbage), rest))
  {
    var enc := Encode(row.tx);
    var tail := FieldBytes(FieldsOf(row)) + rest;
    var r1 := enc + tail;
    assert Record(key, row) + rest == [SERIAL_TX] + (key + r1);
    DecodeOfEncode(row.tx, tail);
    assert r1[RawSize(row.tx)..] == tail;
    ReadFieldsOf(FieldsOf(row), rest);
    ParseRecordOfParts(Record(key, row) + rest, key, r1, row.tx, FieldsOf(row), rest, now, garbage);
  }

  /** The rows the records of `order` read back as. */
  function Expected(db: Db, order: seq<Hash>, now: int, later: int, garbage: Option<TxState>)
    : map<Hash, TxRow>
  {
    map t | t in order && t in db.rows && !Stale(db, db.rows[t], now) ::
      ReadBack(db.rows[t], later, garbage)
  }

  /** Adding a kept row in front adds its read-back row (it may already be there, with the same value). */
  lemma ExpectedCons(db: Db, order: seq<Hash>, now: int, later: int, garbage: Option<TxState>)
    requires order != [] && order[0] in db.rows && !Stale(db, db.rows[order[0]], now)
    ensures var t := order[0];
      && Expected(db, order, now, later, garbage)
         == Expected(db, order[1..], now, later, garbage)[t := ReadBack(db.rows[t], later, garbage)]
      && (t in Expected(db, order[1..], now, later, garbage) ==>
            Expected(db, order[1..], now, later, garbage)[t] == ReadBack(db.rows[t], later, garbage))
  {
    assert forall x :: x in order <==> x == order[0] || x in order[1..];
  }

  /** A skipped row in front adds nothing. */
  lemma ExpectedSkip(db: Db, order: seq<Hash>, now: int, later: int, garbage: Option<TxState>)
    requires order != [] && !(order[0] in db.rows && !Stale(db, db.rows[order[0]], now))
    ensures Expected(db, order, now, later, garbage) == Expected(db, order[1..], now, later, garbage)
  {
    assert forall x :: x in order <==> x == order[0] || x in order[1..];
  }

  lemma EmptyUnion<K, V>(m: map<K, V>)
    ensures map[] + m == m
  {
  }

  lemma UpdateThenUnion<K, V>(a: map<K, V>, k: K, v: V, m: map<K, V>)
    requires k in m ==> m[k] == v
    ensures a[k := v] + m == a + m[k := v]
  {
  }

  lemma ParseRecordsStep(key: Hash, row: TxRow, rest: seq<byte>, acc: map<Hash, TxRow>,
                         now: int, garbage: Option<TxState>)
    requires WellFormed(row.tx)
    ensures ParseRecords(Record(key, row) + rest, acc, now, garbage)
         == ParseRecords(rest, acc[key := ReadBack(row, now, garbage)], now, garbage)
  {
    ParseRecordOfRecord(key, row, rest, now, garbage);
  }

  lemma {:induction false} ParseRecordsOfRecords(db: Db, order: seq<Hash>, acc: map<Hash, TxRow>,
                                                 now: int, later: int, garbage: Option<TxState>)
    requires Storable(db)
    ensures ParseRecords(Records(db, order, now), acc, later, garbage)
         == Ok(acc + Expected(db, order, now, later, garbage))
  {
    if order == [] {
      assert Expected(db, order, now, later, garbage) == map[];
      assert acc + map[] == acc;
    } else {
      var t := order[0];
      var rest := Records(db, order[1..], now);
      if t in db.rows && !Stale(db, db.rows[t], now) {
        var row := db.rows[t];
        var v := ReadBack(row, later, garbage);
        assert Records(db, order, now) == Record(t, row) + rest;
        ParseRecordsStep(t, row, rest, acc, later, garbage);
        ParseRecordsOfRecords(db, order[1..], acc[t := v], now, later, garbage);
        ExpectedCons(db, order, now, later, garbage);
        UpdateThenUnion(acc, t, v, Expected(db, order[1..], now, later, garbage));
      } else {
        assert Records(db, order, now) == rest;
        ParseRecordsOfRecords(db, order[1..], acc, now, later, garbage);
        ExpectedSkip(db, order, now, later, garbage);
      }
    }
  }

  lemma LoadWithOfParts(db0: Db, height: nat, recs: seq<byte>, later: int,
                        garbage: Option<TxState>, rows: map<Hash, TxRow>)
    requires height < TWO_64 && ParseRecords(recs, map[], later, garbage) == Ok(rows)
    ensures LoadWith(db0, LE(SERIAL_MAGIC, 4) + (LE(height, 8) + recs), later, garbage)
         == (Pass, db0.(lastHeight := FromUint64(height), rows := rows))
  {
    Pow256Values();
    ReadLEOfLE(SERIAL_MAGIC, 4, LE(height, 8) + recs);
    ReadLEOfLE(height, 8, recs);
  }

  /** The header and records of a serialized store, parsed with either height test. */
  lemma LoadWithOfSerialize(db0: Db, db: Db, order: seq<Hash>, now: int, later: int,
                            garbage: Option<TxState>)
    requires Enumerates(db, order) && Storable(db)
    ensures LoadWith(db0, Serialize(db, order, now), later, garbage)
         == (Pass, db0.(lastHeight := db.lastHeight, rows := Expected(db, order, now, later, garbage)))
  {
    var recs := Records(db, order, now);
    var expected := Expected(db, order, now, later, garbage);
    assert Serialize(db, order, now) == LE(SERIAL_MAGIC, 4) + (LE(ToUint64(db.lastHeight), 8) + recs);
    ParseRecordsOfRecords(db, order, map[], now, later, garbage);
    EmptyUnion(expected);
    LoadWithOfParts(db0, ToUint64(db.lastHeight), recs, later, garbage, expected);
    Uint64RoundTrip(db.lastHeight);
  }

  /**
   * serialize then load: the height is kept; the rows are exactly the
   * stored rows that were not stale, unconfirmed ones with their timestamp
   * and height 0, the rest with their height and the load time.
   */
  lemma LoadOfSerialize(db0: Db, db: Db, order: seq<Hash>, now: int, later: int)
    requires Enumerates(db, order) && Storable(db)
    ensures var r := Load(db0, Serialize(db, order, now), later);
      && r.0 == Pass
      && r.1.lastHeight == db.lastHeight
      && r.1.unconfirmedTimeout == db0.unconfirmedTimeout
      && (forall t :: t in r.1.rows <==> t in db.rows && !Stale(db, db.rows[t], now))
      && (forall t | t in r.1.rows :: r.1.rows[t] == Reloaded(db.rows[t], later))
  {
    LoadWithOfSerialize(db0, db, order, now, later, None);
    forall t | t in db.rows
      ensures ReadBack(db.rows[t], later, None) == Reloaded(db.rows[t], later)
    {
      ReadBackCorrected(db.rows[t], later);
    }
  }

  // ---------------------------------------------------------------------
  // What the test of the uninitialised field does to a round trip.

  function OneRow(key: Hash, row: TxRow): Db {
    Db(100, map[key := row], 3600)
  }

  lemma OneRowEnumerates(key: Hash, row: TxRow)
    ensures Enumerates(OneRow(key, row), [key])
  {
  }

  lemma ExpectedSingle(db: Db, key: Hash, now: int, later: int, garbage: Option<TxState>)
    requires key in db.rows && !Stale(db, db.rows[key], now)
    ensures Expected(db, [key], now, later, garbage) == map[key := ReadBack(db.rows[key], later, garbage)]
  {
  }

  /** A one-row store reads back as that row's read-back form. */
  lemma OneRowLoad(key: Hash, row: TxRow, now: int, later: int, garbage: Option<TxState>)
    requires Enumerates(OneRow(key, row), [key])
    requires Storable(OneRow(key, row)) && !Stale(OneRow(key, row), row, now)
    ensures var r := LoadWith(NewDb(3600), Serialize(OneRow(key, row), [key], now), later, garbage);
      r.0 == Pass && r.1.rows == map[key := ReadBack(row, later, garbage)]
  {
    var db := OneRow(key, row);
    LoadWithOfSerialize(NewDb(3600), db, [key], now, later, garbage);
    ExpectedSingle(db, key, now, later, garbage);
  }

  /**
   * When the stray value reads as unconfirmed, a confirmed row at height
   * 500 is loaded at height 0 and with its height as its timestamp (the
   * corrected load keeps height 500: LoadOfSerialize).
   */
  lemma AsWrittenLosesConfirmedHeight(key: Hash, now: int)
    ensures var row := TxRow(EmptyTx, key, key, Confirmed, 500, 0);
      var r := LoadAsWritten(NewDb(3600), Serialize(OneRow(key, row), [key], now), now, Unconfirmed);
      && r.0 == Pass
      && key in r.1.rows
      && r.1.rows[key].state == Confirmed
      && r.1.rows[key].blockHeight == 0
      && r.1.rows[key].timestamp == 500
  {
    var row := TxRow(EmptyTx, key, key, Confirmed, 500, 0);
    assert Storable(OneRow(key, row));
    assert FieldsOf(row).height == 500;
    OneRowEnumerates(key, row);
    OneRowLoad(key, row, now, now, Some(Unconfirmed));
  }

  /**
   * When the stray value reads as anything else, an unconfirmed row comes
   * back with its timestamp as its block height and the load time as its
   * timestamp.
   */
  lemma AsWrittenMisreadsUnconfirmed(key: Hash, now: int, uninitialised: TxState)
    requires uninitialised != Unconfirmed && IsInt64(now)
    ensures var row := TxRow(EmptyTx, key, key, Unconfirmed, 0, now);
      var r := LoadAsWritten(NewDb(3600), Serialize(OneRow(key, row), [key], now), now + 1, uninitialised);
      && r.0 == Pass
      && key in r.1.rows
      && r.1.rows[key].state == Unconfirmed
      && r.1.rows[key].timestamp == now + 1
      && r.1.rows[key].blockHeight == now
  {
    var row := TxRow(EmptyTx, key, key, Unconfirmed, 0, now);
    assert Storable(OneRow(key, row));
    OneRowEnumerates(key, row);
    OneRowLoad(key, row, now, now + 1, Some(uninitialised));
    MisreadRow(row, now, uninitialised);
  }

  /** The read-back form of that unconfirmed row under the stray value. */
  lemma MisreadRow(row: TxRow, now: int, uninitialised: TxState)
    requires row.state == Unconfirmed && row.timestamp == now
    requires uninitialised != Unconfirmed && IsInt64(now)
    ensures var b := ReadBack(row, now + 1, Some(uninitialised));
      b.state == Unconfirmed && b.timestamp == now + 1 && b.blockHeight == now
  {
    Uint64RoundTrip(now);
  }
}
