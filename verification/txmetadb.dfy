/**
 * The wallet's transaction-metadata store (abcd/wallet/TxMetaDb.cpp): one
 * encrypted JSON file per transaction in the wallet's Transactions/
 * directory, indexed in memory by normalised txid (ntxid).
 *
 * The directory listing and the outcome of decrypting and parsing each
 * file are inputs (DirEntry), and so are the filename hash, the
 * JSON-filename test and the details codec (Env). A JSON object is
 * modelled by the fields this store reads and writes, plus the keys it
 * does not know, which it carries along untouched.
 */
module TxMetaDb {
  import opened Wrappers
  import opened Status
  import opened Seqs

  /** The user-visible details of a transaction (name, category, notes, amounts). */
  datatype Details = Details(fields: seq<(string, string)>)

  /** A transaction's metadata record (Tx). */
  datatype Tx = Tx(ntxid: string, txid: string, timeCreation: int, internal: bool, metadata: Details)

  /** The "state" sub-object: malleableTxId, creationDate, internal. */
  datatype StateJson = StateJson(txid: Field<string>, creationDate: Field<int>, internal: Field<bool>)

  /** The file's JSON object: ntxid, state, the encoded details, and any other keys. */
  datatype TxJson = TxJson(ntxid: Field<string>, state: Field<StateJson>, meta: Field<Details>,
                           extra: map<string, string>)

  const EMPTY_JSON: TxJson := TxJson(Missing, Missing, Missing, map[])

  /**
   * What the store cannot compute itself: its directory, the
   * key-dependent file name of an ntxid (cryptoFilename), the JSON-file
   * name test (fileIsJson) and the details decoder (ABC_TxDetailsDecode).
   */
  datatype Env = Env(dir: string, filename: string -> string, isJson: string -> bool,
                     decode: Field<Details> -> Result<Details>)

  /** The details decoder reads back what the encoder stored. */
  ghost predicate DecodesStored(env: Env) {
    forall d: Details :: env.decode(Present(d)) == Ok(d)
  }

  // ---------------------------------------------------------------------
  // TxJson::pack and TxJson::unpack

  /**
   * TxJson::unpack: the ntxid must be a string; the state fields fall back
   * to "", 0 and false when missing or of the wrong kind; then the details
   * are decoded.
   */
  function Unpack(json: TxJson, env: Env): (r: Result<Tx>)
    ensures !json.ntxid.Present? ==> r == Fail(JsonError, "Bad JSON value for ntxid")
    ensures r.Ok? ==> json.ntxid.Present? && r.value.ntxid == json.ntxid.value
                      && env.decode(json.meta) == Ok(r.value.metadata)
    ensures json.ntxid.Present? && env.decode(json.meta).Fail? ==>
      r.Fail? && r.code == env.decode(json.meta).code
  {
    if !json.ntxid.Present? then Fail(JsonError, "Bad JSON value for ntxid")
    else
      var state := json.state.GetOr(StateJson(Missing, Missing, Missing));
      match env.decode(json.meta)
      case Fail(code, message) => Fail(code, message)
      case Ok(details) =>
        Ok(Tx(json.ntxid.value, state.txid.GetOr(""), state.creationDate.GetOr(0),
              state.internal.GetOr(false), details))
  }

  /** TxJson::pack: sets every field this store owns and keeps the others. */
  function Pack(prev: TxJson, tx: Tx): (r: TxJson)
    ensures r.extra == prev.extra
  {
    TxJson(Present(tx.ntxid),
           Present(StateJson(Present(tx.txid), Present(tx.timeCreation), Present(tx.internal))),
           Present(tx.metadata), prev.extra)
  }

  /** Whatever object a transaction is packed into, unpacking gives the transaction back. */
  lemma UnpackPack(prev: TxJson, tx: Tx, env: Env)
    requires DecodesStored(env)
    ensures Unpack(Pack(prev, tx), env) == Ok(tx)
  {
    assert env.decode(Present(tx.metadata)) == Ok(tx.metadata);
  }

  // ---------------------------------------------------------------------
  // File paths

  const INTERNAL_SUFFIX: string := "-int.json"
  const EXTERNAL_SUFFIX: string := "-ext.json"

  predicate EndsWith(s: string, suffix: string) {
    |suffix| <= |s| && s[|s| - |suffix|..] == suffix
  }

  /** TxMetaDb::path: the directory, the hashed ntxid, and a suffix telling internal from external. */
  function Path(env: Env, tx: Tx): (r: string)
    ensures EndsWith(r, INTERNAL_SUFFIX) <==> tx.internal
    ensures EndsWith(r, EXTERNAL_SUFFIX) <==> !tx.internal
    ensures |env.dir| <= |r| && r[..|env.dir|] == env.dir
  {
    var stem := env.dir + env.filename(tx.ntxid);
    var suffix := if tx.internal then INTERNAL_SUFFIX else EXTERNAL_SUFFIX;
    var r := stem + suffix;
    assert r[|r| - 9..] == suffix;
    assert INTERNAL_SUFFIX[1] != EXTERNAL_SUFFIX[1];
    assert r[..|env.dir|] == env.dir;
    r
  }

  /** With an injective file-name hash, distinct (ntxid, internal) pairs get distinct paths. */
  lemma PathDistinct(env: Env, a: Tx, b: Tx)
    requires forall x, y :: env.filename(x) == env.filename(y) ==> x == y
    requires Path(env, a) == Path(env, b)
    ensures a.ntxid == b.ntxid && a.internal == b.internal
  {
    var pa, pb := Path(env, a), Path(env, b);
    var sa := env.dir + env.filename(a.ntxid);
    var sb := env.dir + env.filename(b.ntxid);
    assert pa[..|pa| - 9] == sa;
    assert pb[..|pb| - 9] == sb;
    assert env.filename(a.ntxid) == sa[|env.dir|..] == sb[|env.dir|..] == env.filename(b.ntxid);
  }

  // ---------------------------------------------------------------------
  // Loading

  /** One directory entry: its name and the outcome of decrypting and parsing it. */
  datatype DirEntry = DirEntry(name: string, loaded: Result<TxJson>)

  /** The in-memory store: transactions and their JSON objects, both by ntxid. */
  datatype MetaDb = MetaDb(txs: map<string, Tx>, files: map<string, TxJson>)

  /** The store together with the files load deleted, in order. */
  datatype Loaded = Loaded(db: MetaDb, deleted: seq<string>)

  /** An entry load takes in: a JSON file that decrypts, parses and unpacks. */
  predicate Accepted(env: Env, e: DirEntry) {
    env.isJson(e.name) && e.loaded.Ok? && Unpack(e.loaded.value, env).Ok?
  }

  /** The store's invariant: one JSON object per transaction, unpacking to it. */
  predicate Coherent(env: Env, db: MetaDb) {
    db.files.Keys == db.txs.Keys
    && forall n | n in db.txs :: db.txs[n].ntxid == n && Unpack(db.files[n], env) == Ok(db.txs[n])
  }

  /**
   * One step of TxMetaDb::load. Of two files with the same ntxid, an
   * internal newcomer replaces the stored one, whose file is deleted; any
   * other newcomer is dropped and its own file deleted.
   */
  function LoadEntry(env: Env, acc: Loaded, e: DirEntry): (r: Loaded)
  {
    if !Accepted(env, e) then acc
    else
      var json := e.loaded.value;
      var tx := Unpack(json, env).value;
      var known := tx.ntxid in acc.db.txs;
      var deleted :=
        if !known then acc.deleted
        else if tx.internal then acc.deleted + [Path(env, acc.db.txs[tx.ntxid])]
        else acc.deleted + [env.dir + e.name];
      if !known || tx.internal then
        Loaded(MetaDb(acc.db.txs[tx.ntxid := tx], acc.db.files[tx.ntxid := json]), deleted)
      else Loaded(acc.db, deleted)
  }

  /** TxMetaDb::load: both maps start empty, then every entry is read in directory order. */
  function Load(env: Env, entries: seq<DirEntry>): (r: Loaded)
    ensures Coherent(env, r.db)
    decreases |entries|
  {
    if entries == [] then Loaded(MetaDb(map[], map[]), [])
    else
      var acc := Load(env, entries[..|entries| - 1]);
      LoadEntry(env, acc, entries[|entries| - 1])
  }

  // A reference reading of the de-duplication rule, independent of the loop.

  /** The transactions of the accepted entries, in directory order. */
  function Candidates(env: Env, entries: seq<DirEntry>): (r: seq<Tx>)
    decreases |entries|
  {
    if entries == [] then []
    else
      var e := entries[|entries| - 1];
      Candidates(env, entries[..|entries| - 1])
        + (if Accepted(env, e) then [Unpack(e.loaded.value, env).value] else [])
  }

  /** The first candidate with this ntxid. */
  function First(cands: seq<Tx>, n: string): (r: Option<Tx>)
    ensures r.Some? ==> r.value in cands && r.value.ntxid == n
    ensures r.None? ==> forall t | t in cands :: t.ntxid != n
    decreases |cands|
  {
    if cands == [] then None
    else
      var front := First(cands[..|cands| - 1], n);
      var last := cands[|cands| - 1];
      assert forall t | t in cands :: t in cands[..|cands| - 1] || t == last;
      if front.Some? then front
      else if last.ntxid == n then Some(last)
      else None
  }

  /** The last internal candidate with this ntxid. */
  function LastInternal(cands: seq<Tx>, n: string): (r: Option<Tx>)
    ensures r.Some? ==> r.value in cands && r.value.ntxid == n && r.value.internal
    ensures r.None? ==> forall t | t in cands && t.ntxid == n :: !t.internal
    decreases |cands|
  {
    if cands == [] then None
    else
      var last := cands[|cands| - 1];
      assert forall t | t in cands :: t in cands[..|cands| - 1] || t == last;
      if last.ntxid == n && last.internal then Some(last)
      else LastInternal(cands[..|cands| - 1], n)
  }

  /** The copy that survives a collision: the last internal one, else the first one read. */
  function Winner(cands: seq<Tx>, n: string): Option<Tx> {
    var i := LastInternal(cands, n);
    if i.Some? then i else First(cands, n)
  }

  /**
   * load keeps exactly one transaction per ntxid that some accepted file
   * carries, and it is the reference winner.
   */
  lemma {:induction false} LoadKeepsWinner(env: Env, entries: seq<DirEntry>)
    ensures KeepsWinners(Load(env, entries).db.txs, Candidates(env, entries))
    decreases |entries|
  {
    if entries != [] {
      var init := entries[..|entries| - 1];
      var e := entries[|entries| - 1];
      LoadKeepsWinner(env, init);
      var acc := Load(env, init);
      var c0 := Candidates(env, init);
      assert Load(env, entries) == LoadEntry(env, acc, e);
      if Accepted(env, e) {
        var tx := Unpack(e.loaded.value, env).value;
        assert Candidates(env, entries) == c0 + [tx];
        WinnerStep(acc.db.txs, c0, tx);
      } else {
        assert Candidates(env, entries) == c0;
      }
    }
  }

  /** Every accepted file that load does not keep has had exactly one file deleted for it. */
  lemma {:induction false} LoadDeletesDuplicates(env: Env, entries: seq<DirEntry>)
    ensures var r := Load(env, entries);
      |r.deleted| + |r.db.txs.Keys| == |Candidates(env, entries)|
    decreases |entries|
  {
    if entries != [] {
      var init := entries[..|entries| - 1];
      var e := entries[|entries| - 1];
      LoadDeletesDuplicates(env, init);
      var acc := Load(env, init);
      assert Load(env, entries) == LoadEntry(env, acc, e);
      if Accepted(env, e) {
        var tx := Unpack(e.loaded.value, env).value;
        assert |Candidates(env, entries)| == |Candidates(env, init)| + 1;
        if tx.ntxid !in acc.db.txs {
          assert (acc.db.txs[tx.ntxid := tx]).Keys == acc.db.txs.Keys + {tx.ntxid};
        } else if tx.internal {
          assert (acc.db.txs[tx.ntxid := tx]).Keys == acc.db.txs.Keys;
        }
      } else {
        assert Candidates(env, entries) == Candidates(env, init);
      }
    }
  }

  /** The map holds one entry per ntxid among the candidates, and it is the winner. */
  ghost predicate KeepsWinners(txs: map<string, Tx>, cands: seq<Tx>) {
    && (forall n :: n in txs <==> First(cands, n).Some?)
    && (forall n | n in txs :: Some(txs[n]) == Winner(cands, n))
  }

  /** The winner map after one more accepted candidate, as LoadEntry updates it. */
  lemma WinnerStep(txs: map<string, Tx>, c0: seq<Tx>, tx: Tx)
    requires KeepsWinners(txs, c0)
    ensures KeepsWinners(if tx.ntxid !in txs || tx.internal then txs[tx.ntxid := tx] else txs, c0 + [tx])
  {
    var cands := c0 + [tx];
    assert cands[..|cands| - 1] == c0;
    assert cands[|cands| - 1] == tx;
  }

  // ---------------------------------------------------------------------
  // Queries and saving

  /** TxMetaDb::get: the stored transaction, or NoTransaction. */
  function Get(db: MetaDb, ntxid: string): (r: Result<Tx>)
    ensures r.Ok? <==> ntxid in db.txs
    ensures r.Ok? ==> r.value == db.txs[ntxid]
    ensures r.Fail? ==> r == Fail(NoTransaction, "No transaction: " + ntxid)
  {
    if ntxid in db.txs then Ok(db.txs[ntxid]) else Fail(NoTransaction, "No transaction: " + ntxid)
  }

  /** TxMetaDb::list: every stored ntxid, each once, in the map's iteration order. */
  method List(db: MetaDb) returns (out: seq<string>)
    ensures forall n :: n in out <==> n in db.txs
    ensures Distinct(out)
    ensures |out| == |db.txs.Keys|
  {
    out := [];
    var rest := db.txs.Keys;
    while rest != {}
      invariant forall n :: n in out || n in rest <==> n in db.txs
      invariant forall n | n in out :: n !in rest
      invariant Distinct(out)
      invariant |out| + |rest| == |db.txs.Keys|
      decreases |rest|
    {
      var n :| n in rest;
      out := out + [n];
      rest := rest - {n};
    }
  }

  /**
   * TxMetaDb::save: the in-memory entry is replaced first, whatever
   * happens next. Then the directory is made (dirStatus) and the packed
   * object written (saveStatus). Looking the old object up default-inserts
   * an empty one, so once the directory exists the file map has an entry
   * even when the write fails. The TxJson wrapping that entry shares its
   * JSON object (copying a JsonPtr only takes a reference), so an existing
   * object is packed in place before the write; a new entry stays empty
   * unless the write succeeds, because packing into an empty pointer
   * creates a fresh object that only the final assignment stores.
   */
  function Save(db: MetaDb, tx: Tx, dirStatus: Outcome, saveStatus: Outcome): (r: (Outcome, MetaDb))
    ensures r.1.txs == db.txs[tx.ntxid := tx]
    ensures forall n | n in db.files && n != tx.ntxid :: n in r.1.files && r.1.files[n] == db.files[n]
    ensures forall n | n in r.1.files && n != tx.ntxid :: n in db.files
    ensures dirStatus.Failed? ==> r.0 == dirStatus && r.1.files == db.files
    ensures dirStatus.Pass? ==> r.0 == saveStatus && tx.ntxid in r.1.files
    ensures r.0.Pass? ==>
      tx.ntxid in r.1.files
      && r.1.files[tx.ntxid] == Pack(if tx.ntxid in db.files then db.files[tx.ntxid] else EMPTY_JSON, tx)
    ensures dirStatus.Pass? && tx.ntxid in db.files ==> r.1.files[tx.ntxid] == Pack(db.files[tx.ntxid], tx)
    ensures dirStatus.Pass? && saveStatus.Failed? && tx.ntxid !in db.files ==> r.1.files[tx.ntxid] == EMPTY_JSON
  {
    var txs := db.txs[tx.ntxid := tx];
    if dirStatus.Failed? then (dirStatus, MetaDb(txs, db.files))
    else if tx.ntxid in db.files then
      (saveStatus, MetaDb(txs, db.files[tx.ntxid := Pack(db.files[tx.ntxid], tx)]))
    else if saveStatus.Failed? then (saveStatus, MetaDb(txs, db.files[tx.ntxid := EMPTY_JSON]))
    else (Pass, MetaDb(txs, db.files[tx.ntxid := Pack(EMPTY_JSON, tx)]))
  }

  /** A successful save of a coherent store keeps it coherent, and get then returns the transaction. */
  lemma SaveThenGet(db: MetaDb, env: Env, tx: Tx, saveStatus: Outcome)
    requires Coherent(env, db) && DecodesStored(env)
    requires Save(db, tx, Pass, saveStatus).0.Pass?
    ensures Coherent(env, Save(db, tx, Pass, saveStatus).1)
    ensures Get(Save(db, tx, Pass, saveStatus).1, tx.ntxid) == Ok(tx)
  {
    var r := Save(db, tx, Pass, saveStatus).1;
    var prev := if tx.ntxid in db.files then db.files[tx.ntxid] else EMPTY_JSON;
    UnpackPack(prev, tx, env);
    assert r.files.Keys == r.txs.Keys;
  }
}
