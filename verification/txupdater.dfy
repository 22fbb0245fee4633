/**
 * The server bookkeeping of the sync engine (abcd/bitcoin/TxUpdater.cpp)
 * as a single-threaded state machine: each public call and each server
 * reply is a function from one state to the next. Sockets, codecs, the
 * address cache and rand() become explicit inputs.
 */
module TxUpdater {
  import opened Wrappers
  import opened Status
  import opened Bytes
  import opened Wire
  import opened Seqs
  import opened TxDatabase

  const LIBBITCOIN_PREFIX: string := "tcp://"
  const STRATUM_PREFIX: string := "stratum://"
  const NO_SERVERS: int := -9999
  const NUM_CONNECT_SERVERS: nat := 4
  const MINIMUM_LIBBITCOIN_SERVERS: int := 1
  const MINIMUM_STRATUM_SERVERS: int := 2
  const MAX_QUERIES: nat := 10
  /** The block-height polling period, in milliseconds (sleep_time). */
  const HEIGHT_PERIOD: nat := 30000

  // ---------------------------------------------------------------------
  // Server entries

  datatype Kind = Libbitcoin | Stratum

  predicate HasPrefix(s: string, p: string) {
    |p| <= |s| && s[..|p|] == p
  }

  /** The kind a server entry's prefix names: "tcp://" or "stratum://". */
  function KindOf(server: string): (k: Option<Kind>)
    ensures k == Some(Libbitcoin) <==> HasPrefix(server, LIBBITCOIN_PREFIX)
    ensures k == Some(Stratum) <==> HasPrefix(server, STRATUM_PREFIX)
  {
    if HasPrefix(server, LIBBITCOIN_PREFIX) then
      assert server[0] == server[..|LIBBITCOIN_PREFIX|][0] == 't';
      assert !HasPrefix(server, STRATUM_PREFIX) by {
        assert |STRATUM_PREFIX| <= |server| ==> server[..|STRATUM_PREFIX|][0] == 't';
      }
      Some(Libbitcoin)
    else if HasPrefix(server, STRATUM_PREFIX) then Some(Stratum)
    else None
  }

  /** A space inside the first |p| characters rules out a space-free prefix p. */
  lemma SpaceBreaksPrefix(server: string, p: string, i: nat)
    requires ' ' !in p && i < |p| && i < |server| && server[i] == ' '
    ensures !HasPrefix(server, p)
  {
  }

  /** The first space at or after `from`. */
  function FindSpace(s: string, from: nat): (r: Option<nat>)
    requires from <= |s|
    ensures r.Some? ==> from <= r.value < |s| && s[r.value] == ' '
                        && forall j | from <= j < r.value :: s[j] != ' '
    ensures r.None? ==> forall j | from <= j < |s| :: s[j] != ' '
    decreases |s| - from
  {
    if from == |s| then None
    else if s[from] == ' ' then Some(from)
    else FindSpace(s, from + 1)
  }

  /**
   * A server entry is an address, optionally followed by a space and the
   * server's key: everything after the first space is the key.
   */
  function SplitKey(server: string): (r: (string, string))
    ensures ' ' !in r.0
    ensures ' ' in server ==> server == r.0 + " " + r.1
    ensures ' ' !in server ==> r == (server, "")
  {
    match FindSpace(server, 0)
    case None => (server, "")
    case Some(i) =>
      assert server == server[..i] + " " + server[i + 1..];
      (server[..i], server[i + 1..])
  }

  /** Stripping the key never changes the kind, since neither prefix holds a space. */
  lemma KindOfAddress(server: string)
    ensures KindOf(SplitKey(server).0) == KindOf(server)
  {
    var address := SplitKey(server).0;
    if ' ' in server {
      assert server == address + " " + SplitKey(server).1;
      if |address| < |STRATUM_PREFIX| {
        assert server[|address|] == ' ';
        SpaceBreaksPrefix(server, STRATUM_PREFIX, |address|);
        if |address| < |LIBBITCOIN_PREFIX| { SpaceBreaksPrefix(server, LIBBITCOIN_PREFIX, |address|); }
      }
      assert HasPrefix(address, LIBBITCOIN_PREFIX) <==> HasPrefix(server, LIBBITCOIN_PREFIX) by {
        if |LIBBITCOIN_PREFIX| <= |address| { assert server[..|LIBBITCOIN_PREFIX|] == address[..|LIBBITCOIN_PREFIX|]; }
      }
      assert HasPrefix(address, STRATUM_PREFIX) <==> HasPrefix(server, STRATUM_PREFIX) by {
        if |STRATUM_PREFIX| <= |address| { assert server[..|STRATUM_PREFIX|] == address[..|STRATUM_PREFIX|]; }
      }
    }
  }

  // ---------------------------------------------------------------------
  // Untried index sets, as std::set iterates them: ascending

  predicate Increasing(s: seq<nat>) {
    forall i, j | 0 <= i < j < |s| :: s[i] < s[j]
  }

  /** The untried set of one kind: indices of entries of that kind. */
  predicate Untried(servers: seq<string>, s: seq<nat>, kind: Kind) {
    forall x | x in s :: x < |servers| && KindOf(servers[x]) == Some(kind)
  }

  /** erase: the set without x. */
  function Remove(s: seq<nat>, x: nat): (r: seq<nat>)
    ensures forall y :: y in r <==> y in s && y != x
    ensures |r| <= |s|
  {
    if s == [] then []
    else
      var rest := Remove(s[1..], x);
      assert forall y | y in s[1..] :: y in s;
      if s[0] == x then rest else [s[0]] + rest
  }

  lemma {:induction false} RemoveIncreasing(s: seq<nat>, x: nat)
    requires Increasing(s)
    ensures Increasing(Remove(s, x))
  {
    if s != [] {
      RemoveIncreasing(s[1..], x);
      var rest := Remove(s[1..], x);
      forall y | y in rest ensures s[0] < y {
        var j :| 0 <= j < |s[1..]| && s[1..][j] == y;
        assert s[j + 1] == y;
      }
      if s[0] != x {
        var r := [s[0]] + rest;
        forall i, j | 0 <= i < j < |r| ensures r[i] < r[j] {
          if i == 0 { assert r[j] == rest[j - 1] && rest[j - 1] in rest; } else { assert r[i] == rest[i - 1] && r[j] == rest[j - 1]; assert rest[i - 1] < rest[j - 1]; }
        }
      }
    }
  }

  /** Every index from i on whose entry has the given kind, ascending. */
  function IndicesOf(servers: seq<string>, kind: Kind, i: nat): (r: seq<nat>)
    requires i <= |servers|
    ensures Untried(servers, r, kind) && Increasing(r)
    ensures forall j :: j in r <==> i <= j < |servers| && KindOf(servers[j]) == Some(kind)
    ensures forall j | 0 <= j < |r| :: i <= r[j]
    decreases |servers| - i
  {
    if i == |servers| then []
    else
      var rest := IndicesOf(servers, kind, i + 1);
      if KindOf(servers[i]) == Some(kind) then [i] + rest else rest
  }

  /** The reload in connect: a set is refilled with every index of its kind, and only when empty. */
  function Reload(servers: seq<string>, s: seq<nat>, kind: Kind): (r: seq<nat>)
    ensures s != [] ==> r == s
    ensures s == [] ==> forall j :: j in r <==> 0 <= j < |servers| && KindOf(servers[j]) == Some(kind)
    ensures Untried(servers, s, kind) ==> Untried(servers, r, kind)
    ensures Increasing(s) ==> Increasing(r)
  {
    if s == [] then IndicesOf(servers, kind, 0) else s
  }

  // ---------------------------------------------------------------------
  // The updater's state

  datatype Connection = Connection(
    kind: Kind,
    serverIndex: nat,
    queued: int,          // queued_queries_: address, tx and mempool queries
    queuedIndices: int,   // queued_get_indices_
    queuedHeight: int)    // queued_get_height_

  /**
   * A queued count as the comparisons with the unsigned max_queries see it:
   * the int is converted to a 32-bit unsigned, so a negative count reads
   * as a value above 2^31.
   */
  function AsUnsigned(queued: int): (u: nat)
    ensures 0 <= queued < 0x1_0000_0000 ==> u == queued
    ensures -0x1_0000_0000 <= queued < 0 ==> u == queued + 0x1_0000_0000
  {
    queued % 0x1_0000_0000
  }

  /** A connection the address query skips: more than MAX_QUERIES queued, compared unsigned. */
  predicate Maxed(c: Connection) {
    AsUnsigned(c.queued) > MAX_QUERIES
  }

  /** What a query asks a server; Broadcast is sendTx. */
  datatype Query =
    | HeightQuery
    | TxQuery(txid: Hash, wantInputs: bool)
    | MempoolQuery(txid: Hash, wantInputs: bool)
    | IndexQuery(txid: Hash)
    | HistoryQuery(address: string)
    | Broadcast(raw: seq<byte>)

  /** A query handed to the connection for server entry `server`. */
  datatype Request = Request(server: nat, query: Query)

  /** The server list, the untried index sets and the live connections. */
  datatype Pool = Pool(
    servers: seq<string>,
    untriedLibbitcoin: seq<nat>,
    untriedStratum: seq<nat>,
    connections: seq<Connection>)

  datatype Updater = Updater(
    pool: Pool,
    wantConnection: bool,
    failed: bool,
    failedIndex: int,
    lastWakeup: int,
    db: Db,
    sent: seq<Request>)   // every query issued so far, oldest first

  /** Every connection names an entry of its own kind. */
  predicate Pooled(servers: seq<string>, conns: seq<Connection>) {
    forall k | 0 <= k < |conns| ::
      conns[k].serverIndex < |servers| && KindOf(servers[conns[k].serverIndex]) == Some(conns[k].kind)
  }

  /** At most four connections, each to an entry of its kind, and consistent index sets. */
  predicate ValidPool(p: Pool) {
    && |p.connections| <= NUM_CONNECT_SERVERS
    && Untried(p.servers, p.untriedLibbitcoin, Libbitcoin)
    && Untried(p.servers, p.untriedStratum, Stratum)
    && Pooled(p.servers, p.connections)
  }

  /** What every reachable state keeps. */
  predicate Valid(u: Updater) {
    ValidPool(u.pool)
  }

  /** A fresh updater over a store: nothing loaded, nothing connected. */
  function NewUpdater(db: Db, now: int): (u: Updater)
    ensures Valid(u)
    ensures u.pool.connections == [] && u.sent == [] && !u.failed && !u.wantConnection
  {
    Updater(Pool([], [], [], []), false, false, NO_SERVERS, now, db, [])
  }

  /** Same servers and index sets, and the same connections up to their counters. */
  predicate SameShape(p: Pool, q: Pool) {
    && q.servers == p.servers
    && q.untriedLibbitcoin == p.untriedLibbitcoin
    && q.untriedStratum == p.untriedStratum
    && |q.connections| == |p.connections|
    && forall k | 0 <= k < |p.connections| ::
         q.connections[k].kind == p.connections[k].kind
         && q.connections[k].serverIndex == p.connections[k].serverIndex
  }

  lemma SameShapeValid(p: Pool, q: Pool)
    requires SameShape(p, q) && ValidPool(p)
    ensures ValidPool(q)
  {
  }

  /** Only the connections' counters and the request log differ. */
  predicate OnlyQueued(u: Updater, r: Updater) {
    && SameShape(u.pool, r.pool)
    && r == u.(pool := r.pool, sent := r.sent)
    && forall x | x in u.sent :: x in r.sent
  }

  // ---------------------------------------------------------------------
  // Queueing queries on connections

  datatype Counter = Queries | Indices | Heights

  function Bump(c: Connection, counter: Counter, delta: int): (r: Connection)
    ensures r.kind == c.kind && r.serverIndex == c.serverIndex
  {
    match counter
    case Queries => c.(queued := c.queued + delta)
    case Indices => c.(queuedIndices := c.queuedIndices + delta)
    case Heights => c.(queuedHeight := c.queuedHeight + delta)
  }

  /** One request for every connection `to` selects, in pool order. */
  function RequestsTo(conns: seq<Connection>, to: Connection -> bool, q: Query): (r: seq<Request>)
    ensures forall x | x in r :: x.query == q && exists c | c in conns :: to(c) && x.server == c.serverIndex
    ensures forall c | c in conns && to(c) :: Request(c.serverIndex, q) in r
  {
    if conns == [] then []
    else
      var rest := RequestsTo(conns[1..], to, q);
      assert forall c | c in conns[1..] :: c in conns;
      if to(conns[0]) then [Request(conns[0].serverIndex, q)] + rest else rest
  }

  /** Count one more query on every connection `to` selects. */
  function Queue(conns: seq<Connection>, to: Connection -> bool, counter: Counter): (r: seq<Connection>)
    ensures |r| == |conns|
    ensures forall k | 0 <= k < |conns| ::
      r[k] == if to(conns[k]) then Bump(conns[k], counter, 1) else conns[k]
    ensures forall k | 0 <= k < |conns| :: r[k].kind == conns[k].kind && r[k].serverIndex == conns[k].serverIndex
  {
    seq(|conns|, k requires 0 <= k < |conns| => if to(conns[k]) then Bump(conns[k], counter, 1) else conns[k])
  }

  /** Send q to every selected connection, counting it on `counter`. */
  function Send(u: Updater, to: Connection -> bool, q: Query, counter: Counter): (r: Updater)
    ensures OnlyQueued(u, r)
    ensures r.pool.connections == Queue(u.pool.connections, to, counter)
    ensures r.sent == u.sent + RequestsTo(u.pool.connections, to, q)
  {
    u.(pool := u.pool.(connections := Queue(u.pool.connections, to, counter)),
       sent := u.sent + RequestsTo(u.pool.connections, to, q))
  }

  /** get_height: only the first connection is asked. */
  function GetHeight(u: Updater): (r: Updater)
    ensures OnlyQueued(u, r)
    ensures u.pool.connections == [] ==> r == u
    ensures u.pool.connections != [] ==>
      && r.pool.connections == u.pool.connections[0 := Bump(u.pool.connections[0], Heights, 1)]
      && r.sent == u.sent + [Request(u.pool.connections[0].serverIndex, HeightQuery)]
  {
    var conns := u.pool.connections;
    if conns == [] then u
    else
      u.(pool := u.pool.(connections := conns[0 := Bump(conns[0], Heights, 1)]),
         sent := u.sent + [Request(conns[0].serverIndex, HeightQuery)])
  }

  /** get_tx: every connection to the given server entry is asked. */
  function GetTx(u: Updater, txid: Hash, wantInputs: bool, server: nat): (r: Updater)
    ensures OnlyQueued(u, r)
    ensures r.pool.connections == Queue(u.pool.connections, (c: Connection) => c.serverIndex == server, Queries)
    ensures r.sent == u.sent + RequestsTo(u.pool.connections, (c: Connection) => c.serverIndex == server, TxQuery(txid, wantInputs))
  {
    Send(u, (c: Connection) => c.serverIndex == server, TxQuery(txid, wantInputs), Queries)
  }

  /** get_tx_mem: the mempool variant of get_tx. */
  function GetTxMem(u: Updater, txid: Hash, wantInputs: bool, server: nat): (r: Updater)
    ensures OnlyQueued(u, r)
    ensures r.pool.connections == Queue(u.pool.connections, (c: Connection) => c.serverIndex == server, Queries)
    ensures r.sent == u.sent + RequestsTo(u.pool.connections, (c: Connection) => c.serverIndex == server, MempoolQuery(txid, wantInputs))
  {
    Send(u, (c: Connection) => c.serverIndex == server, MempoolQuery(txid, wantInputs), Queries)
  }

  /** get_index: every libbitcoin connection is asked, whatever server was preferred. */
  function GetIndex(u: Updater, txid: Hash): (r: Updater)
    ensures OnlyQueued(u, r)
    ensures r.pool.connections == Queue(u.pool.connections, (c: Connection) => c.kind == Libbitcoin, Indices)
    ensures r.sent == u.sent + RequestsTo(u.pool.connections, (c: Connection) => c.kind == Libbitcoin, IndexQuery(txid))
  {
    Send(u, (c: Connection) => c.kind == Libbitcoin, IndexQuery(txid), Indices)
  }

  /** get_index for each txid in turn. */
  function GetIndexAll(u: Updater, ts: seq<Hash>): (r: Updater)
    ensures OnlyQueued(u, r)
    ensures forall t, k | t in ts && 0 <= k < |u.pool.connections| && u.pool.connections[k].kind == Libbitcoin ::
      Request(u.pool.connections[k].serverIndex, IndexQuery(t)) in r.sent
    ensures forall k | 0 <= k < |u.pool.connections| ::
      r.pool.connections[k].queuedHeight == u.pool.connections[k].queuedHeight
    decreases |ts|
  {
    if ts == [] then u
    else
      var m := GetIndex(u, ts[0]);
      assert forall k | 0 <= k < |u.pool.connections| && u.pool.connections[k].kind == Libbitcoin ::
        Request(u.pool.connections[k].serverIndex, IndexQuery(ts[0])) in m.sent by {
        forall k | 0 <= k < |u.pool.connections| && u.pool.connections[k].kind == Libbitcoin
          ensures Request(u.pool.connections[k].serverIndex, IndexQuery(ts[0])) in m.sent
        {
          assert u.pool.connections[k] in u.pool.connections;
        }
      }
      assert forall k | 0 <= k < |u.pool.connections| ::
        m.pool.connections[k].queuedHeight == u.pool.connections[k].queuedHeight;
      GetIndexAll(m, ts[1..])
  }

  /**
   * query_address: every connection to the server entry whose count is not
   * above MAX_QUERIES is asked. The comparison is unsigned, so a count
   * driven negative by extra replies is skipped as well.
   */
  function QueryAddress(u: Updater, address: string, server: nat): (r: Updater)
    ensures OnlyQueued(u, r)
    ensures forall k | 0 <= k < |u.pool.connections| ::
      r.pool.connections[k] ==
        if u.pool.connections[k].serverIndex == server && !Maxed(u.pool.connections[k])
        then Bump(u.pool.connections[k], Queries, 1) else u.pool.connections[k]
    ensures forall k | 0 <= k < |u.pool.connections| && -0x8000_0000 <= u.pool.connections[k].queued < 0 ::
      r.pool.connections[k] == u.pool.connections[k]
  {
    Send(u, (c: Connection) => c.serverIndex == server && !Maxed(c), HistoryQuery(address), Queries)
  }

  // ---------------------------------------------------------------------
  // Connecting

  function UntriedOf(p: Pool, kind: Kind): seq<nat> {
    if kind == Libbitcoin then p.untriedLibbitcoin else p.untriedStratum
  }

  function Other(kind: Kind): Kind {
    if kind == Libbitcoin then Stratum else Libbitcoin
  }

  /** disconnect: the pool empties and no reconnection is wanted. */
  function Disconnect(u: Updater): (r: Updater)
    ensures r.pool.connections == [] && !r.wantConnection
    ensures r == u.(pool := u.pool.(connections := []), wantConnection := false)
    ensures Valid(u) ==> Valid(r)
  {
    u.(pool := u.pool.(connections := []), wantConnection := false)
  }

  /**
   * connectTo: dial server entry `index`; `dial` is what the socket's or
   * the stratum codec's connect reported. The entry leaves its untried set
   * whether or not the dial succeeds.
   */
  function ConnectTo(p: Pool, index: nat, dial: Outcome): (r: (Outcome, Pool))
    requires index < |p.servers|
    ensures var address := SplitKey(p.servers[index]).0;
      && (KindOf(address).None? ==> r == (Failed(Error, "Unknown server type " + address), p))
      && (KindOf(address) == Some(Libbitcoin) && dial.Failed? ==>
            r.0 == Failed(Error, "Could not connect to " + address))
      && (KindOf(address) == Some(Stratum) ==> r.0 == dial)
      && (r.0.Pass? <==> KindOf(address).Some? && dial.Pass?)
      && (r.0.Pass? ==> r.1.connections == p.connections + [Connection(KindOf(address).value, index, 0, 0, 0)])
      && (r.0.Failed? ==> r.1.connections == p.connections)
      && (KindOf(address).Some? ==>
            var kind := KindOf(address).value;
            && UntriedOf(r.1, kind) == Remove(UntriedOf(p, kind), index)
            && UntriedOf(r.1, Other(kind)) == UntriedOf(p, Other(kind)))
    ensures r.1.servers == p.servers
    ensures ValidPool(p) && |p.connections| < NUM_CONNECT_SERVERS ==> ValidPool(r.1)
  {
    var address := SplitKey(p.servers[index]).0;
    KindOfAddress(p.servers[index]);
    match KindOf(address)
    case None => (Failed(Error, "Unknown server type " + address), p)
    case Some(kind) =>
      var p' := if kind == Libbitcoin then p.(untriedLibbitcoin := Remove(p.untriedLibbitcoin, index))
                else p.(untriedStratum := Remove(p.untriedStratum, index));
      if dial.Failed? then
        (if kind == Libbitcoin then Failed(Error, "Could not connect to " + address) else dial, p')
      else (Pass, p'.(connections := p'.connections + [Connection(kind, index, 0, 0, 0)]))
  }

  /** 2^64: the size_t range. */
  const SIZE_MODULUS: int := 0x1_0000_0000_0000_0000

  /**
   * The room test in connect as written: the shortfall `minSecondary -
   * count` is a long, the room `NUM_CONNECT_SERVERS - connections_.size()` a
   * size_t, so a negative shortfall is converted to a huge unsigned value
   * before the comparison.
   */
  function RoomForAsWritten(shortfall: int, room: nat): (r: bool)
    requires -SIZE_MODULUS / 2 <= shortfall < SIZE_MODULUS / 2 && room < SIZE_MODULUS
    ensures shortfall >= 0 ==> (r <==> shortfall < room)
    ensures shortfall < 0 && room <= NUM_CONNECT_SERVERS ==> !r
  {
    (if shortfall < 0 then shortfall + SIZE_MODULUS else shortfall) < room
  }

  /**
   * The comparison as evidently meant: a met or exceeded minimum
   * (shortfall <= 0) always leaves room when a slot is free.
   */
  function RoomFor(shortfall: int, room: nat): (r: bool)
    ensures r <==> shortfall < room
    ensures shortfall <= 0 && room > 0 ==> r
  {
    shortfall < room
  }

  /** Two libbitcoin connections (one over the minimum) and one free slot: the test as written says no room. */
  lemma SurplusRejectedAsWritten()
    ensures !RoomForAsWritten(MINIMUM_LIBBITCOIN_SERVERS - 2, 1)
    ensures RoomFor(MINIMUM_LIBBITCOIN_SERVERS - 2, 1)
  {
  }

  function MinimumOf(kind: Kind): int {
    if kind == Libbitcoin then MINIMUM_LIBBITCOIN_SERVERS else MINIMUM_STRATUM_SERVERS
  }

  /** connect's counters: new connections made, and connections of each kind. */
  datatype Tally = Tally(made: nat, stratum: int, libbitcoin: int)

  function CountOf(t: Tally, kind: Kind): int {
    if kind == Libbitcoin then t.libbitcoin else t.stratum
  }

  function Credit(t: Tally, kind: Kind): Tally {
    if kind == Libbitcoin then t.(made := t.made + 1, libbitcoin := t.libbitcoin + 1)
    else t.(made := t.made + 1, stratum := t.stratum + 1)
  }

  /** Even rounds lead with stratum, odd rounds with libbitcoin. */
  function PrimaryOf(t: Tally): Kind {
    if t.made % 2 == 1 then Libbitcoin else Stratum
  }

  /** The connections of one kind. */
  function CountKind(conns: seq<Connection>, kind: Kind): nat {
    if conns == [] then 0
    else (if conns[0].kind == kind then 1 else 0) + CountKind(conns[1..], kind)
  }

  /**
   * What rand() decides in one round of connect's loop: the two `rand() & 8`
   * coins, the value reduced modulo the set's size to pick an entry, and what
   * the dial reports.
   */
  datatype Choice = Choice(primaryCoin: bool, secondaryCoin: bool, pick: nat, dial: Outcome)

  /**
   * q grows p by dialling: same servers, index sets only shrink, existing
   * connections stay, and each new connection is fresh, to a distinct
   * entry that was untried in p and is untried no more in q.
   */
  predicate Grows(p: Pool, q: Pool) {
    && q.servers == p.servers
    && (forall x | x in q.untriedLibbitcoin :: x in p.untriedLibbitcoin)
    && (forall x | x in q.untriedStratum :: x in p.untriedStratum)
    && |p.connections| <= |q.connections|
    && (forall k | 0 <= k < |p.connections| :: q.connections[k] == p.connections[k])
    && (forall k | |p.connections| <= k < |q.connections| ::
          && q.connections[k].serverIndex in UntriedOf(p, q.connections[k].kind)
          && q.connections[k].serverIndex !in UntriedOf(q, q.connections[k].kind)
          && q.connections[k].queued == 0 && q.connections[k].queuedIndices == 0
          && q.connections[k].queuedHeight == 0)
    && (forall k1, k2 | |p.connections| <= k1 < k2 < |q.connections| ::
          q.connections[k1].serverIndex != q.connections[k2].serverIndex)
  }

  lemma GrowsRefl(p: Pool)
    ensures Grows(p, p)
  {
  }

  lemma GrowsTrans(p: Pool, m: Pool, q: Pool)
    requires Grows(p, m) && Grows(m, q) && Pooled(q.servers, q.connections)
    ensures Grows(p, q)
  {
    var n := |p.connections|;
    var nm := |m.connections|;
    forall k | n <= k < |q.connections|
      ensures q.connections[k].serverIndex in UntriedOf(p, q.connections[k].kind)
      ensures q.connections[k].serverIndex !in UntriedOf(q, q.connections[k].kind)
    {
      if k < nm { assert q.connections[k] == m.connections[k]; }
    }
    forall k1, k2 | n <= k1 < k2 < |q.connections|
      ensures q.connections[k1].serverIndex != q.connections[k2].serverIndex
    {
      if k2 < nm {
        assert q.connections[k1] == m.connections[k1] && q.connections[k2] == m.connections[k2];
      } else if k1 < nm {
        var c1, c2 := q.connections[k1], q.connections[k2];
        assert c1 == m.connections[k1];
        if c1.kind != c2.kind {
          assert KindOf(q.servers[c1.serverIndex]) != KindOf(q.servers[c2.serverIndex]);
        }
      }
    }
  }

  lemma {:induction false} RemoveShorter(s: seq<nat>, x: nat)
    requires x in s
    ensures |Remove(s, x)| < |s|
  {
    if s[0] != x { RemoveShorter(s[1..], x); }
  }

  /** Dial one untried entry of `kind`, the one `pick` selects in ascending order. */
  function Attempt(p: Pool, t: Tally, kind: Kind, c: Choice): (r: (Pool, Tally))
    requires ValidPool(p) && UntriedOf(p, kind) != [] && |p.connections| < NUM_CONNECT_SERVERS
    ensures ValidPool(r.0) && Grows(p, r.0)
    ensures |r.0.connections| <= |p.connections| + 1
    ensures r.1 == if |r.0.connections| > |p.connections| then Credit(t, kind) else t
    ensures |UntriedOf(r.0, kind)| < |UntriedOf(p, kind)|
  {
    var s := UntriedOf(p, kind);
    var index := s[c.pick % |s|];
    assert index in s;
    var (o, p') := ConnectTo(p, index, c.dial);
    KindOfAddress(p.servers[index]);
    assert index !in UntriedOf(p', kind);
    RemoveShorter(s, index);
    (p', if o.Pass? then Credit(t, kind) else t)
  }

  /**
   * One round of connect's loop, with the room test as intended (RoomFor):
   * an exceeded minimum of the other kind leaves room whenever a slot is free.
   */
  function ConnectStep(p: Pool, t: Tally, c: Choice): (r: (Pool, Tally))
    requires ValidPool(p) && |p.connections| < NUM_CONNECT_SERVERS
    ensures ValidPool(r.0) && Grows(p, r.0)
    ensures |r.0.connections| <= |p.connections| + 1
  {
    var primary := PrimaryOf(t);
    var secondary := Other(primary);
    var room := NUM_CONNECT_SERVERS - |p.connections|;
    if UntriedOf(p, primary) != [] && (RoomFor(MinimumOf(secondary) - CountOf(t, secondary), room) || c.primaryCoin) then
      Attempt(p, t, primary, c)
    else if UntriedOf(p, secondary) != [] && (RoomFor(MinimumOf(primary) - CountOf(t, primary), room) || c.secondaryCoin) then
      Attempt(p, t, secondary, c)
    else
      GrowsRefl(p);
      (p, t)
  }

  /** With the other kind's minimum met, a round dials the leading kind whatever the coins say. */
  lemma ConnectStepTriesPrimary(p: Pool, t: Tally, c: Choice)
    requires ValidPool(p) && |p.connections| < NUM_CONNECT_SERVERS
    requires UntriedOf(p, PrimaryOf(t)) != []
    requires CountOf(t, Other(PrimaryOf(t))) >= MinimumOf(Other(PrimaryOf(t)))
    ensures ConnectStep(p, t, c) == Attempt(p, t, PrimaryOf(t), c)
    ensures |UntriedOf(ConnectStep(p, t, c).0, PrimaryOf(t))| < |UntriedOf(p, PrimaryOf(t))|
  {
  }

  /** connect's loop, one round per choice, while there is room and an untried entry. */
  function ConnectLoop(p: Pool, t: Tally, choices: seq<Choice>): (r: Pool)
    requires ValidPool(p)
    ensures ValidPool(r) && Grows(p, r)
    ensures |r.connections| - |p.connections| <= |choices|
    decreases |choices|
  {
    if NUM_CONNECT_SERVERS <= |p.connections| || (p.untriedLibbitcoin == [] && p.untriedStratum == [])
       || choices == [] then
      GrowsRefl(p);
      p
    else
      var (p', t') := ConnectStep(p, t, choices[0]);
      var r := ConnectLoop(p', t', choices[1..]);
      GrowsTrans(p, p', r);
      r
  }

  /**
   * The start of connect: the server list is loaded once, a full pool is
   * torn down through disconnect (so wantConnection ends cleared after a
   * refresh), and an empty index set is refilled with every entry of its kind.
   */
  function Prepare(u: Updater, general: seq<string>): (r: Updater)
    requires Valid(u)
    ensures Valid(r)
    ensures r == u.(pool := r.pool, wantConnection := r.wantConnection)
    ensures r.wantConnection == (|u.pool.connections| < NUM_CONNECT_SERVERS)
    ensures r.pool.servers == if u.pool.servers == [] then general else u.pool.servers
    ensures r.pool.connections == if NUM_CONNECT_SERVERS <= |u.pool.connections| then [] else u.pool.connections
    ensures forall kind :: UntriedOf(r.pool, kind) == Reload(r.pool.servers, UntriedOf(u.pool, kind), kind)
  {
    var p := u.pool;
    assert |p.untriedLibbitcoin| > 0 ==> p.untriedLibbitcoin[0] in p.untriedLibbitcoin;
    assert |p.untriedStratum| > 0 ==> p.untriedStratum[0] in p.untriedStratum;
    assert |p.connections| > 0 ==> p.connections[0].serverIndex < |p.servers|;
    var servers := if p.servers == [] then general else p.servers;
    var conns := if NUM_CONNECT_SERVERS <= |p.connections| then [] else p.connections;
    var p' := Pool(servers, Reload(servers, p.untriedLibbitcoin, Libbitcoin),
                   Reload(servers, p.untriedStratum, Stratum), conns);
    u.(pool := p', wantConnection := |p.connections| < NUM_CONNECT_SERVERS)
  }

  /**
   * The end of connect: with anything connected, ask the first connection
   * for the height and every libbitcoin connection about every unconfirmed
   * transaction.
   */
  function Announce(u: Updater, order: seq<Hash>): (r: Updater)
    ensures OnlyQueued(u, r)
    ensures u.pool.connections == [] ==> r == u
    ensures u.pool.connections != [] ==>
      && Request(u.pool.connections[0].serverIndex, HeightQuery) in r.sent
      && forall t, k | t in ForeachUnconfirmed(u.db, order) && 0 <= k < |u.pool.connections|
                       && u.pool.connections[k].kind == Libbitcoin ::
           Request(u.pool.connections[k].serverIndex, IndexQuery(t)) in r.sent
  {
    if u.pool.connections == [] then u
    else
      var m := GetHeight(u);
      assert Request(u.pool.connections[0].serverIndex, HeightQuery) in m.sent;
      GetIndexAll(m, ForeachUnconfirmed(u.db, order))
  }

  /** The tally connect starts from: nothing made yet, and the pool's own counts. */
  function StartTally(p: Pool): Tally {
    Tally(0, CountKind(p.connections, Stratum), CountKind(p.connections, Libbitcoin))
  }

  /**
   * connect: prepare, dial, announce. It always succeeds; a failed dial is
   * only logged.
   */
  function Connect(u: Updater, general: seq<string>, order: seq<Hash>, choices: seq<Choice>): (r: Updater)
    requires Valid(u)
    ensures Valid(r)
    ensures r.pool.servers == if u.pool.servers == [] then general else u.pool.servers
    ensures r.wantConnection == (|u.pool.connections| < NUM_CONNECT_SERVERS)
    ensures r.db == u.db && r.failed == u.failed && r.failedIndex == u.failedIndex
    ensures r.lastWakeup == u.lastWakeup
  {
    var u1 := Prepare(u, general);
    var u2 := u1.(pool := ConnectLoop(u1.pool, StartTally(u1.pool), choices));
    var r := Announce(u2, order);
    SameShapeValid(u2.pool, r.pool);
    r
  }

  /**
   * What connect dials: a full pool is replaced, a short one is kept, and
   * every new connection is to a distinct entry from the (refilled) untried
   * set of its kind.
   */
  lemma ConnectDials(u: Updater, general: seq<string>, order: seq<Hash>, choices: seq<Choice>)
    requires Valid(u)
    ensures var r := Connect(u, general, order, choices);
      var kept := if NUM_CONNECT_SERVERS <= |u.pool.connections| then 0 else |u.pool.connections|;
      && kept <= |r.pool.connections|
      && (forall k | 0 <= k < kept ::
            r.pool.connections[k].kind == u.pool.connections[k].kind
            && r.pool.connections[k].serverIndex == u.pool.connections[k].serverIndex)
      && (forall k | kept <= k < |r.pool.connections| ::
            var c := r.pool.connections[k];
            c.serverIndex in Reload(r.pool.servers, UntriedOf(u.pool, c.kind), c.kind))
      && (forall k1, k2 | kept <= k1 < k2 < |r.pool.connections| ::
            r.pool.connections[k1].serverIndex != r.pool.connections[k2].serverIndex)
  {
    var u1 := Prepare(u, general);
    var p := ConnectLoop(u1.pool, StartTally(u1.pool), choices);
    var r := Announce(u1.(pool := p), order);
    assert SameShape(p, r.pool);
    assert Grows(u1.pool, p);
    forall k | |u1.pool.connections| <= k < |r.pool.connections|
      ensures r.pool.connections[k].serverIndex
              in Reload(r.pool.servers, UntriedOf(u.pool, r.pool.connections[k].kind), r.pool.connections[k].kind)
    {
      assert p.connections[k].serverIndex in UntriedOf(u1.pool, p.connections[k].kind);
    }
  }

  /**
   * What connect asks: nothing when nothing is connected; otherwise the
   * height from the first connection and every unconfirmed transaction's
   * index from every libbitcoin connection. Earlier requests stay logged.
   */
  lemma ConnectAnnounces(u: Updater, general: seq<string>, order: seq<Hash>, choices: seq<Choice>)
    requires Valid(u)
    ensures var r := Connect(u, general, order, choices);
      && (forall x | x in u.sent :: x in r.sent)
      && (r.pool.connections == [] ==> r.sent == u.sent)
      && (r.pool.connections != [] ==>
            && Request(r.pool.connections[0].serverIndex, HeightQuery) in r.sent
            && forall t, k | t in ForeachUnconfirmed(u.db, order) && 0 <= k < |r.pool.connections|
                             && r.pool.connections[k].kind == Libbitcoin ::
                 Request(r.pool.connections[k].serverIndex, IndexQuery(t)) in r.sent)
  {
    var u1 := Prepare(u, general);
    var u2 := u1.(pool := ConnectLoop(u1.pool, StartTally(u1.pool), choices));
    var r := Announce(u2, order);
    assert SameShape(u2.pool, r.pool);
  }

  // ---------------------------------------------------------------------
  // The wakeup tick

  /** bc::client::min_sleep: the shorter delay, where zero means no deadline. */
  function MinSleep(a: nat, b: nat): (r: nat)
    ensures r == a || r == b
    ensures a == 0 ==> r == b
    ensures b == 0 ==> r == a
    ensures a > 0 && b > 0 ==> r <= a && r <= b
  {
    if a == 0 then b else if b == 0 then a else if a < b then a else b
  }

  /**
   * The start of wakeup: every HEIGHT_PERIOD ask for the height and restart
   * the period; the delay starts as what is left of the period. `now` is a
   * steady clock, so it never runs behind the last wakeup.
   */
  function HeightTick(u: Updater, now: int): (r: (nat, Updater))
    requires u.lastWakeup <= now
    ensures HEIGHT_PERIOD <= now - u.lastWakeup ==>
      r.1 == GetHeight(u).(lastWakeup := now) && r.0 == HEIGHT_PERIOD
    ensures now - u.lastWakeup < HEIGHT_PERIOD ==> r.1 == u && r.0 == HEIGHT_PERIOD - (now - u.lastWakeup)
    ensures 0 < r.0 <= HEIGHT_PERIOD
    ensures SameShape(u.pool, r.1.pool) && r.1.db == u.db && r.1.failed == u.failed
    ensures r.1.wantConnection == u.wantConnection
  {
    var elapsed := now - u.lastWakeup;
    if HEIGHT_PERIOD <= elapsed then (HEIGHT_PERIOD, GetHeight(u).(lastWakeup := now))
    else (HEIGHT_PERIOD - elapsed, u)
  }

  /** What AddressCache::nextWakeup reports: a delay, and an address due for a check or "". */
  datatype Due = Due(sleep: nat, address: string)

  /**
   * Between u and r only address-query counts rose. Of the counts an int
   * can hold, one from 0 to MAX_QUERIES rose to at most MAX_QUERIES + 1,
   * and one above MAX_QUERIES or below 0 stayed put.
   */
  predicate QueryBound(u: Updater, r: Updater)
    requires OnlyQueued(u, r)
  {
    forall j | 0 <= j < |u.pool.connections| ::
      var c, c' := u.pool.connections[j], r.pool.connections[j];
      && c.queued <= c'.queued
      && (0 <= c.queued <= MAX_QUERIES ==> c'.queued <= MAX_QUERIES + 1)
      && (-0x8000_0000 <= c.queued < 0 || MAX_QUERIES < c.queued < 0x8000_0000 ==> c'.queued == c.queued)
      && c'.queuedIndices == c.queuedIndices && c'.queuedHeight == c.queuedHeight
  }

  lemma QueryAddressBound(u: Updater, address: string, server: nat)
    ensures QueryBound(u, QueryAddress(u, address, server))
  {
  }

  lemma QueryBoundTrans(u: Updater, m: Updater, r: Updater)
    requires OnlyQueued(u, m) && OnlyQueued(m, r) && QueryBound(u, m) && QueryBound(m, r)
    ensures OnlyQueued(u, r) && QueryBound(u, r)
  {
  }

  /**
   * The address loop of wakeup, from connection k on: while a connection
   * has fewer than MAX_QUERIES queries queued, take the next due address
   * (an exhausted cache reports none) and query it on that connection's
   * server. The count is compared unsigned, so a negative one ends the
   * loop for that connection at once. A connection over MAX_QUERIES is
   * never asked, and none is pushed past MAX_QUERIES + 1.
   */
  function AddressQueries(u: Updater, k: nat, cache: seq<Due>, next: nat): (r: (nat, Updater))
    requires k <= |u.pool.connections|
    ensures OnlyQueued(u, r.1) && QueryBound(u, r.1)
    ensures forall j | 0 <= j < |u.pool.connections| && -0x8000_0000 <= u.pool.connections[j].queued < 0 ::
      r.1.pool.connections[j] == u.pool.connections[j]
    ensures next > 0 ==> 0 < r.0 <= next
    decreases |u.pool.connections| - k, |cache|
  {
    if k == |u.pool.connections| then (next, u)
    else if AsUnsigned(u.pool.connections[k].queued) >= MAX_QUERIES then AddressQueries(u, k + 1, cache, next)
    else
      var due := if cache == [] then Due(0, "") else cache[0];
      var next' := MinSleep(next, due.sleep);
      if due.address == "" then AddressQueries(u, k + 1, if cache == [] then [] else cache[1..], next')
      else
        var m := QueryAddress(u, due.address, u.pool.connections[k].serverIndex);
        var r := AddressQueries(m, k, cache[1..], next');
        QueryAddressBound(u, due.address, u.pool.connections[k].serverIndex);
        QueryBoundTrans(u, m, r.1);
        r
  }

  /** What a connection's codec reports on wakeup: its delay, and for stratum whether it failed. */
  datatype CodecReport = CodecReport(sleep: nat, ok: bool)

  /**
   * The socket loop of wakeup, from connection k on: each codec's delay
   * joins the minimum, and a failing stratum codec marks its server failed.
   */
  function SocketTick(u: Updater, k: nat, codecs: seq<CodecReport>, next: nat): (r: (nat, Updater))
    requires k <= |u.pool.connections| == |codecs|
    ensures r.1 == u.(failed := r.1.failed, failedIndex := r.1.failedIndex)
    ensures next > 0 ==> 0 < r.0 <= next
    ensures r.1.failed <==>
      u.failed || exists j | k <= j < |codecs| :: u.pool.connections[j].kind == Stratum && !codecs[j].ok
    ensures r.1.failedIndex == u.failedIndex
            || exists j | k <= j < |codecs| ::
                 && u.pool.connections[j].kind == Stratum && !codecs[j].ok
                 && r.1.failedIndex == u.pool.connections[j].serverIndex
    decreases |codecs| - k
  {
    if k == |codecs| then (next, u)
    else
      var c := u.pool.connections[k];
      var u' := if c.kind == Stratum && !codecs[k].ok then u.(failedIndex := c.serverIndex, failed := true) else u;
      SocketTick(u', k + 1, codecs, MinSleep(next, codecs[k].sleep))
  }

  /** The position of the first connection to server entry `index`, or |conns| when there is none. */
  function FirstAt(conns: seq<Connection>, index: int): (i: nat)
    ensures i <= |conns|
    ensures i < |conns| ==> conns[i].serverIndex == index
    ensures forall j | 0 <= j < i :: conns[j].serverIndex != index
  {
    if conns == [] then 0
    else if conns[0].serverIndex == index then 0
    else 1 + FirstAt(conns[1..], index)
  }

  /** Dropping one connection keeps a pool valid. */
  lemma DropValid(p: Pool, i: nat)
    requires i < |p.connections|
    ensures ValidPool(p) ==> ValidPool(p.(connections := p.connections[..i] + p.connections[i + 1..]))
  {
    var conns := p.connections[..i] + p.connections[i + 1..];
    forall j | 0 <= j < |conns|
      ensures conns[j] == p.connections[if j < i then j else j + 1]
    {
    }
  }

  /**
   * The failure step of wakeup: after a failure the first connection to the
   * failed server, if any, is dropped, and the failure is cleared.
   */
  function DropFailed(u: Updater): (r: Updater)
    ensures !r.failed
    ensures !u.failed ==> r == u
    ensures u.failed ==>
      var i := FirstAt(u.pool.connections, u.failedIndex);
      && r.pool.connections
         == (if i < |u.pool.connections| then u.pool.connections[..i] + u.pool.connections[i + 1..]
             else u.pool.connections)
      && r == u.(pool := u.pool.(connections := r.pool.connections), failed := false, failedIndex := NO_SERVERS)
    ensures |u.pool.connections| - 1 <= |r.pool.connections| <= |u.pool.connections|
    ensures Valid(u) ==> Valid(r)
  {
    if !u.failed then u
    else
      var conns := u.pool.connections;
      var i := FirstAt(conns, u.failedIndex);
      if i < |conns| then
        DropValid(u.pool, i);
        u.(pool := u.pool.(connections := conns[..i] + conns[i + 1..]), failed := false, failedIndex := NO_SERVERS)
      else u.(failed := false, failedIndex := NO_SERVERS)
  }

  /**
   * wakeup: the height tick, the address queries, the codecs, the failure
   * step, and a reconnect when a connection is wanted and the pool is short.
   * The delay returned is never zero and never exceeds what is left of the
   * height period.
   */
  function Wakeup(u: Updater, now: int, cache: seq<Due>, codecs: seq<CodecReport>,
                  general: seq<string>, order: seq<Hash>, choices: seq<Choice>): (r: (nat, Updater))
    requires Valid(u) && u.lastWakeup <= now && |codecs| == |u.pool.connections|
    ensures Valid(r.1)
    ensures var elapsed := now - u.lastWakeup;
      && 0 < r.0 <= HEIGHT_PERIOD - (if HEIGHT_PERIOD <= elapsed then 0 else elapsed)
      && r.1.lastWakeup == if HEIGHT_PERIOD <= elapsed then now else u.lastWakeup
    ensures !r.1.failed
    ensures r.1.db == u.db
  {
    var (n1, u1) := HeightTick(u, now);
    SameShapeValid(u.pool, u1.pool);
    var (n2, u2) := AddressQueries(u1, 0, cache, n1);
    SameShapeValid(u1.pool, u2.pool);
    var (n3, u3) := SocketTick(u2, 0, codecs, n2);
    assert u3.pool == u2.pool;
    var u4 := DropFailed(u3);
    var u5 := if u4.wantConnection && |u4.pool.connections| < NUM_CONNECT_SERVERS
              then Connect(u4, general, order, choices) else u4;
    (n3, u5)
  }

  // ---------------------------------------------------------------------
  // Replies from servers. Each names the connection it came back on by its
  // position k in the pool.

  function TotalQueued(conns: seq<Connection>): int {
    if conns == [] then 0 else conns[0].queued + TotalQueued(conns[1..])
  }

  lemma {:induction false} TotalQueuedUpdate(conns: seq<Connection>, k: nat, c: Connection)
    requires k < |conns|
    ensures TotalQueued(conns[k := c]) == TotalQueued(conns) - conns[k].queued + c.queued
  {
    assert conns[k := c][1..] == if k == 0 then conns[1..] else conns[1..][k - 1 := c];
    if k > 0 {
      TotalQueuedUpdate(conns[1..], k - 1, c);
    }
  }

  /**
   * query_done: connection k has one query fewer, and the updater reports
   * quiet exactly when that leaves no query queued on any connection.
   */
  function QueryDone(u: Updater, k: nat): (r: (bool, Updater))
    requires k < |u.pool.connections|
    ensures OnlyQueued(u, r.1) && r.1.sent == u.sent
    ensures r.1.pool.connections == u.pool.connections[k := Bump(u.pool.connections[k], Queries, -1)]
    ensures TotalQueued(r.1.pool.connections) == TotalQueued(u.pool.connections) - 1
    ensures r.0 <==> TotalQueued(u.pool.connections) == 1
  {
    var conns := u.pool.connections[k := Bump(u.pool.connections[k], Queries, -1)];
    TotalQueuedUpdate(u.pool.connections, k, Bump(u.pool.connections[k], Queries, -1));
    (TotalQueued(conns) == 0, u.(pool := u.pool.(connections := conns)))
  }

  /** An error on an address or mempool query: the server is marked failed, and the query is done. */
  function QueryFailed(u: Updater, k: nat): (r: (bool, Updater))
    requires k < |u.pool.connections|
    ensures r.1.failed && r.1.failedIndex == u.pool.connections[k].serverIndex
    ensures SameShape(u.pool, r.1.pool) && r.1.db == u.db && r.1.sent == u.sent
    ensures TotalQueued(r.1.pool.connections) == TotalQueued(u.pool.connections) - 1
    ensures r.0 <==> TotalQueued(u.pool.connections) == 1
  {
    QueryDone(u.(failed := true, failedIndex := u.pool.connections[k].serverIndex), k)
  }

  /** Some connection serves entry `server`. */
  predicate Serves(u: Updater, server: nat) {
    exists k | 0 <= k < |u.pool.connections| :: u.pool.connections[k].serverIndex == server
  }

  /** What watching may change: counters, the request log, and rows' timestamps and heights. */
  predicate Watched(u: Updater, r: Updater) {
    && SameShape(u.pool, r.pool)
    && r == u.(pool := r.pool, db := r.db, sent := r.sent)
    && (forall x | x in u.sent :: x in r.sent)
    && r.db.rows.Keys == u.db.rows.Keys
    && r.db.lastHeight == u.db.lastHeight
    && r.db.unconfirmedTimeout == u.db.unconfirmedTimeout
    && forall t | t in u.db.rows :: r.db.rows[t].tx == u.db.rows[t].tx
  }

  lemma WatchedTrans(u: Updater, m: Updater, r: Updater)
    requires Watched(u, m) && Watched(m, r)
    ensures Watched(u, r)
  {
  }

  /** A query sent to the connections `to` selects reaches each of them. */
  lemma SendReaches(u: Updater, to: Connection -> bool, q: Query, counter: Counter, k: nat)
    requires k < |u.pool.connections| && to(u.pool.connections[k])
    ensures Request(u.pool.connections[k].serverIndex, q) in Send(u, to, q, counter).sent
  {
    assert u.pool.connections[k] in u.pool.connections;
  }

  lemma ServesKept(u: Updater, r: Updater, server: nat)
    requires SameShape(u.pool, r.pool)
    ensures Serves(u, server) ==> Serves(r, server)
  {
    if Serves(u, server) {
      var k :| 0 <= k < |u.pool.connections| && u.pool.connections[k].serverIndex == server;
      assert r.pool.connections[k].serverIndex == server;
    }
  }

  lemma GetTxFetches(u: Updater, txid: Hash, wantInputs: bool, server: nat)
    ensures Serves(u, server) ==> Request(server, TxQuery(txid, wantInputs)) in GetTx(u, txid, wantInputs, server).sent
  {
    if Serves(u, server) {
      var k :| 0 <= k < |u.pool.connections| && u.pool.connections[k].serverIndex == server;
      SendReaches(u, (c: Connection) => c.serverIndex == server, TxQuery(txid, wantInputs), Queries, k);
    }
  }

  /** get_index reaches every libbitcoin connection. */
  lemma GetIndexAsks(u: Updater, txid: Hash)
    ensures forall j | 0 <= j < |u.pool.connections| && u.pool.connections[j].kind == Libbitcoin ::
      Request(u.pool.connections[j].serverIndex, IndexQuery(txid)) in GetIndex(u, txid).sent
  {
    forall j | 0 <= j < |u.pool.connections| && u.pool.connections[j].kind == Libbitcoin
      ensures Request(u.pool.connections[j].serverIndex, IndexQuery(txid)) in GetIndex(u, txid).sent
    {
      SendReaches(u, (c: Connection) => c.kind == Libbitcoin, IndexQuery(txid), Indices, j);
    }
  }

  /** Watching that also leaves every row's state and height alone. */
  predicate Stamped(u: Updater, r: Updater) {
    && Watched(u, r)
    && forall t | t in u.db.rows ::
         r.db.rows[t].state == u.db.rows[t].state && r.db.rows[t].blockHeight == u.db.rows[t].blockHeight
  }

  lemma StampedTrans(u: Updater, m: Updater, r: Updater)
    requires Stamped(u, m) && Stamped(m, r)
    ensures Stamped(u, r)
  {
  }

  lemma QueuedStamped(u: Updater, r: Updater)
    requires OnlyQueued(u, r)
    ensures Stamped(u, r)
  {
  }

  lemma ResetStamped(u: Updater, txid: Hash, now: int)
    ensures Stamped(u, u.(db := ResetTimestamp(u.db, txid, now)))
  {
  }

  /** watch_tx without inputs and without a height: stamp a known row, fetch an unknown txid. */
  function WatchOne(u: Updater, txid: Hash, server: nat, now: int): (r: Updater)
    ensures Stamped(u, r)
    ensures txid in u.db.rows ==> r.sent == u.sent && r.db.rows[txid].timestamp == now
    ensures txid !in u.db.rows && Serves(u, server) ==> Request(server, TxQuery(txid, false)) in r.sent
  {
    if txid in u.db.rows then
      ResetStamped(u, txid, now);
      u.(db := ResetTimestamp(u.db, txid, now))
    else
      GetTxFetches(u, txid, false, server);
      QueuedStamped(u, GetTx(u, txid, false, server));
      GetTx(u, txid, false, server)
  }

  /** watch_tx's get_inputs: watch the transaction behind each input. */
  function WatchInputs(u: Updater, inputs: seq<TxInput>, server: nat, now: int): (r: Updater)
    ensures Stamped(u, r)
    ensures Serves(u, server) ==>
      forall input | input in inputs && input.previousOutput.hash !in u.db.rows ::
        Request(server, TxQuery(input.previousOutput.hash, false)) in r.sent
    decreases |inputs|
  {
    if inputs == [] then u
    else
      var m := WatchOne(u, inputs[0].previousOutput.hash, server, now);
      var r := WatchInputs(m, inputs[1..], server, now);
      ServesKept(u, m, server);
      StampedTrans(u, m, r);
      r
  }

  /**
   * A nonzero height reported for a known row confirms it at that height.
   * The height is a size_t and confirmed takes a long long, so a height of
   * 2^63 or more is stored as the negative number with its bit pattern.
   */
  function Confirm(u: Updater, txid: Hash, height: Uint64): (r: Updater)
    requires txid in u.db.rows
    ensures Watched(u, r) && r.sent == u.sent
    ensures r.db.rows[txid].state == (if height != 0 then Confirmed else u.db.rows[txid].state)
    ensures r.db.rows[txid].blockHeight == (if height != 0 then FromUint64(height) else u.db.rows[txid].blockHeight)
    ensures height != 0 ==> IsInt64(r.db.rows[txid].blockHeight) && ToUint64(r.db.rows[txid].blockHeight) == height
    ensures forall t | t in u.db.rows && t != txid :: r.db.rows[t] == u.db.rows[t]
  {
    if height != 0 then u.(db := MarkConfirmed(u.db, txid, FromUint64(height))) else u
  }

  /**
   * watch_tx: stamp the row; an unknown txid is fetched from the server
   * that reported it; a known one takes a nonzero height as confirmed and,
   * when inputs are wanted, has the transactions behind its inputs watched.
   * Watching never adds or removes a row.
   */
  function WatchTx(u: Updater, txid: Hash, wantInputs: bool, server: nat, height: Uint64, now: int): (r: Updater)
    ensures Watched(u, r)
    ensures txid !in u.db.rows ==>
      r.db == u.db && (Serves(u, server) ==> Request(server, TxQuery(txid, wantInputs)) in r.sent)
    ensures txid in u.db.rows ==>
      && r.db.rows[txid].state == (if height != 0 then Confirmed else u.db.rows[txid].state)
      && r.db.rows[txid].blockHeight == (if height != 0 then FromUint64(height) else u.db.rows[txid].blockHeight)
    ensures forall t | t in u.db.rows && t != txid ::
      r.db.rows[t].state == u.db.rows[t].state && r.db.rows[t].blockHeight == u.db.rows[t].blockHeight
    ensures txid in u.db.rows && wantInputs && Serves(u, server) ==>
      forall input | input in u.db.rows[txid].tx.inputs && input.previousOutput.hash !in u.db.rows ::
        Request(server, TxQuery(input.previousOutput.hash, false)) in r.sent
  {
    if txid !in u.db.rows then
      GetTxFetches(u, txid, wantInputs, server);
      GetTx(u, txid, wantInputs, server)
    else
      WatchKnown(u, txid, wantInputs, server, height, now)
  }

  /** watch_tx on a row the store holds. */
  function WatchKnown(u: Updater, txid: Hash, wantInputs: bool, server: nat, height: Uint64, now: int): (r: Updater)
    requires txid in u.db.rows
    ensures Watched(u, r)
    ensures r.db.rows[txid].state == (if height != 0 then Confirmed else u.db.rows[txid].state)
    ensures r.db.rows[txid].blockHeight == (if height != 0 then FromUint64(height) else u.db.rows[txid].blockHeight)
    ensures forall t | t in u.db.rows && t != txid ::
      r.db.rows[t].state == u.db.rows[t].state && r.db.rows[t].blockHeight == u.db.rows[t].blockHeight
    ensures wantInputs && Serves(u, server) ==>
      forall input | input in u.db.rows[txid].tx.inputs && input.previousOutput.hash !in u.db.rows ::
        Request(server, TxQuery(input.previousOutput.hash, false)) in r.sent
  {
    var u1 := u.(db := ResetTimestamp(u.db, txid, now));
    ResetStamped(u, txid, now);
    var u2 := Confirm(u1, txid, height);
    WatchedTrans(u, u1, u2);
    if wantInputs then
      var r := WatchInputs(u2, TxidLookup(u2.db, txid).inputs, server, now);
      ServesKept(u, u2, server);
      WatchedTrans(u, u2, r);
      r
    else u2
  }

  /** One row of an address history: the output, its height, and the spend (null when unspent). */
  datatype HistoryRow = HistoryRow(output: OutPoint, outputHeight: Uint64, spend: OutPoint)

  /** Every transaction in the rows that the store lacks was asked of `server`. */
  predicate FetchedAll(u: Updater, r: Updater, rows: seq<HistoryRow>, server: nat) {
    forall row | row in rows ::
      && (row.output.hash !in u.db.rows ==> Request(server, TxQuery(row.output.hash, true)) in r.sent)
      && (row.spend.hash != NullHash && row.spend.hash !in u.db.rows ==>
            Request(server, TxQuery(row.spend.hash, true)) in r.sent)
  }

  /** One history row: watch the output at its height, and the spend when there is one. */
  function WatchRow(u: Updater, row: HistoryRow, server: nat, now: int): (r: Updater)
    ensures Watched(u, r)
    ensures Serves(u, server) && row.output.hash !in u.db.rows ==>
      Request(server, TxQuery(row.output.hash, true)) in r.sent
    ensures Serves(u, server) && row.spend.hash != NullHash && row.spend.hash !in u.db.rows ==>
      Request(server, TxQuery(row.spend.hash, true)) in r.sent
  {
    var m := WatchTx(u, row.output.hash, true, server, row.outputHeight, now);
    ServesKept(u, m, server);
    if row.spend.hash == NullHash then m
    else
      var r := WatchTx(m, row.spend.hash, true, server, 0, now);
      WatchedTrans(u, m, r);
      r
  }

  /** query_address's loop over the history: every row, in order. */
  function WatchHistory(u: Updater, rows: seq<HistoryRow>, server: nat, now: int): (r: Updater)
    ensures Watched(u, r)
    ensures Serves(u, server) ==> FetchedAll(u, r, rows, server)
    decreases |rows|
  {
    if rows == [] then u
    else
      var m := WatchRow(u, rows[0], server, now);
      var r := WatchHistory(m, rows[1..], server, now);
      ServesKept(u, m, server);
      WatchedTrans(u, m, r);
      r
  }

  /**
   * An address history arriving on connection k: every transaction it
   * names that the store lacks is fetched from the same server, and the
   * query is done.
   */
  function HistoryDone(u: Updater, k: nat, rows: seq<HistoryRow>, now: int): (r: (bool, Updater))
    requires k < |u.pool.connections|
    ensures Watched(u, r.1)
    ensures FetchedAll(u, r.1, rows, u.pool.connections[k].serverIndex)
    ensures r.0 <==> TotalQueued(r.1.pool.connections) == 0
  {
    var server := u.pool.connections[k].serverIndex;
    var m := WatchHistory(u, rows, server, now);
    assert Serves(u, server);
    var r := QueryDone(m, k);
    WatchedTrans(u, m, r.1);
    r
  }

  /**
   * The transaction arriving for get_tx or get_tx_mem on connection k: it
   * is stored (reported as added when new), the transactions behind its
   * inputs are watched when wanted, every libbitcoin connection is asked
   * for its index, and the query is done. The result is (added, quiet,
   * updater).
   */
  function TxDone(u: Updater, hs: Hashers, k: nat, txid: Hash, wantInputs: bool, tx: Transaction, now: int): (r: (bool, bool, Updater))
    requires k < |u.pool.connections| && hs.txid(tx) == txid
    ensures Admitted(u, r.2, txid, tx, r.0)
    ensures forall j | 0 <= j < |u.pool.connections| && u.pool.connections[j].kind == Libbitcoin ::
      Request(u.pool.connections[j].serverIndex, IndexQuery(txid)) in r.2.sent
    ensures wantInputs ==>
      forall input | input in tx.inputs && input.previousOutput.hash !in u.db.rows && input.previousOutput.hash != txid ::
        Request(u.pool.connections[k].serverIndex, TxQuery(input.previousOutput.hash, false)) in r.2.sent
    ensures r.1 <==> TotalQueued(r.2.pool.connections) == 0
  {
    var a := TxStore(u, hs, k, txid, wantInputs, tx, now);
    var m := GetIndex(a.1, txid);
    GetIndexAsks(a.1, txid);
    AdmittedQueued(u, a.1, m, txid, tx, a.0);
    var d := QueryDone(m, k);
    AdmittedQueued(u, m, d.1, txid, tx, a.0);
    (a.0, d.0, d.1)
  }

  /**
   * What storing a fetched transaction does: `added` says whether the txid
   * was new; the store gains exactly that txid, a new row starts
   * unconfirmed at height 0, and every other row keeps its transaction,
   * state and height.
   */
  predicate Admitted(u: Updater, r: Updater, txid: Hash, tx: Transaction, added: bool) {
    && (added <==> txid !in u.db.rows)
    && r.db.rows.Keys == u.db.rows.Keys + {txid}
    && r.db.lastHeight == u.db.lastHeight
    && (added ==> r.db.rows[txid].tx == tx && r.db.rows[txid].state == Unconfirmed
                  && r.db.rows[txid].blockHeight == 0)
    && (forall t | t in u.db.rows ::
          && r.db.rows[t].tx == u.db.rows[t].tx
          && r.db.rows[t].state == u.db.rows[t].state
          && r.db.rows[t].blockHeight == u.db.rows[t].blockHeight)
    && SameShape(u.pool, r.pool) && r.failed == u.failed && r.failedIndex == u.failedIndex
    && forall x | x in u.sent :: x in r.sent
  }

  lemma AdmittedQueued(u: Updater, m: Updater, r: Updater, txid: Hash, tx: Transaction, added: bool)
    requires Admitted(u, m, txid, tx, added) && OnlyQueued(m, r)
    ensures Admitted(u, r, txid, tx, added)
  {
  }

  /** The first half of TxDone: store the transaction and watch its inputs when wanted. */
  function TxStore(u: Updater, hs: Hashers, k: nat, txid: Hash, wantInputs: bool, tx: Transaction, now: int): (r: (bool, Updater))
    requires k < |u.pool.connections| && hs.txid(tx) == txid
    ensures Admitted(u, r.1, txid, tx, r.0)
    ensures wantInputs ==>
      forall input | input in tx.inputs && input.previousOutput.hash !in u.db.rows && input.previousOutput.hash != txid ::
        Request(u.pool.connections[k].serverIndex, TxQuery(input.previousOutput.hash, false)) in r.1.sent
  {
    var server := u.pool.connections[k].serverIndex;
    var ins := Insert(u.db, hs, tx, now);
    var u1 := u.(db := ins.1);
    assert Serves(u1, server);
    if wantInputs then (ins.0, WatchInputs(u1, tx.inputs, server, now)) else (ins.0, u1)
  }

  /** get_tx's error: the transaction may be in the mempool, so ask the same server there; the query is done. */
  function TxFailed(u: Updater, k: nat, txid: Hash, wantInputs: bool): (r: (bool, Updater))
    requires k < |u.pool.connections|
    ensures Stamped(u, r.1) && r.1.db == u.db
    ensures Request(u.pool.connections[k].serverIndex, MempoolQuery(txid, wantInputs)) in r.1.sent
    ensures r.0 <==> TotalQueued(r.1.pool.connections) == 0
  {
    var server := u.pool.connections[k].serverIndex;
    var m := GetTxMem(u, txid, wantInputs, server);
    SendReaches(u, (c: Connection) => c.serverIndex == server, MempoolQuery(txid, wantInputs), Queries, k);
    var r := QueryDone(m, k);
    QueuedStamped(u, m);
    QueuedStamped(m, r.1);
    StampedTrans(u, m, r.1);
    r
  }

  /** Connection k has one fewer reply outstanding on `counter`; nothing else changes. */
  function Settle(u: Updater, k: nat, counter: Counter): (r: Updater)
    requires k < |u.pool.connections|
    ensures OnlyQueued(u, r) && r.sent == u.sent
    ensures |r.pool.connections| == |u.pool.connections|
    ensures forall j | 0 <= j < |u.pool.connections| && j != k :: r.pool.connections[j] == u.pool.connections[j]
    ensures var c := u.pool.connections[k]; var d := r.pool.connections[k];
      && d.queued == c.queued - (if counter == Queries then 1 else 0)
      && d.queuedIndices == c.queuedIndices - (if counter == Indices then 1 else 0)
      && d.queuedHeight == c.queuedHeight - (if counter == Heights then 1 else 0)
    ensures counter != Queries ==> TotalQueued(r.pool.connections) == TotalQueued(u.pool.connections)
  {
    var c := Bump(u.pool.connections[k], counter, -1);
    TotalQueuedUpdate(u.pool.connections, k, c);
    u.(pool := u.pool.(connections := u.pool.connections[k := c]))
  }

  /**
   * get_index's reply on connection k: the row is confirmed at the block
   * height reported, and the index count goes down. Outstanding queries
   * are untouched, so this never makes the updater quiet. The size_t
   * height reaches confirmed as a long long, so 2^63 and above are stored
   * negative, with the same bit pattern.
   */
  function IndexDone(u: Updater, k: nat, txid: Hash, height: Uint64): (r: Updater)
    requires k < |u.pool.connections| && txid in u.db.rows
    ensures OnlyRowChanged(u.db, r.db, txid)
    ensures r.db.rows[txid] == u.db.rows[txid].(state := Confirmed, blockHeight := FromUint64(height))
    ensures IsInt64(r.db.rows[txid].blockHeight) && ToUint64(r.db.rows[txid].blockHeight) == height
    ensures height < TWO_63 ==> r.db.rows[txid].blockHeight == height
    ensures SameShape(u.pool, r.pool) && r.sent == u.sent && r.failed == u.failed
    ensures r.pool.connections[k].queuedIndices == u.pool.connections[k].queuedIndices - 1
    ensures TotalQueued(r.pool.connections) == TotalQueued(u.pool.connections)
  {
    Settle(u.(db := MarkConfirmed(u.db, txid, FromUint64(height))), k, Indices)
  }

  /** get_index's error: the transaction is taken as unconfirmed, at height 0. */
  function IndexFailed(u: Updater, k: nat, txid: Hash): (r: Updater)
    requires k < |u.pool.connections| && txid in u.db.rows
    ensures OnlyRowChanged(u.db, r.db, txid)
    ensures r.db.rows[txid] == u.db.rows[txid].(state := Unconfirmed, blockHeight := 0)
    ensures SameShape(u.pool, r.pool) && r.sent == u.sent && r.failed == u.failed
    ensures r.pool.connections[k].queuedIndices == u.pool.connections[k].queuedIndices - 1
    ensures TotalQueued(r.pool.connections) == TotalQueued(u.pool.connections)
  {
    Settle(u.(db := MarkUnconfirmed(u.db, txid)), k, Indices)
  }

  /**
   * get_height's reply on connection k. The reply is a size_t and the
   * stored height a long long, so the test compares the stored height read
   * as unsigned: a stored -1 is above every reply. A higher height is
   * stored, converted back to a long long, and reported (the flag), and
   * then every unconfirmed row is asked about on every libbitcoin
   * connection. A height that is not higher changes nothing but the count.
   */
  function HeightDone(u: Updater, k: nat, height: nat, order: seq<Hash>): (r: (bool, Updater))
    requires k < |u.pool.connections| && Enumerates(u.db, order) && height < TWO_64
    ensures r.0 <==> ToUint64(u.db.lastHeight) < height
    ensures r.1.db.lastHeight == if r.0 then FromUint64(height) else u.db.lastHeight
    ensures r.1.db.rows == u.db.rows && r.1.db.unconfirmedTimeout == u.db.unconfirmedTimeout
    ensures SameShape(u.pool, r.1.pool) && r.1.failed == u.failed && r.1.failedIndex == u.failedIndex
    ensures r.1.pool.connections[k].queuedHeight == u.pool.connections[k].queuedHeight - 1
    ensures forall x | x in u.sent :: x in r.1.sent
    ensures !r.0 ==> r.1.sent == u.sent
    ensures r.0 ==>
      forall t, j | t in u.db.rows && u.db.rows[t].state != Confirmed && 0 <= j < |u.pool.connections|
                    && u.pool.connections[j].kind == Libbitcoin ::
        Request(u.pool.connections[j].serverIndex, IndexQuery(t)) in r.1.sent
  {
    if ToUint64(u.db.lastHeight) < height then
      var u1 := u.(db := AtHeight(u.db, FromUint64(height)));
      var m := GetIndexAll(u1, ForeachUnconfirmed(u1.db, order));
      var r := Settle(m, k, Heights);
      assert m.pool.connections[k].queuedHeight == u.pool.connections[k].queuedHeight;
      (true, r)
    else
      (false, Settle(u, k, Heights))
  }

  /**
   * Heights as stored and as compared agree: a reply below 2^63 advances a
   * non-negative stored height below 2^63 exactly when it is higher and is stored as
   * itself, while a stored -1 (eight 0xff bytes in the cache file) is never
   * replaced by any reply.
   */
  lemma HeightDoneSigned(u: Updater, k: nat, height: nat, order: seq<Hash>)
    requires k < |u.pool.connections| && Enumerates(u.db, order) && height < TWO_64
    ensures 0 <= u.db.lastHeight < TWO_63 && height < TWO_63 ==>
      && (HeightDone(u, k, height, order).0 <==> u.db.lastHeight < height)
      && (HeightDone(u, k, height, order).0 ==> HeightDone(u, k, height, order).1.db.lastHeight == height)
    ensures u.db.lastHeight == -1 ==>
      !HeightDone(u, k, height, order).0 && HeightDone(u, k, height, order).1.db.lastHeight == -1
  {
    if 0 <= u.db.lastHeight < TWO_63 && height < TWO_63 {
      assert ToUint64(u.db.lastHeight) == u.db.lastHeight;
    }
    if u.db.lastHeight == -1 {
      assert ToUint64(u.db.lastHeight) == TWO_64 - 1;
    }
  }

  /** get_height's error: the server is marked failed and the count goes down. */
  function HeightFailed(u: Updater, k: nat): (r: Updater)
    requires k < |u.pool.connections|
    ensures r.failed && r.failedIndex == u.pool.connections[k].serverIndex
    ensures SameShape(u.pool, r.pool) && r.db == u.db && r.sent == u.sent
    ensures r.pool.connections[k].queuedHeight == u.pool.connections[k].queuedHeight - 1
    ensures TotalQueued(r.pool.connections) == TotalQueued(u.pool.connections)
  {
    Settle(u.(failed := true, failedIndex := u.pool.connections[k].serverIndex), k, Heights)
  }

  /** The position of the first stratum connection, or the length when there is none. */
  function FirstStratum(conns: seq<Connection>): (i: nat)
    ensures i <= |conns|
    ensures i < |conns| ==> conns[i].kind == Stratum
    ensures forall j | 0 <= j < i :: conns[j].kind != Stratum
    decreases |conns|
  {
    if conns == [] || conns[0].kind == Stratum then 0 else 1 + FirstStratum(conns[1..])
  }

  /**
   * sendTx: the raw transaction goes to the first stratum connection only,
   * and its status is left to that server's reply; with no stratum
   * connection the status is an error at once. No counter changes.
   */
  function SendTx(u: Updater, raw: seq<byte>): (r: (Outcome, Updater))
    ensures r.0.Pass? <==> exists j | 0 <= j < |u.pool.connections| :: u.pool.connections[j].kind == Stratum
    ensures r.0.Failed? ==> r.0 == Failed(Error, "No stratum connections") && r.1 == u
    ensures r.0.Pass? ==>
      var i := FirstStratum(u.pool.connections);
      && i < |u.pool.connections|
      && r.1 == u.(sent := u.sent + [Request(u.pool.connections[i].serverIndex, Broadcast(raw))])
  {
    var i := FirstStratum(u.pool.connections);
    if i < |u.pool.connections| then
      (Pass, u.(sent := u.sent + [Request(u.pool.connections[i].serverIndex, Broadcast(raw))]))
    else (Failed(Error, "No stratum connections"), u)
  }
}
