/**
 * The double-spend-safe unspent-output query of the transaction store
 * (TxDatabase::get_utxos and its helper TxFilter): the outpoints spent
 * more than once, the recursive safety check over the spend graph with its
 * memo, and the outputs the wallet may spend.
 */
module TxFilter {
  import opened Wrappers
  import opened Bytes
  import opened Wire
  import opened Script
  import opened Seqs
  import opened TxDatabase

  /** bc::extract: the address a script pays or spends from, left abstract. */
  type Extractor = seq<byte> -> Option<PaymentAddress>

  /** An unspent output as get_utxos reports it (bc::output_info_type). */
  datatype OutputInfo = OutputInfo(point: OutPoint, value: nat)

  function Prevs(ins: seq<TxInput>): (r: seq<OutPoint>)
    ensures |r| == |ins| && forall i | 0 <= i < |ins| :: r[i] == ins[i].previousOutput
  {
    seq(|ins|, i requires 0 <= i < |ins| => ins[i].previousOutput)
  }

  function RowPrevs(db: Db, t: Hash): seq<OutPoint> {
    if t in db.rows then Prevs(db.rows[t].tx.inputs) else []
  }

  /** Every input's previous output, row by row along `order`: what the first loop of get_utxos visits. */
  function Flat(db: Db, order: seq<Hash>): seq<OutPoint> {
    if order == [] then []
    else Flat(db, order[..|order| - 1]) + RowPrevs(db, order[|order| - 1])
  }

  /** Some input of some stored transaction spends p. */
  predicate Spent(db: Db, p: OutPoint) {
    exists t, i | t in db.rows && 0 <= i < |db.rows[t].tx.inputs| ::
      db.rows[t].tx.inputs[i].previousOutput == p
  }

  /** The outpoints that two or more input occurrences across the store spend. */
  function DoubleSpends(db: Db, order: seq<Hash>): set<OutPoint> {
    var m := multiset(Flat(db, order));
    set p | p in m && m[p] >= 2
  }

  // ---------------------------------------------------------------------
  // Facts about Flat

  lemma {:induction false} FlatConcat(db: Db, a: seq<Hash>, b: seq<Hash>)
    ensures Flat(db, a + b) == Flat(db, a) + Flat(db, b)
    decreases |b|
  {
    if b == [] {
      assert a + b == a;
    } else {
      var b', t := b[..|b| - 1], b[|b| - 1];
      assert (a + b)[..|a + b| - 1] == a + b';
      assert (a + b)[|a + b| - 1] == t;
      FlatConcat(db, a, b');
      var fa, fb, ft := Flat(db, a), Flat(db, b'), RowPrevs(db, t);
      assert Flat(db, a + b) == fa + fb + ft;
      assert Flat(db, b) == fb + ft;
      assert fa + fb + ft == fa + (fb + ft);
    }
  }

  lemma {:induction false} FlatMembers(db: Db, order: seq<Hash>)
    ensures forall p :: p in Flat(db, order) <==>
      exists t, i | t in order && t in db.rows && 0 <= i < |db.rows[t].tx.inputs| ::
        db.rows[t].tx.inputs[i].previousOutput == p
  {
    if order != [] {
      var front := order[..|order| - 1];
      var t := order[|order| - 1];
      FlatMembers(db, front);
      forall p | p in Flat(db, order)
        ensures exists t', i | t' in order && t' in db.rows && 0 <= i < |db.rows[t'].tx.inputs| ::
          db.rows[t'].tx.inputs[i].previousOutput == p
      {
        if p in Flat(db, front) {
          var t', i :| t' in front && t' in db.rows && 0 <= i < |db.rows[t'].tx.inputs|
            && db.rows[t'].tx.inputs[i].previousOutput == p;
          assert t' in order;
        } else {
          var i :| 0 <= i < |RowPrevs(db, t)| && RowPrevs(db, t)[i] == p;
        }
      }
      forall p, t', i | t' in order && t' in db.rows && 0 <= i < |db.rows[t'].tx.inputs|
          && db.rows[t'].tx.inputs[i].previousOutput == p
        ensures p in Flat(db, order)
      {
        if t' == t {
          assert RowPrevs(db, t)[i] == p;
        } else {
          assert t' in front;
        }
      }
    }
  }

  /** Over an enumeration of the store, Flat holds exactly the spent outpoints. */
  lemma FlatSpent(db: Db, order: seq<Hash>)
    requires Enumerates(db, order)
    ensures forall p :: p in Flat(db, order) <==> Spent(db, p)
  {
    FlatMembers(db, order);
  }

  lemma RemoveAt<T>(s: seq<T>, k: nat)
    requires k < |s| && Distinct(s)
    ensures var s' := s[..k] + s[k + 1..];
      Distinct(s') && (forall x :: x in s' <==> x in s && x != s[k]) && |s'| == |s| - 1
  {
    var s' := s[..k] + s[k + 1..];
    forall x | x in s
      ensures x in s' <==> x != s[k]
    {
      var j :| 0 <= j < |s| && s[j] == x;
      if j < k { assert s'[j] == x; }
      else if j > k { assert s'[j - 1] == x; }
    }
    forall a, b | 0 <= a < b < |s'|
      ensures s'[a] != s'[b]
    {
      var a' := if a < k then a else a + 1;
      var b' := if b < k then b else b + 1;
      assert s'[a] == s[a'] && s'[b] == s[b'];
    }
  }

  lemma MultisetMiddle<T>(x: seq<T>, y: seq<T>, z: seq<T>)
    ensures multiset(x + y + z) == multiset(x + z) + multiset(y)
  {
    assert multiset(x + y + z) == multiset(x) + multiset(y) + multiset(z);
    assert multiset(x + z) == multiset(x) + multiset(z);
  }

  /** The spends of a walk, cut around its k-th txid. */
  lemma FlatAround(db: Db, s: seq<Hash>, k: nat)
    requires k < |s|
    ensures Flat(db, s) == Flat(db, s[..k]) + RowPrevs(db, s[k]) + Flat(db, s[k + 1..])
    ensures Flat(db, s[..k] + s[k + 1..]) == Flat(db, s[..k]) + Flat(db, s[k + 1..])
  {
    var t, a, b := s[k], s[..k], s[k + 1..];
    assert s == (a + [t]) + b;
    FlatConcat(db, a + [t], b);
    FlatConcat(db, a, [t]);
    FlatConcat(db, a, b);
    assert Flat(db, [t]) == RowPrevs(db, t) by {
      assert [t][..0] == [];
    }
  }

  /** Taking one txid out of a walk takes out exactly its spends. */
  lemma FlatSplit(db: Db, s: seq<Hash>, k: nat)
    requires k < |s|
    ensures multiset(Flat(db, s)) == multiset(Flat(db, s[..k] + s[k + 1..])) + multiset(RowPrevs(db, s[k]))
  {
    FlatAround(db, s, k);
    MultisetMiddle(Flat(db, s[..k]), RowPrevs(db, s[k]), Flat(db, s[k + 1..]));
  }

  /** Any two walks over the same txids meet the same spends, counted with multiplicity. */
  lemma {:induction false} FlatPermutation(db: Db, o1: seq<Hash>, o2: seq<Hash>)
    requires Distinct(o1) && Distinct(o2)
    requires forall t :: t in o1 <==> t in o2
    ensures multiset(Flat(db, o1)) == multiset(Flat(db, o2))
    decreases |o1|
  {
    if o1 == [] {
      DistinctCard(o2, {});
    } else {
      var t := o1[|o1| - 1];
      var front := o1[..|o1| - 1];
      assert t in o2;
      var k :| 0 <= k < |o2| && o2[k] == t;
      var rest := o2[..k] + o2[k + 1..];
      RemoveAt(o2, k);
      RemoveAt(o1, |o1| - 1);
      assert o1[..|o1| - 1] + o1[|o1|..] == front;
      FlatPermutation(db, front, rest);
      FlatSplit(db, o2, k);
    }
  }

  lemma DoubleSpendsOrderFree(db: Db, o1: seq<Hash>, o2: seq<Hash>)
    requires Enumerates(db, o1) && Enumerates(db, o2)
    ensures DoubleSpends(db, o1) == DoubleSpends(db, o2)
  {
    FlatPermutation(db, o1, o2);
  }

  /** Input i of the stored transaction t spends p. */
  predicate SpendsAt(db: Db, t: Hash, i: nat, p: OutPoint) {
    t in db.rows && i < |db.rows[t].tx.inputs| && db.rows[t].tx.inputs[i].previousOutput == p
  }

  /** Two different inputs of transactions listed in `order` spend p. */
  ghost predicate SpentTwiceIn(db: Db, order: seq<Hash>, p: OutPoint) {
    exists t1, i1, t2, i2 | t1 in order && t2 in order && SpendsAt(db, t1, i1, p) && SpendsAt(db, t2, i2, p) ::
      t1 != t2 || i1 != i2
  }

  /** Two different inputs in the store spend p. */
  ghost predicate SpentTwice(db: Db, p: OutPoint) {
    exists t1, i1, t2, i2 | SpendsAt(db, t1, i1, p) && SpendsAt(db, t2, i2, p) :: t1 != t2 || i1 != i2
  }

  lemma FlatSnoc(db: Db, s: seq<Hash>, t: Hash)
    ensures Flat(db, s + [t]) == Flat(db, s) + RowPrevs(db, t)
  {
    assert (s + [t])[..|s|] == s;
  }

  /** How often one row's inputs spend p, in terms of its input positions. */
  lemma RowCount(db: Db, t: Hash, p: OutPoint)
    ensures multiset(RowPrevs(db, t))[p] >= 1 <==> exists i :: SpendsAt(db, t, i, p)
    ensures multiset(RowPrevs(db, t))[p] >= 2 <==>
      exists i1, i2 | SpendsAt(db, t, i1, p) && SpendsAt(db, t, i2, p) :: i1 != i2
  {
    var rp := RowPrevs(db, t);
    TwiceIn(rp, p);
    if p in rp {
      var j :| 0 <= j < |rp| && rp[j] == p;
      assert SpendsAt(db, t, j, p);
    }
    if multiset(rp)[p] >= 2 {
      var j1, j2 :| 0 <= j1 < j2 < |rp| && rp[j1] == p && rp[j2] == p;
      assert SpendsAt(db, t, j1, p) && SpendsAt(db, t, j2, p);
    }
    if exists i1, i2 | SpendsAt(db, t, i1, p) && SpendsAt(db, t, i2, p) :: i1 != i2 {
      var i1, i2 :| SpendsAt(db, t, i1, p) && SpendsAt(db, t, i2, p) && i1 != i2;
      var j1, j2 := if i1 < i2 then i1 else i2, if i1 < i2 then i2 else i1;
      assert rp[j1] == p && rp[j2] == p;
    }
  }

  /** A walk meets p at all exactly when some input along it spends p. */
  lemma FlatOnce(db: Db, order: seq<Hash>, p: OutPoint)
    ensures multiset(Flat(db, order))[p] >= 1 <==> exists t, i | t in order :: SpendsAt(db, t, i, p)
  {
    FlatMembers(db, order);
    if p in Flat(db, order) {
      var t, i :| t in order && t in db.rows && 0 <= i < |db.rows[t].tx.inputs|
        && db.rows[t].tx.inputs[i].previousOutput == p;
      assert SpendsAt(db, t, i, p);
    }
  }

  /** Adding one more row to a walk: p is spent twice along it when it was already, or once before and once in the row, or twice in the row. */
  lemma CountTwiceStep(db: Db, f: seq<Hash>, t: Hash, p: OutPoint)
    requires t !in f
    requires multiset(Flat(db, f))[p] >= 2 <==> SpentTwiceIn(db, f, p)
    ensures multiset(Flat(db, f + [t]))[p] >= 2 <==> SpentTwiceIn(db, f + [t], p)
  {
    FlatSnoc(db, f, t);
    RowCount(db, t, p);
    FlatOnce(db, f, p);
    var o := f + [t];
    var cf, ct := multiset(Flat(db, f))[p], multiset(RowPrevs(db, t))[p];
    assert multiset(Flat(db, o))[p] == cf + ct;
    if cf + ct >= 2 {
      if cf >= 2 {
        var t1, i1, t2, i2 :| t1 in f && t2 in f && SpendsAt(db, t1, i1, p) && SpendsAt(db, t2, i2, p)
          && (t1 != t2 || i1 != i2);
        assert t1 in o && t2 in o;
      } else if ct >= 2 {
        var i1, i2 :| SpendsAt(db, t, i1, p) && SpendsAt(db, t, i2, p) && i1 != i2;
        assert t in o;
      } else {
        var t1, i1 :| t1 in f && SpendsAt(db, t1, i1, p);
        var i :| SpendsAt(db, t, i, p);
        assert t1 in o && t in o;
      }
    }
    if SpentTwiceIn(db, o, p) {
      var t1, i1, t2, i2 :| t1 in o && t2 in o && SpendsAt(db, t1, i1, p) && SpendsAt(db, t2, i2, p)
        && (t1 != t2 || i1 != i2);
      if t1 in f && t2 in f {
        assert SpentTwiceIn(db, f, p);
      } else if t1 == t && t2 == t {
      } else if t1 == t {
        assert t2 in f;
      } else {
        assert t1 in f;
      }
    }
  }

  /** A walk meets p twice or more exactly when two different inputs along it spend p. */
  lemma {:induction false} CountTwice(db: Db, order: seq<Hash>, p: OutPoint)
    requires Distinct(order)
    ensures multiset(Flat(db, order))[p] >= 2 <==> SpentTwiceIn(db, order, p)
  {
    if order != [] {
      var f, t := order[..|order| - 1], order[|order| - 1];
      assert order == f + [t];
      NotInPrefix(order, |order| - 1);
      assert Distinct(f) by {
        forall a, b | 0 <= a < b < |f| ensures f[a] != f[b] {
          assert f[a] == order[a] && f[b] == order[b];
        }
      }
      CountTwice(db, f, p);
      CountTwiceStep(db, f, t, p);
    }
  }

  /** The double spends are exactly the outpoints two different stored inputs spend. */
  lemma DoubleSpendsSpentTwice(db: Db, order: seq<Hash>)
    requires Enumerates(db, order)
    ensures forall p :: p in DoubleSpends(db, order) <==> SpentTwice(db, p)
  {
    forall p
      ensures p in DoubleSpends(db, order) <==> SpentTwice(db, p)
    {
      CountTwice(db, order, p);
    }
  }

  // ---------------------------------------------------------------------
  // Safety over the spend graph

  /**
   * A ranking of the stored txids under which every input of a row that
   * is not confirmed spends from a lower-ranked stored transaction: the
   * part of the spend graph isSafe walks has no cycle.
   */
  ghost predicate Ranked(db: Db, rank: map<Hash, nat>) {
    && (forall t | t in db.rows :: t in rank)
    && (forall t, i | t in db.rows && db.rows[t].state != Confirmed
          && 0 <= i < |db.rows[t].tx.inputs|
          && db.rows[t].tx.inputs[i].previousOutput.hash in db.rows ::
          rank[db.rows[t].tx.inputs[i].previousOutput.hash] < rank[t])
  }

  ghost function Level(db: Db, rank: map<Hash, nat>, t: Hash): nat
    requires Ranked(db, rank)
  {
    if t in db.rows then rank[t] + 1 else 0
  }

  /**
   * The safety of a transaction, by cases: a txid missing from the store is
   * safe, a confirmed one is safe, and any other is safe when none of its
   * inputs spends a double-spent outpoint or comes from an unsafe one.
   */
  function Safe(db: Db, ds: set<OutPoint>, ghost rank: map<Hash, nat>, t: Hash): bool
    requires Ranked(db, rank)
    decreases Level(db, rank, t), 1, 0
  {
    if t !in db.rows then true
    else if db.rows[t].state == Confirmed then true
    else InputsSafe(db, ds, rank, t, 0)
  }

  /** The loop of isSafe over the inputs from position k. */
  function InputsSafe(db: Db, ds: set<OutPoint>, ghost rank: map<Hash, nat>, t: Hash, k: nat): bool
    requires Ranked(db, rank)
    requires t in db.rows && db.rows[t].state != Confirmed && k <= |db.rows[t].tx.inputs|
    decreases Level(db, rank, t), 0, |db.rows[t].tx.inputs| - k
  {
    var ins := db.rows[t].tx.inputs;
    if k == |ins| then true
    else
      var p := ins[k].previousOutput;
      if p in ds then false
      else if !Safe(db, ds, rank, p.hash) then false
      else InputsSafe(db, ds, rank, t, k + 1)
  }

  lemma {:induction false} InputsSafeAll(db: Db, ds: set<OutPoint>, rank: map<Hash, nat>, t: Hash, k: nat)
    requires Ranked(db, rank)
    requires t in db.rows && db.rows[t].state != Confirmed && k <= |db.rows[t].tx.inputs|
    ensures InputsSafe(db, ds, rank, t, k) <==>
      forall j | k <= j < |db.rows[t].tx.inputs| ::
        db.rows[t].tx.inputs[j].previousOutput !in ds
        && Safe(db, ds, rank, db.rows[t].tx.inputs[j].previousOutput.hash)
    decreases |db.rows[t].tx.inputs| - k
  {
    if k < |db.rows[t].tx.inputs| {
      InputsSafeAll(db, ds, rank, t, k + 1);
    }
  }

  /** isSafe's definition by cases, stated over all inputs at once. */
  lemma SafeByCases(db: Db, ds: set<OutPoint>, rank: map<Hash, nat>, t: Hash)
    requires Ranked(db, rank)
    ensures t !in db.rows ==> Safe(db, ds, rank, t)
    ensures t in db.rows && db.rows[t].state == Confirmed ==> Safe(db, ds, rank, t)
    ensures t in db.rows && db.rows[t].state != Confirmed ==>
      (!Safe(db, ds, rank, t) <==>
        exists j | 0 <= j < |db.rows[t].tx.inputs| ::
          db.rows[t].tx.inputs[j].previousOutput in ds
          || !Safe(db, ds, rank, db.rows[t].tx.inputs[j].previousOutput.hash))
  {
    if t in db.rows && db.rows[t].state != Confirmed {
      InputsSafeAll(db, ds, rank, t, 0);
    }
  }

  /** Safety does not depend on which ranking witnesses acyclicity. */
  lemma {:induction false} SafeRankFree(db: Db, ds: set<OutPoint>, r1: map<Hash, nat>, r2: map<Hash, nat>, t: Hash)
    requires Ranked(db, r1) && Ranked(db, r2)
    ensures Safe(db, ds, r1, t) == Safe(db, ds, r2, t)
    decreases Level(db, r1, t), 1, 0
  {
    if t in db.rows && db.rows[t].state != Confirmed {
      InputsSafeRankFree(db, ds, r1, r2, t, 0);
    }
  }

  lemma {:induction false} InputsSafeRankFree(db: Db, ds: set<OutPoint>, r1: map<Hash, nat>, r2: map<Hash, nat>,
                                              t: Hash, k: nat)
    requires Ranked(db, r1) && Ranked(db, r2)
    requires t in db.rows && db.rows[t].state != Confirmed && k <= |db.rows[t].tx.inputs|
    ensures InputsSafe(db, ds, r1, t, k) == InputsSafe(db, ds, r2, t, k)
    decreases Level(db, r1, t), 0, |db.rows[t].tx.inputs| - k
  {
    var ins := db.rows[t].tx.inputs;
    if k < |ins| {
      var p := ins[k].previousOutput;
      SafeRankFree(db, ds, r1, r2, p.hash);
      InputsSafeRankFree(db, ds, r1, r2, t, k + 1);
    }
  }

  /** Every memo entry records the true safety of its txid. */
  ghost predicate MemoSound(db: Db, ds: set<OutPoint>, rank: map<Hash, nat>, visited: map<Hash, bool>)
    requires Ranked(db, rank)
  {
    forall k | k in visited :: visited[k] == Safe(db, ds, rank, k)
  }

  /**
   * TxFilter::isSafe: the memoized graph search. Whatever sound memo it
   * starts from, it answers Safe, and it leaves a memo that is still sound
   * and now covers t.
   */
  method IsSafe(db: Db, ds: set<OutPoint>, ghost rank: map<Hash, nat>, visited: map<Hash, bool>, t: Hash)
    returns (safe: bool, visited': map<Hash, bool>)
    requires Ranked(db, rank) && MemoSound(db, ds, rank, visited)
    ensures safe == Safe(db, ds, rank, t)
    ensures MemoSound(db, ds, rank, visited') && visited.Keys <= visited'.Keys && t in visited'
    decreases Level(db, rank, t), 1
  {
    if t in visited {
      return visited[t], visited;
    }
    if t !in db.rows || db.rows[t].state == Confirmed {
      return true, visited[t := true];
    }
    var ins := db.rows[t].tx.inputs;
    visited' := visited;
    for k := 0 to |ins|
      invariant MemoSound(db, ds, rank, visited') && visited.Keys <= visited'.Keys
      invariant InputsSafe(db, ds, rank, t, 0) == InputsSafe(db, ds, rank, t, k)
    {
      var p := ins[k].previousOutput;
      if p in ds {
        return false, visited'[t := false];
      }
      var s;
      s, visited' := IsSafe(db, ds, rank, visited', p.hash);
      if !s {
        return false, visited'[t := false];
      }
    }
    return true, visited'[t := true];
  }

  /** Every input of the transaction spends from one of the wallet's addresses. */
  predicate InputsOwned(extract: Extractor, addresses: set<PaymentAddress>, ins: seq<TxInput>) {
    forall i | 0 <= i < |ins| ::
      extract(ins[i].script).Some? && extract(ins[i].script).value in addresses
  }

  /**
   * What TxFilter::check accepts: with the filter on, a row that is not
   * confirmed must be a spend of our own (every input ours); and the
   * transaction must be safe.
   */
  predicate Passes(db: Db, ds: set<OutPoint>, rank: map<Hash, nat>, extract: Extractor,
                   addresses: set<PaymentAddress>, t: Hash, filter: bool)
    requires Ranked(db, rank) && t in db.rows
  {
    && (filter && db.rows[t].state != Confirmed ==> InputsOwned(extract, addresses, db.rows[t].tx.inputs))
    && Safe(db, ds, rank, t)
  }

  /** TxFilter::check. */
  method Check(db: Db, ds: set<OutPoint>, ghost rank: map<Hash, nat>, extract: Extractor,
               addresses: set<PaymentAddress>, visited: map<Hash, bool>, t: Hash, filter: bool)
    returns (ok: bool, visited': map<Hash, bool>)
    requires Ranked(db, rank) && MemoSound(db, ds, rank, visited) && t in db.rows
    ensures ok == Passes(db, ds, rank, extract, addresses, t, filter)
    ensures MemoSound(db, ds, rank, visited') && visited.Keys <= visited'.Keys
  {
    var row := db.rows[t];
    if filter && row.state != Confirmed {
      for i := 0 to |row.tx.inputs|
        invariant InputsOwned(extract, addresses, row.tx.inputs[..i])
      {
        var a := extract(row.tx.inputs[i].script);
        if a.None? || a.value !in addresses {
          return false, visited;
        }
        assert row.tx.inputs[..i + 1] == row.tx.inputs[..i] + [row.tx.inputs[i]];
      }
      assert row.tx.inputs[..|row.tx.inputs|] == row.tx.inputs;
    }
    ok, visited' := IsSafe(db, ds, rank, visited, t);
  }

  /**
   * The outputs get_utxos reports: output i of a stored transaction that no
   * stored input spends, whose script pays one of the wallet's addresses,
   * and whose transaction passes check against the double spends.
   */
  ghost predicate IsUtxo(db: Db, order: seq<Hash>, rank: map<Hash, nat>, extract: Extractor,
                         addresses: set<PaymentAddress>, filter: bool, x: OutputInfo)
    requires Ranked(db, rank)
  {
    var t := x.point.hash;
    var i := x.point.index;
    && t in db.rows
    && i < |db.rows[t].tx.outputs|
    && x.value == db.rows[t].tx.outputs[i].value
    && !Spent(db, x.point)
    && extract(db.rows[t].tx.outputs[i].script).Some?
    && extract(db.rows[t].tx.outputs[i].script).value in addresses
    && Passes(db, DoubleSpends(db, order), rank, extract, addresses, t, filter)
  }

  /** The inner loop of the first loop of get_utxos, over one row's inputs. */
  method CollectRowSpends(ins: seq<TxInput>, ghost before: seq<OutPoint>,
                          spends: set<OutPoint>, doubleSpends: set<OutPoint>)
    returns (spends': set<OutPoint>, doubleSpends': set<OutPoint>)
    requires forall p :: p in spends <==> p in before
    requires forall p :: p in doubleSpends <==> multiset(before)[p] >= 2
    ensures forall p :: p in spends' <==> p in before + Prevs(ins)
    ensures forall p :: p in doubleSpends' <==> multiset(before + Prevs(ins))[p] >= 2
  {
    spends', doubleSpends' := spends, doubleSpends;
    for i := 0 to |ins|
      invariant forall p :: p in spends' <==> p in before + Prevs(ins)[..i]
      invariant forall p :: p in doubleSpends' <==> multiset(before + Prevs(ins)[..i])[p] >= 2
    {
      var p := ins[i].previousOutput;
      assert before + Prevs(ins)[..i + 1] == (before + Prevs(ins)[..i]) + [p];
      if p in spends' {
        doubleSpends' := doubleSpends' + {p};
      } else {
        spends' := spends' + {p};
      }
    }
    assert Prevs(ins)[..|ins|] == Prevs(ins);
  }

  /** The first loop of get_utxos: every spend, and the outpoints spent more than once. */
  method CollectSpends(db: Db, order: seq<Hash>) returns (spends: set<OutPoint>, doubleSpends: set<OutPoint>)
    requires Enumerates(db, order)
    ensures forall p :: p in spends <==> Spent(db, p)
    ensures doubleSpends == DoubleSpends(db, order)
  {
    spends, doubleSpends := {}, {};
    for k := 0 to |order|
      invariant forall p :: p in spends <==> p in Flat(db, order[..k])
      invariant forall p :: p in doubleSpends <==> multiset(Flat(db, order[..k]))[p] >= 2
    {
      assert order[..k + 1][..k] == order[..k];
      assert Flat(db, order[..k + 1]) == Flat(db, order[..k]) + Prevs(db.rows[order[k]].tx.inputs);
      spends, doubleSpends := CollectRowSpends(db.rows[order[k]].tx.inputs, Flat(db, order[..k]),
                                               spends, doubleSpends);
    }
    assert order[..|order|] == order;
    FlatSpent(db, order);
  }

  /** The inner loop of the second loop of get_utxos, over the outputs of row t. */
  method RowUtxos(db: Db, order: seq<Hash>, ghost rank: map<Hash, nat>, extract: Extractor,
                  addresses: set<PaymentAddress>, filter: bool, spends: set<OutPoint>,
                  ds: set<OutPoint>, visited: map<Hash, bool>, t: Hash, out: seq<OutputInfo>,
                  ghost seen: seq<Hash>)
    returns (out': seq<OutputInfo>, visited': map<Hash, bool>)
    requires Ranked(db, rank) && t in db.rows && t !in seen
    requires forall p :: p in spends <==> Spent(db, p)
    requires ds == DoubleSpends(db, order) && MemoSound(db, ds, rank, visited)
    requires forall x :: x in out <==> IsUtxo(db, order, rank, extract, addresses, filter, x) && x.point.hash in seen
    requires Distinct(out)
    ensures MemoSound(db, ds, rank, visited')
    ensures forall x :: x in out' <==>
      IsUtxo(db, order, rank, extract, addresses, filter, x) && (x.point.hash in seen || x.point.hash == t)
    ensures Distinct(out')
  {
    out', visited' := out, visited;
    var outs := db.rows[t].tx.outputs;
    for i := 0 to |outs|
      invariant MemoSound(db, ds, rank, visited')
      invariant forall x :: x in out' <==>
        IsUtxo(db, order, rank, extract, addresses, filter, x)
        && (x.point.hash in seen || (x.point.hash == t && x.point.index < i))
      invariant Distinct(out')
    {
      var point := OutPoint(t, i);
      var a := extract(outs[i].script);
      if point !in spends && a.Some? && a.value in addresses {
        var ok;
        ok, visited' := Check(db, ds, rank, extract, addresses, visited', t, filter);
        if ok {
          var x := OutputInfo(point, outs[i].value);
          DistinctAppend(out', x);
          out' := out' + [x];
        }
      }
    }
  }

  /**
   * TxDatabase::get_utxos: exactly the outputs IsUtxo describes, each
   * once, walking the store in `order`.
   */
  method GetUtxos(db: Db, order: seq<Hash>, ghost rank: map<Hash, nat>, extract: Extractor,
                  addresses: set<PaymentAddress>, filter: bool)
    returns (out: seq<OutputInfo>)
    requires Enumerates(db, order) && Ranked(db, rank)
    ensures forall x :: x in out <==> IsUtxo(db, order, rank, extract, addresses, filter, x)
    ensures Distinct(out)
  {
    var spends, ds := CollectSpends(db, order);
    var visited: map<Hash, bool> := map[];
    out := [];
    for k := 0 to |order|
      invariant MemoSound(db, ds, rank, visited)
      invariant forall x :: x in out <==>
        IsUtxo(db, order, rank, extract, addresses, filter, x) && x.point.hash in order[..k]
      invariant Distinct(out)
    {
      NotInPrefix(order, k);
      out, visited := RowUtxos(db, order, rank, extract, addresses, filter, spends, ds, visited,
                               order[k], out, order[..k]);
      assert forall h :: h in order[..k + 1] <==> h in order[..k] || h == order[k];
    }
    assert order[..|order|] == order;
  }

  /** get_utxos gives the same outputs whichever way the store is walked. */
  lemma UtxosOrderFree(db: Db, o1: seq<Hash>, o2: seq<Hash>, rank: map<Hash, nat>, extract: Extractor,
                       addresses: set<PaymentAddress>, filter: bool, x: OutputInfo)
    requires Enumerates(db, o1) && Enumerates(db, o2) && Ranked(db, rank)
    ensures IsUtxo(db, o1, rank, extract, addresses, filter, x) == IsUtxo(db, o2, rank, extract, addresses, filter, x)
  {
    DoubleSpendsOrderFree(db, o1, o2);
  }
}
