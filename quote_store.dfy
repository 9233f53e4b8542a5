/**
  The quote table behind QuotesRepo, seen as an abstract collection of quotes
  keyed by their `_id`.

  The DAO itself (QuotesDao) is not part of this model. What the repository
  relies on is stated here as an explicit assumption: `addQuotes(batch)`
  upserts the batch record by record, in list order, so a record whose id is
  already present is overwritten and the table never holds two records with
  the same id.
 */
module QuoteStore {

  /** A quote record as stored; identity is `id`. */
  datatype Quote = Quote(id: string, content: string, author: string, tags: seq<string>)

  /** The quote table: every record is filed under its own id. */
  type Store = map<string, Quote>

  ghost predicate KeyedById(s: Store) {
    forall k :: k in s ==> s[k].id == k
  }

  /** The ids of a batch. */
  function Ids(batch: seq<Quote>): set<string> {
    set q | q in batch :: q.id
  }

  ghost predicate DistinctIds(batch: seq<Quote>) {
    forall i, j :: 0 <= i < j < |batch| ==> batch[i].id != batch[j].id
  }

  /** `addQuotes(batch)`: upsert every record of the batch, first to last. */
  function Upsert(s: Store, batch: seq<Quote>): (r: Store)
    ensures forall k :: k in s ==> k in r
    ensures forall q :: q in batch ==> q.id in r
    decreases |batch|
  {
    if batch == [] then s
    else Upsert(s[batch[0].id := batch[0]], batch[1..])
  }

  /** The rows a batch alone would produce in an empty table. */
  function BatchRows(batch: seq<Quote>): Store {
    Upsert(map[], batch)
  }

  /** The table after an upsert holds exactly the old ids and the batch's ids. */
  lemma {:induction false} UpsertKeys(s: Store, batch: seq<Quote>)
    ensures Upsert(s, batch).Keys == s.Keys + Ids(batch)
    decreases |batch|
  {
    if batch != [] {
      UpsertKeys(s[batch[0].id := batch[0]], batch[1..]);
      assert batch == [batch[0]] + batch[1..];
      assert Ids(batch) == {batch[0].id} + Ids(batch[1..]);
    }
  }

  /** Upserting keeps every record filed under its own id. */
  lemma {:induction false} UpsertKeepsKeyedById(s: Store, batch: seq<Quote>)
    requires KeyedById(s)
    ensures KeyedById(Upsert(s, batch))
    decreases |batch|
  {
    if batch != [] {
      UpsertKeepsKeyedById(s[batch[0].id := batch[0]], batch[1..]);
    }
  }

  /** Every record after an upsert was already there or comes from the batch. */
  lemma {:induction false} UpsertValues(s: Store, batch: seq<Quote>)
    ensures forall k :: k in Upsert(s, batch) ==> Upsert(s, batch)[k] in s.Values || Upsert(s, batch)[k] in batch
    decreases |batch|
  {
    if batch != [] {
      var s' := s[batch[0].id := batch[0]];
      UpsertValues(s', batch[1..]);
      assert Upsert(s, batch) == Upsert(s', batch[1..]);
      forall k | k in Upsert(s, batch)
        ensures Upsert(s, batch)[k] in s.Values || Upsert(s, batch)[k] in batch
      {
        var v := Upsert(s, batch)[k];
        assert v in s'.Values || v in batch[1..];
        if v in s'.Values && v != batch[0] {
          var k' :| k' in s' && s'[k'] == v;
          assert k' in s && s[k'] == v;
        }
      }
    }
  }

  /** An upsert is the old table overridden by the rows of the batch alone. */
  lemma {:induction false} UpsertIsOverride(s: Store, batch: seq<Quote>)
    ensures Upsert(s, batch) == s + BatchRows(batch)
    decreases |batch|
  {
    if batch != [] {
      var q := batch[0];
      UpsertIsOverride(s[q.id := q], batch[1..]);
      UpsertIsOverride(map[q.id := q], batch[1..]);
      assert map[][q.id := q] == map[q.id := q];
      assert s[q.id := q] == s + map[q.id := q];
    }
  }

  /** Two batches upserted one after the other act as their concatenation. */
  lemma {:induction false} UpsertConcat(s: Store, b1: seq<Quote>, b2: seq<Quote>)
    ensures Upsert(Upsert(s, b1), b2) == Upsert(s, b1 + b2)
    decreases |b1|
  {
    if b1 != [] {
      assert (b1 + b2)[0] == b1[0];
      assert (b1 + b2)[1..] == b1[1..] + b2;
      UpsertConcat(s[b1[0].id := b1[0]], b1[1..], b2);
    } else {
      assert b1 + b2 == b2;
    }
  }

  /** Upserting the same batch twice changes nothing the second time. */
  lemma UpsertIdempotent(s: Store, batch: seq<Quote>)
    ensures Upsert(Upsert(s, batch), batch) == Upsert(s, batch)
  {
    UpsertIsOverride(s, batch);
    UpsertIsOverride(Upsert(s, batch), batch);
  }

  /** The last record of a batch is what its id maps to afterwards. */
  lemma {:induction false} UpsertLastWins(s: Store, batch: seq<Quote>)
    requires batch != []
    ensures batch[|batch| - 1].id in Upsert(s, batch)
    ensures Upsert(s, batch)[batch[|batch| - 1].id] == batch[|batch| - 1]
  {
    var init, last := batch[..|batch| - 1], batch[|batch| - 1];
    assert batch == init + [last];
    UpsertConcat(s, init, [last]);
    assert Upsert(Upsert(s, init), [last]) == Upsert(s, init)[last.id := last];
  }

  /** Re-adding a record whose id is present replaces it without growing the table. */
  lemma UpsertOverwriteKeepsSize(s: Store, q: Quote)
    requires q.id in s
    ensures |Upsert(s, [q])| == |s|
    ensures q.id in Upsert(s, [q]) && Upsert(s, [q])[q.id] == q
  {
    assert Upsert(s, [q]) == s[q.id := q];
    assert s[q.id := q].Keys == s.Keys;
  }

  /** An upsert never shrinks the table. */
  lemma UpsertGrows(s: Store, batch: seq<Quote>)
    ensures |Upsert(s, batch)| >= |s|
  {
    UpsertKeys(s, batch);
    assert s.Keys <= Upsert(s, batch).Keys;
    SubsetCard(s.Keys, Upsert(s, batch).Keys);
  }

  lemma SubsetCard<T>(a: set<T>, b: set<T>)
    requires a <= b
    ensures |a| <= |b|
  {
    assert b == a + (b - a);
  }

  /** A non-empty batch leaves the table non-empty. */
  lemma UpsertNonEmpty(s: Store, batch: seq<Quote>)
    requires batch != []
    ensures Upsert(s, batch) != map[]
  {
    UpsertKeys(s, batch);
    assert batch[0].id in Ids(batch);
    assert batch[0].id in Upsert(s, batch);
  }

  /** A batch of fresh, pairwise distinct ids grows the table by its length. */
  lemma {:induction false} UpsertFreshSize(s: Store, batch: seq<Quote>)
    requires DistinctIds(batch)
    requires forall q :: q in batch ==> q.id !in s
    ensures |Upsert(s, batch)| == |s| + |batch|
    decreases |batch|
  {
    if batch != [] {
      var q := batch[0];
      var rest := batch[1..];
      forall r | r in rest ensures r.id !in s[q.id := q] {
        var j :| 0 <= j < |rest| && rest[j] == r;
        assert batch[j + 1] == r;
      }
      UpsertFreshSize(s[q.id := q], rest);
    }
  }
}
