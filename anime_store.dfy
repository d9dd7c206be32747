/**
 * The local `jikanRepository` table: rows keyed by `mal_id`, written with
 * `realm.create(jikanRepository, data, 'modified')` (insert, or overwrite the
 * row with the same primary key) and read back by
 * `realm.objects(jikanRepository)`.
 */
module AnimeStore {
  import opened Catalog

  /** The primary keys of the first `n` rows of a batch. */
  function Ids(xs: seq<Anime>, n: nat): set<int>
    requires n <= |xs|
  {
    set i | 0 <= i < n :: xs[i].malId
  }

  /** The table after upserting the first `n` rows of `xs` into `m`, one row at a time, first to last. */
  function Upserted(m: map<int, Anime>, xs: seq<Anime>, n: nat): map<int, Anime>
    requires n <= |xs|
  {
    if n == 0 then m else Upserted(m, xs, n - 1)[xs[n - 1].malId := xs[n - 1]]
  }

  /** The keys after an upsert batch: the old keys and the keys of the batch, no others. */
  lemma {:induction false} UpsertedKeys(m: map<int, Anime>, xs: seq<Anime>, n: nat)
    requires n <= |xs|
    ensures Upserted(m, xs, n).Keys == m.Keys + Ids(xs, n)
  {
    if n > 0 {
      UpsertedKeys(m, xs, n - 1);
      assert Ids(xs, n) == Ids(xs, n - 1) + {xs[n - 1].malId};
    }
  }

  /**
   * The rows and the key order of a table agree: each key is listed once, the
   * listed keys are exactly the table's keys, and each row sits under its own
   * `mal_id`.
   */
  ghost predicate WellKeyed(rows: map<int, Anime>, order: seq<int>)
  {
    && (forall i :: 0 <= i < |order| ==> order[i] in rows && rows[order[i]].malId == order[i])
    && (forall i, j :: 0 <= i < j < |order| ==> order[i] != order[j])
    && (forall k {:trigger rows[k]} :: k in rows ==> rows[k].malId == k && k in order)
    && |order| == |rows|
  }

  /** One upsert keeps rows and order in agreement: a new key is appended, a known key keeps its place. */
  lemma UpsertKeepsWellKeyed(rows: map<int, Anime>, order: seq<int>, e: Anime)
    requires WellKeyed(rows, order)
    ensures WellKeyed(rows[e.malId := e], if e.malId in rows then order else order + [e.malId])
  {
    var id := e.malId;
    var rows', order' := rows[id := e], if id in rows then order else order + [id];
    if id in rows {
      assert rows[id].malId == id;
    } else {
      assert |rows'| == |rows| + 1;
    }
    forall k | k in rows'
      ensures rows'[k].malId == k && k in order'
    {
      if k != id {
        assert rows[k].malId == k;
      }
    }
  }

  /** The key order after upserting the first `n` rows of `xs` into `m`: a key new to the table is appended, a known key keeps its place. */
  function UpsertedOrder(m: map<int, Anime>, order: seq<int>, xs: seq<Anime>, n: nat): seq<int>
    requires n <= |xs|
  {
    if n == 0 then order
    else
      var o := UpsertedOrder(m, order, xs, n - 1);
      var id := xs[n - 1].malId;
      if id in Upserted(m, xs, n - 1) then o else o + [id]
  }

  /** A batch of upserts keeps rows and order in agreement. */
  lemma {:induction false} UpsertedKeepsWellKeyed(m: map<int, Anime>, order: seq<int>, xs: seq<Anime>, n: nat)
    requires n <= |xs|
    requires WellKeyed(m, order)
    ensures WellKeyed(Upserted(m, xs, n), UpsertedOrder(m, order, xs, n))
  {
    if n > 0 {
      UpsertedKeepsWellKeyed(m, order, xs, n - 1);
      UpsertKeepsWellKeyed(Upserted(m, xs, n - 1), UpsertedOrder(m, order, xs, n - 1), xs[n - 1]);
    }
  }

  /** Last write wins: each key of the batch maps to the last row of the batch with that key. */
  lemma {:induction false} UpsertedLastWriteWins(m: map<int, Anime>, xs: seq<Anime>, n: nat, i: int)
    requires n <= |xs| && 0 <= i < n
    requires forall j :: i < j < n ==> xs[j].malId != xs[i].malId
    ensures xs[i].malId in Upserted(m, xs, n) && Upserted(m, xs, n)[xs[i].malId] == xs[i]
  {
    if i < n - 1 {
      UpsertedLastWriteWins(m, xs, n - 1, i);
    }
  }

  /** A key the batch does not mention keeps its row, or stays absent. */
  lemma {:induction false} UpsertedKeepsOthers(m: map<int, Anime>, xs: seq<Anime>, n: nat, k: int)
    requires n <= |xs| && k !in Ids(xs, n)
    ensures k in Upserted(m, xs, n) <==> k in m
    ensures k in m ==> Upserted(m, xs, n)[k] == m[k]
  {
    if n > 0 {
      assert xs[n - 1].malId in Ids(xs, n);
      assert Ids(xs, n - 1) <= Ids(xs, n);
      UpsertedKeepsOthers(m, xs, n - 1, k);
    }
  }

  /** The table grows by exactly the number of keys of the batch it did not hold before. */
  lemma UpsertedSize(m: map<int, Anime>, xs: seq<Anime>, n: nat)
    requires n <= |xs|
    ensures |Upserted(m, xs, n)| == |m| + |Ids(xs, n) - m.Keys|
  {
    var r := Upserted(m, xs, n);
    UpsertedKeys(m, xs, n);
    assert r.Keys == m.Keys + (Ids(xs, n) - m.Keys);
    assert m.Keys !! (Ids(xs, n) - m.Keys);
    assert |r.Keys| == |m.Keys| + |Ids(xs, n) - m.Keys|;
  }

  /** Re-saving a row under a key the table holds overwrites that row and keeps the row count. */
  lemma UpsertExistingKeepsCount(m: map<int, Anime>, e: Anime)
    requires e.malId in m
    ensures Upserted(m, [e], 1)[e.malId] == e
    ensures |Upserted(m, [e], 1)| == |m|
  {
    UpsertedLastWriteWins(m, [e], 1, 0);
    UpsertedSize(m, [e], 1);
    assert Ids([e], 1) == {e.malId};
  }

  /** A first save of one record into an empty table stores exactly that record, `episodes` included. */
  lemma FirstSaveStoresNaruto()
    ensures Upserted(map[], StoredEntries([RawAnime(1, Present("Naruto"), Present("u"), Present("s"), Present(220), map[])]), 1)
            == map[1 := Anime(1, Present("Naruto"), Present("u"), Present("s"), Present(220))]
  {
    var raw := RawAnime(1, Present("Naruto"), Present("u"), Present("s"), Present(220), map[]);
    assert StoredEntries([raw]) == [Anime(1, Present("Naruto"), Present("u"), Present("s"), Present(220))];
  }

  /** The `jikanRepository` table. */
  class Store {
    /** The rows, by primary key. */
    var rows: map<int, Anime>
    /** The primary keys in insertion order: the model lists the rows of `objects()` in this order. */
    var order: seq<int>

    ghost predicate Valid()
      reads this
    {
      WellKeyed(rows, order)
    }

    /** An empty table. */
    constructor ()
      ensures Valid() && rows == map[] && order == []
    {
      rows := map[];
      order := [];
    }

    /** `realm.objects(jikanRepository)`: every row once; the model lists the rows in insertion order. */
    function Objects(): (r: seq<Anime>)
      reads this
      requires Valid()
      ensures |r| == |rows|
      ensures forall i :: 0 <= i < |r| ==> order[i] in rows && r[i] == rows[order[i]]
      ensures forall e: Anime :: e in r <==> e.malId in rows && rows[e.malId] == e
    {
      var keys, table := order, rows;
      var r := seq(|keys|, i requires 0 <= i < |keys| && keys[i] in table => table[keys[i]]);
      assert forall e: Anime :: e.malId in rows && rows[e.malId] == e ==> e in r by {
        forall e: Anime | e.malId in rows && rows[e.malId] == e
          ensures e in r
        {
          assert e.malId in order;
          var i :| 0 <= i < |order| && order[i] == e.malId;
          assert r[i] == e;
        }
      }
      r
    }

    /** `realm.objects(jikanRepository).length`. */
    function Count(): (n: nat)
      reads this
      requires Valid()
      ensures n == |rows|
      ensures n == 0 <==> rows == map[]
    {
      |order|
    }

    /**
     * `realm.create(jikanRepository, e, 'modified')`: insert the row, or overwrite the row with its key.
     * The new state is the one `UpsertKeepsWellKeyed` proves consistent whenever the old one was.
     */
    method Create(e: Anime)
      modifies this
      ensures rows == old(rows)[e.malId := e]
      ensures order == if e.malId in old(rows) then old(order) else old(order) + [e.malId]
    {
      if e.malId !in rows {
        order := order + [e.malId];
      }
      rows := rows[e.malId := e];
    }
  }
}
