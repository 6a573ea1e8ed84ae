// The batch writer as the mutable object it is: its loops build each table's
// batch, and the batches do what the flush of the model does.
module BatchWriter {
  import opened BatchProtocol

  // A batch handed to one table's upsert: the table's buffered items, each
  // once, no two for the same row.
  ghost predicate IsBatch(items: seq<Item>, buffers: map<string, Item>, keys: set<string>, table: string) {
    && DistinctRows(items)
    && (forall i :: 0 <= i < |items| ==>
          exists k :: k in keys && k in buffers && TableName(buffers[k]) == table && buffers[k] == items[i])
    && (forall k :: k in keys && k in buffers && TableName(buffers[k]) == table ==> buffers[k] in items)
  }

  lemma BatchItem(items: seq<Item>, buffers: map<string, Item>, keys: set<string>, table: string, i: nat)
    returns (k: string)
    requires IsBatch(items, buffers, keys, table) && i < |items|
    ensures k in keys && k in buffers && TableName(buffers[k]) == table && buffers[k] == items[i]
  {
    var item := items[i];
    k :| k in keys && k in buffers && TableName(buffers[k]) == table && buffers[k] == item;
  }

  lemma BatchSnoc(items: seq<Item>, buffers: map<string, Item>, keys: set<string>, table: string, k: string)
    requires Filed(buffers) && keys <= buffers.Keys && k in buffers && k !in keys
    requires IsBatch(items, buffers, keys, table)
    ensures TableName(buffers[k]) == table ==> IsBatch(items + [buffers[k]], buffers, keys + {k}, table)
    ensures TableName(buffers[k]) != table ==> IsBatch(items, buffers, keys + {k}, table)
  {
    if TableName(buffers[k]) == table {
      OtherRows(items, buffers, keys, table, k);
      var all, more := items + [buffers[k]], keys + {k};
      forall i | 0 <= i < |all|
        ensures exists l :: l in more && l in buffers && TableName(buffers[l]) == table && buffers[l] == all[i]
      {
        var l := k;
        if i < |items| {
          l := BatchItem(items, buffers, keys, table, i);
        }
        assert l in more && buffers[l] == all[i];
      }
      assert all[|items|] == buffers[k];
    } else {
      forall i | 0 <= i < |items|
        ensures exists l :: l in keys + {k} && l in buffers && TableName(buffers[l]) == table && buffers[l] == items[i]
      {
        var l := BatchItem(items, buffers, keys, table, i);
        assert l in keys + {k};
      }
    }
  }

  // A further buffered item is of another row than those of the batch.
  lemma OtherRows(items: seq<Item>, buffers: map<string, Item>, keys: set<string>, table: string, k: string)
    requires Filed(buffers) && keys <= buffers.Keys && k in buffers && k !in keys
    requires IsBatch(items, buffers, keys, table)
    ensures DistinctRows(items + [buffers[k]])
  {
    var all := items + [buffers[k]];
    forall i, j | 0 <= i < j < |all| ensures RowOf(all[i]) != RowOf(all[j]) {
      if j == |items| {
        var l := BatchItem(items, buffers, keys, table, i);
        KeyOfItem(buffers[l]);
        KeyOfItem(buffers[k]);
      }
    }
  }

  lemma UpsertIsRegular(db: Table, items: seq<Item>, buffers: map<string, Item>, table: string)
    requires Filed(buffers) && IsBatch(items, buffers, buffers.Keys, table)
    requires forall row :: row in db ==> Regular(row)
    ensures forall row :: row in Upsert(db, items) ==> Regular(row)
  {
    UpsertKeys(db, items);
    forall i | 0 <= i < |items| ensures Regular(RowOf(items[i])) {
      var k := BatchItem(items, buffers, buffers.Keys, table, i);
      assert WellFormed(buffers[k]);
    }
  }

  lemma BatchWrites(db: Table, items: seq<Item>, buffers: map<string, Item>, table: string)
    requires Filed(buffers) && IsBatch(items, buffers, buffers.Keys, table)
    requires forall row :: row in db ==> Regular(row)
    ensures Upsert(db, items) == Written(db, buffers, {table})
  {
    WrittenIsRegular(db, buffers, {table});
    UpsertIsRegular(db, items, buffers, table);
    forall row | Regular(row) ensures Same(Upsert(db, items), Written(db, buffers, {table}), row) {
      BatchWritesRow(db, items, buffers, table, row);
    }
    SameEverywhere(Upsert(db, items), Written(db, buffers, {table}));
  }

  lemma BatchWritesRow(db: Table, items: seq<Item>, buffers: map<string, Item>, table: string, row: Row)
    requires Filed(buffers) && IsBatch(items, buffers, buffers.Keys, table) && Regular(row)
    ensures Same(Upsert(db, items), Written(db, buffers, {table}), row)
  {
    UpsertKeys(db, items);
    UpsertDistinct(db, items);
    WrittenAt(db, buffers, {table}, row);
    BatchFinds(items, buffers, table, row);
    if RowKey(row) in buffers && TableName(buffers[RowKey(row)]) == table {
      var i :| 0 <= i < |items| && RowOf(items[i]) == row;
      assert Upsert(db, items)[RowOf(items[i])] == items[i];
    }
  }

  lemma BatchFinds(items: seq<Item>, buffers: map<string, Item>, table: string, row: Row)
    requires Filed(buffers) && IsBatch(items, buffers, buffers.Keys, table) && Regular(row)
    ensures (exists i :: 0 <= i < |items| && RowOf(items[i]) == row) <==>
            RowKey(row) in buffers && TableName(buffers[RowKey(row)]) == table
    ensures forall i :: 0 <= i < |items| && RowOf(items[i]) == row ==>
              RowKey(row) in buffers && buffers[RowKey(row)] == items[i]
  {
    forall i | 0 <= i < |items| && RowOf(items[i]) == row
      ensures RowKey(row) in buffers && buffers[RowKey(row)] == items[i] && TableName(items[i]) == table
    {
      var k := BatchItem(items, buffers, buffers.Keys, table, i);
      KeyOfItem(buffers[k]);
    }
    if RowKey(row) in buffers && TableName(buffers[RowKey(row)]) == table {
      var item := buffers[RowKey(row)];
      KeyOfItem(item);
      RowKeyInjective(RowOf(item), row);
      var i :| 0 <= i < |items| && items[i] == item;
    }
  }

  lemma WrittenTwice(db: Table, buffers: map<string, Item>, a: set<string>, b: set<string>)
    requires Filed(buffers) && forall row :: row in db ==> Regular(row)
    ensures Written(Written(db, buffers, a), buffers, b) == Written(db, buffers, a + b)
  {
    WrittenIsRegular(db, buffers, a);
    WrittenIsRegular(Written(db, buffers, a), buffers, b);
    WrittenIsRegular(db, buffers, a + b);
    var t, u := Written(Written(db, buffers, a), buffers, b), Written(db, buffers, a + b);
    forall row | Regular(row) ensures row in t <==> row in u ensures row in t && row in u ==> t[row] == u[row] {
      WrittenAt(db, buffers, a, row);
      WrittenAt(Written(db, buffers, a), buffers, b, row);
      WrittenAt(db, buffers, a + b, row);
    }
  }

  // One table's upsert, which succeeds unless the table is among the failed.
  lemma TableWritten(db: Table, items: seq<Item>, buffers: map<string, Item>, table: string, failed: set<string>)
    requires Filed(buffers) && IsBatch(items, buffers, buffers.Keys, table)
    requires forall row :: row in db ==> Regular(row)
    ensures var t := Written(db, buffers, {table} - failed);
            && (if table in failed then db else Upsert(db, items)) == t
            && forall row :: row in t ==> Regular(row)
  {
    WrittenIsRegular(db, buffers, {table} - failed);
    if table in failed {
      assert {table} - failed == {};
      assert BufferedRows(buffers, {}) == {};
    } else {
      assert {table} - failed == {table};
      BatchWrites(db, items, buffers, table);
    }
  }

  lemma BothTables(db: Table, buffers: map<string, Item>, failed: set<string>)
    requires Filed(buffers) && forall row :: row in db ==> Regular(row)
    ensures Written(Written(db, buffers, {POSITIONS} - failed), buffers, {ORDERS} - failed) ==
            Written(db, buffers, ALL_TABLES - failed)
  {
    WrittenTwice(db, buffers, {POSITIONS} - failed, {ORDERS} - failed);
    assert ({POSITIONS} - failed) + ({ORDERS} - failed) == ALL_TABLES - failed;
  }

  lemma KeptAfter(buffers: map<string, Item>, keys: set<string>)
    requires keys == (set k | k in buffers && TableName(buffers[k]) in [POSITIONS, ORDERS])
    ensures buffers - keys == Kept(buffers, ALL_TABLES)
    ensures Filed(buffers) ==> Filed(buffers - keys)
  {
  }

  class Batcher {
    const batchSize: nat
    const maxQueue: nat
    var queue: seq<Item>
    var buffers: map<string, Item>
    var db: Table
    ghost var accepted: seq<Item>

    constructor (batchSize: nat, maxQueue: nat, db: Table)
      ensures View() == Start(db) && this.batchSize == batchSize && this.maxQueue == maxQueue
    {
      this.batchSize := batchSize;
      this.maxQueue := maxQueue;
      queue, buffers, this.db, accepted := [], map[], db, [];
    }

    ghost function View(): Writer
      reads this
    {
      Writer(queue, buffers, db, accepted)
    }

    // False when the queue is full.
    method Add(item: Item) returns (ok: bool)
      modifies this
      ensures View() == BatchProtocol.Step(old(View()), Event.Add(item), batchSize, maxQueue)
      ensures ok <==> |old(queue)| < maxQueue
    {
      ok := |queue| < maxQueue;
      if ok {
        queue := queue + [item];
        accepted := accepted + [item];
      }
    }

    // The items of each wanted table, in the order the map yields them.
    method Collect(tables: seq<string>) returns (grouped: map<string, seq<Item>>, keysToDelete: set<string>)
      requires Sound(View())
      ensures grouped.Keys == (set t | t in tables)
      ensures forall t :: t in tables ==> IsBatch(grouped[t], buffers, buffers.Keys, t)
      ensures keysToDelete == (set k | k in buffers && TableName(buffers[k]) in tables)
    {
      grouped := map t | t in tables :: [];
      keysToDelete := {};
      var keys := buffers.Keys;
      ghost var done := {};
      while keys != {}
        invariant keys !! done && keys + done == buffers.Keys
        invariant grouped.Keys == (set t | t in tables)
        invariant forall t :: t in tables ==> IsBatch(grouped[t], buffers, done, t)
        invariant keysToDelete == (set k | k in done && TableName(buffers[k]) in tables)
        decreases keys
      {
        var key :| key in keys;
        keys := keys - {key};
        var item := buffers[key];
        var table := TableName(item);
        forall t | t in tables {
          BatchSnoc(grouped[t], buffers, done, t, key);
        }
        done := done + {key};
        if table in tables {
          grouped := grouped[table := grouped[table] + [item]];
          keysToDelete := keysToDelete + {key};
        }
      }
    }

    method BatchUpsert(items: seq<Item>, fails: bool)
      modifies this`db
      ensures db == if fails then old(db) else Upsert(old(db), items)
    {
      if !fails {
        for i := 0 to |items|
          invariant db == Upsert(old(db), items[..i])
        {
          UpsertSnoc(old(db), items[..i], items[i]);
          assert items[..i + 1] == items[..i] + [items[i]];
          db := db[RowOf(items[i]) := items[i]];
        }
        assert items[..|items|] == items;
      }
    }

    method FlushAll(failed: set<string>)
      requires Sound(View())
      modifies this`db, this`buffers
      ensures View() == BatchProtocol.FlushAll(old(View()), failed)
      ensures Sound(View())
    {
      var grouped, keysToDelete := Collect([POSITIONS, ORDERS]);
      TableWritten(db, grouped[POSITIONS], buffers, POSITIONS, failed);
      BatchUpsert(grouped[POSITIONS], POSITIONS in failed);
      TableWritten(db, grouped[ORDERS], buffers, ORDERS, failed);
      BatchUpsert(grouped[ORDERS], ORDERS in failed);
      BothTables(old(db), buffers, failed);
      KeptAfter(buffers, keysToDelete);
      buffers := buffers - keysToDelete;
    }

    // One turn of the receive loop.
    method Receive(failed: set<string>)
      requires Sound(View()) && queue != []
      modifies this
      ensures View() == BatchProtocol.Receive(old(View()), batchSize, failed)
      ensures Sound(View())
    {
      StoreKeepsOverlay(View());
      TakeOne();
      if |buffers| >= batchSize {
        FlushAll(failed);
      }
    }

    method TakeOne()
      requires queue != []
      modifies this`queue, this`buffers
      ensures View() == Store(old(View()))
    {
      var item := queue[0];
      queue := queue[1..];
      buffers := buffers[DedupKey(item) := item];
    }

    method Stop()
      requires Sound(View())
      modifies this
      ensures View() == BatchProtocol.Stop(old(View()))
    {
      while queue != []
        invariant Sound(View()) && Drain(View()) == Drain(old(View()))
        decreases |queue|
      {
        StoreKeepsOverlay(View());
        TakeOne();
      }
      FlushAll({});
    }
  }
}
