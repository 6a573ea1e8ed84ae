// The batch writer: a queue, a buffer that keeps one item per dedup key, and
// flushes of the whole buffer, must together be nothing but sequential upserts.
module BatchProtocol {
  import opened Decimal
  import opened Keys
  import OrderProtocol

  datatype Position = Position(address: string, data: string)

  datatype Item =
    | PositionCacheItem(address: string, cache: Position)
    | OrderAggregationItem(agg: OrderProtocol.Aggregation)

  // What the table's unique index compares.
  datatype Row =
    | PositionRow(address: string)
    | OrderRow(oid: int, address: string, direction: string)

  const POSITIONS := "hl_position_cache"
  const ORDERS := "hl_order_aggregation"

  function TableName(item: Item): string {
    if item.PositionCacheItem? then POSITIONS else ORDERS
  }

  function RowOf(item: Item): Row {
    match item
    case PositionCacheItem(_, cache) => PositionRow(cache.address)
    case OrderAggregationItem(agg) => OrderRow(agg.oid, agg.address, agg.direction)
  }

  function OrderDedupKey(oid: int, address: string, direction: string): string {
    "oa:" + FormatInt(oid) + ":" + address + ":" + direction
  }

  function DedupKey(item: Item): string {
    match item
    case PositionCacheItem(address, _) => "pc:" + address
    case OrderAggregationItem(agg) => OrderDedupKey(agg.oid, agg.address, agg.direction)
  }

  function RowKey(row: Row): string {
    match row
    case PositionRow(address) => "pc:" + address
    case OrderRow(oid, address, direction) => OrderDedupKey(oid, address, direction)
  }

  predicate Regular(row: Row) {
    row.OrderRow? ==> Free(row.address, ':')
  }

  // A position item carries its own address.
  predicate WellFormed(item: Item) {
    Regular(RowOf(item)) && (item.PositionCacheItem? ==> item.cache.address == item.address)
  }

  lemma KeyOfItem(item: Item)
    requires WellFormed(item)
    ensures DedupKey(item) == RowKey(RowOf(item))
  {
  }

  lemma OrderDedupKeyShape(o: int, a: string, d: string)
    ensures OrderDedupKey(o, a, d) == "oa:" + (FormatInt(o) + [':'] + (a + [':'] + d))
  {
  }

  lemma OrderDedupKeyInjective(o: int, a: string, d: string, p: int, b: string, e: string)
    requires Free(a, ':') && Free(b, ':') && OrderDedupKey(o, a, d) == OrderDedupKey(p, b, e)
    ensures o == p && a == b && d == e
  {
    var x, y := a + [':'] + d, b + [':'] + e;
    OrderDedupKeyShape(o, a, d);
    OrderDedupKeyShape(p, b, e);
    SameSuffix("oa:", FormatInt(o) + [':'] + x, FormatInt(p) + [':'] + y);
    SplitAfterInt(o, x, p, y, ':');
    SplitAtFirst(a, d, b, e, ':');
  }

  lemma SameSuffix(prefix: string, x: string, y: string)
    requires prefix + x == prefix + y
    ensures x == y
  {
    assert (prefix + x)[|prefix|..] == x && (prefix + y)[|prefix|..] == y;
  }

  lemma OrderKeysStartWithO(o: int, a: string, d: string)
    ensures OrderDedupKey(o, a, d) != [] && OrderDedupKey(o, a, d)[0] == 'o'
  {
  }

  // Equal dedup keys mean the same row: no item displaces another row's item.
  lemma RowKeyInjective(r: Row, q: Row)
    requires Regular(r) && Regular(q) && RowKey(r) == RowKey(q)
    ensures r == q
  {
    match (r, q)
    case (PositionRow(a), PositionRow(b)) => SameSuffix("pc:", a, b);
    case (OrderRow(o, a, d), OrderRow(p, b, e)) => OrderDedupKeyInjective(o, a, d, p, b, e);
    case (PositionRow(a), OrderRow(o, b, d)) => OrderKeysStartWithO(o, b, d);
    case (OrderRow(o, a, d), PositionRow(b)) => OrderKeysStartWithO(o, a, d);
  }

  // For directions without ':' the address may be anything.
  lemma OrderDedupKeyInjectiveOnDirections(o: int, a: string, d: string, p: int, b: string, e: string)
    requires Free(d, ':') && Free(e, ':') && OrderDedupKey(o, a, d) == OrderDedupKey(p, b, e)
    ensures o == p && a == b && d == e
  {
    OrderDedupKeyShape(o, a, d);
    OrderDedupKeyShape(p, b, e);
    var x, y := a + [':'] + d, b + [':'] + e;
    SameSuffix("oa:", FormatInt(o) + [':'] + x, FormatInt(p) + [':'] + y);
    SplitAfterInt(o, x, p, y, ':');
    SplitAtLast(a, d, b, e, ':');
  }

  // With a ':' in one row's address and in the other's direction they collide.
  lemma ColonAddressesCollide()
    ensures OrderDedupKey(1, "a", "b:c") == OrderDedupKey(1, "a:b", "c")
  {
    assert OrderDedupKey(1, "a", "b:c") == "oa:" + FormatInt(1) + ":a:b:c";
    assert OrderDedupKey(1, "a:b", "c") == "oa:" + FormatInt(1) + ":a:b:c";
  }

  // ----- Sequential upserts: the reference -----

  type Table = map<Row, Item>

  function Upsert(db: Table, items: seq<Item>): Table {
    if items == [] then db
    else Upsert(db, items[..|items| - 1])[RowOf(items[|items| - 1]) := items[|items| - 1]]
  }

  predicate DistinctRows(items: seq<Item>) {
    forall i, j :: 0 <= i < j < |items| ==> RowOf(items[i]) != RowOf(items[j])
  }

  lemma {:induction false} UpsertKeys(db: Table, items: seq<Item>)
    ensures forall row :: row in Upsert(db, items) <==>
              row in db || exists i :: 0 <= i < |items| && RowOf(items[i]) == row
    ensures forall row :: row in db && (forall i :: 0 <= i < |items| ==> RowOf(items[i]) != row) ==>
              Upsert(db, items)[row] == db[row]
  {
    if items != [] {
      var front := items[..|items| - 1];
      UpsertKeys(db, front);
      assert forall i :: 0 <= i < |front| ==> front[i] == items[i];
    }
  }

  // With pairwise distinct rows every item lands, whatever the order.
  lemma {:induction false} UpsertDistinct(db: Table, items: seq<Item>)
    requires DistinctRows(items)
    ensures forall i :: 0 <= i < |items| ==>
              RowOf(items[i]) in Upsert(db, items) && Upsert(db, items)[RowOf(items[i])] == items[i]
  {
    if items != [] {
      var front := items[..|items| - 1];
      UpsertDistinct(db, front);
      forall i | 0 <= i < |items|
        ensures RowOf(items[i]) in Upsert(db, items) && Upsert(db, items)[RowOf(items[i])] == items[i]
      {
        if i < |front| {
          assert front[i] == items[i];
        }
      }
    }
  }

  // ----- The writer's state -----

  datatype Writer = Writer(queue: seq<Item>, buffers: map<string, Item>, db: Table, accepted: seq<Item>)

  predicate Filed(buffers: map<string, Item>) {
    forall k :: k in buffers ==> DedupKey(buffers[k]) == k && WellFormed(buffers[k])
  }

  predicate AllWellFormed(items: seq<Item>) {
    forall i :: 0 <= i < |items| ==> WellFormed(items[i])
  }

  function BufferedRows(buffers: map<string, Item>, tables: set<string>): set<Row> {
    set k | k in buffers && TableName(buffers[k]) in tables :: RowOf(buffers[k])
  }

  // The tables with every buffered item of the named tables written.
  function Written(db: Table, buffers: map<string, Item>, tables: set<string>): Table {
    db + (map row | row in BufferedRows(buffers, tables) && RowKey(row) in buffers :: buffers[RowKey(row)])
  }

  function Kept(buffers: map<string, Item>, tables: set<string>): map<string, Item> {
    map k | k in buffers && TableName(buffers[k]) !in tables :: buffers[k]
  }

  const ALL_TABLES: set<string> := {POSITIONS, ORDERS}

  // flushAll, with the upserts of some tables failing: their items go too.
  function FlushAll(w: Writer, failed: set<string>): Writer {
    w.(db := Written(w.db, w.buffers, ALL_TABLES - failed), buffers := Kept(w.buffers, ALL_TABLES))
  }

  function Store(w: Writer): Writer
    requires w.queue != []
  {
    w.(queue := w.queue[1..], buffers := w.buffers[DedupKey(w.queue[0]) := w.queue[0]])
  }

  // One received item; a full buffer is flushed, and the upserts of some tables may fail.
  function Receive(w: Writer, batchSize: nat, failed: set<string>): Writer
    requires w.queue != []
  {
    var w1 := Store(w);
    if |w1.buffers| >= batchSize then FlushAll(w1, failed) else w1
  }

  function Drain(w: Writer): Writer
    decreases |w.queue|
  {
    if w.queue == [] then w else Drain(Store(w))
  }

  // failed: the tables whose upserts fail in the flush of this event, if it has one.
  datatype Event = Add(item: Item) | ReceiveOne(failed: set<string>) | FlushTick(failed: set<string>)

  function Step(w: Writer, e: Event, batchSize: nat, maxQueue: nat): Writer {
    match e
    case Add(item) =>
      if |w.queue| < maxQueue then w.(queue := w.queue + [item], accepted := w.accepted + [item]) else w
    case ReceiveOne(failed) => if w.queue == [] then w else Receive(w, batchSize, failed)
    case FlushTick(failed) => FlushAll(w, failed)
  }

  function Run(w: Writer, es: seq<Event>, batchSize: nat, maxQueue: nat): Writer {
    if es == [] then w
    else Step(Run(w, es[..|es| - 1], batchSize, maxQueue), es[|es| - 1], batchSize, maxQueue)
  }

  function Stop(w: Writer): Writer {
    FlushAll(Drain(w), {})
  }

  // ----- Refinement -----

  predicate Sound(w: Writer) {
    Filed(w.buffers) && AllWellFormed(w.queue) && (forall row :: row in w.db ==> Regular(row))
  }

  // Database overlaid by buffer overlaid by queue.
  function Overlay(w: Writer): Table {
    Upsert(Written(w.db, w.buffers, ALL_TABLES), w.queue)
  }

  lemma TableIsKnown(item: Item)
    ensures TableName(item) in ALL_TABLES
  {
  }

  // What a lookup in the overlay of database and buffer finds.
  lemma WrittenAt(db: Table, buffers: map<string, Item>, tables: set<string>, row: Row)
    requires Filed(buffers) && Regular(row)
    ensures var t := Written(db, buffers, tables);
            if RowKey(row) in buffers && TableName(buffers[RowKey(row)]) in tables
            then row in t && t[row] == buffers[RowKey(row)]
            else (row in t <==> row in db) && (row in db ==> t[row] == db[row])
  {
    if row in BufferedRows(buffers, tables) {
      var k :| k in buffers && TableName(buffers[k]) in tables && RowOf(buffers[k]) == row;
      KeyOfItem(buffers[k]);
    }
    if RowKey(row) in buffers && TableName(buffers[RowKey(row)]) in tables {
      var item := buffers[RowKey(row)];
      KeyOfItem(item);
      RowKeyInjective(RowOf(item), row);
    }
  }

  lemma WrittenIsRegular(db: Table, buffers: map<string, Item>, tables: set<string>)
    requires Filed(buffers) && forall row :: row in db ==> Regular(row)
    ensures forall row :: row in Written(db, buffers, tables) ==> Regular(row)
  {
    forall row | row in Written(db, buffers, tables) ensures Regular(row) {
      if row in BufferedRows(buffers, tables) {
        var k :| k in buffers && RowOf(buffers[k]) == row;
        assert WellFormed(buffers[k]);
      }
    }
  }

  // Filing an item in the buffer is an upsert on the overlay.
  lemma StoreWrites(db: Table, buffers: map<string, Item>, item: Item, tables: set<string>)
    requires Filed(buffers) && WellFormed(item) && TableName(item) in tables
    requires forall row :: row in db ==> Regular(row)
    requires forall k :: k in buffers ==> TableName(buffers[k]) in tables
    ensures Written(db, buffers[DedupKey(item) := item], tables) ==
            Written(db, buffers, tables)[RowOf(item) := item]
  {
    var more := buffers[DedupKey(item) := item];
    var t, u := Written(db, buffers, tables)[RowOf(item) := item], Written(db, more, tables);
    KeyOfItem(item);
    WrittenIsRegular(db, buffers, tables);
    WrittenIsRegular(db, more, tables);
    forall row | Regular(row) ensures Same(t, u, row) {
      StoreWritesAt(db, buffers, item, tables, row);
    }
    SameEverywhere(t, u);
  }

  lemma StoreWritesAt(db: Table, buffers: map<string, Item>, item: Item, tables: set<string>, row: Row)
    requires Filed(buffers) && WellFormed(item) && TableName(item) in tables && Regular(row)
    ensures Same(Written(db, buffers, tables)[RowOf(item) := item],
                 Written(db, buffers[DedupKey(item) := item], tables), row)
  {
    KeyOfItem(item);
    WrittenAt(db, buffers, tables, row);
    WrittenAt(db, buffers[DedupKey(item) := item], tables, row);
    if RowKey(row) == RowKey(RowOf(item)) {
      RowKeyInjective(row, RowOf(item));
    }
  }

  lemma AllKnown(buffers: map<string, Item>)
    ensures forall k :: k in buffers ==> TableName(buffers[k]) in ALL_TABLES
  {
    forall k | k in buffers ensures TableName(buffers[k]) in ALL_TABLES {
      TableIsKnown(buffers[k]);
    }
  }

  lemma StoreOverlays(w: Writer)
    requires Sound(w) && w.queue != []
    ensures Written(w.db, Store(w).buffers, ALL_TABLES) ==
            Written(w.db, w.buffers, ALL_TABLES)[RowOf(w.queue[0]) := w.queue[0]]
    ensures Sound(Store(w))
  {
    TableIsKnown(w.queue[0]);
    AllKnown(w.buffers);
    StoreWrites(w.db, w.buffers, w.queue[0], ALL_TABLES);
  }

  lemma NothingToWrite(db: Table, tables: set<string>)
    ensures Written(db, map[], tables) == db
  {
    assert BufferedRows(map[], tables) == {};
  }

  lemma NothingKept(buffers: map<string, Item>, tables: set<string>)
    requires forall k :: k in buffers ==> TableName(buffers[k]) in tables
    ensures Kept(buffers, tables) == map[]
  {
  }

  lemma {:induction false} UpsertHead(db: Table, items: seq<Item>)
    requires items != []
    ensures Upsert(db, items) == Upsert(db[RowOf(items[0]) := items[0]], items[1..])
  {
    if |items| > 1 {
      var front := items[..|items| - 1];
      UpsertHead(db, front);
      assert items[1..][..|items[1..]| - 1] == front[1..];
    } else {
      assert items[..0] == [] && items[1..] == [];
    }
  }

  lemma StoreKeepsOverlay(w: Writer)
    requires Sound(w) && w.queue != []
    ensures Overlay(Store(w)) == Overlay(w) && Sound(Store(w))
  {
    StoreOverlays(w);
    UpsertHead(Written(w.db, w.buffers, ALL_TABLES), w.queue);
  }

  lemma FlushKeepsOverlay(w: Writer)
    requires Sound(w)
    ensures Overlay(FlushAll(w, {})) == Overlay(w) && Sound(FlushAll(w, {}))
    ensures FlushAll(w, {}).buffers == map[]
    ensures FlushAll(w, {}).db == Written(w.db, w.buffers, ALL_TABLES)
  {
    AllKnown(w.buffers);
    NothingKept(w.buffers, ALL_TABLES);
    NoneMissing(ALL_TABLES);
    WrittenIsRegular(w.db, w.buffers, ALL_TABLES);
    NothingToWrite(Written(w.db, w.buffers, ALL_TABLES), ALL_TABLES);
  }

  lemma NoneMissing(tables: set<string>)
    ensures tables - {} == tables
  {
  }

  lemma UpsertSnoc(db: Table, items: seq<Item>, item: Item)
    ensures Upsert(db, items + [item]) == Upsert(db, items)[RowOf(item) := item]
  {
    assert (items + [item])[..|items|] == items;
  }

  lemma AddOverlays(w: Writer, item: Item)
    requires Sound(w) && WellFormed(item)
    ensures var v := w.(queue := w.queue + [item], accepted := w.accepted + [item]);
            Sound(v) && Overlay(v) == Overlay(w)[RowOf(item) := item]
  {
    UpsertSnoc(Written(w.db, w.buffers, ALL_TABLES), w.queue, item);
  }

  function Start(db: Table): Writer {
    Writer([], map[], db, [])
  }

  // ----- Flushes that fail -----

  predicate Requeued(queue: seq<Item>, row: Row) {
    exists i :: 0 <= i < |queue| && RowOf(queue[i]) == row
  }

  predicate Has(db: Table, item: Item) {
    RowOf(item) in db && db[RowOf(item)] == item
  }

  // The rows that a flush with failing tables loses: buffered there, not in the
  // database in that very form, and not about to be replaced from the queue.
  function Losses(w: Writer, failed: set<string>): set<Row> {
    set k | k in w.buffers && TableName(w.buffers[k]) in failed && !Has(w.db, w.buffers[k]) &&
            !Requeued(w.queue, RowOf(w.buffers[k])) :: RowOf(w.buffers[k])
  }

  // A table that fails loses rows of its own kind only.
  lemma FailureStaysInItsTable(w: Writer, failed: set<string>, row: Row)
    requires row in Losses(w, failed)
    ensures row.PositionRow? ==> "hl_position_cache" in failed
    ensures row.OrderRow? ==> "hl_order_aggregation" in failed
  {
  }

  // Two tables that hold the same under one row.
  predicate Same(t: Table, u: Table, row: Row) {
    (row in t <==> row in u) && (row in t ==> t[row] == u[row])
  }

  lemma {:induction false} UpsertSame(t: Table, u: Table, items: seq<Item>, row: Row)
    ensures Same(Upsert(t, items), Upsert(u, items), row) <==> Same(t, u, row) || Requeued(items, row)
  {
    if items != [] {
      var front, last := items[..|items| - 1], items[|items| - 1];
      UpsertSame(t, u, front, row);
      RequeuedSnoc(front, last, row);
      assert items == front + [last];
    }
  }

  lemma RequeuedSnoc(queue: seq<Item>, item: Item, row: Row)
    ensures Requeued(queue + [item], row) <==> Requeued(queue, row) || RowOf(item) == row
  {
    var all := queue + [item];
    assert all[|queue|] == item;
    if Requeued(queue, row) {
      var i :| 0 <= i < |queue| && RowOf(queue[i]) == row;
      assert all[i] == queue[i];
    }
  }

  // Where a flush with failing tables leaves the database as a full one would.
  lemma WriteFailure(db: Table, buffers: map<string, Item>, tables: set<string>, failed: set<string>, row: Row)
    requires Filed(buffers) && Regular(row)
    requires forall k :: k in buffers ==> TableName(buffers[k]) in tables
    ensures Same(Written(db, buffers, tables - failed), Written(db, buffers, tables), row) <==>
            !(RowKey(row) in buffers && TableName(buffers[RowKey(row)]) in failed && !Has(db, buffers[RowKey(row)]))
  {
    WrittenAt(db, buffers, tables - failed, row);
    WrittenAt(db, buffers, tables, row);
    if RowKey(row) in buffers {
      KeyOfItem(buffers[RowKey(row)]);
      RowKeyInjective(RowOf(buffers[RowKey(row)]), row);
    }
  }

  lemma LossAt(w: Writer, failed: set<string>, row: Row)
    requires Filed(w.buffers) && Regular(row)
    ensures row in Losses(w, failed) <==>
            RowKey(row) in w.buffers && TableName(w.buffers[RowKey(row)]) in failed &&
            !Has(w.db, w.buffers[RowKey(row)]) && !Requeued(w.queue, row)
  {
    if row in Losses(w, failed) {
      var k :| k in w.buffers && TableName(w.buffers[k]) in failed && !Has(w.db, w.buffers[k]) &&
               !Requeued(w.queue, RowOf(w.buffers[k])) && RowOf(w.buffers[k]) == row;
      KeyOfItem(w.buffers[k]);
    }
    if RowKey(row) in w.buffers {
      KeyOfItem(w.buffers[RowKey(row)]);
      RowKeyInjective(RowOf(w.buffers[RowKey(row)]), row);
    }
  }

  // A flush, failing or not, changes the overlay at exactly the rows it loses.
  lemma FlushOverlay(w: Writer, failed: set<string>, row: Row)
    requires Sound(w) && Regular(row)
    ensures Same(Overlay(FlushAll(w, failed)), Overlay(w), row) <==> row !in Losses(w, failed)
  {
    var t, u := Written(w.db, w.buffers, ALL_TABLES - failed), Written(w.db, w.buffers, ALL_TABLES);
    FlushLeaves(w, failed);
    AllKnown(w.buffers);
    WriteFailure(w.db, w.buffers, ALL_TABLES, failed, row);
    UpsertSame(t, u, w.queue, row);
    LossAt(w, failed, row);
  }

  lemma FlushLeaves(w: Writer, failed: set<string>)
    requires Sound(w)
    ensures FlushAll(w, failed).buffers == map[] && Sound(FlushAll(w, failed))
    ensures Overlay(FlushAll(w, failed)) == Upsert(Written(w.db, w.buffers, ALL_TABLES - failed), w.queue)
  {
    AllKnown(w.buffers);
    NothingKept(w.buffers, ALL_TABLES);
    WrittenIsRegular(w.db, w.buffers, ALL_TABLES - failed);
    NothingToWrite(Written(w.db, w.buffers, ALL_TABLES - failed), ALL_TABLES);
  }

  lemma {:induction false} UpsertIsRegular(db: Table, items: seq<Item>)
    requires AllWellFormed(items) && forall row :: row in db ==> Regular(row)
    ensures forall row :: row in Upsert(db, items) ==> Regular(row)
  {
    if items != [] {
      UpsertIsRegular(db, items[..|items| - 1]);
      assert WellFormed(items[|items| - 1]);
    }
  }

  lemma OverlayIsRegular(w: Writer)
    requires Sound(w)
    ensures forall row :: row in Overlay(w) ==> Regular(row)
  {
    WrittenIsRegular(w.db, w.buffers, ALL_TABLES);
    UpsertIsRegular(Written(w.db, w.buffers, ALL_TABLES), w.queue);
  }

  // A failed flush deletes its items all the same.  Nothing is lost exactly
  // when each item of a failed table is in the database already or is going to
  // be replaced from the queue.
  lemma FailedFlush(w: Writer, failed: set<string>)
    requires Sound(w)
    ensures Overlay(FlushAll(w, failed)) == Overlay(w) <==>
            forall k :: k in w.buffers && TableName(w.buffers[k]) in failed ==>
              Has(w.db, w.buffers[k]) || Requeued(w.queue, RowOf(w.buffers[k]))
  {
    var t, u := Overlay(FlushAll(w, failed)), Overlay(w);
    FlushLeaves(w, failed);
    OverlayIsRegular(w);
    OverlayIsRegular(FlushAll(w, failed));
    forall row | Regular(row) ensures Same(t, u, row) <==> row !in Losses(w, failed) {
      FlushOverlay(w, failed, row);
    }
    SameEverywhere(t, u);
    forall k | k in w.buffers ensures Regular(RowOf(w.buffers[k])) {
      assert WellFormed(w.buffers[k]);
    }
  }

  lemma SameEverywhere(t: Table, u: Table)
    requires forall row :: row in t || row in u ==> Regular(row)
    ensures t == u <==> forall row | Regular(row) :: Same(t, u, row)
  {
    if forall row | Regular(row) :: Same(t, u, row) {
      assert forall row | row in t || row in u :: Same(t, u, row);
    }
  }

  // ----- Runs -----

  // The rows that flushes have lost and that no later item has replaced.
  function Lost(w: Writer, es: seq<Event>, batchSize: nat, maxQueue: nat): set<Row> {
    if es == [] then {}
    else
      var mid := Run(w, es[..|es| - 1], batchSize, maxQueue);
      LostNext(mid, Lost(w, es[..|es| - 1], batchSize, maxQueue), es[|es| - 1], batchSize, maxQueue)
  }

  function LostNext(w: Writer, lost: set<Row>, e: Event, batchSize: nat, maxQueue: nat): set<Row> {
    match e
    case Add(item) => if |w.queue| < maxQueue then lost - {RowOf(item)} else lost
    case ReceiveOne(failed) =>
      if w.queue != [] && |Store(w).buffers| >= batchSize then lost + Losses(Store(w), failed) else lost
    case FlushTick(failed) => lost + Losses(w, failed)
  }

  // A lost row is where the overlay differs from the sequential upserts; no
  // item for it waits anywhere.
  predicate Tracks(w: Writer, lost: set<Row>, upserted: Table, row: Row) {
    && (row in lost <==> !Same(Overlay(w), upserted, row))
    && (row in lost ==> !Requeued(w.queue, row) && RowKey(row) !in w.buffers)
  }

  lemma AddTracks(w: Writer, lost: set<Row>, upserted: Table, item: Item, row: Row)
    requires Sound(w) && WellFormed(item) && Tracks(w, lost, upserted, row)
    ensures Tracks(w.(queue := w.queue + [item], accepted := w.accepted + [item]),
                   lost - {RowOf(item)}, upserted[RowOf(item) := item], row)
  {
    var v := w.(queue := w.queue + [item], accepted := w.accepted + [item]);
    AddOverlays(w, item);
    RequeuedSnoc(w.queue, item, row);
    assert Overlay(v) == Overlay(w)[RowOf(item) := item];
    assert Same(Overlay(v), upserted[RowOf(item) := item], row) <==>
           RowOf(item) == row || Same(Overlay(w), upserted, row);
  }

  lemma StoreTracks(w: Writer, lost: set<Row>, upserted: Table, row: Row)
    requires Sound(w) && w.queue != [] && Regular(row) && Tracks(w, lost, upserted, row)
    ensures Tracks(Store(w), lost, upserted, row)
  {
    StoreKeepsOverlay(w);
    var item := w.queue[0];
    KeyOfItem(item);
    if row in lost {
      assert RowOf(item) != row;
      if RowKey(row) == DedupKey(item) {
        RowKeyInjective(row, RowOf(item));
      }
    }
  }

  lemma FlushTracks(w: Writer, lost: set<Row>, upserted: Table, failed: set<string>, row: Row)
    requires Sound(w) && Regular(row) && Tracks(w, lost, upserted, row)
    ensures Tracks(FlushAll(w, failed), lost + Losses(w, failed), upserted, row)
  {
    FlushLeaves(w, failed);
    FlushOverlay(w, failed, row);
    LossAt(w, failed, row);
  }

  lemma StepTracks(w: Writer, lost: set<Row>, upserted: Table, e: Event, batchSize: nat, maxQueue: nat, row: Row)
    requires Sound(w) && Regular(row) && Tracks(w, lost, upserted, row)
    requires e.Add? ==> WellFormed(e.item)
    ensures Tracks(Step(w, e, batchSize, maxQueue), LostNext(w, lost, e, batchSize, maxQueue),
                   if e.Add? && |w.queue| < maxQueue then upserted[RowOf(e.item) := e.item] else upserted, row)
  {
    match e
    case Add(item) => AddTracks(w, lost, upserted, item, row);
    case ReceiveOne(failed) =>
      if w.queue != [] {
        StoreKeepsOverlay(w);
        StoreTracks(w, lost, upserted, row);
        FlushTracks(Store(w), lost, upserted, failed, row);
      }
    case FlushTick(failed) => FlushTracks(w, lost, upserted, failed, row);
  }

  lemma StepIsSound(w: Writer, e: Event, batchSize: nat, maxQueue: nat)
    requires Sound(w) && (e.Add? ==> WellFormed(e.item))
    ensures Sound(Step(w, e, batchSize, maxQueue))
    ensures |w.buffers| < batchSize ==> |Step(w, e, batchSize, maxQueue).buffers| < batchSize
  {
    match e
    case Add(item) => AddOverlays(w, item);
    case ReceiveOne(failed) =>
      if w.queue != [] {
        StoreKeepsOverlay(w);
        FlushLeaves(Store(w), failed);
      }
    case FlushTick(failed) => FlushLeaves(w, failed);
  }

  lemma {:induction false} RunIsSound(db: Table, es: seq<Event>, batchSize: nat, maxQueue: nat)
    requires forall row :: row in db ==> Regular(row)
    requires forall i :: 0 <= i < |es| && es[i].Add? ==> WellFormed(es[i].item)
    ensures var w := Run(Start(db), es, batchSize, maxQueue);
            Sound(w) && AllWellFormed(w.accepted) && (batchSize > 0 ==> |w.buffers| < batchSize)
  {
    if es != [] {
      RunIsSound(db, es[..|es| - 1], batchSize, maxQueue);
      StepIsSound(Run(Start(db), es[..|es| - 1], batchSize, maxQueue), es[|es| - 1], batchSize, maxQueue);
    }
  }

  lemma UpsertedNext(db: Table, w: Writer, e: Event, batchSize: nat, maxQueue: nat)
    ensures Upsert(db, Step(w, e, batchSize, maxQueue).accepted) ==
            if e.Add? && |w.queue| < maxQueue then Upsert(db, w.accepted)[RowOf(e.item) := e.item]
            else Upsert(db, w.accepted)
  {
    if e.Add? {
      UpsertSnoc(db, w.accepted, e.item);
    }
  }

  lemma {:induction false} RunTracks(db: Table, es: seq<Event>, batchSize: nat, maxQueue: nat, row: Row)
    requires (forall r :: r in db ==> Regular(r)) && Regular(row)
    requires forall i :: 0 <= i < |es| && es[i].Add? ==> WellFormed(es[i].item)
    ensures var w := Run(Start(db), es, batchSize, maxQueue);
            Tracks(w, Lost(Start(db), es, batchSize, maxQueue), Upsert(db, w.accepted), row)
  {
    if es == [] {
      NothingToWrite(db, ALL_TABLES);
    } else {
      var front, e := es[..|es| - 1], es[|es| - 1];
      var mid := Run(Start(db), front, batchSize, maxQueue);
      RunTracks(db, front, batchSize, maxQueue, row);
      RunIsSound(db, front, batchSize, maxQueue);
      StepTracks(mid, Lost(Start(db), front, batchSize, maxQueue), Upsert(db, mid.accepted), e, batchSize, maxQueue, row);
      UpsertedNext(db, mid, e, batchSize, maxQueue);
    }
  }

  // Over any run, failing flushes included: the buffer stays below the batch
  // size, and database, buffer and queue together hold under each row what
  // upserting every accepted item in order would hold, except for exactly the
  // lost rows.
  lemma OverlayExceptLost(db: Table, es: seq<Event>, batchSize: nat, maxQueue: nat, row: Row)
    requires (forall r :: r in db ==> Regular(r)) && Regular(row)
    requires forall i :: 0 <= i < |es| && es[i].Add? ==> WellFormed(es[i].item)
    ensures var w := Run(Start(db), es, batchSize, maxQueue);
            && (row in Lost(Start(db), es, batchSize, maxQueue) <==> !Same(Overlay(w), Upsert(db, w.accepted), row))
            && (batchSize > 0 ==> |w.buffers| < batchSize)
  {
    RunTracks(db, es, batchSize, maxQueue, row);
    RunIsSound(db, es, batchSize, maxQueue);
  }

  predicate NoFailures(es: seq<Event>) {
    forall i :: 0 <= i < |es| ==>
      (es[i].ReceiveOne? ==> es[i].failed == {}) && (es[i].FlushTick? ==> es[i].failed == {})
  }

  lemma {:induction false} NothingLost(w: Writer, es: seq<Event>, batchSize: nat, maxQueue: nat)
    requires NoFailures(es)
    ensures Lost(w, es, batchSize, maxQueue) == {}
  {
    if es != [] {
      NothingLost(w, es[..|es| - 1], batchSize, maxQueue);
    }
  }

  // So when no flush fails they hold exactly that.
  lemma RefinesSequentialUpserts(db: Table, es: seq<Event>, batchSize: nat, maxQueue: nat)
    requires forall row :: row in db ==> Regular(row)
    requires forall i :: 0 <= i < |es| && es[i].Add? ==> WellFormed(es[i].item)
    requires NoFailures(es)
    ensures var w := Run(Start(db), es, batchSize, maxQueue);
            && Sound(w) && Overlay(w) == Upsert(db, w.accepted)
            && (batchSize > 0 ==> |w.buffers| < batchSize)
  {
    NothingLost(Start(db), es, batchSize, maxQueue);
    EverythingKept(db, es, batchSize, maxQueue);
  }

  // The overlay is the sequential upserts if and only if nothing is lost.
  lemma EverythingKept(db: Table, es: seq<Event>, batchSize: nat, maxQueue: nat)
    requires forall row :: row in db ==> Regular(row)
    requires forall i :: 0 <= i < |es| && es[i].Add? ==> WellFormed(es[i].item)
    ensures var w := Run(Start(db), es, batchSize, maxQueue);
            && Sound(w) && (batchSize > 0 ==> |w.buffers| < batchSize)
            && (Overlay(w) == Upsert(db, w.accepted) <==>
                forall row | Regular(row) :: row !in Lost(Start(db), es, batchSize, maxQueue))
  {
    var w := Run(Start(db), es, batchSize, maxQueue);
    RunIsSound(db, es, batchSize, maxQueue);
    OverlayIsRegular(w);
    UpsertIsRegular(db, w.accepted);
    forall row | Regular(row)
      ensures row in Lost(Start(db), es, batchSize, maxQueue) <==> !Same(Overlay(w), Upsert(db, w.accepted), row)
    {
      OverlayExceptLost(db, es, batchSize, maxQueue, row);
    }
    SameEverywhere(Overlay(w), Upsert(db, w.accepted));
  }

  // ----- Stop -----

  lemma {:induction false} DrainKeepsOverlay(w: Writer)
    requires Sound(w)
    ensures Overlay(Drain(w)) == Overlay(w) && Sound(Drain(w)) && Drain(w).queue == []
    ensures Drain(w).accepted == w.accepted
    decreases |w.queue|
  {
    if w.queue != [] {
      StoreKeepsOverlay(w);
      DrainKeepsOverlay(Store(w));
    }
  }

  // After Stop the database alone holds it.
  lemma StopWritesEverything(db: Table, es: seq<Event>, batchSize: nat, maxQueue: nat)
    requires forall row :: row in db ==> Regular(row)
    requires forall i :: 0 <= i < |es| && es[i].Add? ==> WellFormed(es[i].item)
    requires NoFailures(es)
    ensures var w := Run(Start(db), es, batchSize, maxQueue);
            Stop(w).db == Upsert(db, w.accepted) && Stop(w).queue == [] && Stop(w).buffers == map[]
  {
    RefinesSequentialUpserts(db, es, batchSize, maxQueue);
    var w := Run(Start(db), es, batchSize, maxQueue);
    DrainKeepsOverlay(w);
    FlushKeepsOverlay(Drain(w));
  }

  // The shutdown of the two loops in any interleaving: the receive loop drains
  // item by item while the flush loop may flush at any point.
  function Shutdown(w: Writer, flushes: seq<bool>): Writer {
    if flushes == [] then w
    else
      var before := Shutdown(w, flushes[..|flushes| - 1]);
      if flushes[|flushes| - 1] then FlushAll(before, {}) else if before.queue != [] then Store(before) else before
  }

  lemma {:induction false} ShutdownKeepsOverlay(w: Writer, flushes: seq<bool>)
    requires Sound(w)
    ensures Overlay(Shutdown(w, flushes)) == Overlay(w) && Sound(Shutdown(w, flushes))
  {
    if flushes != [] {
      ShutdownKeepsOverlay(w, flushes[..|flushes| - 1]);
      var before := Shutdown(w, flushes[..|flushes| - 1]);
      FlushKeepsOverlay(before);
      if before.queue != [] {
        StoreKeepsOverlay(before);
      }
    }
  }

  // Once the queue is drained, the final flush leaves the same tables as the
  // sequential Stop, however the loops interleaved.
  lemma StopInAnyOrder(w: Writer, flushes: seq<bool>)
    requires Sound(w) && Shutdown(w, flushes).queue == []
    ensures FlushAll(Shutdown(w, flushes), {}).db == Stop(w).db
    ensures FlushAll(Shutdown(w, flushes), {}).buffers == map[]
  {
    ShutdownKeepsOverlay(w, flushes);
    DrainKeepsOverlay(w);
    FlushKeepsOverlay(Shutdown(w, flushes));
    FlushKeepsOverlay(Drain(w));
  }
}
