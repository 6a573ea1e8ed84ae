// A flush of the batch writer in its separate steps: collect the buffered
// items, upsert a table, delete what was collected.  The receive loop stores
// items in between, and a second flush may be under way.
module BatchSteps {
  import opened BatchProtocol

  datatype Flush = Idle | InFlight(items: map<string, Item>)

  datatype State = State(w: Writer, flushes: seq<Flush>)

  // A table whose upsert fails is one that is never written.
  datatype Event =
    | Accept(item: Item)
    | Take
    | Collect(f: nat)
    | Write(f: nat, tables: set<string>)
    | Delete(f: nat)

  predicate Busy(s: State, f: nat) {
    f < |s.flushes| && s.flushes[f].InFlight?
  }

  function Step(s: State, e: Event, maxQueue: nat): State {
    match e
    case Accept(item) => s.(w := BatchProtocol.Step(s.w, Add(item), 0, maxQueue))
    case Take => if s.w.queue == [] then s else s.(w := Store(s.w))
    case Collect(f) =>
      if f < |s.flushes| && s.flushes[f].Idle? then s.(flushes := s.flushes[f := InFlight(s.w.buffers)]) else s
    case Write(f, tables) =>
      if Busy(s, f) then s.(w := s.w.(db := Written(s.w.db, s.flushes[f].items, tables))) else s
    case Delete(f) =>
      if Busy(s, f)
      then State(s.w.(buffers := s.w.buffers - s.flushes[f].items.Keys), s.flushes[f := Idle])
      else s
  }

  function Run(s: State, es: seq<Event>, maxQueue: nat): State {
    if es == [] then s else Step(Run(s, es[..|es| - 1], maxQueue), es[|es| - 1], maxQueue)
  }

  function Begin(db: Table, flushes: nat): State {
    State(Start(db), seq(flushes, _ => Idle))
  }

  // ----- What the steps lose -----

  // The last accepted item of its row.
  predicate Newest(accepted: seq<Item>, item: Item) {
    exists i :: 0 <= i < |accepted| && accepted[i] == item &&
                forall j :: i < j < |accepted| ==> RowOf(accepted[j]) != RowOf(item)
  }

  // The rows that a write decides: collected, and no newer item of theirs is
  // buffered or queued.
  function Decided(w: Writer, items: map<string, Item>, tables: set<string>): set<Row> {
    set k | k in items && TableName(items[k]) in tables && k !in w.buffers && !Requeued(w.queue, RowOf(items[k])) ::
      RowOf(items[k])
  }

  // Those it sets back to an item that has been replaced since.
  function Stale(w: Writer, items: map<string, Item>, tables: set<string>): set<Row> {
    set k | k in items && TableName(items[k]) in tables && k !in w.buffers && !Requeued(w.queue, RowOf(items[k])) &&
            !Newest(w.accepted, items[k]) :: RowOf(items[k])
  }

  // The rows whose buffered item a delete drops although the table does not have
  // it and nothing queued is going to replace it.
  function Dropped(w: Writer, items: map<string, Item>): set<Row> {
    set k | k in items && k in w.buffers && !Has(w.db, w.buffers[k]) && !Requeued(w.queue, RowOf(w.buffers[k])) ::
      RowOf(w.buffers[k])
  }

  function LostNext(s: State, lost: set<Row>, e: Event, maxQueue: nat): set<Row> {
    match e
    case Accept(item) => if |s.w.queue| < maxQueue then lost - {RowOf(item)} else lost
    case Take => lost
    case Collect(_) => lost
    case Write(f, tables) =>
      if Busy(s, f) then lost - Decided(s.w, s.flushes[f].items, tables) + Stale(s.w, s.flushes[f].items, tables) else lost
    case Delete(f) => if Busy(s, f) then lost + Dropped(s.w, s.flushes[f].items) else lost
  }

  function Lost(s: State, es: seq<Event>, maxQueue: nat): set<Row> {
    if es == [] then {}
    else
      var front := es[..|es| - 1];
      LostNext(Run(s, front, maxQueue), Lost(s, front, maxQueue), es[|es| - 1], maxQueue)
  }

  // ----- What every run keeps -----

  predicate KnownItems(items: map<string, Item>, accepted: seq<Item>) {
    forall k :: k in items ==> Requeued(accepted, RowOf(items[k]))
  }

  // Everything queued, buffered or collected has been accepted.
  predicate Known(s: State) {
    && (forall i :: 0 <= i < |s.w.queue| ==> Requeued(s.w.accepted, RowOf(s.w.queue[i])))
    && KnownItems(s.w.buffers, s.w.accepted)
    && forall f :: 0 <= f < |s.flushes| && s.flushes[f].InFlight? ==> KnownItems(s.flushes[f].items, s.w.accepted)
  }

  predicate SoundState(s: State) {
    Sound(s.w) && forall f :: 0 <= f < |s.flushes| && s.flushes[f].InFlight? ==> Filed(s.flushes[f].items)
  }

  lemma WriteIsSound(s: State, f: nat, tables: set<string>)
    requires SoundState(s) && Busy(s, f)
    ensures forall row :: row in Written(s.w.db, s.flushes[f].items, tables) ==> Regular(row)
  {
    WrittenIsRegular(s.w.db, s.flushes[f].items, tables);
  }

  lemma StepIsSound(s: State, e: Event, maxQueue: nat)
    requires SoundState(s) && (e.Accept? ==> WellFormed(e.item))
    ensures SoundState(Step(s, e, maxQueue))
  {
    match e
    case Accept(item) => AddOverlays(s.w, item);
    case Take =>
      if s.w.queue != [] {
        StoreKeepsOverlay(s.w);
      }
    case Collect(_) =>
    case Write(f, tables) =>
      if Busy(s, f) {
        WriteIsSound(s, f, tables);
      }
    case Delete(_) =>
  }

  lemma StillKnown(items: map<string, Item>, accepted: seq<Item>, item: Item)
    requires KnownItems(items, accepted)
    ensures KnownItems(items, accepted + [item])
  {
    forall k | k in items ensures Requeued(accepted + [item], RowOf(items[k])) {
      RequeuedSnoc(accepted, item, RowOf(items[k]));
    }
  }

  lemma AcceptIsKnown(s: State, item: Item, maxQueue: nat)
    requires Known(s)
    ensures Known(Step(s, Accept(item), maxQueue))
  {
    var t := Step(s, Accept(item), maxQueue);
    if |s.w.queue| < maxQueue {
      StillKnown(s.w.buffers, s.w.accepted, item);
      forall f | 0 <= f < |s.flushes| && s.flushes[f].InFlight? ensures KnownItems(t.flushes[f].items, t.w.accepted) {
        StillKnown(s.flushes[f].items, s.w.accepted, item);
      }
      forall i | 0 <= i < |t.w.queue| ensures Requeued(t.w.accepted, RowOf(t.w.queue[i])) {
        RequeuedSnoc(s.w.accepted, item, RowOf(t.w.queue[i]));
      }
    }
  }

  lemma TakeIsKnown(s: State, maxQueue: nat)
    requires Known(s)
    ensures Known(Step(s, Take, maxQueue))
  {
    var t := Step(s, Take, maxQueue);
    if s.w.queue != [] {
      assert Requeued(s.w.accepted, RowOf(s.w.queue[0]));
      forall i | 0 <= i < |t.w.queue| ensures Requeued(t.w.accepted, RowOf(t.w.queue[i])) {
        assert t.w.queue[i] == s.w.queue[i + 1];
      }
    }
  }

  lemma StepIsKnown(s: State, e: Event, maxQueue: nat)
    requires Known(s)
    ensures Known(Step(s, e, maxQueue))
  {
    match e
    case Accept(item) => AcceptIsKnown(s, item, maxQueue);
    case Take => TakeIsKnown(s, maxQueue);
    case Collect(_) =>
    case Write(_, _) =>
    case Delete(_) =>
  }

  predicate AcceptsWellFormed(es: seq<Event>) {
    forall i :: 0 <= i < |es| && es[i].Accept? ==> WellFormed(es[i].item)
  }

  lemma {:induction false} RunIsSound(db: Table, flushes: nat, es: seq<Event>, maxQueue: nat)
    requires AcceptsWellFormed(es) && forall row :: row in db ==> Regular(row)
    ensures var s := Run(Begin(db, flushes), es, maxQueue);
            SoundState(s) && Known(s) && AllWellFormed(s.w.accepted)
  {
    if es != [] {
      var front := es[..|es| - 1];
      RunIsSound(db, flushes, front, maxQueue);
      StepIsSound(Run(Begin(db, flushes), front, maxQueue), es[|es| - 1], maxQueue);
      StepIsKnown(Run(Begin(db, flushes), front, maxQueue), es[|es| - 1], maxQueue);
    }
  }

  // ----- One row -----

  // What stands in the overlay under a row that nothing queued replaces.
  lemma OverlayAt(w: Writer, row: Row)
    requires Sound(w) && Regular(row) && !Requeued(w.queue, row)
    ensures if RowKey(row) in w.buffers then row in Overlay(w) && Overlay(w)[row] == w.buffers[RowKey(row)]
            else Same(Overlay(w), w.db, row)
  {
    UpsertKeys(Written(w.db, w.buffers, ALL_TABLES), w.queue);
    WrittenAt(w.db, w.buffers, ALL_TABLES, row);
    if RowKey(row) in w.buffers {
      TableIsKnown(w.buffers[RowKey(row)]);
    }
  }

  lemma KeyDecidesRow(items: map<string, Item>, k: string, row: Row)
    requires Filed(items) && Regular(row) && k in items
    ensures RowOf(items[k]) == row <==> k == RowKey(row)
  {
    KeyOfItem(items[k]);
    if k == RowKey(row) {
      RowKeyInjective(RowOf(items[k]), row);
    }
  }

  lemma DecidedAt(w: Writer, items: map<string, Item>, tables: set<string>, row: Row)
    requires Filed(items) && Regular(row)
    ensures row in Decided(w, items, tables) <==>
            && RowKey(row) in items && TableName(items[RowKey(row)]) in tables
            && RowKey(row) !in w.buffers && !Requeued(w.queue, row)
    ensures row in Stale(w, items, tables) <==>
            row in Decided(w, items, tables) && !Newest(w.accepted, items[RowKey(row)])
  {
    forall k | k in items ensures RowOf(items[k]) == row <==> k == RowKey(row) {
      KeyDecidesRow(items, k, row);
    }
  }

  lemma DroppedAt(w: Writer, items: map<string, Item>, row: Row)
    requires Filed(w.buffers) && Regular(row)
    ensures row in Dropped(w, items) <==>
            && RowKey(row) in items && RowKey(row) in w.buffers
            && !Has(w.db, w.buffers[RowKey(row)]) && !Requeued(w.queue, row)
  {
    forall k | k in w.buffers ensures RowOf(w.buffers[k]) == row <==> k == RowKey(row) {
      KeyDecidesRow(w.buffers, k, row);
    }
  }

  lemma NewestSnoc(front: seq<Item>, last: Item, item: Item)
    ensures Newest(front + [last], item) <==>
            if RowOf(last) == RowOf(item) then last == item else Newest(front, item)
  {
    var all := front + [last];
    if RowOf(last) == RowOf(item) {
      assert all[|front|] == last;
    } else if Newest(front, item) {
      var i :| 0 <= i < |front| && front[i] == item && forall j :: i < j < |front| ==> RowOf(front[j]) != RowOf(item);
      assert all[i] == item;
    } else if Newest(all, item) {
      var i :| 0 <= i < |all| && all[i] == item && forall j :: i < j < |all| ==> RowOf(all[j]) != RowOf(item);
      assert front[i] == item;
      forall j | i < j < |front| ensures RowOf(front[j]) != RowOf(item) {
        assert all[j] == front[j];
      }
    }
  }

  // The newest item of a row is what upserting all of them in order leaves.
  lemma {:induction false} NewestIsUpserted(db: Table, accepted: seq<Item>, item: Item)
    requires Requeued(accepted, RowOf(item))
    ensures Newest(accepted, item) <==> Has(Upsert(db, accepted), item)
  {
    var front, last := accepted[..|accepted| - 1], accepted[|accepted| - 1];
    assert accepted == front + [last];
    NewestSnoc(front, last, item);
    RequeuedSnoc(front, last, RowOf(item));
    if RowOf(last) != RowOf(item) {
      NewestIsUpserted(db, front, item);
    }
  }

  lemma WriteTracks(db: Table, w: Writer, lost: set<Row>, items: map<string, Item>, tables: set<string>, row: Row)
    requires Sound(w) && Filed(items) && KnownItems(items, w.accepted) && Regular(row)
    requires Tracks(w, lost, Upsert(db, w.accepted), row)
    ensures Tracks(w.(db := Written(w.db, items, tables)), lost - Decided(w, items, tables) + Stale(w, items, tables),
                   Upsert(db, w.accepted), row)
  {
    var v := w.(db := Written(w.db, items, tables));
    WrittenIsRegular(w.db, items, tables);
    DecidedAt(w, items, tables, row);
    if Requeued(w.queue, row) {
      UpsertSame(Written(v.db, w.buffers, ALL_TABLES), Written(w.db, w.buffers, ALL_TABLES), w.queue, row);
    } else {
      OverlayAt(w, row);
      OverlayAt(v, row);
      WrittenAt(w.db, items, tables, row);
      if row in Decided(w, items, tables) {
        KeyDecidesRow(items, RowKey(row), row);
        NewestIsUpserted(db, w.accepted, items[RowKey(row)]);
      }
    }
  }

  lemma DeleteTracks(w: Writer, lost: set<Row>, upserted: Table, items: map<string, Item>, row: Row)
    requires Sound(w) && Regular(row) && Tracks(w, lost, upserted, row)
    ensures Tracks(w.(buffers := w.buffers - items.Keys), lost + Dropped(w, items), upserted, row)
  {
    var v := w.(buffers := w.buffers - items.Keys);
    DroppedAt(w, items, row);
    if Requeued(w.queue, row) {
      UpsertSame(Written(w.db, v.buffers, ALL_TABLES), Written(w.db, w.buffers, ALL_TABLES), w.queue, row);
    } else {
      OverlayAt(w, row);
      OverlayAt(v, row);
      if RowKey(row) in w.buffers {
        KeyDecidesRow(w.buffers, RowKey(row), row);
      }
    }
  }

  lemma AcceptTracks(db: Table, s: State, lost: set<Row>, item: Item, maxQueue: nat, row: Row)
    requires Sound(s.w) && WellFormed(item) && Tracks(s.w, lost, Upsert(db, s.w.accepted), row)
    ensures var t := Step(s, Accept(item), maxQueue);
            Tracks(t.w, LostNext(s, lost, Accept(item), maxQueue), Upsert(db, t.w.accepted), row)
  {
    AddTracks(s.w, lost, Upsert(db, s.w.accepted), item, row);
    UpsertSnoc(db, s.w.accepted, item);
  }

  lemma StepTracks(db: Table, s: State, lost: set<Row>, e: Event, maxQueue: nat, row: Row)
    requires SoundState(s) && Known(s) && Regular(row) && (e.Accept? ==> WellFormed(e.item))
    requires Tracks(s.w, lost, Upsert(db, s.w.accepted), row)
    ensures var t := Step(s, e, maxQueue);
            Tracks(t.w, LostNext(s, lost, e, maxQueue), Upsert(db, t.w.accepted), row)
  {
    match e
    case Accept(item) => AcceptTracks(db, s, lost, item, maxQueue, row);
    case Take =>
      if s.w.queue != [] {
        StoreTracks(s.w, lost, Upsert(db, s.w.accepted), row);
      }
    case Collect(_) =>
    case Write(f, tables) =>
      if Busy(s, f) {
        WriteTracks(db, s.w, lost, s.flushes[f].items, tables, row);
      }
    case Delete(f) =>
      if Busy(s, f) {
        DeleteTracks(s.w, lost, Upsert(db, s.w.accepted), s.flushes[f].items, row);
      }
  }

  // ----- Main results -----

  // Over any run of these steps, with any number of flushes, any tables left
  // unwritten and any stores in between, table, buffer and queue hold what the
  // accepted items upserted in order would, under every row but the lost ones.
  lemma {:induction false} OverlayExceptLost(db: Table, flushes: nat, es: seq<Event>, maxQueue: nat, row: Row)
    requires AcceptsWellFormed(es) && (forall r :: r in db ==> Regular(r)) && Regular(row)
    ensures var s := Run(Begin(db, flushes), es, maxQueue);
            Tracks(s.w, Lost(Begin(db, flushes), es, maxQueue), Upsert(db, s.w.accepted), row)
  {
    if es == [] {
      NothingToWrite(db, ALL_TABLES);
    } else {
      var front := es[..|es| - 1];
      OverlayExceptLost(db, flushes, front, maxQueue, row);
      RunIsSound(db, flushes, front, maxQueue);
      StepTracks(db, Run(Begin(db, flushes), front, maxQueue), Lost(Begin(db, flushes), front, maxQueue),
                 es[|es| - 1], maxQueue, row);
    }
  }

  lemma EverythingKept(db: Table, flushes: nat, es: seq<Event>, maxQueue: nat)
    requires AcceptsWellFormed(es) && forall row :: row in db ==> Regular(row)
    ensures var s := Run(Begin(db, flushes), es, maxQueue);
            Overlay(s.w) == Upsert(db, s.w.accepted) <==>
            forall row | Regular(row) :: row !in Lost(Begin(db, flushes), es, maxQueue)
  {
    var s := Run(Begin(db, flushes), es, maxQueue);
    RunIsSound(db, flushes, es, maxQueue);
    OverlayIsRegular(s.w);
    UpsertIsRegular(db, s.w.accepted);
    forall row | Regular(row)
      ensures row in Lost(Begin(db, flushes), es, maxQueue) <==> !Same(Overlay(s.w), Upsert(db, s.w.accepted), row)
    {
      OverlayExceptLost(db, flushes, es, maxQueue, row);
    }
    SameEverywhere(Overlay(s.w), Upsert(db, s.w.accepted));
  }

  // The delete of a flush that wrote all its items drops nothing if and only if
  // each of them is still the buffered one, or something queued replaces it.
  lemma DropsNothingIff(w: Writer, items: map<string, Item>, before: Table)
    requires Filed(items) && Filed(w.buffers) && w.db == Written(before, items, ALL_TABLES)
    ensures Dropped(w, items) == {} <==>
            forall k :: k in items && k in w.buffers ==>
              w.buffers[k] == items[k] || Requeued(w.queue, RowOf(w.buffers[k]))
  {
    forall k | k in items && k in w.buffers
      ensures Has(w.db, w.buffers[k]) <==> w.buffers[k] == items[k]
      ensures RowOf(w.buffers[k]) in Dropped(w, items) <==>
              w.buffers[k] != items[k] && !Requeued(w.queue, RowOf(w.buffers[k]))
    {
      var row := RowOf(w.buffers[k]);
      assert WellFormed(w.buffers[k]);
      KeyDecidesRow(w.buffers, k, row);
      TableIsKnown(items[k]);
      WrittenAt(before, items, ALL_TABLES, row);
      DroppedAt(w, items, row);
    }
    if Dropped(w, items) != {} {
      var row :| row in Dropped(w, items);
      assert exists k :: k in items && k in w.buffers && RowOf(w.buffers[k]) == row;
    }
  }

  lemma RunNext(s: State, es: seq<Event>, i: nat, maxQueue: nat)
    requires i < |es|
    ensures Run(s, es[..i + 1], maxQueue) == Step(Run(s, es[..i], maxQueue), es[i], maxQueue)
  {
    assert es[..i + 1][..i] == es[..i];
  }

  // The three steps with nothing in between are the flush of the protocol.
  lemma FlushInOneGo(s: State, f: nat, failed: set<string>, maxQueue: nat)
    requires f < |s.flushes| && s.flushes[f].Idle?
    ensures var t := Run(s, [Collect(f), Write(f, ALL_TABLES - failed), Delete(f)], maxQueue);
            t.w == FlushAll(s.w, failed) && t.flushes == s.flushes
  {
    var es := [Collect(f), Write(f, ALL_TABLES - failed), Delete(f)];
    RunNext(s, es, 0, maxQueue);
    RunNext(s, es, 1, maxQueue);
    RunNext(s, es, 2, maxQueue);
    assert es[..3] == es;
    AllKnown(s.w.buffers);
    NothingKept(s.w.buffers, ALL_TABLES);
  }

  // ----- Runs that lose an item -----

  lemma RunConcat(s: State, a: seq<Event>, b: seq<Event>, maxQueue: nat)
    ensures Run(s, a + b, maxQueue) == Run(Run(s, a, maxQueue), b, maxQueue)
    decreases |b|
  {
    if b == [] {
      assert a + b == a;
    } else {
      assert (a + b)[..|a + b| - 1] == a + b[..|b| - 1];
      RunConcat(s, a, b[..|b| - 1], maxQueue);
    }
  }

  lemma AloneInTheTable(db: Table, item: Item)
    requires WellFormed(item)
    ensures Written(db, map[DedupKey(item) := item], ALL_TABLES) == db[RowOf(item) := item]
  {
    KeyOfItem(item);
    TableIsKnown(item);
    var buffers := map[DedupKey(item) := item];
    assert DedupKey(item) in buffers && buffers[DedupKey(item)] == item;
    assert BufferedRows(buffers, ALL_TABLES) == {RowOf(item)};
  }

  // One item accepted, stored and collected.
  lemma Collected(s: State, f: nat, item: Item, maxQueue: nat)
    requires s.w.queue == [] && s.w.buffers == map[] && f < |s.flushes| && s.flushes[f].Idle? && maxQueue > 0
    ensures var items := map[DedupKey(item) := item];
            Run(s, [Accept(item), Take, Collect(f)], maxQueue) ==
            State(Writer([], items, s.w.db, s.w.accepted + [item]), s.flushes[f := InFlight(items)])
  {
    var es := [Accept(item), Take, Collect(f)];
    RunNext(s, es, 0, maxQueue);
    RunNext(s, es, 1, maxQueue);
    RunNext(s, es, 2, maxQueue);
    assert es[..3] == es;
    assert map[][DedupKey(item) := item] == map[DedupKey(item) := item];
  }

  lemma WriteAndDelete(s: State, f: nat, maxQueue: nat)
    requires Busy(s, f)
    ensures Run(s, [Write(f, ALL_TABLES), Delete(f)], maxQueue) ==
            State(s.w.(db := Written(s.w.db, s.flushes[f].items, ALL_TABLES),
                       buffers := s.w.buffers - s.flushes[f].items.Keys),
                  s.flushes[f := Idle])
  {
    var es := [Write(f, ALL_TABLES), Delete(f)];
    RunNext(s, es, 0, maxQueue);
    RunNext(s, es, 1, maxQueue);
    assert es[..2] == es;
  }

  lemma Stored(s: State, item: Item, maxQueue: nat)
    requires s.w.queue == [] && maxQueue > 0
    ensures Run(s, [Accept(item), Take], maxQueue) ==
            s.(w := Writer([], s.w.buffers[DedupKey(item) := item], s.w.db, s.w.accepted + [item]))
  {
    var es := [Accept(item), Take];
    RunNext(s, es, 0, maxQueue);
    RunNext(s, es, 1, maxQueue);
    assert es[..2] == es;
  }

  lemma Finished(s: State, f: nat, item: Item, maxQueue: nat)
    requires Busy(s, f) && s.flushes[f].items == map[DedupKey(item) := item] && WellFormed(item)
    ensures Run(s, [Write(f, ALL_TABLES), Delete(f)], maxQueue) ==
            State(s.w.(db := s.w.db[RowOf(item) := item], buffers := s.w.buffers - {DedupKey(item)}),
                  s.flushes[f := Idle])
  {
    WriteAndDelete(s, f, maxQueue);
    AloneInTheTable(s.w.db, item);
  }

  lemma SameKey(x: Item, y: Item)
    requires WellFormed(x) && WellFormed(y) && RowOf(x) == RowOf(y)
    ensures DedupKey(x) == DedupKey(y)
    ensures map[DedupKey(x) := x][DedupKey(y) := y] - {DedupKey(x)} == map[]
  {
    KeyOfItem(x);
    KeyOfItem(y);
  }

  // The receive loop stores a newer item between collect and delete: the delete
  // drops it, and the table keeps the old one.
  lemma StoredInBetween(x: Item, y: Item, maxQueue: nat)
    requires WellFormed(x) && WellFormed(y) && RowOf(x) == RowOf(y) && maxQueue > 0
    ensures Run(Begin(map[], 1), [Accept(x), Take, Collect(0)] + ([Accept(y), Take] + [Write(0, ALL_TABLES), Delete(0)]),
                maxQueue) ==
            State(Writer([], map[], map[RowOf(x) := x], [x, y]), [Idle])
  {
    var a, b, c := [Accept(x), Take, Collect(0)], [Accept(y), Take], [Write(0, ALL_TABLES), Delete(0)];
    var s := Begin(map[], 1);
    Collected(s, 0, x, maxQueue);
    var t := Run(s, a, maxQueue);
    Stored(t, y, maxQueue);
    SameKey(x, y);
    Finished(Run(t, b, maxQueue), 0, x, maxQueue);
    RunConcat(s, a, b + c, maxQueue);
    RunConcat(t, b, c, maxQueue);
  }

  // Two flushes collect one item, and one of them writes it.
  lemma CollectedTwice(x: Item, maxQueue: nat)
    requires WellFormed(x) && maxQueue > 0
    ensures Run(Begin(map[], 2),
                [Accept(x), Take, Collect(0)] + ([Collect(1)] + [Write(1, ALL_TABLES), Delete(1)]), maxQueue) ==
            State(Writer([], map[], map[RowOf(x) := x], [x]), [InFlight(map[DedupKey(x) := x]), Idle])
  {
    var s := Begin(map[], 2);
    Collected(s, 0, x, maxQueue);
    var t := Run(s, [Accept(x), Take, Collect(0)], maxQueue);
    RunNext(t, [Collect(1)], 0, maxQueue);
    assert [Collect(1)][..0] == [] && [Collect(1)][..1] == [Collect(1)];
    var u := Step(t, Collect(1), maxQueue);
    Finished(u, 1, x, maxQueue);
    RunConcat(s, [Accept(x), Take, Collect(0)], [Collect(1)] + [Write(1, ALL_TABLES), Delete(1)], maxQueue);
    RunConcat(t, [Collect(1)], [Write(1, ALL_TABLES), Delete(1)], maxQueue);
  }

  // A flush from beginning to end, of one item.
  lemma FlushOne(s: State, f: nat, item: Item, maxQueue: nat)
    requires WellFormed(item) && s.w.queue == [] && s.w.buffers == map[] && maxQueue > 0
    requires f < |s.flushes| && s.flushes[f].Idle?
    ensures Run(s, [Accept(item), Take, Collect(f)] + [Write(f, ALL_TABLES), Delete(f)], maxQueue) ==
            s.(w := Writer([], map[], s.w.db[RowOf(item) := item], s.w.accepted + [item]))
  {
    Collected(s, f, item, maxQueue);
    Finished(Run(s, [Accept(item), Take, Collect(f)], maxQueue), f, item, maxQueue);
    RunConcat(s, [Accept(item), Take, Collect(f)], [Write(f, ALL_TABLES), Delete(f)], maxQueue);
  }

  lemma ReplacedMeanwhile(s: State, x: Item, y: Item, maxQueue: nat)
    requires WellFormed(x) && WellFormed(y) && RowOf(x) == RowOf(y) && maxQueue > 0
    requires s == State(Writer([], map[], map[RowOf(x) := x], [x]), [InFlight(map[DedupKey(x) := x]), Idle])
    ensures Run(s, ([Accept(y), Take, Collect(1)] + [Write(1, ALL_TABLES), Delete(1)]) + [Write(0, ALL_TABLES), Delete(0)],
                maxQueue) ==
            State(Writer([], map[], map[RowOf(x) := x], [x, y]), [Idle, Idle])
  {
    var a := [Accept(y), Take, Collect(1)] + [Write(1, ALL_TABLES), Delete(1)];
    FlushOne(s, 1, y, maxQueue);
    Finished(Run(s, a, maxQueue), 0, x, maxQueue);
    RunConcat(s, a, [Write(0, ALL_TABLES), Delete(0)], maxQueue);
  }

  // When the slow one of them writes it, it has been replaced in the table
  // already: the old item is back, and nothing is buffered or queued.
  lemma WrittenOver(x: Item, y: Item, maxQueue: nat) returns (es: seq<Event>)
    requires WellFormed(x) && WellFormed(y) && RowOf(x) == RowOf(y) && maxQueue > 0
    ensures Run(Begin(map[], 2), es, maxQueue) ==
            State(Writer([], map[], map[RowOf(x) := x], [x, y]), [Idle, Idle])
  {
    var a := [Accept(x), Take, Collect(0)] + ([Collect(1)] + [Write(1, ALL_TABLES), Delete(1)]);
    var b := ([Accept(y), Take, Collect(1)] + [Write(1, ALL_TABLES), Delete(1)]) + [Write(0, ALL_TABLES), Delete(0)];
    es := a + b;
    CollectedTwice(x, maxQueue);
    ReplacedMeanwhile(Run(Begin(map[], 2), a, maxQueue), x, y, maxQueue);
    RunConcat(Begin(map[], 2), a, b, maxQueue);
  }
}
