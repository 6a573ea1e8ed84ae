// The two TTL caches the order processor consults, as the mutable objects they
// are in the program.
module Caches {
  import opened Basics
  import opened Keys
  import opened OrderProtocol
  import Pipeline

  class DedupCache {
    const ttl: int
    var entries: map<string, int>

    constructor (ttl: int)
      ensures this.ttl == ttl && entries == map[]
    {
      this.ttl := ttl;
      entries := map[];
    }

    method IsSeen(address: string, oid: int, direction: string, now: int) returns (seen: bool)
      ensures seen <==> Live(entries, OrderKey(address, oid, direction), now)
    {
      var key := OrderKey(address, oid, direction);
      seen := key in entries && now <= entries[key];
    }

    method Mark(address: string, oid: int, direction: string, now: int)
      modifies this
      ensures entries == old(entries)[OrderKey(address, oid, direction) := now + ttl]
    {
      entries := entries[OrderKey(address, oid, direction) := now + ttl];
    }

    // Marks every row of a query result; a failed query leaves the cache alone.
    method LoadFromDB(result: Option<seq<Aggregation>>, now: int) returns (ok: bool)
      modifies this
      ensures ok <==> result.Some?
      ensures !ok ==> entries == old(entries)
      ensures ok ==> entries == MarkAll(old(entries), KeysOf(result.value), now + ttl)
    {
      ok := result.Some?;
      if ok {
        MarkRows(result.value, now);
      }
    }

    method MarkRows(orders: seq<Aggregation>, now: int)
      modifies this
      ensures entries == MarkAll(old(entries), KeysOf(orders), now + ttl)
    {
      ghost var start, keys := entries, KeysOf(orders);
      for i := 0 to |orders|
        invariant entries == MarkAll(start, keys[..i], now + ttl)
      {
        assert keys[..i + 1][..i] == keys[..i];
        MarkRow(orders[i], now);
      }
      assert keys[..|orders|] == keys;
    }

    method MarkRow(row: Aggregation, now: int)
      modifies this
      ensures entries == old(entries)[row.Key() := now + ttl]
    {
      Mark(row.address, row.oid, row.direction, now);
    }
  }

  function KeysOf(rows: seq<Aggregation>): (keys: seq<string>)
    ensures |keys| == |rows| && forall i :: 0 <= i < |rows| ==> keys[i] == rows[i].Key()
  {
    seq(|rows|, i requires 0 <= i < |rows| => rows[i].Key())
  }

  function MarkAll(m: map<string, int>, keys: seq<string>, expires: int): map<string, int> {
    if keys == [] then m else MarkAll(m, keys[..|keys| - 1], expires)[keys[|keys| - 1] := expires]
  }

  // Every key is marked, with one expiry for all; no other key is new.
  lemma {:induction false} MarkAllFinds(m: map<string, int>, keys: seq<string>, expires: int, key: string)
    ensures var marked := MarkAll(m, keys, expires);
            if key in keys then key in marked && marked[key] == expires
            else (key in marked <==> key in m) && (key in m ==> marked[key] == m[key])
  {
    if keys != [] {
      var front, last := keys[..|keys| - 1], keys[|keys| - 1];
      MarkAllFinds(m, front, expires, key);
      assert keys == front + [last];
    }
  }

  // GetSentOrdersSince on the table: the sent rows whose last fill is not
  // before the given second, in any order.
  predicate IsSentSince(db: map<Pipeline.RowId, Aggregation>, since: int, rows: seq<Aggregation>) {
    && (forall row :: row in rows ==>
          exists id :: id in db && db[id] == row && row.signalSent && row.lastFillTime >= Unix(since))
    && (forall id :: id in db && db[id].signalSent && db[id].lastFillTime >= Unix(since) ==> db[id] in rows)
  }

  // A fresh cache loaded from the table is the one a restart starts with.
  lemma ReloadedCache(db: map<Pipeline.RowId, Aggregation>, now: int, rows: seq<Aggregation>)
    requires IsSentSince(db, now - DEDUP_TTL, rows)
    ensures MarkAll(map[], KeysOf(rows), now + DEDUP_TTL) == Pipeline.LoadFromDB(db, now)
  {
    var keys, expires := KeysOf(rows), now + DEDUP_TTL;
    forall key ensures key in keys <==> key in Pipeline.SentKeysSince(db, now) {
      SentKey(db, now, rows, key);
    }
    forall key: string
      ensures key in MarkAll(map[], keys, expires) <==> key in keys
      ensures key in keys ==> MarkAll(map[], keys, expires)[key] == expires
    {
      MarkAllFinds(map[], keys, expires, key);
    }
  }

  lemma SentKey(db: map<Pipeline.RowId, Aggregation>, now: int, rows: seq<Aggregation>, key: string)
    requires IsSentSince(db, now - DEDUP_TTL, rows)
    ensures key in KeysOf(rows) <==> key in Pipeline.SentKeysSince(db, now)
  {
    var keys := KeysOf(rows);
    if key in keys {
      var i :| 0 <= i < |keys| && keys[i] == key;
      var row := rows[i];
      assert row in rows;
      var id :| id in db && db[id] == row && row.signalSent && row.lastFillTime >= Unix(now - DEDUP_TTL);
      assert Pipeline.Reloaded(db[id], now);
    }
    if key in Pipeline.SentKeysSince(db, now) {
      var id :| id in db && Pipeline.Reloaded(db[id], now) && db[id].Key() == key;
      assert db[id] in rows;
      var i :| 0 <= i < |rows| && rows[i] == db[id];
      assert keys[i] == key;
    }
  }

  class StatusTracker {
    const ttl: int
    var entries: map<string, Tracked>

    constructor (ttl: int)
      ensures this.ttl == ttl && entries == map[]
    {
      this.ttl := ttl;
      entries := map[];
    }

    method MarkStatus(address: string, oid: int, status: string, now: int)
      modifies this
      ensures entries == old(entries)[TrackKey(address, oid) := Tracked(status, now + ttl)]
    {
      entries := entries[TrackKey(address, oid) := Tracked(status, now + ttl)];
    }

    method Find(address: string, oid: int, now: int) returns (status: string, found: bool)
      ensures (if found then Some(status) else None) == GetStatus(entries, TrackKey(address, oid), now)
    {
      var key := TrackKey(address, oid);
      found := key in entries && now <= entries[key].expires;
      status := if found then entries[key].status else "";
    }

    method Remove(address: string, oid: int)
      modifies this
      ensures entries == old(entries) - {TrackKey(address, oid)}
    {
      entries := entries - {TrackKey(address, oid)};
    }
  }
}
