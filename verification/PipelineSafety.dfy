// No fill is counted in two published signals of one leg, however often it is
// redelivered, and not after a crash either once the sent row was stored.
module PipelineSafety {
  import opened Keys
  import opened Filters
  import opened OrderProtocol
  import opened Pipeline

  // ----- Clock arithmetic -----

  lemma MillisMonotone(a: int, b: int)
    requires a <= b
    ensures Millis(a) <= Millis(b) && Unix(a) <= Unix(b)
  {
  }

  lemma MillisShift(t: int, k: int)
    ensures Millis(t + k * MILLI) == Millis(t) + k
  {
  }

  // ----- Staleness -----

  predicate Later(fills: seq<Fill>, g: Fill) {
    forall i :: 0 <= i < |fills| ==> fills[i].time < g.time
  }

  predicate AllLater(fills: seq<Fill>, gs: seq<Fill>) {
    forall i :: 0 <= i < |gs| ==> Later(fills, gs[i])
  }

  // An aggregation's fills are stamped before its last update, by more than the
  // lag, and so they are before the end of its last fill's second.
  predicate Stamped(agg: Aggregation, lag: nat) {
    forall i :: 0 <= i < |agg.fills| ==>
      StampedBy(agg.fills[i], agg.updatedAt, lag) && StampedBy(agg.fills[i], (agg.lastFillTime + 1) * SECOND - 1, lag)
  }

  // The fills are too old for every age filter whose dedup check is still to come.
  predicate Gone(p: Pipe, fills: seq<Fill>) {
    AllStale(fills, Horizon(p))
  }

  lemma StaleForGood(fills: seq<Fill>, now: int, later: int)
    requires AllStale(fills, now) && now <= later
    ensures AllStale(fills, later)
  {
    MillisMonotone(now, later);
  }

  // A fill the age filter admits is later than everything it already rejects.
  lemma FreshIsLater(fills: seq<Fill>, g: Fill, now: int)
    requires AllStale(fills, now) && !TooOld(now, g)
    ensures Later(fills, g)
  {
  }

  // Age filter <= dedup TTL: once a mark has expired its fills are too old.
  lemma StaleAfterTTL(agg: Aggregation, now: int, lag: nat)
    requires Stamped(agg, lag) && agg.updatedAt + DEDUP_TTL < now
    ensures AllStale(agg.fills, now - lag)
  {
    MillisShift(agg.updatedAt + 1 - lag, MAX_FILL_AGE);
    MillisMonotone(agg.updatedAt + 1 - lag + MAX_FILL_AGE * MILLI, now - lag);
  }

  // A row outside the reload window holds only fills that are too old.
  lemma StaleOutsideReload(agg: Aggregation, now: int, lag: nat)
    requires Stamped(agg, lag) && agg.lastFillTime < Unix(now - DEDUP_TTL)
    ensures AllStale(agg.fills, now - lag)
  {
    var t := (agg.lastFillTime + 1) * SECOND;
    assert t <= now - DEDUP_TTL;
    MillisShift(t - lag, MAX_FILL_AGE);
    MillisMonotone(t - lag + MAX_FILL_AGE * MILLI, now - lag);
  }

  // So does a row the cleaner removes.
  lemma StaleWhenCleaned(agg: Aggregation, now: int, lag: nat)
    requires Stamped(agg, lag) && Expired(agg, now)
    ensures AllStale(agg.fills, now - lag)
  {
    StaleAfterTTL(agg, now, lag);
  }

  lemma StampedFill(fill: Fill, now: int, later: int, lag: nat)
    requires StampedBy(fill, now, lag) && now <= later
    ensures StampedBy(fill, later, lag) && StampedBy(fill, (Unix(later) + 1) * SECOND - 1, lag)
  {
    MillisMonotone(now + 1 - lag, later + 1 - lag);
    assert later + 1 <= (Unix(later) + 1) * SECOND;
    MillisMonotone(later + 1 - lag, (Unix(later) + 1) * SECOND - lag);
  }

  // ----- The invariant -----

  predicate QueuedInTime(p: Pipe, q: Queued) {
    q.at <= p.proc.now && (q.msg.FillMsg? ==> StampedBy(q.msg.fill, q.at, p.lag))
    && (q.msg.FillMsg? || q.msg.StatusMsg?)
  }

  predicate PendingSound(s: Proc, key: string, lag: nat)
    requires key in s.pending
  {
    var agg := s.pending[key].agg;
    agg.Key() == key && agg.updatedAt <= s.now && Stamped(agg, lag)
  }

  predicate Sound(p: Pipe) {
    var s := p.proc;
    && |p.sentRow| == |s.published|
    && p.started <= s.now
    && p.applied <= |s.writes| && (forall n :: n in p.stored ==> n < p.applied)
    && (forall i :: i in p.lost ==> i < |s.published|)
    && (forall key :: key in s.dedup ==> s.dedup[key] <= s.now + DEDUP_TTL)
    && (forall key :: key in s.pending ==> PendingSound(s, key, p.lag))
    && (forall k :: 0 <= k < |p.queue| ==> QueuedInTime(p, p.queue[k]))
    && (forall i :: 0 <= i < |s.published| ==> SentSound(p, i))
  }

  predicate SentSound(p: Pipe, i: nat)
    requires i < |p.sentRow| == |p.proc.published|
  {
    var pub := p.proc.published[i];
    && p.sentRow[i] < |p.proc.writes| && p.proc.writes[p.sentRow[i]] == pub.agg
    && pub.agg.signalSent && pub.agg.updatedAt == pub.at <= p.proc.now
    && Stamped(pub.agg, p.lag)
  }

  predicate Suppressed(s: Proc, key: string, until: int) {
    key in s.dedup && until <= s.dedup[key]
  }

  // Signal agg, sent earlier with its row at position row, cannot be counted
  // again: its key is suppressed until its fills are too old, nothing waiting
  // or pending under its key contains an old fill, and its row either is in the
  // database or is no longer needed.
  predicate Shielded(p: Pipe, agg: Aggregation, row: nat) {
    var s, key := p.proc, agg.Key();
    && (Suppressed(s, key, agg.updatedAt + DEDUP_TTL) || Gone(p, agg.fills))
    && (forall k :: 0 <= k < |p.queue| ==> QueueShielded(s, p.queue[k], agg))
    && (key in s.pending ==> AllLater(agg.fills, s.pending[key].agg.fills) && Gone(p, agg.fills))
    && (row in p.stored ==> (Id(agg) in p.db && p.db[Id(agg)] == agg) || Gone(p, agg.fills))
    && (forall n :: row < n < |s.writes| && s.writes[n].Key() == key ==> Gone(p, agg.fills))
  }

  predicate QueueShielded(s: Proc, q: Queued, agg: Aggregation) {
    q.msg.FillMsg? && OrderKey(q.msg.address, q.msg.fill.oid, q.msg.direction) == agg.Key() ==>
      Later(agg.fills, q.msg.fill) || Suppressed(s, agg.Key(), q.at + DEDUP_TTL)
  }

  predicate NoRepeats(p: Pipe) {
    forall i, j :: 0 <= i < j < |p.proc.published| && i !in p.lost &&
                   p.proc.published[i].agg.Key() == p.proc.published[j].agg.Key() ==>
      AllLater(p.proc.published[i].agg.fills, p.proc.published[j].agg.fills)
  }

  predicate Safe(p: Pipe) {
    && Sound(p)
    && (forall i :: 0 <= i < |p.proc.published| && i !in p.lost ==>
          Shielded(p, p.proc.published[i].agg, p.sentRow[i]))
    && NoRepeats(p)
  }

  // Once its key is no longer suppressed, a shielded signal's fills are too old.
  lemma UnsuppressedIsStale(p: Pipe, agg: Aggregation, row: nat)
    requires Shielded(p, agg, row) && Stamped(agg, p.lag)
    requires !Live(p.proc.dedup, agg.Key(), p.proc.now)
    ensures Gone(p, agg.fills)
  {
    if !Gone(p, agg.fills) {
      StaleAfterTTL(agg, p.proc.now, p.lag);
      StaleForGood(agg.fills, p.proc.now - p.lag, Horizon(p));
    }
  }

  // ----- Steps that touch neither legs, cache, logs nor queue -----

  lemma QuietIsSafe(p: Pipe, q: Pipe)
    requires Safe(p) && Quiet(p.proc, q.proc)
    requires q.(proc := p.proc) == p
    ensures Safe(q)
  {
    forall key | key in q.proc.pending ensures PendingSound(q.proc, key, q.lag) {
      assert PendingSound(p.proc, key, p.lag);
    }
    forall k | 0 <= k < |q.queue| ensures QueuedInTime(q, q.queue[k]) {
      assert QueuedInTime(p, p.queue[k]);
    }
    forall i | 0 <= i < |q.proc.published| ensures SentSound(q, i) {
      assert SentSound(p, i);
    }
    forall i | 0 <= i < |q.proc.published| && i !in q.lost
      ensures Shielded(q, q.proc.published[i].agg, q.sentRow[i])
    {
      QuietShielded(p, q, p.proc.published[i].agg, p.sentRow[i]);
    }
  }

  lemma QuietShielded(p: Pipe, q: Pipe, agg: Aggregation, row: nat)
    requires Shielded(p, agg, row) && Quiet(p.proc, q.proc)
    requires q.(proc := p.proc) == p
    ensures Shielded(q, agg, row)
  {
    forall k | 0 <= k < |q.queue| ensures QueueShielded(q.proc, q.queue[k], agg) {
      assert QueueShielded(p.proc, p.queue[k], agg);
    }
  }

  // ----- Time passing -----

  lemma TickIsSafe(p: Pipe, elapsed: nat)
    requires Safe(p)
    ensures Safe(Advance(p, Tick(elapsed)))
  {
    var q := Advance(p, Tick(elapsed));
    forall key | key in q.proc.pending ensures PendingSound(q.proc, key, q.lag) {
      assert PendingSound(p.proc, key, p.lag);
    }
    forall k | 0 <= k < |q.queue| ensures QueuedInTime(q, q.queue[k]) {
      assert QueuedInTime(p, p.queue[k]);
    }
    forall i | 0 <= i < |q.proc.published| ensures SentSound(q, i) {
      assert SentSound(p, i);
    }
    forall i | 0 <= i < |q.proc.published| && i !in q.lost
      ensures Shielded(q, q.proc.published[i].agg, q.sentRow[i])
    {
      TickShielded(p, elapsed, p.proc.published[i].agg, p.sentRow[i]);
    }
  }

  lemma TickShielded(p: Pipe, elapsed: nat, agg: Aggregation, row: nat)
    requires Shielded(p, agg, row)
    ensures Shielded(Advance(p, Tick(elapsed)), agg, row)
  {
    var q := Advance(p, Tick(elapsed));
    if Gone(p, agg.fills) {
      StaleForGood(agg.fills, Horizon(p), Horizon(q));
    }
    forall k | 0 <= k < |q.queue| ensures QueueShielded(q.proc, q.queue[k], agg) {
      assert QueueShielded(p.proc, p.queue[k], agg);
    }
  }

  // ----- A fill enters its leg -----

  lemma StoreIsSound(p: Pipe, q: Pipe, address: string, fill: Fill, direction: string)
    requires Safe(p) && StampedBy(fill, p.proc.now, p.lag)
    requires q == p.(proc := StoreFill(p.proc, address, fill, direction))
    ensures Sound(q)
  {
    var key := OrderKey(address, fill.oid, direction);
    forall k | k in q.proc.pending ensures PendingSound(q.proc, k, q.lag) {
      if k != key {
        assert PendingSound(p.proc, k, p.lag);
      } else {
        StoredSound(p.proc, address, fill, direction, p.lag);
      }
    }
    forall k | 0 <= k < |q.queue| ensures QueuedInTime(q, q.queue[k]) {
      assert QueuedInTime(p, p.queue[k]);
    }
    forall i | 0 <= i < |q.proc.published| ensures SentSound(q, i) {
      assert SentSound(p, i);
    }
  }

  lemma StoredSound(s: Proc, address: string, fill: Fill, direction: string, lag: nat)
    requires StampedBy(fill, s.now, lag)
    requires var key := OrderKey(address, fill.oid, direction); key in s.pending ==> PendingSound(s, key, lag)
    ensures var key := OrderKey(address, fill.oid, direction);
            PendingSound(StoreFill(s, address, fill, direction), key, lag)
  {
    var key := OrderKey(address, fill.oid, direction);
    StampedFill(fill, s.now, s.now, lag);
    if key in s.pending {
      var agg := s.pending[key].agg;
      forall i | 0 <= i < |agg.fills|
        ensures StampedBy(agg.fills[i], s.now, lag) && StampedBy(agg.fills[i], (Unix(s.now) + 1) * SECOND - 1, lag)
      {
        StampedFill(agg.fills[i], agg.updatedAt, s.now, lag);
      }
    }
  }

  lemma StoreShielded(p: Pipe, q: Pipe, address: string, fill: Fill, direction: string,
                      agg: Aggregation, row: nat)
    requires Shielded(p, agg, row) && Stamped(agg, p.lag) && row < |p.proc.writes|
    requires q == p.(proc := StoreFill(p.proc, address, fill, direction))
    requires var key := OrderKey(address, fill.oid, direction);
             (key in p.proc.pending ==> p.proc.pending[key].agg.Key() == key) &&
             (agg.Key() == key ==> Later(agg.fills, fill) && !Live(p.proc.dedup, key, p.proc.now))
    ensures Shielded(q, agg, row)
  {
    var key := OrderKey(address, fill.oid, direction);
    if agg.Key() == key {
      UnsuppressedIsStale(p, agg, row);
      var fills := q.proc.pending[key].agg.fills;
      forall i | 0 <= i < |fills| ensures Later(agg.fills, fills[i]) {
        if key in p.proc.pending && i < |fills| - 1 {
          assert fills[i] == p.proc.pending[key].agg.fills[i];
        }
      }
    }
    forall k | 0 <= k < |q.queue| ensures QueueShielded(q.proc, q.queue[k], agg) {
      assert QueueShielded(p.proc, p.queue[k], agg);
    }
    forall n | row < n < |q.proc.writes| && q.proc.writes[n].Key() == agg.Key()
      ensures Gone(q, agg.fills)
    {
      if n < |p.proc.writes| {
        assert p.proc.writes[n] == q.proc.writes[n];
      } else {
        assert q.proc.writes[n].Key() == key;
      }
    }
  }

  // What protects the legs when a message is handled now.
  predicate Admitted(p: Pipe, msg: Event) {
    msg.FillMsg? ==>
      StampedBy(msg.fill, p.proc.now, p.lag) &&
      var key := OrderKey(msg.address, msg.fill.oid, msg.direction);
      !Live(p.proc.dedup, key, p.proc.now) ==>
        forall i :: 0 <= i < |p.proc.published| && i !in p.lost && p.proc.published[i].agg.Key() == key ==>
          Later(p.proc.published[i].agg.fills, msg.fill)
  }

  lemma FillIsSafe(p: Pipe, address: string, fill: Fill, direction: string)
    requires Safe(p) && Admitted(p, FillMsg(address, fill, direction))
    ensures Safe(Advance(p, FillMsg(address, fill, direction)))
  {
    var key := OrderKey(address, fill.oid, direction);
    FillEffect(p.proc, address, fill, direction);
    if Accepts(p.proc, key, fill) {
      var q := p.(proc := StoreFill(p.proc, address, fill, direction));
      StoreIsSound(p, q, address, fill, direction);
      forall i | 0 <= i < |q.proc.published| && i !in q.lost
        ensures Shielded(q, q.proc.published[i].agg, q.sentRow[i])
      {
        assert SentSound(p, i);
        assert key in p.proc.pending ==> PendingSound(p.proc, key, p.lag);
        StoreShielded(p, q, address, fill, direction, p.proc.published[i].agg, p.sentRow[i]);
      }
      QuietIsSafe(q, Advance(p, FillMsg(address, fill, direction)));
    }
  }

  lemma HandledIsSafe(p: Pipe, msg: Event)
    requires Safe(p) && (msg.FillMsg? || msg.StatusMsg?) && Admitted(p, msg)
    ensures Safe(Advance(p, msg))
  {
    match msg
    case FillMsg(address, fill, direction) => FillIsSafe(p, address, fill, direction);
    case StatusMsg(address, oid, status, direction) =>
      StatusIsQuiet(p.proc, address, oid, status, direction);
      QuietIsSafe(p, Advance(p, msg));
  }

  // ----- Arrival -----

  // What the age filter and the dedup check let through is new to every
  // shielded signal of its key.
  lemma OfferedIsLater(p: Pipe, address: string, fill: Fill, direction: string, filteredAt: int, i: nat)
    requires Safe(p) && i < |p.proc.published| && i !in p.lost
    requires p.proc.published[i].agg.Key() == OrderKey(address, fill.oid, direction)
    requires !TooOld(filteredAt, fill) && Horizon(p) <= filteredAt
    requires !Live(p.proc.dedup, OrderKey(address, fill.oid, direction), p.proc.now)
    ensures Later(p.proc.published[i].agg.fills, fill)
  {
    var agg := p.proc.published[i].agg;
    assert SentSound(p, i);
    UnsuppressedIsStale(p, agg, p.sentRow[i]);
    StaleForGood(agg.fills, Horizon(p), filteredAt);
    FreshIsLater(agg.fills, fill, filteredAt);
  }

  lemma WaitingIsSafe(p: Pipe, msg: Event)
    requires Safe(p) && (msg.FillMsg? || msg.StatusMsg?) && Admitted(p, msg)
    requires msg.FillMsg? ==>
               !Live(p.proc.dedup, OrderKey(msg.address, msg.fill.oid, msg.direction), p.proc.now)
    ensures Safe(p.(queue := p.queue + [Queued(msg, p.proc.now)]))
  {
    var q := p.(queue := p.queue + [Queued(msg, p.proc.now)]);
    forall k | 0 <= k < |q.queue| ensures QueuedInTime(q, q.queue[k]) {
      if k < |p.queue| {
        assert QueuedInTime(p, p.queue[k]);
      }
    }
    forall i | 0 <= i < |q.proc.published| ensures SentSound(q, i) {
      assert SentSound(p, i);
    }
    forall i | 0 <= i < |q.proc.published| && i !in q.lost
      ensures Shielded(q, q.proc.published[i].agg, q.sentRow[i])
    {
      var agg := p.proc.published[i].agg;
      assert Shielded(p, agg, p.sentRow[i]);
      forall k | 0 <= k < |q.queue| ensures QueueShielded(q.proc, q.queue[k], agg) {
        if k < |p.queue| {
          assert QueueShielded(p.proc, p.queue[k], agg);
        }
      }
    }
  }

  lemma EnqueueIsSafe(p: Pipe, msg: Event)
    requires Safe(p) && (msg.FillMsg? || msg.StatusMsg?) && Admitted(p, msg)
    requires msg.FillMsg? ==>
               !Live(p.proc.dedup, OrderKey(msg.address, msg.fill.oid, msg.direction), p.proc.now)
    ensures Safe(Enqueue(p, msg))
  {
    if |p.queue| < QUEUE_CAPACITY {
      WaitingIsSafe(p, msg);
    } else {
      HandledIsSafe(p, msg);
    }
  }

  lemma OfferIsSafe(p: Pipe, address: string, fill: Fill, direction: string, filteredAt: int)
    requires Safe(p) && Timely(p, OfferFill(address, fill, direction, filteredAt))
    ensures Safe(Offer(p, address, fill, direction, filteredAt))
  {
    var key := OrderKey(address, fill.oid, direction);
    if !TooOld(filteredAt, fill) && !Live(p.proc.dedup, key, p.proc.now) {
      forall i | 0 <= i < |p.proc.published| && i !in p.lost && p.proc.published[i].agg.Key() == key
        ensures Later(p.proc.published[i].agg.fills, fill)
      {
        OfferedIsLater(p, address, fill, direction, filteredAt, i);
      }
      EnqueueIsSafe(p, FillMsg(address, fill, direction));
    }
  }

  // ----- The queue's worker -----

  lemma PoppedIsSafe(p: Pipe)
    requires Safe(p) && p.queue != []
    ensures Safe(p.(queue := p.queue[1..]))
  {
    var q := p.(queue := p.queue[1..]);
    forall k | 0 <= k < |q.queue| ensures QueuedInTime(q, q.queue[k]) {
      assert QueuedInTime(p, p.queue[k + 1]);
    }
    forall i | 0 <= i < |q.proc.published| ensures SentSound(q, i) {
      assert SentSound(p, i);
    }
    forall i | 0 <= i < |q.proc.published| && i !in q.lost
      ensures Shielded(q, q.proc.published[i].agg, q.sentRow[i])
    {
      var agg := p.proc.published[i].agg;
      assert Shielded(p, agg, p.sentRow[i]);
      forall k | 0 <= k < |q.queue| ensures QueueShielded(q.proc, q.queue[k], agg) {
        assert QueueShielded(p.proc, p.queue[k + 1], agg);
      }
    }
  }

  // A message that waited less than the TTL either is new to every shielded
  // signal of its key or still finds the key suppressed.
  lemma HeadIsAdmitted(p: Pipe)
    requires Safe(p) && p.queue != [] && p.proc.now <= p.queue[0].at + DEDUP_TTL
    ensures Admitted(p, p.queue[0].msg)
  {
    var q := p.queue[0];
    assert QueuedInTime(p, q);
    if q.msg.FillMsg? {
      var key := OrderKey(q.msg.address, q.msg.fill.oid, q.msg.direction);
      StampedFill(q.msg.fill, q.at, p.proc.now, p.lag);
      if !Live(p.proc.dedup, key, p.proc.now) {
        forall i | 0 <= i < |p.proc.published| && i !in p.lost && p.proc.published[i].agg.Key() == key
          ensures Later(p.proc.published[i].agg.fills, q.msg.fill)
        {
          assert Shielded(p, p.proc.published[i].agg, p.sentRow[i]);
          assert QueueShielded(p.proc, q, p.proc.published[i].agg);
        }
      }
    }
  }

  lemma HandleNextIsSafe(p: Pipe)
    requires Safe(p) && Timely(p, HandleNext)
    ensures Safe(PipeStep(p, HandleNext))
  {
    if p.queue != [] {
      assert QueuedInTime(p, p.queue[0]);
      HeadIsAdmitted(p);
      PoppedIsSafe(p);
      HandledIsSafe(p.(queue := p.queue[1..]), p.queue[0].msg);
    }
  }

  // ----- A signal is published -----

  lemma PublishIsSafe(p: Pipe, key: string, status: string)
    requires Safe(p) && Publishes(p.proc, key, true)
    ensures Safe(p.(proc := Publish(p.proc, key, status), sentRow := p.sentRow + [|p.proc.writes|]))
  {
    var q := p.(proc := Publish(p.proc, key, status), sentRow := p.sentRow + [|p.proc.writes|]);
    assert PendingSound(p.proc, key, p.lag);
    PublishIsSound(p, q, key, status);
    var n := |p.proc.published|;
    forall i | 0 <= i < |q.proc.published| && i !in q.lost
      ensures Shielded(q, q.proc.published[i].agg, q.sentRow[i])
    {
      if i < n {
        assert SentSound(p, i);
        PublishShieldsOld(p, q, key, status, p.proc.published[i].agg, p.sentRow[i]);
      } else {
        PublishShieldsNew(p, q, key, status);
      }
    }
    forall i, j | 0 <= i < j < |q.proc.published| && i !in q.lost &&
                  q.proc.published[i].agg.Key() == q.proc.published[j].agg.Key()
      ensures AllLater(q.proc.published[i].agg.fills, q.proc.published[j].agg.fills)
    {
      assert q.proc.published[i] == p.proc.published[i];
      if j == n {
        assert q.proc.published[j].agg.Key() == key;
        assert Shielded(p, p.proc.published[i].agg, p.sentRow[i]);
      }
    }
  }

  lemma PublishIsSound(p: Pipe, q: Pipe, key: string, status: string)
    requires Sound(p) && Publishes(p.proc, key, true) && PendingSound(p.proc, key, p.lag)
    requires q == p.(proc := Publish(p.proc, key, status), sentRow := p.sentRow + [|p.proc.writes|])
    ensures Sound(q)
  {
    forall k | k in q.proc.pending ensures PendingSound(q.proc, k, q.lag) {
      assert PendingSound(p.proc, k, p.lag);
    }
    forall k | 0 <= k < |q.queue| ensures QueuedInTime(q, q.queue[k]) {
      assert QueuedInTime(p, p.queue[k]);
    }
    forall i | 0 <= i < |q.proc.published| ensures SentSound(q, i) {
      if i < |p.proc.published| {
        assert SentSound(p, i);
      } else {
        SentIsStamped(p.proc.pending[key].agg, status, p.proc.now, p.lag);
      }
    }
  }

  lemma SentIsStamped(agg: Aggregation, status: string, now: int, lag: nat)
    requires Stamped(agg, lag) && agg.updatedAt <= now
    ensures Stamped(SentRow(agg, status, now), lag)
  {
    MillisMonotone(agg.updatedAt + 1 - lag, now + 1 - lag);
  }

  lemma PublishShieldsOld(p: Pipe, q: Pipe, key: string, status: string, agg: Aggregation, row: nat)
    requires Sound(p) && Publishes(p.proc, key, true) && PendingSound(p.proc, key, p.lag)
    requires q == p.(proc := Publish(p.proc, key, status), sentRow := p.sentRow + [|p.proc.writes|])
    requires Shielded(p, agg, row) && row < |p.proc.writes|
    ensures Shielded(q, agg, row)
  {
    forall k | 0 <= k < |q.queue| ensures QueueShielded(q.proc, q.queue[k], agg) {
      assert QueueShielded(p.proc, p.queue[k], agg);
    }
    forall n | row < n < |q.proc.writes| && q.proc.writes[n].Key() == agg.Key()
      ensures Gone(q, agg.fills)
    {
      if n < |p.proc.writes| {
        assert p.proc.writes[n] == q.proc.writes[n];
      } else {
        assert q.proc.writes[n].Key() == key;
      }
    }
  }

  lemma PublishShieldsNew(p: Pipe, q: Pipe, key: string, status: string)
    requires Sound(p) && Publishes(p.proc, key, true) && PendingSound(p.proc, key, p.lag)
    requires q == p.(proc := Publish(p.proc, key, status), sentRow := p.sentRow + [|p.proc.writes|])
    ensures Shielded(q, q.proc.published[|p.proc.published|].agg, |p.proc.writes|)
  {
    var agg := q.proc.published[|p.proc.published|].agg;
    assert agg.Key() == key;
    forall k | 0 <= k < |q.queue| ensures QueueShielded(q.proc, q.queue[k], agg) {
      assert QueuedInTime(p, p.queue[k]);
    }
  }

  lemma FlushIsSafe(p: Pipe, i: nat, publishOk: bool)
    requires Safe(p)
    ensures Safe(Advance(p, FlushAt(i, publishOk)))
  {
    if i < |p.proc.flushChan| {
      var req := p.proc.flushChan[i];
      var p1 := p.(proc := p.proc.(flushChan := Without(p.proc.flushChan, i)));
      QuietIsSafe(p, p1);
      if Publishes(p1.proc, req.key, publishOk) {
        PublishIsSafe(p1, req.key, req.status);
      }
    }
  }

  // ----- Persistence, cleaning, restart -----

  lemma WriteIsSafe(p: Pipe, ok: bool)
    requires Safe(p)
    ensures Safe(Write(p, ok))
  {
    var q := Write(p, ok);
    forall k | 0 <= k < |q.queue| ensures QueuedInTime(q, q.queue[k]) {
      assert QueuedInTime(p, p.queue[k]);
    }
    forall i | 0 <= i < |q.proc.published| ensures SentSound(q, i) {
      assert SentSound(p, i);
    }
    forall i | 0 <= i < |q.proc.published| && i !in q.lost
      ensures Shielded(q, q.proc.published[i].agg, q.sentRow[i])
    {
      assert SentSound(p, i);
      WriteShielded(p, ok, p.proc.published[i].agg, p.sentRow[i]);
    }
  }

  lemma WriteShielded(p: Pipe, ok: bool, agg: Aggregation, row: nat)
    requires Shielded(p, agg, row) && row < |p.proc.writes| && p.proc.writes[row] == agg
    requires forall n :: n in p.stored ==> n < p.applied
    ensures Shielded(Write(p, ok), agg, row)
  {
    var q := Write(p, ok);
    forall k | 0 <= k < |q.queue| ensures QueueShielded(q.proc, q.queue[k], agg) {
      assert QueueShielded(p.proc, p.queue[k], agg);
    }
    if p.applied < |p.proc.writes| && ok && row in q.stored {
      var w := p.proc.writes[p.applied];
      if Id(w) == Id(agg) && row < p.applied {
        assert w.Key() == agg.Key();
      }
    }
  }

  lemma CleanIsSafe(p: Pipe)
    requires Safe(p)
    ensures Safe(PipeStep(p, Clean))
  {
    var q := PipeStep(p, Clean);
    forall k | 0 <= k < |q.queue| ensures QueuedInTime(q, q.queue[k]) {
      assert QueuedInTime(p, p.queue[k]);
    }
    forall i | 0 <= i < |q.proc.published| ensures SentSound(q, i) {
      assert SentSound(p, i);
    }
    forall i | 0 <= i < |q.proc.published| && i !in q.lost
      ensures Shielded(q, q.proc.published[i].agg, q.sentRow[i])
    {
      assert SentSound(p, i);
      CleanShielded(p, p.proc.published[i].agg, p.sentRow[i]);
    }
  }

  lemma CleanShielded(p: Pipe, agg: Aggregation, row: nat)
    requires Shielded(p, agg, row) && Stamped(agg, p.lag)
    ensures Shielded(PipeStep(p, Clean), agg, row)
  {
    var q := PipeStep(p, Clean);
    forall k | 0 <= k < |q.queue| ensures QueueShielded(q.proc, q.queue[k], agg) {
      assert QueueShielded(p.proc, p.queue[k], agg);
    }
    if Expired(agg, p.proc.now) {
      StaleWhenCleaned(agg, p.proc.now, p.lag);
      StaleForGood(agg.fills, p.proc.now - p.lag, Horizon(p));
    }
  }

  lemma RestartIsSafe(p: Pipe, downtime: nat, loadOk: bool)
    requires Safe(p)
    ensures Safe(CrashAndReload(p, downtime, loadOk))
  {
    var q := CrashAndReload(p, downtime, loadOk);
    forall i | 0 <= i < |q.proc.published| ensures SentSound(q, i) {
      assert SentSound(p, i);
    }
    forall n | n in q.stored ensures n < q.applied {
    }
    forall i | 0 <= i < |q.proc.published| && i !in q.lost
      ensures Shielded(q, q.proc.published[i].agg, q.sentRow[i])
    {
      assert SentSound(p, i);
      var agg := p.proc.published[i].agg;
      if Gone(q, agg.fills) {
        GoneShielded(q, agg, p.sentRow[i]);
      } else {
        assert i !in Exposed(p, q.proc.now, loadOk);
        MarkedShielded(q, agg, p.sentRow[i], p.proc.now);
      }
    }
  }

  // Nothing is left to protect when the fills are too old.
  lemma GoneShielded(q: Pipe, agg: Aggregation, row: nat)
    requires Gone(q, agg.fills) && q.queue == [] && q.proc.pending == map[]
    ensures Shielded(q, agg, row)
  {
  }

  // A key that the reload marks is suppressed for a whole TTL from now on.
  lemma MarkedShielded(q: Pipe, agg: Aggregation, row: nat, before: int)
    requires q.queue == [] && q.proc.pending == map[] && agg.updatedAt <= before <= q.proc.now
    requires agg.Key() in q.proc.dedup && q.proc.dedup[agg.Key()] == q.proc.now + DEDUP_TTL
    requires row in q.stored ==> (Id(agg) in q.db && q.db[Id(agg)] == agg) || Gone(q, agg.fills)
    requires forall n :: row < n < |q.proc.writes| && q.proc.writes[n].Key() == agg.Key() ==> Gone(q, agg.fills)
    ensures Shielded(q, agg, row)
  {
  }

  // A signal whose row was stored is not exposed by a reload that succeeds.
  lemma StoredIsNotExposed(p: Pipe, downtime: nat, i: nat)
    requires Safe(p) && i < |p.proc.published| && i !in p.lost && p.sentRow[i] in p.stored
    ensures i !in Exposed(p, p.proc.now + downtime, true)
  {
    var agg, now := p.proc.published[i].agg, p.proc.now + downtime;
    assert SentSound(p, i);
    assert Shielded(p, agg, p.sentRow[i]);
    if Gone(p, agg.fills) {
      StaleForGood(agg.fills, Horizon(p), now);
    } else if Reloaded(agg, now) {
      assert Id(agg) in p.db && p.db[Id(agg)] == agg;
      assert agg.Key() in SentKeysSince(p.db, now);
    } else {
      StaleOutsideReload(agg, now, p.lag);
      StaleForGood(agg.fills, now - p.lag, now);
    }
  }

  // ----- Runs -----

  lemma StepIsSafe(p: Pipe, e: PipeEvent)
    requires Safe(p) && Timely(p, e)
    ensures Safe(PipeStep(p, e))
  {
    match e
    case OfferFill(address, fill, direction, filteredAt) => OfferIsSafe(p, address, fill, direction, filteredAt);
    case OfferStatus(address, oid, status) => EnqueueIsSafe(p, StatusMsg(address, oid, status, ""));
    case HandleNext => HandleNextIsSafe(p);
    case Internal(event) =>
      match event {
        case FlushAt(i, publishOk) => FlushIsSafe(p, i, publishOk);
        case TimeoutScan(order) =>
          ScanIsQuiet(p.proc, order);
          QuietIsSafe(p, Advance(p, event));
        case Tick(elapsed) => TickIsSafe(p, elapsed);
        case _ =>
      }
    case WriteNext(ok) => WriteIsSafe(p, ok);
    case Clean => CleanIsSafe(p);
    case Restart(downtime, loadOk) => RestartIsSafe(p, downtime, loadOk);
  }

  lemma {:induction false} RunIsSafe(p: Pipe, es: seq<PipeEvent>)
    requires Safe(p) && TimelyRun(p, es)
    ensures Safe(PipeRun(p, es))
  {
    if es != [] {
      RunIsSafe(p, es[..|es| - 1]);
      StepIsSafe(PipeRun(p, es[..|es| - 1]), es[|es| - 1]);
    }
  }

  // Replay and restart safety.  In every timely run, over any number of
  // crashes: of two signals of one leg, every fill of the later one is strictly
  // later than every fill of the earlier one, so they share none, unless a
  // crash overtook the earlier signal's row or its reload failed.
  lemma NoFillCountedTwice(now: int, lag: nat, es: seq<PipeEvent>, i: nat, j: nat, f: Fill, g: Fill)
    requires TimelyRun(Start(now, lag), es)
    requires var p := PipeRun(Start(now, lag), es);
             && i < j < |p.proc.published| && i !in p.lost
             && p.proc.published[i].agg.Key() == p.proc.published[j].agg.Key()
             && f in p.proc.published[i].agg.fills && g in p.proc.published[j].agg.fills
    ensures f.time < g.time
  {
    RunIsSafe(Start(now, lag), es);
    var p := PipeRun(Start(now, lag), es);
    var earlier, later := p.proc.published[i].agg.fills, p.proc.published[j].agg.fills;
    assert AllLater(earlier, later);
    var m :| 0 <= m < |earlier| && earlier[m] == f;
    var n :| 0 <= n < |later| && later[n] == g;
    assert Later(earlier, later[n]);
  }

  predicate NoCrash(es: seq<PipeEvent>) {
    forall i :: 0 <= i < |es| ==> !es[i].Restart?
  }

  lemma {:induction false} NothingLostWithoutCrash(p: Pipe, es: seq<PipeEvent>)
    requires NoCrash(es)
    ensures PipeRun(p, es).lost == p.lost
  {
    if es != [] {
      NothingLostWithoutCrash(p, es[..|es| - 1]);
    }
  }

  // Without a crash there is no exception.
  lemma ReplaySafety(now: int, lag: nat, es: seq<PipeEvent>, i: nat, j: nat)
    requires TimelyRun(Start(now, lag), es) && NoCrash(es)
    requires var log := PipeRun(Start(now, lag), es).proc.published;
             i < j < |log| && log[i].agg.Key() == log[j].agg.Key()
    ensures var log := PipeRun(Start(now, lag), es).proc.published;
            forall f :: f in log[i].agg.fills ==> f !in log[j].agg.fills
  {
    NothingLostWithoutCrash(Start(now, lag), es);
    var log := PipeRun(Start(now, lag), es).proc.published;
    forall f | f in log[i].agg.fills ensures f !in log[j].agg.fills {
      if f in log[j].agg.fills {
        NoFillCountedTwice(now, lag, es, i, j, f, f);
      }
    }
  }

  // How the two 30 minute windows meet: a fill published at m can pass an age
  // filter whose dedup check comes within the lag, but after the mark expired,
  // exactly when it was stamped later than the trust in the exchange allows.
  lemma WindowsMeet(m: int, lag: nat, fill: Fill)
    ensures (exists filteredAt, checkedAt :: SlipsThrough(m, lag, fill, filteredAt, checkedAt)) <==>
            !StampedBy(fill, m, lag)
  {
    MillisShift(m + 1 - lag, MAX_FILL_AGE);
    if !StampedBy(fill, m, lag) {
      assert SlipsThrough(m, lag, fill, m + 1 + DEDUP_TTL - lag, m + 1 + DEDUP_TTL);
    }
    forall filteredAt, checkedAt | SlipsThrough(m, lag, fill, filteredAt, checkedAt)
      ensures !StampedBy(fill, m, lag)
    {
      MillisMonotone(m + 1 - lag + DEDUP_TTL, filteredAt);
    }
  }

  predicate SlipsThrough(m: int, lag: nat, fill: Fill, filteredAt: int, checkedAt: int) {
    m + DEDUP_TTL < checkedAt <= filteredAt + lag && !TooOld(filteredAt, fill)
  }
}
