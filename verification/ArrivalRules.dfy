// What gets into the pipeline and what a new process knows, in numbers: the thirty
// minutes of the age filter, the queue's ten thousand places, the thirty minutes
// of rows a reload reads, the two hours the cleaner keeps.
module ArrivalRules {
  import opened Keys
  import opened OrderProtocol
  import opened Pipeline

  // A message waits behind all others while there is a place, and is handled at
  // once when there is none.
  predicate Arrives(p: Pipe, q: Pipe, msg: Event) {
    if |p.queue| < 10_000 then q == p.(queue := p.queue + [Queued(msg, p.proc.now)])
    else q.proc == Step(p.proc, msg) && q == p.(proc := q.proc, sentRow := q.sentRow)
  }

  // The fill is older than thirty minutes at this clock reading, in whole
  // milliseconds; an age of exactly thirty minutes is not.
  predicate OlderThanHalfAnHour(at: int, fill: Fill) {
    at / 1_000_000 - fill.time > 1_800_000
  }

  // A fill is kept out exactly when it is older than that, or its leg's key bears
  // a mark that has not expired.
  lemma OfferedFill(p: Pipe, address: string, fill: Fill, direction: string, at: int)
    ensures var key, q := OrderKey(address, fill.oid, direction), PipeStep(p, OfferFill(address, fill, direction, at));
            if OlderThanHalfAnHour(at, fill) || (key in p.proc.dedup && p.proc.now <= p.proc.dedup[key]) then q == p
            else Arrives(p, q, FillMsg(address, fill, direction))
  {
  }

  lemma OfferedStatus(p: Pipe, address: string, oid: int, status: string)
    ensures Arrives(p, PipeStep(p, OfferStatus(address, oid, status)), StatusMsg(address, oid, status, ""))
  {
  }

  // ----- Nothing stale is ever accepted -----

  // The fill was offered for this leg by an event of the run, not too old then.
  predicate OfferedFresh(es: seq<PipeEvent>, key: string, fill: Fill) {
    exists i :: 0 <= i < |es| && es[i].OfferFill? && OrderKey(es[i].address, es[i].fill.oid, es[i].direction) == key &&
                es[i].fill == fill && !OlderThanHalfAnHour(es[i].filteredAt, fill)
  }

  ghost predicate AllOffered(p: Pipe, es: seq<PipeEvent>) {
    && (forall i :: 0 <= i < |p.proc.accepted| ==> OfferedFresh(es, p.proc.accepted[i].key, p.proc.accepted[i].fill))
    && (forall i :: 0 <= i < |p.queue| && p.queue[i].msg.FillMsg? ==>
          var msg := p.queue[i].msg; OfferedFresh(es, OrderKey(msg.address, msg.fill.oid, msg.direction), msg.fill))
  }

  lemma StillOffered(es: seq<PipeEvent>, e: PipeEvent, key: string, fill: Fill)
    requires OfferedFresh(es, key, fill)
    ensures OfferedFresh(es + [e], key, fill)
  {
    var i :| 0 <= i < |es| && es[i].OfferFill? && OrderKey(es[i].address, es[i].fill.oid, es[i].direction) == key &&
             es[i].fill == fill && !OlderThanHalfAnHour(es[i].filteredAt, fill);
    assert (es + [e])[i] == es[i];
  }

  // Whatever a step of the processor accepts is the fill of its message.
  lemma AcceptsItsMessage(s: Proc, e: Event)
    ensures Step(s, e).accepted == s.accepted ||
            (e.FillMsg? &&
             Step(s, e).accepted == s.accepted + [Accepted(OrderKey(e.address, e.fill.oid, e.direction), e.fill)])
  {
    match e
    case FillMsg(address, fill, direction) => FillEffect(s, address, fill, direction);
    case StatusMsg(address, oid, status, direction) => StatusIsQuiet(s, address, oid, status, direction);
    case TimeoutScan(order) => ScanIsQuiet(s, order);
    case _ =>
  }

  lemma ArrivalIsOffered(p: Pipe, q: Pipe, msg: Event, es: seq<PipeEvent>, all: seq<PipeEvent>)
    requires AllOffered(p, es) && Arrives(p, q, msg)
    requires forall key, fill | OfferedFresh(es, key, fill) :: OfferedFresh(all, key, fill)
    requires msg.FillMsg? ==> OfferedFresh(all, OrderKey(msg.address, msg.fill.oid, msg.direction), msg.fill)
    ensures AllOffered(q, all)
  {
    AcceptsItsMessage(p.proc, msg);
  }

  // The fill that a step may newly queue or accept has just been offered, fresh,
  // or is that of the oldest message.
  lemma StepOffers(p: Pipe, e: PipeEvent, es: seq<PipeEvent>)
    requires AllOffered(p, es)
    ensures AllOffered(PipeStep(p, e), es + [e])
  {
    var q, all := PipeStep(p, e), es + [e];
    forall key, fill | OfferedFresh(es, key, fill) ensures OfferedFresh(all, key, fill) {
      StillOffered(es, e, key, fill);
    }
    match e
    case OfferFill(address, fill, direction, at) =>
      if !OlderThanHalfAnHour(at, fill) {
        assert all[|es|] == e;
        assert OfferedFresh(all, OrderKey(address, fill.oid, direction), fill);
      }
      OfferedFill(p, address, fill, direction, at);
      if q != p {
        ArrivalIsOffered(p, q, FillMsg(address, fill, direction), es, all);
      }
    case OfferStatus(address, oid, status) =>
      OfferedStatus(p, address, oid, status);
      ArrivalIsOffered(p, q, StatusMsg(address, oid, status, ""), es, all);
    case HandleNext =>
      if p.queue != [] {
        AcceptsItsMessage(p.proc, p.queue[0].msg);
      }
    case Internal(event) => AcceptsItsMessage(p.proc, event);
    case _ =>
  }

  // Over any run of the pipeline: every accepted fill was offered for its leg at
  // a reading at most thirty minutes after its stamp.
  lemma {:induction false} AcceptedWereFresh(now: int, lag: nat, es: seq<PipeEvent>)
    ensures AllOffered(PipeRun(Start(now, lag), es), es)
  {
    if es != [] {
      AcceptedWereFresh(now, lag, es[..|es| - 1]);
      StepOffers(PipeRun(Start(now, lag), es[..|es| - 1]), es[|es| - 1], es[..|es| - 1]);
      assert es[..|es| - 1] + [es[|es| - 1]] == es;
    }
  }

  // ----- What a new process knows -----

  // A key bears a mark exactly when the reload succeeds and finds a sent row of
  // it whose last fill came in the last thirty minutes, to the second; the mark
  // then lasts thirty minutes from now.
  lemma MarksAfterRestart(p: Pipe, downtime: nat, loadOk: bool, key: string)
    ensures var q, now := PipeStep(p, Restart(downtime, loadOk)), p.proc.now + downtime;
            && q.proc.now == now
            && (key in q.proc.dedup <==>
                loadOk && exists id :: id in p.db && p.db[id].signalSent && p.db[id].Key() == key &&
                                       p.db[id].lastFillTime >= (now - 1_800_000_000_000) / 1_000_000_000)
            && (key in q.proc.dedup ==> q.proc.dedup[key] == now + 1_800_000_000_000)
  {
  }

  // Nothing else survives but the logs and the table.
  lemma RestartForgets(p: Pipe, downtime: nat, loadOk: bool)
    ensures var q := PipeStep(p, Restart(downtime, loadOk));
            && q.proc.pending == map[] && q.proc.tracker == map[] && q.proc.flushChan == [] && q.queue == []
            && q.db == p.db && q.stored == p.stored && q.sentRow == p.sentRow
            && q.proc.published == p.proc.published && q.proc.accepted == p.proc.accepted
            && q.proc.writes == p.proc.writes && q.applied == |p.proc.writes|
  {
  }

  // The cleaner takes exactly the rows last updated before the second two hours ago.
  lemma Cleaned(p: Pipe, id: RowId)
    ensures var q := PipeStep(p, Clean);
            && q == p.(db := q.db)
            && (id in q.db <==>
                id in p.db && p.db[id].updatedAt >= (p.proc.now - 7_200_000_000_000) / 1_000_000_000 * 1_000_000_000)
            && (id in q.db ==> q.db[id] == p.db[id])
  {
  }

  // ----- What the table holds -----

  // Under every row the table holds, or has lost to the cleaner, the last of the
  // rows that were written successfully for it.
  predicate LastStored(writes: seq<Aggregation>, stored: set<nat>, id: RowId, n: nat) {
    && n < |writes| && n in stored && Id(writes[n]) == id
    && forall m :: n < m < |writes| && m in stored ==> Id(writes[m]) != id
  }

  predicate PastRetention(now: int, row: Aggregation) {
    row.updatedAt < (now - 7_200_000_000_000) / 1_000_000_000 * 1_000_000_000
  }

  ghost predicate TableIsStored(p: Pipe) {
    && p.applied <= |p.proc.writes| && (forall n :: n in p.stored ==> n < p.applied)
    && (forall id :: id in p.db ==>
          exists n: nat :: LastStored(p.proc.writes, p.stored, id, n) && p.db[id] == p.proc.writes[n])
    && (forall id, n: nat :: LastStored(p.proc.writes, p.stored, id, n) ==>
          (id in p.db && p.db[id] == p.proc.writes[n]) || PastRetention(p.proc.now, p.proc.writes[n]))
  }

  lemma WritesGrow(s: Proc, e: Event)
    ensures s.writes <= Step(s, e).writes && s.now <= Step(s, e).now
  {
    match e
    case FillMsg(address, fill, direction) => FillEffect(s, address, fill, direction);
    case StatusMsg(address, oid, status, direction) => StatusIsQuiet(s, address, oid, status, direction);
    case TimeoutScan(order) => ScanIsQuiet(s, order);
    case _ =>
  }

  // Steps that write nothing to the table only add to the log of writes.
  lemma LongerLog(p: Pipe, q: Pipe)
    requires TableIsStored(p) && p.proc.writes <= q.proc.writes && p.proc.now <= q.proc.now
    requires q.db == p.db && q.stored == p.stored && p.applied <= q.applied <= |q.proc.writes|
    ensures TableIsStored(q)
  {
    forall id, n: nat ensures LastStored(q.proc.writes, q.stored, id, n) <==> LastStored(p.proc.writes, p.stored, id, n) {
      if n < |p.proc.writes| {
        assert q.proc.writes[n] == p.proc.writes[n];
      }
      forall m | n < m < |p.proc.writes| ensures q.proc.writes[m] == p.proc.writes[m] {
      }
    }
    forall id | id in q.db
      ensures exists n: nat :: LastStored(q.proc.writes, q.stored, id, n) && q.db[id] == q.proc.writes[n]
    {
      var n: nat :| LastStored(p.proc.writes, p.stored, id, n) && p.db[id] == p.proc.writes[n];
      assert LastStored(q.proc.writes, q.stored, id, n) && q.proc.writes[n] == p.proc.writes[n];
    }
    forall id, n: nat | LastStored(q.proc.writes, q.stored, id, n)
      ensures (id in q.db && q.db[id] == q.proc.writes[n]) || PastRetention(q.proc.now, q.proc.writes[n])
    {
      assert LastStored(p.proc.writes, p.stored, id, n) && q.proc.writes[n] == p.proc.writes[n];
    }
  }

  lemma WriteKeepsTable(p: Pipe, ok: bool)
    requires TableIsStored(p)
    ensures TableIsStored(PipeStep(p, WriteNext(ok)))
  {
    var q, k := PipeStep(p, WriteNext(ok)), p.applied;
    if k < |p.proc.writes| {
      if ok {
        var row := Id(p.proc.writes[k]);
        assert LastStored(q.proc.writes, q.stored, row, k);
        forall id, n: nat
          ensures LastStored(q.proc.writes, q.stored, id, n) <==>
                  if id == row then n == k else LastStored(p.proc.writes, p.stored, id, n)
        {
        }
        forall id | id in q.db
          ensures exists n: nat :: LastStored(q.proc.writes, q.stored, id, n) && q.db[id] == q.proc.writes[n]
        {
          if id != row {
            var n: nat :| LastStored(p.proc.writes, p.stored, id, n) && p.db[id] == p.proc.writes[n];
            assert LastStored(q.proc.writes, q.stored, id, n);
          }
        }
      } else {
        LongerLog(p, q);
      }
    }
  }

  // Rows may go once they are past retention.
  lemma ShorterTable(p: Pipe, db: map<RowId, Aggregation>)
    requires TableIsStored(p)
    requires forall id :: id in db ==> id in p.db && db[id] == p.db[id]
    requires forall id :: id in p.db && id !in db ==> PastRetention(p.proc.now, p.db[id])
    ensures TableIsStored(p.(db := db))
  {
  }

  lemma CleanKeepsTable(p: Pipe)
    requires TableIsStored(p)
    ensures TableIsStored(PipeStep(p, Clean))
  {
    var q := PipeStep(p, Clean);
    forall id ensures id in q.db ==> id in p.db && q.db[id] == p.db[id]
              ensures id in p.db && id !in q.db ==> PastRetention(p.proc.now, p.db[id])
    {
      Cleaned(p, id);
    }
    ShorterTable(p, q.db);
  }

  lemma AdvanceGrows(p: Pipe, e: Event)
    requires TableIsStored(p)
    ensures TableIsStored(Advance(p, e))
  {
    WritesGrow(p.proc, e);
    LongerLog(p, Advance(p, e));
  }

  lemma StepKeepsTable(p: Pipe, e: PipeEvent)
    requires TableIsStored(p)
    ensures TableIsStored(PipeStep(p, e))
  {
    match e
    case OfferFill(address, fill, direction, _) =>
      AdvanceGrows(p, FillMsg(address, fill, direction));
      LongerLog(p, p.(queue := p.queue + [Queued(FillMsg(address, fill, direction), p.proc.now)]));
    case OfferStatus(address, oid, status) =>
      AdvanceGrows(p, StatusMsg(address, oid, status, ""));
      LongerLog(p, p.(queue := p.queue + [Queued(StatusMsg(address, oid, status, ""), p.proc.now)]));
    case HandleNext =>
      if p.queue != [] {
        LongerLog(p, p.(queue := p.queue[1..]));
        AdvanceGrows(p.(queue := p.queue[1..]), p.queue[0].msg);
      }
    case Internal(event) => AdvanceGrows(p, event);
    case WriteNext(ok) => WriteKeepsTable(p, ok);
    case Clean => CleanKeepsTable(p);
    case Restart(downtime, loadOk) => LongerLog(p, CrashAndReload(p, downtime, loadOk));
  }

  // Over any run: the table holds under each row the last aggregation that was
  // written for it successfully, until two hours have passed over that.
  lemma {:induction false} TableAfterRun(now: int, lag: nat, es: seq<PipeEvent>)
    ensures TableIsStored(PipeRun(Start(now, lag), es))
  {
    if es != [] {
      TableAfterRun(now, lag, es[..|es| - 1]);
      StepKeepsTable(PipeRun(Start(now, lag), es[..|es| - 1]), es[|es| - 1]);
    }
  }
}
