/** The webhook outbox table and what each statement of its repository does to it. */
module Outbox {
  import opened Common
  import opened RetryDelay

  /** The event a location check publishes. */
  datatype CheckCompleted = CheckCompleted(checkId: nat, userId: string, incidentIds: seq<nat>, occurredAt: int)

  /** A payload column or message body: the JSON of an event, or text that is not. */
  datatype Body = Json(event: CheckCompleted) | Garbage(text: string)

  datatype Status = Pending | Dispatched | Dead

  datatype Row = Row(eventType: string, payload: Body, status: Status, attempts: nat,
                     nextAttemptAt: int, lastError: Option<string>)

  type Table = map<nat, Row>

  /** One row of ClaimBatch's RETURNING clause. */
  datatype Event = Event(id: nat, eventType: string, payload: Body, attempts: nat)

  const BATCH_SIZE: nat := 100
  const MAX_ATTEMPTS: nat := 10

  function NewRow(eventType: string, payload: Body, now: int): Row {
    Row(eventType, payload, Pending, 0, now, None)
  }

  function Ids(events: seq<Event>): set<nat> {
    set ev | ev in events :: ev.id
  }

  ghost predicate DistinctIds(events: seq<Event>) {
    forall i, j :: 0 <= i < j < |events| ==> events[i].id != events[j].id
  }

  lemma {:induction false} IdsCardinality(events: seq<Event>)
    requires DistinctIds(events)
    ensures |Ids(events)| == |events|
  {
    if events != [] {
      var last := |events| - 1;
      IdsCardinality(events[..last]);
      assert events == events[..last] + [events[last]];
      assert Ids(events) == Ids(events[..last]) + {events[last].id};
      assert events[last].id !in Ids(events[..last]);
    }
  }

  /** Pending rows whose next attempt is not in the future. */
  function Due(t: Table, now: int): set<nat> {
    set id | id in t && t[id].status.Pending? && t[id].nextAttemptAt <= now
  }

  /** `ids` is what SELECT ... ORDER BY id FOR UPDATE SKIP LOCKED LIMIT returns when other
      transactions hold locks on `locked`: the smallest unlocked due ids, at most `limit`. */
  ghost predicate IsBatch(t: Table, now: int, limit: nat, locked: set<nat>, ids: set<nat>) {
    var free := Due(t, now) - locked;
    && ids <= free
    && |ids| <= limit
    && (|ids| < limit ==> ids == free)
    && forall i, j :: i in ids && j in free && j !in ids ==> i < j
  }

  /** There is only one such batch. */
  lemma BatchUnique(t: Table, now: int, limit: nat, locked: set<nat>, a: set<nat>, b: set<nat>)
    requires IsBatch(t, now, limit, locked, a) && IsBatch(t, now, limit, locked, b)
    ensures a == b
  {
    if |a| < |b| {
      SubsetCardinality(b, a);
    } else if |b| < |a| {
      SubsetCardinality(a, b);
    } else if a != b {
      var x, y := SameSizeDiffer(a, b);
      assert false;
    }
  }

  lemma {:induction false} MinExists(s: set<nat>) returns (m: nat)
    requires s != {}
    ensures m in s && forall x :: x in s ==> m <= x
    decreases s
  {
    var first :| first in s;
    m := first;
    if s - {first} != {} {
      var rest := MinExists(s - {first});
      if rest < first { m := rest; }
    }
    forall x | x in s ensures m <= x {
      if x != first { assert x in s - {first}; }
    }
  }

  /** There is always one, and it is not empty if anything unlocked is due. */
  lemma {:induction false} BatchExists(t: Table, now: int, limit: nat, locked: set<nat>) returns (ids: set<nat>)
    ensures IsBatch(t, now, limit, locked, ids)
    decreases limit
  {
    var free := Due(t, now) - locked;
    if limit == 0 {
      ids := {};
    } else {
      var fewer := BatchExists(t, now, limit - 1, locked);
      if fewer == free {
        ids := fewer;
      } else {
        var other :| other in free && other !in fewer;
        assert other in free - fewer;
        var m := MinExists(free - fewer);
        ids := fewer + {m};
        forall i, j | i in ids && j in free && j !in ids ensures i < j {
          assert j in free - fewer;
        }
      }
    }
  }

  /** RETURNING can list any set of rows. */
  lemma {:induction false} ListingExists(t: Table, ids: set<nat>) returns (events: seq<Event>)
    requires ids <= t.Keys
    ensures Returning(t, ids, events)
    decreases ids
  {
    if ids == {} {
      events := [];
    } else {
      var id :| id in ids;
      var rest := ListingExists(t, ids - {id});
      events := rest + [EventOf(t, id)];
      assert forall ev :: ev in rest ==> ev.id in Ids(rest);
      assert Ids(events) == Ids(rest) + {id};
    }
  }

  /** UPDATE ... SET attempts = attempts + 1 WHERE id in ids. */
  function Bump(t: Table, ids: set<nat>): Table {
    map id | id in t :: if id in ids then t[id].(attempts := t[id].attempts + 1) else t[id]
  }

  /** `events` lists the rows `ids` of t, in any order. */
  ghost predicate Returning(t: Table, ids: set<nat>, events: seq<Event>) {
    && DistinctIds(events)
    && Ids(events) == ids
    && ids <= t.Keys
    && forall ev :: ev in events ==> ev == EventOf(t, ev.id)
  }

  function EventOf(t: Table, id: nat): Event
  {
    if id in t then Event(id, t[id].eventType, t[id].payload, t[id].attempts)
    else Event(id, "", Garbage(""), 0)
  }

  function Dispatch(t: Table, ids: set<nat>): Table {
    map id | id in t :: if id in ids then t[id].(status := Dispatched) else t[id]
  }

  function Retry(t: Table, ids: set<nat>, next: int, msg: string): Table {
    map id | id in t ::
      if id in ids then t[id].(status := Pending, nextAttemptAt := next, lastError := Some(msg)) else t[id]
  }

  function Kill(t: Table, ids: set<nat>, msg: string): Table {
    map id | id in t :: if id in ids then t[id].(status := Dead, lastError := Some(msg)) else t[id]
  }

  function Exhausted(events: seq<Event>): set<nat> {
    set ev | ev in events && ev.attempts >= MAX_ATTEMPTS :: ev.id
  }

  function Retryable(events: seq<Event>): set<nat> {
    set ev | ev in events && ev.attempts < MAX_ATTEMPTS :: ev.id
  }

  /** The whole effect of the mark transaction after a failed push. */
  function FailBatch(t: Table, events: seq<Event>, next: int, msg: string): Table {
    Retry(Kill(t, Exhausted(events), msg), Retryable(events), next, msg)
  }

  /** Every row of a failed batch is exactly one of dead and pending at the shared time;
      no other row changes. */
  lemma FailBatchPartition(t: Table, events: seq<Event>, next: int, msg: string, id: nat)
    requires DistinctIds(events)
    ensures FailBatch(t, events, next, msg).Keys == t.Keys
    ensures id in t && id !in Ids(events) ==> FailBatch(t, events, next, msg)[id] == t[id]
    ensures forall ev :: ev in events && ev.id == id && id in t ==>
      FailBatch(t, events, next, msg)[id] ==
        if ev.attempts >= 10 then t[id].(status := Dead, lastError := Some(msg))
        else t[id].(status := Pending, nextAttemptAt := next, lastError := Some(msg))
  {
    forall ev | ev in events && ev.id == id && id in t
      ensures ev.attempts >= MAX_ATTEMPTS ==> id !in Retryable(events)
      ensures ev.attempts < MAX_ATTEMPTS ==> id in Retryable(events)
      ensures ev.attempts >= MAX_ATTEMPTS ==> id in Exhausted(events)
      ensures ev.attempts < MAX_ATTEMPTS ==> id !in Exhausted(events)
    {
      UniqueEvent(events, ev);
    }
  }

  /** An id names one event of the batch. */
  lemma UniqueEvent(events: seq<Event>, ev: Event)
    requires DistinctIds(events) && ev in events
    ensures forall e :: e in events && e.id == ev.id ==> e == ev
  {
    var i :| 0 <= i < |events| && events[i] == ev;
    forall e | e in events && e.id == ev.id ensures e == ev {
      var j :| 0 <= j < |events| && events[j] == e;
    }
  }

  /** minAttempts: the smallest claimed attempt count of the batch, and at least 1. */
  function MinAttempts(events: seq<Event>): (m: nat)
    ensures m >= 1 && (events == [] ==> m == 1)
    ensures forall ev :: ev in events ==> m <= ev.attempts || m == 1
    ensures (forall ev :: ev in events ==> ev.attempts >= 1) && events != [] ==>
      exists ev :: ev in events && ev.attempts == m
  {
    if events == [] then 1
    else var m := Smallest(events); if m < 1 then 1 else m
  }

  function Smallest(events: seq<Event>): (m: nat)
    requires events != []
    ensures forall ev :: ev in events ==> m <= ev.attempts
    ensures exists ev :: ev in events && ev.attempts == m
  {
    if |events| == 1 then events[0].attempts
    else
      var rest := Smallest(events[..|events| - 1]);
      var last := events[|events| - 1];
      assert events == events[..|events| - 1] + [last];
      assert last in events;
      if last.attempts < rest then last.attempts else rest
  }

  /** The delay a failed batch shares. */
  function Delay(events: seq<Event>): nat {
    Backoff(MinAttempts(events))
  }

  /** The outbox a committed mark transaction leaves behind. */
  function MarkBatch(t: Table, events: seq<Event>, ok: bool, markAt: int, msg: string): Table {
    if ok then Dispatch(t, Ids(events)) else FailBatch(t, events, markAt + Delay(events), msg)
  }

  /** When the rows of a failed batch are due again: m is the least attempt count among them,
      and the wait is 2^m seconds, never more than 300, for every retried row alike. */
  lemma RetriedRow(t: Table, events: seq<Event>, markAt: int, msg: string, ev: Event, m: nat)
    requires DistinctIds(events) && ev in events && ev.id in t && ev.attempts < 10
    requires m >= 1 && (forall e :: e in events ==> m <= e.attempts) && exists e :: e in events && e.attempts == m
    ensures m <= 9 && ev.id in MarkBatch(t, events, false, markAt, msg)
    ensures MarkBatch(t, events, false, markAt, msg)[ev.id] ==
      t[ev.id].(status := Pending,
                nextAttemptAt := markAt + [0, 2, 4, 8, 16, 32, 64, 128, 256, 300][m] * 1_000_000_000,
                lastError := Some(msg))
  {
    assert MinAttempts(events) == m;
    BackoffTable(m);
    FailBatchPartition(t, events, markAt + Delay(events), msg, ev.id);
  }
}
