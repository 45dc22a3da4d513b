/** The outbox statements, each run inside a transaction. `fails` is the database's answer. */
module OutboxRepository {
  import opened Common
  import opened Outbox
  import opened UnitOfWork

  class Repository {
    const exec: Tx

    constructor (exec: Tx)
      ensures this.exec == exec
    {
      this.exec := exec;
    }

    method Enqueue(eventType: string, payload: Body, now: int, fails: bool) returns (err: Option<Error>)
      modifies exec, exec.db`outboxSeq
      ensures exec.aborted == (old(exec.aborted) || fails)
      ensures err.None? <==> !exec.aborted
      ensures exec.view == if exec.aborted then old(exec.view) else
        old(exec.view).(outbox := old(exec.view.outbox)[old(exec.db.outboxSeq) := NewRow(eventType, payload, now)])
      ensures err.None? ==>
        exec.view.outbox == old(exec.view.outbox)[old(exec.db.outboxSeq) := Row(eventType, payload, Pending, 0, now, None)]
      ensures exec.db.outboxSeq >= old(exec.db.outboxSeq)
      ensures err.None? ==> exec.db.outboxSeq == old(exec.db.outboxSeq) + 1
    {
      if exec.aborted { return Some(TxAborted); }
      var id := exec.db.outboxSeq;
      exec.db.outboxSeq := id + 1;
      if fails {
        exec.aborted := true;
        return Some(StatementFailed);
      }
      exec.view := exec.view.(outbox := exec.view.outbox[id := NewRow(eventType, payload, now)]);
      return None;
    }

    /** The smallest due ids no other transaction has locked are claimed; the order they are
        returned in is arbitrary. */
    method ClaimBatch(limit: nat, now: int, locked: set<nat>, fails: bool) returns (r: Result<seq<Event>>)
      modifies exec
      ensures exec.aborted == (old(exec.aborted) || fails)
      ensures r.Ok? <==> !exec.aborted
      ensures r.Err? ==> exec.view == old(exec.view)
      ensures r.Ok? ==>
        && exec.view == old(exec.view).(outbox := Bump(old(exec.view.outbox), Ids(r.value)))
        && IsBatch(old(exec.view.outbox), now, limit, locked, Ids(r.value))
        && Returning(exec.view.outbox, Ids(r.value), r.value)
      // a claim costs each of its rows one attempt, and touches nothing else
      ensures r.Ok? ==> forall id :: id in old(exec.view.outbox) ==>
        var row := old(exec.view.outbox)[id];
        && id in exec.view.outbox
        && exec.view.outbox[id] == if id in Ids(r.value) then row.(attempts := row.attempts + 1) else row
      ensures r.Ok? ==> forall id :: id in Ids(r.value) ==>
        && id in old(exec.view.outbox) && id !in locked
        && old(exec.view.outbox)[id].status == Pending && old(exec.view.outbox)[id].nextAttemptAt <= now
    {
      if exec.aborted { return Err(TxAborted); }
      if fails {
        exec.aborted := true;
        return Err(StatementFailed);
      }
      var ids := SmallestDue(exec.view.outbox, limit, locked, now);
      exec.view := exec.view.(outbox := Bump(exec.view.outbox, ids));
      var events := List(exec.view.outbox, ids);
      return Ok(events);
    }

    static method SmallestDue(t: Table, limit: nat, locked: set<nat>, now: int) returns (ids: set<nat>)
      ensures IsBatch(t, now, limit, locked, ids)
    {
      var free := Due(t, now) - locked;
      ids := {};
      while |ids| < limit && ids != free
        invariant IsBatch(t, now, |ids|, locked, ids)
        invariant |ids| <= limit
        decreases free - ids
      {
        assert exists id :: id in free && id !in ids by {
          if free <= ids { assert false; }
        }
        ghost var other :| other in free && other !in ids;
        assert other in free - ids;
        ghost var least := MinExists(free - ids);
        var m :| m in free - ids && forall x :: x in free - ids ==> m <= x;
        forall i, j | i in ids + {m} && j in free && j !in ids + {m} ensures i < j {
          assert j in free - ids;
        }
        ids := ids + {m};
      }
    }

    static method List(t: Table, ids: set<nat>) returns (events: seq<Event>)
      requires ids <= t.Keys
      ensures Returning(t, ids, events)
    {
      events := [];
      var rest := ids;
      while rest != {}
        invariant rest <= ids && Returning(t, ids - rest, events)
        decreases rest
      {
        var id :| id in rest;
        assert forall ev :: ev in events ==> ev.id in Ids(events);
        ghost var before := events;
        events := events + [EventOf(t, id)];
        assert Ids(events) == Ids(before) + {id};
        rest := rest - {id};
        assert ids - rest == Ids(events);
      }
    }

    method MarkDispatchedBatch(ids: seq<nat>, fails: bool) returns (err: Option<Error>)
      modifies exec
      ensures exec.aborted == (old(exec.aborted) || (ids != [] && fails))
      ensures err.None? <==> ids == [] || !exec.aborted
      ensures exec.view == if exec.aborted then old(exec.view)
                           else old(exec.view).(outbox := Dispatch(old(exec.view.outbox), ToSet(ids)))
      ensures err.None? && !exec.aborted ==> forall id :: id in old(exec.view.outbox) ==>
        var row := old(exec.view.outbox)[id];
        && id in exec.view.outbox
        && exec.view.outbox[id] == if id in ids then row.(status := Dispatched) else row
    {
      if |ids| == 0 {
        assert Dispatch(exec.view.outbox, ToSet(ids)) == exec.view.outbox;
        return None;
      }
      if exec.aborted { return Some(TxAborted); }
      if fails {
        exec.aborted := true;
        return Some(StatementFailed);
      }
      exec.view := exec.view.(outbox := Dispatch(exec.view.outbox, ToSet(ids)));
      return None;
    }

    method MarkRetryBatch(ids: seq<nat>, nextAttemptAt: int, lastErr: string, fails: bool) returns (err: Option<Error>)
      modifies exec
      ensures exec.aborted == (old(exec.aborted) || (ids != [] && fails))
      ensures err.None? <==> ids == [] || !exec.aborted
      ensures exec.view == if exec.aborted then old(exec.view)
                           else old(exec.view).(outbox := Retry(old(exec.view.outbox), ToSet(ids), nextAttemptAt, lastErr))
      ensures err.None? && !exec.aborted ==> forall id :: id in old(exec.view.outbox) ==>
        var row := old(exec.view.outbox)[id];
        && id in exec.view.outbox
        && exec.view.outbox[id] ==
             if id in ids then row.(status := Pending, nextAttemptAt := nextAttemptAt, lastError := Some(lastErr)) else row
    {
      if |ids| == 0 {
        assert Retry(exec.view.outbox, ToSet(ids), nextAttemptAt, lastErr) == exec.view.outbox;
        return None;
      }
      if exec.aborted { return Some(TxAborted); }
      if fails {
        exec.aborted := true;
        return Some(StatementFailed);
      }
      exec.view := exec.view.(outbox := Retry(exec.view.outbox, ToSet(ids), nextAttemptAt, lastErr));
      return None;
    }

    method MarkDead(id: nat, lastErr: string, fails: bool) returns (err: Option<Error>)
      modifies exec
      ensures exec.aborted == (old(exec.aborted) || fails)
      ensures err.None? <==> !exec.aborted
      ensures exec.view == if exec.aborted then old(exec.view)
                           else old(exec.view).(outbox := Kill(old(exec.view.outbox), {id}, lastErr))
      ensures err.None? ==> forall other :: other in old(exec.view.outbox) ==>
        var row := old(exec.view.outbox)[other];
        && other in exec.view.outbox
        && exec.view.outbox[other] == if other == id then row.(status := Dead, lastError := Some(lastErr)) else row
    {
      if exec.aborted { return Some(TxAborted); }
      if fails {
        exec.aborted := true;
        return Some(StatementFailed);
      }
      exec.view := exec.view.(outbox := Kill(exec.view.outbox, {id}, lastErr));
      return None;
    }
  }
}
