/** The outbox relay: one call of `process`, its three phases and their failures. */
module Relay {
  import opened Common
  import opened Decimal
  import opened RetryDelay
  import opened Outbox
  import opened Stream
  import opened UnitOfWork
  import opened OutboxRepository
  import opened RedisQueue

  /** What the database and Redis answer during one round; `locked` are the rows other relays'
      transactions hold when this one claims. */
  datatype Faults = Faults(locked: set<nat>, claimBegin: bool, claimStatement: bool, claimCommit: CommitOutcome,
                           pipe: PipeResult,
                           markBegin: bool, deadStatement: set<nat>, markStatement: bool, markCommit: CommitOutcome)

  /** What one call of process did: nothing, or a claim, then possibly stream entries and a
      mark. `ok` is whether the pipeline was acknowledged. */
  datatype Round =
    | Nothing
    | Claimed(claimAt: int, locked: set<nat>, events: seq<Event>, entries: seq<Entry>, ok: bool, marked: bool, markAt: int, msg: string)

  function OutboxAfter(t: Table, round: Round): Table {
    match round
    case Nothing => t
    case Claimed(_, _, events, _, ok, marked, markAt, msg) =>
      var claimed := Bump(t, Ids(events));
      if marked then MarkBatch(claimed, events, ok, markAt, msg) else claimed
  }

  function EntriesOf(round: Round): seq<Entry> {
    if round.Nothing? then [] else round.entries
  }

  /** A round the relay may perform on outbox t. */
  ghost predicate ValidRound(t: Table, round: Round) {
    round.Claimed? ==>
      && round.events != []
      && IsBatch(t, round.claimAt, BATCH_SIZE, round.locked, Ids(round.events))
      && Returning(Bump(t, Ids(round.events)), Ids(round.events), round.events)
      && round.claimAt <= round.markAt
      && (forall e :: e in round.entries ==> exists ev :: ev in round.events && e == EventEntry(ev))
      && (round.ok ==> forall ev :: ev in round.events ==> EventEntry(ev) in round.entries)
  }

  /** What a round claims: rows pending, due and not locked elsewhere, at most a hundred of
      them; all such rows if there are fewer, and otherwise those with the smallest ids. The
      events carry their rows' type, payload and new attempt count. */
  lemma RoundClaims(t: Table, round: Round)
    requires round.Claimed? && ValidRound(t, round)
    ensures 1 <= |round.events| <= 100
    ensures forall i, j :: 0 <= i < j < |round.events| ==> round.events[i].id != round.events[j].id
    ensures forall ev :: ev in round.events ==>
      && ev.id in t && t[ev.id].status == Pending && t[ev.id].nextAttemptAt <= round.claimAt && ev.id !in round.locked
      && ev == Event(ev.id, t[ev.id].eventType, t[ev.id].payload, t[ev.id].attempts + 1)
    ensures forall id :: id in t && t[id].status == Pending && t[id].nextAttemptAt <= round.claimAt && id !in round.locked ==>
      || (exists ev :: ev in round.events && ev.id == id)
      || (|round.events| == 100 && forall ev :: ev in round.events ==> ev.id < id)
  {
    var ids := Ids(round.events);
    IdsCardinality(round.events);
    forall ev | ev in round.events
      ensures ev.id in ids && ev.id in t
      ensures ev == Event(ev.id, t[ev.id].eventType, t[ev.id].payload, t[ev.id].attempts + 1)
    {
      assert ev == EventOf(Bump(t, ids), ev.id);
    }
    var free := Due(t, round.claimAt) - round.locked;
    forall id | id in free && id !in ids
      ensures |round.events| == 100 && forall ev :: ev in round.events ==> ev.id < id
    {
      forall ev | ev in round.events ensures ev.id < id { assert ev.id in ids; }
    }
    forall id | id in t && t[id].status == Pending && t[id].nextAttemptAt <= round.claimAt && id !in round.locked
      ensures id in free
    {
    }
  }

  /** What a round leaves of a row it did not claim, and of one whose round was cut off or
      acknowledged. */
  lemma RoundRow(t: Table, round: Round, id: nat)
    requires round.Claimed? && ValidRound(t, round) && id in t
    ensures OutboxAfter(t, round).Keys == t.Keys
    ensures (forall ev :: ev in round.events ==> ev.id != id) ==> OutboxAfter(t, round)[id] == t[id]
    ensures forall ev :: ev in round.events && ev.id == id ==>
      var claimed := t[id].(attempts := t[id].attempts + 1);
      && (!round.marked ==> OutboxAfter(t, round)[id] == claimed)
      && (round.marked && round.ok ==> OutboxAfter(t, round)[id] == claimed.(status := Dispatched))
      && (round.marked && !round.ok && ev.attempts >= 10 ==>
            OutboxAfter(t, round)[id] == claimed.(status := Dead, lastError := Some(round.msg)))
  {
    var claimed := Bump(t, Ids(round.events));
    FailBatchPartition(claimed, round.events, round.markAt + Delay(round.events), round.msg, id);
  }

  /** And of one whose push failed with a claim to spare: m is the least attempt count of the
      batch, and the row is due again 2^m seconds after the mark, at most five minutes. */
  lemma RoundRetry(t: Table, round: Round, ev: Event, m: nat)
    requires round.Claimed? && ValidRound(t, round) && round.marked && !round.ok
    requires ev in round.events && ev.attempts < 10
    requires (forall e :: e in round.events ==> m <= e.attempts) && exists e :: e in round.events && e.attempts == m
    ensures 1 <= m <= 9 && ev.id in t && ev.id in OutboxAfter(t, round)
    ensures OutboxAfter(t, round)[ev.id] ==
      t[ev.id].(attempts := t[ev.id].attempts + 1,
                nextAttemptAt := round.markAt + [0, 2, 4, 8, 16, 32, 64, 128, 256, 300][m] * 1_000_000_000,
                lastError := Some(round.msg))
  {
    RoundClaims(t, round);
    var e :| e in round.events && e.attempts == m;
    RetriedRow(Bump(t, Ids(round.events)), round.events, round.markAt, round.msg, ev, m);
  }

  /** What a round puts in the stream: only entries of its events, and all of them if the
      pipeline was acknowledged. */
  lemma RoundEntries(t: Table, round: Round)
    requires round.Claimed? && ValidRound(t, round)
    ensures forall e :: e in round.entries ==>
      exists ev :: ev in round.events && e == Entry(ev.eventType, Some(ev.payload), Some(FormatInt(ev.id)))
    ensures round.ok ==> forall ev :: ev in round.events ==>
      Entry(ev.eventType, Some(ev.payload), Some(FormatInt(ev.id))) in round.entries
  {
    forall e | e in round.entries
      ensures exists ev :: ev in round.events && e == Entry(ev.eventType, Some(ev.payload), Some(FormatInt(ev.id)))
    {
      var ev :| ev in round.events && e == EventEntry(ev);
    }
    forall ev | ev in round.events && round.ok
      ensures Entry(ev.eventType, Some(ev.payload), Some(FormatInt(ev.id))) in round.entries
    {
      assert EventEntry(ev) in round.entries;
    }
  }

  /** Which fault stops a failed batch from being marked: a rejected MarkDead of one of its
      exhausted rows, although its error is discarded, or a rejected MarkRetryBatch. */
  predicate MarkSurvives(events: seq<Event>, pushed: bool, f: Faults) {
    && !f.markBegin && !f.markCommit.Refused?
    && if pushed then !f.markStatement
       else Exhausted(events) !! f.deadStatement && (Retryable(events) == {} || !f.markStatement)
  }

  class Relay {
    const db: Database
    const queue: RedisQueue
    const batchSize: nat := BATCH_SIZE
    const maxAttempts: nat := MAX_ATTEMPTS

    constructor (db: Database, queue: RedisQueue)
      ensures this.db == db && this.queue == queue
    {
      this.db, this.queue := db, queue;
    }

    method Process(claimAt: int, markAt: int, msg: string, f: Faults) returns (err: Option<Error>, ghost round: Round)
      requires claimAt <= markAt
      modifies db`committed, queue
      ensures ValidRound(old(db.committed.outbox), round)
      ensures db.committed == old(db.committed).(outbox := OutboxAfter(old(db.committed.outbox), round))
      ensures queue.stream == old(queue.stream) + EntriesOf(round)
      // exactly when something is claimed, acknowledged and marked
      ensures round.Claimed? <==>
        && !f.claimBegin && !f.claimStatement && !f.claimCommit.Refused?
        && Due(old(db.committed.outbox), claimAt) - f.locked != {}
      ensures round.Claimed? ==>
        && round.claimAt == claimAt && round.locked == f.locked && round.markAt == markAt && round.msg == msg
        && round.ok == (f.claimCommit.Applied? && f.pipe.AllExecuted?)
        && round.marked == (f.claimCommit.Applied? && MarkSurvives(round.events, round.ok, f))
      // nil is returned only for a round that ran to its end
      ensures err.None? ==> if round.Claimed? then round.marked
                            else Due(old(db.committed.outbox), claimAt) - f.locked == {}
    {
      round := Nothing;
      var events;
      err, events := ClaimPhase(claimAt, f);
      if events != [] && f.claimCommit.AppliedUnseen? {
        round := Claimed(claimAt, f.locked, events, [], false, false, markAt, msg);
      }
      if err.Some? || |events| == 0 {
        assert err.None? || f.claimCommit.Applied? ==> Bump(old(db.committed.outbox), {}) == old(db.committed.outbox);
        return;
      }

      var items, ids := Collect(events);
      label pushing:
      var pushErr := queue.EnqueueBatch(items, f.pipe);
      ghost var entries := queue.stream[|old@pushing(queue.stream)|..];
      PushedEntries(events, items, f.pipe);
      ghost var marked: bool;
      err, marked := MarkPhase(events, ids, pushErr, markAt, msg, f);
      round := Claimed(claimAt, f.locked, events, entries, pushErr.None?, marked, markAt, msg);
    }

    /** Phase one: bump and return the due batch. The claimed rows stay pending. */
    method ClaimPhase(claimAt: int, f: Faults) returns (err: Option<Error>, events: seq<Event>)
      modifies db`committed
      ensures f.claimBegin || f.claimStatement ==> err.Some? && events == []
      ensures !f.claimBegin && !f.claimStatement ==>
        && (err.None? <==> f.claimCommit.Applied?)
        && IsBatch(old(db.committed.outbox), claimAt, BATCH_SIZE, f.locked, Ids(events))
        && (events == [] <==> Due(old(db.committed.outbox), claimAt) - f.locked == {})
        && Returning(Bump(old(db.committed.outbox), Ids(events)), Ids(events), events)
      ensures db.committed ==
        if f.claimBegin || f.claimStatement || f.claimCommit.Refused? then old(db.committed)
        else old(db.committed).(outbox := Bump(old(db.committed.outbox), Ids(events)))
    {
      var begun, owned := Begin(Root(db), f.claimBegin);
      if begun.Err? { return Some(begun.error), []; }
      var tx := begun.value;
      var repo := new Repository(tx);
      var claimed := repo.ClaimBatch(batchSize, claimAt, f.locked, f.claimStatement);
      events := if claimed.Ok? then claimed.value else [];
      var outcome := Finish(tx, owned, Returned(if claimed.Ok? then None else Some(claimed.error)), f.claimCommit);
      err := outcome.err;
      assert claimed.Ok? ==> (events == [] <==> Due(old(db.committed.outbox), claimAt) - f.locked == {}) by {
        if events != [] { assert events[0] in events; }
      }
    }

    static method Collect(events: seq<Event>) returns (items: seq<Item>, ids: seq<nat>)
      ensures |items| == |ids| == |events|
      ensures forall i :: 0 <= i < |events| ==>
        items[i] == Item(events[i].eventType, events[i].payload, events[i].id) && ids[i] == events[i].id
    {
      items, ids := [], [];
      for i := 0 to |events|
        invariant |items| == |ids| == i
        invariant forall k :: 0 <= k < i ==>
          items[k] == Item(events[k].eventType, events[k].payload, events[k].id) && ids[k] == events[k].id
      {
        items := items + [Item(events[i].eventType, events[i].payload, events[i].id)];
        ids := ids + [events[i].id];
      }
    }

    static lemma PushedEntries(events: seq<Event>, items: seq<Item>, result: PipeResult)
      requires |items| == |events| && forall i :: 0 <= i < |events| ==>
        items[i] == Item(events[i].eventType, events[i].payload, events[i].id)
      ensures forall e :: e in Entries(items) ==> exists ev :: ev in events && e == EventEntry(ev)
      ensures forall ev :: ev in events ==> EventEntry(ev) in Entries(items)
      ensures result.Failed? ==>
        forall e :: e in Kept(Entries(items), result.executed) ==> exists ev :: ev in events && e == EventEntry(ev)
    {
      forall e | e in Entries(items) ensures exists ev :: ev in events && e == EventEntry(ev) {
        var i :| 0 <= i < |items| && Entries(items)[i] == e;
        assert events[i] in events && e == EventEntry(events[i]);
      }
      forall ev | ev in events ensures EventEntry(ev) in Entries(items) {
        var i :| 0 <= i < |events| && events[i] == ev;
        assert Entries(items)[i] == EventEntry(ev);
      }
      if result.Failed? { KeptAreCommands(Entries(items), result.executed); }
    }

    /** Phase three: one transaction marks the whole batch or none of it. */
    method MarkPhase(events: seq<Event>, ids: seq<nat>, pushErr: Option<Error>, markAt: int, msg: string, f: Faults)
      returns (err: Option<Error>, ghost marked: bool)
      requires events != [] && DistinctIds(events)
      requires |ids| == |events| && forall i :: 0 <= i < |events| ==> ids[i] == events[i].id
      modifies db`committed
      ensures marked == MarkSurvives(events, pushErr.None?, f)
      ensures db.committed == if marked
        then old(db.committed).(outbox := MarkBatch(old(db.committed.outbox), events, pushErr.None?, markAt, msg))
        else old(db.committed)
      ensures err.None? ==> marked
      ensures marked ==> (err.None? <==> f.markCommit.Applied?)
    {
      marked := false;
      var begun, owned := Begin(Root(db), f.markBegin);
      if begun.Err? { return Some(begun.error), false; }
      var tx := begun.value;
      var repo := new Repository(tx);
      if pushErr.None? {
        err := repo.MarkDispatchedBatch(ids, f.markStatement);
        assert ToSet(ids) == Ids(events) by { IdsOfList(events, ids); }
      } else {
        err := FailedBatch(repo, events, markAt, msg, f);
      }
      marked := Durable(owned, tx.aborted, Returned(err), f.markCommit);
      var outcome := Finish(tx, owned, Returned(err), f.markCommit);
      err := outcome.err;
    }

    static lemma IdsOfList(events: seq<Event>, ids: seq<nat>)
      requires |ids| == |events| && forall i :: 0 <= i < |events| ==> ids[i] == events[i].id
      ensures ToSet(ids) == Ids(events)
    {
      forall id | id in ToSet(ids) ensures id in Ids(events) {
        var i :| 0 <= i < |ids| && ids[i] == id;
        assert events[i] in events;
      }
      forall id | id in Ids(events) ensures id in ToSet(ids) {
        var ev :| ev in events && ev.id == id;
        var i :| 0 <= i < |events| && events[i] == ev;
        assert ids[i] == id;
      }
    }

    static lemma SplitLast(events: seq<Event>, i: nat, t: Table, msg: string)
      requires i < |events|
      ensures var ev, before, after := events[i], events[..i], events[..i + 1];
        && Exhausted(after) == Exhausted(before) + (if ev.attempts >= MAX_ATTEMPTS then {ev.id} else {})
        && Retryable(after) == Retryable(before) + (if ev.attempts >= MAX_ATTEMPTS then {} else {ev.id})
        && Kill(Kill(t, Exhausted(before), msg), {ev.id}, msg) == Kill(t, Exhausted(before) + {ev.id}, msg)
    {
      assert events[..i + 1] == events[..i] + [events[i]];
    }

    /** The loop of the failed branch: kill the exhausted rows, collect the others. */
    method KillExhausted(repo: Repository, events: seq<Event>, msg: string, deadFails: set<nat>)
      returns (retryIDs: seq<nat>)
      requires !repo.exec.aborted
      modifies repo.exec
      ensures ToSet(retryIDs) == Retryable(events)
      ensures repo.exec.aborted <==> !(Exhausted(events) !! deadFails)
      ensures !repo.exec.aborted ==>
        repo.exec.view == old(repo.exec.view).(outbox := Kill(old(repo.exec.view.outbox), Exhausted(events), msg))
    {
      retryIDs := [];
      ghost var view := repo.exec.view;
      assert Kill(view.outbox, Exhausted(events[..0]), msg) == view.outbox;
      for i := 0 to |events|
        invariant ToSet(retryIDs) == Retryable(events[..i])
        invariant repo.exec.aborted <==> !(Exhausted(events[..i]) !! deadFails)
        invariant !repo.exec.aborted ==>
          repo.exec.view == view.(outbox := Kill(view.outbox, Exhausted(events[..i]), msg))
      {
        var ev := events[i];
        SplitLast(events, i, view.outbox, msg);
        if ev.attempts >= maxAttempts {
          var _ := repo.MarkDead(ev.id, msg, ev.id in deadFails);
          continue;
        }
        assert ToSet(retryIDs + [ev.id]) == ToSet(retryIDs) + {ev.id};
        retryIDs := retryIDs + [ev.id];
      }
      assert events[..|events|] == events;
    }

    /** The callback of the mark transaction after a failed push. */
    method FailedBatch(repo: Repository, events: seq<Event>, markAt: int, msg: string, f: Faults)
      returns (err: Option<Error>)
      requires events != [] && !repo.exec.aborted
      modifies repo.exec
      ensures repo.exec.aborted <==>
        !(Exhausted(events) !! f.deadStatement) || (Retryable(events) != {} && f.markStatement)
      ensures err.Some? ==> repo.exec.aborted
      ensures !repo.exec.aborted ==>
        repo.exec.view == old(repo.exec.view).(outbox := MarkBatch(old(repo.exec.view.outbox), events, false, markAt, msg))
    {
      var retryIDs := KillExhausted(repo, events, msg, f.deadStatement);
      assert retryIDs == [] <==> Retryable(events) == {} by {
        if retryIDs != [] { assert retryIDs[0] in ToSet(retryIDs); }
      }
      var attempts := MinAttemptsOf(events);
      var next := markAt + Backoff(attempts);
      err := repo.MarkRetryBatch(retryIDs, next, msg, f.markStatement);
    }

    /** minAttempts, as the loop computes it. */
    static method MinAttemptsOf(events: seq<Event>) returns (min: nat)
      ensures min == MinAttempts(events)
      ensures min >= 1 && (events == [] ==> min == 1)
      ensures forall ev :: ev in events ==> min <= ev.attempts || min == 1
      ensures (forall ev :: ev in events ==> ev.attempts >= 1) && events != [] ==>
        exists ev :: ev in events && ev.attempts == min
    {
      if |events| == 0 { return 1; }
      assert events[0] in events;
      min := events[0].attempts;
      for i := 0 to |events|
        invariant i == 0 ==> min == events[0].attempts
        invariant i > 0 ==> min == Smallest(events[..i])
      {
        assert i > 0 ==> events[..i + 1][..|events[..i + 1]| - 1] == events[..i];
        if events[i].attempts < min { min := events[i].attempts; }
      }
      assert events[..|events|] == events;
      if min < 1 { return 1; }
    }
  }
}
