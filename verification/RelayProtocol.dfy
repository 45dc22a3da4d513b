/** Producers and relays as interleaved atomic steps.

    A relay's `process` is five steps: the claim transaction, the start of the Redis
    pipeline, its answer, and the mark transaction; commands of a started pipeline reach
    the stream one by one, at any later time, any number of times. A relay may be cut off
    between any two steps. */
module RelayProtocol {
  import opened Common
  import opened Decimal
  import opened RetryDelay
  import opened Outbox
  import opened Tables
  import opened Stream

  datatype Phase =
    | Idle
    | Holding(events: seq<Event>)             // claim committed
    | Pushing(events: seq<Event>, from: nat)  // pipeline started when the stream had `from` entries
    | Pushed(events: seq<Event>, ok: bool)    // pipeline answered

  function Held(p: Phase): seq<Event> {
    if p.Idle? then [] else p.events
  }

  /** What has happened to a row so far: claims, rounds that never marked it, and the
      delays its retries were scheduled with. */
  datatype History = History(claims: nat, lost: nat, delays: seq<nat>)

  datatype State = State(now: int, store: Store, relays: map<nat, Phase>, sent: set<Entry>,
                         stream: seq<Entry>, hist: map<nat, History>)

  datatype Label =
    | Tick(to: int)
    | Record(checkId: nat, rowId: nat, userId: string, incidentIds: seq<nat>)
    | Claim(r: nat, locked: set<nat>, events: seq<Event>)
    | Send(r: nat)
    | Land(entry: Entry)
    | PushOk(r: nat)
    | PushErr(r: nat)
    | Mark(r: nat, msg: string)
    | Drop(r: nat)  // crash, or a transaction that did not commit

  function Init(relays: set<nat>, now: int): State {
    State(now, EMPTY, map r | r in relays :: Idle, {}, [], map[])
  }

  ghost predicate AllLanded(events: seq<Event>, stream: seq<Entry>, from: nat) {
    forall ev :: ev in events ==> exists k :: from <= k < |stream| && stream[k] == EventEntry(ev)
  }

  ghost predicate Enabled(s: State, l: Label) {
    match l
    case Tick(to) => s.now <= to
    case Record(checkId, rowId, _, incidentIds) => FreshIds(s.store, checkId, rowId) && NoDup(incidentIds)
    case Claim(r, locked, events) =>
      && r in s.relays && s.relays[r].Idle?
      && (locked != {} ==> exists q :: q in s.relays && q != r)
      && events != []
      && IsBatch(s.store.outbox, s.now, BATCH_SIZE, locked, Ids(events))
      && Returning(Bump(s.store.outbox, Ids(events)), Ids(events), events)
    case Send(r) => r in s.relays && s.relays[r].Holding?
    case Land(e) => e in s.sent
    case PushOk(r) =>
      && r in s.relays && s.relays[r].Pushing?
      && AllLanded(s.relays[r].events, s.stream, s.relays[r].from)
    case PushErr(r) => r in s.relays && s.relays[r].Pushing?
    case Mark(r, _) => r in s.relays && s.relays[r].Pushed?
    case Drop(r) => r in s.relays && !s.relays[r].Idle?
  }

  function CountClaims(h: map<nat, History>, ids: set<nat>): map<nat, History> {
    map id | id in h :: if id in ids then h[id].(claims := h[id].claims + 1) else h[id]
  }

  function CountLost(h: map<nat, History>, ids: set<nat>): map<nat, History> {
    map id | id in h :: if id in ids then h[id].(lost := h[id].lost + 1) else h[id]
  }

  function CountDelays(h: map<nat, History>, p: Phase): map<nat, History>
    requires p.Pushed?
  {
    var retried := if p.ok then {} else Retryable(p.events);
    map id | id in h ::
      if id in retried then h[id].(delays := h[id].delays + [Delay(p.events)]) else h[id]
  }

  ghost function Apply(s: State, l: Label): State
    requires Enabled(s, l)
  {
    match l
    case Tick(to) => s.(now := to)
    case Record(checkId, rowId, userId, incidentIds) =>
      s.(store := Recorded(s.store, checkId, rowId, userId, incidentIds, s.now),
         hist := if incidentIds == [] then s.hist else s.hist[rowId := History(0, 0, [])])
    case Claim(r, _, events) =>
      s.(store := s.store.(outbox := Bump(s.store.outbox, Ids(events))),
         relays := s.relays[r := Holding(events)],
         hist := CountClaims(s.hist, Ids(events)))
    case Send(r) =>
      var events := s.relays[r].events;
      s.(relays := s.relays[r := Pushing(events, |s.stream|)],
         sent := s.sent + set ev | ev in events :: EventEntry(ev))
    case Land(e) => s.(stream := s.stream + [e])
    case PushOk(r) => s.(relays := s.relays[r := Pushed(s.relays[r].events, true)])
    case PushErr(r) => s.(relays := s.relays[r := Pushed(s.relays[r].events, false)])
    case Mark(r, msg) =>
      var p := s.relays[r];
      s.(store := s.store.(outbox := MarkBatch(s.store.outbox, p.events, p.ok, s.now, msg)),
         relays := s.relays[r := Idle],
         hist := CountDelays(s.hist, p))
    case Drop(r) =>
      s.(relays := s.relays[r := Idle], hist := CountLost(s.hist, Ids(s.relays[r].events)))
  }

  ghost predicate CanRun(s: State, run: seq<Label>)
    decreases |run|
  {
    run == [] || (Enabled(s, run[0]) && CanRun(Apply(s, run[0]), run[1..]))
  }

  ghost function Run(s: State, run: seq<Label>): State
    requires CanRun(s, run)
    decreases |run|
  {
    if run == [] then s else Run(Apply(s, run[0]), run[1..])
  }

  lemma RunCons(s: State, l: Label, rest: seq<Label>)
    requires Enabled(s, l) && CanRun(Apply(s, l), rest)
    ensures CanRun(s, [l] + rest) && Run(s, [l] + rest) == Run(Apply(s, l), rest)
  {
    assert ([l] + rest)[1..] == rest;
  }

  lemma {:induction false} RunConcat(s: State, run: seq<Label>, rest: seq<Label>)
    requires CanRun(s, run) && CanRun(Run(s, run), rest)
    ensures CanRun(s, run + rest) && Run(s, run + rest) == Run(Run(s, run), rest)
    decreases |run|
  {
    if run == [] {
      assert [] + rest == rest;
    } else {
      RunConcat(Apply(s, run[0]), run[1..], rest);
      assert (run + rest)[1..] == run[1..] + rest;
    }
  }

  /** Entries landing one after the other. */
  function Landings(entries: seq<Entry>): seq<Label> {
    if entries == [] then [] else [Land(entries[0])] + Landings(entries[1..])
  }

  lemma {:induction false} LandingsRun(s: State, entries: seq<Entry>)
    requires forall e :: e in entries ==> e in s.sent
    ensures CanRun(s, Landings(entries))
    ensures Run(s, Landings(entries)) == s.(stream := s.stream + entries)
    decreases |entries|
  {
    if entries == [] {
      assert s.stream + [] == s.stream;
    } else {
      var l := Land(entries[0]);
      var s1 := s.(stream := s.stream + [entries[0]]);
      assert Apply(s, l) == s1;
      LandingsRun(s1, entries[1..]);
      RunCons(s, l, Landings(entries[1..]));
      assert s.stream + [entries[0]] + entries[1..] == s.stream + entries;
    }
  }

  // ----- the invariant, for any number of relays -----

  ghost predicate BatchOk(t: Table, events: seq<Event>) {
    && DistinctIds(events)
    && forall ev :: ev in events ==>
         && ev.id in t
         && t[ev.id].payload == ev.payload && t[ev.id].eventType == ev.eventType
         && 1 <= ev.attempts <= t[ev.id].attempts
  }

  ghost predicate HeldOk(s: State) {
    forall r :: r in s.relays ==>
      BatchOk(s.store.outbox, Held(s.relays[r])) && (s.relays[r].Idle? <==> Held(s.relays[r]) == [])
  }

  /** A started pipeline's commands can land, and none of them had before it started. */
  ghost predicate PushingOk(s: State) {
    forall r :: r in s.relays && s.relays[r].Pushing? ==>
      s.relays[r].from <= |s.stream| && forall ev :: ev in s.relays[r].events ==> EventEntry(ev) in s.sent
  }

  ghost predicate AnsweredOk(s: State) {
    forall r :: r in s.relays && s.relays[r].Pushed? && s.relays[r].ok ==>
      forall ev :: ev in s.relays[r].events ==> EventEntry(ev) in s.stream
  }

  /** Pending, or dispatched with the row's own entry in the stream, or dead after ten claims;
      and never scheduled more than five minutes ahead. */
  ghost predicate RowOk(id: nat, row: Row, stream: seq<Entry>, now: int) {
    && 1 <= id <= MAX_INT64
    && (row.status.Dispatched? ==> RowEntry(id, row) in stream)
    && (row.status.Dead? ==> row.attempts >= MAX_ATTEMPTS)
    && row.nextAttemptAt <= now + MAX_DELAY
  }

  ghost predicate RowsOk(s: State) {
    forall id :: id in s.store.outbox ==> RowOk(id, s.store.outbox[id], s.stream, s.now)
  }

  ghost predicate FromRow(t: Table, e: Entry) {
    exists id :: id in t && e == RowEntry(id, t[id])
  }

  ghost predicate TrafficOk(s: State) {
    && (forall e :: e in s.sent ==> FromRow(s.store.outbox, e))
    && (forall e :: e in s.stream ==> FromRow(s.store.outbox, e))
  }

  ghost predicate HistOk(s: State) {
    && s.hist.Keys == s.store.outbox.Keys
    && forall id :: id in s.hist ==> s.hist[id].claims == s.store.outbox[id].attempts
  }

  ghost predicate Inv(s: State) {
    HeldOk(s) && PushingOk(s) && AnsweredOk(s) && RowsOk(s) && TrafficOk(s) && HistOk(s) && Correspondence(s.store)
  }

  lemma InitInv(relays: set<nat>, now: int)
    ensures Inv(Init(relays, now))
  {
    assert forall c :: Linked(EMPTY, c) == {};
  }

  /** Rows are never removed, keep their payload, and never lose an attempt. */
  ghost predicate Grows(t: Table, t': Table) {
    && t.Keys <= t'.Keys
    && forall id :: id in t ==>
         && t'[id].payload == t[id].payload && t'[id].eventType == t[id].eventType
         && t'[id].attempts >= t[id].attempts
  }

  lemma StepGrows(s: State, l: Label)
    requires Enabled(s, l)
    ensures Grows(s.store.outbox, Apply(s, l).store.outbox)
    ensures s.stream <= Apply(s, l).stream
    ensures s.now <= Apply(s, l).now
    ensures Apply(s, l).relays.Keys == s.relays.Keys
  {
  }

  lemma BatchOkGrows(t: Table, t': Table, events: seq<Event>)
    requires BatchOk(t, events) && Grows(t, t')
    ensures BatchOk(t', events)
  {
  }

  lemma HeldStep(s: State, l: Label)
    requires HeldOk(s) && Enabled(s, l)
    ensures HeldOk(Apply(s, l))
  {
    var s' := Apply(s, l);
    StepGrows(s, l);
    forall r | r in s'.relays
      ensures BatchOk(s'.store.outbox, Held(s'.relays[r])) && (s'.relays[r].Idle? <==> Held(s'.relays[r]) == [])
    {
      BatchOkGrows(s.store.outbox, s'.store.outbox, Held(s.relays[r]));
      assert s.relays[r].Idle? <==> Held(s.relays[r]) == [];
      if l.Claim? && l.r == r {
        var bumped := Bump(s.store.outbox, Ids(l.events));
        forall ev | ev in l.events ensures ev == EventOf(bumped, ev.id) && ev.id in Ids(l.events) { }
      }
    }
  }

  lemma PushingStep(s: State, l: Label)
    requires PushingOk(s) && Enabled(s, l)
    ensures PushingOk(Apply(s, l))
  {
    var s' := Apply(s, l);
    StepGrows(s, l);
    forall r | r in s'.relays && s'.relays[r].Pushing?
      ensures s'.relays[r].from <= |s'.stream| && forall ev :: ev in s'.relays[r].events ==> EventEntry(ev) in s'.sent
    {
      assert s.sent <= s'.sent;
      if s.relays[r] != s'.relays[r] { assert l.Send? && l.r == r; }
    }
  }

  lemma AnsweredStep(s: State, l: Label)
    requires AnsweredOk(s) && Enabled(s, l)
    ensures AnsweredOk(Apply(s, l))
  {
    var s' := Apply(s, l);
    StepGrows(s, l);
    forall r, ev | r in s'.relays && s'.relays[r].Pushed? && s'.relays[r].ok && ev in s'.relays[r].events
      ensures EventEntry(ev) in s'.stream
    {
      if s.relays[r].Pushed? && s.relays[r].ok && !(l.PushOk? && l.r == r) {
        assert EventEntry(ev) in s.stream;
      }
    }
  }

  lemma RowsStep(s: State, l: Label)
    requires RowsOk(s) && HeldOk(s) && AnsweredOk(s) && Enabled(s, l)
    ensures RowsOk(Apply(s, l))
  {
    var s' := Apply(s, l);
    StepGrows(s, l);
    forall id | id in s'.store.outbox ensures RowOk(id, s'.store.outbox[id], s'.stream, s'.now) {
      if id in s.store.outbox {
        assert RowOk(id, s.store.outbox[id], s.stream, s.now);
        if l.Mark? { MarkRowOk(s, l, id); }
      }
    }
  }

  /** What a mark transaction leaves behind for one row. */
  function MarkedRow(row: Row, ev: Event, p: Phase, now: int, msg: string): Row
    requires p.Pushed?
  {
    if p.ok then row.(status := Dispatched)
    else if ev.attempts >= MAX_ATTEMPTS then row.(status := Dead, lastError := Some(msg))
    else row.(status := Pending, nextAttemptAt := now + Delay(p.events), lastError := Some(msg))
  }

  lemma MarkRow(s: State, l: Label, id: nat)
    requires HeldOk(s) && Enabled(s, l) && l.Mark? && id in s.store.outbox
    ensures id in Apply(s, l).store.outbox
    ensures id !in Ids(s.relays[l.r].events) ==> Apply(s, l).store.outbox[id] == s.store.outbox[id]
    ensures forall ev :: ev in s.relays[l.r].events && ev.id == id ==>
      Apply(s, l).store.outbox[id] == MarkedRow(s.store.outbox[id], ev, s.relays[l.r], s.now, l.msg)
  {
    var p := s.relays[l.r];
    assert BatchOk(s.store.outbox, Held(p));
    FailBatchPartition(s.store.outbox, p.events, s.now + Delay(p.events), l.msg, id);
  }

  lemma MarkRowOk(s: State, l: Label, id: nat)
    requires RowsOk(s) && HeldOk(s) && AnsweredOk(s) && Enabled(s, l) && l.Mark? && id in s.store.outbox
    ensures id in Apply(s, l).store.outbox
    ensures RowOk(id, Apply(s, l).store.outbox[id], s.stream, s.now)
  {
    var p := s.relays[l.r];
    assert BatchOk(s.store.outbox, Held(p));
    assert RowOk(id, s.store.outbox[id], s.stream, s.now);
    MarkRow(s, l, id);
    if id in Ids(p.events) {
      var ev :| ev in p.events && ev.id == id;
      assert p.ok ==> EventEntry(ev) in s.stream;
      BackoffWithinBounds(MinAttempts(p.events));
    }
  }

  lemma FromRowGrows(t: Table, t': Table, e: Entry)
    requires FromRow(t, e) && Grows(t, t')
    ensures FromRow(t', e)
  {
    var id :| id in t && e == RowEntry(id, t[id]);
    assert e == RowEntry(id, t'[id]);
  }

  lemma TrafficStep(s: State, l: Label)
    requires TrafficOk(s) && HeldOk(s) && Enabled(s, l)
    ensures TrafficOk(Apply(s, l))
  {
    var s' := Apply(s, l);
    StepGrows(s, l);
    forall e | e in s'.sent ensures FromRow(s'.store.outbox, e) {
      if e in s.sent {
        FromRowGrows(s.store.outbox, s'.store.outbox, e);
      } else {
        assert BatchOk(s.store.outbox, Held(s.relays[l.r]));
        var ev :| ev in s.relays[l.r].events && e == EventEntry(ev);
        assert e == RowEntry(ev.id, s'.store.outbox[ev.id]);
      }
    }
    forall e | e in s'.stream ensures FromRow(s'.store.outbox, e) {
      assert e in s.stream || e in s.sent;
      FromRowGrows(s.store.outbox, s'.store.outbox, e);
    }
  }

  lemma HistStep(s: State, l: Label)
    requires HistOk(s) && Enabled(s, l)
    ensures HistOk(Apply(s, l))
  {
  }

  lemma RelayStepPayloads(s: State, l: Label)
    requires Enabled(s, l) && !l.Record?
    ensures Apply(s, l).store == s.store.(outbox := Apply(s, l).store.outbox)
    ensures SamePayloads(s.store.outbox, Apply(s, l).store.outbox)
  {
    if l.Claim? {
      BumpPayloads(s.store.outbox, Ids(l.events));
    } else if l.Mark? {
      MarkPayloads(s.store.outbox, s.relays[l.r].events, s.relays[l.r].ok, s.now, l.msg);
    }
  }

  lemma BumpPayloads(t: Table, ids: set<nat>)
    ensures SamePayloads(t, Bump(t, ids))
  {
  }

  lemma MarkPayloads(t: Table, events: seq<Event>, ok: bool, markAt: int, msg: string)
    ensures SamePayloads(t, MarkBatch(t, events, ok, markAt, msg))
  {
  }

  lemma RecordStep(s: State, l: Label)
    requires Enabled(s, l) && l.Record?
    ensures Apply(s, l).store == Recorded(s.store, l.checkId, l.rowId, l.userId, l.incidentIds, s.now)
    ensures FreshIds(s.store, l.checkId, l.rowId) && NoDup(l.incidentIds)
  {
  }

  lemma CorrespondenceStep(s: State, l: Label)
    requires Correspondence(s.store) && Enabled(s, l)
    ensures Correspondence(Apply(s, l).store)
  {
    var store, store' := s.store, Apply(s, l).store;
    if l.Record? {
      RecordStep(s, l);
      RecordedKeepsCorrespondence(store, l.checkId, l.rowId, l.userId, l.incidentIds, s.now);
    } else {
      RelayStepPayloads(s, l);
      RelayKeepsCorrespondence(store, store'.outbox);
    }
  }

  /** Every step of any producer or relay keeps the invariant. */
  lemma InvStep(s: State, l: Label)
    requires Inv(s) && Enabled(s, l)
    ensures Inv(Apply(s, l))
  {
    HeldStep(s, l);
    PushingStep(s, l);
    AnsweredStep(s, l);
    RowsStep(s, l);
    TrafficStep(s, l);
    HistStep(s, l);
    CorrespondenceStep(s, l);
  }

  lemma {:induction false} InvRun(s: State, run: seq<Label>)
    requires Inv(s) && CanRun(s, run)
    ensures Inv(Run(s, run))
    decreases |run|
  {
    if run != [] {
      InvStep(s, run[0]);
      InvRun(Apply(s, run[0]), run[1..]);
    }
  }

  lemma {:induction false} RunGrows(s: State, run: seq<Label>)
    requires CanRun(s, run)
    ensures Grows(s.store.outbox, Run(s, run).store.outbox)
    ensures s.stream <= Run(s, run).stream
    ensures Run(s, run).relays.Keys == s.relays.Keys
    decreases |run|
  {
    if run != [] {
      StepGrows(s, run[0]);
      RunGrows(Apply(s, run[0]), run[1..]);
    }
  }

  /** No loss and no fabrication, whatever the relays do: each committed row is pending, or
      dispatched with its own id and payload in the stream, or dead after ten claims; and
      every stream entry carries the id and payload of a committed row. */
  lemma NoLossNoFabrication(relays: set<nat>, now: int, run: seq<Label>)
    requires CanRun(Init(relays, now), run)
    ensures var s := Run(Init(relays, now), run);
      && (forall id :: id in s.store.outbox ==>
            var row := s.store.outbox[id];
            || row.status.Pending?
            || (row.status.Dispatched? && Entry(row.eventType, Some(row.payload), Some(FormatInt(id))) in s.stream)
            || (row.status.Dead? && row.attempts >= 10))
      && (forall e :: e in s.stream ==>
            exists id ::
              && id in s.store.outbox
              && e == Entry(s.store.outbox[id].eventType, Some(s.store.outbox[id].payload), Some(FormatInt(id))))
  {
    InitInv(relays, now);
    InvRun(Init(relays, now), run);
    var s := Run(Init(relays, now), run);
    forall e | e in s.stream
      ensures exists id ::
        && id in s.store.outbox
        && e == Entry(s.store.outbox[id].eventType, Some(s.store.outbox[id].payload), Some(FormatInt(id)))
    {
      assert FromRow(s.store.outbox, e);
      var id :| id in s.store.outbox && e == RowEntry(id, s.store.outbox[id]);
    }
    forall id | id in s.store.outbox ensures RowOk(id, s.store.outbox[id], s.stream, s.now) { }
  }

  /** The producer side in every reachable state: see Correspondence. */
  lemma OutboxMatchesChecks(relays: set<nat>, now: int, run: seq<Label>)
    requires CanRun(Init(relays, now), run)
    ensures Correspondence(Run(Init(relays, now), run).store)
  {
    InitInv(relays, now);
    InvRun(Init(relays, now), run);
  }

  // ----- terminal rows -----

  ghost predicate HeldBySomeone(s: State, id: nat) {
    exists r :: r in s.relays && id in Ids(Held(s.relays[r]))
  }

  /** Finished, and in no relay's hands. */
  ghost predicate Settled(s: State, id: nat) {
    && id in s.store.outbox && id in s.hist
    && !s.store.outbox[id].status.Pending?
    && !HeldBySomeone(s, id)
  }

  /** Step l neither claims row id nor sends, marks or loses a batch it is in. */
  ghost predicate Spares(s: State, l: Label, id: nat) {
    && (l.Claim? ==> id !in Ids(l.events))
    && (l.Send? || l.Mark? || l.Drop? ==> l.r in s.relays ==> id !in Ids(Held(s.relays[l.r])))
  }

  /** No step of the run does. */
  ghost predicate SparesAll(s: State, run: seq<Label>, id: nat)
    requires CanRun(s, run)
    decreases |run|
  {
    run == [] || (Spares(s, run[0], id) && SparesAll(Apply(s, run[0]), run[1..], id))
  }

  /** The same, step by step of the run. */
  lemma {:induction false} SparesAllAt(s: State, run: seq<Label>, id: nat, i: nat)
    requires CanRun(s, run) && SparesAll(s, run, id) && i < |run|
    ensures CanRun(s, run[..i]) && Spares(Run(s, run[..i]), run[i], id)
    decreases i
  {
    if i > 0 {
      SparesAllAt(Apply(s, run[0]), run[1..], id, i - 1);
      assert run[1..][..i - 1] == run[..i][1..];
    }
  }

  lemma SettledStep(s: State, l: Label, id: nat)
    requires Settled(s, id) && Enabled(s, l)
    ensures Settled(Apply(s, l), id) && Spares(s, l, id)
    ensures Apply(s, l).store.outbox[id] == s.store.outbox[id]
    ensures Apply(s, l).hist[id] == s.hist[id]
    ensures RowEntry(id, s.store.outbox[id]) in Apply(s, l).sent ==> RowEntry(id, s.store.outbox[id]) in s.sent
  {
    var s' := Apply(s, l);
    forall r | r in s.relays ensures id !in Ids(Held(s.relays[r])) { }
    if l.Claim? {
      assert id !in Due(s.store.outbox, s.now);
    }
    if l.Send? && RowEntry(id, s.store.outbox[id]) in s'.sent && RowEntry(id, s.store.outbox[id]) !in s.sent {
      var ev :| ev in s.relays[l.r].events && RowEntry(id, s.store.outbox[id]) == EventEntry(ev);
      FormatInjective(id, ev.id);
    }
    if l.Mark? {
      var p := s.relays[l.r];
      assert id !in Ids(Held(p));
      if !p.ok {
        assert id !in Exhausted(p.events) && id !in Retryable(p.events);
      }
    }
    assert !HeldBySomeone(s', id) by {
      forall r | r in s'.relays ensures id !in Ids(Held(s'.relays[r])) { }
    }
  }

  /** A settled row is never claimed, sent or marked again, by any number of relays. */
  lemma {:induction false} SettledForever(s: State, run: seq<Label>, id: nat)
    requires Settled(s, id) && CanRun(s, run)
    ensures Settled(Run(s, run), id)
    ensures Run(s, run).store.outbox[id] == s.store.outbox[id]
    ensures Run(s, run).hist[id] == s.hist[id]
    ensures RowEntry(id, s.store.outbox[id]) in Run(s, run).sent ==> RowEntry(id, s.store.outbox[id]) in s.sent
    ensures SparesAll(s, run, id)
    decreases |run|
  {
    if run != [] {
      SettledStep(s, run[0], id);
      SettledForever(Apply(s, run[0]), run[1..], id);
    }
  }

  // ----- where a row came from -----

  /** A Record step of the run inserted row `id`, and its payload is that step's event. */
  ghost predicate RecordedBy(run: seq<Label>, id: nat, payload: Body) {
    exists l, at :: l in run && l.Record? && l.rowId == id && l.incidentIds != []
      && payload == Json(CheckCompleted(l.checkId, l.userId, l.incidentIds, at))
  }

  lemma RecordInserts(s: State, l: Label, id: nat)
    requires Enabled(s, l) && id in Apply(s, l).store.outbox && id !in s.store.outbox
    ensures l.Record? && l.rowId == id && l.incidentIds != []
    ensures Apply(s, l).store.outbox[id] == Row("location_check",
      Json(CheckCompleted(l.checkId, l.userId, l.incidentIds, s.now)), Pending, 0, s.now, None)
    ensures l.checkId in Apply(s, l).store.checks && Apply(s, l).store.checks[l.checkId] == Check(l.userId)
  {
  }

  lemma RecordedByLater(run: seq<Label>, l: Label, id: nat, payload: Body)
    requires RecordedBy(run, id, payload)
    ensures RecordedBy([l] + run, id, payload)
  {
    var k, at :| k in run && k.Record? && k.rowId == id && k.incidentIds != []
      && payload == Json(CheckCompleted(k.checkId, k.userId, k.incidentIds, at));
    assert k in [l] + run;
  }

  /** Every row a run adds was inserted by a Record step of it, and still carries that step's
      check, user and incidents at the end. */
  lemma {:induction false} RowsComeFromRecords(s: State, run: seq<Label>, id: nat)
    requires CanRun(s, run) && id in Run(s, run).store.outbox && id !in s.store.outbox
    ensures RecordedBy(run, id, Run(s, run).store.outbox[id].payload)
    decreases |run|
  {
    var l, s1 := run[0], Apply(s, run[0]);
    assert run == [l] + run[1..];
    if id in s1.store.outbox {
      RecordInserts(s, l, id);
      RunGrows(s1, run[1..]);
      assert l in run;
    } else {
      RowsComeFromRecords(s1, run[1..], id);
      RecordedByLater(run[1..], l, id, Run(s, run).store.outbox[id].payload);
    }
  }

  // ----- what the ghost history records -----

  /** The history is a faithful log: claims and lost rounds are counted for exactly the rows of
      the batch, and each scheduled delay is the time from its mark to the row's next attempt. */
  lemma HistoryIsFaithful(s: State, l: Label, id: nat)
    requires HeldOk(s) && Enabled(s, l) && id in s.store.outbox && id in s.hist
    ensures id in Apply(s, l).store.outbox && id in Apply(s, l).hist
    ensures var h, h' := s.hist[id], Apply(s, l).hist[id];
      && h'.claims == h.claims + (if l.Claim? && id in Ids(l.events) then 1 else 0)
      && h'.lost == h.lost + (if l.Drop? && id in Ids(Held(s.relays[l.r])) then 1 else 0)
      && (h'.delays != h.delays ==> l.Mark? && id in Ids(Held(s.relays[l.r])) && !s.relays[l.r].ok)
      && (l.Mark? && !s.relays[l.r].ok && id in Ids(Held(s.relays[l.r])) ==>
            var row' := Apply(s, l).store.outbox[id];
            && (row'.status.Pending? ==> h'.delays == h.delays + [row'.nextAttemptAt - s.now])
            && (!row'.status.Pending? ==> h'.delays == h.delays))
  {
    if l.Mark? { MarkHistory(s, l, id); }
  }

  lemma MarkHistory(s: State, l: Label, id: nat)
    requires HeldOk(s) && Enabled(s, l) && l.Mark? && id in s.store.outbox && id in s.hist
    ensures id in Apply(s, l).store.outbox && id in Apply(s, l).hist
    ensures var h, h', p, row' := s.hist[id], Apply(s, l).hist[id], s.relays[l.r], Apply(s, l).store.outbox[id];
      && h'.claims == h.claims && h'.lost == h.lost
      && (h'.delays != h.delays ==> id in Ids(p.events) && !p.ok)
      && (id in Ids(p.events) && !p.ok ==>
            h'.delays == if row'.status.Pending? then h.delays + [row'.nextAttemptAt - s.now] else h.delays)
  {
    var p := s.relays[l.r];
    if id in Ids(p.events) {
      var ev :| ev in p.events && ev.id == id;
      MarkedHistory(s, l, ev);
    }
  }

  lemma MarkedHistory(s: State, l: Label, ev: Event)
    requires HeldOk(s) && Enabled(s, l) && l.Mark? && ev in s.relays[l.r].events && ev.id in s.store.outbox && ev.id in s.hist
    ensures ev.id in Apply(s, l).store.outbox && ev.id in Apply(s, l).hist
    ensures var h, h', p, row' := s.hist[ev.id], Apply(s, l).hist[ev.id], s.relays[l.r], Apply(s, l).store.outbox[ev.id];
      && (p.ok ==> h' == h)
      && (!p.ok && ev.attempts >= MAX_ATTEMPTS ==> h' == h && row'.status.Dead?)
      && (!p.ok && ev.attempts < MAX_ATTEMPTS ==>
            row'.status.Pending? && h' == h.(delays := h.delays + [row'.nextAttemptAt - s.now]))
  {
    var p := s.relays[l.r];
    assert BatchOk(s.store.outbox, Held(p));
    MarkRow(s, l, ev.id);
    DelayCounted(s.hist, p, ev);
  }

  lemma DelayCounted(h: map<nat, History>, p: Phase, ev: Event)
    requires p.Pushed? && DistinctIds(p.events) && ev in p.events && ev.id in h
    ensures ev.id in CountDelays(h, p)
    ensures CountDelays(h, p)[ev.id] ==
      if !p.ok && ev.attempts < MAX_ATTEMPTS then h[ev.id].(delays := h[ev.id].delays + [Delay(p.events)]) else h[ev.id]
  {
    UniqueEvent(p.events, ev);
  }
}
