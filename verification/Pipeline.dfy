/** From a recorded check to the webhook: producers, relays and workers together. The relays
    and Redis keep separate clocks. */
module Pipeline {
  import opened Common
  import opened Decimal
  import opened Outbox
  import opened Tables
  import opened Stream
  import R = RelayProtocol
  import C = ConsumerProtocol

  datatype State = State(relay: R.State, worker: C.State)

  datatype Label = Relay(r: R.Label) | Worker(w: C.Label)

  function Init(relays: set<nat>, workers: set<nat>, now: int): State {
    State(R.Init(relays, now), C.Init(workers, now))
  }

  ghost predicate Enabled(s: State, l: Label) {
    match l
    case Relay(r) => R.Enabled(s.relay, r)
    case Worker(w) => C.Enabled(s.relay.stream, s.worker, w)
  }

  ghost function Apply(s: State, l: Label): State
    requires Enabled(s, l)
  {
    match l
    case Relay(r) => s.(relay := R.Apply(s.relay, r))
    case Worker(w) => s.(worker := C.Apply(s.relay.stream, s.worker, w))
  }

  ghost predicate CanRun(s: State, run: seq<Label>)
    decreases |run|
  {
    run == [] || (Enabled(s, run[0]) && CanRun(Apply(s, run[0]), run[1..]))
  }

  ghost function Run(s: State, run: seq<Label>): State
    requires CanRun(s, run)
    decreases |run|
  {
    if run == [] then s else Run(Apply(s, run[0]), run[1..])
  }

  ghost predicate Inv(s: State) {
    R.Inv(s.relay) && C.Inv(s.relay.stream, s.worker)
  }

  lemma InvStep(s: State, l: Label)
    requires Inv(s) && Enabled(s, l)
    ensures Inv(Apply(s, l))
  {
    match l
    case Relay(r) =>
      R.InvStep(s.relay, r);
      R.StepGrows(s.relay, r);
      C.InvExtend(s.relay.stream, R.Apply(s.relay, r).stream, s.worker);
    case Worker(w) =>
      C.InvStep(s.relay.stream, s.worker, w);
  }

  lemma {:induction false} InvRun(s: State, run: seq<Label>)
    requires Inv(s) && CanRun(s, run)
    ensures Inv(Run(s, run))
    decreases |run|
  {
    if run != [] {
      InvStep(s, run[0]);
      InvRun(Apply(s, run[0]), run[1..]);
    }
  }

  /** `s` is a state some run of the whole system reaches. */
  ghost predicate Reachable(s: State) {
    exists relays, workers, now, run :: CanRun(Init(relays, workers, now), run) && s == Run(Init(relays, workers, now), run)
  }

  lemma ReachableInv(s: State)
    requires Reachable(s)
    ensures R.HeldOk(s.relay) && R.RowsOk(s.relay) && R.TrafficOk(s.relay) && Correspondence(s.relay.store)
    ensures C.Inv(s.relay.stream, s.worker)
  {
    var relays, workers, now, run :|
      CanRun(Init(relays, workers, now), run) && s == Run(Init(relays, workers, now), run);
    R.InitInv(relays, now);
    C.InitInv([], workers, now);
    InvRun(Init(relays, workers, now), run);
  }

  lemma EntryIsRow(s: State, k: nat) returns (id: nat)
    requires R.RowsOk(s.relay) && R.TrafficOk(s.relay) && k < |s.relay.stream|
    ensures id in s.relay.store.outbox && 1 <= id <= MAX_INT64
    ensures s.relay.stream[k] == RowEntry(id, s.relay.store.outbox[id])
    ensures Decode(s.relay.stream[k]) == Some(id)
  {
    var e := s.relay.stream[k];
    assert e in s.relay.stream;
    assert R.FromRow(s.relay.store.outbox, e);
    var t := s.relay.store.outbox;
    id :| id in t && e == RowEntry(id, t[id]);
    assert R.RowOk(id, t[id], s.relay.stream, s.relay.now);
    DecodeEntryOf(id, t[id].eventType, t[id].payload);
  }

  /** The row behind a POST. */
  lemma PostIsRow(s: State, post: C.Post) returns (id: nat)
    requires R.RowsOk(s.relay) && R.TrafficOk(s.relay) && C.Inv(s.relay.stream, s.worker)
    requires post in s.worker.posts
    ensures id in s.relay.store.outbox && post.id == id
    ensures post.body == s.relay.store.outbox[id].payload
    ensures post.body.Json? && post.idempotencyKey == post.body.event.checkId
  {
    var i :| 0 <= i < |s.worker.posts| && s.worker.posts[i] == post;
    assert C.PostOk(s.relay.stream, s.worker, post);
    id := EntryIsRow(s, post.entry);
  }

  /** No fabrication, end to end: every call of httpClient.Do carries the payload and id of a
      committed outbox row, which names a committed check, its user and exactly the incidents
      linked to it, of which there is at least one; and no message is ever malformed. */
  lemma EveryPostAnnouncesACheck(s: State)
    requires Reachable(s)
    ensures forall post :: post in s.worker.posts ==>
      && post.id >= 0 && post.id in s.relay.store.outbox
      && s.relay.store.outbox[post.id].payload == post.body
      && post.body.Json? && post.idempotencyKey == post.body.event.checkId
      && post.idempotencyKey in s.relay.store.checks
      && post.body.event.userId == s.relay.store.checks[post.idempotencyKey].userId
      && post.body.event.incidentIds != [] && NoDup(post.body.event.incidentIds)
      && (forall i :: i in post.body.event.incidentIds <==> (post.idempotencyKey, i) in s.relay.store.links)
    ensures forall k :: 0 <= k < |s.relay.stream| ==>
      Decode(s.relay.stream[k]).Some? && s.relay.stream[k].body.value.Json?
  {
    ReachableInv(s);
    forall post | post in s.worker.posts
      ensures post.id >= 0 && post.id in s.relay.store.outbox
      ensures s.relay.store.outbox[post.id].payload == post.body
      ensures post.body.Json? && post.idempotencyKey == post.body.event.checkId
      ensures post.idempotencyKey in s.relay.store.checks
      ensures post.body.event.userId == s.relay.store.checks[post.idempotencyKey].userId
      ensures post.body.event.incidentIds != [] && NoDup(post.body.event.incidentIds)
      ensures forall i :: i in post.body.event.incidentIds <==> (post.idempotencyKey, i) in s.relay.store.links
    {
      var id := PostIsRow(s, post);
      assert Announces(s.relay.store, id);
      AnnouncedLinks(s.relay.store, id);
    }
    forall k | 0 <= k < |s.relay.stream|
      ensures Decode(s.relay.stream[k]).Some? && s.relay.stream[k].body.value.Json?
    {
      var id := EntryIsRow(s, k);
      assert Announces(s.relay.store, id);
    }
  }

  /** The Idempotency-Key header identifies the outbox row: two POSTs carry the same key
      exactly if they are for the same row, and then they carry the same body. */
  lemma IdempotencyKeyIdentifiesRow(s: State, a: C.Post, b: C.Post)
    requires Reachable(s) && a in s.worker.posts && b in s.worker.posts
    ensures a.idempotencyKey == b.idempotencyKey <==> a.id == b.id
    ensures a.id == b.id ==> a.body == b.body
  {
    ReachableInv(s);
    var i := PostIsRow(s, a);
    var j := PostIsRow(s, b);
    assert RowFor(s.relay.store, a.idempotencyKey, i) && RowFor(s.relay.store, b.idempotencyKey, j);
  }

  /** Deduplication: however many copies of a row reach the stream and however many workers
      read them, claims of its key are a full TTL apart, and every POST belongs to a claim of
      the same row and entry that no other POST belongs to. */
  lemma Deduplication(s: State)
    requires Reachable(s)
    ensures forall i, j :: 0 <= i < j < |s.worker.wins| && s.worker.wins[i].id == s.worker.wins[j].id ==>
      s.worker.wins[j].at - s.worker.wins[i].at >= 24 * 60 * 60 * 1_000_000_000
    ensures forall i :: 0 <= i < |s.worker.posts| ==>
      var post := s.worker.posts[i];
      post.win < |s.worker.wins| && s.worker.wins[post.win].id == post.id && s.worker.wins[post.win].entry == post.entry
    ensures forall i, j :: 0 <= i < j < |s.worker.posts| ==>
      s.worker.posts[i].win != s.worker.posts[j].win && s.worker.posts[i].entry != s.worker.posts[j].entry
  {
    ReachableInv(s);
    forall i | 0 <= i < |s.worker.posts| ensures C.PostOk(s.relay.stream, s.worker, s.worker.posts[i]) { }
    forall i, j | 0 <= i < j < |s.worker.posts| ensures s.worker.posts[i].entry != s.worker.posts[j].entry {
      var a, b := s.worker.posts[i].win, s.worker.posts[j].win;
      assert C.PostOk(s.relay.stream, s.worker, s.worker.posts[i]);
      assert C.PostOk(s.relay.stream, s.worker, s.worker.posts[j]);
      assert a != b;
      if a < b { assert s.worker.wins[a].entry != s.worker.wins[b].entry; }
      else { assert s.worker.wins[b].entry != s.worker.wins[a].entry; }
    }
  }

  /** Consumer-group accounting: every stream entry is exactly one of undelivered, pending and
      acknowledged; and an acknowledged one had its own POST accepted, or found its outbox id
      claimed by another entry. */
  lemma GroupAccounting(s: State, k: nat)
    requires Reachable(s) && k < |s.relay.stream|
    ensures k >= s.worker.delivered <==> k !in s.worker.pel && k !in s.worker.acked
    ensures !(k in s.worker.pel && k in s.worker.acked)
    ensures k in s.worker.acked ==>
      || (exists i :: 0 <= i < |s.worker.posts| && s.worker.posts[i].entry == k
            && s.worker.posts[i].reply.Status? && 200 <= s.worker.posts[i].reply.code <= 299)
      || (exists i :: 0 <= i < |s.worker.wins| && s.worker.wins[i].entry != k
            && Decode(s.relay.stream[k]) == Some(s.worker.wins[i].id))
  {
    ReachableInv(s);
    if k in s.worker.acked { assert C.Entitled(s.relay.stream, s.worker, k); }
  }

  /** Where the announcement of a recorded check is. */
  ghost predicate Accounted(s: State, id: nat)
    requires id in s.relay.store.outbox
  {
    var row := s.relay.store.outbox[id];
    || row.status.Pending?
    || (row.status.Dead? && row.attempts >= 10)
    || exists k :: 0 <= k < |s.relay.stream| && s.relay.stream[k] == RowEntry(id, row)
         && (k >= s.worker.delivered || k in s.worker.pel || AcknowledgedFor(s, k, id))
  }

  /** Entry k was acknowledged, and some entry of the same row won the right to POST it. */
  ghost predicate AcknowledgedFor(s: State, k: nat, id: nat) {
    k in s.worker.acked && exists i :: 0 <= i < |s.worker.wins| && s.worker.wins[i].id == id
  }

  /** No silent loss: every committed check with an incident has exactly one outbox row, and
      that row is pending, or dead after ten claims, or its message is in the stream, where it
      is not yet read, still pending in the group, or acknowledged after a worker claimed it. */
  lemma NoSilentLoss(s: State, checkId: nat)
    requires Reachable(s) && checkId in s.relay.store.checks && Linked(s.relay.store, checkId) != {}
    ensures exists id :: RowFor(s.relay.store, checkId, id) && Accounted(s, id)
    ensures forall i, j :: RowFor(s.relay.store, checkId, i) && RowFor(s.relay.store, checkId, j) ==> i == j
  {
    ReachableInv(s);
    var id :| RowFor(s.relay.store, checkId, id);
    RowAccounted(s, id);
  }

  lemma RowAccounted(s: State, id: nat)
    requires R.RowsOk(s.relay) && R.TrafficOk(s.relay) && C.Inv(s.relay.stream, s.worker)
    requires id in s.relay.store.outbox
    ensures Accounted(s, id)
  {
    var row := s.relay.store.outbox[id];
    assert R.RowOk(id, row, s.relay.stream, s.relay.now);
    if row.status.Dispatched? {
      var k :| 0 <= k < |s.relay.stream| && s.relay.stream[k] == RowEntry(id, row);
      DecodeEntryOf(id, row.eventType, row.payload);
      if k in s.worker.acked { WonFor(s, k, id); }
    }
  }

  lemma WonFor(s: State, k: nat, id: nat)
    requires C.Inv(s.relay.stream, s.worker) && k in s.worker.acked && k < |s.relay.stream|
    requires Decode(s.relay.stream[k]) == Some(id)
    ensures AcknowledgedFor(s, k, id)
  {
    assert C.Entitled(s.relay.stream, s.worker, k);
    if i :| 0 <= i < |s.worker.posts| && s.worker.posts[i].entry == k && C.Accepted(s.worker.posts[i].reply) {
      assert C.PostOk(s.relay.stream, s.worker, s.worker.posts[i]);
      assert s.worker.wins[s.worker.posts[i].win].id == id;
    }
  }

  // ----- from the Record step to the POST -----

  function RelayPart(run: seq<Label>): seq<R.Label> {
    if run == [] then []
    else (if run[0].Relay? then [run[0].r] else []) + RelayPart(run[1..])
  }

  /** The relay side of a run is a run of the relay protocol. */
  lemma {:induction false} RelayPartRuns(s: State, run: seq<Label>)
    requires CanRun(s, run)
    ensures R.CanRun(s.relay, RelayPart(run)) && R.Run(s.relay, RelayPart(run)) == Run(s, run).relay
    ensures forall l :: l in RelayPart(run) ==> Relay(l) in run
    decreases |run|
  {
    if run != [] {
      RelayPartRuns(Apply(s, run[0]), run[1..]);
      assert run == [run[0]] + run[1..];
      if run[0].Relay? {
        R.RunCons(s.relay, run[0].r, RelayPart(run[1..]));
      } else {
        assert RelayPart(run) == RelayPart(run[1..]);
      }
    }
  }

  /** Every POST announces what some check recorded: the run has a Record step for the very
      row, and the body and Idempotency-Key are that step's check, user and incidents. */
  lemma PostAnnouncesItsRecord(relays: set<nat>, workers: set<nat>, now: int, run: seq<Label>, post: C.Post)
    requires CanRun(Init(relays, workers, now), run)
    requires post in Run(Init(relays, workers, now), run).worker.posts
    ensures exists rec, at ::
      && Relay(rec) in run && rec.Record? && rec.rowId == post.id && rec.incidentIds != []
      && post.body == Json(CheckCompleted(rec.checkId, rec.userId, rec.incidentIds, at))
      && post.idempotencyKey == rec.checkId
  {
    var s0 := Init(relays, workers, now);
    var s := Run(s0, run);
    assert Reachable(s);
    ReachableInv(s);
    var id := PostIsRow(s, post);
    RelayPartRuns(s0, run);
    R.RowsComeFromRecords(s0.relay, RelayPart(run), id);
    var rec, at :| rec in RelayPart(run) && rec.Record? && rec.rowId == id && rec.incidentIds != []
      && post.body == Json(CheckCompleted(rec.checkId, rec.userId, rec.incidentIds, at));
  }
}
