/** CheckAndRecord: the check, its links and its outbox row in one transaction. */
module CheckService {
  import opened Common
  import opened Decimal
  import opened Outbox
  import opened Tables
  import opened UnitOfWork
  import opened OutboxRepository
  import I = Incidents
  import Protocol = RelayProtocol

  /** A row FindNearby selects; the description column may be NULL. */
  datatype NearbyRow = NearbyRow(incidentId: nat, description: Option<string>)

  datatype Nearby = Nearby(incidentId: nat, description: string)

  datatype Faults = Faults(begin: bool, checkInsert: bool, linkInsert: bool, enqueue: bool, commit: CommitOutcome)

  /** What the query selects when it finds the incidents `ids`, nearest first: one row each. */
  function RowsOf(t: I.Table, ids: seq<nat>): seq<NearbyRow>
    requires forall id :: id in ids ==> id in t
  {
    seq(|ids|, i requires 0 <= i < |ids| => NearbyRow(ids[i], t[ids[i]].description))
  }

  /** The ids the query found, in this state of the incidents table: active, at most as many
      as the limit, or an error. Which ones is up to PostGIS. */
  ghost predicate Found(t: I.Table, limit: nat, found: Result<seq<nat>>) {
    found.Ok? ==>
      && |found.value| <= limit
      && NoDup(found.value)
      && forall id :: id in found.value ==> id in t && t[id].active
  }

  /** No selected incident has a NULL description. */
  predicate Described(t: I.Table, ids: seq<nat>) {
    forall id :: id in ids ==> id in t && t[id].description.Some?
  }

  /** FindNearby scans the description into a plain string. */
  predicate Scannable(rows: seq<NearbyRow>) {
    forall i :: 0 <= i < |rows| ==> rows[i].description.Some?
  }

  /** The scan succeeds exactly if no selected row has a NULL description. */
  lemma ScannableIffDescribed(t: I.Table, ids: seq<nat>)
    requires forall id :: id in ids ==> id in t
    ensures Scannable(RowsOf(t, ids)) <==> Described(t, ids)
  {
    if Scannable(RowsOf(t, ids)) {
      forall id | id in ids ensures t[id].description.Some? {
        var i :| 0 <= i < |ids| && ids[i] == id;
        assert RowsOf(t, ids)[i].description == t[id].description;
      }
    }
  }

  /** In the repository's own terms: exactly if no selected incident's description is empty.
      The repository never stores an empty description other than as NULL. */
  lemma DescribedIffNoneEmpty(t: I.Table, ids: seq<nat>)
    requires forall id :: id in t ==> t[id].description != Some("")
    ensures Described(t, ids) <==> forall id :: id in ids ==> id in t && I.ToDomain(id, t[id]).description != ""
  {
    forall id | id in ids && id in t
      ensures t[id].description.Some? <==> I.ToDomain(id, t[id]).description != ""
    {
    }
  }

  /** What one Create with an empty description does to the checks near it: for a table that
      holds the row Create stores for x, any selection containing x cannot be scanned, and
      the nearby search may well select it. */
  lemma EmptyDescriptionBlocksChecks(t: I.Table, x: I.Incident, limit: nat)
    requires x.id in t && t[x.id] == I.ToRow(x) && x.active && x.description == "" && limit >= 1
    ensures forall ids: seq<nat> :: x.id in ids ==> !Described(t, ids)
    ensures Found(t, limit, Ok([x.id])) && !Described(t, [x.id])
  {
    assert [x.id][0] in [x.id];
  }

  /** Sequences are ahead of every id in use, here and in the open transaction. */
  ghost predicate SequencesAhead(s: Store, checkSeq: nat, outboxSeq: nat) {
    && (forall c :: c in s.checks ==> c < checkSeq)
    && (forall id :: id in s.outbox ==> id < outboxSeq)
    && 1 <= outboxSeq
  }

  /** What a successful CheckAndRecord commits is a Record step of the relay protocol, enabled
      in whatever state the producers and relays are in. */
  lemma CommitIsRecordStep(s: Protocol.State, checkSeq: nat, outboxSeq: nat, userId: string, incidentIds: seq<nat>)
    requires SequencesAhead(s.store, checkSeq, outboxSeq) && outboxSeq <= MAX_INT64 && NoDup(incidentIds)
    ensures var l := Protocol.Record(checkSeq, outboxSeq, userId, incidentIds);
      && Protocol.Enabled(s, l)
      && Protocol.Apply(s, l).store == Recorded(s.store, checkSeq, outboxSeq, userId, incidentIds, s.now)
  {
    assert FreshIds(s.store, checkSeq, outboxSeq);
  }

  lemma {:induction false} DistinctByCount(s: seq<nat>)
    ensures NoDup(s) <==> |ToSet(s)| == |s|
    ensures |ToSet(s)| <= |s|
  {
    if s != [] {
      var last := |s| - 1;
      var rest, x := s[..last], s[last];
      DistinctByCount(rest);
      assert s == rest + [x];
      if x in rest {
        assert ToSet(s) == ToSet(rest);
        var i :| 0 <= i < |rest| && rest[i] == x;
        assert s[i] == s[last];
      } else {
        assert x !in ToSet(rest);
        assert ToSet(s) == ToSet(rest) + {x};
        assert NoDup(rest) ==> NoDup(s);
        assert NoDup(s) ==> NoDup(rest);
      }
    }
  }

  /** incidentsdb.RecordCheck. Linking the same incident twice violates the primary key of
      location_check_incidents. */
  method RecordCheck(tx: Tx, userId: string, incidentIds: seq<nat>, f: Faults) returns (r: Result<nat>)
    modifies tx, tx.db`checkSeq
    ensures old(tx.aborted) ==> tx.aborted && r.Err?
    ensures r.Ok? <==> !tx.aborted
    ensures !old(tx.aborted) ==>
      (r.Ok? <==> !f.checkInsert && (incidentIds == [] || (!f.linkInsert && NoDup(incidentIds))))
    ensures r.Ok? ==> r.value == old(tx.db.checkSeq) && tx.view == WithCheck(old(tx.view), r.value, userId, incidentIds)
    ensures r.Ok? ==>
      && tx.view.checks == old(tx.view.checks)[r.value := Check(userId)]
      && tx.view.links == old(tx.view.links) + (set i | i in incidentIds :: (r.value, i))
      && tx.view.outbox == old(tx.view.outbox)
    ensures tx.db.checkSeq >= old(tx.db.checkSeq)
    ensures r.Ok? ==> tx.db.checkSeq == old(tx.db.checkSeq) + 1
  {
    if tx.aborted { return Err(TxAborted); }
    var checkId := tx.db.checkSeq;
    tx.db.checkSeq := checkId + 1;
    if f.checkInsert {
      tx.aborted := true;
      return Err(StatementFailed);
    }
    if |incidentIds| > 0 {
      DistinctByCount(incidentIds);
      if f.linkInsert || |ToSet(incidentIds)| != |incidentIds| {
        tx.aborted := true;
        return Err(StatementFailed);
      }
    }
    tx.view := WithCheck(tx.view, checkId, userId, incidentIds);
    return Ok(checkId);
  }

  /** incidentsdb.FindNearby after the query: one NULL description fails the whole scan. */
  method ScanNearby(rows: seq<NearbyRow>) returns (r: Result<seq<Nearby>>)
    ensures r.Ok? <==> Scannable(rows)
    ensures r.Err? ==> r == Err(NullDescription)
    ensures r.Ok? ==> |r.value| == |rows| && forall i :: 0 <= i < |rows| ==>
      r.value[i] == Nearby(rows[i].incidentId, rows[i].description.value)
  {
    var out: seq<Nearby> := [];
    for i := 0 to |rows|
      invariant |out| == i
      invariant forall k :: 0 <= k < i ==>
        rows[k].description.Some? && out[k] == Nearby(rows[k].incidentId, rows[k].description.value)
    {
      match rows[i].description
      case None => return Err(NullDescription);
      case Some(d) => out := out + [Nearby(rows[i].incidentId, d)];
    }
    return Ok(out);
  }

  /** incidentsdb.FindNearby: the selected incidents in order, unless one of them has no
      description. */
  method FindNearby(t: I.Table, limit: nat, found: Result<seq<nat>>) returns (r: Result<seq<Nearby>>)
    requires Found(t, limit, found)
    ensures r.Ok? <==> found.Ok? && Described(t, found.value)
    ensures r.Ok? <==> found.Ok? && forall id :: id in found.value ==> t[id].description.Some?
    ensures found.Err? ==> r == Err(found.error)
    ensures found.Ok? && r.Err? ==> r == Err(NullDescription)
    ensures r.Ok? ==> |r.value| == |found.value| && forall i :: 0 <= i < |found.value| ==>
      && found.value[i] in t && r.value[i].incidentId == found.value[i]
      && t[found.value[i]].description == Some(r.value[i].description)
  {
    if found.Err? { return Err(found.error); }
    ScannableIffDescribed(t, found.value);
    r := ScanNearby(RowsOf(t, found.value));
  }

  class Service {
    const db: Database

    constructor (db: Database)
      ensures this.db == db
    {
      this.db := db;
    }

    /** `t` is the incidents table, `found` what FindNearby's query finds in it for the
        command's point and limit. */
    method CheckAndRecord(userId: string, t: I.Table, limit: nat, found: Result<seq<nat>>, now: int, f: Faults)
      returns (r: Result<seq<Nearby>>)
      requires Found(t, limit, found)
      requires SequencesAhead(db.committed, db.checkSeq, db.outboxSeq)
      modifies db
      // exactly when it succeeds
      ensures r.Ok? <==>
        && found.Ok? && Described(t, found.value)
        && !f.begin && !f.checkInsert && f.commit.Applied?
        && (found.value != [] ==> !f.linkInsert && !f.enqueue)
      // success means check, links and outbox row are all committed
      ensures r.Ok? ==>
        db.committed == Recorded(old(db.committed), old(db.checkSeq), old(db.outboxSeq), userId, found.value, now)
      ensures r.Ok? ==> db.committed.checks == old(db.committed.checks)[old(db.checkSeq) := Check(userId)]
      ensures r.Ok? ==> db.committed.links == old(db.committed.links) + (set i | i in found.value :: (old(db.checkSeq), i))
      ensures r.Ok? && found.value == [] ==> db.committed.outbox == old(db.committed.outbox)
      ensures r.Ok? && found.value != [] ==>
        var event := CheckCompleted(old(db.checkSeq), userId, found.value, now);
        db.committed.outbox ==
          old(db.committed.outbox)[old(db.outboxSeq) := Row("location_check", Json(event), Pending, 0, now, None)]
      // failure leaves none of them, unless the commit was applied and its answer lost
      ensures r.Err? ==>
        || db.committed == old(db.committed)
        || (f.commit.AppliedUnseen? && found.Ok? && Described(t, found.value) && db.committed ==
              Recorded(old(db.committed), old(db.checkSeq), old(db.outboxSeq), userId, found.value, now))
      // one selected incident with an empty description, and nothing is recorded
      ensures found.Ok? && (exists id :: id in found.value && t[id].description.None?) ==> r == Err(NullDescription) && db.committed == old(db.committed)
      ensures r.Ok? ==> |r.value| == |found.value| && forall i :: 0 <= i < |found.value| ==>
        && found.value[i] in t && r.value[i].incidentId == found.value[i]
        && t[found.value[i]].description == Some(r.value[i].description)
      ensures SequencesAhead(db.committed, db.checkSeq, db.outboxSeq)
      ensures old(Correspondence(db.committed)) && old(db.outboxSeq) <= MAX_INT64 ==> Correspondence(db.committed)
    {
      var inc := FindNearby(t, limit, found);
      if inc.Err? { return inc; }
      var incidentIds: seq<nat> := [];
      for i := 0 to |inc.value|
        invariant incidentIds == found.value[..i]
      {
        incidentIds := incidentIds + [inc.value[i].incidentId];
      }
      assert incidentIds == found.value;

      var begun, owned := Begin(Root(db), f.begin);
      if begun.Err? { return Err(begun.error); }
      var tx := begun.value;
      var err := RecordAndPublish(tx, userId, incidentIds, now, f);
      var outcome := Finish(tx, owned, Returned(err), f.commit);
      if old(Correspondence(db.committed)) && old(db.outboxSeq) <= MAX_INT64 {
        RecordedKeepsCorrespondence(old(db.committed), old(db.checkSeq), old(db.outboxSeq), userId, incidentIds, now);
      }
      match outcome.err
      case Some(e) => return Err(e);
      case None => return inc;
    }

    /** The callback of the transaction. */
    static method RecordAndPublish(tx: Tx, userId: string, incidentIds: seq<nat>, now: int, f: Faults)
      returns (err: Option<Error>)
      requires !tx.aborted
      modifies tx, tx.db`checkSeq, tx.db`outboxSeq
      ensures err.None? <==>
        !f.checkInsert && (incidentIds == [] || (!f.linkInsert && NoDup(incidentIds) && !f.enqueue))
      ensures err.None? ==> !tx.aborted
      ensures err.None? ==>
        && tx.view == Recorded(old(tx.view), old(tx.db.checkSeq), old(tx.db.outboxSeq), userId, incidentIds, now)
        && tx.db.checkSeq == old(tx.db.checkSeq) + 1
        && (incidentIds != [] ==> tx.db.outboxSeq == old(tx.db.outboxSeq) + 1)
      ensures err.None? ==>
        && tx.view.checks == old(tx.view.checks)[old(tx.db.checkSeq) := Check(userId)]
        && tx.view.links == old(tx.view.links) + (set i | i in incidentIds :: (old(tx.db.checkSeq), i))
      ensures err.None? && incidentIds == [] ==> tx.view.outbox == old(tx.view.outbox)
      ensures err.None? && incidentIds != [] ==>
        var event := CheckCompleted(old(tx.db.checkSeq), userId, incidentIds, now);
        tx.view.outbox ==
          old(tx.view.outbox)[old(tx.db.outboxSeq) := Row("location_check", Json(event), Pending, 0, now, None)]
      ensures tx.db.checkSeq >= old(tx.db.checkSeq) && tx.db.outboxSeq >= old(tx.db.outboxSeq)
    {
      var recorded := RecordCheck(tx, userId, incidentIds, f);
      if recorded.Err? { return Some(recorded.error); }
      if |incidentIds| == 0 { return None; }
      var event := CheckCompleted(recorded.value, userId, incidentIds, now);
      var repo := new Repository(tx);
      err := repo.Enqueue(EVENT_TYPE, Json(event), now, f.enqueue);
    }
  }
}
