/** The committed tables the check service and the relay share. */
module Tables {
  import opened Common
  import opened Decimal
  import opened Outbox

  datatype Check = Check(userId: string)

  /** location_checks, location_check_incidents and webhook_outbox. */
  datatype Store = Store(checks: map<nat, Check>, links: set<(nat, nat)>, outbox: Table)

  const EVENT_TYPE := "location_check"

  const EMPTY: Store := Store(map[], {}, map[])

  function Linked(s: Store, checkId: nat): set<nat> {
    set p | p in s.links && p.0 == checkId :: p.1
  }

  function LinkAll(checkId: nat, incidentIds: seq<nat>): set<(nat, nat)> {
    set i | i in incidentIds :: (checkId, i)
  }

  /** The store after RecordCheck has inserted a check and its links. */
  function WithCheck(s: Store, checkId: nat, userId: string, incidentIds: seq<nat>): Store {
    s.(checks := s.checks[checkId := Check(userId)], links := s.links + LinkAll(checkId, incidentIds))
  }

  /** The store after a whole CheckAndRecord transaction. */
  function Recorded(s: Store, checkId: nat, rowId: nat, userId: string, incidentIds: seq<nat>, now: int): Store {
    var t := WithCheck(s, checkId, userId, incidentIds);
    if incidentIds == [] then t
    else
      var event := CheckCompleted(checkId, userId, incidentIds, now);
      t.(outbox := t.outbox[rowId := NewRow(EVENT_TYPE, Json(event), now)])
  }

  /** Ids a sequence has not handed out to any committed row. */
  predicate FreshIds(s: Store, checkId: nat, rowId: nat) {
    checkId !in s.checks && rowId !in s.outbox && 1 <= rowId <= MAX_INT64
  }

  /** Row `id` announces its own check: same user, same linked incidents, at least one. */
  ghost predicate Announces(s: Store, id: nat)
    requires id in s.outbox
  {
    var payload := s.outbox[id].payload;
    && payload.Json?
    && payload.event.checkId in s.checks
    && payload.event.userId == s.checks[payload.event.checkId].userId
    && payload.event.incidentIds != []
    && NoDup(payload.event.incidentIds)
    && ToSet(payload.event.incidentIds) == Linked(s, payload.event.checkId)
  }

  /** The announced incidents are exactly those linked to the check. */
  lemma AnnouncedLinks(s: Store, id: nat)
    requires id in s.outbox && Announces(s, id)
    ensures forall i :: i in s.outbox[id].payload.event.incidentIds <==> (s.outbox[id].payload.event.checkId, i) in s.links
  {
    var event := s.outbox[id].payload.event;
    forall i ensures i in event.incidentIds <==> (event.checkId, i) in s.links {
      assert i in ToSet(event.incidentIds) <==> i in Linked(s, event.checkId);
    }
  }

  ghost predicate RowFor(s: Store, checkId: nat, id: nat) {
    id in s.outbox && s.outbox[id].payload.Json? && s.outbox[id].payload.event.checkId == checkId
  }

  /** Every row announces a committed check; a check has a row exactly if it has links;
      and never more than one. */
  ghost predicate Correspondence(s: Store) {
    && (forall id :: id in s.outbox ==> Announces(s, id))
    && (forall c :: c in s.checks ==> (Linked(s, c) != {} <==> exists id :: RowFor(s, c, id)))
    && (forall c, i, j :: RowFor(s, c, i) && RowFor(s, c, j) ==> i == j)
    && (forall p :: p in s.links ==> p.0 in s.checks)
  }

  lemma RecordedLinks(s: Store, checkId: nat, rowId: nat, userId: string, incidentIds: seq<nat>, now: int, c: nat)
    requires forall p :: p in s.links ==> p.0 in s.checks
    requires checkId !in s.checks
    ensures Linked(Recorded(s, checkId, rowId, userId, incidentIds, now), c)
         == if c == checkId then ToSet(incidentIds) else Linked(s, c)
  {
    var s' := Recorded(s, checkId, rowId, userId, incidentIds, now);
    if c == checkId {
      forall i | i in ToSet(incidentIds) ensures i in Linked(s', c) {
        assert (c, i) in s'.links;
      }
    } else {
      forall i | i in Linked(s, c) ensures i in Linked(s', c) {
        assert (c, i) in s'.links;
      }
    }
  }

  lemma RecordedRows(s: Store, checkId: nat, rowId: nat, userId: string, incidentIds: seq<nat>, now: int, c: nat, id: nat)
    requires Correspondence(s) && FreshIds(s, checkId, rowId)
    ensures RowFor(Recorded(s, checkId, rowId, userId, incidentIds, now), c, id)
       <==> RowFor(s, c, id) || (c == checkId && id == rowId && incidentIds != [])
    ensures RowFor(s, c, id) ==> c != checkId && id != rowId
  {
    if id in s.outbox { assert Announces(s, id); }
  }

  lemma RecordedAnnounces(s: Store, checkId: nat, rowId: nat, userId: string, incidentIds: seq<nat>, now: int, id: nat)
    requires Correspondence(s) && FreshIds(s, checkId, rowId) && NoDup(incidentIds)
    requires id in Recorded(s, checkId, rowId, userId, incidentIds, now).outbox
    ensures Announces(Recorded(s, checkId, rowId, userId, incidentIds, now), id)
  {
    if id in s.outbox {
      assert Announces(s, id);
      RecordedLinks(s, checkId, rowId, userId, incidentIds, now, s.outbox[id].payload.event.checkId);
    } else {
      RecordedLinks(s, checkId, rowId, userId, incidentIds, now, checkId);
    }
  }

  lemma RecordedHasRowIff(s: Store, checkId: nat, rowId: nat, userId: string, incidentIds: seq<nat>, now: int, c: nat)
    requires Correspondence(s) && FreshIds(s, checkId, rowId)
    requires c in s.checks || c == checkId
    ensures Linked(Recorded(s, checkId, rowId, userId, incidentIds, now), c) != {}
       <==> exists id :: RowFor(Recorded(s, checkId, rowId, userId, incidentIds, now), c, id)
  {
    var s' := Recorded(s, checkId, rowId, userId, incidentIds, now);
    RecordedLinks(s, checkId, rowId, userId, incidentIds, now, c);
    if c == checkId {
      if incidentIds == [] {
        forall id ensures !RowFor(s', c, id) {
          RecordedRows(s, checkId, rowId, userId, incidentIds, now, c, id);
        }
      } else {
        assert incidentIds[0] in ToSet(incidentIds);
        assert RowFor(s', c, rowId);
      }
    } else {
      forall id ensures RowFor(s', c, id) == RowFor(s, c, id) {
        RecordedRows(s, checkId, rowId, userId, incidentIds, now, c, id);
      }
    }
  }

  /** A CheckAndRecord transaction keeps the correspondence. */
  lemma RecordedKeepsCorrespondence(s: Store, checkId: nat, rowId: nat, userId: string, incidentIds: seq<nat>, now: int)
    requires Correspondence(s) && FreshIds(s, checkId, rowId) && NoDup(incidentIds)
    ensures Correspondence(Recorded(s, checkId, rowId, userId, incidentIds, now))
  {
    var s' := Recorded(s, checkId, rowId, userId, incidentIds, now);
    forall id | id in s'.outbox ensures Announces(s', id) {
      RecordedAnnounces(s, checkId, rowId, userId, incidentIds, now, id);
    }
    forall c | c in s'.checks ensures Linked(s', c) != {} <==> exists id :: RowFor(s', c, id) {
      RecordedHasRowIff(s, checkId, rowId, userId, incidentIds, now, c);
    }
    forall c, i, j | RowFor(s', c, i) && RowFor(s', c, j) ensures i == j {
      RecordedRows(s, checkId, rowId, userId, incidentIds, now, c, i);
      RecordedRows(s, checkId, rowId, userId, incidentIds, now, c, j);
    }
  }

  /** Relay statements change status, attempts and times only, which the correspondence
      does not look at. */
  ghost predicate SamePayloads(t: Table, t': Table) {
    t.Keys == t'.Keys && forall id :: id in t ==> t'[id].payload == t[id].payload && t'[id].eventType == t[id].eventType
  }

  lemma RelayKeepsCorrespondence(s: Store, t: Table)
    requires Correspondence(s) && SamePayloads(s.outbox, t)
    ensures Correspondence(s.(outbox := t))
  {
    var s' := s.(outbox := t);
    forall c ensures Linked(s', c) == Linked(s, c) { }
    forall c, id ensures RowFor(s', c, id) == RowFor(s, c, id) { }
    forall id | id in t ensures Announces(s', id) { assert Announces(s, id); }
  }
}
