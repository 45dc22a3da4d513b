/** One call at a time: what each cache operation answers and the keys it leaves behind, and
    why a session of calls cannot tell the cached repository from the uncached one. */
module CacheSession {
  import opened Common
  import opened Decimal
  import opened Incidents
  import opened CacheKeys
  import P = CacheProtocol

  /** What Redis answers to each command of a call, and the database to its statement. */
  datatype Faults = Faults(version: bool, setNX: bool, get: bool, database: bool, fill: bool, incr: bool)

  /** What getVersion answers, and the keys it leaves behind. */
  function VersionRead(kv: map<string, P.Value>, f: Faults): int {
    if f.version then 0 else if VERSION_KEY in kv then P.Current(kv) else 1
  }

  function VersionEnsured(kv: map<string, P.Value>, f: Faults): map<string, P.Value> {
    if !f.version && VERSION_KEY !in kv && !f.setNX then kv[VERSION_KEY := P.Counter(1)] else kv
  }

  predicate Hits(kv: map<string, P.Value>, key: string, now: int, f: Faults) {
    !f.get && key in kv && P.Unexpired(kv[key], now)
  }

  /** What List answers when it looks under `key`: the entry, or else the database. */
  ghost function Answer(kv: map<string, P.Value>, key: string, t: Table, filter: ListFilter, now: int, f: Faults): Result<seq<Incident>> {
    if Hits(kv, key, now, f) then Ok(kv[key].items)
    else if f.database then Err(StatementFailed)
    else ListPage(t, filter)
  }

  /** And the keys it leaves behind: a miss stores the page, unless SET fails. */
  function Stored(kv: map<string, P.Value>, key: string, r: Result<seq<Incident>>, ttl: int, now: int, f: Faults): map<string, P.Value> {
    if Hits(kv, key, now, f) || r.Err? || f.fill then kv
    else kv[key := P.Page(r.value, P.Expiry(now, ttl))]
  }

  function Incremented(kv: map<string, P.Value>, f: Faults): map<string, P.Value> {
    if f.incr || P.Current(kv) >= MAX_INT64 then kv else kv[VERSION_KEY := P.Counter(P.Current(kv) + 1)]
  }

  /** What GET version and SETNX leave List with. */
  lemma VersionMeaning(kv: map<string, P.Value>, f: Faults)
    requires VERSION_KEY in kv ==> kv[VERSION_KEY].Counter?
    ensures f.version ==> VersionRead(kv, f) == 0 && VersionEnsured(kv, f) == kv
    ensures !f.version && VERSION_KEY in kv ==> VersionRead(kv, f) == kv[VERSION_KEY].n && VersionEnsured(kv, f) == kv
    ensures !f.version && VERSION_KEY !in kv ==> VersionRead(kv, f) == 1
    ensures !f.version && VERSION_KEY !in kv && !f.setNX ==> VersionEnsured(kv, f) == kv[VERSION_KEY := P.Counter(1)]
    ensures !f.version && VERSION_KEY !in kv && f.setNX ==> VersionEnsured(kv, f) == kv
  {
  }

  /** A page under the key that has not expired is served whatever the database would say, and
      nothing is stored. Otherwise the database answers, and its page is stored for ttl. */
  lemma AnswerMeaning(kv: map<string, P.Value>, key: string, t: Table, filter: ListFilter, ttl: int, now: int, f: Faults)
    ensures var r := Answer(kv, key, t, filter, now, f);
      var kv' := Stored(kv, key, r, ttl, now, f);
      var served := !f.get && key in kv && kv[key].Page? && (kv[key].expires.None? || now < kv[key].expires.value);
      && (served ==> r == Ok(kv[key].items) && kv' == kv)
      && (!served && f.database ==> r == Err(StatementFailed) && kv' == kv)
      && (!served && !f.database ==> r == ListPage(t, filter))
      && (!served && !f.database && r.Ok? && !f.fill && ttl > 0 ==> kv' == kv[key := P.Page(r.value, Some(now + ttl))])
      && (!served && !f.database && r.Ok? && !f.fill && ttl <= 0 ==> kv' == kv[key := P.Page(r.value, None)])
      && (r.Err? || f.fill ==> kv' == kv)
  {
  }

  /** After a List that could store its page, the same List within the time to live, with no
      write between, returns the same page, even with the database down. */
  lemma FilledPageIsServed(kv: map<string, P.Value>, t: Table, filter: ListFilter, ttl: int, now: int, f: Faults, later: int, g: Faults)
    requires VERSION_KEY in kv ==> kv[VERSION_KEY].Counter?
    requires !f.version && (VERSION_KEY in kv || !f.setNX) && !f.get && !f.fill && !g.version && !g.get
    ensures var ensured := VersionEnsured(kv, f);
      var key := PageKey(VersionRead(kv, f), filter.limit, filter.offset);
      var r := Answer(ensured, key, t, filter, now, f);
      var kv' := Stored(ensured, key, r, ttl, now, f);
      && VERSION_KEY in kv' && VersionEnsured(kv', g) == kv'
      && PageKey(VersionRead(kv', g), filter.limit, filter.offset) == key
      && (r.Ok? && !(key in ensured && ensured[key].Page? && Expires(ensured[key], now, later)) && now <= later && (ttl > 0 ==> later < now + ttl) ==>
            Answer(kv', key, t, filter, later, g) == r)
  {
    PageKeyIsNotVersionKey(VersionRead(kv, f), filter.limit, filter.offset);
  }

  /** A page still good at `now` but no longer at `later`. */
  predicate Expires(v: P.Value, now: int, later: int)
    requires v.Page?
  {
    v.expires.Some? && now < v.expires.value <= later
  }

  /** INCR: the counter rises by one, an absent one to 1; on an error, or at the largest 64-bit
      integer, nothing changes. */
  lemma IncrementedMeaning(kv: map<string, P.Value>, f: Faults)
    requires VERSION_KEY in kv ==> kv[VERSION_KEY].Counter?
    ensures f.incr ==> Incremented(kv, f) == kv
    ensures VERSION_KEY in kv && kv[VERSION_KEY].n >= 0x7fff_ffff_ffff_ffff ==> Incremented(kv, f) == kv
    ensures VERSION_KEY !in kv && !f.incr ==> Incremented(kv, f) == kv[VERSION_KEY := P.Counter(1)]
    ensures VERSION_KEY in kv && kv[VERSION_KEY].n < 0x7fff_ffff_ffff_ffff && !f.incr ==>
      Incremented(kv, f) == kv[VERSION_KEY := P.Counter(kv[VERSION_KEY].n + 1)]
  {
  }

  /** Every entry under the current version is the page the database would return now. */
  ghost predicate EntryCurrent(kv: map<string, P.Value>, t: Table, v: int, limit: int, offset: int) {
    var key := PageKey(v, limit, offset);
    key in kv ==>
      && kv[key].Page? && limit >= 0 && offset >= 0 && 0 <= v <= P.Current(kv)
      && (1 <= v == P.Current(kv) ==> kv[key].items == P.PageAt(t, limit, offset))
  }

  ghost predicate Coherent(kv: map<string, P.Value>, t: Table) {
    && (VERSION_KEY in kv ==> kv[VERSION_KEY].Counter? && P.Current(kv) >= 1)
    && forall v, limit, offset :: EntryCurrent(kv, t, v, limit, offset)
  }

  lemma CoherentSetVersion(kv: map<string, P.Value>, t: Table, n: int, t': Table)
    requires n > P.Current(kv)
    ensures Coherent(kv, t) ==> Coherent(kv[VERSION_KEY := P.Counter(n)], t')
  {
    var kv' := kv[VERSION_KEY := P.Counter(n)];
    if Coherent(kv, t) {
      forall v, limit, offset ensures EntryCurrent(kv', t', v, limit, offset) {
        PageKeyIsNotVersionKey(v, limit, offset);
        assert EntryCurrent(kv, t, v, limit, offset);
      }
    }
  }

  lemma CoherentFill(kv: map<string, P.Value>, t: Table, v: int, limit: nat, offset: nat, value: P.Value)
    requires value.Page? && value.items == P.PageAt(t, limit, offset)
    ensures var kv' := kv[PageKey(v, limit, offset) := value];
      && P.Current(kv') == P.Current(kv) && (VERSION_KEY in kv' <==> VERSION_KEY in kv)
      && (VERSION_KEY in kv ==> kv'[VERSION_KEY] == kv[VERSION_KEY])
      && (Coherent(kv, t) && 0 <= v <= P.Current(kv) ==> Coherent(kv', t))
  {
    var kv' := kv[PageKey(v, limit, offset) := value];
    PageKeyIsNotVersionKey(v, limit, offset);
    if Coherent(kv, t) && 0 <= v <= P.Current(kv) {
      forall v', limit', offset' ensures EntryCurrent(kv', t, v', limit', offset') {
        assert EntryCurrent(kv, t, v', limit', offset');
        if PageKey(v', limit', offset') == PageKey(v, limit, offset) {
          PageKeyInjective(v', limit', offset', v, limit, offset);
        }
      }
    }
  }

  /** A List keeps the cache coherent and answers as the uncached repository would, if Redis
      answers the version read and no SETNX failed on an absent version key. */
  lemma ListIsTransparent(kv: map<string, P.Value>, t: Table, filter: ListFilter, ttl: int, now: int, f: Faults)
    requires Coherent(kv, t) && filter.activeOnly && (f.version || VERSION_KEY in kv || !f.setNX)
    ensures var ensured := VersionEnsured(kv, f);
      var key := PageKey(VersionRead(kv, f), filter.limit, filter.offset);
      var r := Answer(ensured, key, t, filter, now, f);
      && (!f.version ==> r == ListPage(t, filter) || (f.database && r == Err(StatementFailed)))
      && Coherent(Stored(ensured, key, r, ttl, now, f), t)
  {
    var ensured, ver := VersionEnsured(kv, f), VersionRead(kv, f);
    if VERSION_KEY !in kv { CoherentSetVersion(kv, t, 1, t); }
    assert Coherent(ensured, t);
    FetchIsTransparent(ensured, t, ver, filter, ttl, now, f);
  }

  lemma FetchIsTransparent(kv: map<string, P.Value>, t: Table, ver: int, filter: ListFilter, ttl: int, now: int, f: Faults)
    requires Coherent(kv, t) && 0 <= ver <= P.Current(kv) && filter.activeOnly
    ensures var key := PageKey(ver, filter.limit, filter.offset);
      var r := Answer(kv, key, t, filter, now, f);
      && (1 <= ver == P.Current(kv) ==> r == ListPage(t, filter) || (f.database && r == Err(StatementFailed)))
      && Coherent(Stored(kv, key, r, ttl, now, f), t)
  {
    assert EntryCurrent(kv, t, ver, filter.limit, filter.offset);
    var key := PageKey(ver, filter.limit, filter.offset);
    var r := Answer(kv, key, t, filter, now, f);
    if r.Ok? && !Hits(kv, key, now, f) {
      CoherentFill(kv, t, ver, filter.limit, filter.offset, P.Page(r.value, P.Expiry(now, ttl)));
    }
  }

  /** A write whose INCR succeeds takes a cache coherent with the old table to one coherent
      with the new table, whatever the write was. */
  lemma WriteIsTransparent(kv: map<string, P.Value>, t: Table, t': Table, f: Faults)
    requires Coherent(kv, t) && !f.incr && P.Current(kv) < MAX_INT64
    ensures Coherent(Incremented(kv, f), t')
  {
    CoherentSetVersion(kv, t, P.Current(kv) + 1, t');
  }

  // ----- whole sessions -----

  /** A call as the cache sees it: a list of the active incidents, a write that leaves
      table t, or a write that returns an error and changes nothing. */
  datatype Call = Reads(filter: ListFilter, at: int) | Writes(t: Table) | Fails

  const WORKING: Faults := Faults(false, false, false, false, false, false)

  /** What the lists of a session answer through the cache. */
  ghost function Cached(kv: map<string, P.Value>, t: Table, ttl: int, calls: seq<Call>): seq<Result<seq<Incident>>>
    decreases |calls|
  {
    if calls == [] then []
    else match calls[0]
      case Writes(t') => Cached(Incremented(kv, WORKING), t', ttl, calls[1..])
      case Fails => Cached(kv, t, ttl, calls[1..])
      case Reads(filter, at) =>
        var ensured := VersionEnsured(kv, WORKING);
        var key := PageKey(VersionRead(kv, WORKING), filter.limit, filter.offset);
        var r := Answer(ensured, key, t, filter, at, WORKING);
        [r] + Cached(Stored(ensured, key, r, ttl, at, WORKING), t, ttl, calls[1..])
  }

  /** And what they answer without it. */
  ghost function Uncached(t: Table, calls: seq<Call>): seq<Result<seq<Incident>>>
    decreases |calls|
  {
    if calls == [] then []
    else match calls[0]
      case Writes(t') => Uncached(t', calls[1..])
      case Fails => Uncached(t, calls[1..])
      case Reads(filter, _) => [ListPage(t, filter)] + Uncached(t, calls[1..])
  }

  lemma CurrentAfterRead(kv: map<string, P.Value>, v: int, limit: int, offset: int, r: Result<seq<Incident>>, ttl: int, at: int)
    ensures P.Current(Stored(VersionEnsured(kv, WORKING), PageKey(v, limit, offset), r, ttl, at, WORKING)) <= P.Current(kv) + 1
         || P.Current(kv) < 0
  {
    PageKeyIsNotVersionKey(v, limit, offset);
  }

  /** Calls that do not overlap, with Redis working, cannot tell the cached repository from
      the uncached one, however long the session. */
  lemma {:induction false} SessionIsTransparent(kv: map<string, P.Value>, t: Table, ttl: int, calls: seq<Call>)
    requires Coherent(kv, t) && P.Current(kv) + |calls| < MAX_INT64
    requires forall c :: c in calls && c.Reads? ==> c.filter.activeOnly
    ensures Cached(kv, t, ttl, calls) == Uncached(t, calls)
    decreases |calls|
  {
    if calls != [] {
      assert calls[0] in calls;
      match calls[0]
      case Writes(t') =>
        WriteIsTransparent(kv, t, t', WORKING);
        SessionIsTransparent(Incremented(kv, WORKING), t', ttl, calls[1..]);
      case Fails =>
        SessionIsTransparent(kv, t, ttl, calls[1..]);
      case Reads(filter, at) =>
        ListIsTransparent(kv, t, filter, ttl, at, WORKING);
        var ensured := VersionEnsured(kv, WORKING);
        var key := PageKey(VersionRead(kv, WORKING), filter.limit, filter.offset);
        var r := Answer(ensured, key, t, filter, at, WORKING);
        CurrentAfterRead(kv, VersionRead(kv, WORKING), filter.limit, filter.offset, r, ttl, at);
        SessionIsTransparent(Stored(ensured, key, r, ttl, at, WORKING), t, ttl, calls[1..]);
    }
  }

  // ----- paging through the cache -----

  /** `calls` asks for consecutive pages of the given size. */
  predicate AsksForPages(calls: seq<Call>, limit: nat) {
    forall i :: 0 <= i < |calls| ==> calls[i].Reads? && calls[i].filter == ListFilter(limit, i * limit, true)
  }

  /** The answers laid end to end. */
  function Joined(answers: seq<Result<seq<Incident>>>): seq<Incident> {
    if answers == [] then []
    else
      var last := answers[|answers| - 1];
      Joined(answers[..|answers| - 1]) + if last.Ok? then last.value else []
  }

  lemma {:induction false} UncachedReads(t: Table, calls: seq<Call>)
    requires forall i :: 0 <= i < |calls| ==> calls[i].Reads?
    ensures |Uncached(t, calls)| == |calls|
    ensures forall i :: 0 <= i < |calls| ==> Uncached(t, calls)[i] == ListPage(t, calls[i].filter)
    decreases |calls|
  {
    if calls != [] { UncachedReads(t, calls[1..]); }
  }

  lemma {:induction false} JoinedPages(t: Table, limit: nat, answers: seq<Result<seq<Incident>>>)
    requires forall i :: 0 <= i < |answers| ==> answers[i] == ListPage(t, ListFilter(limit, i * limit, true))
    ensures Joined(answers) == Pages(t, true, limit, |answers|)
    decreases |answers|
  {
    if answers != [] { JoinedPages(t, limit, answers[..|answers| - 1]); }
  }

  /** Pages read through the cache one after the other, until there are enough of them, are
      the active incidents, newest first, each exactly once. */
  lemma CachedPagesPartition(kv: map<string, P.Value>, t: Table, ttl: int, calls: seq<Call>, limit: nat)
    requires Coherent(kv, t) && P.Current(kv) + |calls| < MAX_INT64
    requires AsksForPages(calls, limit) && limit >= 1 && |calls| * limit >= |Listing(t, true)|
    ensures var s := Joined(Cached(kv, t, ttl, calls));
      && (forall i, j :: 0 <= i < j < |s| ==>
            s[i].createdAt > s[j].createdAt || (s[i].createdAt == s[j].createdAt && s[i].id > s[j].id))
      && NoDup(s)
      && forall x :: x in s <==> x.id in t && t[x.id].active && x == ToDomain(x.id, t[x.id])
  {
    SessionIsTransparent(kv, t, ttl, calls);
    UncachedReads(t, calls);
    JoinedPages(t, limit, Uncached(t, calls));
    PagesPartition(t, true, limit, |calls|);
  }
}
