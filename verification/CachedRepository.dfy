/** The caching repository: List behind a versioned Redis cache, invalidated by bumping the
    version after every write. One call at a time; CacheProtocol interleaves them, and each
    method here is an uninterrupted run of it. */
module CachedRepository {
  import opened Common
  import opened Decimal
  import opened Incidents
  import opened IncidentsRepository
  import opened CacheKeys
  import opened CacheSession
  import P = CacheProtocol
  import Paths = CachePaths

  class CachedRepository {
    const next: Repository
    const ttl: int
    var kv: map<string, P.Value>
    // the history the protocol speaks of
    ghost var hist: seq<Table>
    ghost var times: seq<int>
    ghost var origins: map<string, P.Origin>
    ghost var bumps: map<nat, nat>

    constructor (next: Repository, ttl: int, ghost now: int)
      requires next.Valid()
      ensures this.next == next && this.ttl == ttl && Valid() && Coherent(kv, next.table)
      ensures View(now, P.Resting, P.Quiet) == P.Init(next.table, ttl, now, {0}, {0})
    {
      this.next, this.ttl, kv := next, ttl, map[];
      hist, times, origins, bumps := [next.table], [now], map[], map[];
    }

    ghost predicate Valid()
      reads this, next
    {
      next.Valid() && |hist| >= 1 && hist[|hist| - 1] == next.table && Tracked()
    }

    ghost predicate Tracked()
      reads this
    {
      && (VERSION_KEY in kv ==> kv[VERSION_KEY].Counter? && P.Current(kv) >= 1)
      && forall key :: key in kv && kv[key].Page? ==> key in origins
    }

    /** The protocol state with one reader and one writer, in the given phases. */
    ghost function View(now: int, rd: P.Reader, wr: P.Writer): P.State
      reads this
    {
      P.State(now, ttl, hist, times, kv, origins, bumps, map[0 := wr], map[0 := rd])
    }

    /** getVersion: "0" if Redis fails, "1" if the key is absent, whatever becomes of SETNX. */
    method GetVersion(ghost q: P.Request, now: int, f: Faults) returns (ver: int, ghost steps: seq<P.Label>)
      requires Valid()
      modifies this`kv
      ensures Valid()
      ensures ver == VersionRead(old(kv), f) && kv == VersionEnsured(old(kv), f)
      ensures ver == if f.version then 0 else if VERSION_KEY in old(kv) then old(kv)[VERSION_KEY].n else 1
      ensures P.CanRun(old(View(now, P.Starting(q), P.Quiet)), steps)
      ensures P.Run(old(View(now, P.Starting(q), P.Quiet)), steps) == View(now, P.Versioned(q, ver, !f.version), P.Quiet)
    {
      ghost var s0 := View(now, P.Starting(q), P.Quiet);
      if f.version {
        Paths.VersionError(s0, q);
        return 0, [P.GetVersionErr(0)];
      }
      if VERSION_KEY !in kv {
        steps := Paths.VersionAbsent(s0, q, f.setNX);
        if !f.setNX { kv := kv[VERSION_KEY := P.Counter(1)]; }
        return 1, steps;
      }
      Paths.VersionFound(s0, q);
      return kv[VERSION_KEY].n, [P.GetVersion(0)];
    }

    /** List after getVersion. */
    method Fetch(f: ListFilter, ver: int, ghost q: P.Request, ghost healthy: bool, now: int, faults: Faults)
      returns (r: Result<seq<Incident>>, ghost steps: seq<P.Label>)
      requires Valid() && f.activeOnly && q.limit == f.limit && q.offset == f.offset
      modifies this`kv, this`origins
      ensures Valid()
      ensures var key := PageKey(ver, f.limit, f.offset);
        && r == Answer(old(kv), key, next.table, f, now, faults)
        && kv == Stored(old(kv), key, r, ttl, now, faults)
      // an unexpired page is served, whatever the database would answer
      ensures !faults.get ==>
        var key := PageKey(ver, f.limit, f.offset);
        key in old(kv) && old(kv)[key].Page? && (old(kv)[key].expires.None? || now < old(kv)[key].expires.value) ==>
          r == Ok(old(kv)[key].items) && kv == old(kv)
      ensures P.CanRun(old(View(now, P.Versioned(q, ver, healthy), P.Quiet)), steps)
      ensures P.Run(old(View(now, P.Versioned(q, ver, healthy), P.Quiet)), steps) == View(now, P.Resting, P.Quiet)
    {
      var hit;
      hit, steps := Lookup(f, ver, q, healthy, now, faults);
      if hit.Some? { return Ok(hit.value), steps; }
      r, steps := Reload(f, ver, q, healthy, now, faults);
    }

    /** GET of the page. */
    method Lookup(f: ListFilter, ver: int, ghost q: P.Request, ghost healthy: bool, now: int, faults: Faults)
      returns (hit: Option<seq<Incident>>, ghost steps: seq<P.Label>)
      requires Valid() && f.activeOnly && q.limit == f.limit && q.offset == f.offset
      ensures var key := PageKey(ver, f.limit, f.offset);
        hit == if Hits(kv, key, now, faults) then Some(kv[key].items) else None
      ensures hit.Some? ==> P.CanRun(View(now, P.Versioned(q, ver, healthy), P.Quiet), steps)
      ensures hit.Some? ==> P.Run(View(now, P.Versioned(q, ver, healthy), P.Quiet), steps) == View(now, P.Resting, P.Quiet)
    {
      var key := PageKey(ver, f.limit, f.offset);
      if faults.get || key !in kv || !P.Unexpired(kv[key], now) { return None, []; }
      steps := Paths.Hit(View(now, P.Versioned(q, ver, healthy), P.Quiet), q, ver, healthy);
      hit := Some(kv[key].items);
    }

    /** The database read after a miss, and the fill. */
    method Reload(f: ListFilter, ver: int, ghost q: P.Request, ghost healthy: bool, now: int, faults: Faults)
      returns (r: Result<seq<Incident>>, ghost steps: seq<P.Label>)
      requires Valid() && f.activeOnly && q.limit == f.limit && q.offset == f.offset
      modifies this`kv, this`origins
      ensures Valid()
      ensures r == if faults.database then Err(StatementFailed) else ListPage(next.table, f)
      ensures kv == if r.Err? || faults.fill then old(kv)
                    else old(kv)[PageKey(ver, f.limit, f.offset) := P.Page(r.value, P.Expiry(now, ttl))]
      ensures P.CanRun(old(View(now, P.Versioned(q, ver, healthy), P.Quiet)), steps)
      ensures P.Run(old(View(now, P.Versioned(q, ver, healthy), P.Quiet)), steps) == View(now, P.Resting, P.Quiet)
    {
      ghost var s0 := View(now, P.Versioned(q, ver, healthy), P.Quiet);
      r := next.List(f, faults.database);
      if r.Err? {
        steps := Paths.FailedMiss(s0, q, ver, healthy);
        return;
      }
      steps := Paths.Miss(s0, q, ver, healthy, faults.fill);
      if !faults.fill { Fill(q, healthy, r.value, ver, f, now); }
    }

    /** SET of the page just read. */
    method Fill(ghost q: P.Request, ghost healthy: bool, items: seq<Incident>, ver: int, f: ListFilter, now: int)
      requires Valid() && f.activeOnly && Ok(items) == ListPage(next.table, f)
      requires q.limit == f.limit && q.offset == f.offset
      modifies this`kv, this`origins
      ensures Valid()
      ensures kv == old(kv)[PageKey(ver, f.limit, f.offset) := P.Page(items, P.Expiry(now, ttl))]
      ensures var s0 := old(View(now, P.Versioned(q, ver, healthy), P.Quiet));
        View(now, P.Resting, P.Quiet) == Paths.With(Paths.Filled(s0, Paths.LoadedNow(s0, q, ver, healthy), false), P.Resting)
    {
      PageKeyIsNotVersionKey(ver, f.limit, f.offset);
      kv := kv[PageKey(ver, f.limit, f.offset) := P.Page(items, P.Expiry(now, ttl))];
      origins := origins[PageKey(ver, f.limit, f.offset) := P.Origin(|hist| - 1, now, now)];
    }

    /** List through the cache. */
    method List(f: ListFilter, now: int, faults: Faults) returns (r: Result<seq<Incident>>, ghost run: seq<P.Label>)
      requires Valid()
      modifies this`kv, this`origins
      ensures Valid()
      ensures !f.activeOnly ==> kv == old(kv) && r == if faults.database then Err(StatementFailed) else ListPage(next.table, f)
      ensures f.activeOnly ==>
        var ensured := VersionEnsured(old(kv), faults);
        var key := PageKey(VersionRead(old(kv), faults), f.limit, f.offset);
        && r == Answer(ensured, key, next.table, f, now, faults)
        && kv == Stored(ensured, key, r, ttl, now, faults)
      // an unexpired page under the current version is served, whatever the database would answer
      ensures f.activeOnly && !faults.version && !faults.get && VERSION_KEY in old(kv) ==>
        var key := PageKey(old(kv)[VERSION_KEY].n, f.limit, f.offset);
        key in old(kv) && old(kv)[key].Page? && (old(kv)[key].expires.None? || now < old(kv)[key].expires.value) ==>
          r == Ok(old(kv)[key].items) && kv == old(kv)
      ensures P.CanRun(old(View(now, P.Resting, P.Quiet)), run)
      ensures P.Run(old(View(now, P.Resting, P.Quiet)), run) == View(now, P.Resting, P.Quiet)
    {
      ghost var s0 := View(now, P.Resting, P.Quiet);
      run := [];
      if !f.activeOnly {
        r := next.List(f, faults.database);
        return;
      }
      ghost var q := P.Request(f.limit, f.offset, bumps.Keys);
      Paths.Begin(s0, f.limit, f.offset);
      run := [P.Start(0, f.limit, f.offset)];
      assert P.Run(s0, run) == View(now, P.Starting(q), P.Quiet);
      ghost var steps;
      var ver;
      ver, steps := GetVersion(q, now, faults);
      P.RunConcat(s0, run, steps);
      run := run + steps;
      r, steps := Fetch(f, ver, q, !faults.version, now, faults);
      P.RunConcat(s0, run, steps);
      run := run + steps;
    }

    /** bumpVersion, after a write has committed; what INCR answers is ignored. */
    method BumpVersion(ghost s0: P.State, now: int, f: Faults) returns (ghost run: seq<P.Label>)
      requires next.Valid() && |hist| >= 1 && s0 == View(now, P.Resting, P.Quiet) && Tracked()
      modifies this
      ensures Valid()
      ensures kv == Incremented(old(kv), f) && hist == old(hist) + [next.table]
      ensures !f.incr && VERSION_KEY !in old(kv) ==> kv == old(kv)[VERSION_KEY := P.Counter(1)]
      ensures !f.incr && VERSION_KEY in old(kv) && old(kv)[VERSION_KEY].n < MAX_INT64 ==>
        kv == old(kv)[VERSION_KEY := P.Counter(old(kv)[VERSION_KEY].n + 1)]
      ensures P.CanRun(s0, run) && P.Run(s0, run) == View(now, P.Resting, P.Quiet)
    {
      var fails := f.incr || (VERSION_KEY in kv && kv[VERSION_KEY].n >= MAX_INT64);
      run := Paths.Write(s0, next.table, fails);
      Record(s0, now);
      if !fails { Incr(s0, now); }
    }

    /** The write joins the history. */
    ghost method Record(s0: P.State, now: int)
      requires next.Valid() && |hist| >= 1 && s0 == View(now, P.Resting, P.Quiet) && Tracked()
      modifies this`hist, this`times
      ensures Valid() && hist == old(hist) + [next.table] && times == old(times) + [now]
      ensures View(now, P.Resting, P.Quiet) == Paths.Written(s0, next.table, true)
    {
      hist, times := hist + [next.table], times + [now];
    }

    /** INCR of the version key, below the largest counter Redis holds. */
    method Incr(ghost s0: P.State, ghost now: int)
      requires next.Valid() && Tracked() && P.Current(kv) < MAX_INT64
      requires hist == s0.hist + [next.table] && s0.(hist := hist, times := s0.times + [now]) == View(now, P.Resting, P.Quiet)
      modifies this`kv, this`bumps
      ensures Valid()
      ensures kv == old(kv)[VERSION_KEY := P.Counter(P.Current(old(kv)) + 1)]
      ensures View(now, P.Resting, P.Quiet) == Paths.Written(s0, next.table, false)
    {
      var n := if VERSION_KEY in kv then kv[VERSION_KEY].n + 1 else 1;
      kv := kv[VERSION_KEY := P.Counter(n)];
      bumps := bumps[|hist| - 1 := n];
    }

    method Create(c: CreateIncident, now: int, f: Faults) returns (r: Result<Incident>, ghost run: seq<P.Label>)
      requires Valid()
      modifies this, next
      ensures Valid()
      ensures r.Ok? <==> !f.database && c.radius > 0
      ensures r.Err? ==> next.table == old(next.table)
      ensures r.Ok? ==>
        && r.value == Incident(old(next.nextId), c.title, c.description, c.center, c.radius, true, now, now)
        && next.table.Keys == old(next.table.Keys) + {r.value.id}
        && ToDomain(r.value.id, next.table[r.value.id]) == r.value
        && next.table[r.value.id] == DbIncident(c.title, if c.description == "" then None else Some(c.description),
                                                c.center, c.radius, true, now, now)
        && (forall id :: id in old(next.table) ==> next.table[id] == old(next.table)[id])
      ensures kv == if r.Ok? then Incremented(old(kv), f) else old(kv)
      ensures P.CanRun(old(View(now, P.Resting, P.Quiet)), run)
      ensures P.Run(old(View(now, P.Resting, P.Quiet)), run) == View(now, P.Resting, P.Quiet)
    {
      ghost var s0 := View(now, P.Resting, P.Quiet);
      run := [];
      r := next.Create(c, now, f.database);
      if r.Ok? { run := BumpVersion(s0, now, f); }
    }

    method Update(id: nat, u: UpdateIncident, now: int, f: Faults) returns (r: Result<Incident>, ghost run: seq<P.Label>)
      requires Valid()
      modifies this, next
      ensures Valid()
      ensures r.Ok? <==> !f.database && id in old(next.table) && (u.radius.Some? ==> u.radius.value > 0)
      ensures r.Err? ==> next.table == old(next.table)
      ensures r.Ok? ==>
        && next.table ==
             (if Changes(u) then old(next.table)[id := Patched(old(next.table)[id], u, now)] else old(next.table))
        && r.value == ToDomain(id, next.table[id])
      ensures r.Ok? ==>
        && r.value.id == id && r.value.active == old(next.table)[id].active && r.value.createdAt == old(next.table)[id].createdAt
        && (u.title.Some? ==> r.value.title == u.title.value)
        && (u.title.None? ==> r.value.title == old(next.table)[id].title)
        && (u.description.Some? ==> r.value.description == u.description.value)
        && (u.description.None? ==> next.table[id].description == old(next.table)[id].description)
        && (u.center.Some? ==> r.value.center == u.center.value)
        && (u.center.None? ==> r.value.center == old(next.table)[id].center)
        && (u.radius.Some? ==> r.value.radius == u.radius.value)
        && (u.radius.None? ==> r.value.radius == old(next.table)[id].radius)
        && (u != UpdateIncident(None, None, None, None) ==> r.value.updatedAt == now)
        && (u == UpdateIncident(None, None, None, None) ==> next.table == old(next.table))
        && next.table[id] == DbIncident(r.value.title, if r.value.description == "" then None else Some(r.value.description),
                                   r.value.center, r.value.radius, r.value.active, r.value.createdAt, r.value.updatedAt)
        && next.table.Keys == old(next.table).Keys
        && (forall other :: other in old(next.table) && other != id ==> next.table[other] == old(next.table)[other])
      ensures kv == if r.Ok? then Incremented(old(kv), f) else old(kv)
      ensures P.CanRun(old(View(now, P.Resting, P.Quiet)), run)
      ensures P.Run(old(View(now, P.Resting, P.Quiet)), run) == View(now, P.Resting, P.Quiet)
    {
      ghost var s0 := View(now, P.Resting, P.Quiet);
      run := [];
      r := next.Update(id, u, now, f.database);
      if r.Ok? { run := BumpVersion(s0, now, f); }
    }

    method Deactivate(id: nat, now: int, f: Faults) returns (r: Result<()>, ghost run: seq<P.Label>)
      requires Valid()
      modifies this, next
      ensures Valid()
      ensures r.Ok? <==> !f.database && id in old(next.table) && old(next.table)[id].active
      ensures next.table == if r.Ok? then old(next.table)[id := old(next.table)[id].(active := false, updatedAt := now)]
                            else old(next.table)
      ensures kv == if r.Ok? then Incremented(old(kv), f) else old(kv)
      ensures P.CanRun(old(View(now, P.Resting, P.Quiet)), run)
      ensures P.Run(old(View(now, P.Resting, P.Quiet)), run) == View(now, P.Resting, P.Quiet)
    {
      ghost var s0 := View(now, P.Resting, P.Quiet);
      run := [];
      r := next.Deactivate(id, now, f.database);
      if r.Ok? { run := BumpVersion(s0, now, f); }
    }
  }
}
