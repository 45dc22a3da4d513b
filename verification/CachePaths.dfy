/** The protocol's runs for a single List or write, uninterrupted. */
module CachePaths {
  import opened Decimal
  import opened Incidents
  import opened CacheKeys
  import opened CacheProtocol

  ghost predicate Alone(s: State, rd: Reader) {
    s.readers == map[0 := rd] && s.writers == map[0 := Quiet] && |s.hist| >= 1
  }

  function With(s: State, rd: Reader): State {
    s.(readers := map[0 := rd])
  }

  lemma Single(s: State, l: Label, s': State)
    requires Enabled(s, l) && Apply(s, l) == s'
    ensures CanRun(s, [l]) && Run(s, [l]) == s'
  {
    RunSnoc(s, [], l);
    assert [] + [l] == [l];
  }

  lemma VersionError(s: State, q: Request)
    requires Alone(s, Starting(q))
    ensures CanRun(s, [GetVersionErr(0)]) && Run(s, [GetVersionErr(0)]) == With(s, Versioned(q, 0, false))
  {
    Single(s, GetVersionErr(0), With(s, Versioned(q, 0, false)));
  }

  lemma VersionFound(s: State, q: Request)
    requires Alone(s, Starting(q)) && VERSION_KEY in s.kv
    ensures CanRun(s, [GetVersion(0)]) && Run(s, [GetVersion(0)]) == With(s, Versioned(q, Current(s.kv), true))
  {
    Single(s, GetVersion(0), With(s, Versioned(q, Current(s.kv), true)));
  }

  lemma VersionAbsent(s: State, q: Request, setNxFails: bool) returns (run: seq<Label>)
    requires Alone(s, Starting(q)) && VERSION_KEY !in s.kv
    ensures CanRun(s, run)
    ensures Run(s, run) == With(s, Versioned(q, 1, true)).(kv := if setNxFails then s.kv else s.kv[VERSION_KEY := Counter(1)])
  {
    var s1 := With(s, Absent(q));
    Single(s, GetVersion(0), s1);
    var l := if setNxFails then SetNXErr(0) else SetNX(0);
    var s2 := With(s, Versioned(q, 1, true)).(kv := if setNxFails then s.kv else s.kv[VERSION_KEY := Counter(1)]);
    Single(s1, l, s2);
    RunConcat(s, [GetVersion(0)], [l]);
    run := [GetVersion(0)] + [l];
  }

  lemma Hit(s: State, q: Request, v: int, healthy: bool) returns (run: seq<Label>)
    requires Alone(s, Versioned(q, v, healthy))
    requires var key := PageKey(v, q.limit, q.offset); key in s.kv && key in s.origins && Unexpired(s.kv[key], s.now)
    ensures CanRun(s, run) && Run(s, run) == With(s, Resting)
  {
    var key := PageKey(v, q.limit, q.offset);
    var s1 := With(s, Done(q, healthy, s.kv[key].items, s.origins[key], s.now));
    Single(s, GetPage(0), s1);
    Single(s1, Leave(0), With(s, Resting));
    RunConcat(s, [GetPage(0)], [Leave(0)]);
    run := [GetPage(0)] + [Leave(0)];
  }

  lemma FailedMiss(s: State, q: Request, v: int, healthy: bool) returns (run: seq<Label>)
    requires Alone(s, Versioned(q, v, healthy))
    ensures CanRun(s, run) && Run(s, run) == With(s, Resting)
  {
    var s1 := With(s, Missed(q, v, healthy));
    Single(s, MissPage(0), s1);
    Single(s1, Leave(0), With(s, Resting));
    RunConcat(s, [MissPage(0)], [Leave(0)]);
    run := [MissPage(0)] + [Leave(0)];
  }

  lemma Double(s: State, a: Label, s1: State, b: Label, s2: State) returns (run: seq<Label>)
    requires Enabled(s, a) && Apply(s, a) == s1 && Enabled(s1, b) && Apply(s1, b) == s2
    ensures CanRun(s, run) && Run(s, run) == s2
  {
    Single(s, a, s1);
    Single(s1, b, s2);
    RunConcat(s, [a], [b]);
    run := [a] + [b];
  }

  /** The state after storing what `rd` loaded, unless SET fails. */
  ghost function Filled(s: State, rd: Reader, setFails: bool): State
    requires rd.Loaded?
  {
    if setFails then s
    else s.(kv := s.kv[KeyOf(rd) := Page(rd.items, Expiry(s.now, s.ttl))],
            origins := s.origins[KeyOf(rd) := Origin(rd.snap, rd.readAt, s.now)])
  }

  /** What a reader that missed loads from the database. */
  ghost function LoadedNow(s: State, q: Request, v: int, healthy: bool): Reader
    requires q.limit >= 0 && q.offset >= 0 && |s.hist| >= 1
  {
    Loaded(q, v, healthy, PageAt(s.hist[Last(s)], q.limit, q.offset), Last(s), s.now)
  }

  lemma MoveAlone(s: State, rd: Reader, rd': Reader)
    requires s.readers == map[0 := rd]
    ensures Move(s, 0, rd') == With(s, rd')
  {
    assert s.readers[0 := rd'] == map[0 := rd'];
  }

  lemma MissStep(s: State, q: Request, v: int, healthy: bool)
    requires s.readers == map[0 := Versioned(q, v, healthy)]
    ensures Enabled(s, MissPage(0)) && Apply(s, MissPage(0)) == With(s, Missed(q, v, healthy))
  {
    MoveAlone(s, Versioned(q, v, healthy), Missed(q, v, healthy));
  }

  lemma QueryStep(s: State, q: Request, v: int, healthy: bool)
    requires s.readers == map[0 := Missed(q, v, healthy)] && q.limit >= 0 && q.offset >= 0 && |s.hist| >= 1
    ensures Enabled(s, Query(0)) && Apply(s, Query(0)) == With(s, LoadedNow(s, q, v, healthy))
  {
    MoveAlone(s, Missed(q, v, healthy), LoadedNow(s, q, v, healthy));
  }

  lemma FillStep(s: State, rd: Reader, setFails: bool)
    requires s.readers == map[0 := rd] && rd.Loaded?
    ensures var l := if setFails then FillErr(0) else Fill(0);
      && Enabled(s, l)
      && Apply(s, l) == With(Filled(s, rd, setFails), Done(rd.q, rd.healthy, rd.items, Origin(rd.snap, rd.readAt, s.now), s.now))
  {
  }

  lemma LeaveStep(s: State, rd: Reader)
    requires s.readers == map[0 := rd]
    ensures Enabled(s, Leave(0)) && Apply(s, Leave(0)) == With(s, Resting)
  {
  }

  lemma Load(s: State, q: Request, v: int, healthy: bool) returns (run: seq<Label>)
    requires s.readers == map[0 := Versioned(q, v, healthy)] && q.limit >= 0 && q.offset >= 0 && |s.hist| >= 1
    ensures CanRun(s, run) && Run(s, run) == With(s, LoadedNow(s, q, v, healthy))
  {
    MissStep(s, q, v, healthy);
    var s1 := With(s, Missed(q, v, healthy));
    QueryStep(s1, q, v, healthy);
    run := Double(s, MissPage(0), s1, Query(0), With(s, LoadedNow(s, q, v, healthy)));
  }

  lemma Store(s: State, rd: Reader, setFails: bool) returns (run: seq<Label>)
    requires s.readers == map[0 := rd] && rd.Loaded?
    ensures CanRun(s, run) && Run(s, run) == With(Filled(s, rd, setFails), Resting)
  {
    FillStep(s, rd, setFails);
    var done := Done(rd.q, rd.healthy, rd.items, Origin(rd.snap, rd.readAt, s.now), s.now);
    var s1 := With(Filled(s, rd, setFails), done);
    LeaveStep(s1, done);
    run := Double(s, if setFails then FillErr(0) else Fill(0), s1, Leave(0), With(s1, Resting));
  }

  lemma FilledElsewhere(s: State, rd: Reader, rd': Reader, setFails: bool)
    requires rd.Loaded?
    ensures With(Filled(With(s, rd'), rd, setFails), Resting) == With(Filled(s, rd, setFails), Resting)
  {
  }

  lemma Miss(s: State, q: Request, v: int, healthy: bool, setFails: bool) returns (run: seq<Label>)
    requires s.readers == map[0 := Versioned(q, v, healthy)] && q.limit >= 0 && q.offset >= 0 && |s.hist| >= 1
    ensures CanRun(s, run) && Run(s, run) == With(Filled(s, LoadedNow(s, q, v, healthy), setFails), Resting)
  {
    var rd := LoadedNow(s, q, v, healthy);
    var load := Load(s, q, v, healthy);
    var rest := Store(With(s, rd), rd, setFails);
    RunConcat(s, load, rest);
    FilledElsewhere(s, rd, rd, setFails);
    run := load + rest;
  }

  lemma Begin(s: State, limit: int, offset: int)
    requires Alone(s, Resting)
    ensures CanRun(s, [Start(0, limit, offset)])
    ensures Run(s, [Start(0, limit, offset)]) == With(s, Starting(Request(limit, offset, s.bumps.Keys)))
  {
    Single(s, Start(0, limit, offset), With(s, Starting(Request(limit, offset, s.bumps.Keys))));
  }

  /** The state after a committed write, and its bump unless INCR fails. */
  ghost function Written(s: State, t: Table, incrFails: bool): State
    requires 0 <= Current(s.kv)
  {
    var s1 := s.(hist := s.hist + [t], times := s.times + [s.now]);
    var n := Current(s.kv) + 1;
    if incrFails then s1 else s1.(kv := s.kv[VERSION_KEY := Counter(n)], bumps := s.bumps[|s.hist| := n])
  }

  lemma Write(s: State, t: Table, incrFails: bool) returns (run: seq<Label>)
    requires Alone(s, Resting) && 0 <= Current(s.kv) && (incrFails || Current(s.kv) < MAX_INT64)
    ensures CanRun(s, run) && Run(s, run) == Written(s, t, incrFails)
  {
    var s1 := s.(hist := s.hist + [t], times := s.times + [s.now]);
    var n := Current(s.kv) + 1;
    var s2 := s1.(writers := map[0 := Committed(|s.hist|)]);
    Single(s, Commit(0, t), s2);
    var l := if incrFails then LoseBump(0) else Bump(0);
    var s3 := if incrFails then s1
      else s1.(kv := s.kv[VERSION_KEY := Counter(n)], bumps := s.bumps[|s.hist| := n]);
    Single(s2, l, s3);
    RunConcat(s, [Commit(0, t)], [l]);
    run := [Commit(0, t)] + [l];
  }
}
