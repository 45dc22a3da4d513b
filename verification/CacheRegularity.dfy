/** When list reads are regular: exactly as long as the version key is set. If SETNX of an
    absent key errors, getVersion discards the error and answers 1, a page is stored under
    version 1, and the first INCR then makes that same version current. */
module CacheRegularity {
  import opened Incidents
  import opened CacheKeys
  import opened CacheProtocol

  lemma Prepend(s: State, l: Label, rest: seq<Label>) returns (run: seq<Label>)
    requires Enabled(s, l) && CanRun(Apply(s, l), rest)
    ensures run == [l] + rest && CanRun(s, run) && Run(s, run) == Run(Apply(s, l), rest)
  {
    RunCons(s, l, rest);
    run := [l] + rest;
  }

  /** The dangerous reader goes on to store its page under version 1, with the key absent. */
  ghost predicate Planted(s: State, s': State, limit: nat, offset: nat) {
    && s'.hist == s.hist && s'.now == s.now && s'.bumps == s.bumps && s'.writers == s.writers
    && VERSION_KEY !in s'.kv && |s.hist| >= 1
    && var key := PageKey(1, limit, offset);
    && key in s'.kv && s'.kv[key] == Page(PageAt(s.hist[|s.hist| - 1], limit, offset), Expiry(s.now, s.ttl))
    && key in s'.origins && s'.origins[key].snap == |s.hist| - 1
  }

  ghost predicate OthersStay(s: State, s': State, r: nat) {
    s'.ttl == s.ttl && forall q :: q in s.readers && q != r ==> q in s'.readers && s'.readers[q] == s.readers[q]
  }

  lemma MissAndQuery(s: State, r: nat) returns (run: seq<Label>)
    requires HistOk(s) && r in s.readers && s.readers[r].Absent?
    requires s.readers[r].q.limit >= 0 && s.readers[r].q.offset >= 0
    ensures run != [] && run[0] == SetNXErr(r) && CanRun(s, run)
    ensures var q := s.readers[r].q;
      Run(s, run) == Move(s, r, Loaded(q, 1, true, PageAt(s.hist[Last(s)], q.limit, q.offset), Last(s), s.now))
  {
    var q := s.readers[r].q;
    var s1 := Apply(s, SetNXErr(r));
    var s2 := Apply(s1, MissPage(r));
    var s3 := Apply(s2, Query(r));
    assert s3.readers == s.readers[r := s3.readers[r]];
    run := Prepend(s2, Query(r), []);
    run := Prepend(s1, MissPage(r), run);
    run := Prepend(s, SetNXErr(r), run);
  }

  lemma PlantPage(s: State, r: nat) returns (run: seq<Label>)
    requires HistOk(s) && r in s.readers && s.readers[r].Absent? && VERSION_KEY !in s.kv
    requires s.readers[r].q.limit >= 0 && s.readers[r].q.offset >= 0
    ensures run != [] && run[0] == SetNXErr(r) && CanRun(s, run)
    ensures Planted(s, Run(s, run), s.readers[r].q.limit, s.readers[r].q.offset)
    ensures OthersStay(s, Run(s, run), r)
  {
    var q := s.readers[r].q;
    var load := MissAndQuery(s, r);
    var s1 := Run(s, load);
    FillPlants(s, s1, r);
    var fill := Prepend(s1, Fill(r), []);
    RunConcat(s, load, fill);
    run := load + fill;
    assert run[0] == load[0];
  }

  lemma FillPlants(s: State, s1: State, r: nat)
    requires HistOk(s) && r in s.readers && s.readers[r].Absent? && VERSION_KEY !in s.kv
    requires s.readers[r].q.limit >= 0 && s.readers[r].q.offset >= 0
    requires var q := s.readers[r].q;
      s1 == Move(s, r, Loaded(q, 1, true, PageAt(s.hist[Last(s)], q.limit, q.offset), Last(s), s.now))
    ensures Enabled(s1, Fill(r))
    ensures Planted(s, Apply(s1, Fill(r)), s.readers[r].q.limit, s.readers[r].q.offset)
    ensures OthersStay(s, Apply(s1, Fill(r)), r)
  {
    PageKeyIsNotVersionKey(1, s.readers[r].q.limit, s.readers[r].q.offset);
  }

  /** A page from before the last write is stored under version 1, now current. */
  ghost predicate Stale(s: State, t0: Table, limit: nat, offset: nat) {
    && VERSION_KEY in s.kv && s.kv[VERSION_KEY] == Counter(1)
    && |s.hist| >= 2 && s.hist[|s.hist| - 2] == t0 && |s.hist| - 1 in s.bumps
    && var key := PageKey(1, limit, offset);
    && key in s.kv && s.kv[key].Page? && s.kv[key].items == PageAt(t0, limit, offset)
    && Unexpired(s.kv[key], s.now)
    && key in s.origins && s.origins[key].snap == |s.hist| - 2
  }

  /** A write commits over the planted page, and bumps. */
  lemma WriteOverPlanted(s0: State, s: State, w: nat, t: Table, limit: nat, offset: nat) returns (run: seq<Label>)
    requires Planted(s0, s, limit, offset) && s.ttl == s0.ttl && w in s.writers && s.writers[w].Quiet?
    ensures CanRun(s, run) && Run(s, run).hist == s0.hist + [t] && Run(s, run).readers == s.readers
    ensures Stale(Run(s, run), s0.hist[|s0.hist| - 1], limit, offset)
  {
    var s1 := s.(hist := s.hist + [t], times := s.times + [s.now], writers := s.writers[w := Committed(|s.hist|)]);
    assert Apply(s, Commit(w, t)) == s1;
    BumpOverPlanted(s1, w, s0.hist[|s0.hist| - 1], limit, offset);
    run := Prepend(s1, Bump(w), []);
    run := Prepend(s, Commit(w, t), run);
  }

  lemma BumpOverPlanted(s: State, w: nat, t0: Table, limit: nat, offset: nat)
    requires VERSION_KEY !in s.kv && |s.hist| >= 2 && s.hist[|s.hist| - 2] == t0
    requires w in s.writers && s.writers[w] == Committed(|s.hist| - 1)
    requires var key := PageKey(1, limit, offset);
      && key in s.kv && s.kv[key].Page? && s.kv[key].items == PageAt(t0, limit, offset)
      && Unexpired(s.kv[key], s.now)
      && key in s.origins && s.origins[key].snap == |s.hist| - 2
    ensures Enabled(s, Bump(w)) && Stale(Apply(s, Bump(w)), t0, limit, offset)
    ensures Apply(s, Bump(w)).hist == s.hist && Apply(s, Bump(w)).readers == s.readers
  {
    PageKeyIsNotVersionKey(1, limit, offset);
    assert Apply(s, Bump(w)).kv == s.kv[VERSION_KEY := Counter(1)];
  }

  /** A healthy List that starts after that is served the planted page. */
  lemma ReadStale(s: State, r: nat, t0: Table, limit: nat, offset: nat) returns (run: seq<Label>)
    requires Stale(s, t0, limit, offset) && r in s.readers && s.readers[r].Resting?
    ensures CanRun(s, run) && r in Run(s, run).readers && Run(s, run).readers[r].Done?
    ensures var rd := Run(s, run).readers[r];
      && rd.healthy && |s.hist| - 1 in rd.q.seen && rd.origin.snap < |s.hist| - 1
      && rd.items == PageAt(t0, limit, offset)
    ensures Run(s, run).hist == s.hist
  {
    var s1 := Apply(s, Start(r, limit, offset));
    var s2 := Apply(s1, GetVersion(r));
    assert s2.readers[r] == Versioned(Request(limit, offset, s.bumps.Keys), 1, true);
    run := Prepend(s2, GetPage(r), []);
    run := Prepend(s1, GetVersion(r), run);
    run := Prepend(s, Start(r, limit, offset), run);
  }

  /** A write then commits and bumps, and a later, healthy List is served the planted page. */
  lemma ReadPlanted(s0: State, s: State, w: nat, r: nat, t: Table, limit: nat, offset: nat) returns (run: seq<Label>)
    requires Planted(s0, s, limit, offset) && s.ttl == s0.ttl
    requires w in s.writers && s.writers[w].Quiet? && r in s.readers && s.readers[r].Resting?
    ensures CanRun(s, run) && r in Run(s, run).readers && Run(s, run).readers[r].Done?
    ensures var rd := Run(s, run).readers[r];
      && rd.healthy && |s0.hist| in rd.q.seen && rd.origin.snap < |s0.hist|
      && rd.items == PageAt(s0.hist[|s0.hist| - 1], limit, offset)
    ensures Run(s, run).hist == s0.hist + [t]
  {
    var write := WriteOverPlanted(s0, s, w, t, limit, offset);
    var read := ReadStale(Run(s, write), r, s0.hist[|s0.hist| - 1], limit, offset);
    RunConcat(s, write, read);
    run := write + read;
  }

  /** The run starts with r's failed SETNX, commits t, and ends with `later` answering healthily
      with the page from before t, although t had been bumped when it started. */
  ghost predicate BreaksRegularity(s: State, run: seq<Label>, r: nat, later: nat, t: Table)
    requires |s.hist| >= 1 && r in s.readers && s.readers[r].Absent?
    requires s.readers[r].q.limit >= 0 && s.readers[r].q.offset >= 0
  {
    && run != [] && run[0] == SetNXErr(r) && CanRun(s, run)
    && var s' := Run(s, run);
    && s'.hist == s.hist + [t]
    && later in s'.readers && s'.readers[later].Done?
    && var rd := s'.readers[later];
    && rd.healthy && |s.hist| in rd.q.seen && rd.origin.snap < |s.hist|
    && rd.items == PageAt(s.hist[|s.hist| - 1], s.readers[r].q.limit, s.readers[r].q.offset)
  }

  /** Wherever the dangerous step is taken by a List with a valid filter, some continuation
      breaks the guarantee: after any write t that commits and bumps successfully, a healthy
      List that starts later still returns the page from before it. */
  lemma DangerousStepBreaksRegularity(s: State, r: nat, w: nat, later: nat, t: Table)
    requires Sound(s) && r in s.readers && s.readers[r].Absent? && VERSION_KEY !in s.kv
    requires s.readers[r].q.limit >= 0 && s.readers[r].q.offset >= 0
    requires w in s.writers && s.writers[w].Quiet?
    requires later in s.readers && s.readers[later].Resting?
    ensures exists run :: BreaksRegularity(s, run, r, later, t)
  {
    var q := s.readers[r].q;
    var plant := PlantPage(s, r);
    var s1 := Run(s, plant);
    var read := ReadPlanted(s, s1, w, later, t, q.limit, q.offset);
    RunConcat(s, plant, read);
    assert (plant + read)[0] == plant[0];
    assert BreaksRegularity(s, plant + read, r, later, t);
  }

  /** Such a state is reached at once: one List and an empty cache. */
  lemma DangerIsReachable(t: Table, limit: nat, offset: nat)
    ensures exists s ::
      && ReachedSafely(s) && VERSION_KEY !in s.kv
      && 0 in s.readers && s.readers[0] == Absent(Request(limit, offset, {}))
      && 1 in s.readers && s.readers[1].Resting?
      && 0 in s.writers && s.writers[0].Quiet?
  {
    var s0 := Init(t, 60, 0, {0}, {0, 1});
    var start := Start(0, limit, offset);
    var s1 := Apply(s0, start);
    var s2 := Apply(s1, GetVersion(0));
    assert s0.bumps.Keys == {};
    var run := Prepend(s1, GetVersion(0), []);
    assert run == [GetVersion(0)];
    assert Safe(s2, []) && Safe(s1, run);
    run := Prepend(s0, start, run);
    assert Safe(s0, run);
    assert ReachedSafely(s2);
  }

  // ----- exactly when reads are regular -----

  /** A healthy answer contains every write bumped before its List started. */
  ghost predicate Regular(rd: Reader) {
    rd.Done? && rd.healthy ==> forall x :: x in rd.q.seen ==> x <= rd.origin.snap
  }

  ghost predicate AllRegular(s: State) {
    forall k :: k in s.readers ==> Regular(s.readers[k])
  }

  /** Once set, the version key is never absent again, so no later step is dangerous. */
  lemma {:induction false} SetKeyIsSafe(s: State, run: seq<Label>)
    requires VERSION_KEY in s.kv && CanRun(s, run)
    ensures Safe(s, run)
    decreases |run|
  {
    if run != [] {
      var l := run[0];
      if l.Fill? || l.Evict? { PageKeyStays(s, l); }
      SetKeyIsSafe(Apply(s, l), run[1..]);
    }
  }

  lemma SetKeyIsRegular(s: State, run: seq<Label>)
    requires Sound(s) && Fresh(s) && VERSION_KEY in s.kv && CanRun(s, run)
    ensures AllRegular(Run(s, run))
  {
    SetKeyIsSafe(s, run);
    InvRun(s, run);
    FreshIsRegular(Run(s, run));
  }

  lemma FreshIsRegular(s: State)
    requires ReadersFresh(s)
    ensures AllRegular(s)
  {
    forall k | k in s.readers ensures Regular(s.readers[k]) { assert ReaderFresh(s, s.readers[k]); }
  }

  /** Everyone goes home: two readers and a writer are idle, nothing else has changed. */
  lemma Disperse(s: State, r: nat, later: nat, w: nat) returns (run: seq<Label>)
    requires r in s.readers && later in s.readers && r != later && w in s.writers
    ensures CanRun(s, run)
    ensures Run(s, run) == s.(readers := s.readers[r := Resting][later := Resting], writers := s.writers[w := Quiet])
  {
    var s1 := Apply(s, Leave(r));
    var s2 := Apply(s1, Leave(later));
    if s.writers[w].Committed? {
      run := Prepend(s2, LoseBump(w), []);
    } else {
      run := [];
      assert s.writers[w := Quiet] == s.writers;
    }
    run := Prepend(s1, Leave(later), run);
    run := Prepend(s, Leave(r), run);
  }

  /** Reader r begins a List and finds no version key. */
  lemma FindNoKey(s: State, r: nat) returns (run: seq<Label>)
    requires r in s.readers && s.readers[r].Resting? && VERSION_KEY !in s.kv
    ensures CanRun(s, run) && Run(s, run) == Move(s, r, Absent(Request(0, 0, s.bumps.Keys)))
  {
    var s1 := Apply(s, Start(r, 0, 0));
    var q := Request(0, 0, s.bumps.Keys);
    assert s.readers[r := Starting(q)][r := Absent(q)] == s.readers[r := Absent(q)];
    run := Prepend(s1, GetVersion(r), []);
    run := Prepend(s, Start(r, 0, 0), run);
  }

  /** While the key is absent, a stale healthy answer can always be reached. */
  lemma AbsentKeyIsIrregular(s: State, r: nat, later: nat, w: nat) returns (run: seq<Label>)
    requires Sound(s) && VERSION_KEY !in s.kv
    requires r in s.readers && later in s.readers && r != later && w in s.writers
    ensures CanRun(s, run) && !AllRegular(Run(s, run))
  {
    var home := Disperse(s, r, later, w);
    var s1 := Run(s, home);
    var look := FindNoKey(s1, r);
    RunConcat(s, home, look);
    InvRun(s, home + look);
    var s2 := Run(s, home + look);
    DangerousStepBreaksRegularity(s2, r, w, later, s2.hist[0]);
    var bad :| BreaksRegularity(s2, bad, r, later, s2.hist[0]);
    RunConcat(s, home + look, bad);
    run := home + look + bad;
    assert !Regular(Run(s, run).readers[later]);
  }

  /** Every healthy answer in every continuation of a state is regular if and only if the
      version key is set, given two readers and a writer to tell the difference. */
  lemma RegularReadsIff(s: State, r: nat, later: nat, w: nat)
    requires Sound(s) && Fresh(s)
    requires r in s.readers && later in s.readers && r != later && w in s.writers
    ensures (forall run :: CanRun(s, run) ==> AllRegular(Run(s, run))) <==> VERSION_KEY in s.kv
  {
    if VERSION_KEY in s.kv {
      forall run | CanRun(s, run) ensures AllRegular(Run(s, run)) {
        SetKeyIsRegular(s, run);
      }
    } else {
      var run := AbsentKeyIsIrregular(s, r, later, w);
    }
  }
}
