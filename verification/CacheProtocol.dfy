/** The versioned list cache as interleaved atomic steps: any number of readers running List,
    any number of writers running Create, Update or Deactivate, evictions and expiries. */
module CacheProtocol {
  import opened Common
  import opened Decimal
  import opened Incidents
  import opened CacheKeys

  /** A Redis value: the version counter, or a marshalled page with its expiry. */
  datatype Value = Counter(n: int) | Page(items: seq<Incident>, expires: Option<int>)

  /** Where a cached page came from: the database state it was read from (the last write it
      contains), and when it was read and stored. */
  datatype Origin = Origin(snap: nat, readAt: int, setAt: int)

  /** A List call: its filter, and the writes whose bump had succeeded when it started. */
  datatype Request = Request(limit: int, offset: int, seen: set<nat>)

  datatype Reader =
    | Resting
    | Starting(q: Request)
    | Absent(q: Request)                                  // GET version answered Nil
    | Versioned(q: Request, v: int, healthy: bool)        // getVersion returned v
    | Missed(q: Request, v: int, healthy: bool)           // no usable entry
    | Loaded(q: Request, v: int, healthy: bool, items: seq<Incident>, snap: nat, readAt: int)
    | Done(q: Request, healthy: bool, items: seq<Incident>, origin: Origin, at: int)

  datatype Writer = Quiet | Committed(write: nat)

  /** Write number i > 0 took the database from hist[i-1] to hist[i] at times[i]; bumps maps
      a write to the version its INCR produced. */
  datatype State = State(now: int, ttl: int, hist: seq<Table>, times: seq<int>, kv: map<string, Value>,
                         origins: map<string, Origin>, bumps: map<nat, nat>,
                         writers: map<nat, Writer>, readers: map<nat, Reader>)

  datatype Label =
    | Tick(to: int)
    | Evict(key: string)
    | Commit(w: nat, t: Table)
    | Bump(w: nat)
    | LoseBump(w: nat)
    | Start(r: nat, limit: int, offset: int)
    | GetVersion(r: nat)
    | GetVersionErr(r: nat)
    | SetNX(r: nat)
    | SetNXErr(r: nat)
    | GetPage(r: nat)
    | MissPage(r: nat)
    | Query(r: nat)
    | Fill(r: nat)
    | FillErr(r: nat)
    | Leave(r: nat)

  ghost function PageAt(t: Table, limit: nat, offset: nat): seq<Incident> {
    Slice(Listing(t, true), limit, offset)
  }

  function Init(t: Table, ttl: int, now: int, writers: set<nat>, readers: set<nat>): State {
    State(now, ttl, [t], [now], map[], map[], map[],
          map w | w in writers :: Quiet, map r | r in readers :: Resting)
  }

  /** The version counter, 0 while the key is absent. */
  function Current(kv: map<string, Value>): int {
    if VERSION_KEY in kv && kv[VERSION_KEY].Counter? then kv[VERSION_KEY].n else 0
  }

  function KeyOf(rd: Reader): string
    requires rd.Versioned? || rd.Missed? || rd.Loaded?
  {
    PageKey(rd.v, rd.q.limit, rd.q.offset)
  }

  predicate Unexpired(v: Value, now: int) {
    v.Page? && (v.expires.None? || now < v.expires.value)
  }

  function Expiry(now: int, ttl: int): Option<int> {
    if ttl > 0 then Some(now + ttl) else None
  }

  function Last(s: State): nat {
    if |s.hist| == 0 then 0 else |s.hist| - 1
  }

  predicate Enabled(s: State, l: Label) {
    match l
    case Tick(to) => s.now <= to
    case Evict(key) => key != VERSION_KEY
    case Commit(w, _) => w in s.writers && s.writers[w].Quiet?
    case Bump(w) => w in s.writers && s.writers[w].Committed? && Current(s.kv) < MAX_INT64
    case LoseBump(w) => w in s.writers && s.writers[w].Committed?
    case Start(r, _, _) => r in s.readers && s.readers[r].Resting?
    case GetVersion(r) => r in s.readers && s.readers[r].Starting?
    case GetVersionErr(r) => r in s.readers && s.readers[r].Starting?
    case SetNX(r) => r in s.readers && s.readers[r].Absent?
    case SetNXErr(r) => r in s.readers && s.readers[r].Absent?
    case GetPage(r) =>
      r in s.readers && s.readers[r].Versioned? && KeyOf(s.readers[r]) in s.kv && KeyOf(s.readers[r]) in s.origins &&
      Unexpired(s.kv[KeyOf(s.readers[r])], s.now)
    case MissPage(r) => r in s.readers && s.readers[r].Versioned?
    case Query(r) =>
      r in s.readers && s.readers[r].Missed? && s.readers[r].q.limit >= 0 && s.readers[r].q.offset >= 0 && |s.hist| > 0
    case Fill(r) => r in s.readers && s.readers[r].Loaded?
    case FillErr(r) => r in s.readers && s.readers[r].Loaded?
    case Leave(r) => r in s.readers
  }

  function Move(s: State, r: nat, rd: Reader): State {
    s.(readers := s.readers[r := rd])
  }

  ghost function Apply(s: State, l: Label): State
    requires Enabled(s, l)
  {
    match l
    case Tick(to) => s.(now := to)
    case Evict(key) => s.(kv := s.kv - {key})
    case Commit(w, t) =>
      s.(hist := s.hist + [t], times := s.times + [s.now], writers := s.writers[w := Committed(|s.hist|)])
    case Bump(w) =>
      var n := Current(s.kv) + 1;
      s.(kv := s.kv[VERSION_KEY := Counter(n)],
         bumps := if n >= 0 then s.bumps[s.writers[w].write := n] else s.bumps,
         writers := s.writers[w := Quiet])
    case LoseBump(w) => s.(writers := s.writers[w := Quiet])
    case Start(r, limit, offset) => Move(s, r, Starting(Request(limit, offset, s.bumps.Keys)))
    case GetVersion(r) =>
      var q := s.readers[r].q;
      Move(s, r, if VERSION_KEY in s.kv then Versioned(q, Current(s.kv), true) else Absent(q))
    case GetVersionErr(r) => Move(s, r, Versioned(s.readers[r].q, 0, false))
    case SetNX(r) =>
      Move(s.(kv := if VERSION_KEY in s.kv then s.kv else s.kv[VERSION_KEY := Counter(1)]), r,
           Versioned(s.readers[r].q, 1, true))
    case SetNXErr(r) => Move(s, r, Versioned(s.readers[r].q, 1, true))
    case GetPage(r) =>
      var rd := s.readers[r];
      Move(s, r, Done(rd.q, rd.healthy, s.kv[KeyOf(rd)].items, s.origins[KeyOf(rd)], s.now))
    case MissPage(r) => Move(s, r, Missed(s.readers[r].q, s.readers[r].v, s.readers[r].healthy))
    case Query(r) =>
      var rd := s.readers[r];
      Move(s, r, Loaded(rd.q, rd.v, rd.healthy, PageAt(s.hist[Last(s)], rd.q.limit, rd.q.offset), Last(s), s.now))
    case Fill(r) =>
      var rd := s.readers[r];
      var origin := Origin(rd.snap, rd.readAt, s.now);
      Move(s.(kv := s.kv[KeyOf(rd) := Page(rd.items, Expiry(s.now, s.ttl))], origins := s.origins[KeyOf(rd) := origin]),
           r, Done(rd.q, rd.healthy, rd.items, origin, s.now))
    case FillErr(r) =>
      var rd := s.readers[r];
      Move(s, r, Done(rd.q, rd.healthy, rd.items, Origin(rd.snap, rd.readAt, s.now), s.now))
    case Leave(r) => Move(s, r, Resting)
  }

  ghost predicate CanRun(s: State, run: seq<Label>)
    decreases |run|
  {
    run == [] || (Enabled(s, run[0]) && CanRun(Apply(s, run[0]), run[1..]))
  }

  ghost function Run(s: State, run: seq<Label>): State
    requires CanRun(s, run)
    decreases |run|
  {
    if run == [] then s else Run(Apply(s, run[0]), run[1..])
  }

  lemma {:induction false} RunSnoc(s: State, run: seq<Label>, l: Label)
    requires CanRun(s, run) && Enabled(Run(s, run), l)
    ensures CanRun(s, run + [l]) && Run(s, run + [l]) == Apply(Run(s, run), l)
    decreases |run|
  {
    if run == [] {
      assert [] + [l] == [l] && [l][1..] == [];
    } else {
      RunSnoc(Apply(s, run[0]), run[1..], l);
      assert (run + [l])[1..] == run[1..] + [l];
    }
  }

  lemma RunCons(s: State, l: Label, rest: seq<Label>)
    requires Enabled(s, l) && CanRun(Apply(s, l), rest)
    ensures CanRun(s, [l] + rest) && Run(s, [l] + rest) == Run(Apply(s, l), rest)
  {
    assert ([l] + rest)[1..] == rest;
  }

  lemma {:induction false} RunConcat(s: State, run: seq<Label>, rest: seq<Label>)
    requires CanRun(s, run) && CanRun(Run(s, run), rest)
    ensures CanRun(s, run + rest) && Run(s, run + rest) == Run(Run(s, run), rest)
    decreases |run|
  {
    if run == [] {
      assert [] + rest == rest;
    } else {
      var l, tail := run[0], run[1..];
      RunConcat(Apply(s, l), tail, rest);
      RunCons(s, l, tail + rest);
      assert run + rest == [l] + (tail + rest);
    }
  }

  /** The one failure the protocol does not survive: SETNX of the version key errors while
      the key is absent, and getVersion reports version 1 all the same. */
  predicate Dangerous(s: State, l: Label) {
    l.SetNXErr? && VERSION_KEY !in s.kv
  }

  ghost predicate Safe(s: State, run: seq<Label>)
    requires CanRun(s, run)
    decreases |run|
  {
    run == [] || (!Dangerous(s, run[0]) && Safe(Apply(s, run[0]), run[1..]))
  }

  // ----- the invariant -----

  ghost predicate HistOk(s: State) {
    && |s.hist| >= 1 && |s.times| == |s.hist|
    && (forall i, j :: 0 <= i <= j < |s.times| ==> s.times[i] <= s.times[j])
    && (forall i :: 0 <= i < |s.times| ==> s.times[i] <= s.now)
  }

  /** hist[snap] was the database state at some point of time `at`. */
  ghost predicate WasCurrent(s: State, snap: nat, at: int) {
    && snap < |s.hist| && snap < |s.times|
    && s.times[snap] <= at <= s.now
    && (snap + 1 < |s.times| ==> at <= s.times[snap + 1])
  }

  ghost predicate BumpsOk(s: State) {
    && (VERSION_KEY in s.kv ==> s.kv[VERSION_KEY].Counter? && Current(s.kv) >= 1)
    && (forall w :: w in s.bumps ==> 1 <= s.bumps[w] <= Current(s.kv) && w < |s.hist|)
  }

  ghost predicate WritersOk(s: State) {
    && (forall w :: w in s.writers && s.writers[w].Committed? ==>
          s.writers[w].write < |s.hist| && s.writers[w].write !in s.bumps)
    && (forall v, w :: v in s.writers && w in s.writers && v != w && s.writers[v].Committed? && s.writers[w].Committed? ==>
          s.writers[v].write != s.writers[w].write)
  }

  /** State number snap contains every write bumped to version v or lower. */
  ghost predicate Covers(s: State, v: int, snap: nat) {
    forall w :: w in s.bumps && s.bumps[w] <= v ==> w <= snap
  }

  /** An entry under (v, limit, offset) is a page the database had when it was read. */
  ghost predicate PageSound(s: State, v: int, limit: int, offset: int) {
    var key := PageKey(v, limit, offset);
    key in s.kv ==>
      && key in s.origins && s.kv[key].Page?
      && limit >= 0 && offset >= 0
      && var o := s.origins[key];
      && WasCurrent(s, o.snap, o.readAt) && o.readAt <= o.setAt <= s.now
      && s.kv[key].items == PageAt(s.hist[o.snap], limit, offset)
      && s.kv[key].expires == Expiry(o.setAt, s.ttl)
  }

  /** And it contains every write bumped to version v or lower. */
  ghost predicate PageFresh(s: State, v: int, limit: int, offset: int) {
    var key := PageKey(v, limit, offset);
    key in s.kv ==> key in s.origins && 0 <= v <= Current(s.kv) && Covers(s, v, s.origins[key].snap)
  }

  ghost predicate PagesSound(s: State) {
    forall v, limit, offset :: PageSound(s, v, limit, offset)
  }

  ghost predicate PagesFresh(s: State) {
    forall v, limit, offset :: PageFresh(s, v, limit, offset)
  }

  ghost predicate ReaderSound(s: State, rd: Reader) {
    match rd
    case Loaded(q, _, _, items, snap, readAt) =>
      && q.limit >= 0 && q.offset >= 0
      && WasCurrent(s, snap, readAt)
      && items == PageAt(s.hist[snap], q.limit, q.offset)
    case Done(q, _, items, o, at) =>
      && q.limit >= 0 && q.offset >= 0
      && WasCurrent(s, o.snap, o.readAt) && o.readAt <= o.setAt <= at <= s.now
      && items == PageAt(s.hist[o.snap], q.limit, q.offset)
      && (s.ttl > 0 ==> at < o.setAt + s.ttl)
    case _ => true
  }

  ghost predicate VersionHeld(s: State, q: Request, v: int, healthy: bool) {
    && 0 <= v <= Current(s.kv)
    && (healthy ==> v >= 1 && forall w :: w in q.seen ==> w in s.bumps && s.bumps[w] <= v)
  }

  ghost predicate ReaderFresh(s: State, rd: Reader) {
    match rd
    case Resting => true
    case Starting(q) => q.seen <= s.bumps.Keys
    case Absent(q) => q.seen == {}
    case Versioned(q, v, healthy) => VersionHeld(s, q, v, healthy)
    case Missed(q, v, healthy) => VersionHeld(s, q, v, healthy)
    case Loaded(q, v, healthy, _, snap, _) => VersionHeld(s, q, v, healthy) && Covers(s, v, snap)
    case Done(q, healthy, _, o, _) => healthy ==> forall w :: w in q.seen ==> w <= o.snap
  }

  ghost predicate ReadersSound(s: State) {
    forall r :: r in s.readers ==> ReaderSound(s, s.readers[r])
  }

  ghost predicate ReadersFresh(s: State) {
    forall r :: r in s.readers ==> ReaderFresh(s, s.readers[r])
  }

  /** Kept by every step. */
  ghost predicate Sound(s: State) {
    HistOk(s) && BumpsOk(s) && WritersOk(s) && PagesSound(s) && ReadersSound(s)
  }

  /** Kept by every step but the dangerous one. */
  ghost predicate Fresh(s: State) {
    PagesFresh(s) && ReadersFresh(s)
  }

  lemma InitInv(t: Table, ttl: int, now: int, writers: set<nat>, readers: set<nat>)
    ensures Sound(Init(t, ttl, now, writers, readers)) && Fresh(Init(t, ttl, now, writers, readers))
  {
  }

  /** What every step respects: history and time only extend, the version only rises, and a
      new bump gets a version above every one in use. */
  ghost predicate Extends(s: State, s': State) {
    && s.hist <= s'.hist && s.times <= s'.times && s.now <= s'.now && s'.ttl == s.ttl
    && (forall i :: |s.times| <= i < |s'.times| ==> s'.times[i] >= s.now)
    && Current(s.kv) <= Current(s'.kv)
    && (forall w :: w in s.bumps ==> w in s'.bumps && s'.bumps[w] == s.bumps[w])
    && (forall w :: w in s'.bumps && w !in s.bumps ==> s'.bumps[w] > Current(s.kv))
  }

  lemma PageKeyStays(s: State, l: Label)
    requires Enabled(s, l) && (l.Fill? || l.Evict?)
    ensures (VERSION_KEY in Apply(s, l).kv <==> VERSION_KEY in s.kv)
    ensures VERSION_KEY in s.kv ==> Apply(s, l).kv[VERSION_KEY] == s.kv[VERSION_KEY]
    ensures Current(Apply(s, l).kv) == Current(s.kv)
  {
    if l.Fill? { PageKeyIsNotVersionKey(s.readers[l.r].v, s.readers[l.r].q.limit, s.readers[l.r].q.offset); }
  }

  lemma StepExtends(s: State, l: Label)
    requires BumpsOk(s) && WritersOk(s) && Enabled(s, l)
    ensures Extends(s, Apply(s, l))
  {
    if l.Fill? || l.Evict? { PageKeyStays(s, l); }
  }

  lemma HistStep(s: State, l: Label)
    requires HistOk(s) && BumpsOk(s) && WritersOk(s) && Enabled(s, l)
    ensures HistOk(Apply(s, l))
  {
  }

  lemma BumpsStep(s: State, l: Label)
    requires HistOk(s) && BumpsOk(s) && WritersOk(s) && Enabled(s, l)
    ensures BumpsOk(Apply(s, l)) && WritersOk(Apply(s, l))
  {
    if l.Fill? || l.Evict? { PageKeyStays(s, l); }
  }

  lemma ReaderExtends(s: State, s': State, rd: Reader)
    requires HistOk(s) && Extends(s, s')
    ensures ReaderSound(s, rd) ==> ReaderSound(s', rd)
    ensures ReaderFresh(s, rd) ==> ReaderFresh(s', rd)
  {
  }

  ghost predicate SameEntry(s: State, s': State, key: string) {
    key in s'.kv ==>
      && key in s.kv && s'.kv[key] == s.kv[key]
      && (key in s.origins ==> key in s'.origins && s'.origins[key] == s.origins[key])
  }

  lemma PageExtends(s: State, s': State, v: int, limit: int, offset: int)
    requires HistOk(s) && Extends(s, s') && SameEntry(s, s', PageKey(v, limit, offset))
    ensures PageSound(s, v, limit, offset) ==> PageSound(s', v, limit, offset)
    ensures PageFresh(s, v, limit, offset) ==> PageFresh(s', v, limit, offset)
  {
  }

  /** A step leaves the entry at a page key alone, removes it, or is the fill of that key. */
  lemma EntryStep(s: State, l: Label, v: int, limit: int, offset: int)
    requires Enabled(s, l)
    ensures SameEntry(s, Apply(s, l), PageKey(v, limit, offset)) ||
      (l.Fill? && var rd := s.readers[l.r]; v == rd.v && limit == rd.q.limit && offset == rd.q.offset)
  {
    PageKeyIsNotVersionKey(v, limit, offset);
    if l.Fill? && PageKey(v, limit, offset) == KeyOf(s.readers[l.r]) {
      var rd := s.readers[l.r];
      PageKeyInjective(v, limit, offset, rd.v, rd.q.limit, rd.q.offset);
    }
  }

  lemma PagesStep(s: State, l: Label)
    requires Sound(s) && Enabled(s, l)
    ensures PagesSound(Apply(s, l))
    ensures Fresh(s) ==> PagesFresh(Apply(s, l))
  {
    var s' := Apply(s, l);
    StepExtends(s, l);
    forall v, limit, offset
      ensures PageSound(s', v, limit, offset) && (Fresh(s) ==> PageFresh(s', v, limit, offset))
    {
      EntryStep(s, l, v, limit, offset);
      if SameEntry(s, s', PageKey(v, limit, offset)) {
        assert PageSound(s, v, limit, offset);
        assert Fresh(s) ==> PageFresh(s, v, limit, offset);
        PageExtends(s, s', v, limit, offset);
      } else {
        FilledPage(s, l);
      }
    }
  }

  lemma FilledPage(s: State, l: Label)
    requires Sound(s) && Enabled(s, l) && l.Fill? && Extends(s, Apply(s, l))
    ensures var rd := s.readers[l.r];
      && PageSound(Apply(s, l), rd.v, rd.q.limit, rd.q.offset)
      && (Fresh(s) ==> PageFresh(Apply(s, l), rd.v, rd.q.limit, rd.q.offset))
  {
    var rd := s.readers[l.r];
    assert ReaderSound(s, rd);
    assert Fresh(s) ==> ReaderFresh(s, rd);
    ReaderExtends(s, Apply(s, l), rd);
    PageKeyStays(s, l);
  }

  /** The reader that moves. */
  lemma MovedReader(s: State, l: Label, r: nat)
    requires Sound(s) && Enabled(s, l) && Extends(s, Apply(s, l))
    requires r in s.readers && Apply(s, l).readers[r] != s.readers[r]
    ensures ReaderSound(Apply(s, l), Apply(s, l).readers[r])
    ensures Fresh(s) && !Dangerous(s, l) ==> ReaderFresh(Apply(s, l), Apply(s, l).readers[r])
  {
    var s' := Apply(s, l);
    var rd := s.readers[r];
    assert l.r == r;
    assert ReaderSound(s, rd);
    assert Fresh(s) ==> ReaderFresh(s, rd);
    ReaderExtends(s, s', rd);
    match l {
      case GetPage(_) => ServedReader(s, l);
      case Query(_) =>
        assert WasCurrent(s', Last(s), s.now);
      case _ =>
    }
  }

  /** The reader that finds a page. */
  lemma ServedReader(s: State, l: Label)
    requires Sound(s) && Enabled(s, l) && l.GetPage?
    ensures ReaderSound(Apply(s, l), Apply(s, l).readers[l.r])
    ensures Fresh(s) ==> ReaderFresh(Apply(s, l), Apply(s, l).readers[l.r])
  {
    var rd := s.readers[l.r];
    assert PageSound(s, rd.v, rd.q.limit, rd.q.offset);
    assert Fresh(s) ==> PageFresh(s, rd.v, rd.q.limit, rd.q.offset) && ReaderFresh(s, rd);
  }

  lemma ReadersStep(s: State, l: Label)
    requires Sound(s) && Enabled(s, l)
    ensures ReadersSound(Apply(s, l))
    ensures Fresh(s) && !Dangerous(s, l) ==> ReadersFresh(Apply(s, l))
  {
    var s' := Apply(s, l);
    StepExtends(s, l);
    forall r | r in s'.readers
      ensures ReaderSound(s', s'.readers[r])
      ensures Fresh(s) && !Dangerous(s, l) ==> ReaderFresh(s', s'.readers[r])
    {
      if s'.readers[r] == s.readers[r] {
        assert ReaderSound(s, s.readers[r]);
        assert Fresh(s) ==> ReaderFresh(s, s.readers[r]);
        ReaderExtends(s, s', s.readers[r]);
      } else {
        MovedReader(s, l, r);
      }
    }
  }

  lemma InvStep(s: State, l: Label)
    requires Sound(s) && Enabled(s, l)
    ensures Sound(Apply(s, l))
    ensures Fresh(s) && !Dangerous(s, l) ==> Fresh(Apply(s, l))
  {
    HistStep(s, l);
    BumpsStep(s, l);
    PagesStep(s, l);
    ReadersStep(s, l);
  }

  lemma {:induction false} InvRun(s: State, run: seq<Label>)
    requires Sound(s) && CanRun(s, run)
    ensures Sound(Run(s, run))
    ensures Fresh(s) && Safe(s, run) ==> Fresh(Run(s, run))
    decreases |run|
  {
    if run != [] {
      InvStep(s, run[0]);
      InvRun(Apply(s, run[0]), run[1..]);
    }
  }

  /** `s` is reached from an empty cache over database t, and no SETNX of the version key
      failed on the way while the key was absent. */
  ghost predicate ReachedSafely(s: State) {
    exists t, ttl, now, writers, readers, run ::
      var s0 := Init(t, ttl, now, writers, readers);
      CanRun(s0, run) && Safe(s0, run) && s == Run(s0, run)
  }

  /** The same without the proviso. */
  ghost predicate Reached(s: State) {
    exists t, ttl, now, writers, readers, run ::
      var s0 := Init(t, ttl, now, writers, readers);
      CanRun(s0, run) && s == Run(s0, run)
  }

  lemma ReachedSound(s: State)
    requires Reached(s)
    ensures Sound(s)
  {
    var t, ttl, now, writers, readers, run :|
      var s0 := Init(t, ttl, now, writers, readers);
      CanRun(s0, run) && s == Run(s0, run);
    InitInv(t, ttl, now, writers, readers);
    InvRun(Init(t, ttl, now, writers, readers), run);
  }

  lemma ReachedFresh(s: State)
    requires ReachedSafely(s)
    ensures Sound(s) && Fresh(s)
  {
    var t, ttl, now, writers, readers, run :|
      var s0 := Init(t, ttl, now, writers, readers);
      CanRun(s0, run) && Safe(s0, run) && s == Run(s0, run);
    InitInv(t, ttl, now, writers, readers);
    InvRun(Init(t, ttl, now, writers, readers), run);
  }

  /** Regular reads, under every interleaving: a List whose version read succeeded returns a
      page of one database state, and that state contains every write whose bump had
      succeeded when the List started. */
  lemma RegularReads(s: State, r: nat)
    requires ReachedSafely(s) && r in s.readers && s.readers[r].Done?
    ensures var rd := s.readers[r];
      && rd.origin.snap < |s.hist| && rd.q.limit >= 0 && rd.q.offset >= 0
      && rd.items == PageAt(s.hist[rd.origin.snap], rd.q.limit, rd.q.offset)
      && (rd.healthy ==> forall w :: w in rd.q.seen ==> w <= rd.origin.snap)
  {
    ReachedFresh(s);
    assert ReaderSound(s, s.readers[r]) && ReaderFresh(s, s.readers[r]);
  }

  /** Bounded staleness, whatever fails: with a positive TTL a page is the database's at some
      moment no longer ago than the TTL plus the time its reader took from reading it to
      storing it. */
  lemma BoundedStaleness(s: State, r: nat)
    requires Reached(s) && s.ttl > 0 && r in s.readers && s.readers[r].Done?
    ensures var rd := s.readers[r];
      && rd.at - rd.origin.readAt < s.ttl + (rd.origin.setAt - rd.origin.readAt)
      && rd.origin.snap < |s.hist| && rd.q.limit >= 0 && rd.q.offset >= 0
      && rd.items == PageAt(s.hist[rd.origin.snap], rd.q.limit, rd.q.offset)
      && WasCurrent(s, rd.origin.snap, rd.origin.readAt)
  {
    ReachedSound(s);
    assert ReaderSound(s, s.readers[r]);
  }

  /** A quiet database is read exactly: if every write so far was bumped when the List
      started, and none has committed since, a healthy List returns what the uncached
      repository returns. */
  lemma QuietReadIsExact(s: State, r: nat)
    requires ReachedSafely(s) && r in s.readers && s.readers[r].Done? && s.readers[r].healthy
    requires forall w: nat :: 1 <= w < |s.hist| ==> w in s.readers[r].q.seen
    ensures |s.hist| >= 1
    ensures ListPage(s.hist[|s.hist| - 1], ListFilter(s.readers[r].q.limit, s.readers[r].q.offset, true))
         == Ok(s.readers[r].items)
  {
    RegularReads(s, r);
    ReachedHistory(s);
    var rd := s.readers[r];
    assert Last(s) >= 1 ==> Last(s) in rd.q.seen;
    assert rd.origin.snap == Last(s);
    PageAtIsListPage(s.hist[Last(s)], rd.q.limit, rd.q.offset);
  }

  lemma PageAtIsListPage(t: Table, limit: nat, offset: nat)
    ensures ListPage(t, ListFilter(limit, offset, true)) == Ok(PageAt(t, limit, offset))
  {
  }

  lemma ReachedHistory(s: State)
    requires ReachedSafely(s)
    ensures |s.hist| >= 1
  {
    ReachedFresh(s);
  }

  /** Reads that could not get the version go to version 0, which a healthy read never uses. */
  lemma HealthyReadsAvoidVersionZero(s: State, r: nat)
    requires ReachedSafely(s) && r in s.readers && s.readers[r].Versioned?
    ensures s.readers[r].healthy ==> s.readers[r].v >= 1
    ensures s.readers[r].healthy ==> forall limit, offset :: KeyOf(s.readers[r]) != PageKey(0, limit, offset)
  {
    ReachedFresh(s);
    var rd := s.readers[r];
    assert ReaderFresh(s, rd);
    forall limit, offset | rd.healthy ensures KeyOf(rd) != PageKey(0, limit, offset) {
      if KeyOf(rd) == PageKey(0, limit, offset) {
        PageKeyInjective(rd.v, rd.q.limit, rd.q.offset, 0, limit, offset);
      }
    }
  }

  /** What the ghost history records: writes are numbered in the order they commit, bumps holds
      the version the INCR of each bumped write produced, a List sees the writes bumped when
      it starts, and a page's origin is the state it was read from. */
  lemma HistoryIsFaithful(s: State, l: Label)
    requires HistOk(s) && BumpsOk(s) && WritersOk(s) && Enabled(s, l)
    ensures var s' := Apply(s, l);
      && (l.Commit? ==> s'.hist == s.hist + [l.t] && s'.writers[l.w] == Committed(|s.hist|))
      && (l.Bump? ==> s'.bumps == s.bumps[s.writers[l.w].write := Current(s'.kv)] && Current(s'.kv) == Current(s.kv) + 1)
      && (l.Start? ==> s'.readers[l.r] == Starting(Request(l.limit, l.offset, s.bumps.Keys)))
      && (l.Query? ==> s'.readers[l.r].snap == |s.hist| - 1 && s'.readers[l.r].readAt == s.now)
      && (l.Fill? ==> s'.origins[KeyOf(s.readers[l.r])] == Origin(s.readers[l.r].snap, s.readers[l.r].readAt, s.now))
      && (!l.Commit? ==> s'.hist == s.hist) && (!l.Bump? ==> s'.bumps == s.bumps)
  {
  }
}
