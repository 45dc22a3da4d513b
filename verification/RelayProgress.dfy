/** Progress of the single relay: no row is passed over forever, and the table drains. */
module RelayProgress {
  import opened Common
  import opened RetryDelay
  import opened Outbox
  import opened RelayProtocol
  import opened OneRelay

  function Count(run: seq<Label>, kind: Label -> bool): nat {
    if run == [] then 0 else (if kind(run[0]) then 1 else 0) + Count(run[1..], kind)
  }

  /** Claims that committed and returned rows. */
  function Claims(run: seq<Label>): nat { Count(run, (l: Label) => l.Claim?) }

  /** Mark transactions that committed. */
  function Marks(run: seq<Label>): nat { Count(run, (l: Label) => l.Mark?) }

  /** Rounds cut off between claim and mark. */
  function Drops(run: seq<Label>): nat { Count(run, (l: Label) => l.Drop?) }

  ghost predicate IsHeld(s: State, r: nat, id: nat) {
    r in s.relays && id in Ids(Held(s.relays[r]))
  }

  /** How many more completed rounds a row can still be part of: none once it is terminal,
      at least one while it is pending. The claim of a round in progress is not yet spent. */
  function Left(row: Row, held: bool): nat {
    var spent := if held && row.attempts >= 1 then row.attempts - 1 else row.attempts;
    if !row.status.Pending? then 0
    else if spent < MAX_ATTEMPTS - 1 then MAX_ATTEMPTS - spent
    else 1
  }

  /** The same for an id, counting `unborn` for a row that has not been inserted yet. */
  ghost function Remaining(s: State, r: nat, unborn: nat, id: nat): nat {
    if id in s.store.outbox then Left(s.store.outbox[id], IsHeld(s, r, id)) else unborn
  }

  ghost function RemainingIn(s: State, r: nat, unborn: nat): nat -> nat {
    (id: nat) => Remaining(s, r, unborn, id)
  }

  ghost function Work(s: State, r: nat, unborn: nat, n: nat): nat {
    SumBelow(RemainingIn(s, r, unborn), n)
  }

  ghost predicate Ready(s: State, r: nat) {
    Accounts(s, r) && HeldOk(s)
  }

  lemma ReachableReady(r: nat, now: int, run: seq<Label>)
    requires CanRun(Init({r}, now), run)
    ensures var s := Run(Init({r}, now), run); Ready(s, r) && RowsOk(s) && AnsweredOk(s)
  {
    InitInv({r}, now);
    InvRun(Init({r}, now), run);
    OneRelayReachable(r, now, run);
  }

  lemma ReadyStep(s: State, r: nat, l: Label)
    requires Ready(s, r) && Enabled(s, l)
    ensures Ready(Apply(s, l), r)
  {
    AccountsStep(s, r, l);
    HeldStep(s, l);
  }

  function Marked(s: State, l: Label): set<nat> {
    if l.Mark? && l.r in s.relays then Ids(Held(s.relays[l.r])) else {}
  }

  lemma RemainingMark(s: State, r: nat, l: Label, unborn: nat, id: nat)
    requires Ready(s, r) && Enabled(s, l) && l.Mark? && id in s.store.outbox
    ensures Remaining(Apply(s, l), r, unborn, id) + (if id in Marked(s, l) then 1 else 0) <= Remaining(s, r, unborn, id)
  {
    var p := s.relays[r];
    assert l.r == r;
    assert RowAccount(s, r, id);
    MarkRow(s, l, id);
    assert !IsHeld(Apply(s, l), r, id);
    if id in Ids(p.events) {
      var ev :| ev in p.events && ev.id == id;
      assert s.store.outbox[id].attempts == ev.attempts;
    }
  }

  lemma RemainingClaim(s: State, r: nat, l: Label, unborn: nat, id: nat)
    requires Ready(s, r) && Enabled(s, l) && l.Claim? && id in s.store.outbox
    ensures Remaining(Apply(s, l), r, unborn, id) == Remaining(s, r, unborn, id)
  {
    assert l.r == r;
    assert !IsHeld(s, r, id);
    assert IsHeld(Apply(s, l), r, id) <==> id in Ids(l.events);
  }

  lemma RemainingOther(s: State, r: nat, l: Label, unborn: nat, id: nat)
    requires Ready(s, r) && Enabled(s, l) && !l.Mark? && !l.Claim?
    requires id in s.store.outbox
    ensures Remaining(Apply(s, l), r, unborn, id) <= Remaining(s, r, unborn, id)
  {
    assert Apply(s, l).store.outbox[id] == s.store.outbox[id];
    if l.Drop? {
      assert l.r == r;
      assert !IsHeld(Apply(s, l), r, id);
    } else {
      assert Held(Apply(s, l).relays[r]) == Held(s.relays[r]);
    }
  }

  lemma RemainingUnborn(s: State, r: nat, l: Label, unborn: nat, id: nat)
    requires Ready(s, r) && Enabled(s, l) && id !in s.store.outbox
    requires l.Record? ==> unborn == MAX_ATTEMPTS
    ensures Remaining(Apply(s, l), r, unborn, id) <= Remaining(s, r, unborn, id) && id !in Marked(s, l)
  {
    assert BatchOk(s.store.outbox, Held(s.relays[r]));
    assert !IsHeld(s, r, id);
  }

  /** No step adds work, and a mark takes some off every row of its batch. */
  lemma WorkStep(s: State, r: nat, l: Label, unborn: nat, n: nat)
    requires Ready(s, r) && Enabled(s, l)
    requires l.Record? ==> unborn == MAX_ATTEMPTS
    ensures Work(Apply(s, l), r, unborn, n) + |Below(Marked(s, l), n)| <= Work(s, r, unborn, n)
  {
    var f, g := RemainingIn(s, r, unborn), RemainingIn(Apply(s, l), r, unborn);
    forall id | 1 <= id < n ensures g(id) + (if id in Marked(s, l) then 1 else 0) <= f(id) {
      if id !in s.store.outbox {
        RemainingUnborn(s, r, l, unborn, id);
      } else if l.Mark? {
        RemainingMark(s, r, l, unborn, id);
      } else if l.Claim? {
        RemainingClaim(s, r, l, unborn, id);
      } else {
        RemainingOther(s, r, l, unborn, id);
      }
    }
    SumDrop(f, g, n, Marked(s, l));
  }

  // ----- starvation -----

  /** Row n waits its turn: pending, due, and not in the relay's hands. */
  ghost predicate Waiting(s: State, r: nat, n: nat) {
    && n in s.store.outbox && s.store.outbox[n].status.Pending?
    && s.store.outbox[n].nextAttemptAt <= s.now
    && !IsHeld(s, r, n)
  }

  /** If the relay holds anything it is a full batch of smaller ids. */
  ghost predicate HoldsSmaller(s: State, r: nat, n: nat)
    requires r in s.relays
  {
    var events := Held(s.relays[r]);
    events == [] || (|events| == BATCH_SIZE && forall ev :: ev in events ==> 1 <= ev.id < n)
  }

  function Busy(s: State, r: nat): nat {
    if r in s.relays && !s.relays[r].Idle? then 1 else 0
  }

  ghost predicate Skips(run: seq<Label>, n: nat) {
    forall l :: l in run && l.Claim? ==> n !in Ids(l.events)
  }

  lemma SkippingClaim(s: State, r: nat, l: Label, n: nat)
    requires Ready(s, r) && RowsOk(s) && Waiting(s, r, n) && Enabled(s, l) && l.Claim? && n !in Ids(l.events)
    ensures |l.events| == BATCH_SIZE && forall ev :: ev in l.events ==> 1 <= ev.id < n
  {
    assert l.r == r && l.locked == {};
    IdsCardinality(l.events);
    assert n in Due(s.store.outbox, s.now) - l.locked;
    forall ev | ev in l.events ensures 1 <= ev.id < n {
      assert ev.id in Ids(l.events);
      assert RowOk(ev.id, s.store.outbox[ev.id], s.stream, s.now);
    }
  }

  lemma WaitingStep(s: State, r: nat, l: Label, n: nat)
    requires Ready(s, r) && RowsOk(s) && Waiting(s, r, n) && HoldsSmaller(s, r, n) && Enabled(s, l)
    requires l.Claim? ==> n !in Ids(l.events)
    ensures r in Apply(s, l).relays
    ensures Waiting(Apply(s, l), r, n) && HoldsSmaller(Apply(s, l), r, n)
    ensures l.Mark? ==> |Below(Marked(s, l), n)| == BATCH_SIZE
    ensures Busy(Apply(s, l), r) + (if l.Mark? then 1 else 0) + (if l.Drop? then 1 else 0)
         == Busy(s, r) + (if l.Claim? then 1 else 0)
  {
    StepGrows(s, l);
    assert l.Claim? || l.Mark? || l.Drop? || l.Send? || l.PushOk? || l.PushErr? ==> l.r == r;
    if l.Claim? {
      SkippingClaim(s, r, l, n);
    } else if l.Mark? {
      WaitingMark(s, r, l, n);
    } else {
      WaitingOther(s, r, l, n);
    }
  }

  lemma WaitingMark(s: State, r: nat, l: Label, n: nat)
    requires Ready(s, r) && Waiting(s, r, n) && HoldsSmaller(s, r, n) && Enabled(s, l) && l.Mark? && l.r == r
    ensures Waiting(Apply(s, l), r, n) && |Below(Marked(s, l), n)| == BATCH_SIZE
    ensures Apply(s, l).relays[r] == Idle
  {
    var p := s.relays[r];
    assert BatchOk(s.store.outbox, Held(p));
    IdsCardinality(p.events);
    assert Below(Ids(p.events), n) == Ids(p.events);
    MarkRow(s, l, n);
  }

  lemma WaitingOther(s: State, r: nat, l: Label, n: nat)
    requires Ready(s, r) && Waiting(s, r, n) && HoldsSmaller(s, r, n) && Enabled(s, l) && !l.Claim? && !l.Mark?
    ensures Waiting(Apply(s, l), r, n) && r in Apply(s, l).relays && HoldsSmaller(Apply(s, l), r, n)
    ensures Busy(Apply(s, l), r) + (if l.Drop? then 1 else 0) == Busy(s, r)
  {
    assert l.Drop? || l.Send? || l.PushOk? || l.PushErr? ==> l.r == r;
    assert Held(Apply(s, l).relays[r]) == if l.Drop? then [] else Held(s.relays[r]);
  }

  /** While the relay passes n over, every claim is accounted for by a mark, a lost round or
      the round in progress, and every completed round takes a full batch of work off the
      smaller ids. */
  lemma {:induction false} PassingOver(s: State, r: nat, n: nat, run: seq<Label>)
    requires Ready(s, r) && RowsOk(s) && AnsweredOk(s) && Waiting(s, r, n) && HoldsSmaller(s, r, n)
    requires CanRun(s, run) && Skips(run, n)
    ensures var s' := Run(s, run);
      && Ready(s', r) && Waiting(s', r, n) && HoldsSmaller(s', r, n)
      && Busy(s, r) + Claims(run) == Marks(run) + Drops(run) + Busy(s', r)
      && Work(s', r, MAX_ATTEMPTS, n) + BATCH_SIZE * Marks(run) <= Work(s, r, MAX_ATTEMPTS, n)
    decreases |run|
  {
    if run != [] {
      var l := run[0];
      assert l in run;
      ReadyStep(s, r, l);
      RowsStep(s, l);
      AnsweredStep(s, l);
      WaitingStep(s, r, l, n);
      WorkStep(s, r, l, MAX_ATTEMPTS, n);
      PassingOver(Apply(s, l), r, n, run[1..]);
      assert BATCH_SIZE * Marks(run) == BATCH_SIZE * Marks(run[1..]) + if l.Mark? then BATCH_SIZE else 0;
    }
  }

  /** A full batch of smaller pending rows is itself that much work. */
  lemma HeldIsWork(s: State, r: nat, n: nat)
    requires Ready(s, r) && HoldsSmaller(s, r, n)
    ensures BATCH_SIZE * Busy(s, r) <= Work(s, r, MAX_ATTEMPTS, n)
  {
    var events := Held(s.relays[r]);
    assert BatchOk(s.store.outbox, events);
    if events != [] {
      IdsCardinality(events);
      assert Below(Ids(events), n) == Ids(events);
      forall id | 1 <= id < n
        ensures (if id in Ids(events) then 1 else 0) <= RemainingIn(s, r, MAX_ATTEMPTS)(id)
      {
        if id in Ids(events) { assert RowAccount(s, r, id); }
      }
      SumDrop(RemainingIn(s, r, MAX_ATTEMPTS), (id: nat) => 0, n, Ids(events));
    }
  }

  lemma SkippingIsBounded(s: State, r: nat, n: nat, run: seq<Label>)
    requires Ready(s, r) && RowsOk(s) && AnsweredOk(s) && Busy(s, r) == 0 && CanRun(s, run) && Skips(run, n)
    requires n in s.store.outbox && n in Due(s.store.outbox, s.now)
    ensures n >= 1 && Claims(run) <= 10 * (n - 1) / 100 + Drops(run)
  {
    assert RowOk(n, s.store.outbox[n], s.stream, s.now);
    PassingOver(s, r, n, run);
    HeldIsWork(Run(s, run), r, n);
    forall i | 1 <= i < n ensures RemainingIn(s, r, MAX_ATTEMPTS)(i) <= MAX_ATTEMPTS { }
    SumBoundAll(RemainingIn(s, r, MAX_ATTEMPTS), n, MAX_ATTEMPTS);
  }

  /** No starvation, with the bound computed: from the moment row n is due and the relay is
      free, one of the next floor(10 (n-1) / 100) + 1 claims contains n, counting one more
      for every round cut off on the way. New rows may arrive at any time. */
  lemma StarvationFreedom(r: nat, now: int, before: seq<Label>, run: seq<Label>, n: nat)
    requires CanRun(Init({r}, now), before) && CanRun(Run(Init({r}, now), before), run)
    requires n in Run(Init({r}, now), before).store.outbox
    requires n in Due(Run(Init({r}, now), before).store.outbox, Run(Init({r}, now), before).now)
    requires Busy(Run(Init({r}, now), before), r) == 0
    requires Claims(run) > 10 * (n - 1) / 100 + Drops(run)
    ensures exists l :: l in run && l.Claim? && n in Ids(l.events)
  {
    if Skips(run, n) {
      ReachableReady(r, now, before);
      SkippingIsBounded(Run(Init({r}, now), before), r, n, run);
      assert false;
    }
  }

  // ----- draining -----

  ghost predicate Drained(s: State) {
    forall id :: id in s.store.outbox ==> !s.store.outbox[id].status.Pending?
  }

  lemma WorkRunStep(s: State, r: nat, n: nat, l: Label)
    requires Ready(s, r) && RowsOk(s) && AnsweredOk(s) && Enabled(s, l) && !l.Record?
    requires forall id :: id in s.store.outbox ==> id < n
    ensures Ready(Apply(s, l), r) && RowsOk(Apply(s, l)) && AnsweredOk(Apply(s, l))
    ensures Apply(s, l).store.outbox.Keys == s.store.outbox.Keys
    ensures Work(Apply(s, l), r, 0, n) + (if l.Mark? then 1 else 0) <= Work(s, r, 0, n)
  {
    ReadyStep(s, r, l);
    RowsStep(s, l);
    AnsweredStep(s, l);
    WorkStep(s, r, l, 0, n);
    if l.Mark? { MarkTakesWork(s, r, l, n); }
  }

  lemma {:induction false} WorkRun(s: State, r: nat, n: nat, run: seq<Label>)
    requires Ready(s, r) && RowsOk(s) && AnsweredOk(s) && CanRun(s, run)
    requires forall l :: l in run ==> !l.Record?
    requires forall id :: id in s.store.outbox ==> id < n
    ensures Ready(Run(s, run), r) && RowsOk(Run(s, run))
    ensures Run(s, run).store.outbox.Keys == s.store.outbox.Keys
    ensures Work(Run(s, run), r, 0, n) + Marks(run) <= Work(s, r, 0, n)
    decreases |run|
  {
    if run != [] {
      assert run[0] in run;
      WorkRunStep(s, r, n, run[0]);
      WorkRun(Apply(s, run[0]), r, n, run[1..]);
    }
  }

  lemma MarkTakesWork(s: State, r: nat, l: Label, n: nat)
    requires Ready(s, r) && RowsOk(s) && Enabled(s, l) && l.Mark?
    requires forall id :: id in s.store.outbox ==> id < n
    ensures |Below(Marked(s, l), n)| >= 1
  {
    var events := Held(s.relays[l.r]);
    assert BatchOk(s.store.outbox, events);
    var ev := events[0];
    assert ev in events;
    assert RowOk(ev.id, s.store.outbox[ev.id], s.stream, s.now);
    assert ev.id in Below(Marked(s, l), n);
  }

  lemma NoWorkIffDrained(s: State, r: nat, n: nat)
    requires Ready(s, r) && RowsOk(s)
    requires forall id :: id in s.store.outbox ==> id < n
    ensures Work(s, r, 0, n) == 0 <==> Drained(s)
    ensures Work(s, r, 0, n) <= MAX_ATTEMPTS * |s.store.outbox.Keys|
  {
    var f := RemainingIn(s, r, 0);
    if !Drained(s) {
      var id :| id in s.store.outbox && s.store.outbox[id].status.Pending?;
      assert RowOk(id, s.store.outbox[id], s.stream, s.now);
      SumPositive(f, n, id);
      assert f(id) >= 1;
    } else {
      SumBound(f, n, {}, 0);
    }
    SumBound(f, n, s.store.outbox.Keys, MAX_ATTEMPTS);
    SubsetCardinality(Below(s.store.outbox.Keys, n), s.store.outbox.Keys);
    assert MAX_ATTEMPTS * |Below(s.store.outbox.Keys, n)| <= MAX_ATTEMPTS * |s.store.outbox.Keys|;
  }

  /** Every claim of the single relay ends in a mark or a lost round, or is in progress. */
  lemma {:induction false} RoundsBalance(s: State, r: nat, run: seq<Label>)
    requires s.relays.Keys == {r} && CanRun(s, run)
    ensures Busy(s, r) + Claims(run) == Marks(run) + Drops(run) + Busy(Run(s, run), r)
    decreases |run|
  {
    if run != [] {
      var l := run[0];
      StepGrows(s, l);
      assert l.Claim? || l.Mark? || l.Drop? ==> l.r == r;
      RoundsBalance(Apply(s, l), r, run[1..]);
    }
  }

  /** With no new rows, the table holds at most ten completed rounds of work per row, each
      completed round uses up at least one, and none left means nothing is pending. So once
      the relay, at rest, has claimed as many non-empty batches as there was work and lost
      rounds, the table is drained; and it can never claim more. */
  lemma Draining(r: nat, now: int, before: seq<Label>, run: seq<Label>, n: nat)
    requires CanRun(Init({r}, now), before) && CanRun(Run(Init({r}, now), before), run)
    requires forall l :: l in run ==> !l.Record?
    requires forall id :: id in Run(Init({r}, now), before).store.outbox ==> id < n
    ensures var s, s' := Run(Init({r}, now), before), Run(Run(Init({r}, now), before), run);
      && Work(s', r, 0, n) + Marks(run) <= Work(s, r, 0, n) <= 10 * |s.store.outbox.Keys|
      && (Work(s', r, 0, n) == 0 <==> Drained(s'))
      && (Busy(s', r) == 0 ==> Busy(s, r) + Claims(run) <= Work(s, r, 0, n) + Drops(run))
      && (Busy(s', r) == 0 && Busy(s, r) + Claims(run) == Work(s, r, 0, n) + Drops(run) ==> Drained(s'))
  {
    var s := Run(Init({r}, now), before);
    ReachableReady(r, now, before);
    NoWorkIffDrained(s, r, n);
    WorkRun(s, r, n, run);
    NoWorkIffDrained(Run(s, run), r, n);
    RoundsBalance(s, r, run);
  }

  /** The relay never gets stuck with pending rows: five minutes from any moment it is free,
      all of them are due, and the next claim is not empty. */
  lemma PendingRowsFallDue(r: nat, now: int, before: seq<Label>, id: nat, later: int)
    requires CanRun(Init({r}, now), before)
    requires Busy(Run(Init({r}, now), before), r) == 0
    requires id in Run(Init({r}, now), before).store.outbox
    requires Run(Init({r}, now), before).store.outbox[id].status.Pending?
    requires later >= Run(Init({r}, now), before).now + 300 * 1_000_000_000
    ensures id in Due(Run(Init({r}, now), before).store.outbox, later)
    ensures exists events :: CanRun(Run(Init({r}, now), before), [Tick(later), Claim(r, {}, events)])
  {
    ReachableReady(r, now, before);
    NextClaim(Run(Init({r}, now), before), r, id, later);
  }

  lemma NextClaim(s: State, r: nat, id: nat, later: int)
    requires Ready(s, r) && RowsOk(s) && Busy(s, r) == 0
    requires id in s.store.outbox && s.store.outbox[id].status.Pending? && later >= s.now + MAX_DELAY
    ensures id in Due(s.store.outbox, later)
    ensures exists events :: CanRun(s, [Tick(later), Claim(r, {}, events)])
  {
    var t := s.store.outbox;
    assert RowOk(id, t[id], s.stream, s.now);
    var ids := BatchExists(t, later, BATCH_SIZE, {});
    assert ids != {} by {
      assert id in Due(t, later) - {};
    }
    var events := ListingExists(Bump(t, ids), ids);
    var l := Claim(r, {}, events);
    var s1 := Apply(s, Tick(later));
    assert events != [] by { assert Ids([]) == {}; }
    assert Enabled(s1, l);
    assert [Tick(later), l][1..] == [l] && [l][1..] == [];
    assert CanRun(s1, [l]);
  }
}
