/** Several relays at once: the mark statements do not look at a row's old status, so a row
    one relay has dispatched can be reopened by another. Exactly when is settled here. */
module SeveralRelays {
  import opened Outbox
  import opened Tables
  import opened Stream
  import opened RelayProtocol

  /** Relay r still holds row `id` and may yet mark it with a failed push. */
  ghost predicate MayReopen(s: State, r: nat, id: nat) {
    && r in s.relays
    && id in Ids(Held(s.relays[r]))
    && !(s.relays[r].Pushed? && s.relays[r].ok)
  }

  ghost predicate IsDispatched(s: State, id: nat) {
    id in s.store.outbox && s.store.outbox[id].status.Dispatched?
  }

  lemma DispatchedStep(s: State, l: Label, id: nat)
    requires HeldOk(s) && IsDispatched(s, id) && Enabled(s, l)
    requires forall r :: r in s.relays ==> !MayReopen(s, r, id)
    ensures IsDispatched(Apply(s, l), id)
    ensures forall r :: r in s.relays ==> !MayReopen(Apply(s, l), r, id)
  {
    StepGrows(s, l);
    if l.Claim? { assert id !in Due(s.store.outbox, s.now); }
    if l.Mark? {
      MarkRow(s, l, id);
      assert !MayReopen(s, l.r, id);
      if id in Ids(s.relays[l.r].events) {
        var ev :| ev in s.relays[l.r].events && ev.id == id;
      }
    }
    forall r | r in s.relays ensures !MayReopen(Apply(s, l), r, id) {
      assert !MayReopen(s, r, id);
    }
  }

  lemma {:induction false} DispatchedRun(s: State, run: seq<Label>, id: nat)
    requires HeldOk(s) && IsDispatched(s, id) && CanRun(s, run)
    requires forall r :: r in s.relays ==> !MayReopen(s, r, id)
    ensures IsDispatched(Run(s, run), id)
    decreases |run|
  {
    if run != [] {
      DispatchedStep(s, run[0], id);
      HeldStep(s, run[0]);
      DispatchedRun(Apply(s, run[0]), run[1..], id);
    }
  }

  lemma Prepend(s: State, l: Label, rest: seq<Label>) returns (run: seq<Label>)
    requires Enabled(s, l) && CanRun(Apply(s, l), rest)
    ensures CanRun(s, run) && Run(s, run) == Run(Apply(s, l), rest)
  {
    RunCons(s, l, rest);
    run := [l] + rest;
  }

  lemma RunOfTwo(s: State, l: Label, l': Label) returns (run: seq<Label>)
    requires Enabled(s, l) && Enabled(Apply(s, l), l')
    ensures CanRun(s, run) && Run(s, run) == Apply(Apply(s, l), l')
  {
    run := Prepend(Apply(s, l), l', []);
    run := Prepend(s, l, run);
  }

  /** From wherever it stands, relay r can fail its push and mark its rows for retry or dead. */
  lemma Reopening(s: State, r: nat, id: nat) returns (run: seq<Label>)
    requires HeldOk(s) && id in s.store.outbox && MayReopen(s, r, id)
    ensures CanRun(s, run) && !IsDispatched(Run(s, run), id)
  {
    var p := s.relays[r];
    if p.Pushed? {
      var l := Mark(r, "push failed");
      MarkRow(s, l, id);
      var ev :| ev in p.events && ev.id == id;
      run := Prepend(s, l, []);
    } else {
      var l := if p.Holding? then Send(r) else PushErr(r);
      HeldStep(s, l);
      assert Held(Apply(s, l).relays[r]) == Held(p);
      var rest := ReopeningPushed(Apply(s, l), r, id);
      run := Prepend(s, l, rest);
    }
  }

  lemma ReopeningPushed(s: State, r: nat, id: nat) returns (run: seq<Label>)
    requires HeldOk(s) && id in s.store.outbox && MayReopen(s, r, id) && !s.relays[r].Holding?
    ensures CanRun(s, run) && !IsDispatched(Run(s, run), id)
  {
    var s1 := s;
    run := [];
    if s.relays[r].Pushing? {
      HeldStep(s, PushErr(r));
      s1 := Apply(s, PushErr(r));
    }
    var l := Mark(r, "push failed");
    MarkRow(s1, l, id);
    var ev :| ev in s1.relays[r].events && ev.id == id;
    run := Prepend(s1, l, []);
    if s.relays[r].Pushing? {
      run := Prepend(s, PushErr(r), run);
    }
  }

  /** A dispatched row stays dispatched in every continuation if and only if no relay still
      holds it with its push not yet acknowledged. */
  lemma DispatchedIsFinalIff(s: State, id: nat)
    requires Inv(s) && IsDispatched(s, id)
    ensures (forall run :: CanRun(s, run) ==> IsDispatched(Run(s, run), id))
       <==> (forall r :: r in s.relays ==> !MayReopen(s, r, id))
  {
    if r :| r in s.relays && MayReopen(s, r, id) {
      var run := Reopening(s, r, id);
    } else {
      forall run | CanRun(s, run) ensures IsDispatched(Run(s, run), id) {
        DispatchedRun(s, run, id);
      }
    }
  }

  // ----- dead rows -----

  ghost predicate IsDead(s: State, id: nat) {
    id in s.store.outbox && s.store.outbox[id].status.Dead?
  }

  /** Relay r does not hold row `id`, or can only mark it dead again: its push has failed and
      it claimed the row for the tenth time or later. */
  ghost predicate KeepsDead(s: State, r: nat, id: nat) {
    r in s.relays && id in Ids(Held(s.relays[r])) ==>
      && s.relays[r].Pushed? && !s.relays[r].ok
      && forall ev :: ev in s.relays[r].events && ev.id == id ==> ev.attempts >= MAX_ATTEMPTS
  }

  lemma DeadStep(s: State, l: Label, id: nat)
    requires HeldOk(s) && IsDead(s, id) && Enabled(s, l)
    requires forall r :: r in s.relays ==> KeepsDead(s, r, id)
    ensures IsDead(Apply(s, l), id)
    ensures forall r :: r in s.relays ==> KeepsDead(Apply(s, l), r, id)
  {
    StepGrows(s, l);
    if l.Claim? { assert id !in Due(s.store.outbox, s.now); }
    if l.Mark? {
      MarkRow(s, l, id);
      assert KeepsDead(s, l.r, id);
      if id in Ids(s.relays[l.r].events) {
        var ev :| ev in s.relays[l.r].events && ev.id == id;
      }
    }
    forall r | r in s.relays ensures KeepsDead(Apply(s, l), r, id) {
      assert KeepsDead(s, r, id);
    }
  }

  lemma {:induction false} DeadRun(s: State, run: seq<Label>, id: nat)
    requires HeldOk(s) && IsDead(s, id) && CanRun(s, run)
    requires forall r :: r in s.relays ==> KeepsDead(s, r, id)
    ensures IsDead(Run(s, run), id)
    decreases |run|
  {
    if run != [] {
      DeadStep(s, run[0], id);
      HeldStep(s, run[0]);
      DeadRun(Apply(s, run[0]), run[1..], id);
    }
  }

  function EventEntries(events: seq<Event>): seq<Entry> {
    seq(|events|, i requires 0 <= i < |events| => EventEntry(events[i]))
  }

  /** A started pipeline may still succeed as a whole, after which the row is dispatched. */
  lemma LateDelivery(s: State, r: nat, id: nat) returns (run: seq<Label>)
    requires HeldOk(s) && PushingOk(s) && id in s.store.outbox
    requires r in s.relays && s.relays[r].Pushing? && id in Ids(s.relays[r].events)
    ensures CanRun(s, run) && IsDispatched(Run(s, run), id)
  {
    var events, entries := s.relays[r].events, EventEntries(s.relays[r].events);
    LandingsRun(s, entries);
    var s1 := s.(stream := s.stream + entries);
    forall ev | ev in events
      ensures exists k :: s.relays[r].from <= k < |s1.stream| && s1.stream[k] == EventEntry(ev)
    {
      var i :| 0 <= i < |events| && events[i] == ev;
      assert s1.stream[|s.stream| + i] == EventEntry(ev);
    }
    var rest := AcknowledgedMark(s1, r, id);
    RunConcat(s, Landings(entries), rest);
    run := Landings(entries) + rest;
  }

  lemma AcknowledgedMark(s: State, r: nat, id: nat) returns (run: seq<Label>)
    requires HeldOk(s) && id in s.store.outbox
    requires Enabled(s, PushOk(r)) && id in Ids(s.relays[r].events)
    ensures CanRun(s, run) && IsDispatched(Run(s, run), id)
  {
    HeldStep(s, PushOk(r));
    var s1 := Apply(s, PushOk(r));
    MarkRow(s1, Mark(r, ""), id);
    var ev :| ev in s1.relays[r].events && ev.id == id;
    run := RunOfTwo(s, PushOk(r), Mark(r, ""));
  }

  /** From wherever it stands, relay r can take a dead row back. */
  lemma Reviving(s: State, r: nat, id: nat) returns (run: seq<Label>)
    requires HeldOk(s) && PushingOk(s) && IsDead(s, id) && r in s.relays && !KeepsDead(s, r, id)
    ensures CanRun(s, run) && !IsDead(Run(s, run), id)
  {
    var p := s.relays[r];
    if p.Pushed? {
      RevivingMark(s, r, id);
      run := Prepend(s, Mark(r, "push failed"), []);
    } else if p.Pushing? {
      run := LateDelivery(s, r, id);
    } else {
      HeldStep(s, Send(r));
      PushingStep(s, Send(r));
      run := LateDelivery(Apply(s, Send(r)), r, id);
      run := Prepend(s, Send(r), run);
    }
  }

  lemma RevivingMark(s: State, r: nat, id: nat)
    requires HeldOk(s) && IsDead(s, id) && r in s.relays && s.relays[r].Pushed? && !KeepsDead(s, r, id)
    ensures !IsDead(Apply(s, Mark(r, "push failed")), id)
  {
    MarkRow(s, Mark(r, "push failed"), id);
    var events := s.relays[r].events;
    if s.relays[r].ok {
      var ev :| ev in events && ev.id == id;
    } else {
      var ev :| ev in events && ev.id == id && ev.attempts < MAX_ATTEMPTS;
    }
  }

  /** A dead row stays dead in every continuation if and only if every relay that still holds
      it has had its push fail and claimed the row for the tenth time or later. */
  lemma DeadIsFinalIff(s: State, id: nat)
    requires Inv(s) && IsDead(s, id)
    ensures (forall run :: CanRun(s, run) ==> IsDead(Run(s, run), id))
       <==> (forall r :: r in s.relays ==> KeepsDead(s, r, id))
  {
    if r :| r in s.relays && !KeepsDead(s, r, id) {
      var run := Reviving(s, r, id);
    } else {
      forall run | CanRun(s, run) ensures IsDead(Run(s, run), id) {
        DeadRun(s, run, id);
      }
    }
  }

  // ----- both happen -----

  ghost predicate BothHold(s: State, ev0: Event, ev1: Event) {
    && s.relays == map[0 := Holding([ev0]), 1 := Holding([ev1])]
    && s.store.outbox.Keys == {1} && ev0.id == 1 && ev1.id == 1
  }

  /** Row 1 is the only one, due, and not held by relay r. */
  ghost predicate OnlyRowDue(s: State, row: Row) {
    s.store.outbox == map[1 := row] && row.status.Pending? && row.nextAttemptAt <= s.now
  }

  lemma ClaimOnlyRow(s: State, row: Row, r: nat) returns (ev: Event)
    requires OnlyRowDue(s, row) && r in s.relays && s.relays[r].Idle?
    ensures ev.id == 1 && ev.attempts == row.attempts + 1 && Enabled(s, Claim(r, {}, [ev]))
    ensures Apply(s, Claim(r, {}, [ev])).relays == s.relays[r := Holding([ev])]
    ensures OnlyRowDue(Apply(s, Claim(r, {}, [ev])), row.(attempts := row.attempts + 1))
  {
    ev := Event(1, row.eventType, row.payload, row.attempts + 1);
    assert [ev][0] in [ev];
    assert Ids([ev]) == {1};
    assert Due(s.store.outbox, s.now) == {1};
  }

  lemma FirstRecord(s: State) returns (row: Row)
    requires s == Init({0, 1}, 0)
    ensures Enabled(s, Record(1, 1, "u", [7]))
    ensures OnlyRowDue(Apply(s, Record(1, 1, "u", [7])), row) && row.attempts == 0
    ensures Apply(s, Record(1, 1, "u", [7])).relays == map[0 := Idle, 1 := Idle]
  {
    row := Recorded(s.store, 1, 1, "u", [7], s.now).outbox[1];
  }

  lemma SecondClaim(s: State, row: Row, ev0: Event) returns (ev1: Event)
    requires OnlyRowDue(s, row) && s.relays == map[0 := Holding([ev0]), 1 := Idle] && ev0.id == 1
    ensures Enabled(s, Claim(1, {}, [ev1])) && BothHold(Apply(s, Claim(1, {}, [ev1])), ev0, ev1)
  {
    ev1 := ClaimOnlyRow(s, row, 1);
  }

  /** Both relays claim row 1, one after the other. */
  lemma TwoClaims(s: State, row: Row) returns (run: seq<Label>, ev0: Event, ev1: Event)
    requires OnlyRowDue(s, row) && s.relays == map[0 := Idle, 1 := Idle]
    ensures CanRun(s, run) && BothHold(Run(s, run), ev0, ev1) && ev0.attempts == row.attempts + 1
  {
    ev0 := ClaimOnlyRow(s, row, 0);
    var l := Claim(0, {}, [ev0]);
    var s1 := Apply(s, l);
    ev1 := SecondClaim(s1, row.(attempts := row.attempts + 1), ev0);
    run := RunOfTwo(s, l, Claim(1, {}, [ev1]));
  }

  /** Relay 0 then delivers and marks the row, while relay 1 does nothing. */
  lemma FirstDispatches(s: State, ev0: Event, ev1: Event) returns (run: seq<Label>)
    requires BothHold(s, ev0, ev1)
    ensures CanRun(s, run) && IsDispatched(Run(s, run), 1)
    ensures MayReopen(Run(s, run), 1, 1)
  {
    var entry := EventEntry(ev0);
    assert [ev0][0] in [ev0] && [ev1][0] in [ev1];
    var s1 := Apply(s, Send(0));
    var s2 := Apply(s1, Land(entry));
    assert s2.stream[|s.stream|] == entry;
    var s3 := Apply(s2, PushOk(0));
    assert s3.relays[0] == Pushed([ev0], true) && s3.relays[1] == Holding([ev1]);
    var l := Mark(0, "");
    assert 1 in Ids([ev0]) && 1 in Ids([ev1]);
    run := Prepend(s3, l, []);
    run := Prepend(s2, PushOk(0), run);
    run := Prepend(s1, Land(entry), run);
    run := Prepend(s, Send(0), run);
  }

  /** Reopening is reachable with two relays: both claim row 1, relay 0 marks it dispatched,
      and the failed push of relay 1 takes it back. */
  lemma TwoRelaysReopen()
    ensures exists before, after ::
      && CanRun(Init({0, 1}, 0), before) && IsDispatched(Run(Init({0, 1}, 0), before), 1)
      && CanRun(Run(Init({0, 1}, 0), before), after) && !IsDispatched(Run(Run(Init({0, 1}, 0), before), after), 1)
  {
    var s0 := Init({0, 1}, 0);
    var row := FirstRecord(s0);
    var record := Record(1, 1, "u", [7]);
    var claims, ev0, ev1 := TwoClaims(Apply(s0, record), row);
    claims := Prepend(s0, record, claims);
    var delivery := FirstDispatches(Run(s0, claims), ev0, ev1);
    RunConcat(s0, claims, delivery);
    InitInv({0, 1}, 0);
    InvRun(s0, claims + delivery);
    var after := Reopening(Run(s0, claims + delivery), 1, 1);
  }

  /** Relay 0 claims row 1 n times over, and is cut off each time. */
  lemma {:induction false} LostClaims(s: State, row: Row, n: nat) returns (run: seq<Label>)
    requires OnlyRowDue(s, row) && s.relays == map[0 := Idle, 1 := Idle]
    ensures CanRun(s, run)
    ensures OnlyRowDue(Run(s, run), row.(attempts := row.attempts + n))
    ensures Run(s, run).relays == map[0 := Idle, 1 := Idle]
    decreases n
  {
    run := [];
    if n > 0 {
      var claimed := row.(attempts := row.attempts + 1);
      var lost := LostClaim(s, row);
      var rest := LostClaims(Run(s, lost), claimed, n - 1);
      RunConcat(s, lost, rest);
      run := lost + rest;
      assert claimed.(attempts := claimed.attempts + (n - 1)) == row.(attempts := row.attempts + n);
    }
  }

  lemma LostClaim(s: State, row: Row) returns (run: seq<Label>)
    requires OnlyRowDue(s, row) && s.relays == map[0 := Idle, 1 := Idle]
    ensures CanRun(s, run)
    ensures OnlyRowDue(Run(s, run), row.(attempts := row.attempts + 1))
    ensures Run(s, run).relays == map[0 := Idle, 1 := Idle]
  {
    var ev := ClaimOnlyRow(s, row, 0);
    run := RunOfTwo(s, Claim(0, {}, [ev]), Drop(0));
  }

  /** Relay 0 fails and marks the row dead at its tenth claim, while relay 1 does nothing. */
  lemma FirstKills(s: State, ev0: Event, ev1: Event) returns (run: seq<Label>)
    requires BothHold(s, ev0, ev1) && ev0.attempts >= MAX_ATTEMPTS
    ensures CanRun(s, run) && IsDead(Run(s, run), 1)
    ensures 1 in Run(s, run).relays && !KeepsDead(Run(s, run), 1, 1)
  {
    assert [ev0][0] in [ev0] && [ev1][0] in [ev1];
    var s1 := Apply(s, Send(0));
    var s2 := Apply(s1, PushErr(0));
    assert s2.relays[0] == Pushed([ev0], false) && s2.relays[1] == Holding([ev1]);
    assert 1 in Exhausted([ev0]) && 1 !in Retryable([ev0]) && 1 in Ids([ev1]);
    run := Prepend(s2, Mark(0, ""), []);
    run := Prepend(s1, PushErr(0), run);
    run := Prepend(s, Send(0), run);
  }

  /** A dead row held by both relays, reached after nine lost claims. */
  lemma DeadAndHeld() returns (before: seq<Label>)
    ensures CanRun(Init({0, 1}, 0), before)
    ensures var s := Run(Init({0, 1}, 0), before);
      IsDead(s, 1) && 1 in s.relays && !KeepsDead(s, 1, 1)
  {
    var s0 := Init({0, 1}, 0);
    var row := FirstRecord(s0);
    var record := Record(1, 1, "u", [7]);
    var s1 := Apply(s0, record);
    var lost := LostClaims(s1, row, 9);
    var claims, ev0, ev1 := TwoClaims(Run(s1, lost), row.(attempts := 9));
    RunConcat(s1, lost, claims);
    var kill := FirstKills(Run(s1, lost + claims), ev0, ev1);
    RunConcat(s1, lost + claims, kill);
    before := Prepend(s0, record, lost + claims + kill);
  }

  /** Reviving is reachable with two relays: relay 0 marks row 1 dead, and relay 1, which
      claimed it too, delivers it after all. */
  lemma TwoRelaysRevive()
    ensures exists before, after ::
      && CanRun(Init({0, 1}, 0), before) && IsDead(Run(Init({0, 1}, 0), before), 1)
      && CanRun(Run(Init({0, 1}, 0), before), after) && !IsDead(Run(Run(Init({0, 1}, 0), before), after), 1)
  {
    var before := DeadAndHeld();
    InitInv({0, 1}, 0);
    InvRun(Init({0, 1}, 0), before);
    var after := Reviving(Run(Init({0, 1}, 0), before), 1, 1);
  }
}
