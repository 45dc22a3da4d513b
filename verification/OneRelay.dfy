/** The deployment the service wires up: a single relay. Its rows carry an exact account
    of their attempts and of the delays they were retried with. */
module OneRelay {
  import opened RetryDelay
  import opened Outbox
  import opened RelayProtocol

  // ----- delays -----

  function Sum(delays: seq<nat>): nat {
    if delays == [] then 0 else Sum(delays[..|delays| - 1]) + delays[|delays| - 1]
  }

  /** Clamped(1) + ... + Clamped(n), the longest n retries can take. */
  function LongestDelays(n: nat): nat {
    if n == 0 then 0 else LongestDelays(n - 1) + Clamped(n)
  }

  lemma LongestDelays9()
    ensures LongestDelays(9) == 810 * SECOND
  {
    Pow2At9();
    assert Pow2(1) == 2 && Pow2(2) == 4 && Pow2(3) == 8 && Pow2(4) == 16;
    assert Pow2(5) == 32 && Pow2(6) == 64 && Pow2(7) == 128 && Pow2(8) == 256;
    assert LongestDelays(3) == 14 * SECOND;
    assert LongestDelays(6) == 126 * SECOND;
    assert LongestDelays(8) == 510 * SECOND;
  }

  lemma {:induction false} LongestDelaysMonotone(a: nat, b: nat)
    requires a <= b
    ensures LongestDelays(a) <= LongestDelays(b)
    decreases b
  {
    if a < b { LongestDelaysMonotone(a, b - 1); }
  }

  /** Whenever a failed batch has a row to retry, the shared delay is computed without
      overflow from an attempt count in 1..9, and is no longer than what any retried
      row's own count would give. */
  lemma RetryArithmetic(t: Table, events: seq<Event>, ev: Event)
    requires BatchOk(t, events) && ev in events && ev.attempts < 10
    ensures 1 <= MinAttempts(events) <= 9
    ensures Delay(events) == Clamped(MinAttempts(events))
    ensures MIN_DELAY <= Delay(events) <= Clamped(ev.attempts)
    ensures Delay(events) == [0, 2, 4, 8, 16, 32, 64, 128, 256, 300][MinAttempts(events)] * 1_000_000_000
    ensures Delay(events) <= [0, 2, 4, 8, 16, 32, 64, 128, 256, 300][ev.attempts] * 1_000_000_000
  {
    BackoffTable(MinAttempts(events));
    BackoffTable(ev.attempts);
    ExactUpTo33(ev.attempts);
    ExactUpTo33(MinAttempts(events));
    ClampedMonotone(MinAttempts(events), ev.attempts);
    BackoffWithinBounds(MinAttempts(events));
  }

  // ----- the account of one row -----

  ghost predicate Account(row: Row, h: History, held: bool) {
    var closed := if held || !row.status.Pending? then 1 else 0;
    && row.attempts == |h.delays| + h.lost + closed
    && row.attempts <= MAX_ATTEMPTS + h.lost
    && (row.status.Pending? && !held ==> row.attempts < MAX_ATTEMPTS + h.lost)
    && (held ==> row.status.Pending?)
    && Sum(h.delays) <= LongestDelays(if row.attempts - closed < 9 then row.attempts - closed else 9)
    && MIN_DELAY * |h.delays| <= Sum(h.delays)
  }

  lemma AccountClaimed(row: Row, h: History)
    requires Account(row, h, false) && row.status.Pending?
    ensures Account(row.(attempts := row.attempts + 1), h.(claims := h.claims + 1), true)
  {
  }

  lemma AccountDropped(row: Row, h: History)
    requires Account(row, h, true)
    ensures Account(row, h.(lost := h.lost + 1), false)
  {
    LongestDelaysMonotone(if row.attempts - 1 < 9 then row.attempts - 1 else 9,
                          if row.attempts < 9 then row.attempts else 9);
  }

  lemma AccountFinished(row: Row, row': Row, h: History)
    requires Account(row, h, true) && row'.attempts == row.attempts && !row'.status.Pending?
    ensures Account(row', h, false)
  {
  }

  lemma AccountRetried(row: Row, row': Row, h: History, d: nat)
    requires Account(row, h, true) && row.attempts < MAX_ATTEMPTS
    requires row'.attempts == row.attempts && row'.status.Pending?
    requires MIN_DELAY <= d <= Clamped(row.attempts)
    ensures Account(row', h.(delays := h.delays + [d]), false)
  {
    assert (h.delays + [d])[..|h.delays|] == h.delays;
    assert LongestDelays(row.attempts) == LongestDelays(row.attempts - 1) + Clamped(row.attempts);
  }

  // ----- the account of every row, step by step -----

  ghost predicate RowAccount(s: State, r: nat, id: nat)
    requires r in s.relays && id in s.store.outbox && id in s.hist
  {
    Account(s.store.outbox[id], s.hist[id], id in Ids(Held(s.relays[r])))
  }

  /** Only relay r exists, the attempt counts it holds are current, and every row's
      account balances. */
  ghost predicate Accounts(s: State, r: nat) {
    && s.relays.Keys == {r}
    && s.hist.Keys == s.store.outbox.Keys
    && (forall ev :: ev in Held(s.relays[r]) ==>
          ev.id in s.store.outbox && s.store.outbox[ev.id].attempts == ev.attempts)
    && forall id :: id in s.store.outbox ==> RowAccount(s, r, id)
  }

  lemma ClaimAccounts(s: State, r: nat, l: Label)
    requires Accounts(s, r) && Enabled(s, l) && l.Claim?
    ensures Accounts(Apply(s, l), r)
  {
    var s' := Apply(s, l);
    var ids := Ids(l.events);
    assert l.r == r;
    assert Held(s.relays[r]) == [] && Held(s'.relays[r]) == l.events;
    forall ev | ev in l.events ensures ev.id in s'.store.outbox && s'.store.outbox[ev.id].attempts == ev.attempts {
      assert ev == EventOf(Bump(s.store.outbox, ids), ev.id) && ev.id in ids;
    }
    forall id | id in s'.store.outbox ensures RowAccount(s', r, id) {
      assert RowAccount(s, r, id);
      if id in ids {
        assert id in Due(s.store.outbox, s.now);
        AccountClaimed(s.store.outbox[id], s.hist[id]);
      }
    }
  }

  lemma DropAccounts(s: State, r: nat, l: Label)
    requires Accounts(s, r) && Enabled(s, l) && l.Drop?
    ensures Accounts(Apply(s, l), r)
  {
    var s' := Apply(s, l);
    assert l.r == r;
    forall id | id in s'.store.outbox ensures RowAccount(s', r, id) {
      assert RowAccount(s, r, id);
      if id in Ids(Held(s.relays[r])) { AccountDropped(s.store.outbox[id], s.hist[id]); }
    }
  }

  lemma MarkAccounts(s: State, r: nat, l: Label)
    requires Accounts(s, r) && HeldOk(s) && Enabled(s, l) && l.Mark?
    ensures Accounts(Apply(s, l), r)
  {
    var s' := Apply(s, l);
    assert l.r == r;
    forall id | id in s'.store.outbox ensures RowAccount(s', r, id) {
      MarkRowAccount(s, r, l, id);
    }
  }

  lemma MarkRowAccount(s: State, r: nat, l: Label, id: nat)
    requires Accounts(s, r) && HeldOk(s) && Enabled(s, l) && l.Mark? && l.r == r && id in s.store.outbox
    ensures id in Apply(s, l).store.outbox && id in Apply(s, l).hist
    ensures RowAccount(Apply(s, l), r, id)
  {
    var p := s.relays[r];
    var row, h := s.store.outbox[id], s.hist[id];
    assert RowAccount(s, r, id);
    assert BatchOk(s.store.outbox, Held(p));
    MarkRow(s, l, id);
    if id in Ids(p.events) {
      var ev :| ev in p.events && ev.id == id;
      UniqueEvent(p.events, ev);
      var row' := Apply(s, l).store.outbox[id];
      if p.ok || ev.attempts >= MAX_ATTEMPTS {
        AccountFinished(row, row', h);
      } else {
        RetryArithmetic(s.store.outbox, p.events, ev);
        AccountRetried(row, row', h, Delay(p.events));
      }
    }
  }

  lemma RecordAccounts(s: State, r: nat, l: Label)
    requires Accounts(s, r) && Enabled(s, l) && l.Record?
    ensures Accounts(Apply(s, l), r)
  {
    var s' := Apply(s, l);
    forall id | id in s'.store.outbox ensures RowAccount(s', r, id) {
      if id in s.store.outbox { assert RowAccount(s, r, id); }
      assert id !in s.store.outbox ==> id !in Ids(Held(s.relays[r]));
    }
  }

  lemma OtherAccounts(s: State, r: nat, l: Label)
    requires Accounts(s, r) && Enabled(s, l)
    requires l.Tick? || l.Send? || l.Land? || l.PushOk? || l.PushErr?
    ensures Accounts(Apply(s, l), r)
  {
    var s' := Apply(s, l);
    assert Held(s'.relays[r]) == Held(s.relays[r]);
    forall id | id in s'.store.outbox ensures RowAccount(s', r, id) {
      assert RowAccount(s, r, id);
    }
  }

  lemma AccountsStep(s: State, r: nat, l: Label)
    requires Accounts(s, r) && HeldOk(s) && Enabled(s, l)
    ensures Accounts(Apply(s, l), r)
  {
    match l
    case Claim(_, _, _) => ClaimAccounts(s, r, l);
    case Drop(_) => DropAccounts(s, r, l);
    case Mark(_, _) => MarkAccounts(s, r, l);
    case Record(_, _, _, _) => RecordAccounts(s, r, l);
    case _ => OtherAccounts(s, r, l);
  }

  lemma {:induction false} OneRelayRun(s: State, r: nat, run: seq<Label>)
    requires Accounts(s, r) && HeldOk(s) && CanRun(s, run)
    ensures Accounts(Run(s, run), r)
    decreases |run|
  {
    if run != [] {
      HeldStep(s, run[0]);
      AccountsStep(s, r, run[0]);
      OneRelayRun(Apply(s, run[0]), r, run[1..]);
    }
  }

  lemma OneRelayReachable(r: nat, now: int, run: seq<Label>)
    requires CanRun(Init({r}, now), run)
    ensures Accounts(Run(Init({r}, now), run), r)
    ensures HistOk(Run(Init({r}, now), run)) && RowsOk(Run(Init({r}, now), run))
  {
    InitInv({r}, now);
    InvRun(Init({r}, now), run);
    OneRelayRun(Init({r}, now), r, run);
  }

  /** A row has been claimed exactly `attempts` times, each ending in a scheduled retry, a
      lost round, or the mark that finished the row; and it is at most ten claims plus the
      rounds whose mark was lost. At rest and pending it still has a claim left. */
  lemma AttemptAccounting(r: nat, now: int, run: seq<Label>, id: nat)
    requires CanRun(Init({r}, now), run)
    requires id in Run(Init({r}, now), run).store.outbox
    ensures var s := Run(Init({r}, now), run);
      && id in s.hist && r in s.relays
      && var row, h, held := s.store.outbox[id], s.hist[id], id in Ids(Held(s.relays[r]));
      && h.claims == row.attempts
      && row.attempts == |h.delays| + h.lost + (if held || !row.status.Pending? then 1 else 0)
      && row.attempts <= 10 + h.lost
      && (row.status.Pending? && !held ==> row.attempts <= 9 + h.lost)
  {
    OneRelayReachable(r, now, run);
    var s := Run(Init({r}, now), run);
    assert RowAccount(s, r, id);
  }

  /** Whatever batches a row shares, its scheduled delays never add up to more than 810
      seconds; a row that dies without a lost round was retried nine times, over at least
      18 seconds. */
  lemma LifetimeBackoff(r: nat, now: int, run: seq<Label>, id: nat)
    requires CanRun(Init({r}, now), run)
    requires id in Run(Init({r}, now), run).store.outbox
    ensures var s := Run(Init({r}, now), run);
      && id in s.hist
      && Sum(s.hist[id].delays) <= 810 * 1_000_000_000
      && (s.store.outbox[id].status.Dead? && s.hist[id].lost == 0 ==>
            |s.hist[id].delays| == 9 && 18 * 1_000_000_000 <= Sum(s.hist[id].delays))
  {
    OneRelayReachable(r, now, run);
    var s := Run(Init({r}, now), run);
    var row, h, held := s.store.outbox[id], s.hist[id], id in Ids(Held(s.relays[r]));
    assert RowAccount(s, r, id);
    assert RowOk(id, row, s.stream, s.now);
    AccountBounds(row, h, held);
  }

  lemma AccountBounds(row: Row, h: History, held: bool)
    requires Account(row, h, held) && (row.status.Dead? ==> row.attempts >= MAX_ATTEMPTS)
    ensures Sum(h.delays) <= 810 * SECOND
    ensures row.status.Dead? && h.lost == 0 ==> |h.delays| == 9 && 18 * SECOND <= Sum(h.delays)
  {
    LongestDelays9();
    var base := row.attempts - (if held || !row.status.Pending? then 1 else 0);
    LongestDelaysMonotone(if base < 9 then base else 9, 9);
  }

  /** Terminal statuses are absorbing: once a row is dispatched or dead, no crash, retry or
      partial push changes it, and no later step of the relay claims it or sends, marks or
      loses a batch that contains it. */
  lemma TerminalIsAbsorbing(r: nat, now: int, before: seq<Label>, after: seq<Label>, id: nat)
    requires CanRun(Init({r}, now), before) && CanRun(Run(Init({r}, now), before), after)
    requires id in Run(Init({r}, now), before).store.outbox
    requires !Run(Init({r}, now), before).store.outbox[id].status.Pending?
    ensures var s, s' := Run(Init({r}, now), before), Run(Run(Init({r}, now), before), after);
      && id in s'.store.outbox && s'.store.outbox[id] == s.store.outbox[id]
      && id in s.hist && id in s'.hist && s'.hist[id] == s.hist[id]
    ensures forall i :: 0 <= i < |after| ==>
      CanRun(Run(Init({r}, now), before), after[..i]) &&
      Spares(Run(Run(Init({r}, now), before), after[..i]), after[i], id)
  {
    OneRelayReachable(r, now, before);
    var s := Run(Init({r}, now), before);
    assert RowAccount(s, r, id);
    assert !HeldBySomeone(s, id);
    SettledForever(s, after, id);
    forall i | 0 <= i < |after| ensures CanRun(s, after[..i]) && Spares(Run(s, after[..i]), after[i], id) {
      SparesAllAt(s, after, id, i);
    }
  }
}
