/** The relay's method follows the protocol: whatever one call of `process` does to the
    outbox and the stream is a run of the protocol's steps by that relay. */
module RelayRefinement {
  import opened Outbox
  import opened Stream
  import opened RelayProtocol
  import opened Relay

  /** The labels of a round, in the order the code performs them. */
  function LabelsOf(r: nat, round: Round): seq<Label> {
    match round
    case Nothing => []
    case Claimed(claimAt, locked, events, entries, ok, marked, markAt, msg) =>
      [Tick(claimAt), Claim(r, locked, events), Send(r)] + Landings(entries)
      + [if ok then PushOk(r) else PushErr(r), Tick(markAt), if marked then Mark(r, msg) else Drop(r)]
  }

  lemma ThreeSteps(s: State, a: Label, b: Label, c: Label)
    requires Enabled(s, a) && Enabled(Apply(s, a), b) && Enabled(Apply(Apply(s, a), b), c)
    ensures CanRun(s, [a, b, c]) && Run(s, [a, b, c]) == Apply(Apply(Apply(s, a), b), c)
  {
    var s1, s2 := Apply(s, a), Apply(Apply(s, a), b);
    RunCons(s2, c, []);
    assert [c] + [] == [c] && [b] + [c] == [b, c] && [a] + [b, c] == [a, b, c];
    RunCons(s1, b, [c]);
    RunCons(s, a, [b, c]);
  }

  /** Claim and start of the pipeline. */
  lemma FirstHalf(s: State, r: nat, round: Round)
    requires round.Claimed? && ValidRound(s.store.outbox, round)
    requires r in s.relays && s.relays[r].Idle? && s.now <= round.claimAt
    requires round.locked != {} ==> exists q :: q in s.relays && q != r
    ensures CanRun(s, [Tick(round.claimAt), Claim(r, round.locked, round.events), Send(r)])
    ensures var s' := Run(s, [Tick(round.claimAt), Claim(r, round.locked, round.events), Send(r)]);
      && s'.now == round.claimAt
      && s'.store == s.store.(outbox := Bump(s.store.outbox, Ids(round.events)))
      && s'.relays == s.relays[r := Pushing(round.events, |s.stream|)]
      && s'.stream == s.stream
      && (forall e :: e in round.entries ==> e in s'.sent)
  {
    ThreeSteps(s, Tick(round.claimAt), Claim(r, round.locked, round.events), Send(r));
  }

  /** Answer of the pipeline, then the mark or whatever cut it off. */
  lemma SecondHalf(s: State, r: nat, round: Round, from: nat)
    requires round.Claimed? && r in s.relays && s.relays[r] == Pushing(round.events, from)
    requires from <= |s.stream| && s.stream[from..] == round.entries && s.now <= round.markAt
    requires round.ok ==> forall ev :: ev in round.events ==> EventEntry(ev) in round.entries
    ensures var answer := if round.ok then PushOk(r) else PushErr(r);
      var end := if round.marked then Mark(r, round.msg) else Drop(r);
      && CanRun(s, [answer, Tick(round.markAt), end])
      && var s' := Run(s, [answer, Tick(round.markAt), end]);
      && s'.store == s.store.(outbox :=
           if round.marked then MarkBatch(s.store.outbox, round.events, round.ok, round.markAt, round.msg)
           else s.store.outbox)
      && s'.relays == s.relays[r := Idle]
      && s'.stream == s.stream
  {
    if round.ok {
      forall ev | ev in round.events ensures exists k :: from <= k < |s.stream| && s.stream[k] == EventEntry(ev) {
        var i :| 0 <= i < |round.entries| && round.entries[i] == EventEntry(ev);
        assert s.stream[from + i] == EventEntry(ev);
      }
    }
    ThreeSteps(s, if round.ok then PushOk(r) else PushErr(r), Tick(round.markAt),
               if round.marked then Mark(r, round.msg) else Drop(r));
  }

  /** Every round the relay's code can perform, with whatever the database and Redis answer,
      is a run of the protocol with the same outbox and the same stream; a marked round is
      one mark, an unmarked one counts as lost. */
  lemma RoundIsRun(s: State, r: nat, round: Round)
    requires ValidRound(s.store.outbox, round)
    requires r in s.relays && s.relays[r].Idle?
    requires round.Claimed? ==> s.now <= round.claimAt
    requires round.Claimed? && round.locked != {} ==> exists q :: q in s.relays && q != r
    ensures CanRun(s, LabelsOf(r, round))
    ensures var s' := Run(s, LabelsOf(r, round));
      && s'.store == s.store.(outbox := OutboxAfter(s.store.outbox, round))
      && s'.stream == s.stream + EntriesOf(round)
      && s'.relays == s.relays
    ensures round.Claimed? ==>
      LabelsOf(r, round)[|LabelsOf(r, round)| - 1] == if round.marked then Mark(r, round.msg) else Drop(r)
  {
    if round.Claimed? {
      FirstHalf(s, r, round);
      var first := [Tick(round.claimAt), Claim(r, round.locked, round.events), Send(r)];
      var s1 := Run(s, first);
      LandingsRun(s1, round.entries);
      RunConcat(s, first, Landings(round.entries));
      var s2 := Run(s, first + Landings(round.entries));
      assert s2.stream[|s.stream|..] == round.entries;
      SecondHalf(s2, r, round, |s.stream|);
      RunConcat(s, first + Landings(round.entries),
        [if round.ok then PushOk(r) else PushErr(r), Tick(round.markAt),
         if round.marked then Mark(r, round.msg) else Drop(r)]);
      assert s.relays[r := Pushing(round.events, |s.stream|)][r := Idle] == s.relays;
    }
  }
}
