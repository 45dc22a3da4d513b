/** The webhook worker: one pass of the loop in Run, and handle. */
module WebhookWorker {
  import opened Common
  import opened Decimal
  import opened Stream
  import C = ConsumerProtocol

  /** What Redis and the webhook answer during one pass. */
  datatype Faults = Faults(read: bool, setNx: bool, setNxApplied: bool, newRequest: bool, reply: C.Reply, ack: bool)

  /** Some earlier entry's claim of this outbox id is still in force. */
  predicate Claimed(dedupe: map<string, int>, id: int, now: int) {
    C.DedupeKey(id) in dedupe && now < dedupe[C.DedupeKey(id)]
  }

  /** The webhook is called for entry e. */
  predicate Calls(e: Entry, dedupe: map<string, int>, now: int, f: Faults) {
    && Decode(e).Some? && !f.setNx && !Claimed(dedupe, Decode(e).value, now)
    && e.body.value.Json? && !f.newRequest
  }

  /** The call made for entry k. */
  predicate IsPost(post: C.Post, e: Entry, k: nat, reply: C.Reply) {
    && Decode(e).Some? && e.body.Some? && e.body.value.Json?
    && post.entry == k && post.id == Decode(e).value && post.reply == reply
    && post.body == e.body.value && post.idempotencyKey == e.body.value.event.checkId
  }

  /** handle returns nil: the call was accepted, or the id is already claimed. */
  predicate Succeeds(e: Entry, dedupe: map<string, int>, now: int, f: Faults) {
    || (Decode(e).Some? && !f.setNx && Claimed(dedupe, Decode(e).value, now))
    || (Calls(e, dedupe, now, f) && C.Accepted(f.reply))
  }

  /** Redis as the group sees it, and the history of claims and of httpClient.Do calls. */
  class Worker {
    var delivered: nat
    var pel: set<nat>
    var acked: set<nat>
    var dedupe: map<string, int>
    ghost var wins: seq<C.Win>
    ghost var posts: seq<C.Post>

    constructor ()
      ensures View(0, C.Ready) == C.Init({0}, 0)
    {
      delivered, pel, acked, dedupe, wins, posts := 0, {}, {}, map[], [], [];
    }

    /** The protocol state with this worker, number 0, in phase p. */
    ghost function View(now: int, p: C.Phase): C.State
      reads this
    {
      C.State(now, delivered, pel, acked, map[0 := p], dedupe, wins, posts)
    }

    /** One pass of the loop: read the next undelivered entry of S, handle it, and acknowledge
        it if handle returned nil. The pass is a run of the protocol. */
    method Poll(S: seq<Entry>, ghost before: int, now: int, f: Faults) returns (ghost run: seq<C.Label>)
      requires before <= now
      modifies this
      ensures C.CanRun(S, old(View(before, C.Ready)), run)
      ensures View(now, C.Ready) == C.Run(S, old(View(before, C.Ready)), run)
      // the next entry is delivered once, and acknowledged exactly if handle succeeded
      ensures old(delivered) >= |S| || f.read ==> View(now, C.Ready) == old(View(now, C.Ready))
      ensures old(delivered) < |S| && !f.read ==>
        var e, k := S[old(delivered)], old(delivered);
        && delivered == k + 1
        && acked == old(acked) + (if Succeeds(e, old(dedupe), now, f) && !f.ack then {k} else {})
        && |posts| == |old(posts)| + (if Calls(e, old(dedupe), now, f) then 1 else 0)
      // the webhook is called for a well-formed entry whose id is not claimed, with its body
      ensures old(delivered) < |S| && !f.read ==>
        var k, e := old(delivered), S[old(delivered)];
        && e.body.Some? && e.body.value.Json?
        && e.outboxId.Some? && ParseInt64(e.outboxId.value).Some?
        && !f.setNx && !f.newRequest
        && (var key := "processed:" + FormatInt(ParseInt64(e.outboxId.value).value);
            key !in old(dedupe) || old(dedupe)[key] <= now)
        ==>
          && |posts| == |old(posts)| + 1
          && var post := posts[|old(posts)|];
          && post.entry == k && post.id == ParseInt64(e.outboxId.value).value && post.reply == f.reply
          && post.body == e.body.value && post.idempotencyKey == e.body.value.event.checkId
      // an entry whose id is already claimed is acknowledged without a call
      ensures old(delivered) < |S| && !f.read ==>
        var k, e := old(delivered), S[old(delivered)];
        && e.body.Some? && e.outboxId.Some? && ParseInt64(e.outboxId.value).Some? && !f.setNx && !f.ack
        && (var key := "processed:" + FormatInt(ParseInt64(e.outboxId.value).value);
            key in old(dedupe) && now < old(dedupe)[key])
        ==>
          posts == old(posts) && acked == old(acked) + {k}
      // one that is malformed, or whose claim fails, is neither sent nor acknowledged
      ensures old(delivered) < |S| && !f.read ==>
        var k, e := old(delivered), S[old(delivered)];
        e.body.None? || e.outboxId.None? || ParseInt64(e.outboxId.value).None? || f.setNx ==>
          posts == old(posts) && acked == old(acked) && pel == old(pel) + {k}
      // and after a call the entry stays pending unless the answer is 2xx
      ensures old(delivered) < |S| && !f.read && |posts| > |old(posts)| ==>
        var k := old(delivered);
        && (f.reply.NoResponse? || f.reply.code < 200 || f.reply.code > 299 || f.ack ==>
              acked == old(acked) && pel == old(pel) + {k})
        && (f.reply.Status? && 200 <= f.reply.code <= 299 && !f.ack ==> acked == old(acked) + {k} && pel == old(pel) - {k})
    {
      ghost var s0 := View(before, C.Ready);
      run := [C.Tick(now)];
      C.RunSnoc(S, s0, [], C.Tick(now));
      assert [] + run == run;
      assert C.Run(S, s0, run) == View(now, C.Ready);
      if f.read || delivered >= |S| { return; }

      var k := delivered;
      C.RunSnoc(S, s0, run, C.Deliver(0));
      run := run + [C.Deliver(0)];
      delivered := k + 1;
      pel := pel + {k};
      assert C.Run(S, s0, run) == View(now, C.Reading(k)) by {
        assert map[0 := C.Ready][0 := C.Reading(k)] == map[0 := C.Reading(k)];
      }

      var err, steps := Handle(S, k, now, f);
      run := Append(S, s0, run, steps);
      steps := Acknowledge(S, k, err.None?, now, f);
      run := Append(S, s0, run, steps);
    }

    /** XACK of entry k, unless handle failed; its own failure is ignored. */
    method Acknowledge(S: seq<Entry>, k: nat, ok: bool, now: int, f: Faults) returns (ghost steps: seq<C.Label>)
      requires k < |S|
      modifies this`acked, this`pel
      ensures acked == old(acked) + (if ok && !f.ack then {k} else {})
      ensures pel == old(pel) - (if ok && !f.ack then {k} else {})
      ensures C.CanRun(S, old(View(now, C.Handled(k, ok))), steps)
      ensures View(now, C.Ready) == C.Run(S, old(View(now, C.Handled(k, ok))), steps)
    {
      steps := One(S, View(now, C.Handled(k, ok)), if ok && !f.ack then C.Ack(0) else C.SkipAck(0));
      assert map[0 := C.Handled(k, ok)][0 := C.Ready] == map[0 := C.Ready];
      if ok && !f.ack {
        acked := acked + {k};
        pel := pel - {k};
      }
    }

    static lemma {:induction false} Append(S: seq<Entry>, s: C.State, run: seq<C.Label>, rest: seq<C.Label>) returns (all: seq<C.Label>)
      requires C.CanRun(S, s, run) && C.CanRun(S, C.Run(S, s, run), rest)
      ensures C.CanRun(S, s, all) && C.Run(S, s, all) == C.Run(S, C.Run(S, s, run), rest)
      decreases |rest|
    {
      if rest == [] {
        all := run;
      } else {
        C.RunSnoc(S, s, run, rest[0]);
        all := Append(S, s, run + [rest[0]], rest[1..]);
      }
    }

    /** handle, for entry k of S. */
    method Handle(S: seq<Entry>, k: nat, now: int, f: Faults) returns (err: Option<Error>, ghost steps: seq<C.Label>)
      requires k < |S|
      modifies this`dedupe, this`wins, this`posts
      ensures C.CanRun(S, old(View(now, C.Reading(k))), steps)
      ensures View(now, C.Handled(k, err.None?)) == C.Run(S, old(View(now, C.Reading(k))), steps)
      ensures err.None? <==> Succeeds(S[k], old(dedupe), now, f)
      ensures |posts| == |old(posts)| + (if Calls(S[k], old(dedupe), now, f) then 1 else 0)
      ensures Calls(S[k], old(dedupe), now, f) ==>
        && old(posts) <= posts && IsPost(posts[|old(posts)|], S[k], k, f.reply)
      ensures posts != old(posts) ==> (err.None? <==> f.reply.Status? && 200 <= f.reply.code <= 299)
      ensures !Calls(S[k], old(dedupe), now, f) ==> posts == old(posts)
    {
      var outboxId := ReadFields(S[k]);
      if outboxId.None? {
        steps := One(S, View(now, C.Reading(k)), C.Refuse(0));
        assert map[0 := C.Reading(k)][0 := C.Handled(k, false)] == map[0 := C.Handled(k, false)];
        return Some(BadMessage), steps;
      }
      err, steps := Notify(S, k, outboxId.value, now, f);
    }

    /** The checks on the entry's fields. */
    static method ReadFields(e: Entry) returns (outboxId: Option<int>)
      ensures outboxId == Decode(e)
    {
      if e.body.None? { return None; }
      if e.outboxId.None? { return None; }
      outboxId := ParseInt64(e.outboxId.value);
    }

    /** The rest of handle, for a well-formed entry. */
    method Notify(S: seq<Entry>, k: nat, outboxId: int, now: int, f: Faults)
      returns (err: Option<Error>, ghost steps: seq<C.Label>)
      requires k < |S| && Decode(S[k]) == Some(outboxId)
      modifies this`dedupe, this`wins, this`posts
      ensures C.CanRun(S, old(View(now, C.Reading(k))), steps)
      ensures View(now, C.Handled(k, err.None?)) == C.Run(S, old(View(now, C.Reading(k))), steps)
      ensures err.None? <==> Succeeds(S[k], old(dedupe), now, f)
      ensures |posts| == |old(posts)| + (if Calls(S[k], old(dedupe), now, f) then 1 else 0)
      ensures Calls(S[k], old(dedupe), now, f) ==>
        && old(posts) <= posts && IsPost(posts[|old(posts)|], S[k], k, f.reply)
      ensures !Calls(S[k], old(dedupe), now, f) ==> posts == old(posts)
    {
      ghost var s0 := View(now, C.Reading(k));
      var okNX;
      okNX, steps := SetNX(S, k, outboxId, now, f);
      if okNX.Err? { return Some(okNX.error), steps; }
      if !okNX.value { return None, steps; }
      ghost var more;
      err, more := Send(S, k, |wins| - 1, outboxId, now, f);
      steps := Append(S, s0, steps, more);
    }

    /** Claim the outbox id for one TTL unless it is claimed already. */
    method SetNX(S: seq<Entry>, k: nat, outboxId: int, now: int, f: Faults)
      returns (r: Result<bool>, ghost steps: seq<C.Label>)
      requires k < |S| && Decode(S[k]) == Some(outboxId)
      modifies this`dedupe, this`wins
      ensures r == if f.setNx then Err(RedisFailed) else Ok(!Claimed(old(dedupe), outboxId, now))
      ensures r == Ok(true) ==> wins == old(wins) + [C.Win(outboxId, now, k)]
      ensures r == Ok(true) ==>
        dedupe == old(dedupe)["processed:" + FormatInt(outboxId) := now + 24 * 60 * 60 * 1_000_000_000]
      ensures C.CanRun(S, old(View(now, C.Reading(k))), steps)
      ensures C.Run(S, old(View(now, C.Reading(k))), steps) ==
        View(now, if r == Ok(true) then C.Winner(k, |old(wins)|) else C.Handled(k, r.Ok?))
    {
      ghost var s0 := View(now, C.Reading(k));
      steps := ExpireKey(S, k, C.DedupeKey(outboxId), now);
      ghost var more;
      r, more := SetAbsent(S, k, outboxId, now, f);
      steps := Append(S, s0, steps, more);
    }

    /** Redis drops a key whose time is up before it looks at it. */
    method ExpireKey(S: seq<Entry>, ghost k: nat, key: string, now: int) returns (ghost steps: seq<C.Label>)
      modifies this`dedupe
      ensures dedupe == if key in old(dedupe) && old(dedupe)[key] <= now then old(dedupe) - {key} else old(dedupe)
      ensures C.CanRun(S, old(View(now, C.Reading(k))), steps)
      ensures C.Run(S, old(View(now, C.Reading(k))), steps) == View(now, C.Reading(k))
    {
      steps := [];
      if key in dedupe && dedupe[key] <= now {
        steps := One(S, View(now, C.Reading(k)), C.Expire(key));
        dedupe := dedupe - {key};
      }
    }

    /** SET NX of the dedupe key, and its answer. */
    method SetAbsent(S: seq<Entry>, k: nat, outboxId: int, now: int, f: Faults)
      returns (r: Result<bool>, ghost steps: seq<C.Label>)
      requires k < |S| && Decode(S[k]) == Some(outboxId)
      modifies this`dedupe, this`wins
      ensures r == if f.setNx then Err(RedisFailed) else Ok(C.DedupeKey(outboxId) !in old(dedupe))
      ensures r == Ok(true) ==> wins == old(wins) + [C.Win(outboxId, now, k)]
      ensures r == Ok(true) ==>
        dedupe == old(dedupe)["processed:" + FormatInt(outboxId) := now + 24 * 60 * 60 * 1_000_000_000]
      ensures C.CanRun(S, old(View(now, C.Reading(k))), steps)
      ensures C.Run(S, old(View(now, C.Reading(k))), steps) ==
        View(now, if r == Ok(true) then C.Winner(k, |old(wins)|) else C.Handled(k, r.Ok?))
    {
      ghost var s0 := View(now, C.Reading(k));
      var key := C.DedupeKey(outboxId);
      steps := One(S, s0, if f.setNx then C.SetNxErr(0, f.setNxApplied) else C.SetNx(0));
      var absent := key !in dedupe;
      if absent && (!f.setNx || f.setNxApplied) {
        dedupe := dedupe[key := now + C.DEDUPE_TTL];
        wins := wins + [C.Win(outboxId, now, k)];
      }
      r := if f.setNx then Err(RedisFailed) else Ok(absent);
      ghost var p := if r == Ok(true) then C.Winner(k, |old(wins)|) else C.Handled(k, r.Ok?);
      assert map[0 := C.Reading(k)][0 := p] == map[0 := p];
    }

    /** Build the request and send it; anything but a 2xx answer is an error. */
    method Send(S: seq<Entry>, k: nat, ghost win: nat, ghost outboxId: int, now: int, f: Faults)
      returns (err: Option<Error>, ghost steps: seq<C.Label>)
      requires k < |S| && Decode(S[k]) == Some(outboxId)
      modifies this`posts
      ensures err.None? <==> S[k].body.value.Json? && !f.newRequest && C.Accepted(f.reply)
      ensures err.None? <==>
        S[k].body.value.Json? && !f.newRequest && f.reply.Status? && 200 <= f.reply.code <= 299
      ensures posts == old(posts) +
        if S[k].body.value.Json? && !f.newRequest
        then [C.Post(k, win, outboxId, S[k].body.value.event.checkId, S[k].body.value, f.reply)] else []
      ensures C.CanRun(S, old(View(now, C.Winner(k, win))), steps)
      ensures C.Run(S, old(View(now, C.Winner(k, win))), steps) == View(now, C.Handled(k, err.None?))
    {
      ghost var s0 := View(now, C.Winner(k, win));
      var body := S[k].body.value;
      assert forall p: C.Phase :: map[0 := C.Winner(k, win)][0 := p] == map[0 := p];
      if body.Garbage? || f.newRequest {
        steps := One(S, s0, C.GiveUp(0));
        return Some(if body.Garbage? then BadMessage else HttpFailed), steps;
      }
      steps := One(S, s0, C.Do(0, f.reply));
      posts := posts + [C.Post(k, win, outboxId, body.event.checkId, body, f.reply)];
      match f.reply
      case NoResponse => return Some(HttpFailed), steps;
      case Status(code) =>
        if code < 200 || code >= 300 { return Some(HttpFailed), steps; }
        return None, steps;
    }

    static lemma One(S: seq<Entry>, s: C.State, l: C.Label) returns (run: seq<C.Label>)
      requires C.Enabled(S, s, l)
      ensures C.CanRun(S, s, run) && C.Run(S, s, run) == C.Apply(S, s, l)
    {
      C.RunSnoc(S, s, [], l);
      run := [] + [l];
    }
  }
}
