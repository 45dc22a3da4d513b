/** Webhook workers of one consumer group as interleaved atomic steps over a stream that
    others append to. */
module ConsumerProtocol {
  import opened Common
  import opened Decimal
  import opened RetryDelay
  import opened Outbox
  import opened Stream

  const DEDUPE_TTL: int := 24 * 60 * 60 * SECOND

  /** What httpClient.Do came back with. */
  datatype Reply = NoResponse | Status(code: int)

  predicate Accepted(reply: Reply) {
    reply.Status? && 200 <= reply.code < 300
  }

  datatype Phase =
    | Ready
    | Reading(k: nat)            // entry k was delivered to this worker
    | Winner(k: nat, win: nat)   // and its dedupe key was set, the win-th time any was
    | Handled(k: nat, ok: bool)  // handle returned

  /** A successful SETNX. */
  datatype Win = Win(id: int, at: int, entry: nat)

  /** A call of httpClient.Do. */
  datatype Post = Post(entry: nat, win: nat, id: int, idempotencyKey: nat, body: Body, reply: Reply)

  datatype State = State(now: int, delivered: nat, pel: set<nat>, acked: set<nat>, workers: map<nat, Phase>,
                         dedupe: map<string, int>, wins: seq<Win>, posts: seq<Post>)

  datatype Label =
    | Tick(to: int)
    | Expire(key: string)
    | Deliver(w: nat)
    | Refuse(w: nat)
    | SetNx(w: nat)
    | SetNxErr(w: nat, applied: bool)
    | Do(w: nat, reply: Reply)
    | GiveUp(w: nat)
    | Ack(w: nat)
    | SkipAck(w: nat)
    | Crash(w: nat)

  function DedupeKey(id: int): string {
    "processed:" + FormatInt(id)
  }

  lemma DedupeKeyInjective(a: int, b: int)
    requires DedupeKey(a) == DedupeKey(b)
    ensures a == b
  {
    assert DedupeKey(a)[10..] == FormatInt(a) && DedupeKey(b)[10..] == FormatInt(b);
    FormatInjective(a, b);
  }

  function Init(workers: set<nat>, now: int): State {
    State(now, 0, {}, {}, map w | w in workers :: Ready, map[], [], [])
  }

  predicate AtEntry(S: seq<Entry>, s: State, w: nat) {
    w in s.workers && !s.workers[w].Ready? && s.workers[w].k < |S|
  }

  predicate Enabled(S: seq<Entry>, s: State, l: Label) {
    match l
    case Tick(to) => s.now <= to
    case Expire(key) => key in s.dedupe && s.dedupe[key] <= s.now
    case Deliver(w) => w in s.workers && s.workers[w].Ready? && s.delivered < |S|
    case Refuse(w) => AtEntry(S, s, w) && s.workers[w].Reading? && Decode(S[s.workers[w].k]).None?
    case SetNx(w) => AtEntry(S, s, w) && s.workers[w].Reading? && Decode(S[s.workers[w].k]).Some?
    case SetNxErr(w, _) => AtEntry(S, s, w) && s.workers[w].Reading? && Decode(S[s.workers[w].k]).Some?
    case Do(w, _) =>
      AtEntry(S, s, w) && s.workers[w].Winner? && Decode(S[s.workers[w].k]).Some? &&
      S[s.workers[w].k].body.value.Json?
    case GiveUp(w) => AtEntry(S, s, w) && s.workers[w].Winner?
    case Ack(w) => AtEntry(S, s, w) && s.workers[w].Handled? && s.workers[w].ok
    case SkipAck(w) => AtEntry(S, s, w) && s.workers[w].Handled?
    case Crash(w) => w in s.workers
  }

  /** SET key 1 NX EX ttl for an absent key. */
  function Acquire(s: State, id: int, k: nat): State {
    s.(dedupe := s.dedupe[DedupeKey(id) := s.now + DEDUPE_TTL], wins := s.wins + [Win(id, s.now, k)])
  }

  function Become(s: State, w: nat, p: Phase): State {
    s.(workers := s.workers[w := p])
  }

  function Apply(S: seq<Entry>, s: State, l: Label): State
    requires Enabled(S, s, l)
  {
    match l
    case Tick(to) => s.(now := to)
    case Expire(key) => s.(dedupe := s.dedupe - {key})
    case Deliver(w) =>
      Become(s.(delivered := s.delivered + 1, pel := s.pel + {s.delivered}), w, Reading(s.delivered))
    case Refuse(w) => Become(s, w, Handled(s.workers[w].k, false))
    case SetNx(w) =>
      var k := s.workers[w].k;
      var id := Decode(S[k]).value;
      if DedupeKey(id) in s.dedupe then Become(s, w, Handled(k, true))
      else Become(Acquire(s, id, k), w, Winner(k, |s.wins|))
    case SetNxErr(w, applied) =>
      var k := s.workers[w].k;
      var id := Decode(S[k]).value;
      Become(if applied && DedupeKey(id) !in s.dedupe then Acquire(s, id, k) else s, w, Handled(k, false))
    case Do(w, reply) =>
      var k := s.workers[w].k;
      var body := S[k].body.value;
      var post := Post(k, s.workers[w].win, Decode(S[k]).value, body.event.checkId, body, reply);
      Become(s.(posts := s.posts + [post]), w, Handled(k, Accepted(reply)))
    case GiveUp(w) => Become(s, w, Handled(s.workers[w].k, false))
    case Ack(w) =>
      var k := s.workers[w].k;
      Become(s.(acked := s.acked + {k}, pel := s.pel - {k}), w, Ready)
    case SkipAck(w) => Become(s, w, Ready)
    case Crash(w) => Become(s, w, Ready)
  }

  predicate CanRun(S: seq<Entry>, s: State, run: seq<Label>)
    decreases |run|
  {
    run == [] || (Enabled(S, s, run[0]) && CanRun(S, Apply(S, s, run[0]), run[1..]))
  }

  function Run(S: seq<Entry>, s: State, run: seq<Label>): State
    requires CanRun(S, s, run)
    decreases |run|
  {
    if run == [] then s else Run(S, Apply(S, s, run[0]), run[1..])
  }

  lemma {:induction false} RunSnoc(S: seq<Entry>, s: State, run: seq<Label>, l: Label)
    requires CanRun(S, s, run) && Enabled(S, Run(S, s, run), l)
    ensures CanRun(S, s, run + [l]) && Run(S, s, run + [l]) == Apply(S, Run(S, s, run), l)
    decreases |run|
  {
    if run == [] {
      assert [] + [l] == [l] && [l][1..] == [];
    } else {
      RunSnoc(S, Apply(S, s, run[0]), run[1..], l);
      assert (run + [l])[1..] == run[1..] + [l];
    }
  }

  // ----- accounting: who has which entry -----

  predicate Has(s: State, w: nat, k: nat) {
    w in s.workers && !s.workers[w].Ready? && s.workers[w].k == k
  }

  /** Entries below the group's cursor are pending or acknowledged, never both; an entry in a
      worker's hands is pending, and in no other worker's hands. */
  ghost predicate GroupOk(S: seq<Entry>, s: State) {
    && s.delivered <= |S|
    && (forall k: nat :: k in s.pel <==> k < s.delivered && k !in s.acked)
    && (forall k :: k in s.acked ==> k < s.delivered)
    && (forall w, k :: Has(s, w, k) ==> k in s.pel)
    && (forall v, w, k :: Has(s, v, k) && Has(s, w, k) ==> v == w)
  }

  lemma GroupStep(S: seq<Entry>, s: State, l: Label)
    requires GroupOk(S, s) && Enabled(S, s, l)
    ensures GroupOk(S, Apply(S, s, l))
  {
    var s' := Apply(S, s, l);
    forall w, k | Has(s', w, k) && !Has(s, w, k) ensures l.Deliver? && l.w == w && k == s.delivered { }
    if l.Ack? {
      assert Has(s, l.w, s.workers[l.w].k);
      forall w, k | Has(s', w, k) ensures Has(s, w, k) && w != l.w { }
    }
  }

  // ----- wins and posts -----

  ghost predicate WinOk(S: seq<Entry>, s: State, i: nat)
    requires i < |s.wins|
  {
    var win := s.wins[i];
    && win.entry < s.delivered && win.entry < |S|
    && Decode(S[win.entry]) == Some(win.id)
    && win.at <= s.now
    // the key is still set, unless its time is up
    && (win.at + DEDUPE_TTL <= s.now ||
         (DedupeKey(win.id) in s.dedupe && win.at + DEDUPE_TTL <= s.dedupe[DedupeKey(win.id)]))
  }

  ghost predicate WinsSound(S: seq<Entry>, s: State) {
    forall i :: 0 <= i < |s.wins| ==> WinOk(S, s, i)
  }

  /** No entry wins twice, and wins of the same id are a TTL apart. */
  ghost predicate WinsApart(s: State) {
    && (forall i, j :: 0 <= i < j < |s.wins| ==> s.wins[i].entry != s.wins[j].entry)
    && (forall i, j :: 0 <= i < j < |s.wins| && s.wins[i].id == s.wins[j].id ==>
          s.wins[i].at + DEDUPE_TTL <= s.wins[j].at)
  }

  ghost predicate WonBefore(s: State, key: string) {
    exists i :: 0 <= i < |s.wins| && DedupeKey(s.wins[i].id) == key
  }

  ghost predicate KeysWon(s: State) {
    forall key :: key in s.dedupe ==> WonBefore(s, key)
  }

  ghost predicate PhasesOk(s: State) {
    && (forall w, i :: w in s.workers && s.workers[w].Reading? && 0 <= i < |s.wins| ==>
          s.wins[i].entry != s.workers[w].k)
    && (forall w :: w in s.workers && s.workers[w].Winner? ==>
          s.workers[w].win < |s.wins| && s.wins[s.workers[w].win].entry == s.workers[w].k)
  }

  ghost predicate WinsOk(S: seq<Entry>, s: State) {
    WinsSound(S, s) && WinsApart(s) && KeysWon(s) && PhasesOk(s)
  }

  ghost predicate PostOk(S: seq<Entry>, s: State, p: Post) {
    && p.win < |s.wins| && p.entry < |S|
    && s.wins[p.win].entry == p.entry && s.wins[p.win].id == p.id
    && Decode(S[p.entry]) == Some(p.id)
    && S[p.entry].body == Some(p.body)
    && p.body.Json? && p.idempotencyKey == p.body.event.checkId
  }

  ghost predicate PostsOk(S: seq<Entry>, s: State) {
    && (forall i :: 0 <= i < |s.posts| ==> PostOk(S, s, s.posts[i]))
    && (forall i, j :: 0 <= i < j < |s.posts| ==> s.posts[i].win != s.posts[j].win)
    && (forall w, i :: w in s.workers && s.workers[w].Winner? && 0 <= i < |s.posts| ==>
          s.posts[i].win != s.workers[w].win)
  }

  /** What entitles entry k to an acknowledgement: its own POST was accepted, or another
      entry had already claimed its outbox id. */
  ghost predicate Entitled(S: seq<Entry>, s: State, k: nat) {
    || (exists i :: 0 <= i < |s.posts| && s.posts[i].entry == k && Accepted(s.posts[i].reply))
    || (exists i :: 0 <= i < |s.wins| && s.wins[i].entry != k && k < |S| && Decode(S[k]) == Some(s.wins[i].id))
  }

  ghost predicate AcksOk(S: seq<Entry>, s: State) {
    && (forall k :: k in s.acked ==> Entitled(S, s, k))
    && (forall w :: w in s.workers && s.workers[w].Handled? && s.workers[w].ok ==> Entitled(S, s, s.workers[w].k))
  }

  /** Does this step set a dedupe key? */
  predicate Acquires(S: seq<Entry>, s: State, l: Label)
    requires Enabled(S, s, l)
  {
    && (l.SetNx? || (l.SetNxErr? && l.applied))
    && DedupeKey(Decode(S[s.workers[l.w].k]).value) !in s.dedupe
  }

  lemma AcquireSound(S: seq<Entry>, s: State, id: int, k: nat)
    requires WinsSound(S, s) && k < s.delivered <= |S| && Decode(S[k]) == Some(id) && DedupeKey(id) !in s.dedupe
    ensures WinsSound(S, Acquire(s, id, k))
    ensures forall i :: 0 <= i < |s.wins| && s.wins[i].id == id ==> s.wins[i].at + DEDUPE_TTL <= s.now
  {
    var s' := Acquire(s, id, k);
    forall i | 0 <= i < |s'.wins| ensures WinOk(S, s', i) {
      if i < |s.wins| {
        assert WinOk(S, s, i);
        if DedupeKey(s.wins[i].id) == DedupeKey(id) { DedupeKeyInjective(s.wins[i].id, id); }
      }
    }
    forall i | 0 <= i < |s.wins| && s.wins[i].id == id ensures s.wins[i].at + DEDUPE_TTL <= s.now {
      assert WinOk(S, s, i);
    }
  }

  lemma AcquireKeys(s: State, id: int, k: nat)
    requires KeysWon(s)
    ensures KeysWon(Acquire(s, id, k))
  {
    var s' := Acquire(s, id, k);
    forall key | key in s'.dedupe ensures WonBefore(s', key) {
      if key == DedupeKey(id) {
        assert DedupeKey(s'.wins[|s.wins|].id) == key;
      } else {
        assert WonBefore(s, key);
        var i :| 0 <= i < |s.wins| && DedupeKey(s.wins[i].id) == key;
        assert s'.wins[i] == s.wins[i];
      }
    }
  }

  lemma AcquirePhases(S: seq<Entry>, s: State, l: Label)
    requires GroupOk(S, s) && PhasesOk(s) && Enabled(S, s, l) && Acquires(S, s, l)
    ensures PhasesOk(Apply(S, s, l))
  {
    var s' := Apply(S, s, l);
    var k := s.workers[l.w].k;
    assert Has(s, l.w, k);
    forall w | w in s'.workers && s'.workers[w].Reading? ensures s'.workers[w].k != k {
      assert Has(s, w, s.workers[w].k);
    }
  }

  /** Wins and keys do not depend on the workers. */
  lemma WorkersIrrelevant(S: seq<Entry>, t: State, s: State)
    requires s == t.(workers := s.workers)
    ensures WinsSound(S, t) ==> WinsSound(S, s)
    ensures KeysWon(t) ==> KeysWon(s)
  {
    if WinsSound(S, t) {
      forall i | 0 <= i < |s.wins| ensures WinOk(S, s, i) { assert WinOk(S, t, i); }
    }
    if KeysWon(t) {
      forall key | key in s.dedupe ensures WonBefore(s, key) { assert WonBefore(t, key); }
    }
  }

  lemma AcquireApart(S: seq<Entry>, s: State, l: Label)
    requires GroupOk(S, s) && WinsSound(S, s) && WinsApart(s) && PhasesOk(s) && Enabled(S, s, l) && Acquires(S, s, l)
    ensures WinsApart(Apply(S, s, l))
  {
    var k := s.workers[l.w].k;
    assert Has(s, l.w, k);
    AcquireSound(S, s, Decode(S[k]).value, k);
  }

  lemma AcquireWins(S: seq<Entry>, s: State, l: Label)
    requires GroupOk(S, s) && WinsOk(S, s) && Enabled(S, s, l) && Acquires(S, s, l)
    ensures WinsOk(S, Apply(S, s, l))
  {
    var k := s.workers[l.w].k;
    var id := Decode(S[k]).value;
    assert Has(s, l.w, k);
    AcquireSound(S, s, id, k);
    AcquireKeys(s, id, k);
    WorkersIrrelevant(S, Acquire(s, id, k), Apply(S, s, l));
    AcquireApart(S, s, l);
    AcquirePhases(S, s, l);
  }

  lemma KeepWins(S: seq<Entry>, s: State, l: Label)
    requires GroupOk(S, s) && WinsOk(S, s) && Enabled(S, s, l) && !Acquires(S, s, l)
    ensures WinsOk(S, Apply(S, s, l))
  {
    var s' := Apply(S, s, l);
    assert s'.wins == s.wins;
    assert WinsSound(S, s') by {
      forall i | 0 <= i < |s.wins| ensures WinOk(S, s', i) { assert WinOk(S, s, i); }
    }
    assert KeysWon(s') by {
      forall key | key in s'.dedupe ensures WonBefore(s', key) { assert WonBefore(s, key); }
    }
    KeepPhases(S, s, l);
  }

  lemma KeepPhases(S: seq<Entry>, s: State, l: Label)
    requires GroupOk(S, s) && WinsSound(S, s) && PhasesOk(s) && Enabled(S, s, l) && !Acquires(S, s, l)
    ensures PhasesOk(Apply(S, s, l))
  {
    forall i | 0 <= i < |s.wins| ensures s.wins[i].entry < s.delivered { assert WinOk(S, s, i); }
  }

  lemma WinsStep(S: seq<Entry>, s: State, l: Label)
    requires GroupOk(S, s) && WinsOk(S, s) && Enabled(S, s, l)
    ensures WinsOk(S, Apply(S, s, l))
  {
    if Acquires(S, s, l) { AcquireWins(S, s, l); } else { KeepWins(S, s, l); }
  }

  lemma PostGrows(S: seq<Entry>, s: State, s': State, p: Post)
    requires PostOk(S, s, p) && s.wins <= s'.wins
    ensures PostOk(S, s', p)
  {
    assert s'.wins[p.win] == s.wins[p.win];
  }

  lemma DoPost(S: seq<Entry>, s: State, l: Label)
    requires GroupOk(S, s) && WinsOk(S, s) && PostsOk(S, s) && Enabled(S, s, l) && l.Do?
    ensures PostsOk(S, Apply(S, s, l))
  {
    var s' := Apply(S, s, l);
    var win := s.workers[l.w].win;
    assert WinOk(S, s, win);
    forall v | v in s.workers && v != l.w && s.workers[v].Winner? ensures s.workers[v].win != win {
      assert Has(s, v, s.workers[v].k) && Has(s, l.w, s.workers[l.w].k);
    }
  }

  lemma KeepPosts(S: seq<Entry>, s: State, l: Label)
    requires PostsOk(S, s) && Enabled(S, s, l) && !l.Do?
    ensures PostsOk(S, Apply(S, s, l))
  {
    var s' := Apply(S, s, l);
    assert s'.posts == s.posts && s.wins <= s'.wins;
    forall i | 0 <= i < |s.posts| ensures PostOk(S, s', s.posts[i]) && s.posts[i].win < |s.wins| {
      PostGrows(S, s, s', s.posts[i]);
    }
  }

  lemma PostsStep(S: seq<Entry>, s: State, l: Label)
    requires GroupOk(S, s) && WinsOk(S, s) && PostsOk(S, s) && Enabled(S, s, l)
    ensures PostsOk(S, Apply(S, s, l))
  {
    if l.Do? { DoPost(S, s, l); } else { KeepPosts(S, s, l); }
  }

  lemma EntitledStep(S: seq<Entry>, s: State, l: Label, k: nat)
    requires Entitled(S, s, k) && Enabled(S, s, l)
    ensures Entitled(S, Apply(S, s, l), k)
  {
    var s' := Apply(S, s, l);
    assert s.wins <= s'.wins && s.posts <= s'.posts;
    if i :| 0 <= i < |s.posts| && s.posts[i].entry == k && Accepted(s.posts[i].reply) {
      assert s'.posts[i] == s.posts[i];
    } else {
      var i :| 0 <= i < |s.wins| && s.wins[i].entry != k && k < |S| && Decode(S[k]) == Some(s.wins[i].id);
      assert s'.wins[i] == s.wins[i];
    }
  }

  lemma AcksStep(S: seq<Entry>, s: State, l: Label)
    requires GroupOk(S, s) && WinsOk(S, s) && AcksOk(S, s) && Enabled(S, s, l)
    ensures AcksOk(S, Apply(S, s, l))
  {
    var s' := Apply(S, s, l);
    forall k | k in s'.acked ensures Entitled(S, s', k) {
      EntitledStep(S, s, l, k);
    }
    forall w | w in s'.workers && s'.workers[w].Handled? && s'.workers[w].ok ensures Entitled(S, s', s'.workers[w].k) {
      var k := s'.workers[w].k;
      if s.workers[w] == s'.workers[w] {
        EntitledStep(S, s, l, k);
      } else if l.Do? {
        assert s'.posts[|s.posts|].entry == k;
      } else {
        var id := Decode(S[k]).value;
        assert WonBefore(s, DedupeKey(id));
        var i :| 0 <= i < |s.wins| && DedupeKey(s.wins[i].id) == DedupeKey(id);
        DedupeKeyInjective(s.wins[i].id, id);
      }
    }
  }

  ghost predicate Inv(S: seq<Entry>, s: State) {
    GroupOk(S, s) && WinsOk(S, s) && PostsOk(S, s) && AcksOk(S, s)
  }

  lemma InitInv(S: seq<Entry>, workers: set<nat>, now: int)
    ensures Inv(S, Init(workers, now))
  {
  }

  lemma InvStep(S: seq<Entry>, s: State, l: Label)
    requires Inv(S, s) && Enabled(S, s, l)
    ensures Inv(S, Apply(S, s, l))
  {
    GroupStep(S, s, l);
    WinsStep(S, s, l);
    PostsStep(S, s, l);
    AcksStep(S, s, l);
  }

  /** Nothing a consumer has relied on changes when the stream grows. */
  lemma InvExtend(S: seq<Entry>, S': seq<Entry>, s: State)
    requires Inv(S, s) && S <= S'
    ensures Inv(S', s)
  {
    forall i | 0 <= i < |s.wins| ensures WinOk(S', s, i) { assert WinOk(S, s, i); }
    forall i | 0 <= i < |s.posts| ensures PostOk(S', s, s.posts[i]) { assert PostOk(S, s, s.posts[i]); }
    forall k | Entitled(S, s, k) ensures Entitled(S', s, k) { }
  }
}
