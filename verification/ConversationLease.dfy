/** The lease protocol by which the nodes of a cluster compete for a conversation.

    A conversation is identified by a Redis key built from the user and the conversation id.
    A node may start the agent loop only after creating the key with `SET NX EX`, refreshes the
    key while the loop is local, and deletes it after dropping the loop.  Each event below is
    what happens between two `await`s, so a run is any interleaving of any number of nodes,
    with exceptions, crashes and the passage of time. */
module ConversationLease {

  /** Life of a key after a write, in milliseconds (`_REDIS_ENTRY_TIMEOUT_SECONDS`). */
  const TTL_MS := 15_000

  datatype Key = Key(user: string, sid: string)

  datatype Redis = Redis(now: int, expiry: map<Key, int>) {
    predicate Live(k: Key) {
      k in expiry && now < expiry[k]
    }

    function SetEx(k: Key): Redis {
      this.(expiry := expiry[k := now + TTL_MS])
    }

    function SetAllEx(ks: set<Key>): Redis {
      this.(expiry := map k | k in expiry.Keys + ks :: if k in ks then now + TTL_MS else expiry[k])
    }

    function Del(k: Key): Redis {
      this.(expiry := expiry - {k})
    }
  }

  /** One server process.
      - `loops`: the local agent loops, by conversation id, with their user
      - `starting`: keys this node has created but whose loop is not registered yet
      - `closing`: keys whose loop has been dropped but which are not deleted yet
      - `pipeline`: keys of a refresh that has been assembled but not executed
      - `stamp`: when this node's last write of a key took effect (used only to state timing assumptions) */
  datatype Node = Node(loops: map<string, string>, starting: set<Key>, closing: set<Key>,
                       pipeline: set<Key>, stamp: map<Key, int>) {
    predicate Holds(k: Key) {
      k.sid in loops && loops[k.sid] == k.user
    }

    predicate Engaged(k: Key) {
      k in starting || Holds(k) || k in closing
    }

    /** The keys a refresh writes: one for each local loop with a non-empty conversation id. */
    function HeldKeys(): set<Key> {
      set sid | sid in loops && sid != "" :: Key(loops[sid], sid)
    }
  }

  function StampAll(stamp: map<Key, int>, ks: set<Key>, now: int): map<Key, int> {
    map k | k in stamp.Keys + ks :: if k in ks then now else stamp[k]
  }

  const IDLE := Node(map[], {}, {}, {}, map[])

  datatype Cluster = Cluster(redis: Redis, nodes: map<nat, Node>)

  datatype Event =
    | Claim(n: nat, k: Key)              // SET NX EX
    | Register(n: nat, k: Key)           // the new loop becomes local
    | StartFails(n: nat, k: Key)         // an exception between the two
    | Snapshot(n: nat)                   // the refresh collects the local loops
    | Flush(n: nat)                      // the refresh pipeline takes effect
    | FlushFails(n: nat)
    | Pop(n: nat, sid: string)           // a close drops the local loop
    | Delete(n: nat, k: Key)             // ... and deletes its key
    | DeleteFails(n: nat, k: Key)
    | Crash(n: nat, sent: set<Key>)      // the process vanishes; deletes already sent may still arrive
    | Tick(ms: nat)

  predicate Enabled(c: Cluster, e: Event) {
    match e
    case Claim(n, _) => n in c.nodes
    case Register(n, k) => n in c.nodes && k in c.nodes[n].starting
    case StartFails(n, k) => n in c.nodes && k in c.nodes[n].starting
    case Snapshot(n) => n in c.nodes && c.nodes[n].pipeline == {}
    case Flush(n) => n in c.nodes
    case FlushFails(n) => n in c.nodes
    case Pop(n, sid) => n in c.nodes && sid in c.nodes[n].loops
    case Delete(n, k) => n in c.nodes && k in c.nodes[n].closing
    case DeleteFails(n, k) => n in c.nodes && k in c.nodes[n].closing
    case Crash(n, _) => n in c.nodes
    case Tick(_) => true
  }

  /** Effect of one event on the node that performs it, given the store before the event. */
  function NodeAfter(node: Node, r: Redis, e: Event): Node
    requires e.Pop? ==> e.sid in node.loops
  {
    match e
    case Claim(_, k) =>
      if r.Live(k) then node
      else node.(starting := node.starting + {k}, stamp := node.stamp[k := r.now])
    case Register(_, k) => node.(starting := node.starting - {k}, loops := node.loops[k.sid := k.user])
    case StartFails(_, k) => node.(starting := node.starting - {k})
    case Snapshot(_) => node.(pipeline := node.HeldKeys())
    case Flush(_) =>
      node.(pipeline := {},
            stamp := StampAll(node.stamp, node.pipeline, r.now))
    case FlushFails(_) => node.(pipeline := {})
    case Pop(_, sid) =>
      node.(loops := node.loops - {sid}, closing := node.closing + {Key(node.loops[sid], sid)})
    case Delete(_, k) => node.(closing := node.closing - {k})
    case DeleteFails(_, k) => node.(closing := node.closing - {k})
    case Crash(_, sent) => node.(loops := map[], starting := {}, closing := node.closing * sent)
    case Tick(_) => node
  }

  /** Effect of one event on the store, given the node that performs it before the event. */
  function RedisAfter(node: Node, r: Redis, e: Event): Redis {
    match e
    case Claim(_, k) => if r.Live(k) then r else r.SetEx(k)
    case Flush(_) => r.SetAllEx(node.pipeline)
    case Delete(_, k) => r.Del(k)
    case Tick(ms) => r.(now := r.now + ms)
    case _ => r
  }

  function Apply(c: Cluster, e: Event): Cluster
    requires Enabled(c, e)
  {
    if e.Tick? then c.(redis := RedisAfter(IDLE, c.redis, e))
    else
      var node := c.nodes[e.n];
      Cluster(RedisAfter(node, c.redis, e), c.nodes[e.n := NodeAfter(node, c.redis, e)])
  }

  predicate Init(c: Cluster) {
    && c.redis.expiry == map[]
    && forall n :: n in c.nodes ==> c.nodes[n] == IDLE
  }

  /** `states` is what the cluster goes through when `events` happen in order. */
  ghost predicate IsRun(states: seq<Cluster>, events: seq<Event>) {
    && |states| == |events| + 1
    && Init(states[0])
    && forall i :: 0 <= i < |events| ==> IsStep(states, events, i)
  }

  ghost predicate IsStep(states: seq<Cluster>, events: seq<Event>, i: nat)
    requires i < |events| < |states|
  {
    Enabled(states[i], events[i]) && states[i + 1] == Apply(states[i], events[i])
  }

  // ---------------------------------------------------------------- timing assumption

  /** No node has let more than `active` ms pass since its last write of a key it is starting or
      holding, nor more than `close` ms since its last write of a key it is about to delete. */
  ghost predicate Timely(c: Cluster, active: nat, close: nat) {
    forall n, k :: n in c.nodes && k in c.nodes[n].stamp ==> NodeTimely(c.nodes[n], c.redis.now, k, active, close)
  }

  predicate NodeTimely(node: Node, now: int, k: Key, active: nat, close: nat)
    requires k in node.stamp
  {
    && (k in node.starting || node.Holds(k) ==> now - node.stamp[k] <= active)
    && (k in node.closing ==> now - node.stamp[k] <= close)
  }

  ghost predicate TimelyRun(states: seq<Cluster>, active: nat, close: nat) {
    forall i :: 0 <= i < |states| ==> Timely(states[i], active, close)
  }

  // ---------------------------------------------------------------- mutual exclusion

  ghost predicate MutuallyExclusive(c: Cluster) {
    forall n, m, k :: n in c.nodes && m in c.nodes && c.nodes[n].Holds(k) && c.nodes[m].Holds(k) ==> n == m
  }

  /** A node engaged with a key wrote it, nobody shortened its life since, and no other node is engaged. */
  ghost predicate Inv(c: Cluster) {
    && (forall n, k :: n in c.nodes && c.nodes[n].Engaged(k) ==> Leased(c, n, k))
    && (forall n, m, k :: n in c.nodes && m in c.nodes && c.nodes[n].Engaged(k) && c.nodes[m].Engaged(k) ==> n == m)
    && (forall n, k :: n in c.nodes ==> OnePhase(c.nodes[n], k))
    && (forall k :: k in c.redis.expiry ==> c.redis.expiry[k] <= c.redis.now + TTL_MS)
  }

  predicate Leased(c: Cluster, n: nat, k: Key)
    requires n in c.nodes
  {
    && k in c.nodes[n].stamp
    && k in c.redis.expiry
    && c.nodes[n].stamp[k] + TTL_MS <= c.redis.expiry[k]
  }

  predicate OnePhase(node: Node, k: Key) {
    && !(k in node.starting && node.Holds(k))
    && !(k in node.starting && k in node.closing)
    && !(node.Holds(k) && k in node.closing)
  }

  lemma EngagedIsLive(c: Cluster, n: nat, k: Key, active: nat, close: nat)
    requires Inv(c) && Timely(c, active, close) && active < TTL_MS && close < TTL_MS
    requires n in c.nodes && c.nodes[n].Engaged(k)
    ensures c.redis.Live(k)
  {
    assert Leased(c, n, k);
    assert NodeTimely(c.nodes[n], c.redis.now, k, active, close);
  }

  lemma ClaimKeepsInv(c: Cluster, e: Event, active: nat, close: nat)
    requires Inv(c) && Timely(c, active, close) && active < TTL_MS && close < TTL_MS
    requires e.Claim? && Enabled(c, e)
    ensures Inv(Apply(c, e))
  {
    var c' := Apply(c, e);
    if c.redis.Live(e.k) {
      assert c'.nodes == c.nodes;
    } else {
      forall n | n in c.nodes ensures !c.nodes[n].Engaged(e.k) {
        if c.nodes[n].Engaged(e.k) { EngagedIsLive(c, n, e.k, active, close); }
      }
      forall n, k | n in c'.nodes && c'.nodes[n].Engaged(k) ensures Leased(c', n, k) {
        if k != e.k { assert c.nodes[n].Engaged(k) && Leased(c, n, k); }
      }
      forall n, m, k | n in c'.nodes && m in c'.nodes && c'.nodes[n].Engaged(k) && c'.nodes[m].Engaged(k)
        ensures n == m
      {
        if k != e.k { assert c.nodes[n].Engaged(k) && c.nodes[m].Engaged(k); }
      }
      forall n, k | n in c'.nodes ensures OnePhase(c'.nodes[n], k) {
        assert OnePhase(c.nodes[n], k) && !c.nodes[n].Engaged(e.k);
      }
    }
  }

  lemma StepKeepsInv(c: Cluster, e: Event, active: nat, close: nat)
    requires Inv(c) && Timely(c, active, close) && active < TTL_MS && close < TTL_MS
    requires Enabled(c, e)
    ensures Inv(Apply(c, e))
  {
    if e.Claim? {
      ClaimKeepsInv(c, e, active, close);
    } else if !e.Tick? {
      var c' := Apply(c, e);
      forall n, k | n in c'.nodes ensures c'.nodes[n].Engaged(k) ==> c.nodes[n].Engaged(k) {
      }
      forall n, k | n in c'.nodes && c'.nodes[n].Engaged(k) ensures Leased(c', n, k) {
        assert c.nodes[n].Engaged(k) && Leased(c, n, k);
        assert OnePhase(c.nodes[n], k) && !(e.Delete? && k == e.k);
      }
      forall n, k | n in c'.nodes ensures OnePhase(c'.nodes[n], k) {
        assert OnePhase(c.nodes[n], k);
      }
    } else {
      var c' := Apply(c, e);
      assert c'.nodes == c.nodes;
      forall n, k | n in c'.nodes && c'.nodes[n].Engaged(k) ensures Leased(c', n, k) {
        assert Leased(c, n, k);
      }
    }
  }

  lemma {:induction false} RunKeepsInv(states: seq<Cluster>, events: seq<Event>, i: nat, active: nat, close: nat)
    requires IsRun(states, events) && TimelyRun(states, active, close) && active < TTL_MS && close < TTL_MS
    requires i < |states|
    ensures Inv(states[i])
  {
    if i > 0 {
      RunKeepsInv(states, events, i - 1, active, close);
      assert IsStep(states, events, i - 1);
      StepKeepsInv(states[i - 1], events[i - 1], active, close);
    }
  }

  /** Mutual exclusion, over every interleaving: while every gap stays below the life of a key,
      no two nodes ever hold the same conversation. */
  lemma MutualExclusion(states: seq<Cluster>, events: seq<Event>, active: nat, close: nat)
    requires IsRun(states, events) && TimelyRun(states, active, close) && active < TTL_MS && close < TTL_MS
    ensures AlwaysExclusive(states)
  {
    forall i | 0 <= i < |states| ensures MutuallyExclusive(states[i]) {
      RunKeepsInv(states, events, i, active, close);
      var c := states[i];
      forall n, m, k | n in c.nodes && m in c.nodes && c.nodes[n].Holds(k) && c.nodes[m].Holds(k) ensures n == m {
        assert c.nodes[n].Engaged(k) && c.nodes[m].Engaged(k);
      }
    }
  }

  ghost predicate AlwaysExclusive(states: seq<Cluster>) {
    forall i :: 0 <= i < |states| ==> MutuallyExclusive(states[i])
  }

  ghost predicate GapsAreSafe(active: nat, close: nat) {
    forall states, events :: IsRun(states, events) && TimelyRun(states, active, close) ==> AlwaysExclusive(states)
  }

  ghost predicate Reachable(c: Cluster, active: nat, close: nat) {
    exists states, events :: IsRun(states, events) && TimelyRun(states, active, close) && states[|events|] == c
  }

  lemma ReachableStart(c: Cluster, active: nat, close: nat)
    requires Init(c)
    ensures Reachable(c, active, close)
  {
    assert IsRun([c], []);
  }

  lemma ReachableStep(c: Cluster, e: Event, active: nat, close: nat)
    requires Reachable(c, active, close) && Enabled(c, e) && Timely(Apply(c, e), active, close)
    ensures Reachable(Apply(c, e), active, close)
  {
    var states, events :| IsRun(states, events) && TimelyRun(states, active, close) && states[|events|] == c;
    var states', events' := states + [Apply(c, e)], events + [e];
    forall i | 0 <= i < |events'| ensures IsStep(states', events', i) {
      if i < |events| { assert IsStep(states, events, i); }
    }
    assert IsRun(states', events');
  }

  lemma ReachableConflict(c: Cluster, active: nat, close: nat)
    requires Reachable(c, active, close) && !MutuallyExclusive(c)
    ensures !GapsAreSafe(active, close)
  {
  }

  /** The cluster after idle node `n` has started the conversation `k`. */
  function Started(c: Cluster, n: nat, k: Key): Cluster {
    Cluster(c.redis.SetEx(k), c.nodes[n := Node(map[k.sid := k.user], {}, {}, {}, map[k := c.redis.now])])
  }

  /** An idle node can start any conversation without a live key. */
  lemma IdleNodeStarts(c: Cluster, n: nat, k: Key, active: nat, close: nat)
    requires Reachable(c, active, close) && n in c.nodes && c.nodes[n] == IDLE && !c.redis.Live(k)
    ensures Reachable(Started(c, n, k), active, close)
  {
    assert Timely(c, active, close);
    var c1 := Cluster(c.redis.SetEx(k), c.nodes[n := Node(map[], {k}, {}, {}, map[k := c.redis.now])]);
    assert IDLE.starting + {k} == {k};
    assert Apply(c, Claim(n, k)) == c1;
    TimelyElsewhere(c, c1, n, active, close);
    ReachableStep(c, Claim(n, k), active, close);
    var c2 := Apply(c1, Register(n, k));
    assert {k} - {k} == {};
    assert c1.nodes[n := c2.nodes[n]] == c.nodes[n := c2.nodes[n]];
    assert c2 == Started(c, n, k);
    TimelyElsewhere(c, c2, n, active, close);
    ReachableStep(c1, Register(n, k), active, close);
  }

  lemma TimelyElsewhere(c: Cluster, c': Cluster, n: nat, active: nat, close: nat)
    requires Timely(c, active, close) && n in c'.nodes && c'.redis.now == c.redis.now
    requires c'.nodes == c.nodes[n := c'.nodes[n]]
    requires forall k :: k in c'.nodes[n].stamp ==> NodeTimely(c'.nodes[n], c.redis.now, k, active, close)
    ensures Timely(c', active, close)
  {
    forall m, k | m in c'.nodes && k in c'.nodes[m].stamp
      ensures NodeTimely(c'.nodes[m], c'.redis.now, k, active, close)
    {
      if m != n { assert NodeTimely(c.nodes[m], c.redis.now, k, active, close); }
    }
  }

  /** A holder that lets its key run out is overtaken by a second holder. */
  lemma LateRefreshBreaksExclusion(active: nat, close: nat)
    requires active >= TTL_MS
    ensures !GapsAreSafe(active, close)
  {
    var k := Key("u", "s");
    var c0 := Cluster(Redis(0, map[]), map[0 := IDLE, 1 := IDLE]);
    ReachableStart(c0, active, close);
    IdleNodeStarts(c0, 0, k, active, close);
    var c1 := Started(c0, 0, k);
    ReachableStep(c1, Tick(TTL_MS), active, close);
    var c2 := Apply(c1, Tick(TTL_MS));
    IdleNodeStarts(c2, 1, k, active, close);
    var c3 := Started(c2, 1, k);
    assert c3.nodes[0].Holds(k) && c3.nodes[1].Holds(k);
    ReachableConflict(c3, active, close);
  }

  /** A delete that arrives after the key ran out removes the next holder's key, so that two nodes
      which were never late themselves both hold the conversation. */
  lemma LateDeleteBreaksExclusion(active: nat, close: nat)
    requires close >= TTL_MS
    ensures !GapsAreSafe(active, close)
  {
    var k := Key("u", "s");
    var c0 := Cluster(Redis(0, map[]), map[0 := IDLE, 1 := IDLE, 2 := IDLE]);
    ReachableStart(c0, active, close);
    IdleNodeStarts(c0, 0, k, active, close);
    ClosesLate(Started(c0, 0, k), k, active, close);
    var c3 := AfterLateClose(Started(c0, 0, k), k);
    IdleNodeStarts(c3, 1, k, active, close);
    DeletedUnderTheNextHolder(Started(c3, 1, k), k, active, close);
  }

  /** Node 0 drops its only loop and the key's whole life passes before it is deleted. */
  function AfterLateClose(c: Cluster, k: Key): Cluster {
    Cluster(c.redis.(now := c.redis.now + TTL_MS),
            c.nodes[0 := Node(map[], {}, {k}, {}, map[k := c.redis.now])])
  }

  lemma ClosesLate(c: Cluster, k: Key, active: nat, close: nat)
    requires Reachable(c, active, close) && close >= TTL_MS
    requires c.nodes == map[0 := Node(map[k.sid := k.user], {}, {}, {}, map[k := c.redis.now]), 1 := IDLE, 2 := IDLE]
    ensures Reachable(AfterLateClose(c, k), active, close)
  {
    var c1 := Apply(c, Pop(0, k.sid));
    assert c1.nodes[0] == Node(map[], {}, {k}, {}, map[k := c.redis.now]);
    ReachableStep(c, Pop(0, k.sid), active, close);
    var c2 := Apply(c1, Tick(TTL_MS));
    ReachableStep(c1, Tick(TTL_MS), active, close);
    assert c2.nodes == AfterLateClose(c, k).nodes;
  }

  /** The end of that run. */
  lemma DeletedUnderTheNextHolder(c: Cluster, k: Key, active: nat, close: nat)
    requires Reachable(c, active, close) && c.nodes.Keys == {0, 1, 2}
    requires k in c.nodes[0].closing && c.nodes[1].Holds(k) && c.nodes[2] == IDLE
    ensures !GapsAreSafe(active, close)
  {
    assert Timely(c, active, close);
    var c1 := Apply(c, Delete(0, k));
    forall l | l in c1.nodes[0].stamp ensures NodeTimely(c1.nodes[0], c.redis.now, l, active, close) {
      assert NodeTimely(c.nodes[0], c.redis.now, l, active, close);
    }
    TimelyElsewhere(c, c1, 0, active, close);
    ReachableStep(c, Delete(0, k), active, close);
    IdleNodeStarts(c1, 2, k, active, close);
    var c2 := Started(c1, 2, k);
    assert c2.nodes[1].Holds(k) && c2.nodes[2].Holds(k);
    ReachableConflict(c2, active, close);
  }

  /** The timing assumption is exact: bounds on the two gaps guarantee mutual exclusion if and only
      if both are below the life of a key. */
  lemma GapBoundIsExact(active: nat, close: nat)
    ensures GapsAreSafe(active, close) <==> active < 15_000 && close < 15_000
  {
    if active >= TTL_MS {
      LateRefreshBreaksExclusion(active, close);
    } else if close >= TTL_MS {
      LateDeleteBreaksExclusion(active, close);
    } else {
      forall states, events | IsRun(states, events) && TimelyRun(states, active, close)
        ensures AlwaysExclusive(states)
      {
        MutualExclusion(states, events, active, close);
      }
    }
  }

  // ---------------------------------------------------------------- refreshing

  predicate EndsRefresh(e: Event, n: nat) {
    e == Flush(n) || e == FlushFails(n)
  }

  /** Step `i` collects the loops of node `n` for a refresh, and step `j` is the first after it that ends a
      refresh of that node; it takes effect. */
  ghost predicate IsRefresh(events: seq<Event>, n: nat, i: nat, j: nat) {
    && i < j < |events| && events[i] == Snapshot(n) && events[j] == Flush(n)
    && forall m :: i < m < j ==> !EndsRefresh(events[m], n)
  }

  predicate HoldsAt(states: seq<Cluster>, i: nat, n: nat, k: Key)
    requires i < |states|
  {
    n in states[i].nodes && states[i].nodes[n].Holds(k)
  }

  lemma {:induction false} PipelineWaits(states: seq<Cluster>, events: seq<Event>, n: nat, i: nat, j: nat, k: Key)
    requires IsRun(states, events) && i < j < |states| && events[i] == Snapshot(n)
    requires forall m :: i < m < j ==> !EndsRefresh(events[m], n)
    requires HoldsAt(states, i, n, k) && k.sid != ""
    ensures n in states[j].nodes && k in states[j].nodes[n].pipeline
    decreases j - i
  {
    assert IsStep(states, events, j - 1);
    if i + 1 < j {
      PipelineWaits(states, events, n, i, j - 1, k);
      assert !EndsRefresh(events[j - 1], n);
    }
  }

  /** A refresh gives the key of every conversation with a non-empty id that the node held when it began a
      full life from the moment it takes effect. */
  lemma RefreshRenews(states: seq<Cluster>, events: seq<Event>, n: nat, i: nat, j: nat, k: Key)
    requires IsRun(states, events) && IsRefresh(events, n, i, j) && HoldsAt(states, i, n, k) && k.sid != ""
    ensures k in states[j + 1].redis.expiry && states[j + 1].redis.expiry[k] == states[j].redis.now + TTL_MS
    ensures n in states[j + 1].nodes && k in states[j + 1].nodes[n].stamp
    ensures states[j + 1].nodes[n].stamp[k] == states[j].redis.now
  {
    PipelineWaits(states, events, n, i, j, k);
    assert IsStep(states, events, j);
  }

  lemma {:induction false} TimePasses(states: seq<Cluster>, events: seq<Event>, i: nat, j: nat)
    requires IsRun(states, events) && i <= j < |states|
    ensures states[i].redis.now <= states[j].redis.now
    decreases j - i
  {
    if i < j {
      TimePasses(states, events, i, j - 1);
      assert IsStep(states, events, j - 1);
    }
  }

  /** Nobody but node `n` is engaged with the key, and `n` holds it. */
  ghost predicate SoleHolder(c: Cluster, n: nat, k: Key) {
    && n in c.nodes && c.nodes[n].Holds(k) && k !in c.nodes[n].closing
    && forall m :: m in c.nodes && m != n ==> !c.nodes[m].Engaged(k)
  }

  /** In state `m` the life that the key had in state `a` is not over, or less than a life has passed since
      a refresh of the holder that began and ended in between. */
  ghost predicate Sustained(states: seq<Cluster>, events: seq<Event>, n: nat, k: Key, a: nat, m: nat)
    requires a <= m < |states| && k in states[a].redis.expiry
  {
    || states[m].redis.now < states[a].redis.expiry[k]
    || exists i: nat, j: nat :: RefreshedBy(states, events, n, a, m, i, j)
                                && states[m].redis.now < states[j].redis.now + TTL_MS
  }

  ghost predicate RefreshedBy(states: seq<Cluster>, events: seq<Event>, n: nat, a: nat, m: nat, i: nat, j: nat) {
    a <= i && j < m < |states| && IsRefresh(events, n, i, j)
  }

  /** The key lives as long as its life in state `a` and every refresh of the holder since then promise. */
  ghost predicate Lasts(states: seq<Cluster>, events: seq<Event>, n: nat, k: Key, a: nat, m: nat)
    requires a <= m < |states| && k in states[a].redis.expiry
  {
    && k in states[m].redis.expiry && states[a].redis.expiry[k] <= states[m].redis.expiry[k]
    && forall i: nat, j: nat :: RefreshedBy(states, events, n, a, m, i, j) ==>
         states[j].redis.now + TTL_MS <= states[m].redis.expiry[k]
  }

  lemma SustainedIsLive(states: seq<Cluster>, events: seq<Event>, n: nat, k: Key, a: nat, m: nat)
    requires a <= m < |states| && k in states[a].redis.expiry
    requires Sustained(states, events, n, k, a, m) && Lasts(states, events, n, k, a, m)
    ensures states[m].redis.Live(k)
  {
  }

  /** One step of any node: the sole holder of a live key stays alone, and the key's life is not shortened. */
  lemma SoleHolderStep(states: seq<Cluster>, events: seq<Event>, l: nat, n: nat, k: Key)
    requires IsRun(states, events) && l < |events| && SoleHolder(states[l], n, k) && states[l].redis.Live(k)
    requires HoldsAt(states, l + 1, n, k)
    ensures SoleHolder(states[l + 1], n, k) && k in states[l + 1].redis.expiry
    ensures states[l].redis.expiry[k] <= states[l + 1].redis.expiry[k]
  {
    assert IsStep(states, events, l);
    LifeIsBounded(states, events, l, k);
  }

  lemma {:induction false} HolderLasts(states: seq<Cluster>, events: seq<Event>, n: nat, k: Key, a: nat, m: nat)
    requires IsRun(states, events) && a <= m < |states| && k.sid != ""
    requires SoleHolder(states[a], n, k) && states[a].redis.Live(k)
    requires forall l :: a <= l <= m ==> HoldsAt(states, l, n, k)
    requires forall l :: a <= l < m ==> Sustained(states, events, n, k, a, l)
    ensures SoleHolder(states[m], n, k) && Lasts(states, events, n, k, a, m)
    decreases m
  {
    if a < m {
      HolderLasts(states, events, n, k, a, m - 1);
      assert Sustained(states, events, n, k, a, m - 1) && HoldsAt(states, m, n, k);
      SustainedIsLive(states, events, n, k, a, m - 1);
      SoleHolderStep(states, events, m - 1, n, k);
      forall i: nat, j: nat | RefreshedBy(states, events, n, a, m, i, j)
        ensures states[j].redis.now + TTL_MS <= states[m].redis.expiry[k]
      {
        if j == m - 1 {
          assert HoldsAt(states, i, n, k);
          RefreshRenews(states, events, n, i, j, k);
        } else {
          assert RefreshedBy(states, events, n, a, m - 1, i, j);
        }
      }
    }
  }

  /** A holder whose refreshes follow each other within the life of a key keeps its key live, and nobody else
      gets to it, in every state until it drops the loop; other nodes may be as late as they like. */
  lemma HolderKeepsLease(states: seq<Cluster>, events: seq<Event>, n: nat, k: Key, a: nat, m: nat)
    requires IsRun(states, events) && a <= m < |states| && k.sid != ""
    requires SoleHolder(states[a], n, k) && states[a].redis.Live(k)
    requires forall l :: a <= l <= m ==> HoldsAt(states, l, n, k)
    requires forall l :: a <= l <= m ==> Sustained(states, events, n, k, a, l)
    ensures states[m].redis.Live(k) && SoleHolder(states[m], n, k)
  {
    HolderLasts(states, events, n, k, a, m);
    assert Sustained(states, events, n, k, a, m);
    SustainedIsLive(states, events, n, k, a, m);
  }

  /** Step `w` writes the key for node `n`: it creates it, or ends a refresh that began while `n` held it. */
  ghost predicate WritesFor(states: seq<Cluster>, events: seq<Event>, n: nat, k: Key, w: nat)
    requires |events| < |states|
  {
    w < |events| &&
    ((events[w] == Claim(n, k) && !states[w].redis.Live(k))
     || (k.sid != "" && exists i: nat :: IsRefresh(events, n, i, w) && HoldsAt(states, i, n, k)))
  }

  /** In state `m` at most `gap` ms have passed since node `n` wrote the key. */
  ghost predicate ServedAt(states: seq<Cluster>, events: seq<Event>, n: nat, k: Key, m: nat, gap: nat)
    requires |events| < |states| && m < |states|
  {
    exists w: nat :: w < m && WritesFor(states, events, n, k, w) && states[m].redis.now - states[w].redis.now <= gap
  }

  ghost predicate ServedInTime(states: seq<Cluster>, events: seq<Event>, gap: nat)
    requires |events| < |states|
  {
    forall m, n, k :: 0 <= m < |states| && n in states[m].nodes && states[m].nodes[n].Engaged(k) ==>
        ServedAt(states, events, n, k, m, gap)
  }

  lemma {:induction false} StampLasts(states: seq<Cluster>, events: seq<Event>, n: nat, k: Key, w: nat, m: nat)
    requires IsRun(states, events) && w < m < |states| && WritesFor(states, events, n, k, w)
    ensures n in states[m].nodes && k in states[m].nodes[n].stamp
    ensures states[w].redis.now <= states[m].nodes[n].stamp[k]
    decreases m
  {
    assert IsStep(states, events, m - 1);
    if w + 1 < m {
      StampLasts(states, events, n, k, w, m - 1);
      TimePasses(states, events, w, m - 1);
    } else if events[w] != Claim(n, k) || states[w].redis.Live(k) {
      var i: nat :| IsRefresh(events, n, i, w) && HoldsAt(states, i, n, k);
      RefreshRenews(states, events, n, i, w, k);
    }
  }

  /** The timing assumption of mutual exclusion, in terms of what the nodes do: it is enough that each node
      creates or refreshes the keys it is engaged with in time.  Then no two nodes ever hold one
      conversation, and every key that a node is engaged with is live. */
  lemma RefreshesSuffice(states: seq<Cluster>, events: seq<Event>, gap: nat)
    requires IsRun(states, events) && ServedInTime(states, events, gap) && gap < TTL_MS
    ensures AlwaysExclusive(states)
    ensures forall m, n, k :: 0 <= m < |states| && n in states[m].nodes && states[m].nodes[n].Engaged(k) ==>
              states[m].redis.Live(k)
  {
    forall m | 0 <= m < |states| ensures Timely(states[m], gap, gap) {
      forall n, k | n in states[m].nodes && k in states[m].nodes[n].stamp
        ensures NodeTimely(states[m].nodes[n], states[m].redis.now, k, gap, gap)
      {
        if states[m].nodes[n].Engaged(k) {
          assert ServedAt(states, events, n, k, m, gap);
          var w: nat :| w < m && WritesFor(states, events, n, k, w)
                        && states[m].redis.now - states[w].redis.now <= gap;
          StampLasts(states, events, n, k, w, m);
        }
      }
    }
    MutualExclusion(states, events, gap, gap);
    forall m, n, k | 0 <= m < |states| && n in states[m].nodes && states[m].nodes[n].Engaged(k)
      ensures states[m].redis.Live(k)
    {
      RunKeepsInv(states, events, m, gap, gap);
      EngagedIsLive(states[m], n, k, gap, gap);
    }
  }

  /** A conversation with an empty id is never refreshed, so its key ends its life `TTL_MS` after it was
      created, whoever holds it. */
  lemma {:induction false} EmptyIdIsNotRefreshed(states: seq<Cluster>, events: seq<Event>, i: nat, j: nat, user: string)
    requires IsRun(states, events) && i < j < |states| && Created(states, events, i, Key(user, ""))
    requires forall m :: i < m < j ==> !Created(states, events, m, Key(user, ""))
    ensures var k := Key(user, "");
            && (forall n :: n in states[j].nodes ==> k !in states[j].nodes[n].pipeline)
            && (k in states[j].redis.expiry ==> states[j].redis.expiry[k] == states[i].redis.now + TTL_MS)
    decreases j
  {
    var k := Key(user, "");
    NeverInPipeline(states, events, j, k);
    NeverInPipeline(states, events, j - 1, k);
    assert IsStep(states, events, j - 1);
    if i + 1 < j {
      EmptyIdIsNotRefreshed(states, events, i, j - 1, user);
      assert !Created(states, events, j - 1, k);
    }
  }

  lemma {:induction false} NeverInPipeline(states: seq<Cluster>, events: seq<Event>, i: nat, k: Key)
    requires IsRun(states, events) && i < |states| && k.sid == ""
    ensures forall n :: n in states[i].nodes ==> k !in states[i].nodes[n].pipeline
  {
    if i > 0 {
      NeverInPipeline(states, events, i - 1, k);
      assert IsStep(states, events, i - 1);
    }
  }

  // ---------------------------------------------------------------- recovery

  ghost predicate Orphaned(c: Cluster, k: Key) {
    forall n :: n in c.nodes ==> !c.nodes[n].Engaged(k)
  }

  /** Step `m` is a `SET NX` of `k` that creates the key. */
  predicate Created(states: seq<Cluster>, events: seq<Event>, m: nat, k: Key)
    requires m < |events| < |states|
  {
    events[m].Claim? && events[m].k == k && !states[m].redis.Live(k)
  }

  /** Step `m` executes a refresh pipeline that includes `k`. */
  predicate Refreshed(states: seq<Cluster>, events: seq<Event>, m: nat, k: Key)
    requires m < |events| < |states|
  {
    events[m].Flush? && events[m].n in states[m].nodes && k in states[m].nodes[events[m].n].pipeline
  }

  lemma {:induction false} OrphanStaysOrphaned(states: seq<Cluster>, events: seq<Event>, i: nat, j: nat, k: Key)
    requires IsRun(states, events) && i <= j < |states| && Orphaned(states[i], k)
    requires forall m :: i <= m < j ==> !Created(states, events, m, k)
    ensures Orphaned(states[j], k)
    ensures forall n :: n in states[j].nodes && k in states[j].nodes[n].pipeline ==>
              n in states[i].nodes && k in states[i].nodes[n].pipeline
    ensures states[i].redis.now <= states[j].redis.now
    decreases j - i
  {
    if i < j {
      OrphanStaysOrphaned(states, events, i, j - 1, k);
      assert IsStep(states, events, j - 1) && !Created(states, events, j - 1, k);
    }
  }

  lemma {:induction false} LifeIsBounded(states: seq<Cluster>, events: seq<Event>, i: nat, k: Key)
    requires IsRun(states, events) && i < |states|
    ensures k in states[i].redis.expiry ==> states[i].redis.expiry[k] <= states[i].redis.now + TTL_MS
  {
    if i > 0 {
      LifeIsBounded(states, events, i - 1, k);
      assert IsStep(states, events, i - 1);
    }
  }

  /** The key of a conversation whose holder is gone ends its life within `TTL_MS` of its last write:
      no survivor extends it, except by a refresh that was already assembled. */
  lemma {:induction false} OrphanExpires(states: seq<Cluster>, events: seq<Event>, i: nat, j: nat, k: Key)
    requires IsRun(states, events) && i <= j < |states| && Orphaned(states[i], k)
    requires forall m :: i <= m < j ==> !Created(states, events, m, k)
    ensures k in states[j].redis.expiry ==>
              || states[j].redis.expiry[k] <= states[i].redis.now + TTL_MS
              || exists m :: i <= m < j && Refreshed(states, events, m, k)
                             && states[j].redis.expiry[k] == states[m].redis.now + TTL_MS
    decreases j - i
  {
    if i == j {
      LifeIsBounded(states, events, i, k);
    } else {
      OrphanExpires(states, events, i, j - 1, k);
      assert IsStep(states, events, j - 1) && !Created(states, events, j - 1, k);
      if Refreshed(states, events, j - 1, k) {
        assert states[j].redis.expiry[k] == states[j - 1].redis.now + TTL_MS;
      }
    }
  }

  /** Such a late refresh happens at most once per node, and only on a node that had already assembled
      it when the holder was lost. */
  lemma {:induction false} StrayRefreshIsSingle(states: seq<Cluster>, events: seq<Event>, i: nat, m: nat, j: nat,
                                                k: Key)
    requires IsRun(states, events) && i <= m < j < |events| && Orphaned(states[i], k)
    requires forall l :: i <= l < j ==> !Created(states, events, l, k)
    requires Refreshed(states, events, m, k)
    ensures events[m].n in states[i].nodes && k in states[i].nodes[events[m].n].pipeline
    ensures Refreshed(states, events, j, k) ==> events[j].n != events[m].n
  {
    OrphanStaysOrphaned(states, events, i, m, k);
    OrphanStaysOrphaned(states, events, i, m + 1, k);
    OrphanStaysOrphaned(states, events, m + 1, j, k);
    assert IsStep(states, events, m);
  }

  // ---------------------------------------------------------------- detecting stopped conversations

  /** What a node that looks for stopped conversations notes before it scans the store: the conversations
      it serves connections to and does not run itself. */
  function ConnectedToRemote(connections: map<string, string>, node: Node): set<string> {
    connections.Values - node.loops.Keys
  }

  predicate LiveAt(states: seq<Cluster>, m: nat, k: Key)
    requires m < |states|
  {
    states[m].redis.Live(k)
  }

  ghost predicate LiveThroughout(states: seq<Cluster>, i: nat, j: nat, k: Key)
    requires i <= j < |states|
  {
    forall m :: i <= m <= j ==> LiveAt(states, m, k)
  }

  /** `found` may be the outcome of a scan that starts in state `i` and ends in state `j`: a key that is live
      throughout is found, and a key that is found was live at some moment.  Of other keys a scan promises
      nothing. */
  ghost predicate IsScan(states: seq<Cluster>, i: nat, j: nat, found: set<Key>)
    requires i <= j < |states|
  {
    && (forall k :: LiveThroughout(states, i, j, k) ==> k in found)
    && (forall k :: k in found ==> exists m :: i <= m <= j && LiveAt(states, m, k))
  }

  /** The conversations the node then takes for stopped. */
  function StoppedConversations(remote: set<string>, found: set<Key>): set<string> {
    remote - set k | k in found :: k.sid
  }

  /** No false alarm: when a node takes a conversation for stopped after a scan from `i` to `j` in a timely
      run, then for every user there was a moment during the scan at which no node was starting, running or
      closing it; and if one is by the end, it has created the key since. */
  lemma StoppedHadNoOwner(states: seq<Cluster>, events: seq<Event>, i: nat, j: nat, active: nat, close: nat,
                          remote: set<string>, found: set<Key>, user: string, sid: string)
    requires IsRun(states, events) && TimelyRun(states, active, close) && active < TTL_MS && close < TTL_MS
    requires i <= j < |states| && IsScan(states, i, j, found)
    requires sid in StoppedConversations(remote, found)
    ensures exists m :: i <= m <= j && Orphaned(states[m], Key(user, sid))
    ensures Orphaned(states[j], Key(user, sid)) || exists m :: i <= m < j && Created(states, events, m, Key(user, sid))
  {
    var k := Key(user, sid);
    assert k !in found && !LiveThroughout(states, i, j, k);
    var m :| i <= m <= j && !LiveAt(states, m, k);
    RunKeepsInv(states, events, m, active, close);
    forall n | n in states[m].nodes ensures !states[m].nodes[n].Engaged(k) {
      if states[m].nodes[n].Engaged(k) { EngagedIsLive(states[m], n, k, active, close); }
    }
    assert Orphaned(states[m], k);
    if forall l :: m <= l < j ==> !Created(states, events, l, k) {
      OrphanStaysOrphaned(states, events, m, j, k);
    }
  }

  /** The alarm can be stale: a conversation whose key is created during the scan may be taken for stopped
      although a node is starting it. */
  lemma AlarmCanBeStale(active: nat, close: nat)
    ensures var k := Key("u", "s");
            var c := Cluster(Redis(0, map[]), map[0 := IDLE, 1 := IDLE]);
            var states := [c, Apply(c, Claim(1, k))];
            && IsRun(states, [Claim(1, k)]) && TimelyRun(states, active, close)
            && IsScan(states, 0, 1, {}) && k.sid in StoppedConversations({k.sid}, {})
            && states[1].nodes[1].Engaged(k)
  {
    var k := Key("u", "s");
    var c := Cluster(Redis(0, map[]), map[0 := IDLE, 1 := IDLE]);
    var states := [c, Apply(c, Claim(1, k))];
    assert IsStep(states, [Claim(1, k)], 0);
    forall l ensures !LiveThroughout(states, 0, 1, l) {
      assert !LiveAt(states, 0, l);
    }
  }

  /** Step `i` is a crash of a node engaged with `k` that has no delete of it under way. */
  predicate LosesHolder(states: seq<Cluster>, events: seq<Event>, i: nat, k: Key)
    requires i < |events| < |states|
  {
    events[i].Crash? && k !in events[i].sent && events[i].n in states[i].nodes
    && states[i].nodes[events[i].n].Engaged(k)
  }

  /** Losing the holder: in a timely run, a crash of the node that starts, holds or closes a conversation,
      with no delete of its key under way, leaves no node engaged with it. */
  lemma CrashOrphans(states: seq<Cluster>, events: seq<Event>, i: nat, active: nat, close: nat, k: Key)
    requires IsRun(states, events) && TimelyRun(states, active, close) && active < TTL_MS && close < TTL_MS
    requires i < |events| && LosesHolder(states, events, i, k)
    ensures Orphaned(states[i + 1], k)
  {
    RunKeepsInv(states, events, i, active, close);
    assert IsStep(states, events, i);
  }

  predicate Assembled(c: Cluster, n: nat, k: Key) {
    n in c.nodes && k in c.nodes[n].pipeline
  }

  /** Recovery after a crash: the key of the lost holder expires within `TTL_MS` of the crash, or of a
      refresh that some node had already assembled then. */
  lemma CrashedLeaseExpires(states: seq<Cluster>, events: seq<Event>, i: nat, j: nat, active: nat, close: nat, k: Key)
    requires IsRun(states, events) && TimelyRun(states, active, close) && active < TTL_MS && close < TTL_MS
    requires i < j < |states| && LosesHolder(states, events, i, k)
    requires forall m :: i < m < j ==> !Created(states, events, m, k)
    ensures k in states[j].redis.expiry ==>
              || states[j].redis.expiry[k] <= states[i].redis.now + TTL_MS
              || exists m :: i < m < j && Refreshed(states, events, m, k)
                             && Assembled(states[i + 1], events[m].n, k)
                             && states[j].redis.expiry[k] == states[m].redis.now + TTL_MS
  {
    CrashOrphans(states, events, i, active, close, k);
    assert IsStep(states, events, i);
    OrphanExpires(states, events, i + 1, j, k);
    forall m | i < m < j && Refreshed(states, events, m, k) ensures Assembled(states[i + 1], events[m].n, k) {
      OrphanStaysOrphaned(states, events, i + 1, m, k);
    }
  }

  /** A conversation belongs to one user: every claim of it names that user. */
  ghost predicate OneOwner(events: seq<Event>, user: string, sid: string) {
    forall m :: 0 <= m < |events| && events[m].Claim? && events[m].k.sid == sid ==> events[m].k.user == user
  }

  predicate Unknown(c: Cluster, n: nat, k: Key)
    requires n in c.nodes
  {
    !c.nodes[n].Engaged(k) && k !in c.nodes[n].pipeline
  }

  lemma {:induction false} OthersUnknown(states: seq<Cluster>, events: seq<Event>, i: nat, user: string, sid: string,
                                         k: Key)
    requires IsRun(states, events) && i < |states| && OneOwner(events, user, sid) && k.sid == sid && k.user != user
    ensures k !in states[i].redis.expiry && forall n :: n in states[i].nodes ==> Unknown(states[i], n, k)
  {
    if i > 0 {
      OthersUnknown(states, events, i - 1, user, sid, k);
      assert IsStep(states, events, i - 1);
      forall n | n in states[i].nodes ensures Unknown(states[i], n, k) {
        assert Unknown(states[i - 1], n, k);
      }
    }
  }

  /** No missed alarm: a scan that starts once `TTL_MS` have passed since the holder crashed and since the
      last stray refresh makes every surviving node with a connection take the conversation for stopped. */
  lemma LostHolderIsDetected(states: seq<Cluster>, events: seq<Event>, lost: nat, i: nat, j: nat,
                             active: nat, close: nat,
                             user: string, sid: string, connections: map<string, string>, n: nat, found: set<Key>)
    requires IsRun(states, events) && TimelyRun(states, active, close) && active < TTL_MS && close < TTL_MS
    requires OneOwner(events, user, sid) && lost < i <= j < |states| && IsScan(states, i, j, found)
    requires LosesHolder(states, events, lost, Key(user, sid))
    requires forall m :: lost < m < j ==> !Created(states, events, m, Key(user, sid))
    requires states[lost].redis.now + TTL_MS <= states[i].redis.now
    requires forall m :: lost < m < j && Refreshed(states, events, m, Key(user, sid)) ==>
               states[m].redis.now + TTL_MS <= states[i].redis.now
    requires n in states[i].nodes && sid in connections.Values
    ensures sid in StoppedConversations(ConnectedToRemote(connections, states[i].nodes[n]), found)
  {
    var key := Key(user, sid);
    CrashOrphans(states, events, lost, active, close, key);
    OrphanStaysOrphaned(states, events, lost + 1, i, key);
    NotLocal(states, events, i, user, sid, n);
    forall k | k in found ensures k.sid != sid {
      var m :| i <= m <= j && LiveAt(states, m, k);
      if k.sid == sid {
        assert k == Key(k.user, sid);
        if k.user == user {
          NotRevived(states, events, lost, i, m, active, close, key);
        } else {
          OthersUnknown(states, events, m, user, sid, k);
        }
      }
    }
  }

  /** From then on the lost key is not live. */
  lemma NotRevived(states: seq<Cluster>, events: seq<Event>, lost: nat, i: nat, m: nat, active: nat, close: nat, k: Key)
    requires IsRun(states, events) && TimelyRun(states, active, close) && active < TTL_MS && close < TTL_MS
    requires lost < i <= m < |states| && LosesHolder(states, events, lost, k)
    requires forall l :: lost < l < m ==> !Created(states, events, l, k)
    requires states[lost].redis.now + TTL_MS <= states[i].redis.now
    requires forall l :: lost < l < m && Refreshed(states, events, l, k) ==>
               states[l].redis.now + TTL_MS <= states[i].redis.now
    ensures !LiveAt(states, m, k)
  {
    CrashedLeaseExpires(states, events, lost, m, active, close, k);
    CrashOrphans(states, events, lost, active, close, k);
    OrphanStaysOrphaned(states, events, lost + 1, i, k);
    OrphanStaysOrphaned(states, events, i, m, k);
  }

  lemma NotLocal(states: seq<Cluster>, events: seq<Event>, j: nat, user: string, sid: string, n: nat)
    requires IsRun(states, events) && OneOwner(events, user, sid) && j < |states| && n in states[j].nodes
    requires Orphaned(states[j], Key(user, sid))
    ensures sid !in states[j].nodes[n].loops
  {
    var node := states[j].nodes[n];
    if sid in node.loops {
      var k := Key(node.loops[sid], sid);
      if k.user != user {
        OthersUnknown(states, events, j, user, sid, k);
      }
    }
  }

  lemma {:induction false} LifeIsNotShortened(states: seq<Cluster>, events: seq<Event>, i: nat, j: nat, k: Key)
    requires IsRun(states, events) && i < j < |states| && Created(states, events, i, k)
    requires forall m :: i < m < j ==> !(events[m].Delete? && events[m].k == k)
    ensures k in states[j].redis.expiry && states[i].redis.now + TTL_MS <= states[j].redis.expiry[k]
    ensures states[i].redis.now <= states[j].redis.now
    decreases j - i
  {
    assert IsStep(states, events, j - 1);
    if i + 1 < j {
      LifeIsNotShortened(states, events, i, j - 1, k);
    }
  }

  /** Of all nodes that then retry, exactly the first `SET NX` wins: until the winner deletes the key
      or `TTL_MS` have passed, every further attempt leaves the whole cluster as it was. */
  lemma FirstRetryWins(states: seq<Cluster>, events: seq<Event>, i: nat, j: nat, k: Key)
    requires IsRun(states, events) && i < j < |events| && Created(states, events, i, k)
    requires forall m :: i < m < j ==> !(events[m].Delete? && events[m].k == k)
    requires states[j].redis.now < states[i].redis.now + TTL_MS
    requires events[j].Claim? && events[j].k == k
    ensures events[i].n in states[i + 1].nodes && k in states[i + 1].nodes[events[i].n].starting
    ensures !Created(states, events, j, k) && states[j + 1] == states[j]
  {
    LifeIsNotShortened(states, events, i, j, k);
    assert IsStep(states, events, i) && IsStep(states, events, j);
    assert states[j].nodes[events[j].n := states[j].nodes[events[j].n]] == states[j].nodes;
  }
}
