/** The server process itself: the methods of `ClusteredConversationManager`, split at their awaits,
    each proved to have the effect that `ConversationLease` gives to one event. */
module ClusterNode {
  import opened Prelude
  import opened ConversationLease

  class RedisStore {
    var now: int
    var expiry: map<Key, int>

    function View(): Redis
      reads this
    {
      Redis(now, expiry)
    }

    constructor ()
      ensures View() == Redis(0, map[])
    {
      now, expiry := 0, map[];
    }

    /** `SET key 1 NX EX 15` */
    method SetNx(k: Key) returns (created: bool)
      modifies this
      ensures created == !old(View()).Live(k)
      ensures View() == if created then old(View()).SetEx(k) else old(View())
    {
      created := !(k in expiry && now < expiry[k]);
      if created {
        expiry := expiry[k := now + TTL_MS];
      }
    }

    /** `SET key 1 EX 15` */
    method Set(k: Key)
      modifies this
      ensures View() == old(View()).SetEx(k)
    {
      expiry := expiry[k := now + TTL_MS];
    }

    method Delete(k: Key)
      modifies this
      ensures View() == old(View()).Del(k)
    {
      expiry := expiry - {k};
    }

    method Scan() returns (keys: set<Key>)
      ensures keys == set k | k in expiry && View().Live(k)
    {
      keys := set k | k in expiry && now < expiry[k];
    }
  }

  datatype EventStore = LocalStream | RemoteStore | NoEventStream

  datatype StoppedOutcome = DisconnectClient | RetryStart(key: Key)

  /** The conversations running anywhere, optionally of one user and among some ids. */
  function RunningLoops(node: Node, r: Redis, user: Option<string>, filter: Option<set<string>>): set<string> {
    LocalLoops(node, user, filter) + RemoteLoops(r, user, filter)
  }

  predicate Wanted(sid: string, owner: string, user: Option<string>, filter: Option<set<string>>) {
    && (user.Some? && user.value != "" ==> owner == user.value)
    && (filter.Some? ==> sid in filter.value)
  }

  function LocalLoops(node: Node, user: Option<string>, filter: Option<set<string>>): set<string> {
    set sid | sid in node.loops && Wanted(sid, node.loops[sid], user, filter)
  }

  function RemoteLoops(r: Redis, user: Option<string>, filter: Option<set<string>>): set<string> {
    set k | k in r.expiry && r.Live(k) && Wanted(k.sid, k.user, user, filter) :: k.sid
  }

  /** An empty user asks for everybody, like a missing one; an empty filter asks for nothing. */
  lemma RunningLoopsMeaning(node: Node, r: Redis, user: Option<string>, filter: Option<set<string>>, sid: string)
    ensures sid in RunningLoops(node, r, user, filter) <==>
            && (filter == None || sid in filter.value)
            && exists owner :: (user in {None, Some(""), Some(owner)})
                               && (node.Holds(Key(owner, sid)) || r.Live(Key(owner, sid)))
  {
    if sid in RunningLoops(node, r, user, filter) {
      if sid in LocalLoops(node, user, filter) {
        var owner := node.loops[sid];
        assert node.Holds(Key(owner, sid)) && user in {None, Some(""), Some(owner)};
      } else {
        var k :| k in r.expiry && r.Live(k) && Wanted(k.sid, k.user, user, filter) && k.sid == sid;
        assert k == Key(k.user, sid) && user in {None, Some(""), Some(k.user)};
      }
    }
    if filter == None || sid in filter.value {
      forall owner | user in {None, Some(""), Some(owner)} && r.Live(Key(owner, sid))
        ensures sid in RemoteLoops(r, user, filter)
      {
        assert Key(owner, sid) in r.expiry && Wanted(sid, owner, user, filter);
      }
    }
  }

  lemma OneMoreWrite(r: Redis, stamp: map<Key, int>, done: set<Key>, k: Key)
    ensures r.SetAllEx(done).SetEx(k) == r.SetAllEx(done + {k})
    ensures StampAll(stamp, done, r.now)[k := r.now] == StampAll(stamp, done + {k}, r.now)
  {
    assert r.SetAllEx(done).SetEx(k).expiry == r.SetAllEx(done + {k}).expiry;
  }

  class ConversationManager {
    const redis: RedisStore
    const maxConcurrentConversations: nat
    var localAgentLoops: map<string, string>
    var starting: set<Key>
    var closing: set<Key>
    var pipeline: set<Key>
    var lastWrite: map<Key, int>
    var connections: map<string, string>

    function View(): Node
      reads this
    {
      Node(localAgentLoops, starting, closing, pipeline, lastWrite)
    }

    /** One more conversation is allowed than configured, because a conversation is marked as started
        before the running ones are counted. */
    constructor (redis: RedisStore, configuredMax: nat)
      ensures this.redis == redis && View() == IDLE && connections == map[]
      ensures maxConcurrentConversations == configuredMax + 1
    {
      this.redis := redis;
      maxConcurrentConversations := configuredMax + 1;
      localAgentLoops, starting, closing, pipeline, lastWrite := map[], {}, {}, {}, map[];
      connections := map[];
    }

    /** `maybe_start_agent_loop`, up to the start of the loop. */
    method TryClaim(k: Key) returns (created: bool)
      modifies this, redis
      ensures connections == old(connections)
      ensures View() == NodeAfter(old(View()), old(redis.View()), Claim(0, k))
      ensures redis.View() == RedisAfter(old(View()), old(redis.View()), Claim(0, k))
      ensures created == !old(redis.View()).Live(k)
    {
      created := redis.SetNx(k);
      if created {
        starting := starting + {k};
        lastWrite := lastWrite[k := redis.now];
      }
    }

    /** `_start_agent_loop` registers the session. */
    method RegisterLoop(k: Key)
      requires k in starting
      modifies this
      ensures connections == old(connections)
      ensures View() == NodeAfter(old(View()), redis.View(), Register(0, k))
    {
      localAgentLoops := localAgentLoops[k.sid := k.user];
      starting := starting - {k};
    }

    /** The rest of `maybe_start_agent_loop`: a missing event stream is an error for the caller. */
    method GetEventStore(k: Key) returns (store: EventStore)
      ensures store.LocalStream? <==> k.sid in localAgentLoops
      ensures store.NoEventStream? <==> k.sid !in localAgentLoops && !redis.View().Live(k)
    {
      if k.sid in localAgentLoops {
        return LocalStream;
      }
      var keys := redis.Scan();
      store := if k in keys then RemoteStore else NoEventStream;
    }

    /** `_update_state_in_redis`, first half: collect the local loops into a pipeline. */
    method AssembleRefresh()
      modifies this
      ensures connections == old(connections)
      ensures View() == NodeAfter(old(View()), redis.View(), Snapshot(0))
      ensures forall k :: k in pipeline <==>
                k.sid != "" && k.sid in localAgentLoops && localAgentLoops[k.sid] == k.user
    {
      var todo, pipe := localAgentLoops.Keys, {};
      while todo != {}
        invariant todo <= localAgentLoops.Keys
        invariant View() == old(View()) && connections == old(connections)
        invariant pipe == set sid | sid in localAgentLoops.Keys - todo && sid != "" :: Key(localAgentLoops[sid], sid)
        decreases todo
      {
        var sid :| sid in todo;
        if sid != "" {
          pipe := pipe + {Key(localAgentLoops[sid], sid)};
        }
        todo := todo - {sid};
      }
      pipeline := pipe;
    }

    /** `_update_state_in_redis`, second half: all writes of the pipeline take effect. */
    method ExecuteRefresh()
      modifies this, redis
      ensures connections == old(connections)
      ensures View() == NodeAfter(old(View()), old(redis.View()), Flush(0))
      ensures redis.View() == RedisAfter(old(View()), old(redis.View()), Flush(0))
    {
      var todo, done: set<Key> := pipeline, {};
      while todo != {}
        invariant todo + done == pipeline == old(pipeline) && todo !! done
        invariant localAgentLoops == old(localAgentLoops) && starting == old(starting)
        invariant closing == old(closing) && connections == old(connections)
        invariant redis.View() == old(redis.View()).SetAllEx(done)
        invariant lastWrite == StampAll(old(lastWrite), done, old(redis.now))
        decreases todo
      {
        var k :| k in todo;
        OneMoreWrite(old(redis.View()), old(lastWrite), done, k);
        redis.Set(k);
        lastWrite := lastWrite[k := redis.now];
        todo, done := todo - {k}, done + {k};
      }
      pipeline := {};
    }

    /** `_close_session`, up to its first await: the connections that it is going to remove. */
    method FindConnections(sid: string) returns (ids: set<string>)
      ensures forall c :: c in ids <==> c in connections && connections[c] == sid
    {
      ids := set c | c in connections && connections[c] == sid;
    }

    /** ... after each await for one of them to disconnect; it may have gone or changed meanwhile. */
    method DropConnection(id: string)
      modifies this`connections
      ensures connections == old(connections) - {id}
    {
      connections := connections - {id};
    }

    /** The connections' part of `_close_session`, if nobody joins or leaves meanwhile. */
    method DropConnections(sid: string)
      modifies this`connections
      ensures connections == map c | c in old(connections) && old(connections)[c] != sid :: old(connections)[c]
    {
      var todo := FindConnections(sid);
      ghost var found := todo;
      while todo != {}
        invariant todo <= found && connections == old(connections) - (found - todo)
        decreases todo
      {
        var c :| c in todo;
        todo := todo - {c};
        DropConnection(c);
      }
    }

    /** ... and then: the loop goes, and its key remains to be deleted. */
    method PopLoop(sid: string) returns (found: bool)
      modifies this`localAgentLoops, this`closing
      ensures found <==> sid in old(localAgentLoops)
      ensures View() == if found then NodeAfter(old(View()), redis.View(), Pop(0, sid)) else old(View())
    {
      found := sid in localAgentLoops;
      if found {
        closing := closing + {Key(localAgentLoops[sid], sid)};
        localAgentLoops := localAgentLoops - {sid};
      }
    }

    /** `_close_session`, second half. */
    method DeleteKey(k: Key)
      requires k in closing
      modifies this, redis
      ensures connections == old(connections)
      ensures View() == NodeAfter(old(View()), old(redis.View()), Delete(0, k))
      ensures redis.View() == RedisAfter(old(View()), old(redis.View()), Delete(0, k))
    {
      redis.Delete(k);
      closing := closing - {k};
    }

    /** `_disconnect_from_stopped`, before its scan: the remote conversations with local connections. */
    method StartDetection() returns (remote: set<string>)
      ensures remote == ConnectedToRemote(connections, View())
    {
      remote := {};
      var todo := connections.Keys;
      while todo != {}
        invariant todo <= connections.Keys
        invariant forall sid :: sid in remote <==>
                    sid !in localAgentLoops && exists c :: c in connections.Keys - todo && connections[c] == sid
        decreases todo
      {
        var c :| c in todo;
        todo := todo - {c};
        if connections[c] !in localAgentLoops {
          remote := remote + {connections[c]};
        }
      }
    }

    /** `_disconnect_from_stopped`, after its scan has found some keys: which conversations have lost their
        node, and which of the connections there are by now get handled. */
    method DecideStopped(remote: set<string>, found: set<Key>) returns (stopped: set<string>, handled: set<string>)
      ensures stopped == StoppedConversations(remote, found)
      ensures forall c :: c in handled <==> c in connections && connections[c] in stopped
    {
      var todo := found;
      var running: set<string> := {};
      while todo != {}
        invariant todo <= found
        invariant running == set k | k in found - todo :: k.sid
        decreases todo
      {
        var k :| k in todo;
        running := running + {k.sid};
        todo := todo - {k};
      }
      stopped := remote - running;
      handled := {};
      var items := connections.Keys;
      while items != {}
        invariant items <= connections.Keys
        invariant forall c :: c in handled <==> c in connections.Keys - items && connections[c] in stopped
        decreases items
      {
        var c :| c in items;
        items := items - {c};
        if connections[c] in stopped {
          handled := handled + {c};
        }
      }
    }

    /** `get_running_agent_loops`: asking the other nodes only when the local answer may be
        incomplete gives the same answer as always asking. */
    method GetRunningAgentLoops(user: Option<string>, filter: Option<set<string>>) returns (sids: set<string>)
      ensures sids == RunningLoops(View(), redis.View(), user, filter)
    {
      sids := LocalLoops(View(), user, filter);
      if filter.None? || filter.value == {} || |sids| != |filter.value| {
        var remote := RemoteLoops(redis.View(), user, filter);
        sids := sids + remote;
      } else {
        SubsetCard(sids, filter.value);
      }
    }

    /** `_handle_remote_conversation_stopped`, before it waits for connections to stabilize: the conversation
        of the connection, if the user and the conversation are known. */
    method FindStopped(user: string, connectionId: string) returns (sid: Option<string>)
      ensures sid == if user != "" && connectionId in connections && connections[connectionId] != ""
                     then Some(connections[connectionId]) else None
    {
      if user == "" || connectionId !in connections || connections[connectionId] == "" {
        return None;
      }
      sid := Some(connections[connectionId]);
    }

    /** ... and after the wait: retry unless too many conversations of the user are running by then. */
    method HandleRemoteConversationStopped(user: string, sid: Option<string>) returns (outcome: StoppedOutcome)
      ensures outcome.RetryStart? <==>
                sid.Some? && |RunningLoops(View(), redis.View(), Some(user), None)| <= maxConcurrentConversations
      ensures outcome.RetryStart? ==> outcome.key == Key(user, sid.value)
    {
      if sid.None? {
        return DisconnectClient;
      }
      var running := GetRunningAgentLoops(Some(user), None);
      if |running| > maxConcurrentConversations {
        return DisconnectClient;
      }
      outcome := RetryStart(Key(user, sid.value));
    }
  }
}
