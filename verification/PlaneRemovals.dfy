/** Removing applications, connections and sessions step by step comes to removing them at once. */
module PlaneRemovals {
  import opened Bytes
  import opened Queues
  import opened DataPlane
  import opened PlaneInvariant

  // ----- removing in steps --------------------------------------------------

  /** Removing sessions one set after another is removing them at once. */
  lemma RemoveSessionsCompose(p: Plane, a: set<nat>, b: set<nat>)
    ensures RemoveSessions(RemoveSessions(p, a), b) == RemoveSessions(p, a + b)
  {
    var q, r := RemoveSessions(p, a), RemoveSessions(p, a + b);
    var s := RemoveSessions(q, b);
    assert s.sessions == r.sessions && s.datagrams == r.datagrams;
    assert s.streams == r.streams;
    assert s.index == r.index;
    WithoutWithout(p.pendingSessions, a, b);
    KeepKeep(p.pendingStreams, q.streams.Keys, s.streams.Keys);
    assert q.streams.Keys * s.streams.Keys == s.streams.Keys;
  }

  lemma {:induction false} ListenersWithoutCompose(ls: seq<Listener>, a: set<bytes>, b: set<bytes>)
    ensures ListenersWithout(ListenersWithout(ls, a), b) == ListenersWithout(ls, a + b)
  {
    if ls != [] {
      var front, l := ls[..|ls| - 1], ls[|ls| - 1];
      ListenersWithoutCompose(front, a, b);
      var rest := ListenersWithout(front, a);
      assert (rest + [l])[..|rest|] == rest;
    }
  }

  lemma RemoveApplicationsCompose(p: Plane, a: set<bytes>, b: set<bytes>)
    ensures RemoveApplications(RemoveApplications(p, a), b) == RemoveApplications(p, a + b)
  {
    var q, r := RemoveApplications(p, a), RemoveApplications(p, a + b);
    var s := RemoveApplications(q, b);
    assert SessionsOf(p, a) + SessionsOf(q, b) == SessionsOf(p, a + b);
    assert HandlesOf(p, a) + HandlesOf(q, b) == HandlesOf(p, a + b);
    ListenersWithoutCompose(p.listeners, a, b);
    WithoutWithout(p.pendingSessions, SessionsOf(p, a), SessionsOf(q, b));
    WithoutWithout(p.pendingStreams, HandlesOf(p, a), HandlesOf(q, b));
    assert s.sessions == r.sessions && s.datagrams == r.datagrams && s.streams == r.streams;
    assert s.index == r.index;
  }

  lemma {:induction false} ListenersWithoutNone(ls: seq<Listener>)
    ensures ListenersWithout(ls, {}) == ls
  {
    if ls != [] {
      ListenersWithoutNone(ls[..|ls| - 1]);
    }
  }

  lemma RemoveNoApplications(p: Plane)
    ensures RemoveApplications(p, {}) == p
  {
    ListenersWithoutNone(p.listeners);
    WithoutNone(p.pendingSessions, {});
    WithoutNone(p.pendingStreams, {});
    assert SessionsOf(p, {}) == {} && HandlesOf(p, {}) == {};
    assert p.sessions - {} == p.sessions && p.datagrams - {} == p.datagrams && p.streams - {} == p.streams;
    assert RemoveApplications(p, {}).index == p.index;
  }

  lemma RemoveNoSessions(p: Plane)
    requires PendingStreamsExact(p.streams, p.pendingStreams)
    ensures RemoveSessions(p, {}) == p
  {
    WithoutNone(p.pendingSessions, {});
    KeepAll(p.pendingStreams, p.streams.Keys);
    assert StreamsOutside(p.streams, {}) == p.streams;
    assert p.sessions - {} == p.sessions && p.datagrams - {} == p.datagrams;
    assert IndexOutside(p.index, {}) == p.index;
  }

  /** The plane once the listeners and streams of `app` are gone but its sessions are not. */
  function WithoutStreamsOf(p: Plane, app: bytes): Plane {
    var streams := map h | h in p.streams && p.streams[h].app != app :: p.streams[h];
    p.(listeners := ListenersWithout(p.listeners, {app}),
       streams := streams,
       index := map k | k in p.index && p.index[k] in streams :: p.index[k])
  }

  /**
   Removing the sessions of `app` one by one ends with every record of `app`
   gone and every other record kept. An application without sessions has no
   streams either, so nothing is left in the pending queue.
   */
  lemma RemovalOrder(p: Plane, app: bytes)
    requires Inv(p)
    ensures RemoveSessions(WithoutStreamsOf(p, app), SessionsOf(p, {app})) == RemoveApplication(p, app)
    ensures SessionsOf(p, {app}) == {} ==> WithoutStreamsOf(p, app) == RemoveApplication(p, app)
  {
    RemovalStreams(p.streams, p.sessions, app);
    RemovalIndex(p, app);
    RemovalPending(p, app);
    var r := RemoveSessions(WithoutStreamsOf(p, app), SessionsOf(p, {app}));
    assert r.streams == RemoveApplication(p, app).streams;
    if SessionsOf(p, {app}) == {} {
      RemovalWithoutSessions(p, app);
    }
  }

  lemma RemovalWithoutSessions(p: Plane, app: bytes)
    requires IndexExact(p.streams, p.index) && StreamsOwned(p.streams, p.sessions)
    requires PendingStreamsExact(p.streams, p.pendingStreams) && SessionsOf(p, {app}) == {}
    ensures WithoutStreamsOf(p, app) == RemoveApplication(p, app)
  {
    RemovalStreams(p.streams, p.sessions, app);
    RemovalIndex(p, app);
    RemovalPending(p, app);
    assert forall h :: h in p.streams ==> p.streams[h].session !in SessionsOf(p, {app});
    assert p.sessions - {} == p.sessions && p.datagrams - {} == p.datagrams;
    assert WithoutStreamsOf(p, app).streams == RemoveApplication(p, app).streams;
  }

  lemma RemovalStreams(streams: map<bytes, Stream>, sessions: map<nat, Session>, app: bytes)
    requires StreamsOwned(streams, sessions)
    ensures var ids := set id | id in sessions && sessions[id].app == app;
            var kept := map h | h in streams && streams[h].app != app :: streams[h];
            StreamsOutside(kept, ids) == kept
            && kept == streams - (set h | h in streams && streams[h].app == app)
            && (forall h :: h in streams && streams[h].app == app ==> streams[h].session in ids)
  {
  }

  lemma RemovalPending(p: Plane, app: bytes)
    requires StreamsOwned(p.streams, p.sessions) && PendingStreamsExact(p.streams, p.pendingStreams)
    ensures var ids, hs := SessionsOf(p, {app}), HandlesOf(p, {app});
            Keep(p.pendingStreams, StreamsOutside(WithoutStreamsOf(p, app).streams, ids).Keys)
            == Without(p.pendingStreams, hs)
    ensures SessionsOf(p, {app}) == {} ==>
              Without(p.pendingSessions, SessionsOf(p, {app})) == p.pendingSessions
              && Without(p.pendingStreams, HandlesOf(p, {app})) == p.pendingStreams
  {
    var ids, hs := SessionsOf(p, {app}), HandlesOf(p, {app});
    var kept := StreamsOutside(WithoutStreamsOf(p, app).streams, ids);
    assert forall h :: h in p.streams ==> (h in kept <==> h !in hs);
    KeepIsWithout(p.pendingStreams, kept.Keys, hs);
    if ids == {} {
      WithoutNone(p.pendingSessions, ids);
      RemovalStreams(p.streams, p.sessions, app);
      assert forall h :: h in p.streams ==> p.streams[h].session !in ids;
      WithoutNone(p.pendingStreams, hs);
    }
  }

  lemma RemovalIndex(p: Plane, app: bytes)
    requires IndexExact(p.streams, p.index) && StreamsOwned(p.streams, p.sessions)
    ensures WithoutStreamsOf(p, app).index == RemoveApplication(p, app).index
    ensures RemoveSessions(WithoutStreamsOf(p, app), SessionsOf(p, {app})).index == RemoveApplication(p, app).index
  {
  }

  lemma {:induction false} AppendedListener(ls: seq<Listener>, l: Listener, protocol: bytes)
    ensures FindListener(ls + [l], protocol)
            == if FindListener(ls, protocol).Some? then FindListener(ls, protocol)
               else if l.protocol == protocol then Some(l) else None
  {
    if ls == [] {
      assert ls + [l] == [l];
    } else {
      assert (ls + [l])[1..] == ls[1..] + [l];
      AppendedListener(ls[1..], l, protocol);
    }
  }

  /** A search that ran through the first `i` listeners without a match. */
  lemma {:induction false} SearchedPrefix(ls: seq<Listener>, i: nat, protocol: bytes)
    requires i < |ls| && FindListener(ls[..i], protocol).None?
    ensures FindListener(ls[..i + 1], protocol) == if ls[i].protocol == protocol then Some(ls[i]) else None
    ensures ls[i].protocol == protocol ==> FindListener(ls, protocol) == Some(ls[i])
  {
    assert ls[..i + 1] == ls[..i] + [ls[i]];
    AppendedListener(ls[..i], ls[i], protocol);
    if ls[i].protocol == protocol {
      PrefixFinds(ls, i + 1, protocol);
    }
  }

  lemma {:induction false} PrefixFinds(ls: seq<Listener>, i: nat, protocol: bytes)
    requires i <= |ls| && FindListener(ls[..i], protocol).Some?
    ensures FindListener(ls, protocol) == FindListener(ls[..i], protocol)
  {
    if ls[0].protocol != protocol {
      assert ls[..i][1..] == ls[1..][..i - 1];
      PrefixFinds(ls[1..], i - 1, protocol);
    }
  }
}
