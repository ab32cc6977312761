/**
 The application data plane as the object that updates its containers in place.
 Every method leaves exactly the state and gives exactly the answer that the
 operation of the same name in `DataPlane` describes, and keeps the object valid;
 those that take a handle do so below the counter's maximum. Only the two methods
 that remove whole applications step by step need the invariant for that.
 */
module ApplicationDataPlane {
  import opened Bytes
  import opened Queues
  import opened DataPlane
  import opened PlaneInvariant
  import opened PlaneIsolation
  import opened PlaneRemovals

  class ApplicationDataPlane {
    var listeners: seq<Listener>
    var sessions: map<nat, Session>
    var streams: map<bytes, Stream>
    var index: map<(nat, nat), bytes>
    var pendingSessions: seq<nat>
    var pendingStreams: seq<bytes>
    var datagrams: map<nat, DatagramQueue>
    var nextHandle: nat
    var nextDatagram: nat

    ghost function Snapshot(): Plane
      reads this
    {
      Plane(listeners, sessions, streams, index, pendingSessions, pendingStreams, datagrams, nextHandle, nextDatagram)
    }

    ghost predicate Valid()
      reads this
    {
      Inv(Snapshot())
    }

    constructor ()
      ensures Valid() && Snapshot() == EMPTY_PLANE
    {
      listeners, sessions, streams, index := [], map[], map[], map[];
      pendingSessions, pendingStreams, datagrams := [], [], map[];
      nextHandle, nextDatagram := 1, 1;
      new;
      EmptyInv();
    }

    method RegisterListenerWithLimit(protocol: bytes, app: bytes, principal: nat, conn: bytes, max: nat)
      modifies this`listeners
      ensures Snapshot() == RegisterListener(old(Snapshot()), protocol, app, principal, conn, max)
      ensures old(Valid()) ==> Valid()
      ensures forall other :: other != app ==> ListenersFor(listeners, other) == ListenersFor(old(listeners), other)
    {
      if Valid() { RegisterListenerKeeps(Snapshot(), protocol, app, principal, conn, max); }
      var kept: seq<Listener> := [];
      for i := 0 to |listeners|
        invariant kept == ListenersExcept(listeners[..i], app, protocol)
      {
        assert listeners[..i + 1][..i] == listeners[..i];
        if listeners[i].app != app || listeners[i].protocol != protocol {
          kept := kept + [listeners[i]];
        }
      }
      assert listeners[..|listeners|] == listeners;
      forall other | other != app
        ensures ListenersFor(kept + [Listener(protocol, app, principal, conn, ClampPending(max))], other)
                == ListenersFor(listeners, other)
      {
        RegisteredFor(listeners, Listener(protocol, app, principal, conn, ClampPending(max)), other);
      }
      listeners := kept + [Listener(protocol, app, principal, conn, ClampPending(max))];
    }

    method RemoveListener(app: bytes)
      modifies this`listeners
      ensures Snapshot() == DataPlane.RemoveListener(old(Snapshot()), app)
      ensures old(Valid()) ==> Valid()
      ensures forall other :: other != app ==> ListenersFor(listeners, other) == ListenersFor(old(listeners), other)
    {
      if Valid() { RemoveListenerKeeps(Snapshot(), app); }
      var kept: seq<Listener> := [];
      for i := 0 to |listeners|
        invariant kept == ListenersWithout(listeners[..i], {app})
      {
        assert listeners[..i + 1][..i] == listeners[..i];
        if listeners[i].app != app {
          kept := kept + [listeners[i]];
        }
      }
      assert listeners[..|listeners|] == listeners;
      forall other | other != app ensures ListenersFor(kept, other) == ListenersFor(listeners, other) {
        ListenersWithoutFor(listeners, {app}, other);
      }
      listeners := kept;
    }

    method RemoveSession(id: nat)
      modifies this
      ensures Snapshot() == DataPlane.RemoveSession(old(Snapshot()), id)
      ensures old(Valid()) ==> Valid()
    {
      if Valid() { RemoveSessionsKeeps(Snapshot(), {id}); }
      sessions := sessions - {id};
      datagrams := datagrams - {id};
      DropStreams(id);
      index := IndexOutside(index, {id});
      pendingSessions := Without(pendingSessions, {id});
      pendingStreams := Keep(pendingStreams, streams.Keys);
    }

    method DropStreams(id: nat)
      modifies this`streams
      ensures streams == StreamsOutside(old(streams), {id})
    {
      var handles := set h | h in streams && streams[h].session == id;
      while handles != {}
        invariant handles == set h | h in streams && streams[h].session == id
        invariant StreamsOutside(streams, {id}) == StreamsOutside(old(streams), {id})
        decreases handles
      {
        var h :| h in handles;
        assert StreamsOutside(streams - {h}, {id}) == StreamsOutside(streams, {id});
        streams := streams - {h};
        handles := handles - {h};
      }
      forall h | h in streams ensures streams[h].session != id {
        assert h !in handles;
      }
      assert streams == StreamsOutside(streams, {id});
    }

    method RemoveApplication(app: bytes)
      requires Valid()
      modifies this
      ensures Snapshot() == DataPlane.RemoveApplication(old(Snapshot()), app)
      ensures Valid()
    {
      ghost var before := Snapshot();
      RemoveApplicationsKeeps(before, {app});
      DropListenersAndStreams(app);
      var ids := set id | id in sessions && sessions[id].app == app;
      assert ids == SessionsOf(before, {app});
      RemoveEach(ids);
      RemovalOrder(before, app);
    }

    method DropListenersAndStreams(app: bytes)
      modifies this
      ensures Snapshot() == WithoutStreamsOf(old(Snapshot()), app)
    {
      listeners := ListenersWithout(listeners, {app});
      streams := map h | h in streams && streams[h].app != app :: streams[h];
      index := map k | k in index && index[k] in streams :: index[k];
    }

    /** The loop over collected session ids; their order does not matter. */
    method RemoveEach(ids: set<nat>)
      modifies this
      ensures Snapshot() == if ids == {} then old(Snapshot()) else RemoveSessions(old(Snapshot()), ids)
    {
      ghost var before := Snapshot();
      var left := ids;
      ghost var done: set<nat> := {};
      while left != {}
        invariant done + left == ids
        invariant Snapshot() == if done == {} then before else RemoveSessions(before, done)
        decreases left
      {
        var id :| id in left;
        RemoveSession(id);
        RemoveSessionsCompose(before, done, {id});
        assert {} + {id} == {id};
        done := done + {id};
        left := left - {id};
      }
    }

    method RemoveConnection(conn: bytes)
      requires Valid()
      modifies this
      ensures Snapshot() == DataPlane.RemoveConnection(old(Snapshot()), conn)
      ensures Valid()
    {
      ghost var before := Snapshot();
      RemoveConnectionKeeps(before, conn);
      var apps := ListenerApps(listeners, conn);
      ghost var gone: set<bytes> := {};
      RemoveNoApplications(before);
      while apps != {}
        invariant gone + apps == ListenerApps(before.listeners, conn)
        invariant Snapshot() == RemoveApplications(before, gone)
        decreases apps
      {
        var app :| app in apps;
        RemoveApplicationsKeeps(before, gone);
        RemoveApplication(app);
        RemoveApplicationsCompose(before, gone, {app});
        gone := gone + {app};
        apps := apps - {app};
      }
      RemoveApplicationsKeeps(before, gone);
      var ids := set id | id in sessions && sessions[id].conn == conn;
      assert ids == SessionsOn(RemoveApplications(before, gone), conn);
      RemoveNoSessions(Snapshot());
      RemoveEach(ids);
    }

    method RebindApplication(app: bytes, principal: nat, conn: bytes) returns (r: Result<()>)
      modifies this
      ensures Outcome(Snapshot(), r) == DataPlane.RebindApplication(old(Snapshot()), app, principal, conn)
      ensures old(Valid()) ==> Valid()
    {
      if Valid() { RebindApplicationKeeps(Snapshot(), app, principal, conn); }
      var owned := AllOwnedBy(app, principal);
      if !owned {
        return Err(PermissionDenied);
      }
      MoveListeners(app, conn);
      sessions := RebindSessions(sessions, {app}, conn);
      streams := RebindStreams(streams, {app}, conn);
      r := Ok(());
    }

    method AllOwnedBy(app: bytes, principal: nat) returns (owned: bool)
      ensures owned == OwnedBy(Snapshot(), app, principal)
    {
      var i := 0;
      while i < |listeners|
        invariant 0 <= i <= |listeners|
        invariant forall j :: 0 <= j < i && listeners[j].app == app ==> listeners[j].principal == principal
      {
        if listeners[i].app == app && listeners[i].principal != principal {
          return false;
        }
        i := i + 1;
      }
      owned := (forall id :: id in sessions && sessions[id].app == app ==> sessions[id].principal == principal)
               && (forall h :: h in streams && streams[h].app == app ==> streams[h].principal == principal);
    }

    method MoveListeners(app: bytes, conn: bytes)
      modifies this`listeners
      ensures listeners == RebindListeners(old(listeners), {app}, conn)
    {
      ghost var before := listeners;
      var i := 0;
      while i < |listeners|
        invariant 0 <= i <= |listeners| == |before|
        invariant forall j :: 0 <= j < |listeners| ==>
                    listeners[j] == if j < i && before[j].app == app then before[j].(conn := conn) else before[j]
      {
        if listeners[i].app == app {
          listeners := listeners[i := listeners[i].(conn := conn)];
        }
        i := i + 1;
      }
    }

    method BindSessionOwned(id: nat, conn: bytes, app: bytes, principal: nat, pending: bool) returns (r: Result<()>)
      modifies this
      ensures Outcome(Snapshot(), r) == BindSession(old(Snapshot()), id, conn, app, principal, pending)
      ensures old(Valid()) ==> Valid()
    {
      if Valid() { BindSessionKeeps(Snapshot(), id, conn, app, principal, pending); }
      if id in sessions {
        var s := sessions[id];
        if s.app != app || s.principal != principal || s.conn != conn {
          return Err(PermissionDenied);
        }
        return Ok(());
      }
      sessions := sessions[id := Session(app, principal, conn, pending)];
      if pending {
        pendingSessions := pendingSessions + [id];
      }
      r := Ok(());
    }

    method AllocateHandle() returns (handle: bytes)
      modifies this`nextHandle
      ensures handle == HandleOf(old(nextHandle)) && nextHandle == SaturatingIncrement(old(nextHandle))
    {
      var id := nextHandle;
      nextHandle := SaturatingIncrement(nextHandle);
      handle := BigEndian(id, 8) + BigEndian(nextHandle, 8);
    }

    method OpenStream(
      principal: nat, conn: bytes, app: bytes, session: nat, stream: nat, protocol: bytes)
      returns (r: Result<bytes>)
      modifies this
      ensures Outcome(Snapshot(), r)
              == DataPlane.OpenStream(old(Snapshot()), principal, conn, app, session, stream, protocol)
      ensures old(Valid()) && old(nextHandle) < U64_MAX ==> Valid()
    {
      if Valid() && nextHandle < U64_MAX {
        OpenStreamKeeps(Snapshot(), principal, conn, app, session, stream, protocol);
      }
      var bound := BindSessionOwned(session, conn, app, principal, false);
      if bound.Err? {
        return Err(bound.error);
      }
      if (session, stream) in index {
        return Err(AlreadyAccepted);
      }
      var handle := AllocateHandle();
      index := index[(session, stream) := handle];
      streams := streams[handle := FreshStream(session, stream, app, principal, conn, protocol, false)];
      r := Ok(handle);
    }

    method FirstListener(protocol: bytes) returns (found: Option<Listener>)
      ensures found == FindListener(listeners, protocol)
    {
      var i := 0;
      while i < |listeners|
        invariant 0 <= i <= |listeners|
        invariant FindListener(listeners[..i], protocol).None?
      {
        SearchedPrefix(listeners, i, protocol);
        if listeners[i].protocol == protocol {
          return Some(listeners[i]);
        }
        i := i + 1;
      }
      assert listeners[..i] == listeners;
      found := None;
    }

    method RouteIncomingStream(session: nat, stream: nat, protocol: bytes, data: bytes, eof: bool)
      returns (r: Result<bytes>)
      modifies this
      ensures Outcome(Snapshot(), r)
              == DataPlane.RouteIncomingStream(old(Snapshot()), session, stream, protocol, data, eof)
      ensures old(Valid()) && old(nextHandle) < U64_MAX ==> Valid()
    {
      if Valid() && nextHandle < U64_MAX { RouteIncomingStreamKeeps(Snapshot(), session, stream, protocol, data, eof); }
      var found := FirstListener(protocol);
      if found.None? {
        return Err(NotFound);
      }
      var l := found.value;
      var admitted := Admit(l, session);
      if admitted.Err? {
        return Err(admitted.error);
      }
      if sessions[session].app != l.app {
        return Err(PermissionDenied);
      }
      var handle := Attach(l, session, stream, protocol);
      var pushed := PushStreamData(handle, data, eof);
      r := if pushed.Err? then Err(pushed.error) else Ok(handle);
    }

    method Admit(l: Listener, session: nat) returns (r: Result<()>)
      modifies this`sessions, this`pendingSessions
      ensures Outcome(Snapshot(), r) == AdmitSession(old(Snapshot()), l, session)
    {
      if session !in sessions {
        var waiting := set id | id in sessions && sessions[id].pending && sessions[id].app == l.app;
        assert waiting == PendingOf(sessions, l.app);
        if |waiting| >= l.maxPending {
          return Err(QueueFull);
        }
        pendingSessions := pendingSessions + [session];
        sessions := sessions[session := Session(l.app, l.principal, l.conn, true)];
      }
      r := Ok(());
    }

    method Attach(l: Listener, session: nat, stream: nat, protocol: bytes) returns (handle: bytes)
      modifies this
      ensures Snapshot() == AttachStream(old(Snapshot()), l, session, stream, protocol)
      ensures handle == index[(session, stream)]
    {
      if (session, stream) in index {
        handle := index[(session, stream)];
      } else {
        handle := AllocateHandle();
        index := index[(session, stream) := handle];
        streams := streams[handle := FreshStream(session, stream, l.app, l.principal, l.conn, protocol, true)];
        pendingStreams := pendingStreams + [handle];
      }
    }

    method PushStreamData(h: bytes, data: bytes, eof: bool) returns (r: Result<()>)
      modifies this`streams
      ensures Outcome(Snapshot(), r) == DataPlane.PushStreamData(old(Snapshot()), h, data, eof)
      ensures old(Valid()) ==> Valid()
    {
      if Valid() { PushStreamDataKeeps(Snapshot(), h, data, eof); }
      if h !in streams {
        return Err(NotFound);
      }
      if streams[h].queuedBytes + |data| > MAX_STREAM_BUFFER_BYTES {
        return Err(QueueFull);
      }
      Enqueue(h, data, eof);
      r := Ok(());
    }

    method Enqueue(h: bytes, data: bytes, eof: bool)
      requires h in streams
      modifies this`streams
      ensures streams == old(streams)[h := PushedStream(old(streams[h]), data, eof)]
    {
      var s := streams[h];
      s := s.(queuedBytes := s.queuedBytes + |data|);
      if eof {
        s := s.(eof := true);
      }
      if data != [] {
        s := s.(queued := s.queued + [data]);
      }
      streams := streams[h := s];
    }

    method RouteStreamData(session: nat, stream: nat, protocol: bytes, data: bytes, eof: bool)
      returns (r: Result<bool>)
      modifies this
      ensures Outcome(Snapshot(), r)
              == DataPlane.RouteStreamData(old(Snapshot()), session, stream, protocol, data, eof)
      ensures old(Valid()) && old(nextHandle) < U64_MAX ==> Valid()
    {
      if Valid() && nextHandle < U64_MAX { RouteStreamDataKeeps(Snapshot(), session, stream, protocol, data, eof); }
      if (session, stream) in index {
        var h := index[(session, stream)];
        if h !in streams {
          return Err(NotFound);
        }
        if streams[h].protocol != protocol {
          return Err(PermissionDenied);
        }
        var pushed := PushStreamData(h, data, eof);
        return if pushed.Err? then Err(pushed.error) else Ok(true);
      }
      var found := FirstListener(protocol);
      if found.Some? {
        var routed := RouteIncomingStream(session, stream, protocol, data, eof);
        return if routed.Err? then Err(routed.error) else Ok(true);
      }
      r := Ok(false);
    }

    method AcceptSession(id: nat, principal: nat, conn: bytes) returns (r: Result<()>)
      modifies this
      ensures Outcome(Snapshot(), r) == DataPlane.AcceptSession(old(Snapshot()), id, principal, conn)
      ensures old(Valid()) ==> Valid()
    {
      if Valid() { AcceptSessionKeeps(Snapshot(), id, principal, conn); }
      if id !in sessions {
        return Err(NotFound);
      }
      var s := sessions[id];
      if s.principal != principal || s.conn != conn {
        return Err(PermissionDenied);
      }
      if !s.pending {
        return Err(AlreadyAccepted);
      }
      sessions := sessions[id := s.(pending := false)];
      pendingSessions := Without(pendingSessions, {id});
      r := Ok(());
    }

    method RejectSession(id: nat, principal: nat, conn: bytes) returns (r: Result<()>)
      modifies this
      ensures Outcome(Snapshot(), r) == DataPlane.RejectSession(old(Snapshot()), id, principal, conn)
      ensures old(Valid()) ==> Valid()
    {
      if Valid() { RejectSessionKeeps(Snapshot(), id, principal, conn); }
      if id !in sessions {
        return Err(NotFound);
      }
      if sessions[id].principal != principal || sessions[id].conn != conn {
        return Err(PermissionDenied);
      }
      RemoveSession(id);
      r := Ok(());
    }

    method AcceptStream(h: bytes, principal: nat, conn: bytes) returns (r: Result<()>)
      modifies this
      ensures Outcome(Snapshot(), r) == DataPlane.AcceptStream(old(Snapshot()), h, principal, conn)
      ensures old(Valid()) ==> Valid()
    {
      if Valid() { AcceptStreamKeeps(Snapshot(), h, principal, conn); }
      var denied := AuthorizedStream(h, principal, conn);
      if denied.Some? {
        return Err(denied.value);
      }
      if !streams[h].pending {
        return Err(AlreadyAccepted);
      }
      streams := streams[h := streams[h].(pending := false)];
      pendingStreams := Without(pendingStreams, {h});
      r := Ok(());
    }

    method RejectStream(h: bytes, principal: nat, conn: bytes) returns (r: Result<()>)
      modifies this
      ensures Outcome(Snapshot(), r) == DataPlane.RejectStream(old(Snapshot()), h, principal, conn)
      ensures old(Valid()) ==> Valid()
    {
      if Valid() { RejectStreamKeeps(Snapshot(), h, principal, conn); }
      var denied := AuthorizedStream(h, principal, conn);
      if denied.Some? {
        return Err(denied.value);
      }
      var s := streams[h];
      streams := streams - {h};
      index := index - {(s.session, s.stream)};
      pendingStreams := Without(pendingStreams, {h});
      r := Ok(());
    }

    /** Why the caller may not use the stream; no answer means that it is its owner. */
    method AuthorizedStream(h: bytes, principal: nat, conn: bytes) returns (denied: Option<Error>)
      ensures denied == StreamDenied(Snapshot(), h, principal, conn)
    {
      if h !in streams {
        return Some(NotFound);
      }
      if streams[h].principal != principal || streams[h].conn != conn {
        return Some(PermissionDenied);
      }
      denied := None;
    }

    method MarkStreamReset(h: bytes, principal: nat, conn: bytes, code: nat) returns (r: Result<()>)
      modifies this`streams
      ensures Outcome(Snapshot(), r) == DataPlane.MarkStreamReset(old(Snapshot()), h, principal, conn, code)
      ensures old(Valid()) ==> Valid()
    {
      if Valid() { MarkStreamResetKeeps(Snapshot(), h, principal, conn, code); }
      var denied := AuthorizedStream(h, principal, conn);
      if denied.Some? {
        return Err(denied.value);
      }
      streams := streams[h := streams[h].(reset := Some(code), queued := [], queuedBytes := 0)];
      r := Ok(());
    }

    method MarkStreamResetForSession(session: nat, stream: nat, code: nat) returns (r: Result<bool>)
      modifies this`streams
      ensures Outcome(Snapshot(), r) == DataPlane.MarkStreamResetForSession(old(Snapshot()), session, stream, code)
      ensures old(Valid()) ==> Valid()
    {
      if Valid() { MarkStreamResetForSessionKeeps(Snapshot(), session, stream, code); }
      if (session, stream) !in index {
        return Ok(false);
      }
      var h := index[(session, stream)];
      if h !in streams {
        return Err(NotFound);
      }
      streams := streams[h := streams[h].(reset := Some(code), queued := [], queuedBytes := 0)];
      r := Ok(true);
    }

    method ReadStream(h: bytes, principal: nat, conn: bytes, max: nat, wait: bool)
      returns (r: Result<Option<StreamRead>>)
      modifies this`streams
      ensures Outcome(Snapshot(), r) == DataPlane.ReadStream(old(Snapshot()), h, principal, conn, max, wait)
      ensures old(Valid()) ==> Valid()
    {
      if Valid() { ReadStreamKeeps(Snapshot(), h, principal, conn, max, wait); }
      var denied := AuthorizedStream(h, principal, conn);
      if denied.Some? {
        return Err(denied.value);
      }
      var s := streams[h];
      if s.pending {
        return Err(Pending);
      }
      if s.reset.Some? {
        return Ok(Some(StreamRead([], false, true, s.reset.value)));
      }
      if max == 0 {
        return Err(InvalidArgument);
      }
      if s.queued == [] {
        if s.eof {
          return Ok(Some(StreamRead([], true, false, 0)));
        }
        return if wait then Err(WouldBlock) else Ok(None);
      }
      var read := TakeChunk(h, max);
      r := Ok(Some(read));
    }

    /** The first chunk leaves the queue, and what exceeds the limit is put back. */
    method TakeChunk(h: bytes, max: nat) returns (read: StreamRead)
      requires h in streams && streams[h].queued != []
      modifies this`streams
      ensures var (s, taken) := ReadQueue(old(streams[h]), max); streams == old(streams)[h := s] && read == taken
    {
      var s := streams[h];
      var data := s.queued[0];
      s := s.(queued := s.queued[1..], queuedBytes := SaturatingSub(s.queuedBytes, |data|));
      var eof := s.eof && s.queued == [];
      if |data| > max {
        var tail := data[max..];
        data := data[..max];
        s := s.(queuedBytes := s.queuedBytes + |tail|, queued := [tail] + s.queued);
      }
      streams := streams[h := s];
      read := StreamRead(data, eof, false, 0);
    }

    method CloseStreamSend(h: bytes, principal: nat, conn: bytes) returns (r: Result<()>)
      modifies this`streams
      ensures Outcome(Snapshot(), r) == DataPlane.CloseStreamSend(old(Snapshot()), h, principal, conn)
      ensures old(Valid()) ==> Valid()
    {
      if Valid() { CloseStreamSendKeeps(Snapshot(), h, principal, conn); }
      var denied := AuthorizedStream(h, principal, conn);
      if denied.Some? {
        return Err(denied.value);
      }
      streams := streams[h := streams[h].(sendClosed := true)];
      r := Ok(());
    }

    method PushDatagram(id: nat, context: nat, data: bytes, expired: bool) returns (r: Result<()>)
      modifies this`datagrams
      ensures Outcome(Snapshot(), r) == DataPlane.PushDatagram(old(Snapshot()), id, context, data, expired)
      ensures old(Valid()) ==> Valid()
    {
      if Valid() { PushDatagramKeeps(Snapshot(), id, context, data, expired); }
      var queue := QueueOf(id);
      if |queue.entries| >= MAX_DATAGRAM_QUEUE || queue.bytes + |data| > MAX_DATAGRAM_BYTES {
        return Err(QueueFull);
      }
      datagrams := datagrams[id := DatagramQueue(queue.bytes + |data|,
                                                 queue.entries + [Datagram(context, data, expired)])];
      r := Ok(());
    }

    /** Looking a queue up creates it. */
    method QueueOf(id: nat) returns (queue: DatagramQueue)
      modifies this`datagrams
      ensures queue == DatagramsOf(old(Snapshot()), id) && datagrams == old(datagrams)[id := queue]
    {
      if id !in datagrams {
        datagrams := datagrams[id := DatagramQueue(0, [])];
      }
      queue := datagrams[id];
      assert datagrams == old(datagrams)[id := queue];
    }

    method ReceiveDatagram(id: nat, conn: bytes, max: nat, wait: bool) returns (r: Result<Option<Datagram>>)
      modifies this`datagrams
      ensures Outcome(Snapshot(), r) == DataPlane.ReceiveDatagram(old(Snapshot()), id, conn, max, wait)
      ensures old(Valid()) ==> Valid()
    {
      if Valid() { ReceiveDatagramKeeps(Snapshot(), id, conn, max, wait); }
      if id !in sessions {
        return Err(NotFound);
      }
      if sessions[id].conn != conn {
        return Err(PermissionDenied);
      }
      if max == 0 {
        return Err(InvalidArgument);
      }
      var queue := QueueOf(id);
      if queue.entries == [] {
        return if wait then Err(WouldBlock) else Ok(None);
      }
      var first := queue.entries[0];
      if |first.data| > max {
        return Err(InvalidArgument);
      }
      datagrams := datagrams[id := DatagramQueue(SaturatingSub(queue.bytes, |first.data|), queue.entries[1..])];
      r := Ok(Some(first));
    }

    method AllocateDatagramId() returns (id: nat)
      modifies this`nextDatagram
      ensures (Snapshot(), id) == DataPlane.AllocateDatagramId(old(Snapshot()))
      ensures old(Valid()) ==> Valid()
    {
      if Valid() { AllocateDatagramIdKeeps(Snapshot()); }
      id := nextDatagram;
      nextDatagram := SaturatingIncrement(nextDatagram);
    }
  }
}
