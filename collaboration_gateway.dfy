/**
 * The room-presence registry and event relay of the realtime server
 * (backend/src/collaboration/collaboration.gateway.ts).
 *
 * The gateway keeps two mirror indices, user -> rooms and room -> users,
 * that its join, leave and disconnect handlers update; the transport keeps
 * each socket's room membership; and every handler emits messages, either to
 * the calling socket or to the other sockets of a room.  The model records
 * each emit call in an outbox, in order.
 */
module Collaboration {
  import opened Wrappers

  type UserId = int
  type RoomId = string
  type SocketId = string

  const UserJoined: string := "userJoined"
  const UserLeft: string := "userLeft"
  const RoomJoined: string := "roomJoined"
  const RoomLeft: string := "roomLeft"
  const Error: string := "error"
  const CourseMoved: string := "courseMoved"
  const CourseUpdated: string := "courseUpdated"
  const CourseAdded: string := "courseAdded"
  const CourseDeleted: string := "courseDeleted"

  const NotAuthenticatedMessage: string := "User not authenticated"

  /** A client-supplied value the relay forwards without looking at it; it may be absent. */
  datatype Field = Missing | Present(json: string)

  /** The payload objects the gateway emits. */
  datatype Payload =
    | UserPayload(userId: UserId)          // { userId }
    | RoomPayload(roomId: RoomId)          // { roomId }
    | ErrorPayload(message: string)        // { message }
    | CoursePayload(course: Field)         // { course }
    | CourseIdPayload(courseId: Field)     // { courseId }

  /**
   * One emit call: `client.emit(...)` reaches the calling socket only;
   * `client.to(room).emit(...)` reaches the sockets that were in the room at
   * that moment, the calling socket excepted.
   */
  datatype Emission =
    | Direct(socket: SocketId, event: string, payload: Payload)
    | Broadcast(room: RoomId, recipients: set<SocketId>, event: string, payload: Payload)

  /** What one socket receives. */
  datatype Message = Message(event: string, payload: Payload)

  /** The body of a relayed course event; `course` or `courseId` may be missing. */
  datatype RelayBody = RelayBody(roomId: RoomId, course: Field, courseId: Field)

  /** `if (!userId)` fails for an absent id and for the falsy id 0. */
  predicate Authenticated(userId: Option<UserId>)
  {
    userId.Some? && userId.value != 0
  }

  /** The set stored under `k`, or the empty set when there is no entry. */
  function Members<K, V>(m: map<K, set<V>>, k: K): set<V>
  {
    if k in m then m[k] else {}
  }

  /** `if (!m.has(k)) m.set(k, new Set()); m.get(k).add(v)` */
  function AddTo<K(!new), V>(m: map<K, set<V>>, k: K, v: V): (r: map<K, set<V>>)
    ensures r.Keys == m.Keys + {k}
    ensures forall k' :: Members(r, k') == if k' == k then Members(m, k) + {v} else Members(m, k')
  {
    m[k := Members(m, k) + {v}]
  }

  /** `const s = m.get(k); if (s) s.delete(v)`: the entry stays, possibly empty. */
  function RemoveFrom<K(!new), V>(m: map<K, set<V>>, k: K, v: V): (r: map<K, set<V>>)
    ensures r.Keys == m.Keys
    ensures forall k' :: Members(r, k') == if k' == k then Members(m, k) - {v} else Members(m, k')
  {
    if k in m then m[k := m[k] - {v}] else m
  }

  /** The room -> users index after `u` is deleted from the entries of `rooms`. */
  function PurgeUser(roomUsers: map<RoomId, set<UserId>>, rooms: set<RoomId>, u: UserId): (r: map<RoomId, set<UserId>>)
    ensures r.Keys == roomUsers.Keys
  {
    map room | room in roomUsers :: if room in rooms then roomUsers[room] - {u} else roomUsers[room]
  }

  /** The transport's room membership once socket `s` has closed. */
  function LeaveAll(sockets: map<RoomId, set<SocketId>>, s: SocketId): (r: map<RoomId, set<SocketId>>)
    ensures r.Keys == sockets.Keys
    ensures forall room :: Members(r, room) == Members(sockets, room) - {s}
  {
    map room | room in sockets :: sockets[room] - {s}
  }

  /** The invariant of the two indices: `room in userRooms[u]` exactly when `u in roomUsers[room]`. */
  ghost predicate Mirror(userRooms: map<UserId, set<RoomId>>, roomUsers: map<RoomId, set<UserId>>)
  {
    forall u, room :: room in Members(userRooms, u) <==> u in Members(roomUsers, room)
  }

  /** The `userLeft` notice sent to `room` when the user `u` of socket `client` disconnects. */
  function LeftNotice(sockets: map<RoomId, set<SocketId>>, client: SocketId, u: UserId, room: RoomId): Emission
  {
    Broadcast(room, Members(sockets, room) - {client}, UserLeft, UserPayload(u))
  }

  /** `order` lists the elements of `rooms`, each exactly once. */
  ghost predicate Listing(order: seq<RoomId>, rooms: set<RoomId>)
  {
    && (forall i, j | 0 <= i < j < |order| :: order[i] != order[j])
    && (forall room :: room in order <==> room in rooms)
  }

  /** One `LeftNotice` per room of `order`, in that order. */
  function LeftNotices(order: seq<RoomId>, sockets: map<RoomId, set<SocketId>>, client: SocketId, u: UserId): (sent: seq<Emission>)
    ensures |sent| == |order|
    ensures forall k | 0 <= k < |order| :: sent[k] == LeftNotice(sockets, client, u, order[k])
  {
    if order == [] then []
    else LeftNotices(order[..|order| - 1], sockets, client, u) + [LeftNotice(sockets, client, u, order[|order| - 1])]
  }

  /** Whether socket `s` receives emission `e`. */
  predicate Receives(e: Emission, s: SocketId)
  {
    match e
    case Direct(target, _, _) => target == s
    case Broadcast(_, recipients, _, _) => s in recipients
  }

  /** The messages socket `s` receives from the emissions `out`, in order. */
  function Inbox(out: seq<Emission>, s: SocketId): seq<Message>
  {
    if out == [] then []
    else
      var e := out[|out| - 1];
      Inbox(out[..|out| - 1], s) + (if Receives(e, s) then [Message(e.event, e.payload)] else [])
  }

  class CollaborationGateway {
    /** user id -> ids of the rooms the user has joined */
    var userRooms: map<UserId, set<RoomId>>
    /** room id -> ids of the users in the room */
    var roomUsers: map<RoomId, set<UserId>>
    /** room id -> ids of the sockets the transport has put in the room */
    var sockets: map<RoomId, set<SocketId>>
    /** every emit call made so far */
    var outbox: seq<Emission>

    ghost predicate Valid()
      reads this
    {
      Mirror(userRooms, roomUsers)
    }

    constructor ()
      ensures Valid()
      ensures userRooms == map[] && roomUsers == map[] && sockets == map[] && outbox == []
    {
      userRooms := map[];
      roomUsers := map[];
      sockets := map[];
      outbox := [];
    }

    /** `client.emit(event, payload)` */
    method EmitTo(client: SocketId, event: string, payload: Payload)
      modifies this`outbox
      ensures outbox == old(outbox) + [Direct(client, event, payload)]
    {
      outbox := outbox + [Direct(client, event, payload)];
    }

    /** `client.to(room).emit(event, payload)`: every socket in the room but the caller. */
    method EmitToRoom(client: SocketId, room: RoomId, event: string, payload: Payload)
      modifies this`outbox
      ensures outbox == old(outbox) + [Broadcast(room, Members(sockets, room) - {client}, event, payload)]
    {
      outbox := outbox + [Broadcast(room, Members(sockets, room) - {client}, event, payload)];
    }

    /**
     * `handleDisconnect`.  The transport has taken the socket out of all its
     * rooms.  With an authenticated id that has an entry, the user leaves every
     * room of that entry which has a users entry, each such room is told
     * `userLeft` once, and the user's entry is deleted.  Otherwise nothing more
     * happens.  Membership is keyed by user, so the user leaves even when
     * another of its sockets is still open.
     */
    method HandleDisconnect(client: SocketId, userId: Option<UserId>)
      modifies this
      ensures sockets == LeaveAll(old(sockets), client)
      ensures !(Authenticated(userId) && userId.value in old(userRooms)) ==>
        userRooms == old(userRooms) && roomUsers == old(roomUsers) && outbox == old(outbox)
      ensures Authenticated(userId) && userId.value in old(userRooms) ==>
        var u := userId.value;
        var rooms := old(userRooms)[u];
        && userRooms == old(userRooms) - {u}
        && roomUsers == PurgeUser(old(roomUsers), rooms, u)
        && exists order ::
             Listing(order, rooms * old(roomUsers).Keys) &&
             outbox == old(outbox) + LeftNotices(order, sockets, client, u)
      ensures old(Valid()) ==> Valid()
    {
      sockets := LeaveAll(sockets, client);
      if !Authenticated(userId) || userId.value !in userRooms {
        return;
      }
      var u := userId.value;
      ghost var wasValid := Valid();
      var users, sent, order := ForEachRoomLeave(roomUsers, userRooms[u], u, sockets, client);
      if wasValid {
        PurgeKeepsMirror(userRooms, roomUsers, u);
      }
      roomUsers := users;
      outbox := outbox + sent;
      userRooms := userRooms - {u};
    }

    /**
     * `handleJoinRoom`.  Without an authenticated id: one `error` to the caller
     * and nothing else.  Otherwise the socket joins the room, the pair is added
     * to both indices (creating missing entries), the room's other sockets
     * are told `userJoined`, and the caller gets `roomJoined`.
     */
    method HandleJoinRoom(client: SocketId, userId: Option<UserId>, roomId: RoomId)
      modifies this
      ensures !Authenticated(userId) ==>
        && userRooms == old(userRooms) && roomUsers == old(roomUsers) && sockets == old(sockets)
        && outbox == old(outbox) + [Direct(client, Error, ErrorPayload(NotAuthenticatedMessage))]
      ensures Authenticated(userId) ==>
        var u := userId.value;
        && sockets == AddTo(old(sockets), roomId, client)
        && userRooms == AddTo(old(userRooms), u, roomId)
        && roomUsers == AddTo(old(roomUsers), roomId, u)
        && outbox == old(outbox) + [Broadcast(roomId, Members(old(sockets), roomId) - {client}, UserJoined, UserPayload(u)),
                                    Direct(client, RoomJoined, RoomPayload(roomId))]
      ensures old(Valid()) ==> Valid()
    {
      if !Authenticated(userId) {
        EmitTo(client, Error, ErrorPayload(NotAuthenticatedMessage));
        return;
      }
      var u := userId.value;
      ghost var wasValid := Valid();
      var others := Members(sockets, roomId) - {client};
      sockets := AddTo(sockets, roomId, client);                   // client.join(roomId)
      var rooms := userRooms;
      if u !in rooms {
        rooms := rooms[u := {}];
      }
      rooms := rooms[u := rooms[u] + {roomId}];
      var users := roomUsers;
      if roomId !in users {
        users := users[roomId := {}];
      }
      users := users[roomId := users[roomId] + {u}];
      assert rooms == AddTo(userRooms, u, roomId);
      assert users == AddTo(roomUsers, roomId, u);
      if wasValid {
        JoinKeepsMirror(userRooms, roomUsers, u, roomId);
      }
      userRooms, roomUsers := rooms, users;
      assert Members(sockets, roomId) - {client} == others;
      EmitToRoom(client, roomId, UserJoined, UserPayload(u));
      EmitTo(client, RoomJoined, RoomPayload(roomId));
    }

    /**
     * `handleLeaveRoom`.  Without an authenticated id: one `error` to the caller
     * and nothing else.  Otherwise the socket leaves the room, the pair is
     * removed from both indices (missing entries tolerated), the room's other
     * sockets are told `userLeft` when the room has a users entry, and the
     * caller gets `roomLeft`.
     */
    method HandleLeaveRoom(client: SocketId, userId: Option<UserId>, roomId: RoomId)
      modifies this
      ensures !Authenticated(userId) ==>
        && userRooms == old(userRooms) && roomUsers == old(roomUsers) && sockets == old(sockets)
        && outbox == old(outbox) + [Direct(client, Error, ErrorPayload(NotAuthenticatedMessage))]
      ensures Authenticated(userId) ==>
        var u := userId.value;
        && sockets == RemoveFrom(old(sockets), roomId, client)
        && userRooms == RemoveFrom(old(userRooms), u, roomId)
        && roomUsers == RemoveFrom(old(roomUsers), roomId, u)
        && outbox == old(outbox)
                     + (if roomId in old(roomUsers)
                        then [Broadcast(roomId, Members(old(sockets), roomId) - {client}, UserLeft, UserPayload(u))]
                        else [])
                     + [Direct(client, RoomLeft, RoomPayload(roomId))]
      ensures old(Valid()) ==> Valid()
    {
      if !Authenticated(userId) {
        EmitTo(client, Error, ErrorPayload(NotAuthenticatedMessage));
        return;
      }
      var u := userId.value;
      sockets := RemoveFrom(sockets, roomId, client);              // client.leave(roomId)
      if u in userRooms {
        userRooms := userRooms[u := userRooms[u] - {roomId}];
      }
      assert Members(sockets, roomId) - {client} == Members(old(sockets), roomId) - {client};
      if roomId in roomUsers {
        roomUsers := roomUsers[roomId := roomUsers[roomId] - {u}];
        EmitToRoom(client, roomId, UserLeft, UserPayload(u));
      }
      EmitTo(client, RoomLeft, RoomPayload(roomId));
      if old(Valid()) {
        LeaveKeepsMirror(old(userRooms), old(roomUsers), u, roomId);
      }
    }

    /** `handleCourseMoved`: `{course}` to the room's other sockets; the indices are untouched. */
    method HandleCourseMoved(client: SocketId, body: RelayBody)
      modifies this`outbox
      ensures outbox == old(outbox) + [Broadcast(body.roomId, Members(sockets, body.roomId) - {client}, CourseMoved, CoursePayload(body.course))]
    {
      EmitToRoom(client, body.roomId, CourseMoved, CoursePayload(body.course));
    }

    /** `handleCourseUpdated`: `{course}` to the room's other sockets; the indices are untouched. */
    method HandleCourseUpdated(client: SocketId, body: RelayBody)
      modifies this`outbox
      ensures outbox == old(outbox) + [Broadcast(body.roomId, Members(sockets, body.roomId) - {client}, CourseUpdated, CoursePayload(body.course))]
    {
      EmitToRoom(client, body.roomId, CourseUpdated, CoursePayload(body.course));
    }

    /** `handleCourseAdded`: `{course}` to the room's other sockets; the indices are untouched. */
    method HandleCourseAdded(client: SocketId, body: RelayBody)
      modifies this`outbox
      ensures outbox == old(outbox) + [Broadcast(body.roomId, Members(sockets, body.roomId) - {client}, CourseAdded, CoursePayload(body.course))]
    {
      EmitToRoom(client, body.roomId, CourseAdded, CoursePayload(body.course));
    }

    /** `handleCourseDeleted`: `{courseId}` to the room's other sockets; the indices are untouched. */
    method HandleCourseDeleted(client: SocketId, body: RelayBody)
      modifies this`outbox
      ensures outbox == old(outbox) + [Broadcast(body.roomId, Members(sockets, body.roomId) - {client}, CourseDeleted, CourseIdPayload(body.courseId))]
    {
      EmitToRoom(client, body.roomId, CourseDeleted, CourseIdPayload(body.courseId));
    }
  }

  /**
   * The `rooms.forEach` loop of `handleDisconnect`: for each room of `rooms`
   * that has a users entry, `u` is deleted from it and the room's other
   * sockets get one `userLeft` notice.  The rooms are visited in some order.
   */
  method ForEachRoomLeave(roomUsers: map<RoomId, set<UserId>>, rooms: set<RoomId>, u: UserId,
                          sockets: map<RoomId, set<SocketId>>, client: SocketId)
    returns (users: map<RoomId, set<UserId>>, sent: seq<Emission>, ghost order: seq<RoomId>)
    ensures users == PurgeUser(roomUsers, rooms, u)
    ensures Listing(order, rooms * roomUsers.Keys)
    ensures sent == LeftNotices(order, sockets, client, u)
  {
    users := roomUsers;
    sent := [];
    order := [];
    var todo := rooms;
    ghost var done: set<RoomId> := {};
    while todo != {}
      invariant todo == rooms - done && done <= rooms
      invariant users == PurgeUser(roomUsers, done, u)
      invariant Listing(order, done * roomUsers.Keys)
      invariant sent == LeftNotices(order, sockets, client, u)
      decreases todo
    {
      var roomId :| roomId in todo;
      RoomLeaveStep(roomUsers, done, roomId, u, order, sockets, client);
      if roomId in users {
        users := users[roomId := users[roomId] - {u}];
        sent := sent + [LeftNotice(sockets, client, u, roomId)];
        order := order + [roomId];
        assert users == PurgeUser(roomUsers, done + {roomId}, u);
        assert Listing(order, (done + {roomId}) * roomUsers.Keys);
      } else {
        assert users == PurgeUser(roomUsers, done + {roomId}, u);
        assert Listing(order, (done + {roomId}) * roomUsers.Keys);
      }
      todo := todo - {roomId};
      done := done + {roomId};
    }
  }

  /** What visiting one more room does to the purge, the listing and the notices. */
  lemma RoomLeaveStep(roomUsers: map<RoomId, set<UserId>>, done: set<RoomId>, room: RoomId, u: UserId,
                      order: seq<RoomId>, sockets: map<RoomId, set<SocketId>>, client: SocketId)
    requires room !in done && Listing(order, done * roomUsers.Keys)
    ensures room in roomUsers ==>
      && PurgeUser(roomUsers, done + {room}, u) == PurgeUser(roomUsers, done, u)[room := roomUsers[room] - {u}]
      && Listing(order + [room], (done + {room}) * roomUsers.Keys)
      && LeftNotices(order + [room], sockets, client, u) == LeftNotices(order, sockets, client, u) + [LeftNotice(sockets, client, u, room)]
    ensures room !in roomUsers ==>
      && PurgeUser(roomUsers, done + {room}, u) == PurgeUser(roomUsers, done, u)
      && (done + {room}) * roomUsers.Keys == done * roomUsers.Keys
  {
    if room in roomUsers {
      PurgeStep(roomUsers, done, room, u);
      ListingStep(order, done * roomUsers.Keys, room);
      assert (done + {room}) * roomUsers.Keys == done * roomUsers.Keys + {room};
      assert (order + [room])[..|order|] == order;
    }
  }

  /** A listing extended by a new element lists the extended set. */
  lemma ListingStep(order: seq<RoomId>, rooms: set<RoomId>, room: RoomId)
    requires Listing(order, rooms) && room !in rooms
    ensures Listing(order + [room], rooms + {room})
  {
  }

  /** Purging one more room extends the purge by one map update. */
  lemma PurgeStep(roomUsers: map<RoomId, set<UserId>>, done: set<RoomId>, room: RoomId, u: UserId)
    requires room in roomUsers && room !in done
    ensures PurgeUser(roomUsers, done + {room}, u)
         == PurgeUser(roomUsers, done, u)[room := roomUsers[room] - {u}]
  {
  }

  /** Adding the pair (u, room) to both indices keeps them mirrored. */
  lemma JoinKeepsMirror(userRooms: map<UserId, set<RoomId>>, roomUsers: map<RoomId, set<UserId>>, u: UserId, room: RoomId)
    requires Mirror(userRooms, roomUsers)
    ensures Mirror(AddTo(userRooms, u, room), AddTo(roomUsers, room, u))
  {
    var userRooms', roomUsers' := AddTo(userRooms, u, room), AddTo(roomUsers, room, u);
    forall u', room' ensures room' in Members(userRooms', u') <==> u' in Members(roomUsers', room') {
      assert room' in Members(userRooms, u') <==> u' in Members(roomUsers, room');
    }
  }

  /** Removing the pair (u, room) from both indices keeps them mirrored. */
  lemma LeaveKeepsMirror(userRooms: map<UserId, set<RoomId>>, roomUsers: map<RoomId, set<UserId>>, u: UserId, room: RoomId)
    requires Mirror(userRooms, roomUsers)
    ensures Mirror(RemoveFrom(userRooms, u, room), RemoveFrom(roomUsers, room, u))
  {
    var userRooms', roomUsers' := RemoveFrom(userRooms, u, room), RemoveFrom(roomUsers, room, u);
    forall u', room' ensures room' in Members(userRooms', u') <==> u' in Members(roomUsers', room') {
      assert room' in Members(userRooms, u') <==> u' in Members(roomUsers, room');
    }
  }

  /** Disconnecting keeps the indices mirrored. */
  lemma PurgeKeepsMirror(userRooms: map<UserId, set<RoomId>>, roomUsers: map<RoomId, set<UserId>>, u: UserId)
    requires Mirror(userRooms, roomUsers) && u in userRooms
    ensures Mirror(userRooms - {u}, PurgeUser(roomUsers, userRooms[u], u))
  {
    var userRooms', roomUsers' := userRooms - {u}, PurgeUser(roomUsers, userRooms[u], u);
    forall u', room' ensures room' in Members(userRooms', u') <==> u' in Members(roomUsers', room') {
      assert room' in Members(userRooms, u') <==> u' in Members(roomUsers, room');
      assert Members(userRooms', u') == if u' == u then {} else Members(userRooms, u');
    }
  }

  /**
   * After a disconnect of a user with an entry, the user has no rooms and is
   * in no room's users, provided the indices were mirrored.
   */
  lemma PurgeComplete(userRooms: map<UserId, set<RoomId>>, roomUsers: map<RoomId, set<UserId>>, u: UserId, room: RoomId)
    requires Mirror(userRooms, roomUsers) && u in userRooms
    ensures Members(userRooms - {u}, u) == {}
    ensures u !in Members(PurgeUser(roomUsers, userRooms[u], u), room)
  {
    assert room in Members(userRooms, u) <==> u in Members(roomUsers, room);
  }

  /** A repeated join leaves an index as it was. */
  lemma RepeatedJoinUnchanged<K(!new), V>(m: map<K, set<V>>, k: K, v: V)
    requires v in Members(m, k)
    ensures AddTo(m, k, v) == m
  {
    assert k in m && m[k] + {v} == m[k];
  }

  /**
   * Leaving right after a first join restores every set; at most an empty
   * entry is left behind.
   */
  lemma LeaveUndoesFirstJoin<K(!new), V>(m: map<K, set<V>>, k: K, v: V, k': K)
    requires v !in Members(m, k)
    ensures Members(RemoveFrom(AddTo(m, k, v), k, v), k') == Members(m, k')
  {
  }

  /** The messages of a concatenation are the messages of its parts. */
  lemma {:induction false} InboxAppend(a: seq<Emission>, b: seq<Emission>, s: SocketId)
    ensures Inbox(a + b, s) == Inbox(a, s) + Inbox(b, s)
    decreases |b|
  {
    if b == [] {
      assert a + b == a;
    } else {
      var b' := b[..|b| - 1];
      assert (a + b)[..|a + b| - 1] == a + b';
      assert (a + b)[|a + b| - 1] == b[|b| - 1];
      InboxAppend(a, b', s);
    }
  }

  /**
   * A broadcast to the other sockets of a room adds its message to the inbox
   * of every other socket in the room, of no socket outside it, and never to
   * the sender's.
   */
  lemma {:induction false} BroadcastExcludesSender(out: seq<Emission>, room: RoomId, inRoom: set<SocketId>,
                                                   client: SocketId, event: string, p: Payload, s: SocketId)
    ensures var out' := out + [Broadcast(room, inRoom - {client}, event, p)];
      Inbox(out', s) == Inbox(out, s) + (if s in inRoom && s != client then [Message(event, p)] else [])
  {
    var out' := out + [Broadcast(room, inRoom - {client}, event, p)];
    assert out'[..|out'| - 1] == out;
  }
}
