/**
 * Call sequences of the gateway whose outcome its handlers' contracts alone
 * decide: two users relaying a move, the same two users when one of them
 * disconnects, one user with two open sockets, and a leave of a room never
 * joined.
 */
module CollaborationScenarios {
  import opened Wrappers
  import opened Collaboration

  /**
   * Users 1 and 2 join "default" from sockets "s1" and "s2", then user 1
   * relays a move: it reaches "s2" and adds nothing to what "s1" receives.
   */
  method MoveReachesOnlyTheOtherMember(course: Field) returns (before: seq<Emission>, after: seq<Emission>)
    ensures Inbox(after, "s2") == Inbox(before, "s2") + [Message(CourseMoved, CoursePayload(course))]
    ensures Inbox(after, "s1") == Inbox(before, "s1")
  {
    var g := new CollaborationGateway();
    g.HandleJoinRoom("s1", Some(1), "default");
    assert Members(g.sockets, "default") == {"s1"};
    g.HandleJoinRoom("s2", Some(2), "default");
    assert Members(g.sockets, "default") == {"s1", "s2"};
    before := g.outbox;
    g.HandleCourseMoved("s1", RelayBody("default", course, Missing));
    after := g.outbox;
    BroadcastExcludesSender(before, "default", {"s1", "s2"}, "s1", CourseMoved, CoursePayload(course), "s1");
    BroadcastExcludesSender(before, "default", {"s1", "s2"}, "s1", CourseMoved, CoursePayload(course), "s2");
  }

  /** A listing of one room is that room alone. */
  lemma SingletonListing(order: seq<RoomId>, room: RoomId)
    requires Listing(order, {room})
    ensures order == [room]
  {
    assert room in order;
    assert order[0] in order;
    assert |order| > 1 ==> order[1] in order by { if |order| > 1 { assert order[1] in order; } }
  }

  /** Users 1 and 2 in room "default", from sockets "s1" and "s2". */
  method JoinTwo() returns (g: CollaborationGateway)
    ensures fresh(g)
    ensures g.userRooms.Keys == {1, 2} && g.userRooms[1] == {"default"}
    ensures g.roomUsers.Keys == {"default"} && g.roomUsers["default"] == {1, 2}
    ensures Members(g.sockets, "default") == {"s1", "s2"}
  {
    g := new CollaborationGateway();
    g.HandleJoinRoom("s1", Some(1), "default");
    g.HandleJoinRoom("s2", Some(2), "default");
    assert Members(g.userRooms, 1) == {"default"};
  }

  /**
   * The same two users; then "s1" closes: "s2" is told that user 1 left,
   * and user 1 is neither in a room's set nor has a room set of its own.
   */
  method DisconnectNotifiesTheRoom() returns (before: seq<Emission>, after: seq<Emission>, g: CollaborationGateway)
    ensures Inbox(after, "s2") == Inbox(before, "s2") + [Message(UserLeft, UserPayload(1))]
    ensures 1 !in g.userRooms
    ensures Members(g.roomUsers, "default") == {2}
  {
    g := JoinTwo();
    before := g.outbox;
    ghost var joined := g.roomUsers;
    g.HandleDisconnect("s1", Some(1));
    assert {"default"} * joined.Keys == {"default"};
    ghost var order :| Listing(order, {"default"}) && g.outbox == before + LeftNotices(order, g.sockets, "s1", 1);
    after := g.outbox;
    NoticeOfOneRoom(before, order, g.sockets);
    assert g.roomUsers["default"] == joined["default"] - {1};
  }

  /** The notices of a disconnect from "s1" whose only room is "default", which "s2" is still in. */
  lemma NoticeOfOneRoom(before: seq<Emission>, order: seq<RoomId>, sockets: map<RoomId, set<SocketId>>)
    requires Listing(order, {"default"}) && Members(sockets, "default") == {"s2"}
    ensures Inbox(before + LeftNotices(order, sockets, "s1", 1), "s2") == Inbox(before, "s2") + [Message(UserLeft, UserPayload(1))]
  {
    SingletonListing(order, "default");
    assert LeftNotices(order, sockets, "s1", 1) == [Broadcast("default", {"s2"} - {"s1"}, UserLeft, UserPayload(1))];
    BroadcastExcludesSender(before, "default", {"s2"}, "s1", UserLeft, UserPayload(1), "s2");
  }

  /**
   * User 1 joins "default" from two sockets and closes one of them: the
   * registry is keyed by user id, so user 1 leaves the room's users although
   * its other socket is still in the room.
   */
  method SecondSocketIsPurgedToo() returns (g: CollaborationGateway)
    ensures "s1b" in Members(g.sockets, "default")
    ensures 1 !in Members(g.roomUsers, "default") && 1 !in g.userRooms
  {
    g := new CollaborationGateway();
    g.HandleJoinRoom("s1", Some(1), "default");
    g.HandleJoinRoom("s1b", Some(1), "default");
    assert g.userRooms[1] == {"default"};
    assert g.roomUsers.Keys == {"default"} && g.roomUsers["default"] == {1};
    assert "s1b" in Members(g.sockets, "default");
    ghost var joined := g.roomUsers;
    g.HandleDisconnect("s1", Some(1));
    assert g.roomUsers["default"] == joined["default"] - {1};
  }

  /**
   * User 2 is in "default" from "s2"; user 1 leaves "default" from "s1"
   * without having joined it: the indices keep their sets, but "s2" is still
   * told that user 1 left and "s1" still gets `roomLeft`.
   */
  method LeaveOfUnjoinedRoomStillNotifies() returns (before: seq<Emission>, g: CollaborationGateway)
    ensures g.outbox == before + [Broadcast("default", {"s2"}, UserLeft, UserPayload(1)),
                                  Direct("s1", RoomLeft, RoomPayload("default"))]
    ensures Members(g.roomUsers, "default") == {2} && Members(g.userRooms, 1) == {}
  {
    g := new CollaborationGateway();
    g.HandleJoinRoom("s2", Some(2), "default");
    assert Members(g.sockets, "default") == {"s2"};
    assert g.roomUsers.Keys == {"default"} && g.roomUsers["default"] == {2};
    assert Members(g.userRooms, 1) == {};
    before := g.outbox;
    g.HandleLeaveRoom("s1", Some(1), "default");
    assert {"s2"} - {"s1"} == {"s2"};
  }
}
