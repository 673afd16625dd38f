# kuriplot collaboration core in Dafny

kuriplot is a course-planning board. Users drag course cards into eight
semester columns, and the realtime layer is meant to let every browser in a
room see the others' edits live.
This project models and proves three parts of it:

- **The room-presence registry and event relay** of the realtime server
  (`Collaboration`, `collaboration_gateway.dfy`). It is a class with these fields:
  - the two indices, user → rooms and room → users;
  - the transport's room membership, room → sockets;
  - an outbox with one record per emit call.

  `Inbox` gives what one socket receives. `collaboration_scenarios.dfy` states
  and proves what the handlers do on concrete inputs.
- **The bearer-token guard** (`JwtAuth`, `jwt_auth_guard.dfy`):
  - token extraction from an `Authorization` header;
  - the HTTP decision, which returns a boolean and attaches the user to the request;
  - the realtime decision, which raises an error or merges the user into the socket's `data`.

  Token verification and the user lookup are function-valued fields of the guard.
- **The browser's course-list logic** from `frontend/src/App.tsx`:
  - `CourseBoard`, `course_board.dfy`: the four socket reducers, the expanded-card toggle and the credit sums;
  - `SemesterLayout`, `semester_layout.dfy`: the semester columns, the next-free-slot search and the drop handler.

  `getNextVerticalPosition` is proved against an order-free specification. An empty column gets y = 200. For a column that already holds cards, the result is the topmost slot from y = 185 down that keeps 15 units above and below every card in it, and that slot is unique.

### Behaviour of the code worth knowing

- **Leaving a room never joined.** This is not a no-op: the code always acknowledges with `roomLeft`, and it tells the room's other sockets `userLeft` whenever the room has a users entry, even if the leaver was never in it (`collaboration.gateway.ts:117-124`). `HandleLeaveRoom` and `LeaveOfUnjoinedRoomStillNotifies` state this.
- **Repeated join.** A repeated join re-emits `userJoined`: the code sends it on every join, not only when the user was absent from the room (`collaboration.gateway.ts:93`). `HandleJoinRoom` states this; `RepeatedJoinUnchanged` shows that the indices themselves do not change.
- **The shipped browser client never reaches the gated handlers.** It sends its token as `auth.token` over a websocket-only transport (`frontend/src/websocket.ts:55-58`), while the guard reads only the handshake's `authorization` header (`backend/src/auth/jwt-auth.guard.ts:84`). So every gated `joinRoom` and `course*` message is refused with "Unauthorized: No token provided". The client's `courseMoved` and `courseUpdated` messages also carry `{courseId, fromSemester, toSemester}` and `{courseId, updates}` (`frontend/src/websocket.ts:107-109`, `122-123`) rather than `{course}`, so a peer would receive `{course: undefined}`, on which its reducer throws at `data.course.id` (`frontend/src/App.tsx:27`). Its `courseAdded` payload is the form's course without an `id` (`frontend/src/CourseForm.tsx:22-33`, `frontend/src/App.tsx:159`), so a peer's `[...prev, data.course]` appends a card without an id; `AddCourse` takes a whole course, so `AddCourse` and `DeleteAfterAdd` do not cover that case. The model follows the server and the reducers as written: `ValidateWebSocket` refuses a socket without the header, and the relays pass their payload through untouched.
- **Registry keyed by user id.** Closing one socket removes its user from every room, even while another socket of that user is still open (`SecondSocketIsPurgedToo`).
- **Unauthenticated join.** The handler's `User not authenticated` error is modelled as written: it fires when `client.data.userId` is falsy, which includes 0. A connection without a valid token is already stopped by the guard's exception before the handler runs.
- **Dragging within a column.** The slot search sees the dragged card at its old position. Dragging the only card of a column within that column moves it down, from y = 200 to 315 (`OwnCardStillCounts`).

## Model

| member | source | states |
|---|---|---|
| Collaboration.Authenticated | backend/src/collaboration/collaboration.gateway.ts:66-71 | `if (!userId)` as written: an id counts only when it is present and not the falsy 0; the handlers' contracts take their error path exactly when it fails |
| Collaboration.AddTo | backend/src/collaboration/collaboration.gateway.ts:76-90 | the entry for `k` is created if missing and gains `v`; every other key's set is unchanged |
| Collaboration.RemoveFrom | backend/src/collaboration/collaboration.gateway.ts:112-119 | `v` leaves the set under `k` if there is one; the keys and every other set are unchanged |
| Collaboration.PurgeUser | backend/src/collaboration/collaboration.gateway.ts:49-56 | the disconnect purge keeps the room index's key set |
| Collaboration.LeaveAll | backend/src/collaboration/collaboration.gateway.ts:42 | a closed socket is in no room of the transport; every other socket stays where it was |
| Collaboration.LeftNotices | backend/src/collaboration/collaboration.gateway.ts:54 | exactly one `userLeft` notice per listed room, in the listing's order |
| Collaboration.CollaborationGateway.constructor | backend/src/collaboration/collaboration.gateway.ts:35-36 | the gateway starts with empty indices, no socket in any room, nothing emitted, and the mirror invariant |
| Collaboration.CollaborationGateway.EmitTo | backend/src/collaboration/collaboration.gateway.ts:69 | `client.emit` appends one record addressed to the calling socket |
| Collaboration.CollaborationGateway.EmitToRoom | backend/src/collaboration/collaboration.gateway.ts:93 | `client.to(room).emit` reaches the room's current sockets minus the caller |
| Collaboration.CollaborationGateway.HandleDisconnect | backend/src/collaboration/collaboration.gateway.ts:42-60 | the socket leaves every transport room; with a truthy id that has an entry, the user leaves every room of the entry that has a users entry, each such room gets one `userLeft` (in some order), and the entry is deleted; otherwise nothing else changes; the mirror invariant is kept |
| Collaboration.CollaborationGateway.HandleJoinRoom | backend/src/collaboration/collaboration.gateway.ts:62-96 | a falsy id gives one `error` to the caller and changes nothing else; otherwise the socket joins, the pair enters both indices, the other sockets get `userJoined` and the caller gets `roomJoined`; mirror kept |
| Collaboration.CollaborationGateway.HandleLeaveRoom | backend/src/collaboration/collaboration.gateway.ts:98-125 | a falsy id gives one `error` and changes nothing else; otherwise the socket leaves, the pair leaves both indices, the others get `userLeft` exactly when the room has a users entry, and the caller always gets `roomLeft`; mirror kept |
| Collaboration.CollaborationGateway.HandleCourseMoved | backend/src/collaboration/collaboration.gateway.ts:127-132 | `{course}` goes to the room's sockets minus the sender as `courseMoved`; only the outbox changes |
| Collaboration.CollaborationGateway.HandleCourseUpdated | backend/src/collaboration/collaboration.gateway.ts:134-139 | the same for `courseUpdated` |
| Collaboration.CollaborationGateway.HandleCourseAdded | backend/src/collaboration/collaboration.gateway.ts:141-146 | the same for `courseAdded` |
| Collaboration.CollaborationGateway.HandleCourseDeleted | backend/src/collaboration/collaboration.gateway.ts:148-153 | `{courseId}` goes to the room's sockets minus the sender as `courseDeleted` |
| Collaboration.ForEachRoomLeave | backend/src/collaboration/collaboration.gateway.ts:49-56 | the loop's result is the purge of the user from every visited room, with one notice per room that has a users entry, each room once |
| Collaboration.RoomLeaveStep | backend/src/collaboration/collaboration.gateway.ts:49-56 | visiting one more room extends the purge by that room's update and the notices by its `userLeft` exactly when it has a users entry, and otherwise changes neither |
| Collaboration.JoinKeepsMirror | backend/src/collaboration/collaboration.gateway.ts:35-36 | adding the pair to both indices preserves `room in userRooms[u] <==> u in roomUsers[room]` |
| Collaboration.LeaveKeepsMirror | backend/src/collaboration/collaboration.gateway.ts:112-119 | removing the pair from both indices preserves the mirror invariant |
| Collaboration.PurgeKeepsMirror | backend/src/collaboration/collaboration.gateway.ts:47-57 | the disconnect purge preserves the mirror invariant |
| Collaboration.PurgeComplete | backend/src/collaboration/collaboration.gateway.ts:47-57 | after the purge of a mirrored registry, the user has no rooms and is in no room's users |
| Collaboration.RepeatedJoinUnchanged | backend/src/collaboration/collaboration.gateway.ts:76-90 | joining a room a second time leaves an index exactly as it was |
| Collaboration.LeaveUndoesFirstJoin | backend/src/collaboration/collaboration.gateway.ts:76-90 | a leave right after a first join restores every set |
| Collaboration.InboxAppend | backend/src/collaboration/collaboration.gateway.ts:93-95 | what a socket receives from two runs of emits is what it receives from each, in order |
| Collaboration.BroadcastExcludesSender | backend/src/collaboration/collaboration.gateway.ts:131 | a room broadcast reaches every other socket in the room once, and never the sender or a socket outside the room |
| CollaborationScenarios.MoveReachesOnlyTheOtherMember | backend/src/collaboration/collaboration.gateway.ts:127-132 | two users join "default"; user 1's move reaches user 2's socket and adds nothing to user 1's |
| CollaborationScenarios.DisconnectNotifiesTheRoom | backend/src/collaboration/collaboration.gateway.ts:42-60 | when user 1's socket closes, user 2's socket receives `userLeft{1}` and user 1 has no rooms left |
| CollaborationScenarios.SecondSocketIsPurgedToo | backend/src/collaboration/collaboration.gateway.ts:45-57 | closing one of a user's two sockets removes the user from the room while the other socket is still in it |
| CollaborationScenarios.LeaveOfUnjoinedRoomStillNotifies | backend/src/collaboration/collaboration.gateway.ts:117-124 | leaving a room never joined still sends `userLeft` to its members and `roomLeft` to the caller |
| JwtAuth.Authorization | backend/src/auth/jwt-auth.guard.ts:75 | the header is present exactly when the headers map has it |
| JwtAuth.ExtractTokenFromHeader | backend/src/auth/jwt-auth.guard.ts:74-80 | `"Bearer " + t` extracts to `t`, and any extracted token is the header minus the `"Bearer "` prefix |
| JwtAuth.HandshakeAuthorization | backend/src/auth/jwt-auth.guard.ts:84 | the optional chain is present exactly when the handshake, its headers and the header are all present |
| JwtAuth.ExtractTokenFromWebSocket | backend/src/auth/jwt-auth.guard.ts:82-89 | the same extraction rule applied to the handshake header; nothing when a link of the chain is missing |
| JwtAuth.HasToken | backend/src/auth/jwt-auth.guard.ts:20-25 | `if (!token)` as written: an absent and an empty token are both refused; `BarePrefixIsNoToken` shows the bare `"Bearer "` header falls under it, and `CanActivateHttp` and `ValidateWebSocket` refuse exactly then |
| JwtAuth.JwtAuthGuard.Resolve | backend/src/auth/jwt-auth.guard.ts:28-33 | a token resolves exactly when it verifies and its subject is found, and then to that user |
| JwtAuth.JwtAuthGuard.CanActivate | backend/src/auth/jwt-auth.guard.ts:13-43 | type "ws" is decided by the realtime branch with the request untouched; any other type by the HTTP branch with `client.data` untouched |
| JwtAuth.JwtAuthGuard.CanActivateHttp | backend/src/auth/jwt-auth.guard.ts:19-43 | true exactly when a non-empty token resolves; then `request.user` and `request.userId` hold the user; otherwise false with the request unmodified |
| JwtAuth.JwtAuthGuard.ValidateWebSocket | backend/src/auth/jwt-auth.guard.ts:45-72 | no token raises "Unauthorized: No token provided"; a token that does not resolve raises "Unauthorized: Invalid token"; success is true, with `data` keeping every other field and gaining `userId` and `user` |
| JwtAuth.BearerRoundTrip | backend/src/auth/jwt-auth.guard.ts:74-89 | a `"Bearer " + t` header yields `t` over HTTP and over the handshake |
| JwtAuth.WrongSchemeRejected | backend/src/auth/jwt-auth.guard.ts:76-78 | a header not starting with `"Bearer "` yields no token |
| JwtAuth.BarePrefixIsNoToken | backend/src/auth/jwt-auth.guard.ts:23-25 | the bare header `"Bearer "` yields the empty token, which the guard treats as missing |
| CourseBoard.MergeById | frontend/src/App.tsx:24-43 | the moved/updated reducer keeps length, order and ids, spreads the patch over exactly the courses whose id is the patch's id, and leaves every other course as it was |
| CourseBoard.Spread | frontend/src/App.tsx:28 | `{ ...course, ...data.course }` field by field: each field the patch carries wins; `SpreadIdempotent` shows a second spread changes nothing |
| CourseBoard.SpreadIdempotent | frontend/src/App.tsx:28 | spreading the same patch twice equals spreading it once |
| CourseBoard.MergeIdempotent | frontend/src/App.tsx:24-43 | delivering the same move or update twice leaves the list as delivering it once |
| CourseBoard.AddCourse | frontend/src/App.tsx:46-48 | the added reducer keeps the old list as a prefix and puts the new course last |
| CourseBoard.Filter | frontend/src/App.tsx:52 | a filtered list holds exactly the accepted elements |
| CourseBoard.FilterAppend | frontend/src/App.tsx:52 | filtering distributes over concatenation, so it keeps relative order |
| CourseBoard.RemoveById | frontend/src/App.tsx:51-53 | the deleted reducer keeps exactly the courses whose id differs, and no course with that id is left |
| CourseBoard.DeleteAfterAdd | frontend/src/App.tsx:46-53 | deleting a just-added course gives what deleting its id before the add gives |
| CourseBoard.ToggleExpanded | frontend/src/App.tsx:176-186 | the toggle flips membership of that id and of no other id |
| CourseBoard.ToggleTwice | frontend/src/App.tsx:176-186 | toggling twice restores the set |
| CourseBoard.SumCredits | frontend/src/App.tsx:191 | the `reduce((sum, c) => sum + c.credits, 0)` fold from 0; `SumCreditsAppend` shows it adds up over concatenation |
| CourseBoard.TotalCredits | frontend/src/App.tsx:189-191 | the header total is the credit fold over the courses with a non-null semester; `TotalAfterAdd`, `MergeKeepsCredits` and `TotalIsColumnSum` pin down how it moves with the reducers and how it relates to the column labels |
| CourseBoard.SemesterCredits | frontend/src/App.tsx:470 | a column's `# Credits` label is the credit fold over its courses; `ColumnsSnoc`, `MergeKeepsCredits` and `TotalIsColumnSum` relate it to the reducers and the header total |
| CourseBoard.SumCreditsAppend | frontend/src/App.tsx:191 | the credit fold of a concatenation is the sum of the folds |
| CourseBoard.FilteredSumSnoc | frontend/src/App.tsx:189-191 | one more course adds its credits to a filtered sum exactly when the filter accepts it |
| CourseBoard.TotalAfterAdd | frontend/src/App.tsx:189-191 | adding a course raises the header total by its credits when it has a semester, and not otherwise |
| CourseBoard.FilteredSumsAgree | frontend/src/App.tsx:189-191 | lists that agree elementwise on the filter and on accepted credits have the same filtered sum |
| CourseBoard.MergeKeepsCredits | frontend/src/App.tsx:24-43 | a patch without credits or semester changes neither the header total nor any column label |
| CourseBoard.ColumnsSnoc | frontend/src/App.tsx:470 | one more course adds its credits to the labels of columns 1..k exactly when its semester is one of them |
| CourseBoard.ColumnsOfEmpty | frontend/src/App.tsx:470 | the labels of an empty board are all zero |
| CourseBoard.TotalIsColumnSum | frontend/src/App.tsx:189-191 | when every course is unplaced or in semesters 1..8, the header total equals the sum of the eight `# Credits` labels |
| SemesterLayout.BoxLayout | frontend/src/App.tsx:198-207 | the columns, defined as column i at x = 50 + 220·i, are exactly the table's eight entries: ids 1..8 from x = 50 to 1590, y = 150, 200 wide and 530 high |
| SemesterLayout.FindBox | frontend/src/App.tsx:243 | a found box has the requested id; none is found exactly when no box has it |
| SemesterLayout.FirstContaining | frontend/src/App.tsx:273-274 | the result contains the point; none exactly when no box contains it |
| SemesterLayout.HitIsTheContainingColumn | frontend/src/App.tsx:198-207 | a point inside a column is hit by that column, since columns do not overlap |
| SemesterLayout.InsertByY | frontend/src/App.tsx:235 | inserting into a list sorted by y gives a list one longer, headed by the new card or the old head, and still sorted |
| SemesterLayout.InsertPermutes | frontend/src/App.tsx:235 | inserting adds exactly the new card to the multiset of cards |
| SemesterLayout.ConsSorted | frontend/src/App.tsx:235 | a card no lower than the head of a sorted list can be put in front of it |
| SemesterLayout.SortByY | frontend/src/App.tsx:235 | the sort result is ordered by y |
| SemesterLayout.SortPermutes | frontend/src/App.tsx:235 | the sort result is a permutation of its input |
| SemesterLayout.InColumn | frontend/src/App.tsx:233-234 | the cards whose semester is `semesterId`, in list order, as the filter gives them; `Filter`'s contract states exactly which cards these are |
| SemesterLayout.NextVerticalPosition | frontend/src/App.tsx:231-264 | 200 for a column without cards, 185 for an id without a column, otherwise the topmost slot from 185 that clears every card of the column |
| SemesterLayout.ScanColumn | frontend/src/App.tsx:247-263 | the cursor loop over the sorted cards returns a slot at or below 185 that clears every card, with every higher slot blocked |
| SemesterLayout.NextSlotUnique | frontend/src/App.tsx:231-264 | two results of the slot specification are equal, so it does not matter how the sort orders ties |
| SemesterLayout.GapIsFree | frontend/src/App.tsx:254-255 | at an early return, the cursor clears the cards above it and the card below the gap |
| SemesterLayout.CursorStep | frontend/src/App.tsx:259 | moving the cursor below a card that allows no gap keeps every slot it passes over blocked |
| SemesterLayout.MinimalInSorted | frontend/src/App.tsx:249-263 | a slot blocked by a card already passed stays blocked for the whole column |
| SemesterLayout.BlockedInPrefix | frontend/src/App.tsx:249-263 | a slot blocked within a prefix of the cards is blocked by all of them |
| SemesterLayout.FreeSameElements | frontend/src/App.tsx:233-235 | sorting does not change which slots are free |
| SemesterLayout.SameElementsBlocked | frontend/src/App.tsx:233-235 | sorting does not change which slots are blocked |
| SemesterLayout.OwnCardStillCounts | frontend/src/App.tsx:277 | the only card of column 1, at y = 200, lands at 315 when dropped into column 1 again |
| SemesterLayout.SnapToGrid | frontend/src/App.tsx:227-229 | the snapped value lies within 10 of its input, above minus 10 and at most plus 10 |
| SemesterLayout.ClampToColumn | frontend/src/App.tsx:281 | for a column at least 150 wide, the clamped x lies in `[box.x, box.x + box.width - 150]`, and an x already there is kept |
| SemesterLayout.ClampedIntoColumn | frontend/src/App.tsx:279-281 | a card dropped on a column ends with its x inside `[box.x, box.x + 50]` |
| SemesterLayout.PlaceInColumn | frontend/src/App.tsx:277-281 | the new y is the column's next free slot and the new x is the snapped, clamped drop x |
| SemesterLayout.HitTest | frontend/src/App.tsx:273-284 | the loop stops at the first column containing the drop point, or finds none |
| SemesterLayout.DragEnd | frontend/src/App.tsx:266-293 | a point no column contains keeps the drop coordinates and clears the semester; otherwise the semester is the first hit column's id, y its next free slot and x the snapped, clamped x; the list gets exactly those three fields on the dragged course |

## Left out

- Nest wiring is not modelled: the guard decorators, module setup, the exception filter and `async`/`await`. Each handler is one atomic step, and a raised `WsException` is a `Failure` value.
- The payload of a raised exception is only its message.
- Token signing and verification, and the database lookup, are abstract functions, because their code is library code. A lookup that throws and a lookup that finds nothing have the same outcome in both branches, so both are `None`.
- `CanActivate` assumes `payload.sub` is always present in verified claims.
- Logging and `handleConnection` are left out; they only print.
- The relay handlers do not validate or dereference the `course` payload. It is an opaque, possibly missing, value (`Field`).
- A missing `roomId` is not modelled; the room id is always a string.
- socket.io's own bookkeeping is simplified:
  - Room sets are `set`s, so the insertion order of JavaScript `Set` iteration is not modelled. `HandleDisconnect` promises an unspecified order of its `userLeft` notices.
  - socket.io also puts every socket in a room named by its own socket id, so `client.to(roomId)` with a `roomId` equal to another socket's id reaches that socket. The model's room membership holds only the rooms joined through `joinRoom`, so `Members(sockets, roomId)` never includes such a socket.
  - socket.io drops a room once it is empty. The model keeps an empty set, which `Members` treats the same as no entry.
  - The transport's rooms for a socket that never joined through the gateway are not modelled.
- Numbers are `real` for coordinates and `int` for credits and ids. JavaScript floating-point rounding is not modelled; `SnapToGrid` uses exact `floor(v / 20 + 0.5) * 20`.
- The drag-move placeholder (`handleDragMove`), zoom and wheel handling, and rendering are left out.
- The API call and the websocket notification after a drop, and all other HTTP and socket client calls, are I/O outside the model.
- In the client reducers, a `courseMoved`/`courseUpdated` event whose `course` is `undefined` would throw; it is not modelled. A patch is always an object, with any subset of a course's fields. A field that is present but explicitly `undefined` is not distinguished from an absent one.
- SemesterLayout.SortByY: its contract does not state stability (the insertion keeps an earlier card before a later one of equal y, but no lemma says so). `NextSlotUnique` shows that the slot found does not depend on the order of ties.
- Collaboration.PurgeUser: its contract states only that the key set is kept. What happens to each set is its single map comprehension, which `HandleDisconnect` uses directly and `PurgeComplete` and `PurgeKeepsMirror` reason about. A per-room quantified contract made the disconnect proof too costly.
