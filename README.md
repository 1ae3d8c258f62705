# rtm chat core in Dafny

This project models the chat engine of rtm, a real-time chat server written in Go. It also proves properties of that model. It covers four parts:

- **The hub** (`internal/service/chat/hub.go`). This is the single loop that owns the room registry: which client sessions are connected to which room. It serves four kinds of request: register, unregister, broadcast with eviction of slow consumers, and quit.
- **The client session** (`internal/service/chat/client.go`). A read task stores each incoming chat message and then hands it to the hub. A write task renders queued messages onto the websocket and pings the peer on a timer.
- **The HTTP handlers** (`internal/service/chat/handlers.go`). These work on the service's table of running hubs, keyed by room id.
- **The persistence layer** (`internal/service/chat/repository.go`). This covers the `room`, `room_user` and `message` tables. The transactional operations are all-or-nothing. The queries are a membership test, a room lookup, the ten latest messages of a room, and a user's rooms.

Files:

| file | module | contents |
|---|---|---|
| `base.dfy` | `Base` | identifiers, `Option`/`Result`, `Filter`, `Take` |
| `chat_time.dfy` | `ChatTime` | calendar readings, their order, and the `%d/%02d/%02d %02d:%02d:%02d` rendering with its inverse |
| `chat_view.dfy` | `ChatView` | `MsgDisplayData`, the record the templates render |
| `chat_hub.dfy` | `ChatHub` | `Registry` step functions; class `Hub` with `Register`, `Unregister`, `Broadcast` and `Run` |
| `chat_client.dfy` | `ChatClient` | constants, `Render`, the read task and the write task |
| `chat_handlers.dfy` | `ChatHandlers` | class `Service` with the four handlers |
| `chat_repository.dfy` | `ChatRepository` | tables, statements, queries, and class `Database` |

How the model is built:

- **Goroutines.** Each goroutine loop becomes a method with a `while` loop over a sequence of events. Each event carries whatever the outside world answered: the clock, the connection, the database, the scheduler.
- **Specifications.** Each loop is proved equal to a recursive specification function over the same events. The lemmas are stated about those functions.
- **Panics.** A Go run-time panic is an explicit outcome: `NilMapWrite`, `SendOnClosed` or `CloseOfClosed`.
- **Receives from a queue.** A session's write task takes messages from its `send` channel (client.go:115) beside the hub. In the hub's run this is a `Receive` event, which drops the oldest buffered message. So a queue drains as its session reads it, and the hub's non-blocking send sees the buffer as it is at that moment.
- **Channel capacity.** A session's `send` channel has a capacity. It is 0 for `newClient` and 256 for `handleServeWs`. An unbuffered channel accepts the hub's non-blocking send only while the session's write task is waiting on it. Each broadcast request therefore carries the set of sessions whose write task is waiting (`parked`).

In some places the code does not do what its comments and structure suggest, and the model follows the code:

- **Room creation.** hub.go:37 says that `register` registers the client with the hub. But `register` writes into `h.rooms[c.rid]` without creating the inner map, so it panics with a nil-map write (hub.go:38). `newHub` starts with no rooms, and nothing else adds one. So a hub made by `newHub` panics at its first registration. `ChatHub.FreshHubStaysEmpty` proves it never holds a client.
- **The hub's loop.** The `for` loop of hub.go:32-62 returns only on `quit <- true` (hub.go:58-60). The panic above ends it as well, since nothing recovers from it.
- **Message fields.** `hub.go` declares `message` with fields `rid`/`uname`/`data`, and `client.go` builds it with `body`/`roomID`/`userID`/`username`/`time`. The model keeps the latter, with one room field per client and per message.
- **Clients built by `handleServeWs`.** These set none of room, user or username (handlers.go:69), so they get the nil room id. The model builds its client the same way.

## Model

| member | source | states |
|---|---|---|
| ChatHub.Hub.constructor | internal/service/chat/hub.go:21-29 | a new hub is the empty registry: no rooms, no queues, nothing closed |
| ChatHub.FreshHubIsEmpty | internal/service/chat/hub.go:21-29 | a fresh hub satisfies the registry invariant; no client is registered in it, has a queued message or is closed |
| ChatHub.Hub.Register | internal/service/chat/hub.go:36-38 | the method's panic and new state are those of `RegisterStep`: a nil-map panic when the client's room has no entry, else the client is added to its room |
| ChatHub.RegisterNeedsRoom | internal/service/chat/hub.go:36-38 | `register` panics exactly when the client's room has no entry, and it always panics on a fresh hub |
| ChatHub.RegisterAdds | internal/service/chat/hub.go:36-38 | with the room present, the client is added to its own room only; no other room, queue or closed flag changes; a second registration changes nothing |
| ChatHub.Hub.CloseQueue | internal/service/chat/hub.go:44 | closing marks the queue closed and changes nothing else; closing an already closed queue is a `CloseOfClosed` panic |
| ChatHub.Hub.Unregister | internal/service/chat/hub.go:39-46 | the method's panic and new state are those of `UnregisterStep` |
| ChatHub.UnregisterRemoves | internal/service/chat/hub.go:39-46 | under the invariant, unregistering a registered client succeeds; it removes only that client from its room and closes its queue, which was open before; other rooms and all queues are unchanged |
| ChatHub.UnregisterIdempotent | internal/service/chat/hub.go:41-42 | unregistering an absent client, or one whose room has no entry, changes nothing; a second unregister is a no-op |
| ChatHub.Hub.Broadcast | internal/service/chat/hub.go:47-56 | the loop over the room's members leaves the state and panic of `BroadcastStep` |
| ChatHub.BroadcastEffect | internal/service/chat/hub.go:49-55 | under the invariant a broadcast never panics; each member with room in its queue gets `m` appended and stays; each full member is removed and its queue newly closed, without stopping delivery to the others; other rooms and non-members are untouched, and the room only shrinks |
| ChatHub.StepKeepsInv | internal/service/chat/hub.go:36-56 | every case keeps the invariant that a client in a room is filed under its own room and has an open queue, provided no closed client is re-registered |
| ChatHub.StepNeverClosesTwice | internal/service/chat/hub.go:39-56 | under the invariant, unregister and broadcast never send on or close a closed queue; the only panic left is register's nil-map write |
| ChatHub.RegisterStep | internal/service/chat/hub.go:36-38 | the `register` case as a step on the registry value; its promises are proved by `RegisterNeedsRoom` and `RegisterAdds` |
| ChatHub.UnregisterStep | internal/service/chat/hub.go:39-46 | the `unregister` case as a step on the registry value; its promises are proved by `UnregisterRemoves` and `UnregisterIdempotent` |
| ChatHub.BroadcastStep | internal/service/chat/hub.go:47-56 | the `broadcast` case as a step on the registry value; its promises are proved by `BroadcastEffect` |
| ChatHub.ReceiveStep | internal/service/chat/client.go:115 | a write task's receive as a step on the registry value; its promises are proved by `ReceiveTakesHead` |
| ChatHub.RunSpec | internal/service/chat/hub.go:31-63 | the hub's loop over a sequence of events; its promises are proved by `QuitCases`, `RunNeverClosesTwice`, `FreshHubStaysEmpty` and `KeepingUpStaysRegistered` |
| ChatHub.Hub.Receive | internal/service/chat/client.go:115 | the message taken is the oldest buffered one, or none for an empty queue; the new state is that of `ReceiveStep` |
| ChatHub.ReceiveTakesHead | internal/service/chat/client.go:115 | a receive drops exactly the head of the session's queue; rooms, closed flags and every other queue are unchanged, and the invariant is kept |
| ChatHub.KeepingUpStaysRegistered | internal/service/chat/hub.go:49-55 | a session whose write task takes each message before the next broadcast, with a buffer or its write task parked, is never evicted, whatever the number of messages; it stays registered with an open, empty queue |
| ChatHub.QuitCases | internal/service/chat/hub.go:57-61 | `quit <- false` leaves the state as it is and the loop goes on; `quit <- true` stops the loop with the state as it was |
| ChatHub.Hub.Run | internal/service/chat/hub.go:31-63 | over requests and the write tasks' receives, the loop ends as `RunSpec` says (waiting, stopped or panicked), and the state is the one `RunSpec` gives when it did not panic |
| ChatHub.RunNeverClosesTwice | internal/service/chat/hub.go:31-63 | a run whose registrations are all new clients, each registered once, keeps the invariant and never panics by closing or sending on a closed queue |
| ChatHub.FreshHubStaysEmpty | internal/service/chat/hub.go:21-38 | every run of a hub made by `newHub` leaves it empty; its only possible panic is the nil-map write |
| ChatTime.Pad2 | internal/service/chat/client.go:129-131 | `%02d` of a value below 100 is exactly two decimal digits that read back as the value |
| ChatTime.FormatTime | internal/service/chat/client.go:129-131 | the rendering is the unpadded decimal year followed by 15 fixed-layout characters |
| ChatTime.FormatTimeRoundTrip | internal/service/chat/client.go:129-131 | parsing the rendering gives back the time with only its nanoseconds dropped |
| ChatTime.FormatTimeLength | internal/service/chat/client.go:129-131 | with a four-digit year the rendering is 19 characters long |
| ChatClient.PingPeriodFor | internal/service/chat/client.go:22-24 | nine tenths of a positive pong wait is strictly shorter than it, and positive from 10 ns on |
| ChatClient.NewClient | internal/service/chat/client.go:51-60 | the client `newClient` builds, with an unbuffered queue; its promise is `NewClientNeedsWaitingWriter` |
| ChatClient.Render | internal/service/chat/client.go:128-138 | the record a hub message is rendered from; its promise is `RenderShowsMessage` |
| ChatClient.ReadSpec | internal/service/chat/client.go:67-100 | the read task's effects over the events; its promises are `ReadSpecShape`, `ReadStopsAtFailure` and `ReadStoresBeforePublishing` |
| ChatClient.WriteSpec | internal/service/chat/client.go:107-160 | the write task's effects over the events; its promises are `WriteSpecShape` and `FinishedOnlyLast` |
| ChatClient.NewClientNeedsWaitingWriter | internal/service/chat/client.go:51-60 | a client from `newClient` keeps its room, user and name; its unbuffered queue accepts a message exactly when its write task is waiting and nothing is in flight |
| ChatClient.RenderShowsMessage | internal/service/chat/client.go:128-138 | the rendered record shows the message's room, sender name and body; `mine` holds exactly when the session's user sent it; its time reads back to the second |
| ChatClient.ReadSpecShape | internal/service/chat/client.go:67-100 | for each leading good frame, its row is stored with the session's room and user, then exactly that message is broadcast; a read error, an oversize frame or a store failure ends the loop; then the connection is closed and exactly one unregister of the session follows |
| ChatClient.ReadStopsAtFailure | internal/service/chat/client.go:76-95 | nothing after the first failing read or store has any effect |
| ChatClient.ReadStoresBeforePublishing | internal/service/chat/client.go:91-98 | every broadcast directly follows a successful store of the same body, room and user, and carries the session's room, user and username |
| ChatClient.ReadOneFrame | internal/service/chat/client.go:76-95 | the loop goes on exactly for a readable frame whose store succeeds, and then exactly its row, with the session's room and user, is appended to `message`; nothing else changes |
| ChatClient.ReadPump | internal/service/chat/client.go:67-100 | the loop's effects are those of `ReadSpec`; the message table grows by exactly the stored rows, in order, and the other tables are unchanged |
| ChatClient.WriteSpecShape | internal/service/chat/client.go:107-160 | while the loop goes round, each dequeued message is written as its rendering and each tick as a ping, in event order; a closed queue then writes one close frame and ends; a writer, flush or ping error ends with nothing more written |
| ChatClient.FinishedOnlyLast | internal/service/chat/client.go:108-121 | the write task ends at most once, and nothing is written after it ends |
| ChatClient.WritePump | internal/service/chat/client.go:107-160 | the loop's effects are those of `WriteSpec` |
| ChatHandlers.ServeWsClient | internal/service/chat/handlers.go:69 | the client of `handleServeWs` has queue capacity 256 and zero room, user and username |
| ChatHandlers.ServeWsNeedsNilRoom | internal/service/chat/handlers.go:69-70 | that client registers only into a hub that has an entry for the nil room id, and a fresh hub makes it panic |
| ChatHandlers.Service.HandleDashboard | internal/service/chat/handlers.go:16-19 | the listed room ids are exactly the keys of the hubs table, each once, as many as there are hubs |
| ChatHandlers.Service.HandleCreateRoom | internal/service/chat/handlers.go:31-44 | an existing id gets "Room already exists" and the table is unchanged; a new id adds exactly that key, mapped to a new empty hub, and redirects to the room's page |
| ChatHandlers.Service.HandleJoinRoom | internal/service/chat/handlers.go:46-53 | the chatroom page is rendered exactly when the room id has a hub; otherwise nothing is written |
| ChatHandlers.Service.HandleServeWs | internal/service/chat/handlers.go:55-76 | only the room's own hub may change; with a failed upgrade or an unknown room nothing is registered and no hub changes; otherwise the new client is registered with the room's hub as `RegisterStep` says |
| ChatHandlers.CreatedHubRejectsEveryClient | internal/service/chat/handlers.go:38-40 | the hub a new room gets panics on every registration and stays without clients whatever it is sent |
| ChatRepository.FirstFailure | internal/service/chat/repository.go:39-54 | a transaction reports nothing exactly when none of its steps fails, and otherwise the error of a failing step before which no step failed |
| ChatRepository.Database.CreateRoomWithCreator | internal/service/chat/repository.go:39-54 | the error is that of the first failing step; on success the room row and the creator's room_user row are added; on any error no table changes |
| ChatRepository.Database.AddUserToRoom | internal/service/chat/repository.go:56-66 | the error is that of the first failing step; on success the membership row is added; on any error no table changes |
| ChatRepository.Database.AddMessageEntry | internal/service/chat/repository.go:89-92 | on success the tables are those of `InsertMessage`, the row appended to `message`; on failure nothing changes |
| ChatRepository.Database.DeleteRoom | internal/service/chat/repository.go:181-216 | the error is that of the first failing step; on success the room's room_user rows, messages and room row are deleted; on any error no table changes |
| ChatRepository.InsertRoom | internal/service/chat/repository.go:68-71 | the `insert into room` statement; its promise is `CreateRoomMakesCreatorMember` |
| ChatRepository.InsertRoomUser | internal/service/chat/repository.go:73-76 | the `insert into room_user` statement; its promises are `CreateRoomMakesCreatorMember` and `AddUserMakesMember` |
| ChatRepository.InsertMessage | internal/service/chat/repository.go:89-92 | the `insert into message` statement; `Database.AddMessageEntry` leaves exactly its tables on success |
| ChatRepository.DeleteRoomUsers | internal/service/chat/repository.go:208-211 | the `delete from room_user` statement; its promise is `DeleteRoomRemovesAll` |
| ChatRepository.DeleteRoomMessages | internal/service/chat/repository.go:213-216 | the `delete from message` statement; its promise is `DeleteRoomRemovesAll` |
| ChatRepository.DeleteRoomRow | internal/service/chat/repository.go:203-206 | the `delete from room` statement; its promise is `DeleteRoomRemovesAll` |
| ChatRepository.RoomMessages | internal/service/chat/repository.go:126-129 | the rows the history query joins and selects before ordering; `LatestMessagesFromRoom` states what they are |
| ChatRepository.LatestMessages | internal/service/chat/repository.go:125-131 | the history query's rows; its promises are `LatestMessagesBounded`, `LatestMessagesFromRoom` and `LatestMessagesAreLatest` |
| ChatRepository.HistoryEntry | internal/service/chat/repository.go:137-147 | one scanned row rendered; `RenderHistory` and `Database.GetMessagesFromRoom` state its fields |
| ChatRepository.RoomsOfUser | internal/service/chat/repository.go:153-158 | the rooms the `getRoomsFromUser` query selects; `Database.GetRoomsFromUser` states which they are |
| ChatRepository.IsAMember | internal/service/chat/repository.go:78-85 | without a query error the answer is true exactly when the (room, user) row exists |
| ChatRepository.FindRoom | internal/service/chat/repository.go:96 | the first room row with the id, or none exactly when no row has it |
| ChatRepository.GetRoomByID | internal/service/chat/repository.go:94-101 | a room is returned exactly when the query succeeds and some row of `room` has that id, and it is such a row; "no rows" exactly when no row has that id; a query error is passed on |
| ChatRepository.SortNewestFirst | internal/service/chat/repository.go:130 | the result is ordered newest first and is a permutation of the input |
| ChatRepository.LatestMessagesBounded | internal/service/chat/repository.go:124-131 | the history holds min(10, n) of the room's n messages, newest first, drawn from the room's messages as a sub-multiset |
| ChatRepository.LatestMessagesFromRoom | internal/service/chat/repository.go:126-129 | every message of the history is a stored message of room `rid` whose sender has a user row (the inner join) |
| ChatRepository.LatestMessagesAreLatest | internal/service/chat/repository.go:124-131 | every message of the room left out of the history is not after any message in it |
| ChatRepository.Database.GetMessagesFromRoom | internal/service/chat/repository.go:124-150 | entry k renders history row k (sender's username, body, formatted time); `mine` holds exactly when the sender is `uid`; a query error is passed on |
| ChatRepository.RenderHistory | internal/service/chat/repository.go:136-148 | one entry per scanned row, in row order, each the row rendered with its sender's username and formatted time |
| ChatRepository.Database.GetRoomsFromUser | internal/service/chat/repository.go:152-172 | the row loop scans `room` and applies the join's selection; a room is returned exactly when it has a room_user row for `uid` and the user exists, and the rows are those of `RoomsOfUser` |
| ChatRepository.CreateRoomMakesCreatorMember | internal/service/chat/repository.go:39-54 | after the commit the room can be found by id and the creator is a member; messages, users and earlier rooms are unchanged |
| ChatRepository.AddUserMakesMember | internal/service/chat/repository.go:56-66 | after the commit the user is a member, and every earlier member still is |
| ChatRepository.DeleteRoomRemovesAll | internal/service/chat/repository.go:181-216 | after the commit no room_user row, message or room row of `rid` remains; the room is not found and nobody is a member; every row of other rooms remains |

## Left out

- **Goroutines and channel scheduling.** The model does not cover goroutines, blocking channel operations, `select` fairness or the `go` statements (hub.go:32, handlers.go:40, 74-75). Requests reach the hub as a sequence in the order `select` takes them, with the write tasks' receives among them. Only the `register` hand-off is a direct call: `HandleServeWs` calls `Hub.Register`. The read task's `broadcast` and `unregister` hand-offs are the `Published` and `Left` effects that `ReadPump` returns, and no code connects them to `Hub.Broadcast` or `Hub.Unregister`. Likewise the messages the write task takes are `Dequeued` events of `WritePump`, and the model does not tie them to the hub's `Receive` events.
- **Deadlines and timers.** Read and write deadlines, the pong handler and the ticker (client.go:73-74, 108, 116, 154) are left out. A missed deadline shows up only as the read, write or ping error it causes, and a tick is an event.
- **Websocket library calls.** `Upgrade`, `ReadMessage`, `NextWriter`, `WriteMessage` and `Close` are answers carried by the events. The read limit of client.go:72 is modelled as a read failure for a frame over 512 bytes.
- **JSON decoding.** `json.Unmarshal` (client.go:90) is a function parameter that yields the `msg` field. Its error is ignored, as in the code.
- **Templates.** `view.MessageLog(...).Render` and `ui.RenderPage` are not modelled. The model stops at the `MsgDisplayData` record and the page name.
- **Message ids and clocks.** `uuid.NewV4` and `time.Now` are inputs. `uuid.Must`'s panic is not modelled.
- **Dead code.** The no-op loop at client.go:141-147 and the unused `TrimSpace` at client.go:97 are not modelled.
- **`getAllRooms`** (repository.go:103-119) is not modelled. Its `defer rows.Close()` runs before its error check, which is a library-level concern.
- **SQL engine internals.** Connection pooling, pgx transactions beyond all-or-nothing commit, and `Scan` errors in the row loops are not modelled. A failing statement is an input, the set of failing steps.
- **Auth and user management.** Authentication (JWT, bcrypt), the user handlers and repositories, route wiring (`cmd/rtm/main.go`, `internal/service/chat/service.go`) and the templates are outside this model.
- **The `hubs` table.** `service.go` declares a single `hub` field, and the code that builds the `hubs` table the handlers use is not part of this model. `ChatHandlers.Service.constructor` starts it empty.
- **Calendar conversion.** Times are calendar readings (year, month, day, hour, minute, second, nanosecond). How an instant becomes that reading (time zones, month lengths) is Go runtime behaviour and is not modelled.
- ChatRepository.SortNewestFirst: SQL leaves the order of messages with equal times open. The model settles ties one fixed way, so the order it proves is non-increasing time and not a specific tie order.
- ChatRepository.Database.GetRoomsFromUser: the query has no `order by`. The model returns rooms in table order, and its contract states membership and not order.
- **Unsynchronised access to the hubs table.** The handlers run on concurrent request goroutines and read and write `s.hubs` without a lock (handlers.go:17, 33-39, 48, 64). So the check-then-insert of `handleCreateRoom` is a race in the code. The model runs each handler call to completion, one at a time.
- **Code that does not compile as written.** The files do not type-check in three places, and the model reads each as the evident intent. `hub.go` uses `c.rid` where `client` has the field `roomID` (client.go:42); the model uses the client's room. handlers.go:69 makes `send` a `chan []byte` where the field is `chan *message` (client.go:48); the model keeps its capacity of 256 and its element type of message. handlers.go:75 calls `readPump()` without the request and pool that client.go:67 takes; the model's `ReadPump` takes the database as a parameter.
- **The dashboard's user data.** `handleDashboard` also passes the user from the request context and sets status 302. Only the list of room ids is modelled.
