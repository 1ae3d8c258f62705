/** The HTTP handlers of the chat service (handlers.go), as operations on
    the service's table of running hubs, keyed by the room id the user
    typed.

    Starting a hub's `run` loop and a session's two tasks in goroutines
    is not modelled (see ChatHub and ChatClient for what they do); the
    replies are the parts of the HTTP response the handlers set. */
module ChatHandlers {
  import opened Base
  import opened ChatHub

  /** What a handler answers. */
  datatype Reply =
    | Text(body: string)                       // `w.Write(...)`
    | Redirect(location: string)               // `HX-Redirect` with status 200
    | Page(template: string, roomId: string)   // `ui.RenderPage(...)`
    | Dashboard(roomIds: seq<string>)          // the dashboard page with its room list
    | NoReply                                  // return without writing anything

  /** The capacity of the queue `handleServeWs` gives a session. */
  const ServeWsQueueCapacity: nat := 256

  /** The client `handleServeWs` builds (handlers.go:69): only the hub,
      the connection and the queue are set, so room, user and username
      keep their zero values. */
  function ServeWsClient(id: nat): (c: Client)
    ensures c.room == NilUuid && c.user == NilUuid && c.name == ""
    ensures c.capacity == ServeWsQueueCapacity && c.id == id
  {
    Client(id, NilUuid, NilUuid, "", ServeWsQueueCapacity)
  }

  /** The prefix of the address of a room's page. */
  const RoomPathPrefix: string := "/dashboard/room/"

  /** A session of `handleServeWs` is registered into a hub only if that
      hub has an entry for the nil room id, since that is the room field
      of its client; a hub made by `handleCreateRoom` has none, so the
      first connection to it makes the hub panic. */
  lemma ServeWsNeedsNilRoom(s: Registry, id: nat)
    ensures RegisterStep(s, ServeWsClient(id)).Err? <==> NilUuid !in s.rooms
    ensures RegisterStep(EmptyRegistry, ServeWsClient(id)) == Err(NilMapWrite)
  {
    RegisterNeedsRoom(s, ServeWsClient(id));
    RegisterNeedsRoom(EmptyRegistry, ServeWsClient(id));
  }

  class Service {
    var hubs: map<string, Hub>

    /** The service starts with no hubs. */
    constructor ()
      ensures hubs == map[]
    {
      hubs := map[];
    }

    /** `handleDashboard` (handlers.go:12-29): every room id, each once,
        in the order the map iteration happens to take. */
    method HandleDashboard() returns (reply: Reply)
      ensures reply.Dashboard?
      ensures forall k :: k in reply.roomIds <==> k in hubs
      ensures forall i, j :: 0 <= i < j < |reply.roomIds| ==> reply.roomIds[i] != reply.roomIds[j]
      ensures |reply.roomIds| == |hubs|
    {
      var roomids: seq<string> := [];
      var left := hubs.Keys;
      while left != {}
        invariant left <= hubs.Keys
        invariant forall k :: k in roomids <==> k in hubs.Keys - left
        invariant forall i, j :: 0 <= i < j < |roomids| ==> roomids[i] != roomids[j]
        invariant |roomids| + |left| == |hubs.Keys|
        decreases left
      {
        var k :| k in left;
        assert k !in roomids;
        roomids := roomids + [k];
        left := left - {k};
      }
      return Dashboard(roomids);
    }

    /** `handleCreateRoom` (handlers.go:31-44). */
    method HandleCreateRoom(roomid: string) returns (reply: Reply)
      modifies this
      ensures roomid in old(hubs) ==> hubs == old(hubs) && reply == Text("Room already exists")
      ensures roomid !in old(hubs) ==>
        && roomid in hubs && fresh(hubs[roomid])
        && hubs == old(hubs)[roomid := hubs[roomid]]
        && hubs[roomid].State() == EmptyRegistry
        && reply == Redirect(RoomPathPrefix + roomid)
    {
      if roomid in hubs {
        return Text("Room already exists");
      }
      var h := new Hub();
      hubs := hubs[roomid := h];
      return Redirect(RoomPathPrefix + roomid);
    }

    /** `handleJoinRoom` (handlers.go:46-53). */
    method HandleJoinRoom(roomid: string) returns (reply: Reply)
      ensures roomid in hubs ==> reply == Page("chatroom", roomid)
      ensures roomid !in hubs ==> reply == NoReply
    {
      if roomid !in hubs {
        return NoReply;
      }
      return Page("chatroom", roomid);
    }

    /** `handleServeWs` (handlers.go:55-76). `upgradeOk` is whether the
        websocket upgrade succeeds; `id` tells the new session apart. The
        only hub that may change is the room's own. */
    method HandleServeWs(roomid: string, upgradeOk: bool, id: nat) returns (panic: Option<Panic>)
      modifies if roomid in hubs then {hubs[roomid]} else {}
      ensures !upgradeOk || roomid !in hubs ==> panic == None
      ensures !upgradeOk && roomid in hubs ==> hubs[roomid].State() == old(hubs[roomid].State())
      ensures upgradeOk && roomid in hubs ==>
        Follows(RegisterStep(old(hubs[roomid].State()), ServeWsClient(id)), panic, hubs[roomid].State())
    {
      if !upgradeOk {
        return None;
      }
      if roomid !in hubs {
        return None;
      }
      var client := ServeWsClient(id);
      panic := hubs[roomid].Register(client);
    }
  }

  /** A room just created has a hub, and that hub is empty: it has no
      room entries, so no client is in it and none can be registered. */
  lemma {:induction false} CreatedHubRejectsEveryClient(c: Client, events: seq<Event>)
    ensures RegisterStep(EmptyRegistry, c) == Err(NilMapWrite)
    ensures RunSpec(EmptyRegistry, events).state == EmptyRegistry
    ensures !Registered(RunSpec(EmptyRegistry, events).state, c)
  {
    RegisterNeedsRoom(EmptyRegistry, c);
    FreshHubStaysEmpty(events);
    FreshHubIsEmpty(c);
  }
}
