/** One websocket session of a chat room (client.go).

    A session has two tasks. The read task takes frames from the
    connection, stores each chat message and hands it to the hub for
    broadcasting; the write task takes messages from the session's queue
    (filled by the hub) and writes them to the connection as rendered
    HTML, with a ping on every tick of a timer.

    What the connection, the clock, the database and the JSON decoder
    answer is not known to the model: each task reads its inputs as a
    sequence of events, each carrying those answers. Each task is a
    method with a loop, proved equal to a recursive function over the
    events; the lemmas describe that function. */
module ChatClient {
  import opened Base
  import opened ChatTime
  import opened ChatHub
  import opened ChatView
  import opened ChatRepository

  // -----------------------------------------------------------------------
  // Constants (client.go:18-27), in nanoseconds as `time.Duration` is

  const Second: nat := 1_000_000_000
  /** Time allowed to write a frame to the peer. */
  const WriteWait: nat := 10 * Second
  /** Time allowed to read the next pong from the peer. */
  const PongWait: nat := 60 * Second
  /** Largest frame accepted from the peer, in bytes. */
  const MaxMessageSize: nat := 512

  /** The ping period derived from a pong wait: nine tenths of it, which
      keeps a ping in flight before the peer's deadline passes. */
  function PingPeriodFor(pongWait: nat): (r: nat)
    ensures 0 < pongWait ==> r < pongWait
    ensures 10 <= pongWait ==> 0 < r
  {
    (pongWait * 9) / 10
  }

  const PingPeriod: nat := PingPeriodFor(PongWait)

  /** `newClient` (client.go:51-60): the send queue is an unbuffered
      channel, so its capacity is 0. */
  function NewClient(id: nat, rid: Uuid, uid: Uuid, uname: string): Client {
    Client(id, rid, uid, uname, 0)
  }

  /** An unbuffered queue accepts a message only when its write task is
      waiting on it with nothing in flight: the hub's non-blocking send
      succeeds for such a session exactly when it is parked. */
  lemma NewClientNeedsWaitingWriter(s: Registry, id: nat, rid: Uuid, uid: Uuid, uname: string,
                                    parked: set<Client>)
    ensures var c := NewClient(id, rid, uid, uname);
      && c.room == rid && c.user == uid && c.name == uname
      && (Accepts(s, c, parked) <==> c in parked && QueueOf(s, c) == [])
  {
  }

  /** The record a hub message is rendered from (client.go:128-138). */
  function Render(c: Client, m: Message): MsgDisplayData {
    MsgDisplayData(m.room, m.username, m.body, FormatTime(m.time), c.user == m.user)
  }

  /** A rendered message shows its own room, sender and body; it is marked
      as mine exactly when this session's user sent it; and its time reads
      back as the message's time to the second. */
  lemma RenderShowsMessage(c: Client, m: Message)
    ensures var d := Render(c, m);
      && d.roomId == m.room && d.username == m.username && d.msg == m.body
      && (d.mine <==> c.user == m.user)
      && ParseTime(d.time) == Some(m.time.(nanosecond := 0))
  {
    FormatTimeRoundTrip(m.time);
  }

  // -----------------------------------------------------------------------
  // The read task: readPump (client.go:67-100)

  /** What one `ReadMessage` call brings: a frame with its payload, and
      the answers the rest of the iteration gets (the fresh message id,
      the clock at the store, whether the store succeeded, the clock at
      the broadcast); or a read error (a closed or broken connection). */
  datatype Inbound =
    | Frame(payload: seq<byte>, id: Uuid, storedAt: Time, storeOk: bool, sentAt: Time)
    | ReadFailed

  datatype ReadEffect =
    | Stored(row: MessageRow)      // `addMessageEntry` succeeded
    | Published(m: Message)        // `c.hub.broadcast <- m`
    | ConnClosed                   // `c.conn.Close()`
    | Left(c: Client)              // `c.hub.unregister <- c`

  /** `ReadMessage` fails for a read error and for a frame longer than
      the read limit. */
  predicate Readable(e: Inbound) {
    e.Frame? && |e.payload| <= MaxMessageSize
  }

  /** An event after which the loop goes round again. */
  predicate Continues(e: Inbound) {
    Readable(e) && e.storeOk
  }

  /** The row stored for a frame; `decode` is what `json.Unmarshal` leaves
      in the `msg` field (the empty string when decoding fails). */
  function RowOf(c: Client, e: Inbound, decode: seq<byte> -> string): MessageRow
    requires e.Frame?
  {
    MessageRow(e.id, decode(e.payload), e.storedAt, c.room, c.user)
  }

  /** The message handed to the hub for a frame. */
  function MessageOf(c: Client, e: Inbound, decode: seq<byte> -> string): Message
    requires e.Frame?
  {
    Message(c.room, c.user, c.name, decode(e.payload), e.sentAt)
  }

  /** The deferred teardown: close the connection, then unregister. */
  function Teardown(c: Client): seq<ReadEffect> {
    [ConnClosed, Left(c)]
  }

  /** The effects of the read task over the events. A finite sequence of
      events is the connection's whole life: its end stands for the read
      error that ends the loop. */
  function ReadSpec(c: Client, events: seq<Inbound>, decode: seq<byte> -> string): seq<ReadEffect>
    decreases |events|
  {
    if events == [] || !Continues(events[0]) then Teardown(c)
    else [Stored(RowOf(c, events[0], decode)), Published(MessageOf(c, events[0], decode))]
         + ReadSpec(c, events[1..], decode)
  }

  /** The rows among the effects, in order. */
  function StoredRows(effects: seq<ReadEffect>): seq<MessageRow> {
    if effects == [] then []
    else
      var last := effects[|effects| - 1];
      StoredRows(effects[..|effects| - 1]) + (if last.Stored? then [last.row] else [])
  }

  /** The number of leading events after which the loop goes round. */
  function GoodPrefix(events: seq<Inbound>): (n: nat)
    ensures n <= |events|
    ensures forall k :: 0 <= k < n ==> Continues(events[k])
    ensures n < |events| ==> !Continues(events[n])
  {
    if events == [] || !Continues(events[0]) then 0
    else
      var n := GoodPrefix(events[1..]);
      assert forall k :: 1 <= k < |events| ==> events[k] == events[1..][k - 1];
      1 + n
  }

  /** The whole shape of a session's reading: for each of the `n` good
      frames, the row is stored and then exactly that message, stamped
      with the session's room, user and name, is handed to the hub; then
      the connection is closed and the session unregisters, once. */
  lemma {:induction false} ReadSpecShape(c: Client, events: seq<Inbound>, decode: seq<byte> -> string)
    ensures var r := ReadSpec(c, events, decode); var n := GoodPrefix(events);
      && |r| == 2 * n + 2
      && (forall k :: 0 <= k < n ==>
            r[2 * k] == Stored(RowOf(c, events[k], decode))
            && r[2 * k + 1] == Published(MessageOf(c, events[k], decode)))
      && r[2 * n] == ConnClosed && r[2 * n + 1] == Left(c)
    decreases |events|
  {
    if events == [] || !Continues(events[0]) {
    } else {
      var r := ReadSpec(c, events, decode);
      var rest := ReadSpec(c, events[1..], decode);
      ReadSpecShape(c, events[1..], decode);
      var n := GoodPrefix(events);
      assert r == [Stored(RowOf(c, events[0], decode)), Published(MessageOf(c, events[0], decode))] + rest;
      forall k | 1 <= k < n
        ensures r[2 * k] == Stored(RowOf(c, events[k], decode))
        ensures r[2 * k + 1] == Published(MessageOf(c, events[k], decode))
      {
        assert events[k] == events[1..][k - 1];
        assert r[2 * k] == rest[2 * (k - 1)];
        assert r[2 * k + 1] == rest[2 * (k - 1) + 1];
      }
    }
  }

  /** The session stops reading at the first failing event: nothing after
      it has any effect. */
  lemma {:induction false} ReadStopsAtFailure(c: Client, events: seq<Inbound>, decode: seq<byte> -> string, j: nat)
    requires j < |events| && !Continues(events[j])
    ensures ReadSpec(c, events, decode) == ReadSpec(c, events[..j + 1], decode)
    decreases j
  {
    if j > 0 && Continues(events[0]) {
      assert events[1..][..j] == events[..j + 1][1..];
      assert events[1..][j - 1] == events[j];
      ReadStopsAtFailure(c, events[1..], decode, j - 1);
    }
  }

  /** Every message handed to the hub was stored just before it, with the
      same body, room and user, and every row and message carry the
      session's own room and user. */
  lemma ReadStoresBeforePublishing(c: Client, events: seq<Inbound>, decode: seq<byte> -> string)
    ensures var r := ReadSpec(c, events, decode);
      forall k :: 0 <= k < |r| && r[k].Published? ==>
        && 0 < k && r[k - 1].Stored?
        && r[k - 1].row.msg == r[k].m.body
        && r[k].m.room == r[k - 1].row.room == c.room
        && r[k].m.user == r[k - 1].row.user == c.user
        && r[k].m.username == c.name
  {
    var r := ReadSpec(c, events, decode);
    var n := GoodPrefix(events);
    ReadSpecShape(c, events, decode);
    forall k | 0 <= k < |r|
      ensures r[k].Published? ==>
        && 0 < k && r[k - 1].Stored? && r[k - 1].row.msg == r[k].m.body
        && r[k].m.room == r[k - 1].row.room == c.room && r[k].m.user == r[k - 1].row.user == c.user
        && r[k].m.username == c.name
    {
      if k < 2 * n {
        var q := k / 2;
        if k % 2 == 0 {
          assert r[k] == r[2 * q];
        } else {
          assert k == 2 * q + 1;
        }
      }
    }
  }

  /** One more round of the read loop. */
  lemma ReadSpecUnfold(c: Client, events: seq<Inbound>, decode: seq<byte> -> string, i: nat)
    requires i <= |events|
    ensures i == |events| || !Continues(events[i]) ==> ReadSpec(c, events[i..], decode) == Teardown(c)
    ensures i < |events| && Continues(events[i]) ==>
      ReadSpec(c, events[i..], decode)
        == [Stored(RowOf(c, events[i], decode)), Published(MessageOf(c, events[i], decode))]
           + ReadSpec(c, events[i + 1..], decode)
  {
    if i < |events| {
      assert events[i..][1..] == events[i + 1..];
    }
  }

  lemma StoredRowsOne(effects: seq<ReadEffect>, e: ReadEffect)
    ensures StoredRows(effects + [e]) == StoredRows(effects) + (if e.Stored? then [e.row] else [])
  {
    assert (effects + [e])[..|effects|] == effects;
  }

  /** One iteration of the read loop (client.go:76-95): read, decode,
      store. It reports whether the loop goes on, and the row it stored. */
  method ReadOneFrame(c: Client, e: Inbound, decode: seq<byte> -> string, db: Database)
    returns (goOn: bool)
    modifies db
    ensures goOn == Continues(e)
    ensures db.messages == if goOn then old(db.messages) + [RowOf(c, e, decode)] else old(db.messages)
    ensures db.rooms == old(db.rooms) && db.roomUsers == old(db.roomUsers) && db.users == old(db.users)
  {
    if !Readable(e) {
      return false;
    }
    var row := MessageRow(e.id, decode(e.payload), e.storedAt, c.room, c.user);
    var err := db.AddMessageEntry(row, !e.storeOk);
    return err.None?;
  }

  /** A round of the read loop keeps its invariant. */
  lemma ReadRound(c: Client, events: seq<Inbound>, decode: seq<byte> -> string, i: nat,
                  effects: seq<ReadEffect>)
    requires i < |events| && Continues(events[i])
    requires effects + ReadSpec(c, events[i..], decode) == ReadSpec(c, events, decode)
    ensures var more := effects + [Stored(RowOf(c, events[i], decode)), Published(MessageOf(c, events[i], decode))];
      && more + ReadSpec(c, events[i + 1..], decode) == ReadSpec(c, events, decode)
      && StoredRows(more) == StoredRows(effects) + [RowOf(c, events[i], decode)]
  {
    var row := RowOf(c, events[i], decode);
    var m := MessageOf(c, events[i], decode);
    ReadSpecUnfold(c, events, decode, i);
    StoredRowsOne(effects, Stored(row));
    StoredRowsOne(effects + [Stored(row)], Published(m));
    assert effects + [Stored(row), Published(m)] == effects + [Stored(row)] + [Published(m)];
    AppendAssoc(effects, [Stored(row), Published(m)], ReadSpec(c, events[i + 1..], decode));
  }

  /** Leaving the read loop, the teardown completes the effects. */
  lemma ReadEnd(c: Client, events: seq<Inbound>, decode: seq<byte> -> string, i: nat,
                effects: seq<ReadEffect>)
    requires i <= |events| && (i == |events| || !Continues(events[i]))
    requires effects + ReadSpec(c, events[i..], decode) == ReadSpec(c, events, decode)
    ensures effects + Teardown(c) == ReadSpec(c, events, decode)
    ensures StoredRows(effects + Teardown(c)) == StoredRows(effects)
  {
    ReadSpecUnfold(c, events, decode, i);
    StoredRowsOne(effects, ConnClosed);
    StoredRowsOne(effects + [ConnClosed], Left(c));
    assert effects + [ConnClosed, Left(c)] == effects + [ConnClosed] + [Left(c)];
  }

  /** The read task. The database is written as the loop goes; the other
      effects are returned in order. */
  method ReadPump(c: Client, events: seq<Inbound>, decode: seq<byte> -> string, db: Database)
    returns (effects: seq<ReadEffect>)
    modifies db
    ensures effects == ReadSpec(c, events, decode)
    ensures db.messages == old(db.messages) + StoredRows(effects)
    ensures db.rooms == old(db.rooms) && db.roomUsers == old(db.roomUsers) && db.users == old(db.users)
  {
    effects := [];
    var i := 0;
    while i < |events|
      invariant 0 <= i <= |events|
      invariant effects + ReadSpec(c, events[i..], decode) == ReadSpec(c, events, decode)
      invariant db.messages == old(db.messages) + StoredRows(effects)
      invariant db.rooms == old(db.rooms) && db.roomUsers == old(db.roomUsers) && db.users == old(db.users)
    {
      var e := events[i];
      var goOn := ReadOneFrame(c, e, decode, db);
      if !goOn {
        break;
      }
      ReadRound(c, events, decode, i, effects);
      effects := effects + [Stored(RowOf(c, e, decode)), Published(MessageOf(c, e, decode))];
      i := i + 1;
    }
    ReadEnd(c, events, decode, i, effects);
    effects := effects + Teardown(c);
  }

  // -----------------------------------------------------------------------
  // The write task: writePump (client.go:107-160)

  /** What wakes the write task: a message taken from the queue, with
      whether `NextWriter` and the final `w.Close` succeed; the queue found
      closed by the hub; or a tick of the ping timer, with whether the ping
      write succeeds. */
  datatype Outbound =
    | Dequeued(m: Message, writerOk: bool, flushOk: bool)
    | QueueClosed
    | Tick(pingOk: bool)

  datatype WireFrame = TextFrame(data: MsgDisplayData) | PingFrame | CloseFrame

  datatype WriteEffect =
    | Wrote(frame: WireFrame)      // a frame handed to the connection
    | Finished                     // `ticker.Stop()` and `c.conn.Close()`

  /** An event after which the loop goes round again. */
  predicate Keeps(e: Outbound) {
    (e.Dequeued? && e.writerOk && e.flushOk) || (e.Tick? && e.pingOk)
  }

  /** The frame an event that keeps the loop going writes. */
  function FrameOf(c: Client, e: Outbound): WireFrame
    requires Keeps(e)
  {
    if e.Dequeued? then TextFrame(Render(c, e.m)) else PingFrame
  }

  /** The effects of the write task over the events. A closed queue gets
      a close frame, whose own write error is ignored; a failed writer,
      flush or ping ends the task with nothing more written. With no more
      events the task is still waiting. */
  function WriteSpec(c: Client, events: seq<Outbound>): seq<WriteEffect>
    decreases |events|
  {
    if events == [] then []
    else match events[0]
      case QueueClosed => [Wrote(CloseFrame), Finished]
      case Dequeued(m, writerOk, flushOk) =>
        if writerOk && flushOk then [Wrote(TextFrame(Render(c, m)))] + WriteSpec(c, events[1..])
        else [Finished]
      case Tick(pingOk) =>
        if pingOk then [Wrote(PingFrame)] + WriteSpec(c, events[1..]) else [Finished]
  }

  /** The number of leading events after which the loop goes round. */
  function KeptPrefix(events: seq<Outbound>): (n: nat)
    ensures n <= |events|
    ensures forall k :: 0 <= k < n ==> Keeps(events[k])
    ensures n < |events| ==> !Keeps(events[n])
  {
    if events == [] || !Keeps(events[0]) then 0
    else
      var n := KeptPrefix(events[1..]);
      assert forall k :: 1 <= k < |events| ==> events[k] == events[1..][k - 1];
      1 + n
  }

  /** The whole shape of a session's writing: one frame per event, in
      event order, while the loop goes round (each queued message as its
      rendering, each tick as a ping); then, if an event stopped the loop,
      a close frame when it was the hub closing the queue, and the end of
      the task. Nothing is written after the end. */
  lemma {:induction false} WriteSpecShape(c: Client, events: seq<Outbound>)
    ensures var r := WriteSpec(c, events); var n := KeptPrefix(events);
      && n <= |r|
      && (forall k :: 0 <= k < n ==> r[k] == Wrote(FrameOf(c, events[k])))
      && (n == |events| ==> |r| == n)
      && (n < |events| && events[n].QueueClosed? ==> r[n..] == [Wrote(CloseFrame), Finished])
      && (n < |events| && !events[n].QueueClosed? ==> r[n..] == [Finished])
    decreases |events|
  {
    if events != [] && Keeps(events[0]) {
      var r := WriteSpec(c, events);
      var rest := WriteSpec(c, events[1..]);
      WriteSpecShape(c, events[1..]);
      var n := KeptPrefix(events);
      assert r == [Wrote(FrameOf(c, events[0]))] + rest;
      forall k | 1 <= k < n ensures r[k] == Wrote(FrameOf(c, events[k])) {
        assert events[k] == events[1..][k - 1];
      }
      assert r[n..] == rest[n - 1..];
      if n < |events| {
        assert events[n] == events[1..][n - 1];
      }
    }
  }

  /** The task ends at most once, and only as its last effect. */
  lemma FinishedOnlyLast(c: Client, events: seq<Outbound>)
    ensures var r := WriteSpec(c, events);
      forall k :: 0 <= k < |r| && r[k] == Finished ==> k == |r| - 1
  {
    var r := WriteSpec(c, events);
    var n := KeptPrefix(events);
    WriteSpecShape(c, events);
    forall k | 0 <= k < |r| && r[k] == Finished ensures k == |r| - 1 {
      if n <= k {
        assert r[n..][k - n] == r[k];
      }
    }
  }

  /** One more round of the write loop. */
  lemma WriteSpecUnfold(c: Client, events: seq<Outbound>, i: nat)
    requires i < |events|
    ensures events[i].QueueClosed? ==> WriteSpec(c, events[i..]) == [Wrote(CloseFrame), Finished]
    ensures Keeps(events[i]) ==>
      WriteSpec(c, events[i..]) == [Wrote(FrameOf(c, events[i]))] + WriteSpec(c, events[i + 1..])
    ensures !Keeps(events[i]) && !events[i].QueueClosed? ==> WriteSpec(c, events[i..]) == [Finished]
  {
    assert events[i..][1..] == events[i + 1..];
  }

  /** The write task. */
  method WritePump(c: Client, events: seq<Outbound>) returns (effects: seq<WriteEffect>)
    ensures effects == WriteSpec(c, events)
  {
    effects := [];
    var i := 0;
    while i < |events|
      invariant 0 <= i <= |events|
      invariant effects + WriteSpec(c, events[i..]) == WriteSpec(c, events)
    {
      WriteSpecUnfold(c, events, i);
      var e := events[i];
      match e {
      case QueueClosed =>
        effects := effects + [Wrote(CloseFrame), Finished];
        return;
      case Dequeued(m, writerOk, flushOk) =>
        if !writerOk {
          effects := effects + [Finished];
          return;
        }
        var data := Render(c, m);
        if !flushOk {
          effects := effects + [Finished];
          return;
        }
        assert Wrote(TextFrame(data)) == Wrote(FrameOf(c, e));
        AppendAssoc(effects, [Wrote(TextFrame(data))], WriteSpec(c, events[i + 1..]));
        effects := effects + [Wrote(TextFrame(data))];
      case Tick(pingOk) =>
        if !pingOk {
          effects := effects + [Finished];
          return;
        }
        AppendAssoc(effects, [Wrote(PingFrame)], WriteSpec(c, events[i + 1..]));
        effects := effects + [Wrote(PingFrame)];
      }
      i := i + 1;
    }
  }
}
