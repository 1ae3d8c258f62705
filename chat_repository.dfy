/** The persistence of the chat service (repository.go), over in-memory
    tables.

    Each SQL statement of repository.go is a function on a `Tables`
    value. The class `Database` holds the tables; its transactional
    methods work on a copy (the transaction) and store it back only at
    `Commit`, which is what the deferred `tx.Rollback` of the Go code
    amounts to: any early return discards the partial work.

    Whether a statement fails (a lost connection, a constraint of a
    schema that is not part of these files) is decided outside the
    model: every operation takes the set of steps that fail. */
module ChatRepository {
  import opened Base
  import opened ChatTime
  import opened ChatView

  /** A row of `room` (repository.go:14-18). */
  datatype Room = Room(id: Uuid, name: string, creator: Uuid)

  /** A row of `room_user` (repository.go:20-23). */
  datatype RoomUser = RoomUser(room: Uuid, user: Uuid)

  /** A row of `message` (repository.go:25-31). */
  datatype MessageRow = MessageRow(id: Uuid, msg: string, time: Time, room: Uuid, user: Uuid)

  /** The tables the chat service reads and writes. `room` and `message`
      are kept in storage order; `room_user` is a set of pairs, so a pair
      is stored at most once (the schema's key on it is not part of these
      files, and without it the join of `getRoomsFromUser` would list a
      room once per duplicate pair); `"user"` (owned by the user service)
      maps a user id to its username. */
  datatype Tables = Tables(rooms: seq<Room>, roomUsers: set<RoomUser>,
                           messages: seq<MessageRow>, users: map<Uuid, string>)

  /** The steps of a transaction: `db.Begin`, its statements in order,
      and `tx.Commit`. */
  datatype TxStep = Begin | Exec(index: nat) | Commit

  datatype DbError = StepFailed(step: TxStep) | QueryFailed | NoRows

  /** The error a transaction returns: that of its first failing step,
      since the Go code returns at the first error. */
  function FirstFailure(steps: seq<TxStep>, failing: set<TxStep>): (r: Option<DbError>)
    ensures r.None? <==> forall k :: 0 <= k < |steps| ==> steps[k] !in failing
    ensures r.Some? ==> exists k :: 0 <= k < |steps| && r == Some(StepFailed(steps[k])) && steps[k] in failing
                          && forall j :: 0 <= j < k ==> steps[j] !in failing
  {
    if steps == [] then None
    else if steps[0] in failing then Some(StepFailed(steps[0]))
    else
      var r := FirstFailure(steps[1..], failing);
      assert forall k :: 1 <= k < |steps| ==> steps[k] == steps[1..][k - 1];
      assert r.Some? ==> exists k :: 0 <= k < |steps| && r == Some(StepFailed(steps[k])) && steps[k] in failing
                                     && forall j :: 0 <= j < k ==> steps[j] !in failing by {
        if r.Some? {
          var k :| 0 <= k < |steps| - 1 && r == Some(StepFailed(steps[1..][k])) && steps[1..][k] in failing
                   && forall j :: 0 <= j < k ==> steps[1..][j] !in failing;
          assert steps[k + 1] == steps[1..][k];
          assert forall j :: 0 <= j < k + 1 ==> steps[j] !in failing;
        }
      }
      r
  }

  lemma FirstFailureCons(x: TxStep, rest: seq<TxStep>, failing: set<TxStep>)
    ensures FirstFailure([x] + rest, failing)
         == if x in failing then Some(StepFailed(x)) else FirstFailure(rest, failing)
  {
    assert ([x] + rest)[1..] == rest;
  }

  // -----------------------------------------------------------------------
  // The statements

  /** `insert into room(id, roomname, creator_id)` (repository.go:68-71). */
  function InsertRoom(t: Tables, r: Room): Tables {
    t.(rooms := t.rooms + [r])
  }

  /** `insert into room_user(room_id, user_id)` (repository.go:73-76). */
  function InsertRoomUser(t: Tables, ru: RoomUser): Tables {
    t.(roomUsers := t.roomUsers + {ru})
  }

  /** `insert into message(...)` (repository.go:89-92). */
  function InsertMessage(t: Tables, m: MessageRow): Tables {
    t.(messages := t.messages + [m])
  }

  /** `delete from room_user ru where ru.room_id = $1` (repository.go:208-211). */
  function DeleteRoomUsers(t: Tables, rid: Uuid): Tables {
    t.(roomUsers := set ru | ru in t.roomUsers && ru.room != rid)
  }

  /** `delete from message where message.room_id = $1` (repository.go:213-216). */
  function DeleteRoomMessages(t: Tables, rid: Uuid): Tables {
    t.(messages := Filter(t.messages, (m: MessageRow) => m.room != rid))
  }

  /** `delete from room where room.id = $1` (repository.go:203-206). */
  function DeleteRoomRow(t: Tables, rid: Uuid): Tables {
    t.(rooms := Filter(t.rooms, (r: Room) => r.id != rid))
  }

  /** What a committed `createRoomWithCreator` leaves (repository.go:39-54). */
  function CreateRoomTables(t: Tables, r: Room): Tables {
    InsertRoomUser(InsertRoom(t, r), RoomUser(r.id, r.creator))
  }

  /** What a committed `deleteRoom` leaves (repository.go:181-201). */
  function DeleteRoomTables(t: Tables, rid: Uuid): Tables {
    DeleteRoomRow(DeleteRoomMessages(DeleteRoomUsers(t, rid), rid), rid)
  }

  // -----------------------------------------------------------------------
  // The queries

  /** `select exists(select 1 from room_user ru where ...)`
      (repository.go:78-85). */
  function IsAMember(t: Tables, ru: RoomUser, queryFails: bool): (r: Result<bool, DbError>)
    ensures r.Ok? <==> !queryFails
    ensures r.Ok? ==> (r.value <==> ru in t.roomUsers)
  {
    if queryFails then Err(QueryFailed) else Ok(ru in t.roomUsers)
  }

  /** The first row of `room` with the given id, as `QueryRow` returns it. */
  function FindRoom(rooms: seq<Room>, rid: Uuid): (r: Option<Room>)
    ensures r.None? <==> forall k :: 0 <= k < |rooms| ==> rooms[k].id != rid
    ensures r.Some? ==> exists k :: 0 <= k < |rooms| && rooms[k] == r.value && r.value.id == rid
                          && forall j :: 0 <= j < k ==> rooms[j].id != rid
  {
    if rooms == [] then None
    else if rooms[0].id == rid then Some(rooms[0])
    else
      var r := FindRoom(rooms[1..], rid);
      assert forall k :: 1 <= k < |rooms| ==> rooms[k] == rooms[1..][k - 1];
      r
  }

  /** `getRoomByID` (repository.go:94-101): the room with that id, or
      `pgx.ErrNoRows` when there is none. */
  function GetRoomByID(t: Tables, rid: Uuid, queryFails: bool): (r: Result<Room, DbError>)
    ensures r.Ok? ==> r.value in t.rooms && r.value.id == rid
    ensures r == Err(NoRows) <==> !queryFails && forall x :: x in t.rooms ==> x.id != rid
    ensures queryFails ==> r == Err(QueryFailed)
    ensures r.Ok? <==> !queryFails && exists x :: x in t.rooms && x.id == rid
  {
    if queryFails then Err(QueryFailed)
    else match FindRoom(t.rooms, rid)
      case None => Err(NoRows)
      case Some(room) => Ok(room)
  }

  /** The rows `getMessagesFromRoom` selects before ordering: messages of
      room `rid` whose sender has a `"user"` row (the inner join). */
  function RoomMessages(t: Tables, rid: Uuid): seq<MessageRow> {
    Filter(t.messages, (m: MessageRow) => m.room == rid && m.user in t.users)
  }

  /** Every row of `s` is not after any earlier one. */
  predicate NewestFirst(s: seq<MessageRow>) {
    forall i, j :: 0 <= i < j < |s| ==> NotAfter(s[j].time, s[i].time)
  }

  /** A row can go in front of a newest-first sequence none of whose
      rows is after it. */
  lemma ConsNewestFirst(h: MessageRow, t: seq<MessageRow>)
    requires NewestFirst(t)
    requires forall j :: 0 <= j < |t| ==> NotAfter(t[j].time, h.time)
    ensures NewestFirst([h] + t)
  {
    var r := [h] + t;
    forall i, j | 0 <= i < j < |r| ensures NotAfter(r[j].time, r[i].time) {
      assert r[j] == t[j - 1];
      if i > 0 {
        assert r[i] == t[i - 1];
      }
    }
  }

  lemma TailNewestFirst(s: seq<MessageRow>)
    requires NewestFirst(s) && s != []
    ensures NewestFirst(s[1..])
  {
    forall i, j | 0 <= i < j < |s| - 1 ensures NotAfter(s[1..][j].time, s[1..][i].time) {
      assert s[1..][j] == s[j + 1] && s[1..][i] == s[i + 1];
    }
  }

  /** A row not before the head of a newest-first sequence is not before
      any of its rows. */
  lemma AboveHead(x: MessageRow, s: seq<MessageRow>)
    requires NewestFirst(s) && s != [] && NotAfter(s[0].time, x.time)
    ensures forall j :: 0 <= j < |s| ==> NotAfter(s[j].time, x.time)
  {
    forall j | 0 < j < |s| ensures NotAfter(s[j].time, x.time) {
      NotAfterTransitive(s[j].time, s[0].time, x.time);
    }
  }

  /** Inserting below the head of a newest-first sequence puts nothing
      after the head. */
  lemma BelowHead(x: MessageRow, s: seq<MessageRow>, rest: seq<MessageRow>)
    requires NewestFirst(s) && s != [] && !NotAfter(s[0].time, x.time)
    requires multiset(rest) == multiset(s[1..]) + multiset{x}
    ensures forall j :: 0 <= j < |rest| ==> NotAfter(rest[j].time, s[0].time)
  {
    NotAfterTotal(s[0].time, x.time);
    forall j | 0 <= j < |rest| ensures NotAfter(rest[j].time, s[0].time) {
      assert rest[j] in multiset(rest);
      if rest[j] != x {
        assert rest[j] in multiset(s[1..]);
        var k :| 0 <= k < |s[1..]| && s[1..][k] == rest[j];
        assert s[k + 1] == rest[j];
      }
    }
  }

  function InsertByTime(x: MessageRow, s: seq<MessageRow>): (r: seq<MessageRow>)
    requires NewestFirst(s)
    ensures NewestFirst(r)
    ensures multiset(r) == multiset(s) + multiset{x}
  {
    if s == [] then [x]
    else if NotAfter(s[0].time, x.time) then
      AboveHead(x, s);
      ConsNewestFirst(x, s);
      [x] + s
    else
      TailNewestFirst(s);
      var rest := InsertByTime(x, s[1..]);
      assert s == [s[0]] + s[1..];
      BelowHead(x, s, rest);
      ConsNewestFirst(s[0], rest);
      [s[0]] + rest
  }

  /** `order by message.time desc`. SQL leaves the order of rows with
      equal times open; this sort settles such ties one fixed way. */
  function SortNewestFirst(s: seq<MessageRow>): (r: seq<MessageRow>)
    ensures NewestFirst(r)
    ensures multiset(r) == multiset(s)
  {
    if s == [] then []
    else
      assert s == [s[0]] + s[1..];
      InsertByTime(s[0], SortNewestFirst(s[1..]))
  }

  const HistoryLimit: nat := 10

  /** The rows of the query of repository.go:125-131: the room's
      messages, newest first, at most ten. */
  function LatestMessages(t: Tables, rid: Uuid): seq<MessageRow> {
    Take(SortNewestFirst(RoomMessages(t, rid)), HistoryLimit)
  }

  /** One row rendered as repository.go:137-147 does: the message, its
      time formatted, the sender's username, and `mine` when the sender
      is the asking user. The room id is left at its zero value. */
  function HistoryEntry(t: Tables, row: MessageRow, uid: Uuid): MsgDisplayData
    requires row.user in t.users
  {
    MsgDisplayData(NilUuid, t.users[row.user], row.msg, FormatTime(row.time), row.user == uid)
  }

  /** The rooms `getRoomsFromUser` selects (repository.go:153-158): those
      with a `room_user` row for `uid`, for a user that exists. */
  function RoomsOfUser(t: Tables, uid: Uuid): seq<Room> {
    Filter(t.rooms, JoinsUser(t, uid))
  }

  /** The selection of that query: a room joined to `uid` through
      `room_user` and `"user"`. */
  function JoinsUser(t: Tables, uid: Uuid): Room -> bool {
    (r: Room) => RoomUser(r.id, uid) in t.roomUsers && uid in t.users
  }

  // -----------------------------------------------------------------------
  // Properties of the statements and queries

  /** After `createRoomWithCreator` commits, the room row exists and the
      creator is a member of it. */
  lemma CreateRoomMakesCreatorMember(t: Tables, r: Room)
    ensures var t' := CreateRoomTables(t, r);
      && GetRoomByID(t', r.id, false).Ok?
      && IsAMember(t', RoomUser(r.id, r.creator), false) == Ok(true)
      && t'.messages == t.messages && t'.users == t.users
      && t'.rooms[..|t.rooms|] == t.rooms
  {
    var t' := CreateRoomTables(t, r);
    assert t'.rooms[|t.rooms|] == r;
  }

  /** After `addUserToRoom` commits, the user is a member of the room. */
  lemma AddUserMakesMember(t: Tables, ru: RoomUser)
    ensures IsAMember(InsertRoomUser(t, ru), ru, false) == Ok(true)
    ensures forall x :: IsAMember(t, x, false) == Ok(true) ==> IsAMember(InsertRoomUser(t, ru), x, false) == Ok(true)
  {
  }

  /** After `deleteRoom` commits, nothing of room `rid` is left, and the
      rows of every other room are all still there. */
  lemma DeleteRoomRemovesAll(t: Tables, rid: Uuid)
    ensures var t' := DeleteRoomTables(t, rid);
      && (forall ru :: ru in t'.roomUsers <==> ru in t.roomUsers && ru.room != rid)
      && (forall m :: m in t'.messages <==> m in t.messages && m.room != rid)
      && (forall r :: r in t'.rooms <==> r in t.rooms && r.id != rid)
      && GetRoomByID(t', rid, false) == Err(NoRows)
      && (forall uid :: IsAMember(t', RoomUser(rid, uid), false) == Ok(false))
      && (forall m :: m !in RoomMessages(t', rid))
      && t'.users == t.users
  {
  }

  lemma PrefixNewestFirst(s: seq<MessageRow>, n: nat)
    requires NewestFirst(s) && n <= |s|
    ensures NewestFirst(s[..n])
  {
    forall i, j | 0 <= i < j < n ensures NotAfter(s[..n][j].time, s[..n][i].time) {
      assert s[..n][j] == s[j] && s[..n][i] == s[i];
    }
  }

  /** The history query returns at most ten messages, newest first, drawn
      from the messages of room `rid`. */
  lemma LatestMessagesBounded(t: Tables, rid: Uuid)
    ensures var all := RoomMessages(t, rid); var top := LatestMessages(t, rid);
      && |top| == (if |all| < HistoryLimit then |all| else HistoryLimit)
      && NewestFirst(top)
      && multiset(top) <= multiset(all)
  {
    var all := RoomMessages(t, rid);
    var sorted := SortNewestFirst(all);
    var top := LatestMessages(t, rid);
    PrefixNewestFirst(sorted, |top|);
    assert sorted == top + sorted[|top|..];
    assert multiset(sorted) == multiset(top) + multiset(sorted[|top|..]);
  }

  /** Every message of the history is a stored message of room `rid`
      whose sender has a user row. */
  lemma LatestMessagesFromRoom(t: Tables, rid: Uuid)
    ensures forall x :: x in LatestMessages(t, rid) ==> x in t.messages && x.room == rid && x.user in t.users
  {
    var all := RoomMessages(t, rid);
    var sorted := SortNewestFirst(all);
    var top := LatestMessages(t, rid);
    forall x | x in top ensures x in all {
      assert x in sorted;
      assert x in multiset(sorted);
    }
  }

  /** In a newest-first sequence, no row past position `n` is after a
      row before it. */
  lemma SplitNewestFirst(s: seq<MessageRow>, n: nat)
    requires NewestFirst(s) && n <= |s|
    ensures forall x, y :: x in s[n..] && y in s[..n] ==> NotAfter(x.time, y.time)
  {
    forall x, y | x in s[n..] && y in s[..n] ensures NotAfter(x.time, y.time) {
      var i :| 0 <= i < |s[n..]| && s[n..][i] == x;
      var j :| 0 <= j < |s[..n]| && s[..n][j] == y;
      assert s[n + i] == x && s[j] == y;
    }
  }

  /** The history query returns the latest messages: every message of the
      room that is left out is not after any message returned. */
  lemma LatestMessagesAreLatest(t: Tables, rid: Uuid)
    ensures var all := RoomMessages(t, rid); var top := LatestMessages(t, rid);
      forall x, y :: x in multiset(all) - multiset(top) && y in top ==> NotAfter(x.time, y.time)
  {
    var all := RoomMessages(t, rid);
    var sorted := SortNewestFirst(all);
    var top := LatestMessages(t, rid);
    var rest := sorted[|top|..];
    assert sorted == top + rest;
    assert multiset(all) - multiset(top) == multiset(rest) by {
      assert multiset(sorted) == multiset(top) + multiset(rest);
    }
    SplitNewestFirst(sorted, |top|);
    assert top == sorted[..|top|];
    forall x: MessageRow | x in multiset(rest) ensures x in rest {
    }
  }

  /** The row loop of repository.go:136-148: each scanned row is
      rendered and appended, in order. */
  method RenderHistory(t: Tables, rows: seq<MessageRow>, uid: Uuid) returns (ms: seq<MsgDisplayData>)
    requires forall k :: 0 <= k < |rows| ==> rows[k].user in t.users
    ensures |ms| == |rows|
    ensures forall k :: 0 <= k < |rows| ==> ms[k] == HistoryEntry(t, rows[k], uid)
  {
    ms := [];
    var i := 0;
    while i < |rows|
      invariant 0 <= i <= |rows|
      invariant |ms| == i
      invariant forall k :: 0 <= k < i ==> ms[k] == HistoryEntry(t, rows[k], uid)
    {
      ms := ms + [HistoryEntry(t, rows[i], uid)];
      i := i + 1;
    }
  }

  // -----------------------------------------------------------------------
  // The database object

  class Database {
    var rooms: seq<Room>
    var roomUsers: set<RoomUser>
    var messages: seq<MessageRow>
    var users: map<Uuid, string>

    function Snapshot(): Tables
      reads this
    {
      Tables(rooms, roomUsers, messages, users)
    }

    constructor (t: Tables)
      ensures Snapshot() == t
    {
      rooms, roomUsers, messages, users := t.rooms, t.roomUsers, t.messages, t.users;
    }

    method Store(t: Tables)
      modifies this
      ensures Snapshot() == t
    {
      rooms, roomUsers, messages, users := t.rooms, t.roomUsers, t.messages, t.users;
    }

    /** `createRoomWithCreator` (repository.go:39-54). */
    method CreateRoomWithCreator(r: Room, failing: set<TxStep>) returns (err: Option<DbError>)
      modifies this
      ensures err == FirstFailure([Begin, Exec(0), Exec(1), Commit], failing)
      ensures err.None? ==> Snapshot() == CreateRoomTables(old(Snapshot()), r)
      ensures err.Some? ==> Snapshot() == old(Snapshot())
    {
      FirstFailureCons(Commit, [], failing);
      FirstFailureCons(Exec(1), [Commit], failing);
      FirstFailureCons(Exec(0), [Exec(1), Commit], failing);
      FirstFailureCons(Begin, [Exec(0), Exec(1), Commit], failing);
      if Begin in failing {
        return Some(StepFailed(Begin));
      }
      var tx := Snapshot();
      if Exec(0) in failing {
        return Some(StepFailed(Exec(0)));
      }
      tx := InsertRoom(tx, r);
      if Exec(1) in failing {
        return Some(StepFailed(Exec(1)));
      }
      tx := InsertRoomUser(tx, RoomUser(r.id, r.creator));
      if Commit in failing {
        return Some(StepFailed(Commit));
      }
      Store(tx);
      return None;
    }

    /** `addUserToRoom` (repository.go:56-66). */
    method AddUserToRoom(ru: RoomUser, failing: set<TxStep>) returns (err: Option<DbError>)
      modifies this
      ensures err == FirstFailure([Begin, Exec(0), Commit], failing)
      ensures err.None? ==> Snapshot() == InsertRoomUser(old(Snapshot()), ru)
      ensures err.Some? ==> Snapshot() == old(Snapshot())
    {
      FirstFailureCons(Commit, [], failing);
      FirstFailureCons(Exec(0), [Commit], failing);
      FirstFailureCons(Begin, [Exec(0), Commit], failing);
      if Begin in failing {
        return Some(StepFailed(Begin));
      }
      var tx := Snapshot();
      if Exec(0) in failing {
        return Some(StepFailed(Exec(0)));
      }
      tx := InsertRoomUser(tx, ru);
      if Commit in failing {
        return Some(StepFailed(Commit));
      }
      Store(tx);
      return None;
    }

    /** `addMessageEntry` (repository.go:89-92): one statement on the
        pool, outside any transaction. */
    method AddMessageEntry(m: MessageRow, fails: bool) returns (err: Option<DbError>)
      modifies this
      ensures err.None? <==> !fails
      ensures Snapshot() == if fails then old(Snapshot()) else InsertMessage(old(Snapshot()), m)
    {
      if fails {
        return Some(StepFailed(Exec(0)));
      }
      Store(InsertMessage(Snapshot(), m));
      return None;
    }

    /** `deleteRoom` (repository.go:181-201). */
    method DeleteRoom(rid: Uuid, failing: set<TxStep>) returns (err: Option<DbError>)
      modifies this
      ensures err == FirstFailure([Begin, Exec(0), Exec(1), Exec(2), Commit], failing)
      ensures err.None? ==> Snapshot() == DeleteRoomTables(old(Snapshot()), rid)
      ensures err.Some? ==> Snapshot() == old(Snapshot())
    {
      FirstFailureCons(Commit, [], failing);
      FirstFailureCons(Exec(2), [Commit], failing);
      FirstFailureCons(Exec(1), [Exec(2), Commit], failing);
      FirstFailureCons(Exec(0), [Exec(1), Exec(2), Commit], failing);
      FirstFailureCons(Begin, [Exec(0), Exec(1), Exec(2), Commit], failing);
      if Begin in failing {
        return Some(StepFailed(Begin));
      }
      var tx := Snapshot();
      if Exec(0) in failing {
        return Some(StepFailed(Exec(0)));
      }
      tx := DeleteRoomUsers(tx, rid);
      if Exec(1) in failing {
        return Some(StepFailed(Exec(1)));
      }
      tx := DeleteRoomMessages(tx, rid);
      if Exec(2) in failing {
        return Some(StepFailed(Exec(2)));
      }
      tx := DeleteRoomRow(tx, rid);
      if Commit in failing {
        return Some(StepFailed(Commit));
      }
      Store(tx);
      return None;
    }

    /** `getMessagesFromRoom` (repository.go:124-150): the rows of the
        history query, rendered. */
    method GetMessagesFromRoom(rid: Uuid, uid: Uuid, queryFails: bool)
      returns (res: Result<seq<MsgDisplayData>, DbError>)
      ensures queryFails <==> res.Err?
      ensures res.Ok? ==> var rows := LatestMessages(Snapshot(), rid);
        && |res.value| == |rows| <= HistoryLimit
        && forall k :: 0 <= k < |rows| ==>
             rows[k].user in users
             && res.value[k] == HistoryEntry(Snapshot(), rows[k], uid)
             && (res.value[k].mine <==> rows[k].user == uid)
    {
      if queryFails {
        return Err(QueryFailed);
      }
      var t := Snapshot();
      var rows := LatestMessages(t, rid);
      LatestMessagesFromRoom(t, rid);
      assert forall k :: 0 <= k < |rows| ==> rows[k].user in t.users by {
        forall k | 0 <= k < |rows| ensures rows[k].user in t.users {
          assert rows[k] in rows;
        }
      }
      var ms := RenderHistory(t, rows, uid);
      return Ok(ms);
    }

    /** `getRoomsFromUser` (repository.go:152-172): exactly the rooms the
        user is a member of, in table order. */
    method GetRoomsFromUser(uid: Uuid, queryFails: bool) returns (res: Result<seq<Room>, DbError>)
      ensures queryFails <==> res.Err?
      ensures res.Ok? ==> forall r :: r in res.value <==>
        r in rooms && RoomUser(r.id, uid) in roomUsers && uid in users
      ensures res.Ok? ==> res.value == RoomsOfUser(Snapshot(), uid)
    {
      if queryFails {
        return Err(QueryFailed);
      }
      var selected := JoinsUser(Snapshot(), uid);
      var found: seq<Room> := [];
      var i := 0;
      while i < |rooms|
        invariant 0 <= i <= |rooms|
        invariant found == Filter(rooms[..i], selected)
      {
        FilterSnoc(rooms, i, selected);
        if selected(rooms[i]) {
          found := found + [rooms[i]];
        }
        i := i + 1;
      }
      assert rooms[..|rooms|] == rooms;
      return Ok(found);
    }
  }
}
