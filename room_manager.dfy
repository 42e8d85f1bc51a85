/**
 * The registry of live rooms (server/room/RoomManager.ts), keyed by room id.
 * Failures that the registry signals by throwing are returned as `Err` values.
 */
module RoomRegistry {
  import opened TicTacToeTypes
  import opened GameUtils
  import opened Rooms

  /** The three failures of the registry operations. */
  datatype RegistryError = RoomIdRequired | RoomAlreadyExists | RoomNotFound

  datatype Result<T> = Ok(value: T) | Err(error: RegistryError)

  /** The entries of `rooms` whose room has at least one seated peer. */
  function Occupied(rooms: map<string, Room>): (kept: map<string, Room>)
    reads rooms.Values
    ensures kept.Keys <= rooms.Keys
    ensures forall id :: id in kept ==> kept[id] == rooms[id] && |rooms[id].clients| > 0
    ensures forall id :: id in rooms && |rooms[id].clients| > 0 ==> id in kept
  {
    map id | id in rooms && |rooms[id].clients| > 0 :: rooms[id]
  }

  /** Sweeping twice removes nothing more than sweeping once. */
  lemma OccupiedIdempotent(rooms: map<string, Room>)
    ensures Occupied(Occupied(rooms)) == Occupied(rooms)
  {
  }

  class RoomManager {
    var rooms: map<string, Room>

    /** Every key is a non-empty id naming the room created under that id. */
    ghost predicate Valid()
      reads this
    {
      forall id :: id in rooms ==> id != "" && rooms[id].roomId == id
    }

    constructor ()
      ensures Valid() && rooms == map[]
    {
      rooms := map[];
    }

    /**
     * `createRoom`: fails on an empty id or an id already registered;
     * otherwise registers a new, empty room under that id and leaves every
     * other entry alone.
     */
    method CreateRoom(roomId: string) returns (result: Result<Room>)
      requires Valid()
      modifies this
      ensures Valid()
      ensures roomId == "" ==> result == Err(RoomIdRequired) && rooms == old(rooms)
      ensures roomId != "" && roomId in old(rooms) ==> result == Err(RoomAlreadyExists) && rooms == old(rooms)
      ensures roomId != "" && roomId !in old(rooms) ==>
        && result.Ok?
        && fresh(result.value)
        && result.value.Valid()
        && result.value.roomId == roomId
        && result.value.clients == map[]
        && result.value.gameState == DefaultGameState()
        && rooms == old(rooms)[roomId := result.value]
    {
      if roomId == "" {
        return Err(RoomIdRequired);
      }
      if roomId in rooms {
        return Err(RoomAlreadyExists);
      }
      var room := new Room(roomId);
      rooms := rooms[roomId := room];
      result := Ok(room);
    }

    /**
     * `getRoom`: fails on an empty or unknown id; otherwise the room stored
     * under that id, which carries that id.
     */
    function GetRoom(roomId: string): (result: Result<Room>)
      reads this
      ensures roomId == "" ==> result == Err(RoomIdRequired)
      ensures roomId != "" && roomId !in rooms ==> result == Err(RoomNotFound)
      ensures roomId != "" && roomId in rooms ==> result == Ok(rooms[roomId])
      ensures Valid() && result.Ok? ==> result.value.roomId == roomId
    {
      if roomId == "" then Err(RoomIdRequired)
      else if roomId !in rooms then Err(RoomNotFound)
      else Ok(rooms[roomId])
    }

    /** `removeRoom`: fails on an empty or unknown id; otherwise drops exactly that key. */
    method RemoveRoom(roomId: string) returns (result: Result<()>)
      requires Valid()
      modifies this
      ensures Valid()
      ensures roomId == "" ==> result == Err(RoomIdRequired) && rooms == old(rooms)
      ensures roomId != "" && roomId !in old(rooms) ==> result == Err(RoomNotFound) && rooms == old(rooms)
      ensures roomId != "" && roomId in old(rooms) ==> result == Ok(()) && rooms == old(rooms) - {roomId}
    {
      if roomId == "" {
        return Err(RoomIdRequired);
      }
      if roomId !in rooms {
        return Err(RoomNotFound);
      }
      rooms := rooms - {roomId};
      result := Ok(());
    }

    /**
     * `cleanEmptyRooms`: visits every entry once and removes those whose room
     * has nobody seated; the registry ends up holding exactly the occupied
     * entries it held before, unchanged.
     */
    method CleanEmptyRooms()
      requires Valid()
      modifies this
      ensures Valid()
      ensures rooms == Occupied(old(rooms))
    {
      var pending := rooms.Keys;
      while pending != {}
        invariant Valid()
        invariant pending <= rooms.Keys <= old(rooms).Keys
        invariant forall id :: id in rooms ==> rooms[id] == old(rooms)[id]
        invariant forall id :: id in old(rooms) ==>
          (id in rooms <==> id in pending || |old(rooms)[id].clients| > 0)
        decreases pending
      {
        var roomId :| roomId in pending;
        if rooms[roomId].ClientCount() == 0 {
          var _ := RemoveRoom(roomId);
        }
        pending := pending - {roomId};
      }
    }
  }
}
