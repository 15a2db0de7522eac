/** The room registry of the server (server/src/actors/room_manager_actor.rs):
    a counter that numbers rooms and a map from join token to room. */
module RoomManager {
  import opened Types
  import Decimal

  /** The address of a started game actor, kept opaque. */
  type GameAddr = nat

  /** The characters `rand::distributions::Alphanumeric` draws from. */
  predicate IsAlphanumeric(c: char)
  {
    'A' <= c <= 'Z' || 'a' <= c <= 'z' || '0' <= c <= '9'
  }

  /** A join token: seven alphanumeric characters. */
  predicate IsRoomToken(t: string)
  {
    |t| == 7 && forall i :: 0 <= i < |t| ==> IsAlphanumeric(t[i])
  }

  datatype Room = Room(id: string, name: string, maxPlayers: U32, timeLimitSeconds: U32,
                       token: string, game: GameAddr)

  datatype RoomCreated = RoomCreated(id: string, name: string, maxPlayers: U32,
                                     timeLimitSeconds: U32, token: string)

  datatype RoomJoined = RoomJoined(gameAddr: GameAddr, roomToken: string, apiKey: string,
                                   teamName: string)

  datatype ErrorKind = NotFound

  datatype IoError = IoError(kind: ErrorKind, message: string)

  class RoomManager {
    var idCounter: nat
    var rooms: map<string, Room>

    /** Every room is filed under its own token and carries the spelling of
        a number the counter has already handed out. */
    ghost predicate Valid()
      reads this
    {
      forall t :: t in rooms ==>
        && rooms[t].token == t
        && exists n: nat :: 1 <= n <= idCounter && rooms[t].id == Decimal.NatToString(n)
    }

    constructor ()
      ensures Valid()
      ensures idCounter == 0 && rooms == map[]
    {
      idCounter := 0;
      rooms := map[];
    }

    /** `create_room`: the token is drawn at random by the source, so it is
        a parameter here, as is the address of the game actor the new room
        starts. */
    method CreateRoom(name: string, maxPlayers: U32, timeLimitSeconds: U32,
                      token: string, game: GameAddr) returns (created: RoomCreated)
      requires Valid()
      requires IsRoomToken(token)
      modifies this
      ensures Valid()
      ensures idCounter == old(idCounter) + 1
      ensures created == RoomCreated(Decimal.NatToString(idCounter), name, maxPlayers,
                                     timeLimitSeconds, token)
      ensures IsRoomToken(created.token)
      ensures rooms == old(rooms)[token := Room(created.id, name, maxPlayers,
                                                timeLimitSeconds, token, game)]
      ensures forall t :: t in old(rooms) ==> old(rooms)[t].id != created.id
    {
      idCounter := idCounter + 1;
      var newId := Decimal.NatToString(idCounter);
      forall t | t in rooms
        ensures rooms[t].id != newId
      {
        var n: nat :| 1 <= n <= idCounter - 1 && rooms[t].id == Decimal.NatToString(n);
        Decimal.NatToStringInjective(n, idCounter);
      }
      rooms := rooms[token := Room(newId, name, maxPlayers, timeLimitSeconds, token, game)];
      created := RoomCreated(newId, name, maxPlayers, timeLimitSeconds, token);
    }

    /** The `JoinRoom` handler: a read-only lookup by token. */
    method JoinRoom(roomToken: string, apiKey: string, teamName: string)
      returns (r: Result<RoomJoined, IoError>)
      ensures roomToken in rooms ==>
                r == Ok(RoomJoined(rooms[roomToken].game, roomToken, apiKey, teamName))
      ensures roomToken !in rooms ==> r == Err(IoError(NotFound, "Room not found"))
    {
      if roomToken in rooms {
        r := Ok(RoomJoined(rooms[roomToken].game, roomToken, apiKey, teamName));
      } else {
        r := Err(IoError(NotFound, "Room not found"));
      }
    }
  }
}
