/**
 * The table of rooms keyed by room code: creation at admin login, lookup,
 * the member join check, and writing one room back.
 */
module RoomStore {
  import opened Wrappers
  import opened Text
  import opened Rooms

  type Store = map<string, Room>

  /** Why a member could not enter: the script shows one message for both
      an unknown room code and a name not on the member list. */
  datatype AuthError = NotRegisteredOrBadCode

  /** The admin's "start meeting" button: a new room at `code` with `admin`
      and the members parsed from `csv`, replacing any room already at that
      code. Other codes are untouched. */
  function CreateRoom(store: Store, code: string, admin: string, csv: string): (r: Store)
    ensures r.Keys == store.Keys + {code}
    ensures r[code].admin == admin && r[code].members == ParseMembers(csv)
    ensures r[code].attendees == [] && r[code].confirmations == []
    ensures r[code].discussion == [] && r[code].tasks == []
    ensures r[code].info == None && r[code].notes == ""
    ensures forall c :: c in store && c != code ==> r[c] == store[c]
  {
    store[code := NewRoom(admin, ParseMembers(csv))]
  }

  /** Looking a room up by its exact code. */
  function GetRoom(store: Store, code: string): (r: Option<Room>)
    ensures r.Some? <==> code in store
    ensures r.Some? ==> r.value == store[code]
  {
    if code in store then Some(store[code]) else None
  }

  /** The member's "enter" button: succeeds exactly when the code names a
      room and `name` is on that room's member list, and then yields that
      room. */
  function JoinRoom(store: Store, code: string, name: string): (r: Result<Room, AuthError>)
    ensures r.Success? <==> code in store && name in store[code].members
    ensures r.Success? ==> r.value == store[code]
  {
    match GetRoom(store, code)
    case Some(room) => if name in room.members then Success(room) else Failure(NotRegisteredOrBadCode)
    case None => Failure(NotRegisteredOrBadCode)
  }

  /** Writes an updated room back under its code. */
  function PutRoom(store: Store, code: string, room: Room): (r: Store)
    requires code in store
    ensures r.Keys == store.Keys && r[code] == room
    ensures forall c :: c in store && c != code ==> r[c] == store[c]
  {
    store[code := room]
  }

  /** Right after a room is created, a name may join it exactly when it is
      one of the stripped fields of the admin's member list. */
  lemma JoinAfterCreate(store: Store, code: string, admin: string, csv: string, name: string)
    ensures (JoinRoom(CreateRoom(store, code, admin, csv), code, name).Success?
             <==> exists k :: 0 <= k < |Split(csv)| && Strip(Split(csv)[k]) == name)
  {
    MemberOfParsed(csv, name);
  }

  /** Creating a room twice at one code keeps nothing of the first room:
      the store is as if only the second creation had happened. */
  lemma CreateOverwrites(store: Store, code: string, a1: string, csv1: string, a2: string, csv2: string)
    ensures CreateRoom(CreateRoom(store, code, a1, csv1), code, a2, csv2) == CreateRoom(store, code, a2, csv2)
  {
  }
}
