/** The chat room the server is meant to be: every event happens at once and to everybody. */
module ChatRoom {
  import opened Wrappers
  import opened Messages

  datatype Member = Member(id: nat, name: string)

  /** `pending` are the responses not yet delivered; the maps have every client that ever joined. */
  datatype Room = Room(
    members: seq<Member>,
    pending: seq<Instance>,
    received: map<nat, seq<Instance>>,
    replies: map<nat, seq<Instance>>)

  const EMPTY_ROOM := Room([], [], map[], map[])

  datatype Event =
    | Join(id: nat)
    | Leave(id: nat)
    | LoginAccepted(id: nat, response: Instance)
    | LoginRejected(id: nat, name: string, reply: Instance)
    | Post(id: nat, response: Instance)
    | DeliverNextToAllMembers

  predicate IsIn(members: seq<Member>, id: nat) {
    exists k :: 0 <= k < |members| && members[k].id == id
  }

  predicate NameTaken(members: seq<Member>, name: string) {
    exists k :: 0 <= k < |members| && members[k].name == name
  }

  predicate Allowed(room: Room, e: Event) {
    match e
    case Join(id) => id !in room.received && id !in room.replies && !IsIn(room.members, id)
    case Leave(id) => IsIn(room.members, id)
    case LoginAccepted(id, r) =>
      IsIn(room.members, id) && r.LoginResponse? && !NameTaken(room.members, r.joiningUsername)
    case LoginRejected(id, name, reply) =>
      IsIn(room.members, id) && NameTaken(room.members, name) && reply.ErrorResponse? && id in room.replies
    case Post(id, r) => IsIn(room.members, id) && r.MessageResponse?
    case DeliverNextToAllMembers => room.pending != []
  }

  function Without(members: seq<Member>, id: nat): seq<Member> {
    if members == [] then []
    else if members[0].id == id then members[1..]
    else [members[0]] + Without(members[1..], id)
  }

  function Renamed(members: seq<Member>, id: nat, name: string): seq<Member> {
    seq(|members|, k requires 0 <= k < |members| =>
      if members[k].id == id then members[k].(name := name) else members[k])
  }

  function Apply(room: Room, e: Event): Room
    requires Allowed(room, e)
  {
    match e
    case Join(id) =>
      Room(room.members + [Member(id, "")], room.pending, room.received[id := []], room.replies[id := []])
    case Leave(id) => room.(members := Without(room.members, id))
    case LoginAccepted(id, r) =>
      room.(members := Renamed(room.members, id, r.joiningUsername), pending := room.pending + [r])
    case LoginRejected(id, _, reply) => room.(replies := room.replies[id := room.replies[id] + [reply]])
    case Post(_, r) => room.(pending := room.pending + [r])
    case DeliverNextToAllMembers =>
      room.(pending := room.pending[1..], received := Delivered(room.received, room.members, room.pending[0]))
  }

  function Delivered(received: map<nat, seq<Instance>>, members: seq<Member>, r: Instance): map<nat, seq<Instance>> {
    map id | id in received :: if IsIn(members, id) then received[id] + [r] else received[id]
  }

  /** The room after these events, if each was allowed when it happened. */
  function Play(events: seq<Event>): Option<Room> {
    if events == [] then Some(EMPTY_ROOM)
    else
      var before, e := Play(events[..|events| - 1]), events[|events| - 1];
      if before.Some? && Allowed(before.value, e) then Some(Apply(before.value, e)) else None
  }

  /** One step of a system that plays the room: an event, or none. */
  predicate RoomStep(before: Room, step: Option<Event>, after: Room) {
    match step
    case None => after == before
    case Some(e) => Allowed(before, e) && after == Apply(before, e)
  }

  function Extended(events: seq<Event>, step: Option<Event>): seq<Event> {
    if step.Some? then events + [step.value] else events
  }

  // ------------------------------------------------- what every play keeps

  predicate MembersDiffer(members: seq<Member>) {
    forall j, k :: 0 <= j < k < |members| ==> members[j].id != members[k].id
  }

  predicate NamesDiffer(members: seq<Member>) {
    forall j, k :: 0 <= j < k < |members| && members[j].name != "" ==> members[j].name != members[k].name
  }

  /** Members and their names differ, each has an account of what it received and of its replies, nobody is sent an
      error but in private, and in private nobody is sent anything else. */
  ghost predicate Sound(room: Room) {
    && MembersDiffer(room.members) && NamesDiffer(room.members)
    && room.received.Keys == room.replies.Keys
    && (forall k :: 0 <= k < |room.members| ==> room.members[k].id in room.received)
    && (forall k :: 0 <= k < |room.pending| ==> !room.pending[k].ErrorResponse?)
    && (forall id, k :: id in room.received && 0 <= k < |room.received[id]| ==> !room.received[id][k].ErrorResponse?)
    && (forall id, k :: id in room.replies && 0 <= k < |room.replies[id]| ==> room.replies[id][k].ErrorResponse?)
  }

  lemma {:induction false} WithoutKeeps(members: seq<Member>, id: nat)
    requires MembersDiffer(members) && NamesDiffer(members)
    ensures MembersDiffer(Without(members, id)) && NamesDiffer(Without(members, id))
    ensures forall m :: m in Without(members, id) ==> m in members
  {
    if members != [] && members[0].id != id {
      WithoutKeeps(members[1..], id);
      var rest := Without(members[1..], id);
      forall k | 0 <= k < |rest|
        ensures rest[k].id != members[0].id && (members[0].name != "" ==> rest[k].name != members[0].name)
      {
        assert rest[k] in members[1..];
      }
    }
  }

  lemma LeaveKeeps(room: Room, id: nat)
    requires Sound(room) && Allowed(room, Leave(id))
    ensures Sound(Apply(room, Leave(id)))
  {
    WithoutKeeps(room.members, id);
    var members := Without(room.members, id);
    forall k | 0 <= k < |members|
      ensures members[k].id in room.received
    {
      assert members[k] in room.members;
    }
  }

  lemma DeliveryKeeps(room: Room)
    requires Sound(room) && room.pending != []
    ensures Sound(Apply(room, DeliverNextToAllMembers))
  {
  }

  lemma ApplyKeeps(room: Room, e: Event)
    requires Sound(room) && Allowed(room, e)
    ensures Sound(Apply(room, e))
  {
    match e
    case Leave(id) => LeaveKeeps(room, id);
    case DeliverNextToAllMembers => DeliveryKeeps(room);
    case _ =>
  }

  /** Every play of the room keeps this. */
  lemma {:induction false} PlaysAreSound(events: seq<Event>)
    ensures Play(events).Some? ==> Sound(Play(events).value)
  {
    if events != [] {
      PlaysAreSound(events[..|events| - 1]);
      var before, e := Play(events[..|events| - 1]), events[|events| - 1];
      if before.Some? && Allowed(before.value, e) {
        ApplyKeeps(before.value, e);
      }
    }
  }
}
