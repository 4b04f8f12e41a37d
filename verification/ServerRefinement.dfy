/** Until stop(), and while no write fails, every interleaving of the two threads is a play of the chat room, even if
    the last step ends the program. */
module ServerRefinement {
  import opened Wrappers
  import opened Messages
  import opened Entries
  import opened ServerMachine
  import opened ServerInvariants
  import opened ServerFrames
  import opened ServerDelivery
  import opened ServerCrashes
  import Room = ChatRoom

  // ------------------------------------------------- the room in a state

  function MembersOf(sockets: seq<Entry<ConnId>>): seq<Room.Member> {
    seq(|sockets|, k requires 0 <= k < |sockets| => Room.Member(sockets[k].conn, sockets[k].name))
  }

  /** A login whose name is bound is as good as queued: the listener does nothing before it queues it. */
  function Announcing(l: ListenerPc): seq<Instance> {
    if (l.WantQueue? || l.Pushing?) && l.response.LoginResponse? then [l.response] else []
  }

  function PendingOf(queue: seq<Instance>, drained: nat, l: ListenerPc): seq<Instance>
    requires drained <= |queue|
  {
    queue[drained..] + Announcing(l)
  }

  /** What a client has received, but for a message that not yet all members have. */
  function Settled(conn: Conn, sent: nat): seq<Instance> {
    var b := Broadcasts(conn.out);
    if conn.life.Member? && conn.life.joinedAt <= sent <= conn.life.joinedAt + |b| then b[..sent - conn.life.joinedAt]
    else b
  }

  function ReceivedOf(conns: seq<Conn>, sent: nat): map<nat, seq<Instance>> {
    map c | 0 <= c < |conns| && !conns[c].life.Accepted? :: Settled(conns[c], sent)
  }

  function RepliesOf(conns: seq<Conn>): map<nat, seq<Instance>> {
    map c | 0 <= c < |conns| && !conns[c].life.Accepted? :: ErrorReplies(conns[c].out)
  }

  function RoomOf(s: State): Room.Room
    requires Drained(s.sender) <= |s.messageQueue|
  {
    Room.Room(MembersOf(s.sockets), PendingOf(s.messageQueue, Drained(s.sender), s.listener),
              ReceivedOf(s.conns, Sent(s)), RepliesOf(s.conns))
  }

  /** The event of the room that a step is, if any. */
  function EventOf(s: State, a: Action): Option<Room.Event> {
    match a
    case Listen(_) =>
      (match s.listener
       case JoinPush(c) => Some(Room.Join(c))
       case GoneErase(c, _) => Some(Room.Leave(c))
       case Binding(c, r) => Some(Room.LoginAccepted(c, r))
       case Replying(c, name, r, tested) => if tested then Some(Room.LoginRejected(c, name, r)) else None
       case Pushing(c, r) => if r.MessageResponse? then Some(Room.Post(c, r)) else None
       case _ => None)
    case Send(_) =>
      if s.sender.Writing? && !s.sender.tested && s.sender.socket >= |s.sockets| then
        Some(Room.DeliverNextToAllMembers)
      else None
  }

  /** A step is the event it stands for, or changes nothing in the room. */
  predicate Simulates(s: State, a: Action, s': State)
    requires Drained(s.sender) <= |s.messageQueue|
  {
    Drained(s'.sender) <= |s'.messageQueue| && Room.RoomStep(RoomOf(s), EventOf(s, a), RoomOf(s'))
  }

  // ------------------------------------------------------- small steps

  lemma IsInIff(conns: seq<Conn>, sockets: seq<Entry<ConnId>>, c: ConnId)
    requires SocketsInv(conns, sockets)
    ensures Room.IsIn(MembersOf(sockets), c) <==> MemberOf(conns, c)
  {
    if MemberOf(conns, c) {
      assert Seated(sockets, c);
      var k :| 0 <= k < |sockets| && sockets[k].conn == c;
      assert MembersOf(sockets)[k].id == c;
    }
    if Room.IsIn(MembersOf(sockets), c) {
      var k :| 0 <= k < |sockets| && MembersOf(sockets)[k].id == c;
      assert SeatInv(conns, sockets, k);
    }
  }

  lemma NameTakenIff(sockets: seq<Entry<ConnId>>, name: string)
    ensures Room.NameTaken(MembersOf(sockets), name) <==> NameInUse(sockets, name)
  {
    if NameInUse(sockets, name) {
      var k :| 0 <= k < |sockets| && sockets[k].name == name;
      assert MembersOf(sockets)[k].name == name;
    }
    if Room.NameTaken(MembersOf(sockets), name) {
      var k :| 0 <= k < |sockets| && MembersOf(sockets)[k].name == name;
      assert sockets[k].name == name;
    }
  }

  /** Replacing a connection by one that looks the same to the room. */
  lemma LooksTheSame(conns: seq<Conn>, sent: nat, c: ConnId, conn: Conn)
    requires c < |conns| && conns[c].life.Accepted? == conn.life.Accepted?
    requires !conn.life.Accepted? ==> Settled(conns[c], sent) == Settled(conn, sent)
    requires !conn.life.Accepted? ==> ErrorReplies(conns[c].out) == ErrorReplies(conn.out)
    ensures ReceivedOf(conns[c := conn], sent) == ReceivedOf(conns, sent)
    ensures RepliesOf(conns[c := conn]) == RepliesOf(conns)
  {
  }

  lemma NewcomerUnseen(conns: seq<Conn>, sent: nat, conn: Conn)
    requires conn.life.Accepted?
    ensures ReceivedOf(conns + [conn], sent) == ReceivedOf(conns, sent)
    ensures RepliesOf(conns + [conn]) == RepliesOf(conns)
  {
  }

  /** A room is known by its four parts. */
  lemma RoomByParts(s: State, s': State)
    requires Drained(s.sender) <= |s.messageQueue| && Drained(s'.sender) <= |s'.messageQueue|
    requires s'.sockets == s.sockets
    requires PendingOf(s'.messageQueue, Drained(s'.sender), s'.listener) ==
             PendingOf(s.messageQueue, Drained(s.sender), s.listener)
    requires ReceivedOf(s'.conns, Sent(s')) == ReceivedOf(s.conns, Sent(s)) && RepliesOf(s'.conns) == RepliesOf(s.conns)
    ensures RoomOf(s') == RoomOf(s)
  {
  }

  // ------------------------------------------------ one lemma for each event

  lemma JoinedMaps(conns: seq<Conn>, sent: nat, c: ConnId)
    requires c < |conns| && conns[c].life.Accepted? && conns[c].out == []
    ensures
      var b := conns[c := conns[c].(life := Member(sent))];
      ReceivedOf(b, sent) == ReceivedOf(conns, sent)[c := []] && RepliesOf(b) == RepliesOf(conns)[c := []]
  {
  }

  lemma JoinedStep(room: Room.Room, c: ConnId, after: Room.Room)
    requires c !in room.received && c !in room.replies && !Room.IsIn(room.members, c)
    requires after == Room.Room(room.members + [Room.Member(c, "")], room.pending,
                                room.received[c := []], room.replies[c := []])
    ensures Room.RoomStep(room, Some(Room.Join(c)), after)
  {
  }

  lemma PushedParts(s: State, c: ConnId)
    requires s.listener == JoinPush(c) && Drained(s.sender) <= |s.messageQueue|
    requires Newcomer(s.conns, c) && s.conns[c].out == []
    ensures
      var s' := PushSocket(s, c);
      && MembersOf(s'.sockets) == MembersOf(s.sockets) + [Room.Member(c, "")]
      && ReceivedOf(s'.conns, Sent(s')) == ReceivedOf(s.conns, Sent(s))[c := []]
      && RepliesOf(s'.conns) == RepliesOf(s.conns)[c := []]
  {
    JoinedMaps(s.conns, Sent(s), c);
    assert MembersOf(s.sockets + [Entry(c, s.conns[c].fd, "")]) == MembersOf(s.sockets) + [Room.Member(c, "")];
  }

  lemma JoinPlays(s: State, c: ConnId)
    requires s.listener == JoinPush(c) && Drained(s.sender) <= |s.messageQueue|
    requires Newcomer(s.conns, c) && s.conns[c].out == [] && !Room.IsIn(MembersOf(s.sockets), c)
    ensures Room.RoomStep(RoomOf(s), Some(Room.Join(c)), RoomOf(PushSocket(s, c)))
  {
    PushedParts(s, c);
    JoinedStep(RoomOf(s), c, RoomOf(PushSocket(s, c)));
  }

  lemma {:induction false} WithoutIsEraseAt(sockets: seq<Entry<ConnId>>, c: ConnId, at: nat)
    requires at < |sockets| && sockets[at].conn == c
    requires forall k :: 0 <= k < at ==> sockets[k].conn != c
    ensures Room.Without(MembersOf(sockets), c) == MembersOf(EraseAt(sockets, at))
  {
    var members := MembersOf(sockets);
    if at == 0 {
      assert members[1..] == MembersOf(EraseAt(sockets, 0));
    } else {
      WithoutIsEraseAt(sockets[1..], c, at - 1);
      assert members[1..] == MembersOf(sockets[1..]);
      assert [members[0]] + MembersOf(EraseAt(sockets[1..], at - 1)) == MembersOf(EraseAt(sockets, at));
    }
  }

  lemma LeftMaps(s: State, c: ConnId, left: Conn)
    requires MemberOf(s.conns, c) && s.conns[c].life.joinedAt + |Broadcasts(s.conns[c].out)| == Sent(s)
    requires left == s.conns[c].(life := Left(s.conns[c].life.joinedAt, Sent(s)))
    ensures ReceivedOf(s.conns[c := left], Sent(s)) == ReceivedOf(s.conns, Sent(s))
    ensures RepliesOf(s.conns[c := left]) == RepliesOf(s.conns)
  {
    var b := Broadcasts(s.conns[c].out);
    assert b[..|b|] == b;
    LooksTheSame(s.conns, Sent(s), c, left);
  }

  lemma LeftParts(s: State, c: ConnId, at: nat)
    requires s.listener == GoneErase(c, at) && SocketsInv(s.conns, s.sockets) && MemberOf(s.conns, c)
    requires at < |s.sockets| && s.sockets[at].conn == c
    requires s.conns[c].life.joinedAt + |Broadcasts(s.conns[c].out)| == Sent(s)
    ensures
      var s' := EraseSocket(s, c, at);
      && MembersOf(s'.sockets) == Room.Without(MembersOf(s.sockets), c)
      && ReceivedOf(s'.conns, Sent(s')) == ReceivedOf(s.conns, Sent(s))
      && RepliesOf(s'.conns) == RepliesOf(s.conns)
  {
    assert SeatInv(s.conns, s.sockets, at);
    WithoutIsEraseAt(s.sockets, c, at);
    LeftMaps(s, c, EraseSocket(s, c, at).conns[c]);
  }

  lemma LeftStep(room: Room.Room, c: ConnId, after: Room.Room)
    requires Room.IsIn(room.members, c) && after == room.(members := Room.Without(room.members, c))
    ensures Room.RoomStep(room, Some(Room.Leave(c)), after)
  {
  }

  lemma LeavePlays(s: State, c: ConnId, at: nat)
    requires s.listener == GoneErase(c, at) && Drained(s.sender) <= |s.messageQueue|
    requires SocketsInv(s.conns, s.sockets) && MemberOf(s.conns, c) && at < |s.sockets| && s.sockets[at].conn == c
    requires s.conns[c].life.joinedAt + |Broadcasts(s.conns[c].out)| == Sent(s)
    requires Room.IsIn(MembersOf(s.sockets), c)
    ensures Room.RoomStep(RoomOf(s), Some(Room.Leave(c)), RoomOf(EraseSocket(s, c, at)))
  {
    LeftParts(s, c, at);
    LeftStep(RoomOf(s), c, RoomOf(EraseSocket(s, c, at)));
  }

  lemma LoginAcceptedSimulates(s: State, es: seq<Entry<ConnId>>, c: ConnId, r: Instance)
    requires s.listener == Binding(c, r) && Drained(s.sender) <= |s.messageQueue| && r.LoginResponse?
    requires Room.IsIn(MembersOf(s.sockets), c) && !Room.NameTaken(MembersOf(s.sockets), r.joiningUsername)
    requires MembersOf(es) == Room.Renamed(MembersOf(s.sockets), c, r.joiningUsername)
    ensures Simulates(s, Listen(Go), s.(sockets := es, socketsHolder := Free, listener := WantQueue(c, r)))
  {
    var queued := s.messageQueue[Drained(s.sender)..];
    assert queued + [] + [r] == queued + [r];
  }

  lemma BoundMembers(conns: seq<Conn>, sockets: seq<Entry<ConnId>>, c: ConnId, name: string)
    requires SocketsInv(conns, sockets) && MemberOf(conns, c) && OwnDescriptor(conns, c)
    ensures MembersOf(Bind(sockets, conns[c].fd, name)) == Room.Renamed(MembersOf(sockets), c, name)
  {
    forall k | 0 <= k < |sockets| ensures sockets[k].fd == conns[c].fd <==> sockets[k].conn == c {
      assert SeatInv(conns, sockets, k);
    }
  }

  lemma RepliedMaps(conns: seq<Conn>, sent: nat, c: ConnId, r: Instance)
    requires MemberOf(conns, c) && r.ErrorResponse?
    ensures
      var b := conns[c := conns[c].(out := conns[c].out + [r])];
      ReceivedOf(b, sent) == ReceivedOf(conns, sent) && RepliesOf(b) == RepliesOf(conns)[c := RepliesOf(conns)[c] + [r]]
  {
    BroadcastsSnoc(conns[c].out, r);
  }

  lemma RoomAfterReply(s: State, b: seq<Conn>, replies: map<nat, seq<Instance>>)
    requires s.listener.Replying? && Drained(s.sender) <= |s.messageQueue|
    requires ReceivedOf(b, Sent(s)) == ReceivedOf(s.conns, Sent(s)) && RepliesOf(b) == replies
    ensures RoomOf(s.(conns := b, listener := LoopTest)) == RoomOf(s).(replies := replies)
  {
  }

  lemma RejectedStep(room: Room.Room, c: ConnId, name: string, r: Instance, after: Room.Room)
    requires Room.IsIn(room.members, c) && Room.NameTaken(room.members, name) && r.ErrorResponse?
    requires c in room.replies && after == room.(replies := room.replies[c := room.replies[c] + [r]])
    ensures Room.RoomStep(room, Some(Room.LoginRejected(c, name, r)), after)
  {
  }

  lemma LoginRejectedPlays(s: State, b: seq<Conn>, c: ConnId, name: string, r: Instance)
    requires s.listener == Replying(c, name, r, true) && Drained(s.sender) <= |s.messageQueue| && r.ErrorResponse?
    requires Room.IsIn(MembersOf(s.sockets), c) && Room.NameTaken(MembersOf(s.sockets), name)
    requires c in RepliesOf(s.conns)
    requires ReceivedOf(b, Sent(s)) == ReceivedOf(s.conns, Sent(s))
    requires RepliesOf(b) == RepliesOf(s.conns)[c := RepliesOf(s.conns)[c] + [r]]
    ensures Room.RoomStep(RoomOf(s), Some(Room.LoginRejected(c, name, r)), RoomOf(s.(conns := b, listener := LoopTest)))
  {
    RoomAfterReply(s, b, RepliesOf(b));
    RejectedStep(RoomOf(s), c, name, r, RoomOf(s.(conns := b, listener := LoopTest)));
  }

  lemma PendingAfterPush(queue: seq<Instance>, drained: nat, c: ConnId, r: Instance)
    requires drained <= |queue| && (r.LoginResponse? || r.MessageResponse?)
    ensures PendingOf(queue + [r], drained, LoopTest) == queue[drained..] + [r]
    ensures PendingOf(queue, drained, Pushing(c, r)) ==
            if r.LoginResponse? then queue[drained..] + [r] else queue[drained..]
  {
  }

  lemma PostedStep(room: Room.Room, c: ConnId, r: Instance, after: Room.Room)
    requires Room.IsIn(room.members, c) && r.MessageResponse? && after == room.(pending := room.pending + [r])
    ensures Room.RoomStep(room, Some(Room.Post(c, r)), after)
  {
  }

  lemma RoomAfterPush(s: State, c: ConnId, r: Instance)
    requires s.listener == Pushing(c, r) && Drained(s.sender) <= |s.messageQueue| && r.MessageResponse?
    ensures RoomOf(Push(s, r)) == RoomOf(s).(pending := RoomOf(s).pending + [r])
  {
    PendingAfterPush(s.messageQueue, Drained(s.sender), c, r);
  }

  lemma PushPlays(s: State, c: ConnId, r: Instance)
    requires s.listener == Pushing(c, r) && Drained(s.sender) <= |s.messageQueue|
    requires Room.IsIn(MembersOf(s.sockets), c) && (r.LoginResponse? || r.MessageResponse?)
    ensures Room.RoomStep(RoomOf(s), if r.MessageResponse? then Some(Room.Post(c, r)) else None, RoomOf(Push(s, r)))
  {
    if r.MessageResponse? {
      RoomAfterPush(s, c, r);
      PostedStep(RoomOf(s), c, r, RoomOf(Push(s, r)));
    } else {
      PendingAfterPush(s.messageQueue, Drained(s.sender), c, r);
      RoomByParts(s, Push(s, r));
    }
  }

  lemma DeliveredByClient(before: map<nat, seq<Instance>>, after: map<nat, seq<Instance>>,
                          members: seq<Room.Member>, r: Instance)
    requires after.Keys == before.Keys
    requires forall c :: c in before ==> after[c] == if Room.IsIn(members, c) then before[c] + [r] else before[c]
    ensures after == Room.Delivered(before, members, r)
  {
  }

  lemma DeliveredMaps(s: State)
    requires Inv(s) && NoWriteFailed(s) && s.sender.Writing? && !s.sender.tested && s.sender.socket >= |s.sockets|
    ensures Sent(s) < |s.log|
    ensures ReceivedOf(s.conns, Sent(s) + 1) ==
            Room.Delivered(ReceivedOf(s.conns, Sent(s)), MembersOf(s.sockets), s.log[Sent(s)])
  {
    var sent := Sent(s);
    var before, after := ReceivedOf(s.conns, sent), ReceivedOf(s.conns, sent + 1);
    forall c | c in before
      ensures after[c] == if Room.IsIn(MembersOf(s.sockets), c) then before[c] + [s.log[sent]] else before[c]
    {
      DeliveredTo(s, c);
    }
    DeliveredByClient(before, after, MembersOf(s.sockets), s.log[sent]);
  }

  lemma DeliveredStep(room: Room.Room, after: Room.Room)
    requires room.pending != []
    requires after == room.(pending := room.pending[1..],
                            received := Room.Delivered(room.received, room.members, room.pending[0]))
    ensures Room.RoomStep(room, Some(Room.DeliverNextToAllMembers), after)
  {
  }

  lemma RoomAfterDelivery(s: State, i: nat, r: Instance)
    requires s.sender.Writing? && s.sender.message == i && i < |s.messageQueue| && s.messageQueue[i] == r
    requires ReceivedOf(s.conns, Sent(s) + 1) ==
             Room.Delivered(ReceivedOf(s.conns, Sent(s)), MembersOf(s.sockets), r)
    ensures Room.RoomStep(RoomOf(s), Some(Room.DeliverNextToAllMembers), RoomOf(FinishMessage(s, i)))
  {
    NextPending(s.messageQueue, i, s.listener);
    DeliveredStep(RoomOf(s), RoomOf(FinishMessage(s, i)));
  }

  lemma DeliveryPlays(s: State)
    requires Inv(s) && NoWriteFailed(s) && s.sender.Writing? && !s.sender.tested && s.sender.socket >= |s.sockets|
    ensures
      var s' := FinishMessage(s, s.sender.message);
      && Drained(s'.sender) <= |s'.messageQueue|
      && Room.RoomStep(RoomOf(s), Some(Room.DeliverNextToAllMembers), RoomOf(s'))
  {
    DeliveredMaps(s);
    RoomAfterDelivery(s, s.sender.message, s.log[Sent(s)]);
  }

  lemma NextPending(queue: seq<Instance>, drained: nat, l: ListenerPc)
    requires drained < |queue|
    ensures PendingOf(queue, drained, l) != [] && PendingOf(queue, drained, l)[0] == queue[drained]
    ensures PendingOf(queue, drained, l)[1..] == PendingOf(queue, drained + 1, l)
  {
  }

  lemma DeliveredTo(s: State, c: ConnId)
    requires Inv(s) && NoWriteFailed(s) && s.sender.Writing? && !s.sender.tested && s.sender.socket >= |s.sockets|
    requires c < |s.conns| && !s.conns[c].life.Accepted?
    ensures Sent(s) < |s.log|
    ensures
      Settled(s.conns[c], Sent(s) + 1) ==
      if Room.IsIn(MembersOf(s.sockets), c) then Settled(s.conns[c], Sent(s)) + [s.log[Sent(s)]]
      else Settled(s.conns[c], Sent(s))
  {
    IsInIff(s.conns, s.sockets, c);
    if MemberOf(s.conns, c) {
      assert Seated(s.sockets, c);
      var k :| 0 <= k < |s.sockets| && s.sockets[k].conn == c;
      assert MemberInv(s.conns, s.sockets, s.log, Sent(s), Served(s.sender), k);
      var joined := s.conns[c].life.joinedAt;
      assert s.log[joined..Sent(s) + 1] == s.log[joined..Sent(s)] + [s.log[Sent(s)]];
    }
  }

  lemma SettledAfterWrite(conn: Conn, r: Instance, sent: nat)
    requires conn.life.Member? && conn.life.joinedAt + |Broadcasts(conn.out)| == sent && !r.ErrorResponse?
    ensures Settled(conn.(out := conn.out + [r]), sent) == Settled(conn, sent)
    ensures ErrorReplies(conn.out + [r]) == ErrorReplies(conn.out)
  {
  }

  lemma RoomAfterWrite(s: State, i: nat, j: nat, b: seq<Conn>)
    requires s.sender == Writing(i, j, true) && i < |s.messageQueue|
    requires ReceivedOf(b, Sent(s)) == ReceivedOf(s.conns, Sent(s)) && RepliesOf(b) == RepliesOf(s.conns)
    ensures RoomOf(s.(conns := b, sender := Writing(i, j + 1, false))) == RoomOf(s)
  {
  }

  /** A broadcast under way is not yet visible in the room. */
  lemma WriteIsInvisible(s: State, i: nat, j: nat)
    requires s.sender == Writing(i, j, true) && i < |s.messageQueue| && j < |s.sockets|
    requires MemberOf(s.conns, s.sockets[j].conn)
    requires !s.messageQueue[i].ErrorResponse?
    requires
      var conn := s.conns[s.sockets[j].conn];
      conn.life.joinedAt <= Sent(s) && conn.life.joinedAt + |Broadcasts(conn.out)| == Sent(s)
    ensures
      var s' := WriteNext(s, i, j, Go);
      Drained(s'.sender) <= |s'.messageQueue| && RoomOf(s') == RoomOf(s)
  {
    var c, r := s.sockets[j].conn, s.messageQueue[i];
    var conn := s.conns[c].(out := s.conns[c].out + [r]);
    SettledAfterWrite(s.conns[c], r, Sent(s));
    LooksTheSame(s.conns, Sent(s), c, conn);
    RoomAfterWrite(s, i, j, s.conns[c := conn]);
    assert WriteNext(s, i, j, Go) == s.(conns := s.conns[c := conn], sender := Writing(i, j + 1, false));
  }

  // -------------------------------------------------------- steps and runs

  predicate RoomPc(l: ListenerPc) {
    l.JoinPush? || l.GoneErase? || l.Binding? || (l.Replying? && l.tested) || l.Pushing?
  }

  lemma VectorFrame(s: State, ch: Choice)
    requires ListenerEnabled(s, ch) && !RoomPc(s.listener)
    ensures ListenerStep(s, ch).sockets == s.sockets
  {
  }

  /** The listener's other steps leave everything but the connections and what it is about to do itself. */
  lemma QuietListenerFrame(s: State, ch: Choice)
    requires ListenerEnabled(s, ch) && !RoomPc(s.listener)
    ensures
      var s' := ListenerStep(s, ch);
      && s'.sockets == s.sockets && s'.messageQueue == s.messageQueue && s'.sender == s.sender
      && s'.cleared == s.cleared
  {
    VectorFrame(s, ch);
    ListenerFrame(s, ch);
  }

  lemma ReadAnnouncesNothing(s: State, ch: Choice)
    requires ListenerEnabled(s, ch) && s.listener.Reading?
    ensures Announcing(ListenerStep(s, ch).listener) == []
  {
  }

  /** Only a read request is queued without a step of the room before. */
  lemma OthersDoNotQueue(s: State, ch: Choice)
    requires ListenerEnabled(s, ch) && !RoomPc(s.listener) && !s.listener.Reading? && !s.listener.WantQueue?
    ensures !ListenerStep(s, ch).listener.WantQueue? && !ListenerStep(s, ch).listener.Pushing?
  {
    if !InOnSocket(s.listener) {
      OutsidePc(s, ch);
    }
  }

  lemma QuietAnnouncing(s: State, ch: Choice)
    requires ListenerEnabled(s, ch) && !RoomPc(s.listener)
    ensures Announcing(ListenerStep(s, ch).listener) == Announcing(s.listener)
  {
    if s.listener.Reading? {
      ReadAnnouncesNothing(s, ch);
    } else if !s.listener.WantQueue? {
      OthersDoNotQueue(s, ch);
    }
  }

  lemma ReadingConns(s: State, ch: Choice, sent: nat)
    requires ListenerEnabled(s, ch) && s.listener.Reading?
    ensures
      var s' := ListenerStep(s, ch);
      ReceivedOf(s'.conns, sent) == ReceivedOf(s.conns, sent) && RepliesOf(s'.conns) == RepliesOf(s.conns)
  {
    if s.listener.conn < |s.conns| {
      LooksTheSame(s.conns, sent, s.listener.conn, s.conns[s.listener.conn].(open := false));
    }
  }

  lemma CheckingConns(s: State, ch: Choice, sent: nat)
    requires ListenerEnabled(s, ch) && s.listener.CheckName?
    ensures
      var s' := ListenerStep(s, ch);
      ReceivedOf(s'.conns, sent) == ReceivedOf(s.conns, sent) && RepliesOf(s'.conns) == RepliesOf(s.conns)
  {
    var conn := s.conns[s.listener.conn];
    LooksTheSame(s.conns, sent, s.listener.conn, conn.(replies := conn.replies + [InUseReply(s.listener.now)]));
  }

  lemma SameConns(s: State, ch: Choice)
    requires ListenerEnabled(s, ch) && !RoomPc(s.listener) && !s.listener.StopClosing?
    requires !s.listener.Accepting? && !s.listener.Reading? && !s.listener.CheckName?
    ensures ListenerStep(s, ch).conns == s.conns
  {
  }

  lemma QuietConns(s: State, ch: Choice, sent: nat)
    requires ListenerEnabled(s, ch) && !RoomPc(s.listener) && !s.listener.StopClosing?
    ensures
      var s' := ListenerStep(s, ch);
      ReceivedOf(s'.conns, sent) == ReceivedOf(s.conns, sent) && RepliesOf(s'.conns) == RepliesOf(s.conns)
  {
    if s.listener.Accepting? {
      NewcomerUnseen(s.conns, sent, Conn(ch.fd, true, false, Life.Accepted, [], []));
    } else if s.listener.Reading? {
      ReadingConns(s, ch, sent);
    } else if s.listener.CheckName? {
      CheckingConns(s, ch, sent);
    } else {
      SameConns(s, ch);
    }
  }

  lemma QuietListener(s: State, ch: Choice)
    requires ListenerEnabled(s, ch) && !RoomPc(s.listener) && !s.listener.StopClosing? && !ListenerStep(s, ch).killed
    requires Drained(s.sender) <= |s.messageQueue|
    ensures
      var s' := ListenerStep(s, ch);
      Drained(s'.sender) <= |s'.messageQueue| && RoomOf(s') == RoomOf(s)
  {
    QuietListenerFrame(s, ch);
    QuietAnnouncing(s, ch);
    QuietConns(s, ch, Sent(s));
    RoomByParts(s, ListenerStep(s, ch));
  }

  lemma FailedReplyShows(s: State, ch: Choice)
    requires s.listener.Replying? && s.listener.tested && ListenerEnabled(s, ch) && ch.WriteFails?
    ensures !NoWriteFailed(ListenerStep(s, ch))
  {
    assert ListenerStep(s, ch).conns[s.listener.conn].failed;
  }

  lemma ReplySimulates(s: State, ch: Choice)
    requires Inv(s) && ListenerEnabled(s, ch) && s.listener.Replying? && s.listener.tested
    requires NoWriteFailed(ListenerStep(s, ch))
    ensures Simulates(s, Listen(ch), ListenerStep(s, ch))
  {
    var c, name, r := s.listener.conn, s.listener.name, s.listener.response;
    if ch.WriteFails? {
      FailedReplyShows(s, ch);
    }
    IsInIff(s.conns, s.sockets, c);
    NameTakenIff(s.sockets, name);
    RepliedMaps(s.conns, Sent(s), c, r);
    LoginRejectedPlays(s, s.conns[c := s.conns[c].(out := s.conns[c].out + [r])], c, name, r);
  }

  lemma RoomStepSimulates(s: State, ch: Choice)
    requires Inv(s) && ListenerEnabled(s, ch) && RoomPc(s.listener) && NoWriteFailed(s)
    requires NoWriteFailed(ListenerStep(s, ch))
    ensures Simulates(s, Listen(ch), ListenerStep(s, ch))
  {
    match s.listener
    case JoinPush(c) =>
      assert OutsiderInv(s.conns, s.log, Sent(s), c);
      IsInIff(s.conns, s.sockets, c);
      JoinPlays(s, c);
    case GoneErase(c, at) =>
      assert MemberInv(s.conns, s.sockets, s.log, Sent(s), Served(s.sender), at);
      IsInIff(s.conns, s.sockets, c);
      LeavePlays(s, c, at);
    case Binding(c, r) =>
      assert OwnDescriptor(s.conns, c);
      IsInIff(s.conns, s.sockets, c);
      NameTakenIff(s.sockets, r.joiningUsername);
      BoundMembers(s.conns, s.sockets, c, r.joiningUsername);
      LoginAcceptedSimulates(s, Bind(s.sockets, s.conns[c].fd, r.joiningUsername), c, r);
    case Replying(_, _, _, _) => ReplySimulates(s, ch);
    case Pushing(c, r) =>
      IsInIff(s.conns, s.sockets, c);
      PushPlays(s, c, r);
  }

  lemma FailedBroadcastShows(s: State, ch: Choice)
    requires s.sender.Writing? && s.sender.tested && SenderEnabled(s, ch) && ch.WriteFails?
    ensures !NoWriteFailed(SenderStep(s, ch))
  {
    assert SenderStep(s, ch).conns[s.sockets[s.sender.socket].conn].failed;
  }

  lemma SenderSimulates(s: State, ch: Choice)
    requires Inv(s) && SenderEnabled(s, ch) && NoWriteFailed(s) && NoWriteFailed(SenderStep(s, ch))
    ensures Simulates(s, Send(ch), SenderStep(s, ch))
  {
    if !s.sender.Writing? {
      QuietSender(s, ch);
    } else if s.sender.tested {
      if ch.WriteFails? {
        FailedBroadcastShows(s, ch);
      }
      BroadcastSimulates(s, ch);
    } else if s.sender.socket < |s.sockets| {
      TestIsInvisible(s, ch);
    } else {
      DeliveryPlays(s);
    }
  }

  lemma TestFrame(s: State, ch: Choice)
    requires SenderEnabled(s, ch) && s.sender.Writing? && !s.sender.tested && s.sender.socket < |s.sockets|
    ensures
      var s' := SenderStep(s, ch);
      && s'.conns == s.conns && s'.sockets == s.sockets && s'.messageQueue == s.messageQueue
      && s'.listener == s.listener && s'.cleared == s.cleared && Drained(s'.sender) == Drained(s.sender)
  {
  }

  /** The test of a socket, even if it ends the program, changes nothing in the room. */
  lemma TestIsInvisible(s: State, ch: Choice)
    requires SenderEnabled(s, ch) && Drained(s.sender) <= |s.messageQueue|
    requires s.sender.Writing? && !s.sender.tested && s.sender.socket < |s.sockets|
    ensures
      var s' := SenderStep(s, ch);
      Drained(s'.sender) <= |s'.messageQueue| && RoomOf(s') == RoomOf(s)
  {
    TestFrame(s, ch);
    RoomByParts(s, SenderStep(s, ch));
  }

  lemma BroadcastSimulates(s: State, ch: Choice)
    requires Inv(s) && SenderEnabled(s, ch) && NoWriteFailed(s) && ch.Go? && s.sender.Writing? && s.sender.tested
    ensures Simulates(s, Send(ch), SenderStep(s, ch))
  {
    var i, j := s.sender.message, s.sender.socket;
    assert SeatInv(s.conns, s.sockets, j);
    assert MemberInv(s.conns, s.sockets, s.log, Sent(s), j, j);
    assert s.messageQueue[i] == s.log[Sent(s)];
    WriteIsInvisible(s, i, j);
  }

  lemma QuietSenderFrame(s: State, ch: Choice)
    requires SenderEnabled(s, ch) && !s.sender.Writing?
    ensures
      var s' := SenderStep(s, ch);
      && s'.conns == s.conns && s'.sockets == s.sockets && s'.listener == s.listener
  {
  }

  lemma NextOrClear(s: State, ch: Choice)
    requires SenderEnabled(s, ch) && s.sender.NextMessage? && s.sender.message <= |s.messageQueue|
    ensures
      var s' := SenderStep(s, ch);
      && Sent(s') == Sent(s) && Drained(s'.sender) <= |s'.messageQueue|
      && s'.messageQueue[Drained(s'.sender)..] == s.messageQueue[Drained(s.sender)..]
  {
    if s.sender.message == |s.messageQueue| {
      assert SenderStep(s, ch) == ClearQueue(s);
    } else {
      assert SenderStep(s, ch) == StartMessage(s, s.sender.message);
    }
  }

  lemma SameQueue(s: State, ch: Choice)
    requires SenderEnabled(s, ch) && !s.sender.Writing? && !s.sender.NextMessage?
    ensures
      var s' := SenderStep(s, ch);
      s'.messageQueue == s.messageQueue && s'.cleared == s.cleared && Drained(s'.sender) == Drained(s.sender)
  {
  }

  lemma QuietSenderDrained(s: State, ch: Choice)
    requires SenderEnabled(s, ch) && !s.sender.Writing? && SenderInv(s.sender, |s.messageQueue|, |s.sockets|)
    ensures
      var s' := SenderStep(s, ch);
      && Sent(s') == Sent(s) && Drained(s'.sender) <= |s'.messageQueue|
      && s'.messageQueue[Drained(s'.sender)..] == s.messageQueue[Drained(s.sender)..]
  {
    if s.sender.NextMessage? {
      NextOrClear(s, ch);
    } else {
      SameQueue(s, ch);
    }
  }

  lemma QuietSender(s: State, ch: Choice)
    requires SenderEnabled(s, ch) && !s.sender.Writing? && SenderInv(s.sender, |s.messageQueue|, |s.sockets|)
    ensures
      var s' := SenderStep(s, ch);
      Drained(s'.sender) <= |s'.messageQueue| && RoomOf(s') == RoomOf(s)
  {
    QuietSenderFrame(s, ch);
    QuietSenderDrained(s, ch);
    RoomByParts(s, SenderStep(s, ch));
  }

  /** No stop and no failed write. */
  ghost predicate Undisturbed(states: seq<State>, k: nat)
    requires k < |states|
  {
    !states[k].killed && NoWriteFailed(states[k])
  }

  lemma StepSimulates(states: seq<State>, acts: seq<Action>, k: nat)
    requires IsProgramRun(states, acts) && k < |acts| && Undisturbed(states, k) && Undisturbed(states, k + 1)
    ensures Drained(states[k].sender) <= |states[k].messageQueue|
    ensures Simulates(states[k], acts[k], states[k + 1])
  {
    Invariant(states, acts, k);
    assert StepAt(states, acts, k);
    match acts[k]
    case Listen(ch) =>
      if RoomPc(states[k].listener) {
        RoomStepSimulates(states[k], ch);
      } else {
        QuietListener(states[k], ch);
      }
    case Send(ch) => SenderSimulates(states[k], ch);
  }

  /** The events of the room that the first k steps of a run are. */
  function EventsOf(states: seq<State>, acts: seq<Action>, k: nat): seq<Room.Event>
    requires k <= |acts| < |states|
  {
    if k == 0 then []
    else Room.Extended(EventsOf(states, acts, k - 1), EventOf(states[k - 1], acts[k - 1]))
  }

  /** The room in state k is the one that the events before it lead to. */
  ghost predicate Shown(states: seq<State>, acts: seq<Action>, k: nat)
    requires k <= |acts| < |states|
  {
    Drained(states[k].sender) <= |states[k].messageQueue| &&
    Room.Play(EventsOf(states, acts, k)) == Some(RoomOf(states[k]))
  }

  lemma InitialRoom()
    ensures Drained(INITIAL.sender) == 0 && RoomOf(INITIAL) == Room.EMPTY_ROOM
  {
  }

  lemma ShownAtStart(states: seq<State>, acts: seq<Action>)
    requires IsProgramRun(states, acts)
    ensures Shown(states, acts, 0)
  {
    InitialRoom();
    assert Room.Play([]) == Some(Room.EMPTY_ROOM);
  }

  lemma ShownNext(states: seq<State>, acts: seq<Action>, k: nat, next: nat)
    requires next == k + 1 && next <= |acts| < |states| && Shown(states, acts, k)
    requires Simulates(states[k], acts[k], states[next])
    ensures Shown(states, acts, next)
  {
  }

  lemma KilledStays(s: State, a: Action)
    requires Enabled(s, a) && s.killed
    ensures Next(s, a).killed
  {
  }

  /** What is undisturbed now was so before. */
  lemma UndisturbedBefore(states: seq<State>, acts: seq<Action>, k: nat)
    requires IsProgramRun(states, acts) && k < |acts| && Undisturbed(states, k + 1)
    ensures Undisturbed(states, k)
  {
    HistoryGrows(states, acts, k, k + 1);
    assert StepAt(states, acts, k);
    if states[k].killed {
      KilledStays(states[k], acts[k]);
    }
    forall c | 0 <= c < |states[k].conns|
      ensures !states[k].conns[c].failed
    {
      assert ConnGrows(states[k].conns, states[k + 1].conns, c);
    }
  }

  /** Refinement: up to any state with no stop and no failed write, also one that has crashed, the events of the run,
      each at the step where it takes effect, are a play of the chat room, and the state shows the room that the play
      leads to. */
  lemma {:induction false} RunsArePlays(states: seq<State>, acts: seq<Action>, k: nat)
    requires IsProgramRun(states, acts) && k < |states| && Undisturbed(states, k)
    ensures Shown(states, acts, k)
  {
    if k == 0 {
      ShownAtStart(states, acts);
    } else {
      UndisturbedBefore(states, acts, k - 1);
      RunsArePlays(states, acts, k - 1);
      StepSimulates(states, acts, k - 1);
      ShownNext(states, acts, k - 1, k);
    }
  }
}
