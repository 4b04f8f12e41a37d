/** What reaches the clients: one order for all, nothing lost, nothing twice. */
module ServerDelivery {
  import opened Entries
  import opened ServerMachine
  import opened ServerInvariants
  import opened ServerFrames

  // ---------------------------------------------------- history only grows

  /** A connection keeps its descriptor, its output grows, and it passes through its life in order. */
  predicate ConnGrows(before: seq<Conn>, after: seq<Conn>, c: ConnId)
    requires c < |before|
  {
    c < |after| &&
    var a, b := before[c], after[c];
    && a.fd == b.fd
    && a.out <= b.out
    && (a.failed ==> b.failed)
    && (!a.open ==> !b.open)
    && match a.life
       case Accepted => true
       case Member(joined) => b.life == a.life || (b.life.Left? && b.life.joinedAt == joined)
       case Left(_, _) => b.life == a.life
  }

  predicate Grows(s: State, s': State) {
    s.log <= s'.log && forall c :: 0 <= c < |s.conns| ==> ConnGrows(s.conns, s'.conns, c)
  }

  lemma ListenerGrows(s: State, ch: Choice)
    requires ListenerEnabled(s, ch) && PcInv(s.listener, s.conns, s.sockets)
    ensures Grows(s, ListenerStep(s, ch))
  {
    var s' := ListenerStep(s, ch);
    if InOnSocket(s.listener) {
      OnSocketGrows(s, ch);
    } else {
      assert s'.log == s.log;
      forall c | 0 <= c < |s.conns| ensures ConnGrows(s.conns, s'.conns, c) {
      }
    }
  }

  lemma OnSocketGrows(s: State, ch: Choice)
    requires ListenerEnabled(s, ch) && InOnSocket(s.listener)
    ensures Grows(s, ListenerStep(s, ch))
  {
    if ReplacesConn(s.listener) {
      ReplacedGrows(s, ch);
    } else {
      SameConnsGrow(s, ch);
      forall c | 0 <= c < |s.conns| ensures ConnGrows(s.conns, ListenerStep(s, ch).conns, c) {
      }
    }
  }

  /** The steps of onSocket that change a connection. */
  predicate ReplacesConn(l: ListenerPc) {
    l.Reading? || l.GoneErase? || l.CheckName? || l.Replying?
  }

  lemma SameConnsGrow(s: State, ch: Choice)
    requires ListenerEnabled(s, ch) && InOnSocket(s.listener) && !ReplacesConn(s.listener)
    ensures ListenerStep(s, ch).conns == s.conns && s.log <= ListenerStep(s, ch).log
  {
  }

  lemma ReplacedGrows(s: State, ch: Choice)
    requires ListenerEnabled(s, ch) && ReplacesConn(s.listener)
    ensures Grows(s, ListenerStep(s, ch))
  {
    if s.listener.Reading? || s.listener.GoneErase? {
      GoneGrows(s, ch);
    } else {
      AnsweredGrows(s, ch);
    }
  }

  lemma GoneGrows(s: State, ch: Choice)
    requires ListenerEnabled(s, ch) && (s.listener.Reading? || s.listener.GoneErase?)
    ensures Grows(s, ListenerStep(s, ch))
  {
    var s' := ListenerStep(s, ch);
    assert s'.log == s.log;
    forall c | 0 <= c < |s.conns| ensures ConnGrows(s.conns, s'.conns, c) {
    }
  }

  lemma AnsweredGrows(s: State, ch: Choice)
    requires ListenerEnabled(s, ch) && (s.listener.CheckName? || s.listener.Replying?)
    ensures Grows(s, ListenerStep(s, ch))
  {
    var s' := ListenerStep(s, ch);
    assert s'.log == s.log;
    forall c | 0 <= c < |s.conns| ensures ConnGrows(s.conns, s'.conns, c) {
    }
  }

  lemma SenderGrows(s: State, ch: Choice)
    requires SenderEnabled(s, ch)
    ensures Grows(s, SenderStep(s, ch))
  {
    var s' := SenderStep(s, ch);
    assert s'.log == s.log;
    forall c | 0 <= c < |s.conns| ensures ConnGrows(s.conns, s'.conns, c) {
    }
  }

  lemma GrowsTransitive(a: State, b: State, c: State)
    requires Grows(a, b) && Grows(b, c)
    ensures Grows(a, c)
  {
    forall i | 0 <= i < |a.conns| ensures ConnGrows(a.conns, c.conns, i) {
      assert ConnGrows(a.conns, b.conns, i) && ConnGrows(b.conns, c.conns, i);
    }
  }

  lemma StepGrows(states: seq<State>, acts: seq<Action>, k: nat)
    requires IsRun(states, acts) && k < |acts| && Inv(states[k])
    ensures Grows(states[k], states[k + 1])
  {
    assert StepAt(states, acts, k);
    match acts[k]
    case Listen(ch) => ListenerGrows(states[k], ch);
    case Send(ch) => SenderGrows(states[k], ch);
  }

  /** What has been queued or written stays so, in every run. */
  lemma {:induction false} HistoryGrows(states: seq<State>, acts: seq<Action>, i: nat, j: nat)
    requires IsProgramRun(states, acts) && i <= j < |states|
    ensures Grows(states[i], states[j])
  {
    if i == j {
      forall c | 0 <= c < |states[i].conns| ensures ConnGrows(states[i].conns, states[j].conns, c) {
      }
    } else {
      HistoryGrows(states, acts, i, j - 1);
      Invariant(states, acts, j - 1);
      StepGrows(states, acts, j - 1);
      GrowsTransitive(states[i], states[j - 1], states[j]);
    }
  }

  // -------------------------------------------------------- total order

  /** The broadcasts written to a connection are a contiguous piece of the log that starts where it joined. */
  lemma BroadcastsAreASegment(states: seq<State>, acts: seq<Action>, k: nat, c: ConnId)
    requires IsProgramRun(states, acts) && k < |states| && c < |states[k].conns|
    ensures
      var conn := states[k].conns[c];
      if conn.life.Accepted? then Broadcasts(conn.out) == []
      else SegmentOf(Broadcasts(conn.out), states[k].log, conn.life.joinedAt)
  {
    Invariant(states, acts, k);
    var s := states[k];
    assert OutsiderInv(s.conns, s.log, Sent(s), c);
    if s.conns[c].life.Member? {
      var at := SeatOf(s, c);
      assert MemberInv(s.conns, s.sockets, s.log, Sent(s), Served(s.sender), at);
    }
  }

  lemma SeatOf(s: State, c: ConnId) returns (at: nat)
    requires Inv(s) && MemberOf(s.conns, c)
    ensures at < |s.sockets| && s.sockets[at].conn == c
  {
    assert Seated(s.sockets, c);
    at :| 0 <= at < |s.sockets| && s.sockets[at].conn == c;
  }

  /** The message with this number in the log has been written to the connection. */
  predicate HasMessage(conn: Conn, p: nat) {
    !conn.life.Accepted? && conn.life.joinedAt <= p < conn.life.joinedAt + |Broadcasts(conn.out)|
  }

  /** Any two clients agree on every message both have, and on the order: message p of the log comes at the
      place p less the place of joining, for both, and at any later time too. */
  lemma TotalOrder(states: seq<State>, acts: seq<Action>, i: nat, j: nat, c: ConnId, d: ConnId, p: nat)
    requires IsProgramRun(states, acts) && i <= j < |states|
    requires c < |states[i].conns| && d < |states[j].conns|
    requires HasMessage(states[i].conns[c], p) && HasMessage(states[j].conns[d], p)
    ensures p < |states[i].log|
    ensures
      var a, b := states[i].conns[c], states[j].conns[d];
      && Broadcasts(a.out)[p - a.life.joinedAt] == Broadcasts(b.out)[p - b.life.joinedAt]
      && Broadcasts(a.out)[p - a.life.joinedAt] == states[i].log[p]
  {
    BroadcastsAreASegment(states, acts, i, c);
    BroadcastsAreASegment(states, acts, j, d);
    HistoryGrows(states, acts, i, j);
    assert ConnGrows(states[i].conns, states[j].conns, c);
  }

  // ------------------------------------------------------- conservation

  /** Where the received messages of a connection end: at the last one sent, or at its departure. */
  predicate ReceivedAll(s: State, c: ConnId)
    requires c < |s.conns|
  {
    var conn := s.conns[c];
    var b := Broadcasts(conn.out);
    match conn.life
    case Accepted => b == []
    case Left(joined, left) => joined <= left <= |s.log| && b == s.log[joined..left]
    case Member(joined) =>
      joined <= Sent(s) <= |s.log| &&
      (b == s.log[joined..Sent(s)] ||
       (s.sender.Writing? && Sent(s) < |s.log| && b == s.log[joined..Sent(s) + 1]))
  }

  /** The log is what was cleared followed by what is queued; every connection has every message that was sent
      while it was in the vector, once and in order, unless a write to it failed. */
  lemma Conservation(states: seq<State>, acts: seq<Action>, k: nat)
    requires IsProgramRun(states, acts) && k < |states|
    ensures
      var s := states[k];
      && s.cleared <= Sent(s) <= |s.log|
      && s.log == s.log[..s.cleared] + s.messageQueue
      && (forall c :: 0 <= c < |s.conns| && !s.conns[c].failed ==> ReceivedAll(s, c))
  {
    Invariant(states, acts, k);
    var s := states[k];
    forall c | 0 <= c < |s.conns| && !s.conns[c].failed ensures ReceivedAll(s, c) {
      assert OutsiderInv(s.conns, s.log, Sent(s), c);
      if s.conns[c].life.Member? {
        var at := SeatOf(s, c);
        assert MemberInv(s.conns, s.sockets, s.log, Sent(s), Served(s.sender), at);
      }
    }
  }

  /** The clear drops nothing: at that moment all that was ever queued has been sent. */
  lemma ClearDropsNothing(states: seq<State>, acts: seq<Action>, k: nat)
    requires IsProgramRun(states, acts) && k < |acts|
    requires |states[k + 1].messageQueue| < |states[k].messageQueue|
    ensures Sent(states[k]) == |states[k].log| == states[k + 1].cleared
    ensures states[k + 1].messageQueue == [] && states[k + 1].log == states[k].log
  {
    Invariant(states, acts, k);
    assert StepAt(states, acts, k);
    var s := states[k];
    match acts[k] {
      case Listen(ch) => ListenerLeavesTheQueue(s, ch);
      case Send(ch) =>
    }
  }

  lemma ListenerLeavesTheQueue(s: State, ch: Choice)
    requires ListenerEnabled(s, ch)
    ensures s.messageQueue <= ListenerStep(s, ch).messageQueue
  {
    ListenerFrame(s, ch);
  }

  // ------------------------------------------------------ a failed write

  /** How many members have been tried with the message being sent, the one that is being written to included. */
  function Begun(p: SenderPc): nat {
    if p.Writing? then (if p.tested then p.socket + 1 else p.socket) else 0
  }

  /** This member is among the first `begun`. */
  predicate Reached(sockets: seq<Entry<ConnId>>, begun: nat, c: ConnId) {
    exists k :: 0 <= k < |sockets| && k < begun && sockets[k].conn == c
  }

  /** The messages this member has been offered. */
  function Offered(s: State, c: ConnId): nat {
    Sent(s) + if Reached(s.sockets, Begun(s.sender), c) then 1 else 0
  }

  /** The listener is past its test of this client's flag, in a read that may find the end, or has found it. */
  predicate MayLeave(l: ListenerPc, c: ConnId) {
    (l.Reading? && l.tested && l.conn == c) || Leaving(l, c)
  }

  /** A member to which a write failed, and which the listener is not just reading from. */
  predicate Stuck(s: State, c: ConnId) {
    MemberOf(s.conns, c) && s.conns[c].failed && !MayLeave(s.listener, c)
  }

  lemma WriterPassesNoClosedSocket(s: State, ch: Choice, at: nat)
    requires SocketsInv(s.conns, s.sockets) && SenderInv(s.sender, |s.messageQueue|, |s.sockets|) && s.sender.Writing?
    requires SenderEnabled(s, ch) && at < |s.sockets| && !IsOpen(s, s.sockets[at].conn)
    ensures Offered(SenderStep(s, ch), s.sockets[at].conn) == Offered(s, s.sockets[at].conn)
  {
    var s' := SenderStep(s, ch);
    assert s'.sockets == s.sockets && s'.cleared == s.cleared;
    if !s.sender.tested && s.sender.socket >= |s.sockets| {
      assert Reached(s.sockets, Begun(s.sender), s.sockets[at].conn);
      assert s'.sender == NextMessage(s.sender.message + 1);
    } else {
      assert s.sender.tested ==> Begun(s'.sender) == Begun(s.sender);
      NotYetReached(s.conns, s.sockets, s.sender.socket);
    }
  }

  /** A step from one member to the next reaches no other. */
  lemma NotYetReached(conns: seq<Conn>, sockets: seq<Entry<ConnId>>, j: nat)
    requires SocketsInv(conns, sockets) && j < |sockets|
    ensures forall c :: c != sockets[j].conn ==> (Reached(sockets, j + 1, c) <==> Reached(sockets, j, c))
  {
    var next := j + 1;
    forall c | c != sockets[j].conn
      ensures Reached(sockets, next, c) <==> Reached(sockets, j, c)
    {
      if Reached(sockets, next, c) {
        var k :| 0 <= k < |sockets| && k < next && sockets[k].conn == c;
        assert k < j;
      }
    }
  }

  lemma SenderPassesNoClosedSocket(s: State, ch: Choice, c: ConnId)
    requires SocketsInv(s.conns, s.sockets) && SenderInv(s.sender, |s.messageQueue|, |s.sockets|)
    requires SenderEnabled(s, ch) && MemberOf(s.conns, c) && !s.conns[c].open
    ensures Offered(SenderStep(s, ch), c) == Offered(s, c)
  {
    if s.sender.Writing? {
      assert Seated(s.sockets, c);
      var at :| 0 <= at < |s.sockets| && s.sockets[at].conn == c;
      WriterPassesNoClosedSocket(s, ch, at);
    } else {
      assert SenderStep(s, ch).sockets == s.sockets && Begun(SenderStep(s, ch).sender) == 0;
    }
  }

  /** Only with the mutex of the vector does the listener change it. */
  lemma ListenerLeavesVector(s: State, ch: Choice)
    requires ListenerEnabled(s, ch) && !ListenerHoldsSockets(s.listener)
    ensures ListenerStep(s, ch).sockets == s.sockets
  {
  }

  lemma ListenerOffersNothing(s: State, ch: Choice, c: ConnId)
    requires LockInv(s) && ListenerEnabled(s, ch)
    ensures Offered(ListenerStep(s, ch), c) == Offered(s, c)
  {
    ListenerFrame(s, ch);
    if s.sender.Writing? {
      ListenerLeavesVector(s, ch);
    }
  }

  /** The listener does not come to read from a closed socket, but throws, */
  lemma NoReadOfClosed(s: State, ch: Choice, c: ConnId)
    requires ListenerEnabled(s, ch) && !IsOpen(s, c) && !MayLeave(s.listener, c)
    ensures !MayLeave(ListenerStep(s, ch).listener, c)
  {
    if !s.listener.Reading? && !ReadEnded(s.listener) {
      NothingRead(s, ch);
    }
  }

  predicate ReadEnded(l: ListenerPc) {
    l.GoneWantSockets? || l.GoneSearch? || l.GoneErase?
  }

  lemma NothingRead(s: State, ch: Choice)
    requires ListenerEnabled(s, ch) && !s.listener.Reading? && !ReadEnded(s.listener)
    ensures !ReadEnded(ListenerStep(s, ch).listener)
    ensures !TestedRead(ListenerStep(s, ch).listener)
  {
    NoEndRead(s, ch);
    NoReadTested(s, ch);
  }

  predicate TestedRead(l: ListenerPc) {
    l.Reading? && l.tested
  }

  lemma NoEndRead(s: State, ch: Choice)
    requires ListenerEnabled(s, ch) && !s.listener.Reading? && !ReadEnded(s.listener)
    ensures !ReadEnded(ListenerStep(s, ch).listener)
  {
    if !InOnSocket(s.listener) {
      OutsidePc(s, ch);
    }
  }

  lemma NoReadTested(s: State, ch: Choice)
    requires ListenerEnabled(s, ch) && !s.listener.Reading?
    ensures !TestedRead(ListenerStep(s, ch).listener)
  {
    if !InOnSocket(s.listener) {
      OutsidePc(s, ch);
    }
  }

  /** and it removes only a client that it has read from. */
  lemma OthersStay(s: State, ch: Choice, c: ConnId)
    requires ListenerEnabled(s, ch) && MemberOf(s.conns, c) && !MayLeave(s.listener, c)
    ensures MemberOf(ListenerStep(s, ch).conns, c)
  {
    if !InOnSocket(s.listener) {
      OutsideNobodyLeaves(s, ch, c);
    } else if !ReplacesConn(s.listener) {
      SameConnsGrow(s, ch);
    }
  }

  lemma OutsideNobodyLeaves(s: State, ch: Choice, c: ConnId)
    requires ListenerEnabled(s, ch) && MemberOf(s.conns, c) && !InOnSocket(s.listener)
    ensures MemberOf(ListenerStep(s, ch).conns, c)
  {
  }

  lemma SenderRemovesNobody(s: State, ch: Choice, c: ConnId)
    requires SenderEnabled(s, ch) && MemberOf(s.conns, c)
    ensures MemberOf(SenderStep(s, ch).conns, c) && SenderStep(s, ch).listener == s.listener
  {
  }

  lemma StuckStep(states: seq<State>, acts: seq<Action>, k: nat, c: ConnId)
    requires IsProgramRun(states, acts) && k < |acts| && Stuck(states[k], c)
    ensures Stuck(states[k + 1], c) && Offered(states[k + 1], c) == Offered(states[k], c)
  {
    Invariant(states, acts, k);
    assert StepAt(states, acts, k);
    assert RepliesInv(states[k].conns, Owed(states[k].listener), c);
    StepGrows(states, acts, k);
    assert ConnGrows(states[k].conns, states[k + 1].conns, c);
    match acts[k]
    case Listen(ch) =>
      ListenerOffersNothing(states[k], ch, c);
      NoReadOfClosed(states[k], ch, c);
      OthersStay(states[k], ch, c);
    case Send(ch) =>
      SenderPassesNoClosedSocket(states[k], ch, c);
      SenderRemovesNobody(states[k], ch, c);
  }

  /** A failed write to a member is the end of all broadcasting, unless the listener is in a read of that member or has
      read its end: otherwise the member is never taken out of the vector, and no message it had not been offered is
      ever sent to everybody. */
  lemma {:induction false} OneFailedWriteEndsBroadcasting(
      states: seq<State>, acts: seq<Action>, i: nat, j: nat, c: ConnId)
    requires IsProgramRun(states, acts) && i <= j < |states| && Stuck(states[i], c)
    ensures Stuck(states[j], c) && Offered(states[j], c) == Offered(states[i], c)
    ensures Sent(states[j]) <= Offered(states[i], c)
  {
    if i < j {
      OneFailedWriteEndsBroadcasting(states, acts, i, j - 1, c);
      StuckStep(states, acts, j - 1, c);
    }
  }
}
