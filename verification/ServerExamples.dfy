/** Runs of the program: one that delivers a message, and those in which it fails. */
module ServerExamples {
  import opened Messages
  import opened Entries
  import opened ServerMachine
  import opened ServerInvariants
  import opened ServerRuns
  import opened ServerDelivery
  import opened ServerCrashes
  import opened ServerShutdown
  import opened ServerWaiting

  const KILL_EVENT: int := 4
  const CLIENT: int := 5

  const HELLO := MessageResponse(1, SERVER_SENDER, "alice", "hello")

  /** One client is in the vector. */
  const JOINED := State(
    [Conn(CLIENT, true, false, Member(0), [], [])], BASE_DESCRIPTORS + {KILL_EVENT} + {CLIENT},
    [Entry(0, CLIENT, "")], {0}, KILL_EVENT, false, [], false, Free, Free, Free, LoopTest, SendLoopTest, false, [], 0)

  /** It has posted these messages. */
  function Posted(q: seq<Instance>): State {
    JOINED.(messageQueue := q, log := q)
  }

  /** The sender has seen them. */
  function Draining(q: seq<Instance>): State {
    Posted(q).(sender := NextMessage(0), queueHolder := HeldBySender)
  }

  /** It is about to test whether it can write the first of them to the client. */
  function Writing(q: seq<Instance>): State {
    Draining(q).(sender := SenderPc.Writing(0, 0, false), socketsHolder := HeldBySender)
  }

  lemma Accepting() returns (run: Course)
    ensures Leads(INITIAL, run)
    ensures run.last == INITIAL.(conns := [Conn(CLIENT, true, false, Life.Accepted, [], [])],
                                 descriptors := BASE_DESCRIPTORS + {KILL_EVENT} + {CLIENT},
                                 killEventFd := KILL_EVENT, listener := JoinWantSockets(0))
  {
    run := Wait(INITIAL, Start(INITIAL), {}, NewDescriptor(KILL_EVENT), ServerReady);
    run := Further(INITIAL, run, Listen(NewDescriptor(CLIENT)));
  }

  lemma Joining() returns (run: Course)
    ensures Leads(INITIAL, run) && run.last == JOINED
  {
    run := Accepting();
    run := Further(INITIAL, run, Listen(Go));
    run := Further(INITIAL, run, Listen(Go));
    run := Further(INITIAL, run, Listen(Go));
  }

  /** The listener waits for the client, which is open, and tests it. */
  lemma ReadyToRead(run: Course) returns (longer: Course)
    requires Leads(INITIAL, run) && run.last.listener.LoopTest? && !run.last.killed && !run.last.crashed
    requires run.last.killHolder.Free? && run.last.killEventFd == KILL_EVENT
    requires run.last.watched == {0} && IsOpen(run.last, 0)
    ensures Leads(INITIAL, longer) && longer.last == run.last.(listener := Reading(0, true))
  {
    assert OpenAmong(run.last, {0}) == {0};
    longer := Wait(INITIAL, run, {0}, Go, SocketReady(0));
    longer := Further(INITIAL, longer, Listen(Go));
  }

  /** The client posts one more message. */
  lemma Posting(run: Course, q: seq<Instance>) returns (longer: Course)
    requires Leads(INITIAL, run) && run.last == Posted(q)
    ensures Leads(INITIAL, longer) && longer.last == Posted(q + [HELLO])
  {
    longer := ReadyToRead(run);
    longer := Further(INITIAL, longer, Listen(ReadRequest(MessageRequest(0, "alice", "hello"), 1)));
    longer := Queueing(longer, q);
  }

  lemma Queueing(run: Course, q: seq<Instance>) returns (longer: Course)
    requires Leads(INITIAL, run) && run.last == Posted(q).(listener := WantQueue(0, HELLO))
    ensures Leads(INITIAL, longer) && longer.last == Posted(q + [HELLO])
  {
    longer := Further(INITIAL, run, Listen(Go));
    longer := Further(INITIAL, longer, Listen(Go));
  }

  lemma PostedOnce() returns (run: Course)
    ensures Leads(INITIAL, run) && run.last == Posted([HELLO])
  {
    run := Joining();
    assert JOINED == Posted([]) && [] + [HELLO] == [HELLO];
    run := Posting(run, []);
  }

  lemma SeenBySender(run: Course, q: seq<Instance>) returns (longer: Course)
    requires Leads(INITIAL, run) && run.last == Posted(q) && q != []
    ensures Leads(INITIAL, longer) && longer.last == Draining(q)
  {
    longer := Further(INITIAL, run, Send(Go));
    longer := Further(INITIAL, longer, Send(Go));
    longer := Further(INITIAL, longer, Send(Go));
  }

  lemma AboutToWrite(run: Course, q: seq<Instance>) returns (longer: Course)
    requires Leads(INITIAL, run) && run.last == Posted(q) && q != []
    ensures Leads(INITIAL, longer) && longer.last == Writing(q)
  {
    longer := SeenBySender(run, q);
    longer := Further(INITIAL, longer, Send(Go));
    longer := Further(INITIAL, longer, Send(Go));
  }

  /** A message is delivered, and the queue cleared. */
  lemma AMessageIsDelivered() returns (run: Course)
    ensures Leads(INITIAL, run) && !run.last.crashed && !run.last.killed
    ensures |run.last.conns| == 1 && run.last.conns[0].out == [HELLO] == run.last.log
    ensures run.last.messageQueue == [] && run.last.cleared == 1
  {
    run := PostedOnce();
    run := AboutToWrite(run, [HELLO]);
    run := Further(INITIAL, run, Send(Go));
    run := Further(INITIAL, run, Send(Go));
    run := Further(INITIAL, run, Send(Go));
    run := Further(INITIAL, run, Send(Go));
  }

  /** A write to a member fails while the listener does not read from it. */
  lemma AWriteFails() returns (run: Course)
    ensures Leads(INITIAL, run) && !run.last.crashed && Stuck(run.last, 0)
  {
    run := PostedOnce();
    run := AboutToWrite(run, [HELLO]);
    run := Further(INITIAL, run, Send(Go));
    run := Further(INITIAL, run, Send(WriteFails));
  }

  // ----------------------------------------------------- clients that leave

  /** The listener has read the end of the client and takes it out of the vector. */
  lemma Removing(run: Course) returns (longer: Course)
    requires Leads(INITIAL, run) && !run.last.crashed && run.last.listener == GoneWantSockets(0)
    requires run.last.socketsHolder.Free? && run.last.sockets == [Entry(0, CLIENT, "")]
    requires |run.last.conns| == 1 && run.last.conns[0].fd == CLIENT && run.last.conns[0].life == Member(0)
    ensures Leads(INITIAL, longer) && run.states <= longer.states
    ensures longer.last == run.last.(sockets := [], watched := run.last.watched - {0}, listener := LoopTest,
                                     conns := [run.last.conns[0].(life := Left(0, Sent(run.last)))])
  {
    longer := Further(INITIAL, run, Listen(Go));
    longer := Further(INITIAL, longer, Listen(Go));
    assert longer.last.listener == GoneErase(0, 0);
    longer := Further(INITIAL, longer, Listen(Go));
  }

  /** A client leaves, and its descriptor stays in use. */
  lemma AClientLeaves() returns (run: Course)
    ensures Leads(INITIAL, run) && !run.last.crashed && !run.last.killed
    ensures |run.last.conns| == 1 && run.last.conns[0].life.Left? && run.last.conns[0].fd in run.last.descriptors
  {
    run := Joining();
    run := ReadyToRead(run);
    run := Further(INITIAL, run, Listen(ReadNothing));
    run := Removing(run);
  }

  /** The client goes before a message is written to it: the program ends, without stop and without a failed write. */
  lemma ALeavingClientCrashes() returns (run: Course)
    ensures Leads(INITIAL, run) && run.last.crashed && !run.last.killed && NoWriteFailed(run.last)
  {
    run := PostedOnce();
    run := AboutToWrite(run, [HELLO]);
    run := ReadyToRead(run);
    run := Further(INITIAL, run, Listen(ReadNothing));
    run := Further(INITIAL, run, Send(Go));
  }

  /** Both threads are past their tests of the client, and the write fails. */
  lemma FailingInARead() returns (run: Course)
    ensures Leads(INITIAL, run)
    ensures
      var q := [HELLO, HELLO];
      run.last == Writing(q).(sender := SenderPc.Writing(0, 1, false), listener := Reading(0, true),
                              conns := [Conn(CLIENT, false, true, Member(0), [], [])])
  {
    run := PostedOnce();
    run := Posting(run, [HELLO]);
    assert [HELLO] + [HELLO] == [HELLO, HELLO];
    run := AboutToWrite(run, [HELLO, HELLO]);
    run := ReadyToRead(run);
    run := Further(INITIAL, run, Send(Go));
    run := Further(INITIAL, run, Send(WriteFails));
  }

  /** A failed write to a client that the listener is reading from: the client leaves, and the broadcasting goes on to a
      message that the client was never offered. */
  lemma AFailedClientLeaves() returns (run: Course, at: nat)
    ensures Leads(INITIAL, run) && !run.last.crashed && !run.last.killed && at < |run.states|
    ensures MemberOf(run.states[at].conns, 0) && run.states[at].conns[0].failed && Offered(run.states[at], 0) == 1
    ensures |run.last.conns| == 1 && run.last.conns[0].life.Left? && run.last.conns[0].failed
    ensures run.last.messageQueue == [] && Sent(run.last) == 2
  {
    var failing := FailingInARead();
    at := |failing.acts|;
    OfferedOnce(failing.last);
    run := RemovedInARead(failing);
    run := SecondToNobody(run);
    assert run.states[at] == failing.last;
  }

  /** The read finds the end, the sender has done with the message, and the client is removed. */
  lemma RemovedInARead(run: Course) returns (longer: Course)
    requires Leads(INITIAL, run)
    requires
      var q := [HELLO, HELLO];
      run.last == Writing(q).(sender := SenderPc.Writing(0, 1, false), listener := Reading(0, true),
                              conns := [Conn(CLIENT, false, true, Member(0), [], [])])
    ensures Leads(INITIAL, longer) && run.states <= longer.states
    ensures longer.last == Draining([HELLO, HELLO]).(
              sender := NextMessage(1), sockets := [], watched := {},
              conns := [Conn(CLIENT, false, true, Left(0, 1), [], [])])
  {
    longer := Further(INITIAL, run, Listen(ReadNothing));
    longer := Further(INITIAL, longer, Send(Go));
    longer := Removing(longer);
  }

  lemma OfferedOnce(s: State)
    requires s.sockets == [Entry(0, CLIENT, "")] && s.sender == SenderPc.Writing(0, 1, false) && s.cleared == 0
    ensures Offered(s, 0) == 1
  {
    assert s.sockets[0].conn == 0;
  }

  lemma SecondToNobody(run: Course) returns (longer: Course)
    requires Leads(INITIAL, run) && !run.last.crashed && run.last.sender == NextMessage(1) && run.last.cleared == 0
    requires run.last.sockets == [] && run.last.socketsHolder.Free? && run.last.messageQueue == [HELLO, HELLO]
    ensures Leads(INITIAL, longer) && run.states <= longer.states
    ensures longer.last == run.last.(sender := SendLoopTest, cleared := 2, messageQueue := [], queueHolder := Free)
  {
    longer := Further(INITIAL, run, Send(Go));
    longer := Further(INITIAL, longer, Send(Go));
    longer := Further(INITIAL, longer, Send(Go));
    longer := Further(INITIAL, longer, Send(Go));
  }

  // ---------------------------------------------------- a rejected login

  /** The client asks for the empty name, which it has itself. */
  lemma AskingForNoName() returns (run: Course)
    ensures Leads(INITIAL, run)
    ensures run.last == JOINED.(listener := CheckName(0, "", 1), socketsHolder := HeldByListener)
  {
    run := Joining();
    run := ReadyToRead(run);
    run := Further(INITIAL, run, Listen(ReadRequest(LoginRequest(0, ""), 1)));
    run := Further(INITIAL, run, Listen(Go));
  }

  lemma Refused() returns (run: Course)
    ensures Leads(INITIAL, run)
    ensures run.last == JOINED.(listener := Replying(0, "", InUseReply(1), false),
                                conns := [JOINED.conns[0].(replies := [InUseReply(1)])])
  {
    run := AskingForNoName();
    assert JOINED.sockets[0].name == "";
    run := Further(INITIAL, run, Listen(Go));
    assert run.last.conns[0].replies == [InUseReply(1)];
  }

  /** A login with the empty name is rejected as long as a client has no name yet, and the write of the reply fails. */
  lemma AReplyFails() returns (run: Course)
    ensures Leads(INITIAL, run) && !run.last.crashed && Stuck(run.last, 0)
    ensures run.last.conns[0].replies == [InUseReply(1)] && run.last.conns[0].out == []
  {
    run := Refused();
    run := Further(INITIAL, run, Listen(Go));
    run := Further(INITIAL, run, Listen(WriteFails));
  }

  // ------------------------------------------------------------------- stop

  lemma WriteToClosed(run: Course) returns (longer: Course)
    requires Leads(INITIAL, run) && !run.last.crashed
    requires run.last.socketsHolder.Free? && run.last.sender == NextMessage(0)
    requires run.last.messageQueue == [HELLO] && run.last.sockets == [Entry(0, CLIENT, "")] && !IsOpen(run.last, 0)
    ensures Leads(INITIAL, longer) && longer.last.crashed && run.states <= longer.states
  {
    longer := Further(INITIAL, run, Send(Go));
    longer := Further(INITIAL, longer, Send(Go));
    longer := Further(INITIAL, longer, Send(Go));
  }

  /** stop() has closed the client, and the sender has a message for it. */
  lemma Closing() returns (run: Course)
    ensures Leads(INITIAL, run) && !run.last.crashed && run.last.killed && run.last.listener == StopWantKillEvent
    ensures run.last.sender == NextMessage(0) && run.last.messageQueue == [HELLO]
    ensures run.last.sockets == [Entry(0, CLIENT, "")] && !IsOpen(run.last, 0) && run.last.killHolder.Free?
  {
    run := PostedOnce();
    run := SeenBySender(run, [HELLO]);
    assert OpenAmong(Draining([HELLO]), {0}) == {0};
    run := Wait(INITIAL, run, {0}, Go, Line("exit"));
    run := Further(INITIAL, run, Listen(Go));
    run := Further(INITIAL, run, Listen(Go));
    run := Further(INITIAL, run, Listen(Go));
  }

  /** stop() closes the client while the sender has a message for it: the program ends by an exception. */
  lemma AStopCrashes() returns (run: Course, at: nat)
    ensures Leads(INITIAL, run) && run.last.crashed && at < |run.states| && !run.states[at].crashed
    ensures HasClosed(run.states[at].killed, run.states[at].listener) && StillWrites(run.states[at])
  {
    var closed := Closing();
    at := |closed.acts|;
    run := Further(INITIAL, closed, Listen(Go));
    run := Further(INITIAL, run, Listen(Go));
    run := WriteToClosed(run);
    assert run.states[at] == closed.last;
  }
}
