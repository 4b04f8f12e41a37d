/**
 The server as a small-step system: the listener thread (listen, flex_waiter::wait and its
 handlers) and the sender thread (sendMessages), interleaved at every lock operation, at
 every test of a socket's flag and at every system call. Between two such points a thread
 touches only data that it owns or whose mutex it holds; the release of a mutex belongs to
 the step before it. A read or a write is two steps, the test of the flag, which no mutex
 guards, and the system call. The clearing of the flag after a call that failed or found the
 end belongs to the call: such a call changes nothing that anybody sees, so it may as well
 happen when the flag is cleared.
 */
module ServerMachine {
  import opened Messages
  import opened Entries

  /** A std::mutex and the thread that has it. */
  datatype Lock = Free | HeldByListener | HeldBySender

  /** A client connection; its number is its place in State.conns. */
  type ConnId = nat

  /** When a connection entered and left the sockets vector, counted in messages sent. */
  datatype Life = Accepted | Member(joinedAt: nat) | Left(joinedAt: nat, leftAt: nat)

  /** A socket object. `out` is what was written to it; `failed`, `life` and `replies` are history. */
  datatype Conn = Conn(
    fd: int,
    open: bool,
    failed: bool,
    life: Life,
    out: seq<Instance>,
    replies: seq<Instance>)

  /** What select() told the waiter, in the waiter's order of priority. */
  datatype Event = Timeout | KillSignal | Line(line: string) | ServerReady | SocketReady(conn: ConnId)

  /** `tested` says that the socket was found open, so that the next step is the system call. */
  datatype ListenerPc =
    // listen
    | LoopTest
    | ListenDone
    // flex_waiter::wait
    | BuildingSet(candidates: set<ConnId>)
    | WantKillEvent(poll: set<ConnId>)
    | InKillEvent(poll: set<ConnId>)
    | Selecting(poll: set<ConnId>)
    // onSTDIN and stop
    | OnLine(line: string)
    | StopWantSockets
    | StopClosing
    | StopWantKillEvent
    | StopInKillEvent
    // onSocketServer
    | Accepting
    | JoinWantSockets(conn: ConnId)
    | JoinPush(conn: ConnId)
    | JoinWatch(conn: ConnId)
    // onSocket
    | Reading(conn: ConnId, tested: bool)
    | GoneWantSockets(conn: ConnId)
    | GoneSearch(conn: ConnId)
    | GoneErase(conn: ConnId, at: nat)
    // visitLogin
    | CheckWantSockets(conn: ConnId, name: string, now: Time)
    | CheckName(conn: ConnId, name: string, now: Time)
    // onSocket, after the visit
    | Replying(conn: ConnId, name: string, response: Instance, tested: bool)
    | BindWantSockets(conn: ConnId, response: Instance)
    | Binding(conn: ConnId, response: Instance)
    | WantQueue(conn: ConnId, response: Instance)
    | Pushing(conn: ConnId, response: Instance)

  datatype SenderPc =
    | SendLoopTest
    | SendDone
    | SendWantQueue
    | SendTestQueue
    | NextMessage(message: nat)
    | MessageWantSockets(message: nat)
    | Writing(message: nat, socket: nat, tested: bool)

  datatype State = State(
    conns: seq<Conn>,
    descriptors: set<int>,
    sockets: seq<Entry<ConnId>>,
    watched: set<ConnId>,
    killEventFd: int,
    killPending: bool,
    messageQueue: seq<Instance>,
    killed: bool,
    queueHolder: Lock,
    socketsHolder: Lock,
    killHolder: Lock,
    listener: ListenerPc,
    sender: SenderPc,
    crashed: bool,
    log: seq<Instance>,
    cleared: nat)

  /** What the environment decides at a step. */
  datatype Choice =
    | Go
    | NewDescriptor(fd: int)
    | Polled(poll: set<ConnId>)
    | Selected(event: Event)
    | ReadNothing
    | ReadRequest(request: Instance, now: Time)
    | WriteFails

  datatype Action = Listen(choice: Choice) | Send(choice: Choice)

  /** stdin, stdout, stderr and the listening socket. */
  const BASE_DESCRIPTORS: set<int> := {0, 1, 2, 3}

  const INITIAL := State(
    [], BASE_DESCRIPTORS, [], {}, -1, false, [], false, Free, Free, Free, LoopTest, SendLoopTest, false, [], 0)

  // ---------------------------------------------------------------- listener

  predicate EventPossible(s: State, poll: set<ConnId>, e: Event) {
    match e
    case KillSignal => s.killPending
    case SocketReady(c) => c in poll
    case _ => true
  }

  predicate IsOpen(s: State, c: ConnId) {
    c < |s.conns| && s.conns[c].open
  }

  function OpenAmong(s: State, cs: set<ConnId>): set<ConnId> {
    set c | c in cs && IsOpen(s, c)
  }

  /** The system call of a write, which does not look at the flag again: it appends, or fails and clears the flag. */
  function Write(s: State, c: ConnId, r: Instance, ch: Choice): State
    requires c < |s.conns|
  {
    if ch.WriteFails? then s.(conns := s.conns[c := s.conns[c].(open := false, failed := true)])
    else s.(conns := s.conns[c := s.conns[c].(out := s.conns[c].out + [r])])
  }

  function Drained(pc: SenderPc): nat {
    if pc.NextMessage? || pc.MessageWantSockets? || pc.Writing? then pc.message else 0
  }

  /** How many messages have been written to every member there was. */
  function Sent(s: State): nat {
    s.cleared + Drained(s.sender)
  }

  // listen and flex_waiter::wait

  function TestLoop(s: State): State {
    s.(listener := if s.killed then ListenDone else BuildingSet(OpenAmong(s, s.watched)))
  }

  /** While the set is built the sender may still mark sockets closed, so a socket that was open at the
      start is in the set unless it was closed by the time it was looked at. */
  function FinishSet(s: State, poll: set<ConnId>): State {
    s.(listener := WantKillEvent(poll))
  }

  function LockKillEvent(s: State): State
    requires s.listener.WantKillEvent? || s.listener.StopWantKillEvent?
  {
    s.(killHolder := HeldByListener,
       listener := if s.listener.WantKillEvent? then InKillEvent(s.listener.poll) else StopInKillEvent)
  }

  function MakeKillEvent(s: State, ch: Choice): State
    requires s.listener.InKillEvent?
  {
    s.(killEventFd := if ch.NewDescriptor? then ch.fd else s.killEventFd,
       descriptors := if ch.NewDescriptor? then s.descriptors + {ch.fd} else s.descriptors,
       killHolder := Free,
       listener := Selecting(s.listener.poll))
  }

  function TakeEvent(s: State, e: Event): State {
    s.(killPending := s.killPending && !e.KillSignal?,
       listener := match e
                   case Line(line) => OnLine(line)
                   case ServerReady => Accepting
                   case SocketReady(c) => Reading(c, false)
                   case _ => LoopTest)
  }

  /** The mutex of the sockets vector, for stop, onSocketServer, onSocket and visitLogin. */
  function LockSockets(s: State): State
    requires WantsSockets(s.listener)
  {
    s.(socketsHolder := HeldByListener,
       listener := match s.listener
                   case StopWantSockets => StopClosing
                   case JoinWantSockets(c) => JoinPush(c)
                   case GoneWantSockets(c) => GoneSearch(c)
                   case CheckWantSockets(c, name, now) => CheckName(c, name, now)
                   case BindWantSockets(c, r) => Binding(c, r))
  }

  // onSTDIN, stop and flex_waiter::kill

  function HandleLine(s: State, line: string): State {
    s.(killed := s.killed || line == "exit",
       listener := if line == "exit" then StopWantSockets else LoopTest)
  }

  /** close() on every member: closes the descriptor of each open one. `sockets.empty()` after it does not
      change the vector. */
  function CloseAll(s: State): State {
    s.(conns := seq(|s.conns|, c requires 0 <= c < |s.conns| =>
                      if s.conns[c].life.Member? then s.conns[c].(open := false) else s.conns[c]),
       descriptors := s.descriptors
                      - set c | 0 <= c < |s.conns| && s.conns[c].life.Member? && s.conns[c].open :: s.conns[c].fd,
       listener := StopWantKillEvent)
  }

  function SignalKill(s: State): State {
    s.(killPending := s.killPending || s.killEventFd >= 0,
       killHolder := Free,
       socketsHolder := Free,
       listener := LoopTest)
  }

  // onSocketServer

  function Accept(s: State, fd: int): State {
    s.(conns := s.conns + [Conn(fd, true, false, Life.Accepted, [], [])],
       descriptors := s.descriptors + {fd},
       listener := JoinWantSockets(|s.conns|))
  }

  function PushSocket(s: State, c: ConnId): State
    requires c < |s.conns|
  {
    s.(sockets := s.sockets + [Entry(c, s.conns[c].fd, "")],
       conns := s.conns[c := s.conns[c].(life := Member(Sent(s)))],
       listener := JoinWatch(c))
  }

  function WatchSocket(s: State, c: ConnId): State {
    s.(watched := s.watched + {c}, socketsHolder := Free, listener := LoopTest)
  }

  // onSocket

  /** A closed socket makes read throw, which nobody catches. */
  function TestRead(s: State, c: ConnId): State {
    if IsOpen(s, c) then s.(listener := Reading(c, true)) else s.(crashed := true)
  }

  /** A read of nothing marks the socket closed; its descriptor stays open. */
  function ReadEnd(s: State, c: ConnId): State
    requires c < |s.conns|
  {
    s.(conns := s.conns[c := s.conns[c].(open := false)], listener := GoneWantSockets(c))
  }

  function Receive(s: State, c: ConnId, request: Instance, now: Time): State {
    s.(listener := if request.LoginRequest? then CheckWantSockets(c, request.from, now)
                   else if request.MessageRequest? then
                     WantQueue(c, MessageResponse(now, SERVER_SENDER, request.from, request.content))
                   else s.listener)
  }

  function SearchGone(s: State, c: ConnId): State
    requires c < |s.conns|
  {
    var at := Find(s.sockets, s.conns[c].fd);
    if at.Some? then s.(watched := s.watched - {c}, listener := GoneErase(c, at.value))
    else s.(socketsHolder := Free, listener := LoopTest)
  }

  function EraseSocket(s: State, c: ConnId, at: nat): State
    requires c < |s.conns| && at < |s.sockets| && s.conns[c].life.Member?
  {
    s.(sockets := EraseAt(s.sockets, at),
       conns := s.conns[c := s.conns[c].(life := Left(s.conns[c].life.joinedAt, Sent(s)))],
       socketsHolder := Free,
       listener := LoopTest)
  }

  /** visitLogin, from the lock on. */
  function VisitLogin(s: State, c: ConnId, name: string, now: Time): State
    requires c < |s.conns|
  {
    if NameInUse(s.sockets, name) then RefuseLogin(s, c, name, now) else AcceptLogin(s, c, name, now)
  }

  function AcceptLogin(s: State, c: ConnId, name: string, now: Time): State {
    s.(socketsHolder := Free, listener := BindWantSockets(c, LoginResponse(now, SERVER_SENDER, name)))
  }

  function RefuseLogin(s: State, c: ConnId, name: string, now: Time): State
    requires c < |s.conns|
  {
    s.(socketsHolder := Free,
       conns := s.conns[c := s.conns[c].(replies := s.conns[c].replies + [InUseReply(now)])],
       listener := Replying(c, name, InUseReply(now), false))
  }

  /** write throws for a closed socket, too. */
  function TestReply(s: State, c: ConnId, name: string, r: Instance): State {
    if IsOpen(s, c) then s.(listener := Replying(c, name, r, true)) else s.(crashed := true)
  }

  function Reply(s: State, c: ConnId, r: Instance, ch: Choice): State
    requires c < |s.conns|
  {
    Write(s, c, r, ch).(listener := LoopTest)
  }

  function BindName(s: State, c: ConnId, r: Instance): State
    requires c < |s.conns| && r.LoginResponse?
  {
    s.(sockets := Bind(s.sockets, s.conns[c].fd, r.joiningUsername),
       socketsHolder := Free,
       listener := WantQueue(c, r))
  }

  function LockQueue(s: State, c: ConnId, r: Instance): State {
    s.(queueHolder := HeldByListener, listener := Pushing(c, r))
  }

  function Push(s: State, r: Instance): State {
    s.(messageQueue := s.messageQueue + [r], log := s.log + [r], queueHolder := Free, listener := LoopTest)
  }

  predicate WantsSockets(l: ListenerPc) {
    l.StopWantSockets? || l.JoinWantSockets? || l.GoneWantSockets? || l.CheckWantSockets? || l.BindWantSockets?
  }

  /** The connection a handler works on is one there is. */
  predicate KnownConn(s: State) {
    match s.listener
    case JoinPush(c) => c < |s.conns|
    case Reading(c, tested) => tested ==> c < |s.conns|
    case Replying(c, _, _, tested) => tested ==> c < |s.conns|
    case GoneSearch(c) => c < |s.conns|
    case GoneErase(c, at) => c < |s.conns| && at < |s.sockets| && s.conns[c].life.Member?
    case CheckName(c, _, _) => c < |s.conns|
    case Binding(c, r) => c < |s.conns| && r.LoginResponse?
    case _ => true
  }

  /** What the listener needs, and what the environment may choose, at its next step. */
  predicate ListenerEnabled(s: State, ch: Choice) {
    KnownConn(s) &&
    match s.listener
    case ListenDone => false
    case BuildingSet(candidates) => ch.Polled? && OpenAmong(s, candidates) <= ch.poll <= candidates
    case WantKillEvent(_) => ch.Go? && s.killHolder.Free?
    case InKillEvent(_) =>
      if s.killEventFd == -1 then ch.NewDescriptor? && ch.fd >= 0 && ch.fd !in s.descriptors else ch.Go?
    case Selecting(poll) => ch.Selected? && EventPossible(s, poll, ch.event)
    case StopWantSockets => ch.Go? && s.socketsHolder.Free?
    case StopWantKillEvent => ch.Go? && s.killHolder.Free?
    case Accepting => ch.NewDescriptor? && ch.fd >= 0 && ch.fd !in s.descriptors
    case JoinWantSockets(_) => ch.Go? && s.socketsHolder.Free?
    case Reading(_, tested) =>
      if tested then ch.ReadNothing? || (ch.ReadRequest? && ch.request.IsRequest()) else ch.Go?
    case GoneWantSockets(_) => ch.Go? && s.socketsHolder.Free?
    case CheckWantSockets(_, _, _) => ch.Go? && s.socketsHolder.Free?
    case Replying(_, _, _, tested) => ch.Go? || (ch.WriteFails? && tested)
    case BindWantSockets(_, _) => ch.Go? && s.socketsHolder.Free?
    case WantQueue(_, _) => ch.Go? && s.queueHolder.Free?
    case _ => ch.Go?
  }

  function ListenerStep(s: State, ch: Choice): State
    requires ListenerEnabled(s, ch)
  {
    match s.listener
    case LoopTest => TestLoop(s)
    case BuildingSet(_) => FinishSet(s, ch.poll)
    case WantKillEvent(_) => LockKillEvent(s)
    case InKillEvent(_) => MakeKillEvent(s, ch)
    case Selecting(_) => TakeEvent(s, ch.event)
    case OnLine(line) => HandleLine(s, line)
    case StopWantSockets => LockSockets(s)
    case StopClosing => CloseAll(s)
    case StopWantKillEvent => LockKillEvent(s)
    case StopInKillEvent => SignalKill(s)
    case Accepting => Accept(s, ch.fd)
    case JoinWantSockets(_) => LockSockets(s)
    case JoinPush(c) => PushSocket(s, c)
    case JoinWatch(c) => WatchSocket(s, c)
    case Reading(c, tested) =>
      if !tested then TestRead(s, c)
      else if ch.ReadNothing? then ReadEnd(s, c)
      else Receive(s, c, ch.request, ch.now)
    case GoneWantSockets(_) => LockSockets(s)
    case GoneSearch(c) => SearchGone(s, c)
    case GoneErase(c, at) => EraseSocket(s, c, at)
    case CheckWantSockets(_, _, _) => LockSockets(s)
    case CheckName(c, name, now) => VisitLogin(s, c, name, now)
    case Replying(c, name, r, tested) => if tested then Reply(s, c, r, ch) else TestReply(s, c, name, r)
    case BindWantSockets(_, _) => LockSockets(s)
    case Binding(c, r) => BindName(s, c, r)
    case WantQueue(c, r) => LockQueue(s, c, r)
    case Pushing(_, r) => Push(s, r)
    case ListenDone => s
  }

  // sendMessages

  function TestSendLoop(s: State): State {
    s.(sender := if s.killed then SendDone else SendWantQueue)
  }

  function LockQueueToSend(s: State): State {
    s.(queueHolder := HeldBySender, sender := SendTestQueue)
  }

  function TestQueue(s: State): State {
    if s.messageQueue != [] then s.(sender := NextMessage(0)) else s.(queueHolder := Free, sender := SendLoopTest)
  }

  function StartMessage(s: State, i: nat): State {
    s.(sender := MessageWantSockets(i))
  }

  function ClearQueue(s: State): State {
    s.(cleared := s.cleared + |s.messageQueue|, messageQueue := [], queueHolder := Free, sender := SendLoopTest)
  }

  function LockSocketsToSend(s: State, i: nat): State {
    s.(socketsHolder := HeldBySender, sender := Writing(i, 0, false))
  }

  function TestWrite(s: State, i: nat, j: nat): State
    requires j < |s.sockets|
  {
    if IsOpen(s, s.sockets[j].conn) then s.(sender := Writing(i, j, true)) else s.(crashed := true)
  }

  function WriteNext(s: State, i: nat, j: nat, ch: Choice): State
    requires i < |s.messageQueue| && j < |s.sockets| && s.sockets[j].conn < |s.conns|
  {
    Write(s, s.sockets[j].conn, s.messageQueue[i], ch).(sender := Writing(i, j + 1, false))
  }

  function FinishMessage(s: State, i: nat): State {
    s.(socketsHolder := Free, sender := NextMessage(i + 1))
  }

  predicate SenderEnabled(s: State, ch: Choice) {
    match s.sender
    case SendDone => false
    case SendWantQueue => ch.Go? && s.queueHolder.Free?
    case MessageWantSockets(_) => ch.Go? && s.socketsHolder.Free?
    case Writing(i, j, tested) =>
      && i < |s.messageQueue| && (ch.Go? || (ch.WriteFails? && tested))
      && (tested ==> j < |s.sockets| && s.sockets[j].conn < |s.conns|)
    case _ => ch.Go?
  }

  function SenderStep(s: State, ch: Choice): State
    requires SenderEnabled(s, ch)
  {
    match s.sender
    case SendLoopTest => TestSendLoop(s)
    case SendWantQueue => LockQueueToSend(s)
    case SendTestQueue => TestQueue(s)
    case NextMessage(i) => if i < |s.messageQueue| then StartMessage(s, i) else ClearQueue(s)
    case MessageWantSockets(i) => LockSocketsToSend(s, i)
    case Writing(i, j, tested) =>
      if tested then WriteNext(s, i, j, ch) else if j < |s.sockets| then TestWrite(s, i, j) else FinishMessage(s, i)
    case SendDone => s
  }

  // -------------------------------------------------------------------- runs

  predicate Enabled(s: State, a: Action) {
    !s.crashed &&
    match a
    case Listen(ch) => ListenerEnabled(s, ch)
    case Send(ch) => SenderEnabled(s, ch)
  }

  function Next(s: State, a: Action): State
    requires Enabled(s, a)
  {
    match a
    case Listen(ch) => ListenerStep(s, ch)
    case Send(ch) => SenderStep(s, ch)
  }

  /** `acts` leads through `states`; nothing says where it starts. */
  ghost predicate IsRun(states: seq<State>, acts: seq<Action>) {
    |states| == |acts| + 1 && forall k :: 0 <= k < |acts| ==> StepAt(states, acts, k)
  }

  ghost predicate StepAt(states: seq<State>, acts: seq<Action>, k: nat)
    requires k < |acts| && |states| == |acts| + 1
  {
    Enabled(states[k], acts[k]) && states[k + 1] == Next(states[k], acts[k])
  }

  /** A run of the program: it starts where start() has set both threads going. */
  ghost predicate IsProgramRun(states: seq<State>, acts: seq<Action>) {
    IsRun(states, acts) && states[0] == INITIAL
  }

  // -------------------------------------------------------- what was written

  /** The broadcasts among what was written to a socket. */
  function Broadcasts(out: seq<Instance>): seq<Instance> {
    if out == [] then []
    else
      var earlier := Broadcasts(out[..|out| - 1]);
      if out[|out| - 1].ErrorResponse? then earlier else earlier + [out[|out| - 1]]
  }

  /** The error replies among what was written to a socket. */
  function ErrorReplies(out: seq<Instance>): seq<Instance> {
    if out == [] then []
    else
      var earlier := ErrorReplies(out[..|out| - 1]);
      if out[|out| - 1].ErrorResponse? then earlier + [out[|out| - 1]] else earlier
  }
}
