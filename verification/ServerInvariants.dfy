/** What every step of either thread keeps. */
module ServerInvariants {
  import opened Messages
  import opened Entries
  import opened ServerMachine

  // ------------------------------------------------------------------- locks

  predicate ListenerHoldsQueue(l: ListenerPc) {
    l.Pushing?
  }

  predicate ListenerHoldsSockets(l: ListenerPc) {
    || l.StopClosing? || l.StopWantKillEvent? || l.StopInKillEvent?
    || l.JoinPush? || l.JoinWatch? || l.GoneSearch? || l.GoneErase? || l.CheckName? || l.Binding?
  }

  predicate ListenerHoldsKill(l: ListenerPc) {
    l.InKillEvent? || l.StopInKillEvent?
  }

  predicate SenderHoldsQueue(p: SenderPc) {
    !p.SendLoopTest? && !p.SendDone? && !p.SendWantQueue?
  }

  predicate SenderHoldsSockets(p: SenderPc) {
    p.Writing?
  }

  function HolderOf(listener: bool, sender: bool): Lock {
    if listener then HeldByListener else if sender then HeldBySender else Free
  }

  /** The owner of each mutex is read off the program counters, and there is at most one. */
  predicate LockInv(s: State) {
    && s.queueHolder == HolderOf(ListenerHoldsQueue(s.listener), SenderHoldsQueue(s.sender))
    && s.socketsHolder == HolderOf(ListenerHoldsSockets(s.listener), SenderHoldsSockets(s.sender))
    && s.killHolder == HolderOf(ListenerHoldsKill(s.listener), false)
    && !(ListenerHoldsQueue(s.listener) && SenderHoldsQueue(s.sender))
    && !(ListenerHoldsSockets(s.listener) && SenderHoldsSockets(s.sender))
  }

  // ------------------------------------------- connections, vector and index
  // Each part of the invariant is a predicate of the data it speaks of, so that a step which leaves that
  // data alone keeps it, and says what it says one index at a time.

  predicate MemberOf(conns: seq<Conn>, c: ConnId) {
    c < |conns| && conns[c].life.Member?
  }

  function DescriptorsOf(conns: seq<Conn>): set<int> {
    set c | 0 <= c < |conns| :: conns[c].fd
  }

  /** Until stop() the open descriptors are exactly all those ever handed out. */
  predicate DescriptorInv(conns: seq<Conn>, descriptors: set<int>, killEventFd: int, killed: bool) {
    && (forall c :: 0 <= c < |conns| ==> OwnDescriptor(conns, c))
    && (!killed ==> descriptors == BASE_DESCRIPTORS + DescriptorsOf(conns)
                                   + if killEventFd == -1 then {} else {killEventFd})
  }

  predicate OwnDescriptor(conns: seq<Conn>, c: ConnId)
    requires c < |conns|
  {
    forall d :: 0 <= d < |conns| && d != c ==> conns[d].fd != conns[c].fd
  }

  /** The vector lists the members, each once, under its own descriptor. */
  predicate SocketsInv(conns: seq<Conn>, sockets: seq<Entry<ConnId>>) {
    && (forall k :: 0 <= k < |sockets| ==> SeatInv(conns, sockets, k))
    && (forall c {:trigger Seated(sockets, c)} :: 0 <= c < |conns| && conns[c].life.Member? ==> Seated(sockets, c))
  }

  predicate SeatInv(conns: seq<Conn>, sockets: seq<Entry<ConnId>>, k: nat)
    requires k < |sockets|
  {
    && MemberOf(conns, sockets[k].conn)
    && conns[sockets[k].conn].fd == sockets[k].fd
    && (forall l :: 0 <= l < |sockets| && l != k ==> sockets[l].conn != sockets[k].conn)
  }

  predicate Seated(sockets: seq<Entry<ConnId>>, c: ConnId) {
    exists k :: 0 <= k < |sockets| && sockets[k].conn == c
  }

  /** The connection that is in one of the vector and the waiter's set, but not in both; -1 if there is none. */
  function InTransit(l: ListenerPc): int {
    if l.JoinWatch? || l.GoneErase? then l.conn else -1
  }

  predicate WatchInv(conns: seq<Conn>, watched: set<ConnId>, transit: int) {
    && (forall c :: c in watched ==> MemberOf(conns, c) && c != transit)
    && (forall c {:trigger c in watched} :: 0 <= c < |conns| && conns[c].life.Member? && c != transit ==> c in watched)
  }

  // ------------------------------------------------------------------- names

  predicate UniqueNames(es: seq<Entry<ConnId>>) {
    forall k :: 0 <= k < |es| ==> UniqueName(es, k)
  }

  predicate UniqueName(es: seq<Entry<ConnId>>, k: nat)
    requires k < |es|
  {
    es[k].name != "" ==> forall l :: 0 <= l < |es| && l != k ==> es[l].name != es[k].name
  }

  predicate HoldsName(es: seq<Entry<ConnId>>, c: ConnId, name: string) {
    forall k :: 0 <= k < |es| && es[k].conn == c ==> es[k].name == name
  }

  // -------------------------------------------------- the listener's own data

  /** The connection a handler works on, and what is known of it there. */
  predicate PcInv(l: ListenerPc, conns: seq<Conn>, sockets: seq<Entry<ConnId>>) {
    match l
    case BuildingSet(poll) => PollInv(conns, poll)
    case WantKillEvent(poll) => PollInv(conns, poll)
    case InKillEvent(poll) => PollInv(conns, poll)
    case Selecting(poll) => PollInv(conns, poll)
    case JoinWantSockets(c) => Newcomer(conns, c)
    case JoinPush(c) => Newcomer(conns, c)
    case JoinWatch(c) => MemberOf(conns, c)
    case Reading(c, _) => MemberOf(conns, c)
    case GoneWantSockets(c) => Gone(conns, c)
    case GoneSearch(c) => Gone(conns, c)
    case GoneErase(c, at) => Gone(conns, c) && at < |sockets| && sockets[at].conn == c
    case CheckWantSockets(c, _, _) => MemberOf(conns, c)
    case CheckName(c, _, _) => MemberOf(conns, c)
    case Replying(c, name, r, tested) =>
      && MemberOf(conns, c) && r.ErrorResponse? && NameInUse(sockets, name)
      && (tested ==> conns[c].replies == ErrorReplies(conns[c].out) + [r])
    case BindWantSockets(c, r) => MemberOf(conns, c) && r.LoginResponse? && !NameInUse(sockets, r.joiningUsername)
    case Binding(c, r) => MemberOf(conns, c) && r.LoginResponse? && !NameInUse(sockets, r.joiningUsername)
    case WantQueue(c, r) => MemberOf(conns, c) && Announceable(sockets, c, r)
    case Pushing(c, r) => MemberOf(conns, c) && Announceable(sockets, c, r)
    case _ => true
  }

  predicate PollInv(conns: seq<Conn>, poll: set<ConnId>) {
    forall c :: c in poll ==> MemberOf(conns, c)
  }

  predicate Newcomer(conns: seq<Conn>, c: ConnId) {
    c < |conns| && conns[c].life.Accepted?
  }

  predicate Gone(conns: seq<Conn>, c: ConnId) {
    MemberOf(conns, c) && !conns[c].open
  }

  /** The listener has read the end of this client and is about to take it out of the vector. */
  predicate Leaving(l: ListenerPc, c: ConnId) {
    (l.GoneWantSockets? || l.GoneSearch? || l.GoneErase?) && l.conn == c
  }

  predicate Announceable(sockets: seq<Entry<ConnId>>, c: ConnId, r: Instance) {
    r.MessageResponse? || (r.LoginResponse? && HoldsName(sockets, c, r.joiningUsername))
  }

  // -------------------------------------------------------------------- stop

  predicate StopPc(l: ListenerPc) {
    l.StopWantSockets? || l.StopClosing? || l.StopWantKillEvent? || l.StopInKillEvent?
  }

  /** The member that the sender has found open and is about to write to; -1 if there is none. */
  function Target(p: SenderPc): int {
    if p.Writing? && p.tested then p.socket else -1
  }

  predicate StopInv(killed: bool, l: ListenerPc, p: SenderPc) {
    && (HasClosed(killed, l) ==> Target(p) == -1)
    && (killed ==> StopPc(l) || l.LoopTest? || l.ListenDone?)
    && (!killed ==> !StopPc(l) && !l.ListenDone? && !p.SendDone?)
  }

  /** stop() has closed the sockets. */
  predicate HasClosed(killed: bool, l: ListenerPc) {
    killed && !l.StopWantSockets? && !l.StopClosing?
  }

  predicate ClosedInv(conns: seq<Conn>, closed: bool) {
    closed ==> forall c :: 0 <= c < |conns| ==> ClosedConn(conns, c)
  }

  predicate ClosedConn(conns: seq<Conn>, c: ConnId)
    requires c < |conns|
  {
    conns[c].life.Member? ==> !conns[c].open
  }

  // ---------------------------------------------------------------- delivery

  predicate SegmentOf(b: seq<Instance>, log: seq<Instance>, at: nat) {
    at + |b| <= |log| && b == log[at..at + |b|]
  }

  predicate QueueInv(log: seq<Instance>, cleared: nat, queue: seq<Instance>) {
    && cleared <= |log|
    && queue == log[cleared..]
    && (forall t :: 0 <= t < |log| ==> !log[t].ErrorResponse?)
  }

  predicate SenderInv(p: SenderPc, queue: nat, sockets: nat) {
    && Drained(p) <= queue
    && (p.MessageWantSockets? || p.Writing? ==> p.message < queue)
    && (p.Writing? ==> p.socket <= sockets)
    && Target(p) < sockets
  }

  /** How many members already have the message being sent. */
  function Served(p: SenderPc): nat {
    if p.Writing? then p.socket else 0
  }

  /** Member connection: everything sent since it joined, up to `end`, unless a write to it failed. */
  predicate ReceivedUpTo(conn: Conn, log: seq<Instance>, sent: nat, end: nat) {
    var b := Broadcasts(conn.out);
    && conn.life.Member?
    && conn.life.joinedAt <= sent
    && SegmentOf(b, log, conn.life.joinedAt)
    && conn.life.joinedAt + |b| <= end
    && (!conn.failed ==> conn.life.joinedAt + |b| == end)
  }

  /** The first `served` members also have the message being sent. */
  predicate MemberInv(conns: seq<Conn>, sockets: seq<Entry<ConnId>>, log: seq<Instance>, sent: nat, served: nat, k: nat)
    requires k < |sockets|
  {
    sockets[k].conn < |conns| &&
    ReceivedUpTo(conns[sockets[k].conn], log, sent, if k < served then sent + 1 else sent)
  }

  predicate MembersInv(conns: seq<Conn>, sockets: seq<Entry<ConnId>>, log: seq<Instance>, sent: nat, served: nat) {
    forall k :: 0 <= k < |sockets| ==> MemberInv(conns, sockets, log, sent, served, k)
  }

  /** The member that is about to be written to has every message before this one, even if it is closed meanwhile. */
  predicate TargetInv(conns: seq<Conn>, sockets: seq<Entry<ConnId>>, sent: nat, target: int) {
    0 <= target < |sockets| ==> UpToDate(conns, sockets[target].conn, sent)
  }

  predicate UpToDate(conns: seq<Conn>, c: ConnId, sent: nat) {
    MemberOf(conns, c) && conns[c].life.joinedAt + |Broadcasts(conns[c].out)| == sent
  }

  /** What a connection outside the vector has received: nothing yet, or everything sent while it was in it, unless a
      write to it failed. */
  predicate OutsiderInv(conns: seq<Conn>, log: seq<Instance>, sent: nat, c: ConnId)
    requires c < |conns|
  {
    var conn := conns[c];
    match conn.life
    case Accepted => conn.out == [] && conn.replies == [] && !conn.failed
    case Left(joined, left) =>
      && joined <= left <= sent
      && SegmentOf(Broadcasts(conn.out), log, joined)
      && joined + |Broadcasts(conn.out)| <= left
      && (!conn.failed ==> joined + |Broadcasts(conn.out)| == left)
      && !conn.open
    case Member(_) => true
  }

  predicate OutsidersInv(conns: seq<Conn>, log: seq<Instance>, sent: nat) {
    forall c :: 0 <= c < |conns| ==> OutsiderInv(conns, log, sent, c)
  }

  // ----------------------------------------------------------------- replies

  /** A reply that has been decided on but not yet written. */
  datatype Debt = Nothing | Owes(conn: ConnId, response: Instance)

  function Owed(l: ListenerPc): Debt {
    if l.Replying? then Owes(l.conn, l.response) else Nothing
  }

  predicate RepliesInv(conns: seq<Conn>, owed: Debt, c: ConnId)
    requires c < |conns|
  {
    var written := ErrorReplies(conns[c].out);
    && (conns[c].failed ==>
          !conns[c].open && |written| <= |conns[c].replies| && written == conns[c].replies[..|written|])
    && (!conns[c].failed ==>
          conns[c].replies == if owed.Owes? && owed.conn == c then written + [owed.response] else written)
  }

  predicate ReplyInv(conns: seq<Conn>, owed: Debt) {
    forall c :: 0 <= c < |conns| ==> RepliesInv(conns, owed, c)
  }

  // --------------------------------------------------------------- altogether

  predicate Inv(s: State) {
    && LockInv(s)
    && DescriptorInv(s.conns, s.descriptors, s.killEventFd, s.killed)
    && SocketsInv(s.conns, s.sockets)
    && WatchInv(s.conns, s.watched, InTransit(s.listener))
    && UniqueNames(s.sockets)
    && PcInv(s.listener, s.conns, s.sockets)
    && StopInv(s.killed, s.listener, s.sender)
    && ClosedInv(s.conns, HasClosed(s.killed, s.listener))
    && QueueInv(s.log, s.cleared, s.messageQueue)
    && SenderInv(s.sender, |s.messageQueue|, |s.sockets|)
    && MembersInv(s.conns, s.sockets, s.log, Sent(s), Served(s.sender))
    && TargetInv(s.conns, s.sockets, Sent(s), Target(s.sender))
    && OutsidersInv(s.conns, s.log, Sent(s))
    && ReplyInv(s.conns, Owed(s.listener))
  }

  // ------------------------------------------------------- small steps of proof

  lemma BroadcastsSnoc(out: seq<Instance>, r: Instance)
    ensures Broadcasts(out + [r]) == if r.ErrorResponse? then Broadcasts(out) else Broadcasts(out) + [r]
    ensures ErrorReplies(out + [r]) == if r.ErrorResponse? then ErrorReplies(out) + [r] else ErrorReplies(out)
  {
    assert (out + [r])[..|out + [r]| - 1] == out;
  }

  /** The descriptors and the membership of all connections are as before. */
  predicate SameShape(a: seq<Conn>, b: seq<Conn>) {
    |a| == |b| && forall c :: 0 <= c < |a| ==> a[c].fd == b[c].fd && a[c].life == b[c].life
  }

  lemma ShapeKept(s: State, b: seq<Conn>)
    requires SameShape(s.conns, b)
    requires DescriptorInv(s.conns, s.descriptors, s.killEventFd, s.killed)
    requires SocketsInv(s.conns, s.sockets)
    requires WatchInv(s.conns, s.watched, InTransit(s.listener))
    ensures DescriptorInv(b, s.descriptors, s.killEventFd, s.killed)
    ensures SocketsInv(b, s.sockets)
    ensures WatchInv(b, s.watched, InTransit(s.listener))
  {
    SameFdsKept(s, b);
    forall k | 0 <= k < |s.sockets| ensures SeatInv(b, s.sockets, k) {
      assert SeatInv(s.conns, s.sockets, k);
    }
    forall c | 0 <= c < |b| && b[c].life.Member? ensures Seated(s.sockets, c) {
    }
  }

  lemma SameFdsKept(s: State, b: seq<Conn>)
    requires DescriptorInv(s.conns, s.descriptors, s.killEventFd, s.killed)
    requires |s.conns| == |b| && forall c :: 0 <= c < |b| ==> s.conns[c].fd == b[c].fd
    ensures DescriptorInv(b, s.descriptors, s.killEventFd, s.killed)
  {
    SameDescriptors(s.conns, b);
    forall c | 0 <= c < |b| ensures OwnDescriptor(b, c) {
      assert OwnDescriptor(s.conns, c);
    }
  }

  lemma SameDescriptors(a: seq<Conn>, b: seq<Conn>)
    requires |a| == |b| && forall c :: 0 <= c < |a| ==> a[c].fd == b[c].fd
    ensures DescriptorsOf(a) == DescriptorsOf(b)
  {
  }

  /** Replacing one connection by one that has received the same broadcasts. */
  lemma ConnKept(conns: seq<Conn>, sockets: seq<Entry<ConnId>>, log: seq<Instance>, sent: nat, served: nat,
                 c: ConnId, conn: Conn)
    requires MembersInv(conns, sockets, log, sent, served) && OutsidersInv(conns, log, sent)
    requires c < |conns| && conn.life.Member?
    requires conns[c].life == conn.life && Broadcasts(conns[c].out) == Broadcasts(conn.out)
    requires conns[c].failed ==> conn.failed
    ensures MembersInv(conns[c := conn], sockets, log, sent, served)
    ensures OutsidersInv(conns[c := conn], log, sent)
  {
    OutsidersKept(conns, log, sent, c, conn);
    var b := conns[c := conn];
    forall k | 0 <= k < |sockets| ensures MemberInv(b, sockets, log, sent, served, k) {
      assert MemberInv(conns, sockets, log, sent, served, k);
    }
  }

  lemma OutsidersKept(conns: seq<Conn>, log: seq<Instance>, sent: nat, c: ConnId, conn: Conn)
    requires OutsidersInv(conns, log, sent) && c < |conns| && conn.life.Member?
    ensures OutsidersInv(conns[c := conn], log, sent)
  {
    var b := conns[c := conn];
    forall d | 0 <= d < |b| ensures OutsiderInv(b, log, sent, d) {
      assert OutsiderInv(conns, log, sent, d);
    }
  }

  lemma RepliesKept(conns: seq<Conn>, before: Debt, after: Debt, c: ConnId, conn: Conn)
    requires ReplyInv(conns, before) && c < |conns|
    requires before == after || ((before.Owes? ==> before.conn == c) && (after.Owes? ==> after.conn == c))
    requires RepliesInv(conns, before, c) ==> RepliesInv(conns[c := conn], after, c)
    ensures ReplyInv(conns[c := conn], after)
  {
    var b := conns[c := conn];
    forall d | 0 <= d < |b| ensures RepliesInv(b, after, d) {
      assert RepliesInv(conns, before, d);
    }
  }

  /** A replacement that the delivery of broadcasts does not notice. */
  predicate Alike(before: Conn, after: Conn) {
    && after.fd == before.fd && after.life == before.life && after.life.Member?
    && Broadcasts(after.out) == Broadcasts(before.out)
    && (before.failed ==> after.failed) && (after.open ==> before.open)
  }

  /** The parts of the invariant that speak of the connections. */
  predicate ConnsInv(s: State, b: seq<Conn>, owed: Debt) {
    && DescriptorInv(b, s.descriptors, s.killEventFd, s.killed)
    && SocketsInv(b, s.sockets)
    && WatchInv(b, s.watched, InTransit(s.listener))
    && ClosedInv(b, HasClosed(s.killed, s.listener))
    && MembersInv(b, s.sockets, s.log, Sent(s), Served(s.sender))
    && TargetInv(b, s.sockets, Sent(s), Target(s.sender))
    && OutsidersInv(b, s.log, Sent(s))
    && ReplyInv(b, owed)
  }

  lemma AlikeKept(s: State, owed: Debt, c: ConnId, conn: Conn)
    requires ConnsInv(s, s.conns, Owed(s.listener)) && c < |s.conns| && Alike(s.conns[c], conn)
    requires var before := Owed(s.listener);
             before == owed || ((before.Owes? ==> before.conn == c) && (owed.Owes? ==> owed.conn == c))
    requires RepliesInv(s.conns[c := conn], owed, c)
    ensures ConnsInv(s, s.conns[c := conn], owed)
  {
    ShapeKept(s, s.conns[c := conn]);
    ClosedKept(s.conns, HasClosed(s.killed, s.listener), c, conn);
    ConnKept(s.conns, s.sockets, s.log, Sent(s), Served(s.sender), c, conn);
    RepliesKept(s.conns, Owed(s.listener), owed, c, conn);
  }

  /** A step of the listener in onSocket that replaces connections. */
  lemma HandlerStepKeeps(s: State, l: ListenerPc, holder: Lock, b: seq<Conn>)
    requires Inv(s) && ConnsInv(s, b, Owed(l)) && PcInv(l, b, s.sockets)
    requires LockInv(s.(listener := l, socketsHolder := holder))
    requires !StopPc(s.listener) && !s.listener.LoopTest? && !s.listener.ListenDone? && !StopPc(l) && !l.ListenDone?
    requires InTransit(l) == InTransit(s.listener)
    ensures Inv(s.(conns := b, listener := l, socketsHolder := holder))
  {
  }

  lemma ClosedKept(conns: seq<Conn>, closed: bool, c: ConnId, conn: Conn)
    requires ClosedInv(conns, closed) && c < |conns| && conns[c].life == conn.life && (conn.open ==> conns[c].open)
    ensures ClosedInv(conns[c := conn], closed)
  {
    var b := conns[c := conn];
    forall d | 0 <= d < |b| && closed ensures ClosedConn(b, d) {
      assert ClosedConn(conns, d);
    }
  }

  lemma InitialInv()
    ensures Inv(INITIAL)
  {
  }

  lemma TestLoopKeeps(s: State)
    requires Inv(s) && s.listener.LoopTest?
    ensures Inv(TestLoop(s))
  {
  }

  lemma FinishSetKeeps(s: State, poll: set<ConnId>)
    requires Inv(s) && s.listener.BuildingSet? && poll <= s.listener.candidates
    ensures Inv(FinishSet(s, poll))
  {
  }

  lemma LockKillEventKeeps(s: State)
    requires Inv(s) && (s.listener.WantKillEvent? || s.listener.StopWantKillEvent?) && s.killHolder.Free?
    ensures Inv(LockKillEvent(s))
  {
  }

  lemma MakeKillEventKeeps(s: State, ch: Choice)
    requires Inv(s) && s.listener.InKillEvent? && ListenerEnabled(s, ch)
    ensures Inv(MakeKillEvent(s, ch))
  {
  }

  lemma TakeEventKeeps(s: State, e: Event)
    requires Inv(s) && s.listener.Selecting? && EventPossible(s, s.listener.poll, e)
    ensures Inv(TakeEvent(s, e))
  {
  }

  lemma LockSocketsKeeps(s: State)
    requires Inv(s) && WantsSockets(s.listener) && s.socketsHolder.Free?
    ensures Inv(LockSockets(s))
  {
  }

  lemma HandleLineKeeps(s: State, line: string)
    requires Inv(s) && s.listener.OnLine?
    ensures Inv(HandleLine(s, line))
  {
  }

  lemma CloseAllKeeps(s: State)
    requires Inv(s) && s.listener.StopClosing?
    ensures Inv(CloseAll(s))
  {
    var b := CloseAll(s).conns;
    ShapeKept(s, b);
    forall c | 0 <= c < |b|
      ensures ClosedConn(b, c) && OutsiderInv(b, s.log, Sent(s), c) && RepliesInv(b, Nothing, c)
    {
      assert OutsiderInv(s.conns, s.log, Sent(s), c) && RepliesInv(s.conns, Nothing, c);
    }
    forall k | 0 <= k < |s.sockets| ensures MemberInv(b, s.sockets, s.log, Sent(s), 0, k) {
      assert MemberInv(s.conns, s.sockets, s.log, Sent(s), 0, k);
    }
  }

  lemma SignalKillKeeps(s: State)
    requires Inv(s) && s.listener.StopInKillEvent?
    ensures Inv(SignalKill(s))
  {
  }

  lemma NewcomerDescriptors(conns: seq<Conn>, conn: Conn)
    ensures DescriptorsOf(conns + [conn]) == DescriptorsOf(conns) + {conn.fd}
  {
    var b := conns + [conn];
    forall fd | fd in DescriptorsOf(conns) ensures fd in DescriptorsOf(b) {
      var c :| 0 <= c < |conns| && conns[c].fd == fd;
      assert b[c].fd == fd;
    }
    assert b[|conns|].fd == conn.fd;
  }

  lemma NewcomerKept(s: State, conn: Conn)
    requires Inv(s) && s.listener.Accepting?
    requires conn.life.Accepted? && conn.fd !in s.descriptors && conn.out == [] && conn.replies == [] && !conn.failed
    ensures DescriptorInv(s.conns + [conn], s.descriptors + {conn.fd}, s.killEventFd, s.killed)
    ensures SocketsInv(s.conns + [conn], s.sockets)
    ensures WatchInv(s.conns + [conn], s.watched, -1)
    ensures MembersInv(s.conns + [conn], s.sockets, s.log, Sent(s), Served(s.sender))
    ensures OutsidersInv(s.conns + [conn], s.log, Sent(s))
    ensures ReplyInv(s.conns + [conn], Nothing)
  {
    NewcomerDescriptors(s.conns, conn);
    var b := s.conns + [conn];
    forall c | 0 <= c < |s.conns|
      ensures OwnDescriptor(b, c) && OutsiderInv(b, s.log, Sent(s), c) && RepliesInv(b, Nothing, c)
    {
      assert s.conns[c].fd in DescriptorsOf(s.conns);
      assert OwnDescriptor(s.conns, c) && OutsiderInv(s.conns, s.log, Sent(s), c) && RepliesInv(s.conns, Nothing, c);
    }
    forall d | 0 <= d < |s.conns| ensures b[d].fd != conn.fd {
      assert s.conns[d].fd in DescriptorsOf(s.conns);
    }
    assert OwnDescriptor(b, |s.conns|);
    forall k | 0 <= k < |s.sockets|
      ensures SeatInv(b, s.sockets, k) && MemberInv(b, s.sockets, s.log, Sent(s), Served(s.sender), k)
    {
      assert SeatInv(s.conns, s.sockets, k);
      assert MemberInv(s.conns, s.sockets, s.log, Sent(s), Served(s.sender), k);
    }
    forall a | 0 <= a < |b| && b[a].life.Member? ensures Seated(s.sockets, a) {
    }
  }

  lemma AcceptKeeps(s: State, fd: int)
    requires Inv(s) && s.listener.Accepting? && fd !in s.descriptors
    ensures Inv(Accept(s, fd))
  {
    var conn := Conn(fd, true, false, Life.Accepted, [], []);
    NewcomerKept(s, conn);
  }

  lemma JoinedVector(s: State, c: ConnId)
    requires Inv(s) && s.listener == JoinPush(c)
    ensures
      var s' := PushSocket(s, c);
      && DescriptorInv(s'.conns, s'.descriptors, s'.killEventFd, s'.killed)
      && SocketsInv(s'.conns, s'.sockets)
      && WatchInv(s'.conns, s'.watched, c)
      && UniqueNames(s'.sockets)
  {
    var b := s.conns[c := s.conns[c].(life := Member(Sent(s)))];
    var es := s.sockets + [Entry(c, s.conns[c].fd, "")];
    SameFdsKept(s, b);
    forall k | 0 <= k < |s.sockets| ensures SeatInv(b, es, k) && UniqueName(es, k) {
      assert SeatInv(s.conns, s.sockets, k);
      assert UniqueName(s.sockets, k);
    }
    forall k | 0 <= k < |s.sockets| ensures s.sockets[k].conn != c {
      assert SeatInv(s.conns, s.sockets, k);
    }
    assert SeatInv(b, es, |s.sockets|) && UniqueName(es, |s.sockets|);
    forall a | 0 <= a < |b| && b[a].life.Member? ensures Seated(es, a) {
      if a == c {
        assert es[|s.sockets|].conn == a;
      } else {
        assert Seated(s.sockets, a);
        var k :| 0 <= k < |s.sockets| && s.sockets[k].conn == a;
        assert es[k].conn == a;
      }
    }
  }

  lemma JoinedDelivery(s: State, c: ConnId)
    requires Inv(s) && s.listener == JoinPush(c)
    ensures
      var s' := PushSocket(s, c);
      && MembersInv(s'.conns, s'.sockets, s.log, Sent(s), 0)
      && OutsidersInv(s'.conns, s.log, Sent(s))
      && ReplyInv(s'.conns, Nothing)
  {
    var conn := s.conns[c].(life := Member(Sent(s)));
    var b := s.conns[c := conn];
    var es := s.sockets + [Entry(c, s.conns[c].fd, "")];
    assert OutsiderInv(s.conns, s.log, Sent(s), c);
    forall k | 0 <= k < |es| ensures MemberInv(b, es, s.log, Sent(s), 0, k) {
      if k < |s.sockets| {
        assert es[k] == s.sockets[k];
        assert SeatInv(s.conns, s.sockets, k);
        assert MemberInv(s.conns, s.sockets, s.log, Sent(s), 0, k);
      }
    }
    OutsidersKept(s.conns, s.log, Sent(s), c, conn);
    RepliesKept(s.conns, Nothing, Nothing, c, conn);
  }

  lemma PushSocketKeeps(s: State)
    requires Inv(s) && s.listener.JoinPush?
    ensures Inv(PushSocket(s, s.listener.conn))
  {
    var c := s.listener.conn;
    JoinedVector(s, c);
    JoinedDelivery(s, c);
  }

  lemma WatchSocketKeeps(s: State)
    requires Inv(s) && s.listener.JoinWatch?
    ensures Inv(WatchSocket(s, s.listener.conn))
  {
  }

  lemma ReadEndKeeps(s: State)
    requires Inv(s) && s.listener.Reading?
    ensures Inv(ReadEnd(s, s.listener.conn))
  {
    var c := s.listener.conn;
    var conn := s.conns[c].(open := false);
    assert RepliesInv(s.conns, Nothing, c);
    AlikeKept(s, Nothing, c, conn);
    HandlerStepKeeps(s, GoneWantSockets(c), s.socketsHolder, s.conns[c := conn]);
  }

  lemma ReceiveKeeps(s: State, request: Instance, now: Time)
    requires Inv(s) && s.listener.Reading? && request.IsRequest()
    ensures Inv(Receive(s, s.listener.conn, request, now))
  {
  }

  /** The search by descriptor finds the connection that was read from. */
  lemma SearchFinds(conns: seq<Conn>, sockets: seq<Entry<ConnId>>, c: ConnId)
    requires SocketsInv(conns, sockets) && MemberOf(conns, c) && OwnDescriptor(conns, c)
    ensures Find(sockets, conns[c].fd).Some? && sockets[Find(sockets, conns[c].fd).value].conn == c
  {
    assert Seated(sockets, c);
    var k :| 0 <= k < |sockets| && sockets[k].conn == c;
    assert SeatInv(conns, sockets, k);
    assert SeatInv(conns, sockets, Find(sockets, conns[c].fd).value);
  }

  lemma SearchGoneKeeps(s: State)
    requires Inv(s) && s.listener.GoneSearch?
    ensures Inv(SearchGone(s, s.listener.conn))
  {
    assert OwnDescriptor(s.conns, s.listener.conn);
    SearchFinds(s.conns, s.sockets, s.listener.conn);
  }

  lemma ErasedVector(s: State, c: ConnId, at: nat)
    requires Inv(s) && s.listener == GoneErase(c, at)
    ensures
      var s' := EraseSocket(s, c, at);
      && DescriptorInv(s'.conns, s'.descriptors, s'.killEventFd, s'.killed)
      && SocketsInv(s'.conns, s'.sockets)
      && WatchInv(s'.conns, s'.watched, -1)
      && UniqueNames(s'.sockets)
  {
    var b := s.conns[c := s.conns[c].(life := Left(s.conns[c].life.joinedAt, Sent(s)))];
    var es := EraseAt(s.sockets, at);
    SameFdsKept(s, b);
    assert SeatInv(s.conns, s.sockets, at);
    forall k | 0 <= k < |es| ensures SeatInv(b, es, k) && UniqueName(es, k) {
      assert es[k] == s.sockets[if k < at then k else k + 1];
      assert SeatInv(s.conns, s.sockets, if k < at then k else k + 1);
      assert UniqueName(s.sockets, if k < at then k else k + 1);
    }
    forall a | 0 <= a < |b| && b[a].life.Member? ensures Seated(es, a) {
      assert Seated(s.sockets, a);
      var k :| 0 <= k < |s.sockets| && s.sockets[k].conn == a;
      assert es[if k < at then k else k - 1].conn == a;
    }
  }

  lemma ErasedDelivery(s: State, c: ConnId, at: nat)
    requires Inv(s) && s.listener == GoneErase(c, at)
    ensures
      var s' := EraseSocket(s, c, at);
      && MembersInv(s'.conns, s'.sockets, s.log, Sent(s), 0)
      && OutsidersInv(s'.conns, s.log, Sent(s))
      && ReplyInv(s'.conns, Nothing)
  {
    var b := s.conns[c := s.conns[c].(life := Left(s.conns[c].life.joinedAt, Sent(s)))];
    var es := EraseAt(s.sockets, at);
    assert SeatInv(s.conns, s.sockets, at);
    assert MemberInv(s.conns, s.sockets, s.log, Sent(s), 0, at);
    forall k | 0 <= k < |es| ensures MemberInv(b, es, s.log, Sent(s), 0, k) {
      assert es[k] == s.sockets[if k < at then k else k + 1];
      assert MemberInv(s.conns, s.sockets, s.log, Sent(s), 0, if k < at then k else k + 1);
    }
    forall d | 0 <= d < |b| ensures OutsiderInv(b, s.log, Sent(s), d) {
      assert OutsiderInv(s.conns, s.log, Sent(s), d);
    }
    RepliesKept(s.conns, Nothing, Nothing, c, b[c]);
  }

  lemma EraseSocketKeeps(s: State)
    requires Inv(s) && s.listener.GoneErase?
    ensures Inv(EraseSocket(s, s.listener.conn, s.listener.at))
  {
    var c, at := s.listener.conn, s.listener.at;
    ErasedVector(s, c, at);
    ErasedDelivery(s, c, at);
  }

  lemma VisitLoginKeeps(s: State)
    requires Inv(s) && s.listener.CheckName?
    ensures Inv(VisitLogin(s, s.listener.conn, s.listener.name, s.listener.now))
  {
    if NameInUse(s.sockets, s.listener.name) {
      RefuseLoginKeeps(s);
    } else {
      AcceptLoginKeeps(s);
    }
  }

  lemma RefusedAlike(conns: seq<Conn>, c: ConnId, reply: Instance, conn: Conn)
    requires MemberOf(conns, c) && conn == conns[c].(replies := conns[c].replies + [reply])
    requires RepliesInv(conns, Nothing, c)
    ensures Alike(conns[c], conn) && RepliesInv(conns[c := conn], Owes(c, reply), c)
  {
  }

  lemma RefuseLoginKeeps(s: State)
    requires Inv(s) && s.listener.CheckName? && NameInUse(s.sockets, s.listener.name)
    ensures Inv(RefuseLogin(s, s.listener.conn, s.listener.name, s.listener.now))
  {
    var c, reply := s.listener.conn, InUseReply(s.listener.now);
    var conn := s.conns[c].(replies := s.conns[c].replies + [reply]);
    assert RepliesInv(s.conns, Nothing, c);
    RefusedAlike(s.conns, c, reply, conn);
    AlikeKept(s, Owes(c, reply), c, conn);
    HandlerStepKeeps(s, Replying(c, s.listener.name, reply, false), Free, s.conns[c := conn]);
  }

  lemma AcceptLoginKeeps(s: State)
    requires Inv(s) && s.listener.CheckName? && !NameInUse(s.sockets, s.listener.name)
    ensures Inv(AcceptLogin(s, s.listener.conn, s.listener.name, s.listener.now))
  {
  }

  /** What a write makes of a socket: one more response, or a failure. */
  predicate WrittenTo(before: Conn, r: Instance, after: Conn) {
    after == before.(open := false, failed := true) || after == before.(out := before.out + [r])
  }

  lemma WrittenReplies(conns: seq<Conn>, owed: Debt, c: ConnId, r: Instance, conn: Conn)
    requires c < |conns| && WrittenTo(conns[c], r, conn)
    requires r.ErrorResponse? ==> owed == Owes(c, r) && conns[c].replies == ErrorReplies(conns[c].out) + [r]
    requires RepliesInv(conns, owed, c)
    ensures RepliesInv(conns[c := conn], if r.ErrorResponse? then Nothing else owed, c)
  {
    BroadcastsSnoc(conns[c].out, r);
  }

  /** What a write leaves of the socket. */
  function AfterWrite(before: Conn, r: Instance, ch: Choice): (after: Conn)
    ensures WrittenTo(before, r, after)
  {
    if ch.WriteFails? then before.(open := false, failed := true) else before.(out := before.out + [r])
  }

  lemma WriteIs(s: State, c: ConnId, r: Instance, ch: Choice)
    requires c < |s.conns|
    ensures Write(s, c, r, ch) == s.(conns := s.conns[c := AfterWrite(s.conns[c], r, ch)])
  {
  }

  lemma ReplyKeeps(s: State, ch: Choice)
    requires Inv(s) && s.listener.Replying? && s.listener.tested
    ensures Inv(Reply(s, s.listener.conn, s.listener.response, ch))
  {
    var c, r := s.listener.conn, s.listener.response;
    WriteIs(s, c, r, ch);
    ReplyWritten(s, c, r, AfterWrite(s.conns[c], r, ch));
  }

  lemma ReplyAlike(conns: seq<Conn>, owed: Debt, c: ConnId, r: Instance, conn: Conn)
    requires MemberOf(conns, c) && r.ErrorResponse? && WrittenTo(conns[c], r, conn) && RepliesInv(conns, owed, c)
    requires owed == Owes(c, r) && conns[c].replies == ErrorReplies(conns[c].out) + [r]
    ensures Alike(conns[c], conn) && RepliesInv(conns[c := conn], Nothing, c)
  {
    BroadcastsSnoc(conns[c].out, r);
    WrittenReplies(conns, owed, c, r, conn);
  }

  lemma ReplyWritten(s: State, c: ConnId, r: Instance, conn: Conn)
    requires Inv(s) && s.listener.Replying? && s.listener.tested && s.listener.conn == c && s.listener.response == r
    requires WrittenTo(s.conns[c], r, conn)
    ensures Inv(s.(conns := s.conns[c := conn], listener := LoopTest))
  {
    assert RepliesInv(s.conns, Owed(s.listener), c);
    ReplyAlike(s.conns, Owed(s.listener), c, r, conn);
    AnswerKeeps(s, c, conn);
  }

  lemma AnswerKeeps(s: State, c: ConnId, conn: Conn)
    requires Inv(s) && s.listener.Replying? && s.listener.conn == c && Alike(s.conns[c], conn)
    requires RepliesInv(s.conns[c := conn], Nothing, c)
    ensures Inv(s.(conns := s.conns[c := conn], listener := LoopTest))
  {
    AlikeKept(s, Nothing, c, conn);
    HandlerStepKeeps(s, LoopTest, s.socketsHolder, s.conns[c := conn]);
  }

  lemma TestReplyKeeps(s: State)
    requires Inv(s) && s.listener.Replying? && !s.listener.tested
    ensures Inv(TestReply(s, s.listener.conn, s.listener.name, s.listener.response))
  {
    assert RepliesInv(s.conns, Owed(s.listener), s.listener.conn);
  }

  /** Binding a name that is not in use: it lands on exactly one entry. */
  lemma Renamed(conns: seq<Conn>, sockets: seq<Entry<ConnId>>, c: ConnId, name: string)
    requires SocketsInv(conns, sockets) && c < |conns| && OwnDescriptor(conns, c)
    requires UniqueNames(sockets) && !NameInUse(sockets, name)
    ensures SocketsInv(conns, Bind(sockets, conns[c].fd, name))
    ensures UniqueNames(Bind(sockets, conns[c].fd, name))
    ensures HoldsName(Bind(sockets, conns[c].fd, name), c, name)
  {
    var es := Bind(sockets, conns[c].fd, name);
    forall k | 0 <= k < |es| ensures SeatInv(conns, es, k) && (es[k].fd == conns[c].fd <==> es[k].conn == c) {
      assert SeatInv(conns, sockets, k);
    }
    forall k | 0 <= k < |es| ensures UniqueName(es, k) {
      assert UniqueName(sockets, k) && SeatInv(conns, es, k);
    }
    forall a | 0 <= a < |conns| && conns[a].life.Member? ensures Seated(es, a) {
      assert Seated(sockets, a);
      var k :| 0 <= k < |sockets| && sockets[k].conn == a;
      assert es[k].conn == a;
    }
  }

  lemma BoundMembers(s: State, es: seq<Entry<ConnId>>)
    requires MembersInv(s.conns, s.sockets, s.log, Sent(s), Served(s.sender))
    requires |es| == |s.sockets| && forall k :: 0 <= k < |es| ==> es[k].conn == s.sockets[k].conn
    ensures MembersInv(s.conns, es, s.log, Sent(s), Served(s.sender))
  {
    forall k | 0 <= k < |es| ensures MemberInv(s.conns, es, s.log, Sent(s), Served(s.sender), k) {
      assert MemberInv(s.conns, s.sockets, s.log, Sent(s), Served(s.sender), k);
    }
  }

  lemma BindNameKeeps(s: State)
    requires Inv(s) && s.listener.Binding?
    ensures Inv(BindName(s, s.listener.conn, s.listener.response))
  {
    var c, r := s.listener.conn, s.listener.response;
    assert OwnDescriptor(s.conns, c);
    Renamed(s.conns, s.sockets, c, r.joiningUsername);
    BoundMembers(s, Bind(s.sockets, s.conns[c].fd, r.joiningUsername));
  }

  lemma LockQueueKeeps(s: State)
    requires Inv(s) && s.listener.WantQueue? && s.queueHolder.Free?
    ensures Inv(LockQueue(s, s.listener.conn, s.listener.response))
  {
  }

  lemma SegmentGrows(b: seq<Instance>, log: seq<Instance>, r: Instance, at: nat)
    requires SegmentOf(b, log, at)
    ensures SegmentOf(b, log + [r], at)
  {
    assert (log + [r])[at..at + |b|] == log[at..at + |b|];
  }

  lemma PushKeeps(s: State)
    requires Inv(s) && s.listener.Pushing?
    ensures Inv(Push(s, s.listener.response))
  {
    var r := s.listener.response;
    var log := s.log + [r];
    forall k | 0 <= k < |s.sockets| ensures MemberInv(s.conns, s.sockets, log, Sent(s), Served(s.sender), k) {
      assert MemberInv(s.conns, s.sockets, s.log, Sent(s), Served(s.sender), k);
      var conn := s.conns[s.sockets[k].conn];
      SegmentGrows(Broadcasts(conn.out), s.log, r, conn.life.joinedAt);
    }
    forall c | 0 <= c < |s.conns| ensures OutsiderInv(s.conns, log, Sent(s), c) {
      assert OutsiderInv(s.conns, s.log, Sent(s), c);
      if s.conns[c].life.Left? {
        SegmentGrows(Broadcasts(s.conns[c].out), s.log, r, s.conns[c].life.joinedAt);
      }
    }
  }

  lemma TestSendLoopKeeps(s: State)
    requires Inv(s) && s.sender.SendLoopTest?
    ensures Inv(TestSendLoop(s))
  {
  }

  lemma LockQueueToSendKeeps(s: State)
    requires Inv(s) && s.sender.SendWantQueue? && s.queueHolder.Free?
    ensures Inv(LockQueueToSend(s))
  {
  }

  lemma TestQueueKeeps(s: State)
    requires Inv(s) && s.sender.SendTestQueue?
    ensures Inv(TestQueue(s))
  {
    if s.messageQueue != [] {
      assert Inv(s.(sender := NextMessage(0)));
    } else {
      assert Inv(s.(queueHolder := Free, sender := SendLoopTest));
    }
  }

  lemma StartMessageKeeps(s: State)
    requires Inv(s) && s.sender.NextMessage? && s.sender.message < |s.messageQueue|
    ensures Inv(StartMessage(s, s.sender.message))
  {
  }

  lemma ClearQueueKeeps(s: State)
    requires Inv(s) && s.sender.NextMessage? && s.sender.message >= |s.messageQueue|
    ensures Inv(ClearQueue(s))
  {
  }

  lemma LockSocketsToSendKeeps(s: State)
    requires Inv(s) && s.sender.MessageWantSockets? && s.socketsHolder.Free?
    ensures Inv(LockSocketsToSend(s, s.sender.message))
  {
  }

  /** The j-th member's turn: it gets the next message, or its write fails. */
  lemma MemberServed(conns: seq<Conn>, sockets: seq<Entry<ConnId>>, log: seq<Instance>, sent: nat, j: nat, conn: Conn)
    requires SocketsInv(conns, sockets) && j < |sockets| && sent < |log| && UpToDate(conns, sockets[j].conn, sent)
    requires MembersInv(conns, sockets, log, sent, j)
    requires conn.life == conns[sockets[j].conn].life
    requires
      var before := Broadcasts(conns[sockets[j].conn].out);
      (conn.failed && Broadcasts(conn.out) == before) || Broadcasts(conn.out) == before + [log[sent]]
    ensures MembersInv(conns[sockets[j].conn := conn], sockets, log, sent, j + 1)
  {
    var c := sockets[j].conn;
    var b, next := conns[c := conn], j + 1;
    assert MemberInv(conns, sockets, log, sent, j, j);
    assert ReceivedUpTo(conn, log, sent, sent + 1) by {
      assert log[conn.life.joinedAt..sent + 1] == log[conn.life.joinedAt..sent] + [log[sent]];
    }
    assert SeatInv(conns, sockets, j);
    forall k | 0 <= k < |sockets| ensures MemberInv(b, sockets, log, sent, next, k) {
      assert MemberInv(conns, sockets, log, sent, j, k);
    }
  }

  lemma TestWriteKeeps(s: State)
    requires Inv(s) && s.sender.Writing? && !s.sender.tested && s.sender.socket < |s.sockets|
    ensures Inv(TestWrite(s, s.sender.message, s.sender.socket))
  {
    var j := s.sender.socket;
    var c := s.sockets[j].conn;
    assert SeatInv(s.conns, s.sockets, j);
    assert RepliesInv(s.conns, Owed(s.listener), c);
    assert MemberInv(s.conns, s.sockets, s.log, Sent(s), j, j);
    if HasClosed(s.killed, s.listener) {
      assert ClosedConn(s.conns, c);
    }
  }

  lemma WriteNextKeeps(s: State, ch: Choice)
    requires Inv(s) && s.sender.Writing? && s.sender.tested && s.sockets[s.sender.socket].conn < |s.conns|
    ensures Inv(WriteNext(s, s.sender.message, s.sender.socket, ch))
  {
    var i, j := s.sender.message, s.sender.socket;
    var c, r := s.sockets[j].conn, s.messageQueue[i];
    WriteIs(s, c, r, ch);
    BroadcastWritten(s, i, j, AfterWrite(s.conns[c], r, ch));
  }

  lemma CrashKeeps(s: State)
    requires Inv(s)
    ensures Inv(s.(crashed := true))
  {
  }

  lemma BroadcastWritten(s: State, i: nat, j: nat, conn: Conn)
    requires Inv(s) && s.sender == Writing(i, j, true) && s.sockets[j].conn < |s.conns|
    requires WrittenTo(s.conns[s.sockets[j].conn], s.messageQueue[i], conn)
    ensures Inv(s.(conns := s.conns[s.sockets[j].conn := conn], sender := Writing(i, j + 1, false)))
  {
    var c, r := s.sockets[j].conn, s.messageQueue[i];
    assert SeatInv(s.conns, s.sockets, j);
    assert r == s.log[Sent(s)];
    BroadcastsSnoc(s.conns[c].out, r);
    BroadcastKept(s, c, r, conn);
    MemberServed(s.conns, s.sockets, s.log, Sent(s), j, conn);
    WriteNextPc(s, c, r, conn);
  }

  /** The parts of the invariant that a broadcast to c does not concern. */
  lemma BroadcastKept(s: State, c: ConnId, r: Instance, conn: Conn)
    requires Inv(s) && MemberOf(s.conns, c) && !r.ErrorResponse? && WrittenTo(s.conns[c], r, conn)
    ensures
      var b := s.conns[c := conn];
      && DescriptorInv(b, s.descriptors, s.killEventFd, s.killed)
      && SocketsInv(b, s.sockets)
      && WatchInv(b, s.watched, InTransit(s.listener))
      && ClosedInv(b, HasClosed(s.killed, s.listener))
      && OutsidersInv(b, s.log, Sent(s))
      && ReplyInv(b, Owed(s.listener))
  {
    ShapeKept(s, s.conns[c := conn]);
    ClosedKept(s.conns, HasClosed(s.killed, s.listener), c, conn);
    OutsidersKept(s.conns, s.log, Sent(s), c, conn);
    assert RepliesInv(s.conns, Owed(s.listener), c);
    WrittenReplies(s.conns, Owed(s.listener), c, r, conn);
    RepliesKept(s.conns, Owed(s.listener), Owed(s.listener), c, conn);
  }

  /** What the listener's data says of a connection is as before. */
  predicate SameForPc(a: seq<Conn>, b: seq<Conn>, d: ConnId)
    requires d < |a| == |b|
  {
    && a[d].life == b[d].life && (b[d].open ==> a[d].open)
    && a[d].replies == b[d].replies && ErrorReplies(a[d].out) == ErrorReplies(b[d].out)
  }

  lemma PcKept(l: ListenerPc, a: seq<Conn>, b: seq<Conn>, sockets: seq<Entry<ConnId>>)
    requires PcInv(l, a, sockets) && |a| == |b| && forall d :: 0 <= d < |a| ==> SameForPc(a, b, d)
    ensures PcInv(l, b, sockets)
  {
    forall d | MemberOf(a, d)
      ensures MemberOf(b, d)
    {
      assert SameForPc(a, b, d);
    }
    if l.Replying? || l.GoneWantSockets? || l.GoneSearch? || l.GoneErase? || l.JoinWantSockets? || l.JoinPush? {
      assert SameForPc(a, b, l.conn);
    }
  }

  lemma WriteNextPc(s: State, c: ConnId, r: Instance, conn: Conn)
    requires PcInv(s.listener, s.conns, s.sockets) && MemberOf(s.conns, c) && !r.ErrorResponse?
    requires WrittenTo(s.conns[c], r, conn)
    ensures PcInv(s.listener, s.conns[c := conn], s.sockets)
  {
    BroadcastsSnoc(s.conns[c].out, r);
    var b := s.conns[c := conn];
    forall d | 0 <= d < |b|
      ensures SameForPc(s.conns, b, d)
    {
    }
    PcKept(s.listener, s.conns, b, s.sockets);
  }

  lemma FinishMessageKeeps(s: State)
    requires Inv(s) && s.sender.Writing? && !s.sender.tested && s.sender.socket >= |s.sockets|
    ensures Inv(FinishMessage(s, s.sender.message))
  {
    var sent := Sent(s) + 1;
    forall k | 0 <= k < |s.sockets| ensures MemberInv(s.conns, s.sockets, s.log, sent, 0, k) {
      assert MemberInv(s.conns, s.sockets, s.log, Sent(s), Served(s.sender), k);
    }
    forall c | 0 <= c < |s.conns| ensures OutsiderInv(s.conns, s.log, sent, c) {
      assert OutsiderInv(s.conns, s.log, Sent(s), c);
    }
  }

  // --------------------------------------------------------- steps and runs

  /** The program counters inside onSocket. */
  predicate InOnSocket(l: ListenerPc) {
    || l.Reading? || l.GoneWantSockets? || l.GoneSearch? || l.GoneErase? || l.CheckWantSockets? || l.CheckName?
    || l.Replying? || l.BindWantSockets? || l.Binding? || l.WantQueue? || l.Pushing?
  }

  lemma ListenerKeeps(s: State, ch: Choice)
    requires Inv(s) && ListenerEnabled(s, ch)
    ensures Inv(ListenerStep(s, ch))
  {
    if InOnSocket(s.listener) {
      OnSocketKeeps(s, ch);
    } else {
      match s.listener
      case LoopTest => TestLoopKeeps(s);
      case BuildingSet(_) => FinishSetKeeps(s, ch.poll);
      case WantKillEvent(_) => LockKillEventKeeps(s);
      case InKillEvent(_) => MakeKillEventKeeps(s, ch);
      case Selecting(_) => TakeEventKeeps(s, ch.event);
      case OnLine(line) => HandleLineKeeps(s, line);
      case StopWantSockets => LockSocketsKeeps(s);
      case StopClosing => CloseAllKeeps(s);
      case StopWantKillEvent => LockKillEventKeeps(s);
      case StopInKillEvent => SignalKillKeeps(s);
      case Accepting => AcceptKeeps(s, ch.fd);
      case JoinWantSockets(_) => LockSocketsKeeps(s);
      case JoinPush(_) => PushSocketKeeps(s);
      case JoinWatch(_) => WatchSocketKeeps(s);
    }
  }

  lemma OnSocketKeeps(s: State, ch: Choice)
    requires Inv(s) && ListenerEnabled(s, ch) && InOnSocket(s.listener)
    ensures Inv(ListenerStep(s, ch))
  {
    if WantsSockets(s.listener) {
      LockSocketsKeeps(s);
    } else {
      SectionKeeps(s, ch);
    }
  }

  /** The steps of onSocket that do not wait for the sockets. */
  lemma SectionKeeps(s: State, ch: Choice)
    requires Inv(s) && ListenerEnabled(s, ch) && InOnSocket(s.listener) && !WantsSockets(s.listener)
    ensures Inv(ListenerStep(s, ch))
  {
    if s.listener.Reading? {
      ReadingKeeps(s, ch);
    } else if s.listener.Replying? {
      AnsweringKeeps(s, ch);
    } else {
      OtherSectionKeeps(s, ch);
    }
  }

  lemma AnsweringKeeps(s: State, ch: Choice)
    requires Inv(s) && ListenerEnabled(s, ch) && s.listener.Replying?
    ensures Inv(ListenerStep(s, ch))
  {
    if s.listener.tested { ReplyKeeps(s, ch); } else { TestReplyKeeps(s); }
  }

  lemma OtherSectionKeeps(s: State, ch: Choice)
    requires Inv(s) && ListenerEnabled(s, ch) && InOnSocket(s.listener) && !WantsSockets(s.listener)
    requires !s.listener.Reading? && !s.listener.Replying?
    ensures Inv(ListenerStep(s, ch))
  {
    match s.listener
    case GoneSearch(_) => SearchGoneKeeps(s);
    case GoneErase(_, _) => EraseSocketKeeps(s);
    case CheckName(_, _, _) => VisitLoginKeeps(s);
    case Binding(_, _) => BindNameKeeps(s);
    case WantQueue(_, _) => LockQueueKeeps(s);
    case Pushing(_, _) => PushKeeps(s);
  }

  lemma ReadingKeeps(s: State, ch: Choice)
    requires Inv(s) && s.listener.Reading? && ListenerEnabled(s, ch)
    ensures Inv(ListenerStep(s, ch))
  {
    if !s.listener.tested {
      TestReadKeeps(s);
    } else if ch.ReadNothing? {
      ReadEndKeeps(s);
    } else {
      ReceiveKeeps(s, ch.request, ch.now);
    }
  }

  lemma TestReadKeeps(s: State)
    requires Inv(s) && s.listener.Reading?
    ensures Inv(TestRead(s, s.listener.conn))
  {
    if IsOpen(s, s.listener.conn) {
      assert Inv(s.(listener := Reading(s.listener.conn, true)));
    } else {
      CrashKeeps(s);
    }
  }

  lemma SenderKeeps(s: State, ch: Choice)
    requires Inv(s) && SenderEnabled(s, ch)
    ensures Inv(SenderStep(s, ch))
  {
    match s.sender {
      case SendLoopTest => TestSendLoopKeeps(s);
      case SendWantQueue => LockQueueToSendKeeps(s);
      case SendTestQueue => TestQueueKeeps(s);
      case NextMessage(i) => if i < |s.messageQueue| { StartMessageKeeps(s); } else { ClearQueueKeeps(s); }
      case MessageWantSockets(_) => LockSocketsToSendKeeps(s);
      case Writing(_, j, tested) =>
        if tested {
          WriteNextKeeps(s, ch);
        } else if j < |s.sockets| {
          TestWriteKeeps(s);
        } else {
          FinishMessageKeeps(s);
        }
    }
  }

  lemma StepKeeps(s: State, a: Action)
    requires Inv(s) && Enabled(s, a)
    ensures Inv(Next(s, a))
  {
    match a {
      case Listen(ch) => ListenerKeeps(s, ch);
      case Send(ch) => SenderKeeps(s, ch);
    }
  }

  lemma {:induction false} RunKeeps(states: seq<State>, acts: seq<Action>, k: nat)
    requires IsRun(states, acts) && Inv(states[0]) && k < |states|
    ensures Inv(states[k])
  {
    if k > 0 {
      RunKeeps(states, acts, k - 1);
      assert StepAt(states, acts, k - 1);
      StepKeeps(states[k - 1], acts[k - 1]);
    }
  }

  /** Whatever the two threads do, in whatever order, the invariant holds at every point. */
  lemma Invariant(states: seq<State>, acts: seq<Action>, k: nat)
    requires IsProgramRun(states, acts) && k < |states|
    ensures Inv(states[k])
  {
    InitialInv();
    RunKeeps(states, acts, k);
  }
}
