/** The machine's listener, when nothing comes in between, does what the object form of the server does. */
module ServerAlone {
  import opened Wrappers
  import opened Messages
  import opened Entries
  import opened ServerMachine
  import opened ServerInvariants
  import opened ServerRuns
  import opened ServerWaiting

  /** The program counters of a handler after its first step: the read, the accept, or the look at the line. */
  predicate Handling(l: ListenerPc) {
    || l.JoinWantSockets? || l.JoinPush? || l.JoinWatch?
    || l.StopWantSockets? || l.StopClosing? || l.StopWantKillEvent? || l.StopInKillEvent?
    || l.GoneWantSockets? || l.GoneSearch? || l.GoneErase? || l.CheckWantSockets? || l.CheckName?
    || l.Replying? || l.BindWantSockets? || l.Binding? || l.WantQueue? || l.Pushing?
  }

  /** From s on only the listener has gone on, with this first step of a handler, and has not yet come back from it; no
      reply failed. */
  ghost predicate Solo(s: State, first: Choice, run: Course) {
    && Leads(s, run) && |run.acts| > 0 && run.acts[0] == Listen(first)
    && forall m :: 0 < m < |run.acts| ==> InHandler(run, m)
  }

  predicate InHandler(run: Course, m: nat) {
    m < |run.acts| && m < |run.states| &&
    run.acts[m].Listen? && !run.acts[m].choice.WriteFails? && Handling(run.states[m].listener)
  }

  /** Both mutexes are free and the program may go on. */
  predicate Free(s: State) {
    !s.crashed && s.queueHolder.Free? && s.socketsHolder.Free?
  }

  // --------------------------------------------- there is one way to go on

  lemma OnlyGo(s: State, ch: Choice)
    requires ListenerEnabled(s, ch) && Handling(s.listener) && !ch.WriteFails?
    ensures ch.Go?
  {
  }

  lemma {:induction false} SameStates(s: State, read: Choice, a: Course, b: Course, m: nat)
    requires Solo(s, read, a) && Solo(s, read, b) && m <= |a.acts| && m <= |b.acts|
    ensures a.states[m] == b.states[m]
  {
    if m > 0 {
      var p := m - 1;
      SameStates(s, read, a, b, p);
      assert StepAt(a.states, a.acts, p) && StepAt(b.states, b.acts, p);
      if p > 0 {
        assert InHandler(a, p) && InHandler(b, p);
        OnlyGo(a.states[p], a.acts[p].choice);
        OnlyGo(b.states[p], b.acts[p].choice);
      }
    }
  }

  /** Two solo runs that have come back end alike. */
  lemma Determined(s: State, read: Choice, a: Course, b: Course)
    requires Solo(s, read, a) && Solo(s, read, b) && !Handling(a.last.listener) && !Handling(b.last.listener)
    ensures a.last == b.last
  {
    var m := if |a.acts| < |b.acts| then |a.acts| else |b.acts|;
    SameStates(s, read, a, b, m);
    assert m < |a.acts| ==> InHandler(a, m);
    assert m < |b.acts| ==> InHandler(b, m);
  }

  // -------------------------------------------------------------- one of them

  lemma FirstStep(s: State, read: Choice) returns (run: Course)
    requires Enabled(s, Listen(read))
    ensures Solo(s, read, run) && run.last == ListenerStep(s, read)
  {
    run := Further(s, Start(s), Listen(read));
  }

  lemma Onward(s: State, read: Choice, run: Course) returns (longer: Course)
    requires Solo(s, read, run) && Handling(run.last.listener) && Enabled(run.last, Listen(Go))
    ensures Solo(s, read, longer) && longer.last == ListenerStep(run.last, Go)
  {
    longer := Further(s, run, Listen(Go));
    forall m | 0 < m < |longer.acts|
      ensures InHandler(longer, m)
    {
      assert m < |run.acts| ==> InHandler(run, m);
    }
  }

  lemma QueuedAlone(s: State, read: Choice, run: Course, c: ConnId, r: Instance) returns (longer: Course)
    requires Solo(s, read, run) && Free(run.last) && run.last.listener == WantQueue(c, r)
    ensures Solo(s, read, longer)
    ensures longer.last == run.last.(messageQueue := run.last.messageQueue + [r],
                                     log := run.last.log + [r], listener := LoopTest)
  {
    longer := Onward(s, read, run);
    longer := Onward(s, read, longer);
  }

  lemma BoundAlone(s: State, read: Choice, run: Course, c: ConnId, r: Instance) returns (longer: Course)
    requires Solo(s, read, run) && Free(run.last) && run.last.listener == BindWantSockets(c, r)
    requires c < |run.last.conns| && r.LoginResponse?
    ensures Solo(s, read, longer)
    ensures longer.last == run.last.(sockets := Bind(run.last.sockets, run.last.conns[c].fd, r.joiningUsername),
                                     listener := WantQueue(c, r))
  {
    longer := Onward(s, read, run);
    longer := Onward(s, read, longer);
  }

  lemma CheckedAlone(s: State, read: Choice, run: Course, c: ConnId, name: string, now: Time) returns (longer: Course)
    requires Solo(s, read, run) && Free(run.last) && run.last.listener == CheckWantSockets(c, name, now)
    requires c < |run.last.conns|
    ensures Solo(s, read, longer) && longer.last == VisitLogin(run.last, c, name, now)
  {
    longer := Onward(s, read, run);
    assert longer.last.listener == CheckName(c, name, now);
    longer := Onward(s, read, longer);
  }

  /** Only this connection is changed. */
  predicate OthersAlike(s: State, t: State, c: ConnId) {
    && |t.conns| == |s.conns| && t.killed == s.killed
    && forall d: ConnId :: d < |s.conns| && d != c ==> t.conns[d] == s.conns[d]
  }

  function Answered(conn: Conn, reply: Instance): Conn {
    conn.(out := conn.out + [reply], replies := conn.replies + [reply])
  }

  /** What a handled request leaves of the shared state and of the connection. */
  predicate Leaves(s: State, t: State, c: ConnId,
                   es: seq<Entry<ConnId>>, queue: seq<Instance>, answer: Option<Instance>) {
    && Free(t) && t.listener.LoopTest? && t.sender == s.sender
    && t.sockets == es && t.messageQueue == queue && t.watched == s.watched
    && IsOpen(s, c) && IsOpen(t, c) && OthersAlike(s, t, c)
    && t.conns[c] == (if answer.Some? then Answered(s.conns[c], answer.value) else s.conns[c])
  }

  lemma PostAlone(s: State, c: ConnId, request: Instance, now: Time) returns (run: Course)
    requires Free(s) && s.listener == Reading(c, true) && IsOpen(s, c) && request.MessageRequest?
    ensures Solo(s, ReadRequest(request, now), run)
    ensures Leaves(s, run.last, c, s.sockets,
                   s.messageQueue + [MessageResponse(now, SERVER_SENDER, request.from, request.content)], None)
  {
    var read := ReadRequest(request, now);
    run := FirstStep(s, read);
    run := QueuedAlone(s, read, run, c, MessageResponse(now, SERVER_SENDER, request.from, request.content));
  }

  lemma VisitedAlone(s: State, c: ConnId, request: Instance, now: Time) returns (run: Course)
    requires Free(s) && s.listener == Reading(c, true) && IsOpen(s, c) && request.LoginRequest?
    ensures Solo(s, ReadRequest(request, now), run) && run.last == VisitLogin(s, c, request.from, now)
  {
    var read := ReadRequest(request, now);
    run := FirstStep(s, read);
    run := CheckedAlone(s, read, run, c, request.from, now);
  }

  lemma RefusedAlone(s: State, read: Choice, run: Course, c: ConnId, name: string, now: Time) returns (longer: Course)
    requires Free(s) && IsOpen(s, c) && Solo(s, read, run) && run.last == RefuseLogin(s, c, name, now)
    ensures Solo(s, read, longer) && Leaves(s, longer.last, c, s.sockets, s.messageQueue, Some(InUseReply(now)))
  {
    longer := Onward(s, read, run);
    assert longer.last.listener == Replying(c, name, InUseReply(now), true);
    longer := Onward(s, read, longer);
  }

  lemma AcceptedAlone(s: State, read: Choice, run: Course, c: ConnId, name: string, now: Time) returns (longer: Course)
    requires Free(s) && IsOpen(s, c) && Solo(s, read, run) && run.last == AcceptLogin(s, c, name, now)
    ensures Solo(s, read, longer)
    ensures Leaves(s, longer.last, c, Bind(s.sockets, s.conns[c].fd, name),
                   s.messageQueue + [LoginResponse(now, SERVER_SENDER, name)], None)
  {
    longer := BoundAlone(s, read, run, c, LoginResponse(now, SERVER_SENDER, name));
    longer := QueuedAlone(s, read, longer, c, LoginResponse(now, SERVER_SENDER, name));
  }

  /** A request that is read while no mutex is taken can be handled at once. */
  lemma CanBeHandledAlone(s: State, c: ConnId, request: Instance, now: Time) returns (run: Course)
    requires Free(s) && s.listener == Reading(c, true) && IsOpen(s, c) && request.IsRequest()
    ensures Solo(s, ReadRequest(request, now), run)
    ensures var (es, queue, answer) := Handled(s.sockets, s.messageQueue, s.conns[c].fd, request, now);
            Leaves(s, run.last, c, es, queue, answer)
  {
    if request.MessageRequest? {
      run := PostAlone(s, c, request, now);
    } else {
      run := VisitedAlone(s, c, request, now);
      if NameInUse(s.sockets, request.from) {
        run := RefusedAlone(s, ReadRequest(request, now), run, c, request.from, now);
      } else {
        run := AcceptedAlone(s, ReadRequest(request, now), run, c, request.from, now);
      }
    }
  }

  /** What the end of a client leaves. */
  predicate LeavesWithout(s: State, t: State, c: ConnId)
    requires c < |s.conns|
  {
    && Free(t) && t.listener.LoopTest? && t.sender == s.sender
    && t.sockets == Erase(s.sockets, s.conns[c].fd) && t.messageQueue == s.messageQueue
    && t.watched == (if Find(s.sockets, s.conns[c].fd).Some? then s.watched - {c} else s.watched)
    && OthersAlike(s, t, c) && t.descriptors == s.descriptors
    && c < |t.conns| && !t.conns[c].open && t.conns[c].out == s.conns[c].out
  }

  /** The end of a client that is read while no mutex is taken can be handled at once. */
  lemma CanGoAlone(s: State, c: ConnId) returns (run: Course)
    requires Free(s) && s.listener == Reading(c, true) && IsOpen(s, c) && s.conns[c].life.Member?
    ensures Solo(s, ReadNothing, run) && LeavesWithout(s, run.last, c)
  {
    run := FirstStep(s, ReadNothing);
    run := Onward(s, ReadNothing, run);
    run := Onward(s, ReadNothing, run);
    if Find(s.sockets, s.conns[c].fd).Some? {
      run := Onward(s, ReadNothing, run);
    }
  }

  /** What the coming of a client leaves: it is in the vector without a name, and watched. */
  predicate LeavesWith(s: State, t: State, fd: int) {
    var c := |s.conns|;
    && Free(t) && t.listener.LoopTest? && t.sender == s.sender
    && t.sockets == s.sockets + [Entry(c, fd, "")] && t.messageQueue == s.messageQueue
    && t.watched == s.watched + {c} && t.descriptors == s.descriptors + {fd}
    && |t.conns| == c + 1 && t.conns[..c] == s.conns && IsOpen(t, c) && t.conns[c].fd == fd && t.conns[c].out == []
  }

  /** A client that comes while no mutex is taken can join at once. */
  lemma CanJoinAlone(s: State, fd: int) returns (run: Course)
    requires Free(s) && s.listener == Accepting && fd >= 0 && fd !in s.descriptors
    ensures Solo(s, NewDescriptor(fd), run) && LeavesWith(s, run.last, fd)
  {
    run := FirstStep(s, NewDescriptor(fd));
    run := Onward(s, NewDescriptor(fd), run);
    run := Onward(s, NewDescriptor(fd), run);
    run := Onward(s, NewDescriptor(fd), run);
  }

  /** Every member is closed, and nothing else of it changed. */
  function WithMembersClosed(conns: seq<Conn>): seq<Conn> {
    seq(|conns|, c requires 0 <= c < |conns| =>
      if conns[c].life.Member? then conns[c].(open := false) else conns[c])
  }

  predicate OpenMemberWith(conns: seq<Conn>, fd: int) {
    exists c :: 0 <= c < |conns| && conns[c].life.Member? && conns[c].open && conns[c].fd == fd
  }

  /** What stop leaves: the members are closed, and those that were open have given their descriptors back. */
  predicate LeavesClosed(s: State, t: State) {
    && t == s.(killed := true, conns := WithMembersClosed(s.conns), listener := LoopTest,
               killPending := s.killPending || s.killEventFd >= 0, descriptors := t.descriptors)
    && t.descriptors == set fd | fd in s.descriptors && !OpenMemberWith(s.conns, fd)
  }

  /** A stop while no mutex is taken can be done at once. */
  lemma CanStopAlone(s: State) returns (run: Course)
    requires Free(s) && s.killHolder.Free? && s.listener == OnLine("exit")
    ensures Solo(s, Go, run) && LeavesClosed(s, run.last)
  {
    run := FirstStep(s, Go);
    run := Onward(s, Go, run);
    run := Onward(s, Go, run);
    run := Onward(s, Go, run);
    run := Onward(s, Go, run);
    assert run.last.conns == WithMembersClosed(s.conns);
  }

  // -------------------------------------------------------------- all of them

  /** However a client comes without interruption, it joins, and nothing else happens. */
  lemma JoinedAlone(s: State, fd: int, run: Course)
    requires Free(s) && s.listener == Accepting && fd >= 0 && fd !in s.descriptors
    requires Solo(s, NewDescriptor(fd), run) && !Handling(run.last.listener)
    ensures LeavesWith(s, run.last, fd)
  {
    var one := CanJoinAlone(s, fd);
    Determined(s, NewDescriptor(fd), run, one);
  }

  /** However the line "exit" is handled without interruption, the members are closed and the waiter is signalled. */
  lemma StoppedAlone(s: State, run: Course)
    requires Free(s) && s.killHolder.Free? && s.listener == OnLine("exit")
    requires Solo(s, Go, run) && !Handling(run.last.listener)
    ensures LeavesClosed(s, run.last)
  {
    var one := CanStopAlone(s);
    Determined(s, Go, run, one);
  }

  /** However the listener handles a request without interruption and without a failed reply, it leaves what Handled
      says. */
  lemma HandledAlone(s: State, c: ConnId, request: Instance, now: Time, run: Course)
    requires Free(s) && s.listener == Reading(c, true) && IsOpen(s, c) && request.IsRequest()
    requires Solo(s, ReadRequest(request, now), run) && !Handling(run.last.listener)
    ensures var (es, queue, answer) := Handled(s.sockets, s.messageQueue, s.conns[c].fd, request, now);
            Leaves(s, run.last, c, es, queue, answer)
  {
    var one := CanBeHandledAlone(s, c, request, now);
    Determined(s, ReadRequest(request, now), run, one);
  }

  /** However it handles the end of a client without interruption, it removes the client and nothing else. */
  lemma GoneAlone(s: State, c: ConnId, run: Course)
    requires Free(s) && s.listener == Reading(c, true) && IsOpen(s, c) && s.conns[c].life.Member?
    requires Solo(s, ReadNothing, run) && !Handling(run.last.listener)
    ensures LeavesWithout(s, run.last, c)
  {
    var one := CanGoAlone(s, c);
    Determined(s, ReadNothing, run, one);
  }

  // ---------------------------------------------------- from the loop on

  lemma SoloListens(s: State, first: Choice, run: Course)
    requires Solo(s, first, run)
    ensures ListensAlone(s, run)
  {
    forall m | 0 < m < |run.acts|
      ensures run.acts[m].Listen?
    {
      assert InHandler(run, m);
    }
  }

  /** Whenever the listener is at the top of its loop and the sender in no critical section, any open member can be
      served: the listener alone comes back to the top of its loop with the request handled as Handled says. */
  lemma CanBeServed(states: seq<State>, acts: seq<Action>, k: nat, c: ConnId, request: Instance, now: Time)
      returns (run: Course)
    requires IsProgramRun(states, acts) && k < |states| && Idle(states[k]) && Free(states[k])
    requires MemberOf(states[k].conns, c) && states[k].conns[c].open && request.IsRequest()
    ensures ListensAlone(states[k], run)
    ensures
      var s := states[k];
      var (es, queue, answer) := Handled(s.sockets, s.messageQueue, s.conns[c].fd, request, now);
      Leaves(s, run.last, c, es, queue, answer)
  {
    var reading := CanRead(states, acts, k, c);
    var handling := CanBeHandledAlone(reading.last, c, request, now);
    SoloListens(reading.last, ReadRequest(request, now), handling);
    run := Continued(states[k], reading, handling);
  }

  /** And any open member that has gone can be removed. */
  lemma CanBeRemoved(states: seq<State>, acts: seq<Action>, k: nat, c: ConnId) returns (run: Course)
    requires IsProgramRun(states, acts) && k < |states| && Idle(states[k]) && Free(states[k])
    requires MemberOf(states[k].conns, c) && states[k].conns[c].open
    ensures ListensAlone(states[k], run) && run.last.listener.LoopTest? && !run.last.crashed
    ensures run.last.sockets == Erase(states[k].sockets, states[k].conns[c].fd) && c !in run.last.watched
  {
    var reading := CanRead(states, acts, k, c);
    var going := CanGoAlone(reading.last, c);
    SoloListens(reading.last, ReadNothing, going);
    run := Continued(states[k], reading, going);
    Invariant(states, acts, k);
    assert OwnDescriptor(states[k].conns, c);
    SearchFinds(states[k].conns, states[k].sockets, c);
  }
}
