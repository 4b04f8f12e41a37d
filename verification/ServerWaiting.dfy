/** The listener's way from the top of its loop through the waiter to a handler, for every event. */
module ServerWaiting {
  import opened ServerMachine
  import opened ServerInvariants
  import opened ServerRuns
  import opened ServerLocks
  import opened ServerDelivery
  import opened ServerDescriptors

  /** The steps that were added are all of the listener. */
  ghost predicate ListenerWentOn(run: Course, longer: Course) {
    run.acts <= longer.acts && forall m :: |run.acts| <= m < |longer.acts| ==> longer.acts[m].Listen?
  }

  /** One wait, up to the event. */
  lemma Wait(from: State, run: Course, poll: set<ConnId>, made: Choice, e: Event) returns (longer: Course)
    requires Leads(from, run) && run.last.listener.LoopTest? && !run.last.killed && !run.last.crashed
    requires run.last.killHolder.Free? && poll == OpenAmong(run.last, run.last.watched)
    requires if run.last.killEventFd == -1 then made.NewDescriptor? && made.fd >= 0 && made.fd !in run.last.descriptors
             else made.Go?
    requires EventPossible(run.last, poll, e)
    ensures Leads(from, longer) && ListenerWentOn(run, longer)
    ensures longer.last == TakeEvent(MakeKillEvent(run.last.(listener := InKillEvent(poll)), made), e)
  {
    longer := Further(from, run, Listen(Go));
    longer := Further(from, longer, Listen(Polled(poll)));
    longer := Further(from, longer, Listen(Go));
    longer := Further(from, longer, Listen(made));
    longer := Further(from, longer, Listen(Selected(e)));
  }

  // ------------------------------------------- every event can be waited for

  /** From s on only the listener has gone on. */
  ghost predicate ListensAlone(s: State, run: Course) {
    Leads(s, run) && forall m :: 0 <= m < |run.acts| ==> run.acts[m].Listen?
  }

  /** The top of the listener's loop before stop(). */
  predicate Idle(s: State) {
    !s.crashed && !s.killed && s.listener.LoopTest?
  }

  /** The waiter has made its kill event, if it had none, and the listener is somewhere else; that is all. */
  predicate Waited(s: State, t: State) {
    t == s.(listener := t.listener, killEventFd := t.killEventFd, descriptors := t.descriptors)
  }

  lemma WaitAlone(s: State, e: Event) returns (run: Course)
    requires Inv(s) && Idle(s) && !e.KillSignal? && EventPossible(s, OpenAmong(s, s.watched), e)
    ensures ListensAlone(s, run) && Waited(s, run.last)
    ensures run.last.listener == TakeEvent(s, e).listener
  {
    var fd := UnusedDescriptor(s.descriptors);
    run := Wait(s, Start(s), OpenAmong(s, s.watched), if s.killEventFd == -1 then NewDescriptor(fd) else Go, e);
  }

  /** Whenever the listener is at the top of its loop, any member whose socket is open can be the next it reads from,
      with nothing else changed. */
  lemma CanRead(states: seq<State>, acts: seq<Action>, k: nat, c: ConnId) returns (run: Course)
    requires IsProgramRun(states, acts) && k < |states| && Idle(states[k])
    requires MemberOf(states[k].conns, c) && states[k].conns[c].open
    ensures ListensAlone(states[k], run) && Waited(states[k], run.last) && run.last.listener == Reading(c, true)
  {
    var s := states[k];
    Invariant(states, acts, k);
    assert c in OpenAmong(s, s.watched);
    run := WaitAlone(s, SocketReady(c));
    run := Further(s, run, Listen(Go));
  }

  /** The next client can be accepted, */
  lemma CanAccept(states: seq<State>, acts: seq<Action>, k: nat) returns (run: Course)
    requires IsProgramRun(states, acts) && k < |states| && Idle(states[k])
    ensures ListensAlone(states[k], run) && Waited(states[k], run.last) && run.last.listener == Accepting
  {
    Invariant(states, acts, k);
    run := WaitAlone(states[k], ServerReady);
  }

  /** and any line be taken. */
  lemma CanTakeLine(states: seq<State>, acts: seq<Action>, k: nat, line: string) returns (run: Course)
    requires IsProgramRun(states, acts) && k < |states| && Idle(states[k])
    ensures ListensAlone(states[k], run) && Waited(states[k], run.last) && run.last.listener == OnLine(line)
  {
    Invariant(states, acts, k);
    run := WaitAlone(states[k], Line(line));
  }

  // ------------------------------------------------ every event is answered

  /** The listener is where this event is handled: before or in the read of a client, before the accept, or with the
      line in its hand. */
  predicate AtHandler(l: ListenerPc, e: Event) {
    match e
    case SocketReady(c) => l == Reading(c, false) || l == Reading(c, true)
    case ServerReady => l == Accepting
    case Line(line) => l == OnLine(line)
    case _ => false
  }

  /** At step m the listener reads from the client, accepts the new one, or looks at the line. */
  ghost predicate HandledAt(states: seq<State>, acts: seq<Action>, m: nat, e: Event)
    requires m < |acts| < |states|
  {
    acts[m].Listen? && AtHandler(states[m].listener, e) && (e.SocketReady? ==> states[m].listener.tested)
  }

  /** At step k select has told the waiter this. */
  ghost predicate Reported(states: seq<State>, acts: seq<Action>, k: nat, e: Event)
    requires k < |acts| < |states|
  {
    states[k].listener.Selecting? && acts[k] == Listen(Selected(e))
  }

  lemma HandlerStep(s: State, a: Action, e: Event)
    requires Enabled(s, a) && AtHandler(s.listener, e)
    ensures AtHandler(Next(s, a).listener, e) || (a.Listen? && (e.SocketReady? ==> s.listener.tested))
  {
  }

  /** Nothing comes between the report of an event and its handling: until it has been handled, the listener is there. */
  lemma {:induction false} EventIsAnswered(states: seq<State>, acts: seq<Action>, k: nat, j: nat, e: Event)
    requires IsRun(states, acts) && k < j < |states| && Reported(states, acts, k, e)
    requires e.SocketReady? || e.ServerReady? || e.Line?
    ensures AtHandler(states[j].listener, e) || exists m :: k < m < j && HandledAt(states, acts, m, e)
  {
    var p := j - 1;
    assert StepAt(states, acts, p);
    if p > k {
      EventIsAnswered(states, acts, k, p, e);
      if AtHandler(states[p].listener, e) {
        HandlerStep(states[p], acts[p], e);
        assert AtHandler(states[j].listener, e) || HandledAt(states, acts, p, e);
      }
    }
  }

  // ----------------------------------------------- nobody who came is lost

  predicate JoiningConn(l: ListenerPc, c: ConnId) {
    l == JoinWantSockets(c) || l == JoinPush(c)
  }

  ghost predicate NobodyLost(s: State) {
    forall c: ConnId :: c < |s.conns| && s.conns[c].life.Accepted? ==> JoiningConn(s.listener, c)
  }

  lemma SenderLosesNobody(s: State, ch: Choice)
    requires NobodyLost(s) && SenderEnabled(s, ch)
    ensures NobodyLost(SenderStep(s, ch))
  {
  }

  lemma HandlerLosesNobody(s: State, ch: Choice)
    requires Inv(s) && NobodyLost(s) && ListenerEnabled(s, ch) && InOnSocket(s.listener)
    ensures NobodyLost(ListenerStep(s, ch))
  {
    var s' := ListenerStep(s, ch);
    HandlerMakesNone(s, ch);
    ListenerGrows(s, ch);
    forall c: ConnId | c < |s'.conns|
      ensures !s'.conns[c].life.Accepted?
    {
      assert ConnGrows(s.conns, s'.conns, c);
    }
  }

  lemma OthersLoseNobody(s: State, ch: Choice)
    requires NobodyLost(s) && ListenerEnabled(s, ch) && !InOnSocket(s.listener)
    ensures NobodyLost(ListenerStep(s, ch))
  {
  }

  /** A client that has been accepted is in the vector, or was, before the listener does anything else than join it. */
  lemma {:induction false} NobodyIsLost(states: seq<State>, acts: seq<Action>, k: nat)
    requires IsProgramRun(states, acts) && k < |states|
    ensures NobodyLost(states[k])
  {
    if k > 0 {
      NobodyIsLost(states, acts, k - 1);
      Invariant(states, acts, k - 1);
      assert StepAt(states, acts, k - 1);
      match acts[k - 1]
      case Listen(ch) =>
        if InOnSocket(states[k - 1].listener) {
          HandlerLosesNobody(states[k - 1], ch);
        } else {
          OthersLoseNobody(states[k - 1], ch);
        }
      case Send(ch) => SenderLosesNobody(states[k - 1], ch);
    }
  }
}
