/** How the program can end by an uncaught exception before stop() has closed the sockets. */
module ServerCrashes {
  import opened ServerMachine
  import opened ServerInvariants
  import opened ServerDelivery

  predicate NoWriteFailed(s: State) {
    forall c :: 0 <= c < |s.conns| ==> !s.conns[c].failed
  }

  predicate WriteFailed(s: State, c: ConnId) {
    c < |s.conns| && s.conns[c].failed
  }

  // ------------------------------------------------- which sockets are closed

  predicate OpenUnless(conns: seq<Conn>, l: ListenerPc, c: ConnId)
    requires c < |conns|
  {
    conns[c].open || conns[c].failed || conns[c].life.Left? || Leaving(l, c)
  }

  /** Until stop() closes them a socket is closed only by a failed write or by the end of its client. */
  ghost predicate OpenInv(s: State) {
    !HasClosed(s.killed, s.listener) ==> forall c :: 0 <= c < |s.conns| ==> OpenUnless(s.conns, s.listener, c)
  }

  /** The client that is leaving is found, so it is not forgotten half-way. */
  lemma SearchKeepsOpen(s: State)
    requires Inv(s) && OpenInv(s) && s.listener.GoneSearch?
    ensures OpenInv(SearchGone(s, s.listener.conn))
  {
    SearchFinds(s.conns, s.sockets, s.listener.conn);
    var s' := SearchGone(s, s.listener.conn);
    if !HasClosed(s'.killed, s'.listener) {
      forall c | 0 <= c < |s.conns|
        ensures OpenUnless(s'.conns, s'.listener, c)
      {
        assert OpenUnless(s.conns, s.listener, c);
      }
    }
  }

  lemma ReplacementKeepsOpen(s: State, ch: Choice)
    requires StopInv(s.killed, s.listener, s.sender) && OpenInv(s) && ListenerEnabled(s, ch) && ReplacesConn(s.listener)
    ensures OpenInv(ListenerStep(s, ch))
  {
    var s' := ListenerStep(s, ch);
    forall c | 0 <= c < |s'.conns|
      ensures OpenUnless(s'.conns, s'.listener, c)
    {
      assert OpenUnless(s.conns, s.listener, c);
    }
  }

  lemma HandlerKeepsOpen(s: State, ch: Choice)
    requires StopInv(s.killed, s.listener, s.sender) && OpenInv(s) && ListenerEnabled(s, ch)
    requires InOnSocket(s.listener) && !s.listener.GoneSearch?
    ensures OpenInv(ListenerStep(s, ch))
  {
    if ReplacesConn(s.listener) {
      ReplacementKeepsOpen(s, ch);
    } else {
      SameConnsGrow(s, ch);
      var s' := ListenerStep(s, ch);
      forall c | 0 <= c < |s'.conns|
        ensures OpenUnless(s'.conns, s'.listener, c)
      {
        assert OpenUnless(s.conns, s.listener, c);
      }
    }
  }

  lemma OthersKeepOpen(s: State, ch: Choice)
    requires Inv(s) && OpenInv(s) && ListenerEnabled(s, ch) && !InOnSocket(s.listener)
    ensures OpenInv(ListenerStep(s, ch))
  {
    var s' := ListenerStep(s, ch);
    if !HasClosed(s'.killed, s'.listener) {
      forall c | 0 <= c < |s'.conns|
        ensures OpenUnless(s'.conns, s'.listener, c)
      {
        assert c < |s.conns| ==> OpenUnless(s.conns, s.listener, c);
      }
    }
  }

  lemma SenderKeepsOpen(s: State, ch: Choice)
    requires OpenInv(s) && SenderEnabled(s, ch)
    ensures OpenInv(SenderStep(s, ch))
  {
    var s' := SenderStep(s, ch);
    if !HasClosed(s'.killed, s'.listener) {
      forall c | 0 <= c < |s'.conns|
        ensures OpenUnless(s'.conns, s'.listener, c)
      {
        assert OpenUnless(s.conns, s.listener, c);
      }
    }
  }

  /** Until stop() closes them every client that has not left is open, unless a write to it failed or it is leaving. */
  lemma {:induction false} ClosedOnlyByTheEnd(states: seq<State>, acts: seq<Action>, k: nat)
    requires IsProgramRun(states, acts) && k < |states|
    ensures OpenInv(states[k])
  {
    if k > 0 {
      ClosedOnlyByTheEnd(states, acts, k - 1);
      Invariant(states, acts, k - 1);
      assert StepAt(states, acts, k - 1);
      match acts[k - 1]
      case Listen(ch) =>
        if states[k - 1].listener.GoneSearch? {
          SearchKeepsOpen(states[k - 1]);
        } else if InOnSocket(states[k - 1].listener) {
          HandlerKeepsOpen(states[k - 1], ch);
        } else {
          OthersKeepOpen(states[k - 1], ch);
        }
      case Send(ch) => SenderKeepsOpen(states[k - 1], ch);
    }
  }

  // ------------------------------------------------- which steps crash

  /** The sender is about to test whether it can write to c. */
  predicate WritesTo(s: State, c: ConnId) {
    s.sender.Writing? && !s.sender.tested && s.sender.socket < |s.sockets| && s.sockets[s.sender.socket].conn == c
  }

  /** The sender is about to test a client whose end the listener has read. */
  predicate MeetsLeaving(s: State) {
    s.listener.GoneWantSockets? && WritesTo(s, s.listener.conn)
  }

  /** The sender is about to test a client to which a write has failed. */
  predicate MeetsFailed(s: State) {
    s.sender.Writing? && !s.sender.tested && s.sender.socket < |s.sockets|
    && WriteFailed(s, s.sockets[s.sender.socket].conn)
  }

  /** The listener is about to test, for a read or an answer, a client to which a write has failed. */
  predicate HandlesFailed(s: State) {
    ((s.listener.Reading? && !s.listener.tested) || (s.listener.Replying? && !s.listener.tested))
    && WriteFailed(s, s.listener.conn)
  }

  lemma SendCrashesIff(s: State, ch: Choice)
    requires Inv(s) && OpenInv(s) && !HasClosed(s.killed, s.listener) && !s.crashed && SenderEnabled(s, ch)
    ensures SenderStep(s, ch).crashed <==> MeetsLeaving(s) || MeetsFailed(s)
  {
    if s.sender.Writing? && !s.sender.tested && s.sender.socket < |s.sockets| {
      var c := s.sockets[s.sender.socket].conn;
      assert SeatInv(s.conns, s.sockets, s.sender.socket);
      assert OpenUnless(s.conns, s.listener, c);
      assert RepliesInv(s.conns, Owed(s.listener), c);
    }
  }

  lemma ListenCrashesIff(s: State, ch: Choice)
    requires Inv(s) && OpenInv(s) && !HasClosed(s.killed, s.listener) && !s.crashed && ListenerEnabled(s, ch)
    ensures ListenerStep(s, ch).crashed <==> HandlesFailed(s)
  {
    if s.listener.Reading? || s.listener.Replying? {
      assert OpenUnless(s.conns, s.listener, s.listener.conn);
      assert RepliesInv(s.conns, Owed(s.listener), s.listener.conn);
    }
  }

  /** Until stop() closes the sockets a step ends the program if and only if the sender tests a client that is leaving,
      or either thread tests one to which a write has failed. */
  lemma CrashesIff(states: seq<State>, acts: seq<Action>, k: nat)
    requires IsProgramRun(states, acts) && k < |acts| && !HasClosed(states[k].killed, states[k].listener)
    ensures states[k + 1].crashed <==>
            if acts[k].Send? then MeetsLeaving(states[k]) || MeetsFailed(states[k]) else HandlesFailed(states[k])
  {
    Invariant(states, acts, k);
    ClosedOnlyByTheEnd(states, acts, k);
    assert StepAt(states, acts, k);
    match acts[k]
    case Listen(ch) => ListenCrashesIff(states[k], ch);
    case Send(ch) => SendCrashesIff(states[k], ch);
  }

  /** While no write has failed there is one way to crash: a client goes and is still to be written to. */
  lemma OnlyALeavingClientCrashes(states: seq<State>, acts: seq<Action>, k: nat)
    requires IsProgramRun(states, acts) && k < |acts| && !HasClosed(states[k].killed, states[k].listener)
    requires NoWriteFailed(states[k])
    ensures states[k + 1].crashed <==> acts[k].Send? && MeetsLeaving(states[k])
  {
    CrashesIff(states, acts, k);
  }
}
