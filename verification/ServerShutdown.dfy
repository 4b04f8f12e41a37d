/** What happens from the moment stop() sets `killed`. */
module ServerShutdown {
  import opened ServerMachine
  import opened ServerInvariants

  // ------------------------------------------------- what leads to a stop

  /** At step m the listener has this line in its hand and goes on. */
  ghost predicate LineTaken(states: seq<State>, acts: seq<Action>, m: nat, line: string)
    requires m < |acts| < |states|
  {
    states[m].listener == OnLine(line) && acts[m].Listen?
  }

  lemma SenderStopsNobody(s: State, ch: Choice)
    requires SenderEnabled(s, ch)
    ensures SenderStep(s, ch).killed == s.killed && SenderStep(s, ch).listener == s.listener
  {
  }

  lemma KilledStep(s: State, a: Action)
    requires Enabled(s, a)
    ensures Next(s, a).killed <==> s.killed || (a.Listen? && s.listener == OnLine("exit"))
  {
    match a
    case Listen(ch) => ListenerKills(s, ch);
    case Send(ch) => SenderStopsNobody(s, ch);
  }

  lemma ListenerKills(s: State, ch: Choice)
    requires ListenerEnabled(s, ch)
    ensures ListenerStep(s, ch).killed <==> s.killed || s.listener == OnLine("exit")
  {
    if InOnSocket(s.listener) {
      HandlersKillNobody(s, ch);
    }
  }

  lemma HandlersKillNobody(s: State, ch: Choice)
    requires ListenerEnabled(s, ch) && InOnSocket(s.listener)
    ensures ListenerStep(s, ch).killed == s.killed
  {
  }

  /** The program is stopping if and only if the line "exit" has been taken. */
  lemma {:induction false} KilledIff(states: seq<State>, acts: seq<Action>, k: nat)
    requires IsProgramRun(states, acts) && k < |states|
    ensures states[k].killed <==> exists m :: 0 <= m < k && LineTaken(states, acts, m, "exit")
  {
    if k > 0 {
      var p := k - 1;
      KilledIff(states, acts, p);
      assert StepAt(states, acts, p);
      KilledStep(states[p], acts[p]);
      assert LineTaken(states, acts, p, "exit") <==> acts[p].Listen? && states[p].listener == OnLine("exit");
    }
  }

  /** Any other line changes nothing. */
  lemma OtherLinesAreIgnored(states: seq<State>, acts: seq<Action>, m: nat, line: string)
    requires IsRun(states, acts) && m < |acts| && LineTaken(states, acts, m, line) && line != "exit"
    ensures states[m + 1] == states[m].(listener := LoopTest)
  {
    assert StepAt(states, acts, m);
  }

  lemma HandlerStaysOrEnds(s: State, ch: Choice)
    requires ListenerEnabled(s, ch) && InOnSocket(s.listener)
    ensures ListenerStep(s, ch).listener.LoopTest? || InOnSocket(ListenerStep(s, ch).listener)
  {
  }

  lemma LineStep(s: State, a: Action, line: string)
    requires Enabled(s, a) && Next(s, a).listener == OnLine(line) && s.listener != OnLine(line)
    ensures s.listener.Selecting? && a == Listen(Selected(Line(line)))
  {
    match a
    case Listen(ch) =>
      if InOnSocket(s.listener) {
        HandlerStaysOrEnds(s, ch);
      }
    case Send(ch) => SenderStopsNobody(s, ch);
  }

  /** A line that is taken is the one that was typed, with nothing handled in between. */
  lemma {:induction false} LineWasTyped(states: seq<State>, acts: seq<Action>, m: nat, line: string)
    requires IsProgramRun(states, acts) && m < |states| && states[m].listener == OnLine(line)
    ensures exists w :: 0 <= w < m && acts[w] == Listen(Selected(Line(line))) &&
              forall q :: w < q <= m ==> states[q].listener == OnLine(line)
  {
    if m > 0 {
      var p := m - 1;
      assert StepAt(states, acts, p);
      if states[p].listener == OnLine(line) {
        LineWasTyped(states, acts, p, line);
      } else {
        LineStep(states[p], acts[p], line);
        assert acts[p] == Listen(Selected(Line(line)));
      }
    }
  }

  // ------------------------------------------------------- the kill event

  /** The waiter has made its kill event. */
  predicate PastKillEvent(l: ListenerPc) {
    !l.LoopTest? && !l.ListenDone? && !l.BuildingSet? && !l.WantKillEvent? && !l.InKillEvent?
  }

  predicate SignalInv(s: State) {
    && s.killEventFd >= -1
    && (PastKillEvent(s.listener) ==> s.killEventFd >= 0)
    && (s.killPending <==> s.killed && (s.listener.LoopTest? || s.listener.ListenDone?))
  }

  lemma SignalKept(s: State, ch: Choice)
    requires Inv(s) && SignalInv(s) && ListenerEnabled(s, ch)
    ensures SignalInv(ListenerStep(s, ch))
  {
    if InOnSocket(s.listener) {
      HandlerSignalsNobody(s, ch);
      HandlerStaysOrEnds(s, ch);
      HandlersKillNobody(s, ch);
    }
  }

  lemma HandlerSignalsNobody(s: State, ch: Choice)
    requires ListenerEnabled(s, ch) && InOnSocket(s.listener)
    ensures ListenerStep(s, ch).killPending == s.killPending && ListenerStep(s, ch).killEventFd == s.killEventFd
  {
  }

  lemma SenderSignalsNobody(s: State, ch: Choice)
    requires SignalInv(s) && SenderEnabled(s, ch)
    ensures SignalInv(SenderStep(s, ch))
  {
  }

  /** The waiter's event is signalled exactly from the end of stop() on, and there always is one to signal. */
  lemma {:induction false} SignalledIff(states: seq<State>, acts: seq<Action>, k: nat)
    requires IsProgramRun(states, acts) && k < |states|
    ensures SignalInv(states[k])
  {
    if k > 0 {
      SignalledIff(states, acts, k - 1);
      Invariant(states, acts, k - 1);
      assert StepAt(states, acts, k - 1);
      match acts[k - 1]
      case Listen(ch) => SignalKept(states[k - 1], ch);
      case Send(ch) => SenderSignalsNobody(states[k - 1], ch);
    }
  }

  // ----------------------------------------------------------- termination

  /** The listener's steps to its end. */
  function ListenerLeft(l: ListenerPc): nat {
    match l
    case StopWantSockets => 5
    case StopClosing => 4
    case StopWantKillEvent => 3
    case StopInKillEvent => 2
    case LoopTest => 1
    case _ => 0
  }

  /** The sender's steps for messages it has not finished: three of its own and two for each socket. */
  function MessagesLeft(messages: nat, sockets: nat): nat {
    if messages == 0 then 0 else (2 * sockets + 3) + MessagesLeft(messages - 1, sockets)
  }

  /** The sender's steps to its end, if nothing more is queued. */
  function SenderLeft(p: SenderPc, queue: nat, sockets: nat): nat
    requires SenderInv(p, queue, sockets)
  {
    match p
    case SendDone => 0
    case SendLoopTest => 1
    case NextMessage(i) => 2 + MessagesLeft(queue - i, sockets)
    case MessageWantSockets(i) => 1 + MessagesLeft(queue - i, sockets)
    case Writing(i, j, tested) =>
      3 + 2 * (sockets - j) - (if tested then 1 else 0) + MessagesLeft(queue - i - 1, sockets)
    case SendTestQueue => 3 + MessagesLeft(queue, sockets)
    case SendWantQueue => 4 + MessagesLeft(queue, sockets)
  }

  /** An upper bound on the steps that both threads together still make. */
  function StepsLeft(s: State): nat
    requires Inv(s)
  {
    if s.crashed then 0
    else ListenerLeft(s.listener) + SenderLeft(s.sender, |s.messageQueue|, |s.sockets|) + 1
  }

  /** After `killed`, nobody joins, leaves, or is queued a message. */
  lemma ListenerStops(s: State, ch: Choice)
    requires s.killed && StopInv(s.killed, s.listener, s.sender) && ListenerEnabled(s, ch)
    ensures
      var s' := ListenerStep(s, ch);
      && s'.killed && !s'.crashed == !s.crashed && s'.sender == s.sender
      && s'.log == s.log && s'.messageQueue == s.messageQueue && s'.sockets == s.sockets
      && |s'.conns| == |s.conns| && s'.cleared == s.cleared
      && ListenerLeft(s'.listener) + 1 == ListenerLeft(s.listener)
  {
  }

  lemma SenderFrame(s: State, ch: Choice)
    requires SenderEnabled(s, ch)
    ensures
      var s' := SenderStep(s, ch);
      && s'.killed == s.killed && s'.listener == s.listener && s'.log == s.log && s'.sockets == s.sockets
  {
  }

  lemma SenderAddsNobody(s: State, ch: Choice)
    requires SenderEnabled(s, ch)
    ensures |SenderStep(s, ch).conns| == |s.conns|
  {
  }

  /** This step of the sender brings it nearer to its end. */
  predicate Nearer(s: State, s': State)
    requires SenderInv(s.sender, |s.messageQueue|, |s.sockets|)
  {
    && SenderInv(s'.sender, |s'.messageQueue|, |s'.sockets|)
    && SenderLeft(s'.sender, |s'.messageQueue|, |s'.sockets|) < SenderLeft(s.sender, |s.messageQueue|, |s.sockets|)
  }

  lemma WriterDrains(s: State, ch: Choice)
    requires SenderInv(s.sender, |s.messageQueue|, |s.sockets|) && SenderEnabled(s, ch) && s.sender.Writing?
    ensures SenderStep(s, ch).crashed || Nearer(s, SenderStep(s, ch))
  {
  }

  /** Whether it is after `killed` or somewhere in a turn of the loop. */
  lemma SenderDrains(s: State, ch: Choice)
    requires (s.killed || !s.sender.SendLoopTest?) && SenderInv(s.sender, |s.messageQueue|, |s.sockets|)
    requires SenderEnabled(s, ch) && !s.crashed
    ensures SenderStep(s, ch).crashed || Nearer(s, SenderStep(s, ch))
  {
    if s.sender.Writing? {
      WriterDrains(s, ch);
    }
  }

  /** Every step after `killed` brings the end nearer, and changes neither the clients nor the log. */
  lemma StepTowardsTheEnd(states: seq<State>, acts: seq<Action>, k: nat)
    requires IsProgramRun(states, acts) && k < |acts| && states[k].killed
    ensures Inv(states[k]) && Inv(states[k + 1]) && StepsLeft(states[k + 1]) < StepsLeft(states[k])
    ensures states[k + 1].killed && states[k + 1].log == states[k].log && states[k + 1].sockets == states[k].sockets
    ensures |states[k + 1].conns| == |states[k].conns|
  {
    Invariant(states, acts, k);
    Invariant(states, acts, k + 1);
    assert StepAt(states, acts, k);
    match acts[k]
    case Listen(ch) => ListenerStops(states[k], ch);
    case Send(ch) =>
      SenderFrame(states[k], ch);
      SenderAddsNobody(states[k], ch);
      SenderDrains(states[k], ch);
  }

  /** Shutdown terminates: after `killed` a run has at most StepsLeft more steps, accepts no connection and
      queues no message. */
  lemma {:induction false} ShutdownTerminates(states: seq<State>, acts: seq<Action>, i: nat, j: nat)
    requires IsProgramRun(states, acts) && i <= j < |states| && states[i].killed
    ensures Inv(states[i]) && Inv(states[j]) && StepsLeft(states[j]) + (j - i) <= StepsLeft(states[i])
    ensures states[j].killed && states[j].log == states[i].log && states[j].sockets == states[i].sockets
    ensures |states[j].conns| == |states[i].conns|
  {
    if i == j {
      Invariant(states, acts, i);
    } else {
      ShutdownTerminates(states, acts, i, j - 1);
      StepTowardsTheEnd(states, acts, j - 1);
    }
  }

  // ------------------------------------------------ how a shutdown ends

  /** Once stop() has closed the sockets, no client ever gets anything more. */
  lemma {:induction false} NothingIsDeliveredAfterStop(states: seq<State>, acts: seq<Action>, i: nat, j: nat)
    requires IsProgramRun(states, acts) && i <= j < |states|
    requires HasClosed(states[i].killed, states[i].listener)
    ensures HasClosed(states[j].killed, states[j].listener)
    ensures |states[j].conns| == |states[i].conns|
    ensures forall c :: 0 <= c < |states[i].conns| ==> states[j].conns[c].out == states[i].conns[c].out
  {
    if i < j {
      NothingIsDeliveredAfterStop(states, acts, i, j - 1);
      Invariant(states, acts, j - 1);
      SilentStep(states, acts, j - 1);
    }
  }

  lemma SilentStep(states: seq<State>, acts: seq<Action>, k: nat)
    requires IsRun(states, acts) && k < |acts| && Inv(states[k]) && HasClosed(states[k].killed, states[k].listener)
    ensures HasClosed(states[k + 1].killed, states[k + 1].listener)
    ensures states[k + 1].conns == states[k].conns && states[k + 1].sockets == states[k].sockets
  {
    assert StepAt(states, acts, k);
    match acts[k]
    case Listen(_) =>
    case Send(ch) =>
      if states[k].sender.Writing? && states[k].sender.socket < |states[k].sockets| {
        MembersClosed(states[k], states[k].sender.socket);
      }
  }

  lemma MembersClosed(s: State, j: nat)
    requires Inv(s) && HasClosed(s.killed, s.listener) && j < |s.sockets|
    ensures !IsOpen(s, s.sockets[j].conn)
  {
    assert SeatInv(s.conns, s.sockets, j);
    assert ClosedConn(s.conns, s.sockets[j].conn);
  }

  /** The sender will still try to write to somebody: it is past its last look at `killed`, a client is in the
      vector, and there is a message it has not finished. */
  predicate StillWrites(s: State) {
    s.sockets != [] &&
    match s.sender
    case SendLoopTest => false
    case SendDone => false
    case SendWantQueue => s.messageQueue != []
    case SendTestQueue => s.messageQueue != []
    case NextMessage(i) => i < |s.messageQueue|
    case MessageWantSockets(_) => true
    case Writing(i, j, _) => j < |s.sockets| || i + 1 < |s.messageQueue|
  }

  lemma StillWritesStep(states: seq<State>, acts: seq<Action>, k: nat)
    requires IsRun(states, acts) && k < |acts| && Inv(states[k]) && HasClosed(states[k].killed, states[k].listener)
    ensures StillWrites(states[k]) <==> StillWrites(states[k + 1])
    ensures states[k + 1].crashed ==> StillWrites(states[k + 1])
  {
    assert StepAt(states, acts, k);
    var s := states[k];
    match acts[k]
    case Listen(ch) => ListenerStops(s, ch);
    case Send(ch) =>
      if s.sender.Writing? && s.sender.socket < |s.sockets| {
        MembersClosed(s, s.sender.socket);
      }
  }

  lemma {:induction false} StillWritesKept(states: seq<State>, acts: seq<Action>, i: nat, j: nat)
    requires IsProgramRun(states, acts) && i <= j < |states|
    requires HasClosed(states[i].killed, states[i].listener) && !states[i].crashed
    ensures HasClosed(states[j].killed, states[j].listener)
    ensures StillWrites(states[i]) <==> StillWrites(states[j])
    ensures states[j].crashed ==> StillWrites(states[j])
  {
    if i < j {
      StillWritesKept(states, acts, i, j - 1);
      Invariant(states, acts, j - 1);
      SilentStep(states, acts, j - 1);
      StillWritesStep(states, acts, j - 1);
    }
  }

  /** Whether the server goes down cleanly is settled when stop() has closed the sockets: the program ends by
      an uncaught exception if and only if the sender still has a message for somebody then. */
  lemma ShutdownCrashesIff(states: seq<State>, acts: seq<Action>, i: nat)
    requires IsProgramRun(states, acts) && i < |states|
    requires HasClosed(states[i].killed, states[i].listener) && !states[i].crashed
    requires states[|acts|].crashed || (states[|acts|].listener.ListenDone? && states[|acts|].sender.SendDone?)
    ensures states[|acts|].crashed <==> StillWrites(states[i])
  {
    StillWritesKept(states, acts, i, |acts|);
  }
}
