/** The sender, left alone with the queue, writes all of it to every member and clears it. */
module ServerDrains {
  import opened Wrappers
  import opened Messages
  import opened Entries
  import opened ServerMachine
  import opened ServerInvariants
  import opened ServerRuns
  import opened ServerShutdown
  import opened ServerWaiting
  import opened ServerAlone

  /** From s on only the sender has gone on, it has not yet come back to the top of its loop, and no write failed. */
  ghost predicate SendsAlone(s: State, run: Course) {
    Leads(s, run) && run.acts != [] && forall m: nat :: m < |run.acts| ==> SenderTurn(run, m)
  }

  predicate SenderTurn(run: Course, m: nat) {
    m < |run.acts| && m < |run.states| &&
    run.acts[m].Send? && !run.acts[m].choice.WriteFails? && (m > 0 ==> !run.states[m].sender.SendLoopTest?)
  }

  /** The top of the sender's loop before stop(), with nobody else in a critical section and every member open. */
  ghost predicate ReadyToSend(s: State) {
    && !s.crashed && !s.killed && s.sender.SendLoopTest?
    && s.queueHolder.Free? && s.socketsHolder.Free?
    && forall c: ConnId :: MemberOf(s.conns, c) ==> s.conns[c].open
  }

  /** Every member has got these messages, and nothing else has changed. */
  function ToAllMembers(conns: seq<Conn>, messages: seq<Instance>): seq<Conn> {
    seq(|conns|, c requires 0 <= c < |conns| =>
      if conns[c].life.Member? then conns[c].(out := conns[c].out + messages) else conns[c])
  }

  // ------------------------------------------------------- under way

  /** How many messages the k-th entry has got. */
  function GivenTo(p: SenderPc, k: nat): nat {
    Drained(p) + if p.Writing? && k < p.socket then 1 else 0
  }

  predicate SeatGiven(s: State, t: State, k: nat)
    requires k < |s.sockets|
  {
    var c, n := s.sockets[k].conn, GivenTo(t.sender, k);
    && c < |s.conns| && c < |t.conns| && n <= |s.messageQueue|
    && t.conns[c] == s.conns[c].(out := s.conns[c].out + s.messageQueue[..n])
  }

  /** t is where the sender has come to from s. */
  ghost predicate UnderWay(s: State, t: State) {
    && t == s.(conns := t.conns, sender := t.sender, queueHolder := t.queueHolder, socketsHolder := t.socketsHolder)
    && |t.conns| == |s.conns| && !t.sender.SendLoopTest? && !t.sender.SendDone?
    && (forall k :: 0 <= k < |s.sockets| ==> SeatGiven(s, t, k))
    && (forall c :: 0 <= c < |s.conns| && !MemberOf(s.conns, c) ==> t.conns[c] == s.conns[c])
    && (t.sender.SendWantQueue? || t.sender.SendTestQueue? ==> t.conns == s.conns)
  }

  lemma FirstTurn(s: State)
    requires Inv(s) && ReadyToSend(s)
    ensures UnderWay(s, TestSendLoop(s))
  {
    forall k | 0 <= k < |s.sockets|
      ensures SeatGiven(s, TestSendLoop(s), k)
    {
      assert SeatInv(s.conns, s.sockets, k);
    }
  }

  lemma QuietTurn(s: State, t: State)
    requires UnderWay(s, t) && SenderEnabled(t, Go) && !t.sender.Writing?
    requires !SenderStep(t, Go).sender.SendLoopTest?
    ensures UnderWay(s, SenderStep(t, Go))
  {
    var t' := SenderStep(t, Go);
    forall k | 0 <= k < |s.sockets|
      ensures SeatGiven(s, t', k)
    {
      assert SeatGiven(s, t, k);
    }
  }

  /** The test of an open member, and the end of a message. */
  lemma TestTurn(s: State, t: State)
    requires Inv(s) && ReadyToSend(s) && UnderWay(s, t) && SenderEnabled(t, Go) && t.sender.Writing? && !t.sender.tested
    requires Inv(t)
    ensures UnderWay(s, SenderStep(t, Go)) && !SenderStep(t, Go).crashed
  {
    var t' := SenderStep(t, Go);
    if t.sender.socket < |s.sockets| {
      assert SeatInv(s.conns, s.sockets, t.sender.socket) && SeatGiven(s, t, t.sender.socket);
    }
    forall k | 0 <= k < |s.sockets|
      ensures SeatGiven(s, t', k)
    {
      assert SeatGiven(s, t, k);
    }
  }

  lemma WriteTurn(s: State, t: State)
    requires Inv(s) && UnderWay(s, t) && SenderEnabled(t, Go) && t.sender.Writing? && t.sender.tested
    ensures UnderWay(s, SenderStep(t, Go))
  {
    var i, j, t' := t.sender.message, t.sender.socket, SenderStep(t, Go);
    var q := s.messageQueue;
    assert SeatInv(s.conns, s.sockets, j) && SeatGiven(s, t, j);
    assert q[..i] + [q[i]] == q[..i + 1];
    forall k | 0 <= k < |s.sockets|
      ensures SeatGiven(s, t', k)
    {
      assert SeatInv(s.conns, s.sockets, k) && SeatGiven(s, t, k);
    }
  }

  lemma Turn(s: State, t: State)
    requires Inv(s) && ReadyToSend(s) && UnderWay(s, t) && Inv(t) && SenderEnabled(t, Go)
    requires !SenderStep(t, Go).sender.SendLoopTest?
    ensures UnderWay(s, SenderStep(t, Go))
  {
    if !t.sender.Writing? {
      QuietTurn(s, t);
    } else if t.sender.tested {
      WriteTurn(s, t);
    } else {
      TestTurn(s, t);
    }
  }

  /** The turn that comes back to the top of the loop: there was nothing to send, or all has been sent. */
  lemma LastTurn(s: State, t: State)
    requires Inv(s) && ReadyToSend(s) && UnderWay(s, t) && Inv(t) && SenderEnabled(t, Go)
    requires SenderStep(t, Go).sender.SendLoopTest?
    ensures SenderStep(t, Go) == s.(conns := ToAllMembers(s.conns, s.messageQueue), messageQueue := [], cleared := |s.log|)
  {
    var t', after := SenderStep(t, Go), ToAllMembers(s.conns, s.messageQueue);
    forall c | 0 <= c < |s.conns|
      ensures t'.conns[c] == after[c]
    {
      if s.conns[c].life.Member? {
        assert Seated(s.sockets, c);
        var k :| 0 <= k < |s.sockets| && s.sockets[k].conn == c;
        assert SeatGiven(s, t, k);
      }
    }
    assert t'.conns == after;
  }

  // ------------------------------------------------------- all such runs

  lemma OnlyGo(t: State, ch: Choice)
    requires SenderEnabled(t, ch) && !ch.WriteFails?
    ensures ch.Go?
  {
  }

  lemma {:induction false} AloneAt(s: State, run: Course, m: nat)
    requires Inv(s) && ReadyToSend(s) && SendsAlone(s, run) && m < |run.acts|
    ensures Inv(run.states[m]) && (if m == 0 then run.states[m] == s else UnderWay(s, run.states[m]))
    ensures run.acts[m] == Send(Go) && StepAt(run.states, run.acts, m)
  {
    RunKeeps(run.states, run.acts, m);
    assert StepAt(run.states, run.acts, m) && SenderTurn(run, m);
    OnlyGo(run.states[m], run.acts[m].choice);
    if m > 0 {
      var p := m - 1;
      AloneAt(s, run, p);
      if p == 0 { FirstTurn(s); } else { Turn(s, run.states[p]); }
    }
  }

  /** However many members there are: every run of the sender alone from the top of its loop to the top of its loop,
      without a failed write, appends the whole queue to what each member has got, clears the queue, and changes
      nothing else. */
  lemma DrainedAlone(states: seq<State>, acts: seq<Action>, k: nat, run: Course)
    requires IsProgramRun(states, acts) && k < |states| && ReadyToSend(states[k])
    requires SendsAlone(states[k], run) && run.last.sender.SendLoopTest?
    ensures
      var s := states[k];
      run.last == s.(conns := ToAllMembers(s.conns, s.messageQueue), messageQueue := [], cleared := |s.log|)
  {
    Invariant(states, acts, k);
    var m := |run.acts| - 1;
    AloneAt(states[k], run, m);
    if m > 0 {
      LastTurn(states[k], run.states[m]);
    }
  }

  // -------------------------------------------------------- there is one

  lemma NotBlocked(s: State, t: State)
    requires Inv(s) && ReadyToSend(s) && UnderWay(s, t) && Inv(t)
    ensures Enabled(t, Send(Go))
  {
    if t.sender.Writing? && t.sender.tested {
      assert SeatInv(s.conns, s.sockets, t.sender.socket);
    }
  }

  lemma OneMoreTurn(s: State, run: Course) returns (longer: Course)
    requires Inv(s) && ReadyToSend(s) && SendsAlone(s, run) && UnderWay(s, run.last) && Inv(run.last)
    ensures SendsAlone(s, longer) && longer.last == SenderStep(run.last, Go) && Inv(longer.last)
  {
    NotBlocked(s, run.last);
    longer := Further(s, run, Send(Go));
    StepKeeps(run.last, Send(Go));
    forall m: nat | m < |longer.acts|
      ensures SenderTurn(longer, m)
    {
      assert m < |run.acts| ==> SenderTurn(run, m);
    }
  }

  lemma {:induction false} ToTheTop(s: State, run: Course) returns (longer: Course)
    requires Inv(s) && ReadyToSend(s) && SendsAlone(s, run) && UnderWay(s, run.last) && Inv(run.last)
    ensures SendsAlone(s, longer) && longer.last.sender.SendLoopTest?
    decreases SenderLeft(run.last.sender, |run.last.messageQueue|, |run.last.sockets|)
  {
    longer := OneMoreTurn(s, run);
    if !longer.last.sender.SendLoopTest? {
      Turn(s, run.last);
      SenderDrains(run.last, Go);
      longer := ToTheTop(s, longer);
    }
  }

  /** There is such a run. */
  lemma CanDrainAlone(states: seq<State>, acts: seq<Action>, k: nat) returns (run: Course)
    requires IsProgramRun(states, acts) && k < |states| && ReadyToSend(states[k])
    ensures SendsAlone(states[k], run) && run.last.sender.SendLoopTest?
  {
    var s := states[k];
    Invariant(states, acts, k);
    run := Further(s, Start(s), Send(Go));
    FirstTurn(s);
    StepKeeps(s, Send(Go));
    run := ToTheTop(s, run);
  }

  // ------------------------------------------------------ from end to end

  lemma ServedIsReady(s: State, t: State, c: ConnId, es: seq<Entry<ConnId>>, queue: seq<Instance>)
    requires ReadyToSend(s) && MemberOf(s.conns, c) && Leaves(s, t, c, es, queue, None) && OthersAlike(s, t, c)
    ensures ReadyToSend(t)
  {
  }

  /** Whenever both threads are at the top of their loops and every member is open, a message that any member posts can
      be brought to every member, after all that was queued before it. */
  lemma APostCanReachAll(states: seq<State>, acts: seq<Action>, k: nat, c: ConnId, post: Instance, now: Time)
      returns (run: Course)
    requires IsProgramRun(states, acts) && k < |states| && Idle(states[k]) && ReadyToSend(states[k])
    requires MemberOf(states[k].conns, c) && post.MessageRequest?
    ensures Leads(states[k], run) && run.last.messageQueue == []
    ensures
      var s, message := states[k], MessageResponse(now, SERVER_SENDER, post.from, post.content);
      run.last.conns == ToAllMembers(s.conns, s.messageQueue + [message])
  {
    var s, message := states[k], MessageResponse(now, SERVER_SENDER, post.from, post.content);
    var serving := CanBeServed(states, acts, k, c, post, now);
    ServedIsReady(s, serving.last, c, s.sockets, s.messageQueue + [message]);
    var before := Before(states, acts, k);
    var whole := Continued(INITIAL, before, serving);
    var draining := CanDrainAlone(whole.states, whole.acts, |whole.acts|);
    DrainedAlone(whole.states, whole.acts, |whole.acts|, draining);
    run := Continued(s, serving, draining);
  }

  lemma Before(states: seq<State>, acts: seq<Action>, k: nat) returns (run: Course)
    requires IsProgramRun(states, acts) && k < |states|
    ensures Leads(INITIAL, run) && run.last == states[k]
  {
    run := Course(states[..k + 1], acts[..k], states[k]);
    forall m: nat | m < k
      ensures StepAt(run.states, run.acts, m)
    {
      assert StepAt(states, acts, m);
    }
  }
}
