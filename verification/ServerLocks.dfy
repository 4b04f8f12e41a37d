/** The three mutexes: order, absence of deadlock, and that the program can always go on. */
module ServerLocks {
  import opened ServerMachine
  import opened ServerInvariants

  datatype Thread = Listener | Sender

  datatype Mutex = MessageQueueLock | SocketsLock | KillEventLock {
    /** The order in which a thread that takes more than one takes them. */
    function Rank(): nat {
      if MessageQueueLock? then 0 else if SocketsLock? then 1 else 2
    }
  }

  function Holder(s: State, m: Mutex): Lock {
    match m
    case MessageQueueLock => s.queueHolder
    case SocketsLock => s.socketsHolder
    case KillEventLock => s.killHolder
  }

  predicate Holds(s: State, t: Thread, m: Mutex) {
    Holder(s, m) == if t == Listener then HeldByListener else HeldBySender
  }

  /** The thread's next step is to take this mutex. */
  predicate Wants(s: State, t: Thread, m: Mutex) {
    match (t, m)
    case (Listener, MessageQueueLock) => s.listener.WantQueue?
    case (Listener, SocketsLock) => WantsSockets(s.listener)
    case (Listener, KillEventLock) => s.listener.WantKillEvent? || s.listener.StopWantKillEvent?
    case (Sender, MessageQueueLock) => s.sender.SendWantQueue?
    case (Sender, SocketsLock) => s.sender.MessageWantSockets?
    case (Sender, KillEventLock) => false
  }

  /** The thread wants a mutex that is taken. */
  predicate Waits(s: State, t: Thread, m: Mutex) {
    Wants(s, t, m) && !Holder(s, m).Free?
  }

  predicate Finished(s: State, t: Thread) {
    if t == Listener then s.listener.ListenDone? else s.sender.SendDone?
  }

  ghost predicate CanStep(s: State, t: Thread) {
    exists ch :: Enabled(s, if t == Listener then Listen(ch) else Send(ch))
  }

  /** A thread takes only a mutex that ranks above every one it holds; in particular none that it holds. */
  lemma TakenInOrder(states: seq<State>, acts: seq<Action>, k: nat, t: Thread, wanted: Mutex, held: Mutex)
    requires IsProgramRun(states, acts) && k < |states|
    requires Wants(states[k], t, wanted) && Holds(states[k], t, held)
    ensures held.Rank() < wanted.Rank()
  {
    Invariant(states, acts, k);
  }

  /** The two threads never wait for each other, and neither waits for itself. */
  lemma NoCyclicWait(states: seq<State>, acts: seq<Action>, k: nat, t: Thread, m: Mutex)
    requires IsProgramRun(states, acts) && k < |states| && Waits(states[k], t, m)
    ensures !Holds(states[k], t, m)
    ensures forall n, u :: Waits(states[k], u, n) && u != t ==> !(Holds(states[k], u, m) && Holds(states[k], t, n))
  {
    Invariant(states, acts, k);
  }

  /** A descriptor the system has not handed out. */
  lemma UnusedDescriptor(used: set<int>) returns (fd: int)
    ensures fd >= 0 && fd !in used
  {
    fd := 0;
    var below: set<int> := {};
    while fd in used
      invariant fd >= 0 && below <= used && fd !in below
      invariant forall x :: 0 <= x < fd ==> x in below
      invariant forall x :: x in below ==> 0 <= x < fd
      decreases used - below
    {
      below := below + {fd};
      fd := fd + 1;
    }
  }

  lemma ListenerCanStep(s: State)
    requires Inv(s) && !s.crashed && !s.listener.ListenDone?
    requires forall m :: !Waits(s, Listener, m)
    ensures CanStep(s, Listener)
  {
    assert !Waits(s, Listener, MessageQueueLock) && !Waits(s, Listener, SocketsLock)
           && !Waits(s, Listener, KillEventLock);
    var fd := UnusedDescriptor(s.descriptors);
    var ch :=
      if s.listener.BuildingSet? then Polled(s.listener.candidates)
      else if s.listener.Accepting? || (s.listener.InKillEvent? && s.killEventFd == -1) then NewDescriptor(fd)
      else if s.listener.Selecting? then Selected(Timeout)
      else if s.listener.Reading? && s.listener.tested then ReadNothing
      else Go;
    assert Enabled(s, Listen(ch));
  }

  lemma SenderCanStep(s: State)
    requires Inv(s) && !s.crashed && !s.sender.SendDone?
    requires forall m :: !Waits(s, Sender, m)
    ensures CanStep(s, Sender)
  {
    assert !Waits(s, Sender, MessageQueueLock) && !Waits(s, Sender, SocketsLock);
    assert Enabled(s, Send(Go));
  }

  /** A thread that has not finished can step, or waits for a mutex of the other thread, which can step. */
  lemma BlockedOnlyByARunner(states: seq<State>, acts: seq<Action>, k: nat, t: Thread)
    requires IsProgramRun(states, acts) && k < |states| && !states[k].crashed && !Finished(states[k], t)
    ensures
      var other := if t == Listener then Sender else Listener;
      CanStep(states[k], t) ||
      (CanStep(states[k], other) && exists m :: Waits(states[k], t, m) && Holds(states[k], other, m))
  {
    Invariant(states, acts, k);
    var s := states[k];
    if forall m :: !Waits(s, t, m) {
      if t == Listener { ListenerCanStep(s); } else { SenderCanStep(s); }
    } else {
      var m :| Waits(s, t, m);
      var other := if t == Listener then Sender else Listener;
      OtherRuns(s, t, m);
      assert Waits(s, t, m) && Holds(s, other, m);
    }
  }

  lemma OtherRuns(s: State, t: Thread, m: Mutex)
    requires Inv(s) && !s.crashed && Waits(s, t, m)
    ensures
      var other := if t == Listener then Sender else Listener;
      Holds(s, other, m) && CanStep(s, other)
  {
    if t == Listener {
      assert !s.sender.SendDone? && forall n :: !Waits(s, Sender, n);
      SenderCanStep(s);
    } else {
      assert !s.listener.ListenDone? && forall n :: !Waits(s, Listener, n);
      ListenerCanStep(s);
    }
  }

  /** A run that cannot be continued has crashed, or both threads have returned. */
  lemma NoDeadlock(states: seq<State>, acts: seq<Action>)
    requires IsProgramRun(states, acts)
    requires forall a :: !Enabled(states[|acts|], a)
    ensures states[|acts|].crashed || (Finished(states[|acts|], Listener) && Finished(states[|acts|], Sender))
  {
    var s := states[|acts|];
    if !s.crashed && !Finished(s, Listener) {
      BlockedOnlyByARunner(states, acts, |acts|, Listener);
    } else if !s.crashed && !Finished(s, Sender) {
      BlockedOnlyByARunner(states, acts, |acts|, Sender);
    }
  }
}
