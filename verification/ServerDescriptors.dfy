/** The descriptors of the program before stop(). */
module ServerDescriptors {
  import opened Wrappers
  import opened Entries
  import opened ServerMachine
  import opened ServerInvariants
  import opened ServerDelivery

  /** The listening socket. */
  const SERVER_FD: int := 3

  predicate FreshFd(fd: int) {
    fd >= 0 && fd !in BASE_DESCRIPTORS
  }

  predicate ClientFd(conns: seq<Conn>, killEventFd: int, c: ConnId)
    requires c < |conns|
  {
    FreshFd(conns[c].fd) && conns[c].fd != killEventFd
  }

  /** Clients and kill event have descriptors of their own. */
  predicate FdInv(s: State) {
    && (s.killEventFd == -1 || FreshFd(s.killEventFd))
    && (forall c :: 0 <= c < |s.conns| ==> ClientFd(s.conns, s.killEventFd, c))
  }

  lemma NewDescriptorIsFresh(s: State, fd: int)
    requires Inv(s) && FdInv(s) && !s.killed && fd >= 0 && fd !in s.descriptors
    ensures FreshFd(fd) && fd != s.killEventFd && forall c :: 0 <= c < |s.conns| ==> s.conns[c].fd != fd
  {
    forall c | 0 <= c < |s.conns|
      ensures s.conns[c].fd != fd
    {
      assert s.conns[c].fd in DescriptorsOf(s.conns);
    }
  }

  predicate MakesDescriptor(l: ListenerPc) {
    l.Accepting? || l.InKillEvent?
  }

  lemma NewDescriptorKeepsFds(s: State, ch: Choice)
    requires Inv(s) && FdInv(s) && ListenerEnabled(s, ch) && MakesDescriptor(s.listener)
    ensures FdInv(ListenerStep(s, ch))
  {
    var s' := ListenerStep(s, ch);
    if ch.NewDescriptor? {
      NewDescriptorIsFresh(s, ch.fd);
    }
    forall c | 0 <= c < |s'.conns|
      ensures ClientFd(s'.conns, s'.killEventFd, c)
    {
      assert c < |s.conns| ==> ClientFd(s.conns, s.killEventFd, c);
    }
  }

  /** The descriptors of the connections there were, and of the kill event, are as before. */
  predicate SameFds(s: State, s': State) {
    && s'.killEventFd == s.killEventFd && |s'.conns| == |s.conns|
    && forall c :: 0 <= c < |s.conns| ==> s'.conns[c].fd == s.conns[c].fd
  }

  lemma SameKillEvent(s: State, ch: Choice)
    requires ListenerEnabled(s, ch) && InOnSocket(s.listener)
    ensures ListenerStep(s, ch).killEventFd == s.killEventFd
  {
  }

  lemma SameCount(s: State, ch: Choice)
    requires ListenerEnabled(s, ch) && ReplacesConn(s.listener)
    ensures |ListenerStep(s, ch).conns| == |s.conns|
  {
  }

  lemma HandlerMakesNone(s: State, ch: Choice)
    requires ListenerEnabled(s, ch) && InOnSocket(s.listener)
    ensures ListenerStep(s, ch).killEventFd == s.killEventFd && |ListenerStep(s, ch).conns| == |s.conns|
  {
    SameKillEvent(s, ch);
    if ReplacesConn(s.listener) {
      SameCount(s, ch);
    } else {
      SameConnsGrow(s, ch);
    }
  }

  lemma OthersMakeNone(s: State, ch: Choice)
    requires ListenerEnabled(s, ch) && !MakesDescriptor(s.listener)
    ensures ListenerStep(s, ch).killEventFd == s.killEventFd && |ListenerStep(s, ch).conns| == |s.conns|
  {
    if InOnSocket(s.listener) {
      HandlerMakesNone(s, ch);
    }
  }

  lemma OthersKeepFds(s: State, ch: Choice)
    requires ListenerEnabled(s, ch) && PcInv(s.listener, s.conns, s.sockets) && !MakesDescriptor(s.listener)
    ensures SameFds(s, ListenerStep(s, ch))
  {
    OthersMakeNone(s, ch);
    ListenerGrows(s, ch);
    forall c | 0 <= c < |s.conns|
      ensures ListenerStep(s, ch).conns[c].fd == s.conns[c].fd
    {
      assert ConnGrows(s.conns, ListenerStep(s, ch).conns, c);
    }
  }

  lemma SenderKeepsFds(s: State, ch: Choice)
    requires SenderEnabled(s, ch)
    ensures SameFds(s, SenderStep(s, ch))
  {
  }

  lemma SameFdsKeep(s: State, s': State)
    requires FdInv(s) && SameFds(s, s')
    ensures FdInv(s')
  {
    forall c | 0 <= c < |s'.conns|
      ensures ClientFd(s'.conns, s'.killEventFd, c)
    {
      assert ClientFd(s.conns, s.killEventFd, c);
    }
  }

  lemma {:induction false} DescriptorsAreOwn(states: seq<State>, acts: seq<Action>, k: nat)
    requires IsProgramRun(states, acts) && k < |states|
    ensures FdInv(states[k])
  {
    if k > 0 {
      DescriptorsAreOwn(states, acts, k - 1);
      Invariant(states, acts, k - 1);
      assert StepAt(states, acts, k - 1);
      match acts[k - 1]
      case Listen(ch) =>
        if MakesDescriptor(states[k - 1].listener) {
          NewDescriptorKeepsFds(states[k - 1], ch);
        } else {
          OthersKeepFds(states[k - 1], ch);
          SameFdsKeep(states[k - 1], states[k]);
        }
      case Send(ch) =>
        SenderKeepsFds(states[k - 1], ch);
        SameFdsKeep(states[k - 1], states[k]);
    }
  }

  function FdOf(conns: seq<Conn>, c: ConnId): int {
    if c < |conns| then conns[c].fd else -1
  }

  /** Whenever the waiter can be called, that is before stop(), what it watches meets its condition, with the kill
      event that it has or any that it can be given. */
  lemma WatchedAreSeparate(states: seq<State>, acts: seq<Action>, k: nat, efd: int)
    requires IsProgramRun(states, acts) && k < |states| && !states[k].killed
    requires efd >= 0 && efd !in states[k].descriptors
    ensures
      var s := states[k];
      Separate(Some(SERVER_FD), if s.killEventFd == -1 then efd else s.killEventFd, s.watched, c => FdOf(s.conns, c))
  {
    Invariant(states, acts, k);
    DescriptorsAreOwn(states, acts, k);
    var s := states[k];
    NewDescriptorIsFresh(s, efd);
    var kill := if s.killEventFd == -1 then efd else s.killEventFd;
    forall c | c in s.watched
      ensures FdOf(s.conns, c) > 0 && FdOf(s.conns, c) != kill && FdOf(s.conns, c) != SERVER_FD
    {
      assert MemberOf(s.conns, c) && ClientFd(s.conns, s.killEventFd, c);
    }
    forall c, d | c in s.watched && d in s.watched && FdOf(s.conns, c) == FdOf(s.conns, d)
      ensures c == d
    {
      assert MemberOf(s.conns, c) && MemberOf(s.conns, d) && OwnDescriptor(s.conns, c);
    }
  }
}
