/** Usernames, private replies, and the agreement of the two lists of sockets. */
module ServerNames {
  import opened Messages
  import opened Entries
  import opened ServerMachine
  import opened ServerInvariants
  import opened ServerDelivery

  // --------------------------------------------------------------- names

  /** No two clients have the same nonempty name, although the check and the binding are two critical sections. */
  lemma NamesAreUnique(states: seq<State>, acts: seq<Action>, k: nat, a: nat, b: nat)
    requires IsProgramRun(states, acts) && k < |states|
    requires a < |states[k].sockets| && b < |states[k].sockets| && a != b && states[k].sockets[a].name != ""
    ensures states[k].sockets[a].name != states[k].sockets[b].name
  {
    Invariant(states, acts, k);
    assert UniqueName(states[k].sockets, a);
  }

  predicate HasName(s: State, c: ConnId, name: string) {
    exists k :: 0 <= k < |s.sockets| && s.sockets[k].conn == c && s.sockets[k].name == name
  }

  lemma HolderHasName(s: State, c: ConnId, name: string)
    requires Inv(s) && MemberOf(s.conns, c) && HoldsName(s.sockets, c, name)
    ensures HasName(s, c, name)
  {
    assert Seated(s.sockets, c);
  }

  /** When a login is announced, the client that asked for it has the announced name. */
  lemma AnnouncedNameIsHeld(states: seq<State>, acts: seq<Action>, k: nat)
    requires IsProgramRun(states, acts) && k < |acts|
    requires |states[k].log| < |states[k + 1].log| && states[k + 1].log[|states[k + 1].log| - 1].LoginResponse?
    ensures states[k].listener.Pushing?
    ensures HasName(states[k + 1], states[k].listener.conn, states[k + 1].log[|states[k + 1].log| - 1].joiningUsername)
  {
    Invariant(states, acts, k);
    Invariant(states, acts, k + 1);
    assert StepAt(states, acts, k);
    OnlyPushLogs(states[k], acts[k]);
    var r := states[k].listener.response;
    HolderHasName(states[k + 1], states[k].listener.conn, r.joiningUsername);
  }

  lemma OnlyPushLogs(s: State, a: Action)
    requires Enabled(s, a) && Next(s, a).log != s.log
    ensures a.Listen? && s.listener.Pushing? && Next(s, a) == Push(s, s.listener.response)
  {
  }

  /** At step k the login of c under this name is accepted. */
  ghost predicate LoginAccepted(states: seq<State>, acts: seq<Action>, k: nat, c: ConnId, name: string)
    requires k < |acts| && |states| == |acts| + 1
  {
    && acts[k].Listen?
    && states[k].listener.CheckName? && states[k].listener.conn == c && states[k].listener.name == name
    && states[k + 1].listener.BindWantSockets?
  }

  predicate WillBind(l: ListenerPc, c: ConnId, name: string) {
    (l.BindWantSockets? || l.Binding?) && l.conn == c && l.response.LoginResponse? && l.response.joiningUsername == name
  }

  lemma BindsNext(states: seq<State>, acts: seq<Action>, k: nat, c: ConnId, name: string)
    requires IsProgramRun(states, acts) && k < |acts| && WillBind(states[k].listener, c, name)
    ensures WillBind(states[k + 1].listener, c, name) || HasName(states[k + 1], c, name)
  {
    Invariant(states, acts, k);
    assert StepAt(states, acts, k);
    if acts[k].Listen? && states[k].listener.Binding? {
      Invariant(states, acts, k + 1);
      HolderHasName(states[k + 1], c, name);
    }
  }

  /** An accepted login is bound before the listener does anything else. */
  lemma {:induction false} BoundBefore(states: seq<State>, acts: seq<Action>, i: nat, j: nat, c: ConnId, name: string)
    requires IsProgramRun(states, acts) && i < j < |states| && LoginAccepted(states, acts, i, c, name)
    ensures WillBind(states[j].listener, c, name) || exists q :: i < q <= j && HasName(states[q], c, name)
  {
    assert StepAt(states, acts, i);
    if j > i + 1 {
      BoundBefore(states, acts, i, j - 1, c, name);
      if WillBind(states[j - 1].listener, c, name) {
        BindsNext(states, acts, j - 1, c, name);
      }
    }
  }

  /** A client that is or was a member has left, or has another name than this one. */
  ghost predicate GaveUp(s: State, c: ConnId, name: string) {
    c < |s.conns| && (s.conns[c].life.Left? || exists other :: other != name && HasName(s, c, other))
  }

  lemma GaveUpOrHas(s: State, c: ConnId, name: string)
    requires Inv(s) && c < |s.conns| && !s.conns[c].life.Accepted? && !NameInUse(s.sockets, name)
    ensures GaveUp(s, c, name)
  {
    if s.conns[c].life.Member? {
      var k := SeatOf(s, c);
      assert HasName(s, c, s.sockets[k].name);
    }
  }

  /** Between two accepted logins for one name there is a moment at which the first client has the name, and
      by the second login it has left or taken another name, and nobody has the name. */
  lemma NameHistory(states: seq<State>, acts: seq<Action>, i: nat, j: nat, c: ConnId, d: ConnId, name: string)
    requires IsProgramRun(states, acts) && i < j < |acts|
    requires LoginAccepted(states, acts, i, c, name) && LoginAccepted(states, acts, j, d, name)
    ensures exists q :: i < q <= j && HasName(states[q], c, name)
    ensures GaveUp(states[j], c, name) && !NameInUse(states[j].sockets, name)
  {
    BoundBefore(states, acts, i, j, c, name);
    assert StepAt(states, acts, j);
    Invariant(states, acts, i);
    Invariant(states, acts, j);
    HistoryGrows(states, acts, i, j);
    assert ConnGrows(states[i].conns, states[j].conns, c);
    GaveUpOrHas(states[j], c, name);
  }

  // ----------------------------------------------------- private replies

  /** `out` is `a` and `b`, each in its order. */
  predicate Interleaving(a: seq<Instance>, b: seq<Instance>, out: seq<Instance>)
    decreases |out|
  {
    if out == [] then a == [] && b == []
    else
      var last, rest := out[|out| - 1], out[..|out| - 1];
      (a != [] && a[|a| - 1] == last && Interleaving(a[..|a| - 1], b, rest)) ||
      (b != [] && b[|b| - 1] == last && Interleaving(a, b[..|b| - 1], rest))
  }

  lemma {:induction false} OutIsAnInterleaving(out: seq<Instance>)
    ensures Interleaving(Broadcasts(out), ErrorReplies(out), out)
  {
    if out != [] {
      var rest := out[..|out| - 1];
      OutIsAnInterleaving(rest);
      if out[|out| - 1].ErrorResponse? {
        assert ErrorReplies(out)[..|ErrorReplies(out)| - 1] == ErrorReplies(rest);
      } else {
        assert Broadcasts(out)[..|Broadcasts(out)| - 1] == Broadcasts(rest);
      }
    }
  }

  /** No error is ever queued or logged, so none is broadcast. */
  lemma ErrorsAreNotQueued(states: seq<State>, acts: seq<Action>, k: nat)
    requires IsProgramRun(states, acts) && k < |states|
    ensures forall t :: 0 <= t < |states[k].messageQueue| ==> !states[k].messageQueue[t].ErrorResponse?
    ensures forall t :: 0 <= t < |states[k].log| ==> !states[k].log[t].ErrorResponse?
  {
    Invariant(states, acts, k);
  }

  /** Where a connection's piece of the log begins. */
  function JoinedAt(conn: Conn): nat {
    if conn.life.Accepted? then 0 else conn.life.joinedAt
  }

  lemma PieceOfLog(s: State, c: ConnId, n: nat)
    requires c < |s.conns| && n == |Broadcasts(s.conns[c].out)|
    requires if s.conns[c].life.Accepted? then n == 0
             else SegmentOf(Broadcasts(s.conns[c].out), s.log, s.conns[c].life.joinedAt)
    ensures JoinedAt(s.conns[c]) + n <= |s.log|
    ensures s.log[JoinedAt(s.conns[c])..JoinedAt(s.conns[c]) + n] == Broadcasts(s.conns[c].out)
  {
  }

  lemma BeginningOfReplies(conns: seq<Conn>, owed: Debt, c: ConnId, m: nat)
    requires c < |conns| && RepliesInv(conns, owed, c) && m == |ErrorReplies(conns[c].out)|
    ensures m <= |conns[c].replies| && conns[c].replies[..m] == ErrorReplies(conns[c].out)
    ensures !conns[c].failed ==> m == |conns[c].replies| - if owed.Owes? && owed.conn == c then 1 else 0
  {
  }

  /** What a client gets is a contiguous piece of the log interleaved with replies to its own rejected logins: the
      first of them if a write has failed, and otherwise all but the one that is about to be written. */
  lemma ErrorsArePrivate(states: seq<State>, acts: seq<Action>, k: nat, c: ConnId) returns (n: nat, m: nat)
    requires IsProgramRun(states, acts) && k < |states| && c < |states[k].conns|
    ensures
      var s := states[k];
      var conn := s.conns[c];
      && JoinedAt(conn) + n <= |s.log| && m <= |conn.replies|
      && Interleaving(s.log[JoinedAt(conn)..JoinedAt(conn) + n], conn.replies[..m], conn.out)
      && (!conn.failed ==> m == |conn.replies| - if s.listener.Replying? && s.listener.conn == c then 1 else 0)
  {
    var s := states[k];
    Invariant(states, acts, k);
    assert RepliesInv(s.conns, Owed(s.listener), c);
    BroadcastsAreASegment(states, acts, k, c);
    n, m := PrivateIn(s, c);
  }

  lemma PrivateIn(s: State, c: ConnId) returns (n: nat, m: nat)
    requires c < |s.conns| && RepliesInv(s.conns, Owed(s.listener), c)
    requires if s.conns[c].life.Accepted? then Broadcasts(s.conns[c].out) == []
             else SegmentOf(Broadcasts(s.conns[c].out), s.log, s.conns[c].life.joinedAt)
    ensures
      var conn := s.conns[c];
      && JoinedAt(conn) + n <= |s.log| && m <= |conn.replies|
      && Interleaving(s.log[JoinedAt(conn)..JoinedAt(conn) + n], conn.replies[..m], conn.out)
      && (!conn.failed ==> m == |conn.replies| - if s.listener.Replying? && s.listener.conn == c then 1 else 0)
  {
    n, m := |Broadcasts(s.conns[c].out)|, |ErrorReplies(s.conns[c].out)|;
    PieceOfLog(s, c, n);
    BeginningOfReplies(s.conns, Owed(s.listener), c, m);
    OutIsAnInterleaving(s.conns[c].out);
  }

  /** A rejected login changes neither the vector nor the log, whatever the sender does meanwhile, and the
      reply goes to the client that asked. */
  lemma {:induction false} RejectedLoginLeavesNoTrace(states: seq<State>, acts: seq<Action>, i: nat, j: nat)
    requires IsProgramRun(states, acts) && i < j < |states|
    requires acts[i].Listen? && states[i].listener.CheckName?
    requires NameInUse(states[i].sockets, states[i].listener.name)
    requires forall m :: i < m < j ==> states[m].listener.Replying?
    ensures states[j].sockets == states[i].sockets && states[j].log == states[i].log
    ensures states[j].listener.Replying? ==> states[j].listener.conn == states[i].listener.conn
  {
    assert StepAt(states, acts, j - 1);
    if j > i + 1 {
      RejectedLoginLeavesNoTrace(states, acts, i, j - 1);
      ReplyTouchesNoSharedData(states[j - 1], acts[j - 1]);
    }
  }

  lemma ReplyTouchesNoSharedData(s: State, a: Action)
    requires Enabled(s, a) && s.listener.Replying?
    ensures Next(s, a).sockets == s.sockets && Next(s, a).log == s.log
    ensures Next(s, a).listener.LoopTest? ||
            (Next(s, a).listener.Replying? && Next(s, a).listener.conn == s.listener.conn)
  {
  }

  // ---------------------------------------------------- the two lists

  /** Except between the two halves of an insertion or a removal, the waiter watches exactly the sockets in
      the server's vector; the vector has no socket twice and no descriptor twice. */
  lemma IndexAgreement(states: seq<State>, acts: seq<Action>, k: nat)
    requires IsProgramRun(states, acts) && k < |states|
    ensures
      var s := states[k];
      && (!s.listener.JoinWatch? && !s.listener.GoneErase? ==> s.watched == ConnsOf(s.sockets))
      && (forall a, b :: 0 <= a < b < |s.sockets| ==>
            s.sockets[a].conn != s.sockets[b].conn && s.sockets[a].fd != s.sockets[b].fd)
  {
    Invariant(states, acts, k);
    var s := states[k];
    forall a, b | 0 <= a < b < |s.sockets|
      ensures s.sockets[a].conn != s.sockets[b].conn && s.sockets[a].fd != s.sockets[b].fd
    {
      assert SeatInv(s.conns, s.sockets, a) && SeatInv(s.conns, s.sockets, b);
      assert OwnDescriptor(s.conns, s.sockets[a].conn);
    }
    if !s.listener.JoinWatch? && !s.listener.GoneErase? {
      forall c ensures c in s.watched <==> c in ConnsOf(s.sockets) {
        if c in s.watched {
          assert Seated(s.sockets, c);
        }
        if k :| 0 <= k < |s.sockets| && s.sockets[k].conn == c {
          assert SeatInv(s.conns, s.sockets, k);
        }
      }
    }
  }

  /** No descriptor of a client is given back before stop(): a connection that has left keeps its own, and
      every later connection gets another. */
  lemma DescriptorsAreNotReturned(states: seq<State>, acts: seq<Action>, k: nat, c: ConnId, d: ConnId)
    requires IsProgramRun(states, acts) && k < |states| && c < |states[k].conns|
    ensures !states[k].killed ==> states[k].conns[c].fd in states[k].descriptors
    ensures d < |states[k].conns| && d != c ==> states[k].conns[d].fd != states[k].conns[c].fd
  {
    Invariant(states, acts, k);
    assert OwnDescriptor(states[k].conns, c);
    assert states[k].conns[c].fd in DescriptorsOf(states[k].conns);
  }
}
