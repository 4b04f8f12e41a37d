/** Where the log comes from: the requests that were read. */
module ServerRequests {
  import opened Messages
  import opened Entries
  import opened ServerMachine
  import opened ServerInvariants
  import opened ServerFrames

  /** The response that a step decides on: a message that is read is to be passed on, and a login is accepted when
      its name is checked. */
  function Decided(s: State, a: Action): seq<Instance> {
    match a
    case Send(_) => []
    case Listen(ch) =>
      if s.listener.Reading? && s.listener.tested && ch.ReadRequest? && ch.request.MessageRequest? then
        [MessageResponse(ch.now, SERVER_SENDER, ch.request.from, ch.request.content)]
      else if s.listener.CheckName? && !NameInUse(s.sockets, s.listener.name) then
        [LoginResponse(s.listener.now, SERVER_SENDER, s.listener.name)]
      else []
  }

  /** All that were decided on in the first k steps. */
  function Responses(states: seq<State>, acts: seq<Action>, k: nat): seq<Instance>
    requires k <= |acts| < |states|
  {
    if k == 0 then [] else Responses(states, acts, k - 1) + Decided(states[k - 1], acts[k - 1])
  }

  /** The response that is on its way to the queue. */
  function InFlight(l: ListenerPc): seq<Instance> {
    if HasInFlight(l) then [l.response] else []
  }

  predicate HasInFlight(l: ListenerPc) {
    l.BindWantSockets? || l.Binding? || l.WantQueue? || l.Pushing?
  }

  /** A response in flight stays, or enters the log. */
  lemma FlightGoesOn(s: State, ch: Choice)
    requires ListenerEnabled(s, ch) && HasInFlight(s.listener)
    ensures
      var s' := ListenerStep(s, ch);
      s'.log + InFlight(s'.listener) == s.log + InFlight(s.listener)
  {
  }

  lemma FlightStarts(s: State, ch: Choice)
    requires ListenerEnabled(s, ch) && (s.listener.Reading? || s.listener.CheckName?)
    ensures
      var s' := ListenerStep(s, ch);
      s'.log == s.log && InFlight(s'.listener) == Decided(s, Listen(ch))
  {
  }

  lemma OthersStartNoFlight(s: State, ch: Choice)
    requires ListenerEnabled(s, ch) && !HasInFlight(s.listener) && !s.listener.Reading? && !s.listener.CheckName?
    ensures !HasInFlight(ListenerStep(s, ch).listener)
  {
    if !InOnSocket(s.listener) {
      OutsidePc(s, ch);
    }
  }

  lemma ListenerDecides(s: State, ch: Choice)
    requires ListenerEnabled(s, ch)
    ensures
      var s' := ListenerStep(s, ch);
      s'.log + InFlight(s'.listener) == s.log + InFlight(s.listener) + Decided(s, Listen(ch))
  {
    if HasInFlight(s.listener) {
      FlightGoesOn(s, ch);
    } else if s.listener.Reading? || s.listener.CheckName? {
      FlightStarts(s, ch);
    } else {
      ListenerFrame(s, ch);
      OthersStartNoFlight(s, ch);
    }
  }

  lemma SenderDecidesNothing(s: State, ch: Choice)
    requires SenderEnabled(s, ch)
    ensures SenderStep(s, ch).log == s.log && SenderStep(s, ch).listener == s.listener
  {
  }

  /** The log, and the response on its way to it, are exactly the responses to the messages read and the logins
      accepted, each once and in the order of the requests. */
  lemma {:induction false} LogAnswersTheRequests(states: seq<State>, acts: seq<Action>, k: nat)
    requires IsProgramRun(states, acts) && k < |states|
    ensures states[k].log + InFlight(states[k].listener) == Responses(states, acts, k)
  {
    if k > 0 {
      LogAnswersTheRequests(states, acts, k - 1);
      assert StepAt(states, acts, k - 1);
      match acts[k - 1]
      case Listen(ch) => ListenerDecides(states[k - 1], ch);
      case Send(ch) => SenderDecidesNothing(states[k - 1], ch);
    }
  }

  // ------------------------------------------------- the name that is checked

  /** At step m this login is read from c. */
  ghost predicate ReadLogin(states: seq<State>, acts: seq<Action>, m: nat, c: ConnId, name: string, now: Time)
    requires m < |acts| < |states|
  {
    && states[m].listener == Reading(c, true) && acts[m].Listen?
    && acts[m].choice.ReadRequest? && acts[m].choice.now == now
    && acts[m].choice.request.LoginRequest? && acts[m].choice.request.from == name
  }

  predicate Checking(l: ListenerPc) {
    l.CheckWantSockets? || l.CheckName?
  }

  /** A name is checked only for a login that the client sent, and before the listener reads anything else. */
  lemma {:induction false} CheckedNameWasRead(states: seq<State>, acts: seq<Action>, k: nat)
    requires IsProgramRun(states, acts) && k < |states| && Checking(states[k].listener)
    ensures exists m :: 0 <= m < k && (forall q :: m < q <= k ==> Checking(states[q].listener)) &&
              ReadLogin(states, acts, m, states[k].listener.conn, states[k].listener.name, states[k].listener.now)
  {
    if k > 0 {
      var p := k - 1;
      assert StepAt(states, acts, p);
      if Checking(states[p].listener) {
        CheckedNameWasRead(states, acts, p);
      } else {
        CheckStartsAtRead(states[p], acts[p]);
        assert ReadLogin(states, acts, p, states[k].listener.conn, states[k].listener.name, states[k].listener.now);
      }
    }
  }

  lemma OthersStartNoCheck(s: State, ch: Choice)
    requires ListenerEnabled(s, ch) && !s.listener.Reading? && !Checking(s.listener)
    ensures !Checking(ListenerStep(s, ch).listener)
  {
    if !InOnSocket(s.listener) {
      OutsidePc(s, ch);
    }
  }

  lemma ReadStartsCheck(s: State, ch: Choice)
    requires ListenerEnabled(s, ch) && s.listener.Reading? && Checking(ListenerStep(s, ch).listener)
    ensures s.listener.tested && ch.ReadRequest? && ch.request.LoginRequest?
    ensures ListenerStep(s, ch).listener == CheckWantSockets(s.listener.conn, ch.request.from, ch.now)
  {
  }

  lemma CheckStartsAtRead(s: State, a: Action)
    requires Enabled(s, a) && Checking(Next(s, a).listener) && !Checking(s.listener)
    ensures a.Listen? && s.listener.Reading? && s.listener.tested
    ensures a.choice.ReadRequest? && a.choice.request.LoginRequest?
    ensures Next(s, a).listener == CheckWantSockets(s.listener.conn, a.choice.request.from, a.choice.now)
  {
    match a
    case Send(ch) => SenderDecidesNothing(s, ch);
    case Listen(ch) =>
      if s.listener.Reading? {
        ReadStartsCheck(s, ch);
      } else {
        OthersStartNoCheck(s, ch);
      }
  }
}
