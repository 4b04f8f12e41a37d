/** What a step of the listener leaves as it was. */
module ServerFrames {
  import opened ServerMachine
  import opened ServerInvariants

  lemma OutsideFrame(s: State, ch: Choice)
    requires ListenerEnabled(s, ch) && !InOnSocket(s.listener)
    ensures
      var s' := ListenerStep(s, ch);
      s'.log == s.log && s'.messageQueue == s.messageQueue && s'.sender == s.sender && s'.cleared == s.cleared
  {
  }

  lemma InsideSenderFrame(s: State, ch: Choice)
    requires ListenerEnabled(s, ch) && InOnSocket(s.listener)
    ensures ListenerStep(s, ch).sender == s.sender && ListenerStep(s, ch).cleared == s.cleared
  {
  }

  lemma InsideQueueFrame(s: State, ch: Choice)
    requires ListenerEnabled(s, ch) && InOnSocket(s.listener) && !s.listener.Pushing?
    ensures ListenerStep(s, ch).log == s.log && ListenerStep(s, ch).messageQueue == s.messageQueue
  {
  }

  /** The listener leaves the sender's data alone, and log and queue too except for its push. */
  lemma ListenerFrame(s: State, ch: Choice)
    requires ListenerEnabled(s, ch)
    ensures
      var s' := ListenerStep(s, ch);
      && s'.sender == s.sender && s'.cleared == s.cleared
      && (!s.listener.Pushing? ==> s'.log == s.log && s'.messageQueue == s.messageQueue)
  {
    if InOnSocket(s.listener) {
      InsideSenderFrame(s, ch);
      if !s.listener.Pushing? {
        InsideQueueFrame(s, ch);
      }
    } else {
      OutsideFrame(s, ch);
    }
  }

  /** The waiter's call leads into onSocket at its first step only. */
  lemma OutsidePc(s: State, ch: Choice)
    requires ListenerEnabled(s, ch) && !InOnSocket(s.listener)
    ensures
      var l := ListenerStep(s, ch).listener;
      InOnSocket(l) ==> l.Reading? && !l.tested
  {
  }
}
