/** What the two nested loops of sendMessages do to the sockets, wherever they stop. */
module Sending {
  import opened Messages

  /** What the sender sees and changes of a socket. */
  datatype Side = Side(isOpen: bool, out: seq<Instance>)

  /** The writes that the system fails: of which message to which socket. */
  type Failures = (nat, nat) -> bool

  /** None of the first n messages fails at socket k. */
  ghost predicate NoneFails(k: nat, n: nat, fails: Failures) {
    forall m: nat :: m < n ==> !fails(m, k)
  }

  /** Socket k after its first n messages were tried: only the last try can have failed. */
  ghost predicate Tried(k: nat, before: Side, after: Side, queue: seq<Instance>, n: nat, fails: Failures) {
    && n <= |queue|
    && if n == 0 then after == before
       else
         && before.isOpen && NoneFails(k, n - 1, fails)
         && after.isOpen == !fails(n - 1, k)
         && after.out == before.out + queue[..if fails(n - 1, k) then n - 1 else n]
  }

  /** The loops of sendMessages have come to message i and socket `at`. */
  ghost predicate Progress(
      before: seq<Side>, after: seq<Side>, queue: seq<Instance>, i: nat, at: nat, fails: Failures) {
    |before| == |after| && forall k: nat :: k < |after| ==> SocketAt(before, after, queue, i, at, fails, k)
  }

  ghost predicate SocketAt(
      before: seq<Side>, after: seq<Side>, queue: seq<Instance>, i: nat, at: nat, fails: Failures, k: nat)
    requires k < |before| == |after|
  {
    Tried(k, before[k], after[k], queue, if k < at then i + 1 else i, fails)
  }

  /** A write to a socket that is open. */
  function Written(s: Side, text: Instance, failed: bool): Side {
    if failed then s.(isOpen := false) else s.(out := s.out + [text])
  }

  lemma TriedOneMore(k: nat, before: Side, after: Side, queue: seq<Instance>, n: nat, fails: Failures)
    requires n < |queue| && after.isOpen && Tried(k, before, after, queue, n, fails)
    ensures Tried(k, before, Written(after, queue[n], fails(n, k)), queue, n + 1, fails)
  {
  }

  /** One write of the inner loop. */
  lemma ProgressAfterWrite(before: seq<Side>, after: seq<Side>, queue: seq<Instance>, i: nat, at: nat, fails: Failures)
    requires Progress(before, after, queue, i, at, fails) && i < |queue| && at < |after| && after[at].isOpen
    ensures Progress(before, after[at := Written(after[at], queue[i], fails(i, at))], queue, i, at + 1, fails)
  {
    var next, upTo := after[at := Written(after[at], queue[i], fails(i, at))], at + 1;
    forall k: nat | k < |next|
      ensures SocketAt(before, next, queue, i, upTo, fails, k)
    {
      assert SocketAt(before, after, queue, i, at, fails, k);
      if k == at {
        TriedOneMore(k, before[k], after[k], queue, i, fails);
      }
    }
  }

  /** The end of the inner loop is the start of the next message. */
  lemma ProgressAfterMessage(before: seq<Side>, after: seq<Side>, queue: seq<Instance>, i: nat, fails: Failures)
    requires Progress(before, after, queue, i, |after|, fails)
    ensures Progress(before, after, queue, i + 1, 0, fails)
  {
    var n := i + 1;
    forall k: nat | k < |after|
      ensures SocketAt(before, after, queue, n, 0, fails, k)
    {
      assert SocketAt(before, after, queue, i, |after|, fails, k);
    }
  }

  /** Some socket was closed at the start, or closes with messages still to come. */
  ghost predicate CannotFinish(before: seq<Side>, queue: seq<Instance>, fails: Failures) {
    queue != [] && exists k: nat :: k < |before| && ClosesEarly(before[k], k, queue, fails)
  }

  ghost predicate ClosesEarly(before: Side, k: nat, queue: seq<Instance>, fails: Failures) {
    !before.isOpen || exists m: nat :: m + 1 < |queue| && fails(m, k)
  }

  /** A closed socket where the loops are means that the queue cannot be finished, */
  lemma StuckCannotFinish(before: seq<Side>, after: seq<Side>, queue: seq<Instance>, i: nat, at: nat, fails: Failures)
    requires Progress(before, after, queue, i, at, fails) && i < |queue| && at < |after| && !after[at].isOpen
    ensures CannotFinish(before, queue, fails)
  {
    assert SocketAt(before, after, queue, i, at, fails, at);
    if before[at].isOpen {
      var m: nat := i - 1;
      assert m + 1 < |queue| && fails(m, at);
    }
    assert ClosesEarly(before[at], at, queue, fails);
  }

  /** and a finished queue that it could be. */
  lemma FinishedCanFinish(before: seq<Side>, after: seq<Side>, queue: seq<Instance>, fails: Failures)
    requires Progress(before, after, queue, |queue|, 0, fails)
    ensures !CannotFinish(before, queue, fails)
  {
    if queue != [] {
      forall k: nat | k < |before|
        ensures !ClosesEarly(before[k], k, queue, fails)
      {
        assert SocketAt(before, after, queue, |queue|, 0, fails, k);
        forall m: nat | m + 1 < |queue|
          ensures !fails(m, k)
        {
        }
      }
    }
  }

  /** Wherever the loops stop: what two sockets were sent is the same, but for the last messages of one of them. */
  lemma SocketsAgree(
      before: seq<Side>, after: seq<Side>, queue: seq<Instance>, i: nat, at: nat, fails: Failures, j: nat, k: nat)
    requires Progress(before, after, queue, i, at, fails) && j < |after| && k < |after|
    ensures |before[j].out| <= |after[j].out| && |before[k].out| <= |after[k].out|
    ensures
      var (a, b) := (after[j].out[|before[j].out|..], after[k].out[|before[k].out|..]);
      && (a <= b || b <= a) && -2 <= |a| - |b| <= 2
      && a <= queue && b <= queue
  {
    assert SocketAt(before, after, queue, i, at, fails, j);
    assert SocketAt(before, after, queue, i, at, fails, k);
  }
}
