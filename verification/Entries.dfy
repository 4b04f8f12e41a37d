/**
 The vector of (socket, username) pairs of the server, and what its loops compute on it.
 The type of the socket is a parameter: the state machine uses connection numbers, the
 class form of the server uses socket objects.
 */
module Entries {
  import opened Wrappers
  import opened Messages

  datatype Entry<C> = Entry(conn: C, fd: int, name: string)

  /** Some pair carries this username. */
  predicate NameInUse<C>(es: seq<Entry<C>>, name: string) {
    exists k :: 0 <= k < |es| && es[k].name == name
  }

  /** The sockets of the pairs. */
  function ConnsOf<C(==)>(es: seq<Entry<C>>): set<C> {
    set k | 0 <= k < |es| :: es[k].conn
  }

  /** The username of every pair whose socket has this descriptor replaced. */
  function Bind<C>(es: seq<Entry<C>>, fd: int, name: string): seq<Entry<C>> {
    seq(|es|, k requires 0 <= k < |es| => if es[k].fd == fd then es[k].(name := name) else es[k])
  }

  /** The first pair whose socket has this descriptor. */
  function Find<C>(es: seq<Entry<C>>, fd: int): (r: Option<nat>)
    ensures r.Some? ==> r.value < |es| && es[r.value].fd == fd
    ensures r.Some? ==> forall k :: 0 <= k < r.value ==> es[k].fd != fd
    ensures r.None? ==> forall k :: 0 <= k < |es| ==> es[k].fd != fd
  {
    if es == [] then None
    else if es[0].fd == fd then Some(0)
    else
      var rest := Find(es[1..], fd);
      assert forall k :: 1 <= k < |es| ==> es[k] == es[1..][k - 1];
      if rest.Some? then Some(rest.value + 1) else None
  }

  function EraseAt<C>(es: seq<Entry<C>>, k: nat): seq<Entry<C>>
    requires k < |es|
  {
    es[..k] + es[k + 1..]
  }

  /** The first pair with this descriptor removed, if there is one. */
  function Erase<C>(es: seq<Entry<C>>, fd: int): seq<Entry<C>> {
    var k := Find(es, fd);
    if k.Some? then EraseAt(es, k.value) else es
  }

  /** What handling a request leaves: the entries, the queue, and what is answered in private. */
  function Handled<C>(es: seq<Entry<C>>, queue: seq<Instance>, fd: int, request: Instance, now: Time)
      : (seq<Entry<C>>, seq<Instance>, Option<Instance>)
    requires request.IsRequest()
  {
    if request.MessageRequest? then
      (es, queue + [MessageResponse(now, SERVER_SENDER, request.from, request.content)], None)
    else if NameInUse(es, request.from) then
      (es, queue, Some(InUseReply(now)))
    else
      (Bind(es, fd, request.from), queue + [LoginResponse(now, SERVER_SENDER, request.from)], None)
  }

  const STDIN_FILENO: int := 0

  /** What the waiter needs of the descriptors that it watches: that none is stdin, the server's, the kill event or
      that of another socket. `fd` gives the descriptor of a socket. */
  ghost predicate Separate<C>(master: Option<int>, kill: int, watched: set<C>, fd: C -> int) {
    && (master.Some? ==> master.value > STDIN_FILENO)
    && kill > STDIN_FILENO && (master.Some? ==> kill != master.value)
    && (forall c :: c in watched ==> fd(c) > STDIN_FILENO && fd(c) != kill && (master.Some? ==> fd(c) != master.value))
    && (forall c, d :: c in watched && d in watched && fd(c) == fd(d) ==> c == d)
  }
}
