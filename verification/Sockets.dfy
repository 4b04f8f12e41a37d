/** networking::socket and networking::flex_waiter, with what the system calls answer as parameters. */
module Sockets {
  import opened Wrappers
  import opened Messages
  import opened Entries

  const MAX_BUFFER_SIZE: nat := 1024

  /** What recv answers. */
  datatype Received = Failure | Nothing | Bytes(data: string)
  {
    predicate Possible() {
      Bytes? ==> 0 < |data| <= MAX_BUFFER_SIZE
    }

    function Count(): int {
      if Failure? then -1 else if Nothing? then 0 else |data|
    }
  }

  class Socket {
    const fd: int
    var isOpen: bool
    /** The descriptor was given back with close(). */
    var released: bool
    /** What the peer has been sent. */
    var out: seq<Instance>

    constructor (fd: int)
      ensures this.fd == fd && isOpen && !released && out == []
    {
      this.fd := fd;
      isOpen := true;
      released := false;
      out := [];
    }

    /** read(vector*). A closed socket throws; a read of nothing or a failed one closes the socket but keeps its
        descriptor, and leaves the vector as it was. */
    method Read(contents: string, received: Received) returns (threw: bool, count: int, vec: string)
      modifies this`isOpen
      ensures threw <==> !old(isOpen)
      ensures isOpen <==> old(isOpen) && received.Bytes?
      ensures !threw ==> count == received.Count()
      ensures vec == if !threw && received.Bytes? then received.data else contents
    {
      threw, count, vec := !isOpen, 0, contents;
      if threw {
        return;
      }
      count := received.Count();
      match received
      case Failure => isOpen := false;
      case Nothing => isOpen := false;
      case Bytes(data) => vec := data;
    }

    /** write. A closed socket throws; a write that the system fails closes the socket. */
    method Write(text: Instance, fails: bool) returns (threw: bool)
      modifies this`isOpen, this`out
      ensures threw <==> !old(isOpen)
      ensures isOpen <==> old(isOpen) && !fails
      ensures out == if old(isOpen) && !fails then old(out) + [text] else old(out)
    {
      threw := !isOpen;
      if threw {
        return;
      }
      if fails {
        isOpen := false;
      } else {
        out := out + [text];
      }
    }

    /** close. Only an open socket gives its descriptor back, so after a read of nothing it is never given back. */
    method Close()
      modifies this`isOpen, this`released
      ensures !isOpen
      ensures released <==> old(released) || old(isOpen)
    {
      if isOpen {
        isOpen := false;
        released := true;
      }
    }
  }

  /** networking::socket_server, the listening socket. Its close shuts it down. */
  class SocketServer {
    const fd: int
    var isShutDown: bool

    constructor (fd: int)
      ensures this.fd == fd && !isShutDown
    {
      this.fd := fd;
      isShutDown := false;
    }

    method Close()
      modifies this`isShutDown
      ensures isShutDown
    {
      isShutDown := true;
    }
  }

  /** What a wait ends with: nothing, the kill signal taken, or one call of a handler. */
  datatype Callback = NoCall | KillTaken | OnStdin | OnServer | OnSocket(socket: Socket)

  lemma AnyOf<T>(s: set<T>) returns (x: T)
    requires s != {}
    ensures x in s
  {
    x :| x in s;
  }

  class FlexWaiter {
    var sockets: set<Socket>
    var killEventFd: int
    var killSignalled: bool
    const master: Option<int>

    constructor (master: Option<int>)
      ensures sockets == {} && killEventFd == -1 && !killSignalled && this.master == master
    {
      sockets := {};
      killEventFd := -1;
      killSignalled := false;
      this.master := master;
    }

    method AddSocket(s: Socket)
      modifies this`sockets
      ensures sockets == old(sockets) + {s}
    {
      sockets := sockets + {s};
    }

    method RemoveSocket(s: Socket)
      modifies this`sockets
      ensures sockets == old(sockets) - {s}
    {
      if s in sockets {
        sockets := sockets - {s};
      }
    }

    /** kill. Before the first wait there is no event to signal. */
    method Kill()
      modifies this`killSignalled
      ensures killSignalled <==> old(killSignalled) || killEventFd >= 0
    {
      if killEventFd >= 0 {
        killSignalled := true;
      }
    }

    ghost predicate Distinct(efd: int)
      reads this`sockets
    {
      Separate(master, efd, sockets, (s: Socket) => s.fd)
    }

    /** The descriptors that are put in the read set, the kill event apart. */
    ghost predicate Watches(fd: int)
      reads this`sockets, sockets
    {
      || fd == STDIN_FILENO
      || (master.Some? && fd == master.value)
      || (exists s :: s in sockets && s.isOpen && s.fd == fd)
    }

    /** The loop of wait that fills the read set and takes the maximum. */
    method BuildSet() returns (theSet: set<int>, maxFd: int)
      requires forall s :: s in sockets ==> s.fd >= 0
      requires master.Some? ==> master.value >= 0
      ensures forall fd :: fd in theSet <==> Watches(fd)
      ensures maxFd in theSet && forall fd :: fd in theSet ==> 0 <= fd <= maxFd
    {
      theSet := {STDIN_FILENO};
      maxFd := STDIN_FILENO;
      if master.Some? {
        maxFd := master.value;
        theSet := theSet + {master.value};
      }
      var left := sockets;
      while left != {}
        invariant left <= sockets
        invariant forall fd :: fd in theSet <==>
                    || fd == STDIN_FILENO
                    || (master.Some? && fd == master.value)
                    || (exists s :: s in sockets && s !in left && s.isOpen && s.fd == fd)
        invariant maxFd in theSet && forall fd :: fd in theSet ==> 0 <= fd <= maxFd
        decreases left
      {
        var s :| s in left;
        ghost var before := left;
        left := left - {s};
        if s.isOpen {
          var fd := s.fd;
          maxFd := if maxFd < fd then fd else maxFd;
          theSet := theSet + {fd};
        }
      }
    }

    /** The read set: the kill event, and what is watched. */
    ghost predicate InReadSet(fd: int)
      reads this`killEventFd, this`sockets, sockets
    {
      fd == killEventFd || Watches(fd)
    }

    /** The one event that a wakeup is turned into. */
    ghost predicate Answers(ready: set<int>, call: Callback)
      reads this`killEventFd, this`sockets, sockets
    {
      match call
      case NoCall => ready == {}
      case KillTaken => killEventFd in ready
      case OnStdin => killEventFd !in ready && STDIN_FILENO in ready
      case OnServer => killEventFd !in ready && STDIN_FILENO !in ready && master.Some? && master.value in ready
      case OnSocket(s) =>
        && killEventFd !in ready && STDIN_FILENO !in ready && (master.Some? ==> master.value !in ready)
        && s in sockets && s.isOpen && s.fd in ready
    }

    /** wait. `efd` is what eventfd() gives if it is called, and select() finds ready those of the read set that are
        in `active`. */
    method Wait(efd: int, active: set<int>) returns (call: Callback, ready: set<int>, nfds: int)
      requires Distinct(if killEventFd == -1 then efd else killEventFd)
      modifies this`killEventFd, this`killSignalled
      ensures killEventFd == if old(killEventFd) == -1 then efd else old(killEventFd)
      ensures forall fd :: InReadSet(fd) ==> 0 <= fd < nfds
      ensures forall fd :: fd in ready <==> fd in active && InReadSet(fd)
      ensures Answers(ready, call)
      ensures killSignalled <==> old(killSignalled) && !call.KillTaken?
    {
      var theSet, maxFd := BuildSet();
      if killEventFd == -1 {
        killEventFd := efd;
      }
      theSet := theSet + {killEventFd};
      maxFd := if maxFd < killEventFd then killEventFd else maxFd;
      nfds := maxFd + 1;
      assert forall fd :: fd in theSet <==> InReadSet(fd);
      ready := theSet * active;
      call := Dispatch(ready);
    }

    /** What wait does after select. */
    method Dispatch(ready: set<int>) returns (call: Callback)
      requires Distinct(killEventFd)
      requires forall fd :: fd in ready ==> InReadSet(fd)
      modifies this`killSignalled
      ensures Answers(ready, call)
      ensures killSignalled <==> old(killSignalled) && !call.KillTaken?
    {
      if ready == {} {
        return NoCall;
      }
      if killEventFd in ready {
        killSignalled := false;
        return KillTaken;
      }
      if STDIN_FILENO in ready {
        return OnStdin;
      }
      if master.Some? && master.value in ready {
        return OnServer;
      }
      call := FindReady(ready);
      ghost var fd := AnyOf(ready);
      assert InReadSet(fd);
    }

    /** The search for the socket that is called: the first found with a ready descriptor. */
    method FindReady(ready: set<int>) returns (call: Callback)
      ensures call.NoCall? || call.OnSocket?
      ensures call.OnSocket? ==> call.socket in sockets && call.socket.fd in ready
      ensures call.NoCall? ==> forall s :: s in sockets ==> s.fd !in ready
    {
      var left := sockets;
      while left != {}
        invariant left <= sockets
        invariant forall s :: s in sockets && s !in left ==> s.fd !in ready
        decreases left
      {
        var child :| child in left;
        if child.fd in ready {
          return OnSocket(child);
        }
        left := left - {child};
      }
      call := NoCall;
    }
  }
}
