/**
 The server as an object, with the loops of its critical sections. Each is proved to compute what the functions of
 Entries say, which are what the steps of ServerMachine do. Each method runs with the mutex of its section held.
 */
module ServerObject {
  import opened Messages
  import opened Entries
  import opened Sockets
  import opened Sending
  import opened Wrappers
  import Codec
  import PropertyTree

  /** The descriptors of the entries are those of their sockets, and all differ. */
  ghost predicate Sound(es: seq<Entry<Socket>>) {
    && (forall k :: 0 <= k < |es| ==> es[k].fd == es[k].conn.fd)
    && (forall j, k :: 0 <= j < k < |es| ==> es[j].fd != es[k].fd)
  }

  ghost function SidesOf(es: seq<Entry<Socket>>): (r: seq<Side>)
    reads ConnsOf(es)
    ensures |r| == |es|
    ensures forall k :: 0 <= k < |r| ==> r[k] == Side(es[k].conn.isOpen, es[k].conn.out)
  {
    seq(|es|, k requires 0 <= k < |es| reads ConnsOf(es) => Side(es[k].conn.isOpen, es[k].conn.out))
  }

  lemma ConnsOfAppended(es: seq<Entry<Socket>>, e: Entry<Socket>)
    ensures ConnsOf(es + [e]) == ConnsOf(es) + {e.conn}
  {
    var after := es + [e];
    assert after[|es|] == e;
    forall c | c in ConnsOf(es)
      ensures c in ConnsOf(after)
    {
      var k :| 0 <= k < |es| && es[k].conn == c;
      assert after[k].conn == c;
    }
  }

  lemma ConnsOfErased(es: seq<Entry<Socket>>, at: nat)
    requires Sound(es) && at < |es|
    ensures Sound(EraseAt(es, at)) && ConnsOf(EraseAt(es, at)) == ConnsOf(es) - {es[at].conn}
  {
    var after := EraseAt(es, at);
    forall c | c in ConnsOf(es) - {es[at].conn}
      ensures c in ConnsOf(after)
    {
      var k :| 0 <= k < |es| && es[k].conn == c;
      assert c == if k < at then after[k].conn else after[k - 1].conn;
    }
  }

  lemma ConnsOfBound(es: seq<Entry<Socket>>, fd: int, name: string)
    requires Sound(es)
    ensures Sound(Bind(es, fd, name)) && ConnsOf(Bind(es, fd, name)) == ConnsOf(es)
  {
    var after := Bind(es, fd, name);
    forall c | c in ConnsOf(es)
      ensures c in ConnsOf(after)
    {
      var k :| 0 <= k < |es| && es[k].conn == c;
      assert after[k].conn == c;
    }
  }

  /** No two entries have the same name, unless it is the empty one. */
  ghost predicate NamesDiffer(es: seq<Entry<Socket>>) {
    forall j, k :: 0 <= j < k < |es| && es[j].name != "" ==> es[j].name != es[k].name
  }

  /** The request for which visit calls a handler. */
  function RequestIn(tree: Option<PropertyTree.Tree>): (r: Option<Instance>)
    ensures r.Some? ==> r.value.IsRequest()
    ensures r.Some? <==> tree.Some? && Codec.IsRequestTree(tree.value)
  {
    if tree.None? then None
    else
      var v := Codec.Visit(tree.value);
      Codec.VisitCallsIff(tree.value);
      if v.CallLogin? || v.CallMessage? then
        Codec.VisitedRequestIsOfClass(tree.value);
        Some(v.request)
      else None
  }

  lemma HandledKeepsNames(es: seq<Entry<Socket>>, queue: seq<Instance>, fd: int, request: Instance, now: Time)
    requires Sound(es) && NamesDiffer(es) && request.IsRequest()
    ensures NamesDiffer(Handled(es, queue, fd, request, now).0)
  {
  }

  lemma ErasedKeepsNames(es: seq<Entry<Socket>>, fd: int)
    requires NamesDiffer(es)
    ensures NamesDiffer(Erase(es, fd))
  {
  }

  class Server {
    var sockets: seq<Entry<Socket>>
    var messageQueue: seq<Instance>
    var killed: bool
    const waiter: FlexWaiter
    const serverSocket: SocketServer

    /** The waiter's index agrees with the vector. */
    ghost predicate Valid()
      reads this`sockets, waiter`sockets
    {
      Sound(sockets) && waiter.sockets == ConnsOf(sockets)
    }

    constructor (serverSocket: SocketServer, waiter: FlexWaiter)
      requires waiter.sockets == {}
      ensures Valid() && sockets == [] && messageQueue == [] && !killed
      ensures this.waiter == waiter && this.serverSocket == serverSocket
    {
      sockets := [];
      messageQueue := [];
      killed := false;
      this.waiter := waiter;
      this.serverSocket := serverSocket;
    }

    /** onSocketServer. */
    method OnSocketServer(newClient: Socket)
      requires Valid() && forall k :: 0 <= k < |sockets| ==> sockets[k].fd != newClient.fd
      modifies this`sockets, waiter`sockets
      ensures Valid()
      ensures sockets == old(sockets) + [Entry(newClient, newClient.fd, "")]
    {
      ConnsOfAppended(sockets, Entry(newClient, newClient.fd, ""));
      sockets := sockets + [Entry(newClient, newClient.fd, "")];
      waiter.AddSocket(newClient);
    }

    /** onSocket after a read of nothing: the loop that removes the first entry with the descriptor. */
    method RemoveSocket(socket: Socket)
      requires Valid() && socket in waiter.sockets
      modifies this`sockets, waiter`sockets
      ensures Valid() && socket !in waiter.sockets
      ensures sockets == Erase(old(sockets), socket.fd)
    {
      var iter := 0;
      while iter < |sockets|
        invariant 0 <= iter <= |sockets|
        invariant sockets == old(sockets) && waiter.sockets == old(waiter.sockets)
        invariant forall k :: 0 <= k < iter ==> sockets[k].fd != socket.fd
      {
        if socket.fd == sockets[iter].conn.fd {
          ConnsOfErased(sockets, iter);
          waiter.RemoveSocket(socket);
          sockets := sockets[..iter] + sockets[iter + 1..];
          break;
        }
        iter := iter + 1;
      }
    }

    /** visitLogin: the loop that looks for the name, and the response. */
    method VisitLogin(name: string, now: Time) returns (response: Instance)
      ensures response == if NameInUse(sockets, name) then InUseReply(now) else LoginResponse(now, SERVER_SENDER, name)
    {
      var notInUse := true;
      var k := 0;
      while k < |sockets|
        invariant 0 <= k <= |sockets|
        invariant notInUse ==> forall j :: 0 <= j < k ==> sockets[j].name != name
        invariant !notInUse ==> NameInUse(sockets, name)
      {
        if name == sockets[k].name {
          notInUse := false;
          break;
        }
        k := k + 1;
      }
      if notInUse {
        response := LoginResponse(now, SERVER_SENDER, name);
      } else {
        response := ErrorResponse(now, SERVER_SENDER, SERVER_SENDER, USER_NAME_IN_USE, "Username in use.");
      }
    }

    /** onSocket after an accepted login: the loop, without a break, that puts the name at the descriptor. */
    method BindName(socket: Socket, name: string)
      requires Valid()
      modifies this`sockets
      ensures Valid()
      ensures sockets == Bind(old(sockets), socket.fd, name)
    {
      var k := 0;
      while k < |sockets|
        invariant 0 <= k <= |sockets| == |old(sockets)|
        invariant forall j :: 0 <= j < k ==> sockets[j] == Bind(old(sockets), socket.fd, name)[j]
        invariant forall j :: k <= j < |sockets| ==> sockets[j] == old(sockets[j])
      {
        if socket.fd == sockets[k].conn.fd {
          sockets := sockets[k := sockets[k].(name := name)];
        }
        k := k + 1;
      }
      assert sockets == Bind(old(sockets), socket.fd, name);
      ConnsOfBound(old(sockets), socket.fd, name);
    }

    /** onSocket, when nothing comes in between its critical sections. `tree` is what json::from makes of the text
        that was read, if it does not throw, and `fails` whether the system fails the write of a private answer. The
        thread ends by an exception if the socket is closed, if the read fails, as the empty text that it leaves is no
        document, if the text is none, or if it is no request, as visit then gives no response to look into. */
    method OnSocket(socket: Socket, received: Received, tree: Option<PropertyTree.Tree>, now: Time, fails: bool)
      returns (ended: bool)
      requires Valid() && socket in waiter.sockets && received.Possible()
      modifies this`sockets, this`messageQueue, waiter`sockets, socket
      ensures Valid() && (old(NamesDiffer(sockets)) ==> NamesDiffer(sockets))
      ensures ended <==> || !old(socket.isOpen) || received.Failure?
                         || (received.Bytes? && !(tree.Some? && Codec.IsRequestTree(tree.value)))
      ensures ended ==> sockets == old(sockets) && messageQueue == old(messageQueue) && socket.out == old(socket.out)
                        && socket.isOpen == (old(socket.isOpen) && received.Bytes?)
      ensures !ended && received.Nothing? ==>
                sockets == Erase(old(sockets), socket.fd) && messageQueue == old(messageQueue)
                && !socket.isOpen && socket.out == old(socket.out)
      ensures !ended && received.Bytes? ==>
                var (es, queue, answer) :=
                  Handled(old(sockets), old(messageQueue), socket.fd, RequestIn(tree).value, now);
                && sockets == es && messageQueue == queue
                && socket.isOpen == (answer.None? || !fails)
                && socket.out == old(socket.out) + (if answer.None? || fails then [] else [answer.value])
    {
      var count, contents;
      ended, count, contents := socket.Read([], received);
      if ended {
        return;
      }
      if count == 0 {
        if NamesDiffer(sockets) { ErasedKeepsNames(sockets, socket.fd); }
        RemoveSocket(socket);
        return;
      }
      if contents == [] {
        return true;
      }
      var request := RequestIn(tree);
      if request.None? {
        return true;
      }
      if NamesDiffer(sockets) { HandledKeepsNames(sockets, messageQueue, socket.fd, request.value, now); }
      ended := Respond(socket, request.value, now, fails);
    }

    /** The rest of onSocket: the handler that visit calls, and what is done with its response. */
    method Respond(socket: Socket, request: Instance, now: Time, fails: bool) returns (ended: bool)
      requires Valid() && request.IsRequest() && socket.isOpen
      modifies this`sockets, this`messageQueue, socket
      ensures Valid() && !ended
      ensures
        var (es, queue, answer) := Handled(old(sockets), old(messageQueue), socket.fd, request, now);
        && sockets == es && messageQueue == queue
        && socket.isOpen == (answer.None? || !fails)
        && socket.out == old(socket.out) + (if answer.None? || fails then [] else [answer.value])
    {
      ended := false;
      var response;
      if request.LoginRequest? {
        response := VisitLogin(request.from, now);
      } else {
        response := MessageResponse(now, SERVER_SENDER, request.from, request.content);
      }
      if response.ErrorResponse? {
        ended := socket.Write(response, fails);
      } else {
        if response.LoginResponse? {
          BindName(socket, response.joiningUsername);
        }
        messageQueue := messageQueue + [response];
      }
    }

    /** stop: the loop that closes all sockets, the close of the listening socket, and the signal to the waiter.
        `sockets.empty()` changes nothing. */
    method Stop()
      requires Valid()
      modifies this`killed, ConnsOf(sockets), serverSocket`isShutDown, waiter`killSignalled
      ensures killed && Valid() && serverSocket.isShutDown
      ensures forall s :: s in ConnsOf(sockets) ==> !s.isOpen && s.out == old(s.out)
      ensures forall s :: s in ConnsOf(sockets) ==> s.released == (old(s.released) || old(s.isOpen))
      ensures waiter.killSignalled == (old(waiter.killSignalled) || waiter.killEventFd >= 0)
    {
      killed := true;
      var k := 0;
      while k < |sockets|
        invariant 0 <= k <= |sockets|
        invariant forall s :: s in ConnsOf(sockets) ==> s.out == old(s.out)
        invariant forall j :: 0 <= j < k ==> !sockets[j].conn.isOpen
        invariant forall j :: 0 <= j < k ==>
                    sockets[j].conn.released == (old(sockets[j].conn.released) || old(sockets[j].conn.isOpen))
        invariant forall j :: k <= j < |sockets| ==> sockets[j].conn.isOpen == old(sockets[j].conn.isOpen)
        invariant forall j :: k <= j < |sockets| ==> sockets[j].conn.released == old(sockets[j].conn.released)
        modifies ConnsOf(sockets)
      {
        sockets[k].conn.Close();
        k := k + 1;
      }
      serverSocket.Close();
      waiter.Kill();
    }

    // ------------------------------------------------------------ sending

    ghost function Sides(): (r: seq<Side>)
      reads this`sockets, ConnsOf(sockets)
      ensures |r| == |sockets|
    {
      SidesOf(sockets)
    }

    /** A write to one socket touches no other. */
    method WriteTo(k: nat, text: Instance, failed: bool) returns (threw: bool)
      requires Valid() && k < |sockets|
      modifies sockets[k].conn
      ensures threw <==> !old(Sides())[k].isOpen
      ensures Sides() == if threw then old(Sides()) else old(Sides())[k := Written(old(Sides())[k], text, failed)]
    {
      ghost var now := Sides();
      threw := sockets[k].conn.Write(text, failed);
      assert Sides() == if threw then now else now[k := Written(now[k], text, failed)];
    }

    /** The inner loop of sendMessages: one message to all sockets. */
    method WriteToAll(message: nat, ghost before: seq<Side>, fails: Failures) returns (threw: bool, at: nat)
      requires Valid() && message < |messageQueue| && Progress(before, Sides(), messageQueue, message, 0, fails)
      modifies ConnsOf(sockets)
      ensures at <= |sockets| && Progress(before, Sides(), messageQueue, message, at, fails)
      ensures if threw then at < |sockets| && !Sides()[at].isOpen else at == |sockets|
    {
      threw, at := false, 0;
      while at < |sockets|
        invariant at <= |sockets| && Progress(before, Sides(), messageQueue, message, at, fails)
      {
        ghost var now := Sides();
        if now[at].isOpen {
          ProgressAfterWrite(before, now, messageQueue, message, at, fails);
        }
        threw := WriteTo(at, messageQueue[message], fails(message, at));
        if threw {
          return;
        }
        at := at + 1;
      }
    }

    /** A turn of sendMessages, with the mutex of the queue held all along. It throws, at a message and a socket, if
        and only if some socket is closed, or a write before the last fails; only if it does not, the queue is
        cleared. */
    method Drain(fails: Failures) returns (threw: bool, message: nat, at: nat)
      requires Valid()
      modifies this`messageQueue, ConnsOf(sockets)
      ensures Valid()
      ensures threw <==> CannotFinish(old(Sides()), old(messageQueue), fails)
      ensures messageQueue == if threw then old(messageQueue) else []
      ensures threw ==> message < |messageQueue| && at < |sockets| && !Sides()[at].isOpen
      ensures Progress(old(Sides()), Sides(), old(messageQueue), message, at, fails)
      ensures !threw ==> message == |old(messageQueue)| && at == 0
    {
      ghost var before := Sides();
      threw, message, at := false, 0, 0;
      while message < |messageQueue|
        invariant message <= |messageQueue|
        invariant messageQueue == old(messageQueue)
        invariant Progress(before, Sides(), messageQueue, message, 0, fails)
      {
        threw, at := WriteToAll(message, before, fails);
        if threw {
          StuckCannotFinish(before, Sides(), messageQueue, message, at, fails);
          return;
        }
        ProgressAfterMessage(before, Sides(), messageQueue, message, fails);
        message := message + 1;
      }
      FinishedCanFinish(before, Sides(), messageQueue, fails);
      messageQueue, at := [], 0;
    }
  }
}
