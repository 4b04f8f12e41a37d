/** The messages as property trees: toJson, extractFrom, fromJson, and the request visitor. */
module Codec {
  import opened Wrappers
  import opened Messages
  import opened Text
  import opened Rounding
  import opened TimePoint
  import opened PropertyTree

  const TYPE := "type"
  const OBJECT := "object"
  const SENDER := "sender"
  const DATETIME := "datetime"
  const CONTENT := "content"
  const ORIGINATOR := "originator"
  const JOINING_USERNAME := "joiningUsername"
  const CODE := "code"
  const MESSAGE := "message"

  datatype Kind = LoginRequestKind | MessageRequestKind | LoginResponseKind | MessageResponseKind | ErrorResponseKind

  function KindOf(i: Instance): Kind {
    match i
    case LoginRequest(_, _) => LoginRequestKind
    case MessageRequest(_, _, _) => MessageRequestKind
    case LoginResponse(_, _, _) => LoginResponseKind
    case MessageResponse(_, _, _, _) => MessageResponseKind
    case ErrorResponse(_, _, _, _, _) => ErrorResponseKind
  }

  /** The TYPE of a class. */
  function Tag(k: Kind): string {
    match k
    case LoginRequestKind => "ca.uwo.eng.se3313.lab4.network.request.LoginRequest"
    case MessageRequestKind => "ca.uwo.eng.se3313.lab4.network.request.MessageRequest"
    case LoginResponseKind => "ca.uwo.eng.se3313.lab4.network.response.LoginResponse"
    case MessageResponseKind => "ca.uwo.eng.se3313.lab4.network.response.MessageResponse"
    case ErrorResponseKind => "ca.uwo.eng.se3313.lab4.network.response.ServerError"
  }

  // -------------------------------------------------------------- writing

  /** What can be written: a time from the epoch to the year 9999, and an error code of 16 bits. */
  predicate Writable(i: Instance) {
    i.time >= 0 && Printable(LocalSeconds(i.time, UTC)) && (i.ErrorResponse? ==> i.code < 0x1_0000)
  }

  /** baseJson, with the text of the time. */
  function BaseJson(time: string, sender: string): Tree {
    Put(Put(EMPTY, DATETIME, time), SENDER, sender)
  }

  /** subToJson. */
  function SubJson(i: Instance, time: string): Tree {
    var base := BaseJson(time, i.Sender());
    match i
    case LoginRequest(_, _) => base
    case MessageRequest(_, _, content) => Put(base, CONTENT, content)
    case LoginResponse(_, _, name) => Put(base, JOINING_USERNAME, name)
    case MessageResponse(_, _, originator, content) => Put(Put(base, ORIGINATOR, originator), CONTENT, content)
    case ErrorResponse(_, _, originator, code, message) =>
      Put(Put(Put(base, CODE, Digits(code)), MESSAGE, message), ORIGINATOR, originator)
  }

  function Tagged(k: Kind, obj: Tree): Tree {
    PutChild(Put(EMPTY, TYPE, Tag(k)), OBJECT, obj)
  }

  /** toJson. */
  function ToJson(i: Instance): Tree
    requires Writable(i)
  {
    Tagged(KindOf(i), SubJson(i, WriteTime(i.time, UTC)))
  }

  // -------------------------------------------------------------- reading

  /** extractFrom. */
  function ExtractFrom(json: Tree): Option<(string, Tree)> {
    var t, o := Find(json, TYPE), Find(json, OBJECT);
    if t.None? || o.None? then None else Some((t.value.data, o.value))
  }

  /** extractCommonParams: the time and the sender. A time that cannot be read leaves the epoch; a missing property
      throws. */
  function CommonParams(obj: Tree): Option<(Time, string)> {
    var time, sender := Find(obj, DATETIME), Find(obj, SENDER);
    if time.None? || sender.None? then None
    else
      var micros := ReadTime(time.value.data);
      Some((if micros.Some? then micros.value * 1000 else 0, sender.value.data))
  }

  /** get_value<uint16_t>. */
  function ReadCode(text: string): Option<nat> {
    match ReadInteger(text, 0xFFFF)
    case None => None
    case Some((n, rest)) => if SkipSpaces(rest) == [] then Some(n) else None
  }

  /** The properties that only some classes have. */
  function FromFields(k: Kind, obj: Tree, time: Time, sender: string): Option<Instance> {
    var content, originator := Find(obj, CONTENT), Find(obj, ORIGINATOR);
    match k
    case LoginRequestKind => Some(LoginRequest(time, sender))
    case MessageRequestKind =>
      if content.None? then None else Some(MessageRequest(time, sender, content.value.data))
    case LoginResponseKind =>
      var name := Find(obj, JOINING_USERNAME);
      if name.None? then None else Some(LoginResponse(time, sender, name.value.data))
    case MessageResponseKind =>
      if content.None? || originator.None? then None
      else Some(MessageResponse(time, sender, originator.value.data, content.value.data))
    case ErrorResponseKind =>
      var code, message := Find(obj, CODE), Find(obj, MESSAGE);
      if code.None? || ReadCode(code.value.data).None? || message.None? || originator.None? then None
      else Some(ErrorResponse(time, sender, originator.value.data, ReadCode(code.value.data).value, message.value.data))
  }

  /** The fromJson of a class on the object of a message; None stands for its throw. */
  function FromObject(k: Kind, obj: Tree): Option<Instance> {
    match CommonParams(obj)
    case None => None
    case Some((time, sender)) => FromFields(k, obj, time, sender)
  }

  datatype Parsed = Null | Threw | Got(instance: Instance)

  /** fromJson<T>, which does not look at the type it extracts. */
  function FromJson(k: Kind, json: Tree): Parsed {
    match ExtractFrom(json)
    case None => Null
    case Some((_, obj)) =>
      var r := FromObject(k, obj);
      if r.None? then Threw else Got(r.value)
  }

  // ------------------------------------------------------------ round trip

  /** What survives the tree: the time to the nearest microsecond, and the sender that sender() shows. */
  function Visible(i: Instance): Instance
    requires i.time >= 0
  {
    var micros := RoundQuotient(i.time, 1000);
    i.(time := micros * 1000, from := i.Sender())
  }

  /** A property with a text. */
  predicate Has(obj: Tree, key: string, text: string) {
    Find(obj, key).Some? && Find(obj, key).value.data == text
  }

  lemma PutHas(obj: Tree, key: string, text: string)
    ensures Has(Put(obj, key, text), key, text)
  {
    FindAfterPut(obj, key, text, key);
  }

  lemma PutKeeps(obj: Tree, key: string, text: string, other: string, kept: string)
    requires Has(obj, other, kept) && other != key
    ensures Has(Put(obj, key, text), other, kept)
  {
    FindAfterPut(obj, key, text, other);
  }

  lemma KeysDiffer()
    ensures DATETIME != SENDER && TYPE != OBJECT
    ensures CONTENT !in {DATETIME, SENDER, ORIGINATOR}
    ensures ORIGINATOR !in {DATETIME, SENDER, CODE, MESSAGE}
    ensures JOINING_USERNAME !in {DATETIME, SENDER}
    ensures CODE !in {DATETIME, SENDER}
    ensures MESSAGE !in {DATETIME, SENDER, CODE}
  {
  }

  lemma BaseHas(time: string, sender: string)
    ensures Has(BaseJson(time, sender), DATETIME, time) && Has(BaseJson(time, sender), SENDER, sender)
  {
    KeysDiffer();
    PutHas(EMPTY, DATETIME, time);
    PutHas(Put(EMPTY, DATETIME, time), SENDER, sender);
    PutKeeps(Put(EMPTY, DATETIME, time), SENDER, sender, DATETIME, time);
  }

  /** One more property keeps the time and the sender. */
  lemma CommonKept(obj: Tree, key: string, text: string, time: string, sender: string)
    requires Has(obj, DATETIME, time) && Has(obj, SENDER, sender) && key != DATETIME && key != SENDER
    ensures Has(Put(obj, key, text), DATETIME, time) && Has(Put(obj, key, text), SENDER, sender)
    ensures Has(Put(obj, key, text), key, text)
  {
    PutHas(obj, key, text);
    PutKeeps(obj, key, text, DATETIME, time);
    PutKeeps(obj, key, text, SENDER, sender);
  }

  /** An object with the properties that subToJson gives a message. */
  predicate Describes(obj: Tree, i: Instance, time: string) {
    && Has(obj, DATETIME, time) && Has(obj, SENDER, i.Sender())
    && (i.MessageRequest? || i.MessageResponse? ==> Has(obj, CONTENT, i.content))
    && (i.LoginResponse? ==> Has(obj, JOINING_USERNAME, i.joiningUsername))
    && (i.MessageResponse? || i.ErrorResponse? ==> Has(obj, ORIGINATOR, i.originator))
    && (i.ErrorResponse? ==> Has(obj, CODE, Digits(i.code)) && Has(obj, MESSAGE, i.message))
  }

  lemma SubJsonDescribes(i: Instance, time: string)
    ensures Describes(SubJson(i, time), i, time)
  {
    var base, sender := BaseJson(time, i.Sender()), i.Sender();
    BaseHas(time, sender);
    KeysDiffer();
    match i
    case LoginRequest(_, _) =>
    case MessageRequest(_, _, content) => CommonKept(base, CONTENT, content, time, sender);
    case LoginResponse(_, _, name) => CommonKept(base, JOINING_USERNAME, name, time, sender);
    case MessageResponse(_, _, originator, content) =>
      CommonKept(base, ORIGINATOR, originator, time, sender);
      CommonKept(Put(base, ORIGINATOR, originator), CONTENT, content, time, sender);
      PutKeeps(Put(base, ORIGINATOR, originator), CONTENT, content, ORIGINATOR, originator);
    case ErrorResponse(_, _, originator, code, message) =>
      var withCode := Put(base, CODE, Digits(code));
      var withMessage := Put(withCode, MESSAGE, message);
      CommonKept(base, CODE, Digits(code), time, sender);
      CommonKept(withCode, MESSAGE, message, time, sender);
      CommonKept(withMessage, ORIGINATOR, originator, time, sender);
      PutKeeps(withCode, MESSAGE, message, CODE, Digits(code));
      PutKeeps(withMessage, ORIGINATOR, originator, CODE, Digits(code));
      PutKeeps(withMessage, ORIGINATOR, originator, MESSAGE, message);
  }

  lemma CommonParamsRead(obj: Tree, time: string, sender: string, micros: int)
    requires Has(obj, DATETIME, time) && Has(obj, SENDER, sender) && ReadTime(time) == Some(micros)
    ensures CommonParams(obj) == Some((micros * 1000, sender))
  {
  }

  lemma CodeRead(code: nat)
    requires code < 0x1_0000
    ensures ReadCode(Digits(code)) == Some(code)
  {
    IntegerRead(code, "", 0xFFFF);
    assert Digits(code) + "" == Digits(code);
  }

  lemma FieldsRead(obj: Tree, i: Instance, text: string, time: Time)
    requires Describes(obj, i, text) && (i.ErrorResponse? ==> i.code < 0x1_0000)
    ensures FromFields(KindOf(i), obj, time, i.Sender()) == Some(i.(time := time, from := i.Sender()))
  {
    if i.ErrorResponse? {
      CodeRead(i.code);
    }
  }

  lemma ObjectRead(i: Instance, time: string, micros: int)
    requires ReadTime(time) == Some(micros) && (i.ErrorResponse? ==> i.code < 0x1_0000)
    ensures FromObject(KindOf(i), SubJson(i, time)) == Some(i.(time := micros * 1000, from := i.Sender()))
  {
    SubJsonDescribes(i, time);
    CommonParamsRead(SubJson(i, time), time, i.Sender(), micros);
    FieldsRead(SubJson(i, time), i, time, micros * 1000);
  }

  lemma TaggedExtracts(k: Kind, obj: Tree)
    ensures ExtractFrom(Tagged(k, obj)) == Some((Tag(k), obj))
  {
    KeysDiffer();
    PutHas(EMPTY, TYPE, Tag(k));
    FindAfterPutChild(Put(EMPTY, TYPE, Tag(k)), OBJECT, obj, OBJECT);
    FindAfterPutChild(Put(EMPTY, TYPE, Tag(k)), OBJECT, obj, TYPE);
  }

  /** Each of the five classes reads what it writes. */
  lemma RoundTrip(i: Instance)
    requires Writable(i)
    ensures FromJson(KindOf(i), ToJson(i)) == Got(Visible(i))
  {
    var time := WriteTime(i.time, UTC);
    WrittenTimeIsRead(i.time, UTC);
    TaggedExtracts(KindOf(i), SubJson(i, time));
    ObjectRead(i, time, RoundQuotient(i.time, 1000));
  }

  /** A message whose time is a whole number of microseconds is read back as it was, but for the sender of a login
      response, which sender() replaces. */
  lemma ExactRoundTrip(i: Instance)
    requires Writable(i) && i.time % 1000 == 0
    ensures FromJson(KindOf(i), ToJson(i)) == Got(i) <==> i.from == i.Sender()
  {
    RoundTrip(i);
    RoundWhole(i.time, i.time / 1000, 1000);
  }

  /** fromJson<T> does not look at the type: only the object of the tree decides what it reads. */
  lemma TypeIsIgnored(k: Kind, json: Tree, other: Kind)
    requires Find(json, TYPE).Some?
    ensures FromJson(k, Put(json, TYPE, Tag(other))) == FromJson(k, json)
  {
    KeysDiffer();
    FindAfterPut(json, TYPE, Tag(other), TYPE);
    FindAfterPut(json, TYPE, Tag(other), OBJECT);
  }

  // --------------------------------------------------------------- visitor

  /** The handler that visit calls, and with what. */
  datatype Visited =
    | CallLogin(request: Instance)
    | CallMessage(request: Instance)
    | CallError(originator: string, code: nat)
    | VisitThrew

  const HANDLERS: map<string, Kind> :=
    map[Tag(LoginRequestKind) := LoginRequestKind, Tag(MessageRequestKind) := MessageRequestKind]

  function Handle(k: Kind, obj: Tree): Visited {
    var r := FromObject(k, obj);
    if r.None? then VisitThrew
    else if k.LoginRequestKind? then CallLogin(r.value)
    else CallMessage(r.value)
  }

  /** visit, with the handlers that the constructor puts in _propMap. A type that is not known gives the same error
      code as a missing one. */
  function VisitWith(handlers: map<string, Kind>, json: Tree): Visited {
    match ExtractFrom(json)
    case None => CallError(UNKNOWN_SENDER, MALFORMED_REQUEST_NO_TYPE)
    case Some((tag, obj)) =>
      if tag in handlers then Handle(handlers[tag], obj) else CallError(UNKNOWN_SENDER, MALFORMED_REQUEST_NO_TYPE)
  }

  function Visit(json: Tree): Visited {
    VisitWith(HANDLERS, json)
  }

  /** request::abstract_message_visitor. */
  class MessageVisitor {
    var propMap: map<string, Kind>

    ghost predicate Valid()
      reads this
    {
      propMap == HANDLERS
    }

    constructor ()
      ensures Valid()
    {
      propMap := map[];
      new;
      propMap := propMap[Tag(LoginRequestKind) := LoginRequestKind];
      propMap := propMap[Tag(MessageRequestKind) := MessageRequestKind];
    }

    method VisitTree(json: Tree) returns (v: Visited)
      requires Valid()
      ensures v == Visit(json)
    {
      var params := ExtractFrom(json);
      if params.None? {
        return CallError(UNKNOWN_SENDER, MALFORMED_REQUEST_NO_TYPE);
      }
      var (tag, obj) := params.value;
      if tag !in propMap {
        return CallError(UNKNOWN_SENDER, MALFORMED_REQUEST_NO_TYPE);
      }
      var request := FromObject(propMap[tag], obj);
      if request.None? {
        return VisitThrew;
      }
      v := if propMap[tag] == LoginRequestKind then CallLogin(request.value) else CallMessage(request.value);
    }
  }

  lemma TagsDiffer(j: Kind, k: Kind)
    ensures Tag(j) == Tag(k) <==> j == k
  {
  }

  lemma VisitTagged(k: Kind, obj: Tree)
    ensures Visit(Tagged(k, obj)) ==
            if k.LoginRequestKind? || k.MessageRequestKind? then Handle(k, obj)
            else CallError(UNKNOWN_SENDER, MALFORMED_REQUEST_NO_TYPE)
  {
    TaggedExtracts(k, obj);
    TagsDiffer(k, LoginRequestKind);
    TagsDiffer(k, MessageRequestKind);
  }

  /** What visit does with the tree of a message. */
  function CallFor(i: Instance): Visited {
    if i.LoginRequest? then CallLogin(i)
    else if i.MessageRequest? then CallMessage(i)
    else CallError(UNKNOWN_SENDER, MALFORMED_REQUEST_NO_TYPE)
  }

  lemma VisitOfParts(i: Instance, time: string, micros: int)
    requires ReadTime(time) == Some(micros) && (i.ErrorResponse? ==> i.code < 0x1_0000)
    ensures Visit(Tagged(KindOf(i), SubJson(i, time))) == CallFor(i.(time := micros * 1000, from := i.Sender()))
  {
    VisitTagged(KindOf(i), SubJson(i, time));
    ObjectRead(i, time, micros);
  }

  /** The tree of a request makes visit call exactly its handler with its values; any other message is an error. */
  lemma VisitIsByClass(i: Instance)
    requires Writable(i)
    ensures Visit(ToJson(i)) == CallFor(Visible(i))
  {
    WrittenTimeIsRead(i.time, UTC);
    VisitOfParts(i, WriteTime(i.time, UTC), RoundQuotient(i.time, 1000));
  }

  /** A handler is called only for a tree with its type and with the values of that tree. */
  lemma VisitCallsOnlyIts(json: Tree)
    ensures Visit(json).CallLogin? ==>
              Has(json, TYPE, Tag(LoginRequestKind)) && FromJson(LoginRequestKind, json) == Got(Visit(json).request)
    ensures Visit(json).CallMessage? ==>
              Has(json, TYPE, Tag(MessageRequestKind)) && FromJson(MessageRequestKind, json) == Got(Visit(json).request)
  {
  }

  /** A tree that is a request: an object with a time and a sender, the type of a login or, with a content, of a
      message. */
  predicate IsRequestTree(json: Tree) {
    var obj := Find(json, OBJECT);
    && obj.Some? && Find(obj.value, DATETIME).Some? && Find(obj.value, SENDER).Some?
    && (|| Has(json, TYPE, Tag(LoginRequestKind))
        || (Has(json, TYPE, Tag(MessageRequestKind)) && Find(obj.value, CONTENT).Some?))
  }

  /** visit calls a handler for these trees and for no others. */
  lemma VisitCallsIff(json: Tree)
    ensures Visit(json).CallLogin? || Visit(json).CallMessage? <==> IsRequestTree(json)
  {
    TagsDiffer(LoginRequestKind, MessageRequestKind);
  }

  /** The handlers get requests of their class. */
  lemma VisitedRequestIsOfClass(json: Tree)
    ensures Visit(json).CallLogin? ==> Visit(json).request.LoginRequest?
    ensures Visit(json).CallMessage? ==> Visit(json).request.MessageRequest?
  {
    TagsDiffer(LoginRequestKind, MessageRequestKind);
  }

  // ------------------------------------------------- the server's dispatch

  lemma TaggedGets(k: Kind, obj: Tree, key: string, text: string)
    requires Has(obj, key, text)
    ensures Get(Tagged(k, obj), [TYPE]) == Some(Tag(k)) && Get(Tagged(k, obj), [OBJECT, key]) == Some(text)
  {
    TaggedExtracts(k, obj);
    assert [OBJECT, key][1..] == [key] && [key][1..] == [] && [TYPE][1..] == [];
    assert Get(obj, [key]) == Some(text);
  }

  /** onSocket asks the tree of a response for its type and, for a login, for the joining username. */
  lemma DispatchIsByClass(r: Instance)
    requires Writable(r)
    ensures Get(ToJson(r), [TYPE]) == Some(Tag(KindOf(r)))
    ensures Get(ToJson(r), [TYPE]) == Some(Tag(ErrorResponseKind)) <==> r.ErrorResponse?
    ensures Get(ToJson(r), [TYPE]) == Some(Tag(LoginResponseKind)) <==> r.LoginResponse?
    ensures r.LoginResponse? ==> Get(ToJson(r), [OBJECT, JOINING_USERNAME]) == Some(r.joiningUsername)
  {
    TagsDiffer(KindOf(r), ErrorResponseKind);
    TagsDiffer(KindOf(r), LoginResponseKind);
    GetsOfParts(r, WriteTime(r.time, UTC));
  }

  lemma GetsOfParts(r: Instance, time: string)
    ensures Get(Tagged(KindOf(r), SubJson(r, time)), [TYPE]) == Some(Tag(KindOf(r)))
    ensures r.LoginResponse? ==>
              Get(Tagged(KindOf(r), SubJson(r, time)), [OBJECT, JOINING_USERNAME]) == Some(r.joiningUsername)
  {
    SubJsonDescribes(r, time);
    TaggedGets(KindOf(r), SubJson(r, time), DATETIME, time);
    if r.LoginResponse? {
      TaggedGets(KindOf(r), SubJson(r, time), JOINING_USERNAME, r.joiningUsername);
    }
  }
}
