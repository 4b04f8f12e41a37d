/** The tree of every message, key by key, as the client of the server knows it; and exactly which trees are read as
    which message. */
module WireForm {
  import opened Wrappers
  import opened Messages
  import opened Text
  import opened TimePoint
  import opened TimeGrammar
  import opened PropertyTree
  import opened Codec

  // --------------------------------------------------------- what is written

  function Leaf(text: string): Tree {
    Tree(text, [])
  }

  /** The client's class of the message, in full. */
  function ClassName(i: Instance): string {
    match i
    case LoginRequest(_, _) => "ca.uwo.eng.se3313.lab4.network.request.LoginRequest"
    case MessageRequest(_, _, _) => "ca.uwo.eng.se3313.lab4.network.request.MessageRequest"
    case LoginResponse(_, _, _) => "ca.uwo.eng.se3313.lab4.network.response.LoginResponse"
    case MessageResponse(_, _, _, _) => "ca.uwo.eng.se3313.lab4.network.response.MessageResponse"
    case ErrorResponse(_, _, _, _, _) => "ca.uwo.eng.se3313.lab4.network.response.ServerError"
  }

  /** The keys that a class adds to time and sender, in their order. */
  function OwnFields(i: Instance): seq<(string, Tree)> {
    match i
    case LoginRequest(_, _) => []
    case MessageRequest(_, _, content) => [("content", Leaf(content))]
    case LoginResponse(_, _, name) => [("joiningUsername", Leaf(name))]
    case MessageResponse(_, _, originator, content) => [("originator", Leaf(originator)), ("content", Leaf(content))]
    case ErrorResponse(_, _, originator, code, message) =>
      [("code", Leaf(Digits(code))), ("message", Leaf(message)), ("originator", Leaf(originator))]
  }

  /** Everybody signs for himself, but a login is always announced by the server. */
  function ShownSender(i: Instance): string {
    if i.LoginResponse? then "@server" else i.from
  }

  function Wire(i: Instance, time: string): Tree {
    var common := [("datetime", Leaf(time)), ("sender", Leaf(ShownSender(i)))];
    Tree("", [("type", Leaf(ClassName(i))), ("object", Tree("", common + OwnFields(i)))])
  }

  /** A key that a tree does not have is put at the end. */
  lemma PutAtEnd(t: Tree, key: string, text: string)
    requires IndexOf(t.children, key) == |t.children|
    ensures Put(t, key, text) == Tree(t.data, t.children + [(key, Leaf(text))])
  {
  }

  lemma NewKey(t: Tree, key: string)
    requires forall k :: 0 <= k < |t.children| ==> t.children[k].0 != key
    ensures IndexOf(t.children, key) == |t.children|
  {
    IndexIs(t.children, key, |t.children|);
  }

  lemma BaseIs(time: string, sender: string)
    ensures BaseJson(time, sender) == Tree("", [("datetime", Leaf(time)), ("sender", Leaf(sender))])
  {
    PutAtEnd(EMPTY, DATETIME, time);
    var t := Put(EMPTY, DATETIME, time);
    assert t == Tree("", [("datetime", Leaf(time))]);
    NewKey(t, SENDER);
    PutAtEnd(t, SENDER, sender);
  }

  lemma ObjectIs(i: Instance, time: string)
    ensures SubJson(i, time) ==
            Tree("", [("datetime", Leaf(time)), ("sender", Leaf(ShownSender(i)))] + OwnFields(i))
  {
    var base := BaseJson(time, i.Sender());
    BaseIs(time, i.Sender());
    match i
    case LoginRequest(_, _) =>
    case MessageRequest(_, _, content) => OneMore(base, CONTENT, content);
    case LoginResponse(_, _, name) => OneMore(base, JOINING_USERNAME, name);
    case MessageResponse(_, _, originator, content) =>
      OneMore(base, ORIGINATOR, originator);
      OneMore(Put(base, ORIGINATOR, originator), CONTENT, content);
    case ErrorResponse(_, _, originator, code, message) =>
      OneMore(base, CODE, Digits(code));
      OneMore(Put(base, CODE, Digits(code)), MESSAGE, message);
      OneMore(Put(Put(base, CODE, Digits(code)), MESSAGE, message), ORIGINATOR, originator);
  }

  lemma OneMore(t: Tree, key: string, text: string)
    requires forall k :: 0 <= k < |t.children| ==> t.children[k].0 != key
    ensures Put(t, key, text) == Tree(t.data, t.children + [(key, Leaf(text))])
  {
    NewKey(t, key);
    PutAtEnd(t, key, text);
  }

  lemma TaggedIs(k: Kind, obj: Tree)
    ensures Tagged(k, obj) == Tree("", [("type", Leaf(Tag(k))), ("object", obj)])
  {
    OneMore(EMPTY, TYPE, Tag(k));
    NewKey(Put(EMPTY, TYPE, Tag(k)), OBJECT);
  }

  lemma TagIsClass(i: Instance)
    ensures Tag(KindOf(i)) == ClassName(i)
  {
  }

  lemma TreeIs(i: Instance, time: string)
    ensures Tagged(KindOf(i), SubJson(i, time)) == Wire(i, time)
  {
    TagIsClass(i);
    TaggedIs(KindOf(i), SubJson(i, time));
    ObjectIs(i, time);
  }

  /** The tree of a message has just these keys, in this order, with these texts. */
  lemma WrittenTreeIs(i: Instance)
    requires Writable(i)
    ensures ToJson(i) == Wire(i, WriteTime(i.time, UTC))
  {
    TreeIs(i, WriteTime(i.time, UTC));
  }

  // ------------------------------------------------------------ what is read

  /** The time of a text: what it denotes, and the epoch if it denotes none. */
  ghost predicate TimeIn(text: string, time: Time) {
    if exists micros :: TimeIsIn(text, micros) then exists micros :: TimeIsIn(text, micros) && time == micros * 1000
    else time == 0
  }

  ghost predicate TimeIsIn(text: string, micros: int) {
    exists p: TimeParts :: p.Valid() && p.Spelling() == text && Denotes(p, micros)
  }

  lemma TimeInIff(text: string, time: Time)
    ensures TimeIn(text, time) <==>
            time == if ReadTime(text).Some? then ReadTime(text).value * 1000 else 0
  {
    forall micros
      ensures TimeIsIn(text, micros) <==> ReadTime(text) == Some(micros)
    {
      ReadTimeIff(text, micros);
    }
  }

  /** A number of sixteen bits, alone in its text. */
  ghost predicate CodeIn(text: string, code: nat) {
    code <= 0xFFFF && exists rest :: NumberAt(text, code, rest) && AllSpaces(rest)
  }

  lemma CodeInIff(text: string, code: nat)
    ensures CodeIn(text, code) <==> ReadCode(text) == Some(code)
  {
    if ReadCode(text) == Some(code) {
      var rest := ReadInteger(text, 0xFFFF).value.1;
      ReadIntegerIff(text, 0xFFFF, code, rest);
      var w := SpacesBefore(rest);
      assert rest == w;
    }
    if CodeIn(text, code) {
      var rest :| NumberAt(text, code, rest) && AllSpaces(rest);
      ReadIntegerIff(text, 0xFFFF, code, rest);
      SpacesSkipped(rest, []);
      assert rest + [] == rest;
    }
  }

  /** The object has what this class has beside time and sender, with these values. */
  ghost predicate HoldsOwn(obj: Tree, i: Instance) {
    match i
    case LoginRequest(_, _) => true
    case MessageRequest(_, _, content) => Has(obj, "content", content)
    case LoginResponse(_, _, name) => Has(obj, "joiningUsername", name)
    case MessageResponse(_, _, originator, content) => Has(obj, "originator", originator) && Has(obj, "content", content)
    case ErrorResponse(_, _, originator, code, message) =>
      && (exists text :: Has(obj, "code", text) && CodeIn(text, code))
      && Has(obj, "message", message) && Has(obj, "originator", originator)
  }

  ghost predicate HoldsCommon(obj: Tree, time: Time, sender: string) {
    (exists text :: Has(obj, "datetime", text) && TimeIn(text, time)) && Has(obj, "sender", sender)
  }

  lemma CommonIff(obj: Tree, time: Time, sender: string)
    ensures CommonParams(obj) == Some((time, sender)) <==> HoldsCommon(obj, time, sender)
  {
    if Find(obj, DATETIME).Some? {
      TimeInIff(Find(obj, DATETIME).value.data, time);
      assert Has(obj, "datetime", Find(obj, DATETIME).value.data);
    }
  }

  lemma OwnIff(k: Kind, obj: Tree, i: Instance)
    ensures FromFields(k, obj, i.time, i.from) == Some(i) <==> KindOf(i) == k && HoldsOwn(obj, i)
  {
    if i.ErrorResponse? && Find(obj, CODE).Some? {
      CodeInIff(Find(obj, CODE).value.data, i.code);
      assert Has(obj, "code", Find(obj, CODE).value.data);
    }
  }

  lemma FromObjectIff(k: Kind, obj: Tree, i: Instance)
    ensures FromObject(k, obj) == Some(i) <==> KindOf(i) == k && HoldsCommon(obj, i.time, i.from) && HoldsOwn(obj, i)
  {
    CommonIff(obj, i.time, i.from);
    OwnIff(k, obj, i);
    if FromObject(k, obj) == Some(i) {
      var (time, sender) := CommonParams(obj).value;
      assert time == i.time && sender == i.from;
    }
  }

  /** fromJson of a class gives a message exactly if the tree has a type, whatever it is, and an object with all that
      the class needs; without type or object it gives null, and otherwise it throws. */
  lemma FromJsonIff(k: Kind, json: Tree, i: Instance)
    ensures FromJson(k, json) == Got(i) <==>
            && Find(json, "type").Some? && Find(json, "object").Some? && KindOf(i) == k
            && HoldsCommon(Find(json, "object").value, i.time, i.from) && HoldsOwn(Find(json, "object").value, i)
    ensures FromJson(k, json).Null? <==> Find(json, "type").None? || Find(json, "object").None?
  {
    if Find(json, OBJECT).Some? {
      FromObjectIff(k, Find(json, OBJECT).value, i);
    }
  }
}
