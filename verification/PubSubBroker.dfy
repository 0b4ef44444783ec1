/** The publish/subscribe message broker (core/src/broker.c). */
module PubSubBroker {
  import opened Bytes
  import opened Messages
  import opened Frames

  datatype BrokerResult = OK | ERROR | ADD_LINK_ERROR | REMOVE_LINK_ERROR | INVALIDARG

  type Sockets = map<Handle, Socket>

  // ----- What the operations do to the table of receive sockets -----

  function Subscribe(s: Sockets, source: Handle, sink: Handle): Sockets
    requires sink in s
  {
    s[sink := s[sink].(subs := s[sink].subs + multiset{source})]
  }

  /** Unsubscribing an absent topic changes nothing. */
  function Unsubscribe(s: Sockets, source: Handle, sink: Handle): Sockets
    requires sink in s
  {
    s[sink := s[sink].(subs := s[sink].subs - multiset{source})]
  }

  function Offered(h: Handle, s: Socket, frame: Frame, dropped: set<Handle>): Socket {
    if h !in dropped && Matches(s, frame) then s.(inbox := s.inbox + [frame]) else s
  }

  /** nn_send: each socket with a matching topic gets the frame, except where it is dropped. */
  function Offer(s: Sockets, frame: Frame, dropped: set<Handle>): Sockets {
    map h | h in s :: Offered(h, s[h], frame, dropped)
  }

  /** The module's quit frame is sent to everyone, then its socket is closed. */
  function Detach(s: Sockets, h: Handle, dropped: set<Handle>): Sockets
    requires h in s
  {
    Offer(s, QuitFrame(s[h].guid), dropped) - {h}
  }

  datatype ModuleInfo = ModuleInfo(handle: Handle, socket: Socket)

  // ----- The table a module list stands for -----

  ghost predicate Distinct(ms: seq<ModuleInfo>) {
    forall i, j :: 0 <= i < j < |ms| ==> ms[i].handle != ms[j].handle
  }

  ghost function TableOf(ms: seq<ModuleInfo>): Sockets {
    if ms == [] then map[] else TableOf(ms[..|ms| - 1])[ms[|ms| - 1].handle := ms[|ms| - 1].socket]
  }

  lemma {:induction false} TableLookup(ms: seq<ModuleInfo>)
    requires Distinct(ms)
    ensures forall i :: 0 <= i < |ms| ==> ms[i].handle in TableOf(ms) && TableOf(ms)[ms[i].handle] == ms[i].socket
    ensures forall h :: h in TableOf(ms) ==> exists i :: 0 <= i < |ms| && ms[i].handle == h
  {
    if ms != [] {
      var front := ms[..|ms| - 1];
      TableLookup(front);
      forall h | h in TableOf(ms) ensures exists i :: 0 <= i < |ms| && ms[i].handle == h {
        if h in TableOf(front) {
          var i :| 0 <= i < |front| && front[i].handle == h;
          assert ms[i].handle == h;
        }
      }
    }
  }

  lemma TableAppend(ms: seq<ModuleInfo>, m: ModuleInfo)
    requires Distinct(ms) && m.handle !in TableOf(ms)
    ensures Distinct(ms + [m]) && TableOf(ms + [m]) == TableOf(ms)[m.handle := m.socket]
  {
    TableLookup(ms);
    assert (ms + [m])[..|ms|] == ms;
  }

  predicate Lists(ms: seq<ModuleInfo>, h: Handle) {
    exists i :: 0 <= i < |ms| && ms[i].handle == h
  }

  lemma TableIs(ms: seq<ModuleInfo>, t: Sockets)
    requires Distinct(ms)
    requires forall i :: 0 <= i < |ms| ==> ms[i].handle in t && ms[i].socket == t[ms[i].handle]
    requires forall h :: h in t ==> Lists(ms, h)
    ensures TableOf(ms) == t
  {
    TableLookup(ms);
    hide TableOf, Distinct;
    forall h ensures h in TableOf(ms) <==> h in t {}
    forall h | h in t ensures TableOf(ms)[h] == t[h] {
      assert Lists(ms, h);
    }
  }

  /** Changing sockets in place, each by the same function of its handle and old socket. */
  lemma TableUpdate(ms: seq<ModuleInfo>, ns: seq<ModuleInfo>, t: Sockets)
    requires Distinct(ms) && |ns| == |ms| && t.Keys == TableOf(ms).Keys
    requires forall i :: 0 <= i < |ms| ==> ns[i].handle == ms[i].handle
    requires forall i :: 0 <= i < |ms| ==> ms[i].handle in t && ns[i].socket == t[ms[i].handle]
    ensures Distinct(ns) && TableOf(ns) == t
  {
    TableLookup(ms);
    hide TableOf;
    forall h | h in t ensures Lists(ns, h) {
      var i :| 0 <= i < |ms| && ms[i].handle == h;
      assert ns[i].handle == h;
    }
    TableIs(ns, t);
  }

  lemma {:induction false} TableRemove(ms: seq<ModuleInfo>, i: nat)
    requires Distinct(ms) && i < |ms|
    ensures Distinct(ms[..i] + ms[i + 1..])
    ensures TableOf(ms[..i] + ms[i + 1..]) == TableOf(ms) - {ms[i].handle}
  {
    DistinctWithout(ms, i);
    var last := |ms| - 1;
    var front := ms[..last];
    var rest := ms[..i] + ms[i + 1..];
    hide Distinct;
    if i == last {
      assert rest == front;
      NotInFront(ms);
    } else {
      DistinctWithout(ms, last);
      assert ms[..last] + ms[last + 1..] == front;
      TableRemove(front, i);
      assert rest[..last - 1] == front[..i] + front[i + 1..];
      assert ms[last].handle != ms[i].handle by { LastDiffers(ms, i); }
    }
  }

  lemma DistinctWithout(ms: seq<ModuleInfo>, i: nat)
    requires Distinct(ms) && i < |ms|
    ensures Distinct(ms[..i] + ms[i + 1..])
  {
    var rest := ms[..i] + ms[i + 1..];
    assert forall k :: 0 <= k < |rest| ==> rest[k] == ms[if k < i then k else k + 1];
  }

  lemma LastDiffers(ms: seq<ModuleInfo>, i: nat)
    requires Distinct(ms) && i < |ms| - 1
    ensures ms[i].handle != ms[|ms| - 1].handle
  {
  }

  lemma NotInFront(ms: seq<ModuleInfo>)
    requires Distinct(ms) && ms != []
    ensures ms[|ms| - 1].handle !in TableOf(ms[..|ms| - 1])
  {
    TableLookup(ms[..|ms| - 1]);
    hide TableOf;
  }

  class Broker {
    /** BROKER_HANDLE_DATA::modules, in the order of the list. */
    var modules: seq<ModuleInfo>
    /** The count of REFCOUNT_TYPE; the broker is freed when it reaches 0. */
    var refCount: nat

    ghost predicate Valid()
      reads this
    {
      Distinct(modules) && NULL !in TableOf(modules)
    }

    ghost function Table(): Sockets
      reads this
    {
      TableOf(modules)
    }

    constructor ()
      ensures Valid() && Table() == map[] && refCount == 1
    {
      modules := [];
      refCount := 1;
    }

    /** list_find with find_module_predicate; the length of the list stands for "not found". */
    method Locate(h: Handle) returns (i: nat)
      requires Valid()
      ensures i <= |modules|
      ensures i < |modules| <==> h in Table()
      ensures i < |modules| ==> modules[i].handle == h && modules[i].socket == Table()[h]
    {
      TableLookup(modules);
      i := 0;
      while i < |modules| && modules[i].handle != h
        invariant i <= |modules|
        invariant forall k :: 0 <= k < i ==> modules[k].handle != h
      {
        i := i + 1;
      }
    }

    method IncRef()
      modifies this`refCount
      ensures refCount == old(refCount) + 1
    {
      refCount := refCount + 1;
    }

    /** Broker_DecRef and Broker_Destroy; the last reference frees the broker. */
    method DecRef() returns (freed: bool)
      requires refCount > 0
      modifies this`refCount
      ensures refCount == old(refCount) - 1 && (freed <==> refCount == 0)
    {
      refCount := refCount - 1;
      freed := refCount == 0;
    }

    /** Broker_AddModule; started is false when a lock, list, socket or thread cannot be made. */
    method AddModule(h: Handle, apis: bool, guid: Guid, started: bool) returns (r: BrokerResult)
      requires Valid() && h !in Table()
      modifies this`modules
      ensures Valid()
      ensures r == if !apis || h == NULL then INVALIDARG else if started then OK else ERROR
      ensures Table() == if r.OK? then old(Table())[h := Socket(guid, multiset{}, [])] else old(Table())
    {
      if !apis || h == NULL {
        return INVALIDARG;
      }
      if !started {
        return ERROR;
      }
      TableAppend(modules, ModuleInfo(h, Socket(guid, multiset{}, [])));
      hide TableOf, Distinct;
      modules := modules + [ModuleInfo(h, Socket(guid, multiset{}, []))];
      return OK;
    }

    /**
     * Broker_RemoveModule: stop the worker, close its socket and drop it from the list.  If the quit
     * frame cannot be sent the socket is closed without it.
     */
    method RemoveModule(h: Handle, sent: bool, dropped: set<Handle>) returns (r: BrokerResult)
      requires Valid()
      modifies this`modules
      ensures Valid()
      ensures r == if h in old(Table()) then OK else ERROR
      ensures Table() == if h !in old(Table()) then old(Table())
                         else if sent then Detach(old(Table()), h, dropped)
                         else old(Table()) - {h}
    {
      var i := Locate(h);
      if i == |modules| {
        return ERROR;
      }
      if sent {
        Send(QuitFrame(modules[i].socket.guid), dropped);
      }
      TableRemove(modules, i);
      modules := modules[..i] + modules[i + 1..];
      return OK;
    }

    /** nn_send on the publish socket. */
    method Send(frame: Frame, dropped: set<Handle>)
      requires Valid()
      modifies this`modules
      ensures Valid() && Table() == Offer(old(Table()), frame, dropped)
      ensures |modules| == |old(modules)|
      ensures forall i :: 0 <= i < |modules| ==> modules[i].handle == old(modules)[i].handle
    {
      hide Matches, TableOf;
      var i := 0;
      while i < |modules|
        invariant 0 <= i <= |modules| == |old(modules)|
        invariant forall k :: 0 <= k < |modules| ==> modules[k].handle == old(modules)[k].handle
        invariant forall k :: i <= k < |modules| ==> modules[k] == old(modules)[k]
        invariant forall k :: 0 <= k < i ==>
                    modules[k].socket == Offered(old(modules)[k].handle, old(modules)[k].socket, frame, dropped)
      {
        var m := modules[i];
        if m.handle !in dropped && Matches(m.socket, frame) {
          modules := modules[i := m.(socket := m.socket.(inbox := m.socket.inbox + [frame]))];
        }
        i := i + 1;
      }
      TableLookup(old(modules));
      TableUpdate(old(modules), modules, Offer(old(Table()), frame, dropped));
    }

    /** Broker_AddLink; accepted is false when nn_setsockopt refuses the subscription. */
    method AddLink(source: Handle, sink: Handle, accepted: bool) returns (r: BrokerResult)
      requires Valid()
      modifies this`modules
      ensures Valid()
      ensures r == if source == NULL || sink == NULL then INVALIDARG
                   else if accepted && source in old(Table()) && sink in old(Table()) then OK
                   else ADD_LINK_ERROR
      ensures Table() == if r.OK? then Subscribe(old(Table()), source, sink) else old(Table())
    {
      if source == NULL || sink == NULL {
        return INVALIDARG;
      }
      var i := Locate(sink);
      if i == |modules| {
        return ADD_LINK_ERROR;
      }
      var j := Locate(source);
      if j == |modules| || !accepted {
        return ADD_LINK_ERROR;
      }
      var s := modules[i].socket;
      SetSocket(i, s.(subs := s.subs + multiset{source}));
      return OK;
    }

    /** Broker_RemoveLink: unsubscribing a topic that is not there is reported and changes nothing. */
    method RemoveLink(source: Handle, sink: Handle) returns (r: BrokerResult)
      requires Valid()
      modifies this`modules
      ensures Valid()
      ensures r.OK? <==> source != NULL && sink != NULL && source in old(Table()) && sink in old(Table())
                         && source in old(Table())[sink].subs
      ensures !r.OK? ==> r == if source == NULL || sink == NULL then INVALIDARG else REMOVE_LINK_ERROR
      ensures Table() == if r.OK? then Unsubscribe(old(Table()), source, sink) else old(Table())
    {
      if source == NULL || sink == NULL {
        return INVALIDARG;
      }
      var i := Locate(sink);
      if i == |modules| {
        return REMOVE_LINK_ERROR;
      }
      var j := Locate(source);
      if j == |modules| || source !in modules[i].socket.subs {
        return REMOVE_LINK_ERROR;
      }
      var s := modules[i].socket;
      SetSocket(i, s.(subs := s.subs - multiset{source}));
      return OK;
    }

    /** nn_setsockopt on one receive socket. */
    method SetSocket(i: nat, s: Socket)
      requires Valid() && i < |modules|
      modifies this`modules
      ensures Valid() && Table() == old(Table())[old(modules)[i].handle := s]
    {
      hide TableOf;
      TableLookup(modules);
      modules := modules[i := modules[i].(socket := s)];
      TableUpdate(old(modules), modules, old(Table())[old(modules)[i].handle := s]);
    }

    /**
     * Broker_Publish: size, allocate, copy the handle, serialize, send.  buffer says whether
     * nn_allocmsg succeeds and sent whether nn_send takes the whole frame.
     */
    method Publish(source: Handle, message: Option<Message>, buffer: bool, sent: bool, dropped: set<Handle>)
      returns (r: BrokerResult)
      requires Valid() && (message.Some? ==> Publishable(message.value))
      modifies this`modules
      ensures Valid()
      ensures r == if source == NULL || message == None then INVALIDARG else if buffer && sent then OK else ERROR
      ensures Table() == if r.OK? then Offer(old(Table()), DataFrame(source, message.value), dropped)
                         else old(Table())
    {
      if source == NULL || message == None {
        return INVALIDARG;
      }
      hide Encode, Matches;
      var msgSize := ToByteArray(message, null, 0);
      if !buffer {
        return ERROR;
      }
      var frame := BuildFrame(source, message.value, msgSize);
      if !sent {
        return ERROR;
      }
      Send(frame, dropped);
      return OK;
    }
  }

  /** A quit frame that is not sent is one that every socket misses. */
  lemma UnsentQuitFrame(s: Sockets, h: Handle)
    requires h in s
    ensures Detach(s, h, s.Keys) == s - {h}
  {
  }

  /** Fills the nanomsg buffer: the handle at the front, the serialized message behind it. */
  method BuildFrame(source: Handle, m: Message, msgSize: int32) returns (frame: Frame)
    requires msgSize == EncodedSize(m)
    ensures frame == DataFrame(source, m)
  {
    hide Encode, EncodedSize;
    var body := new byte[msgSize];
    var written := ToByteArray(Some(m), body, msgSize);
    frame := HandleBytes(source) + body[..];
  }

  // ----- The worker -----

  /** The messages a worker hands to its module from the frames received, up to its quit frame. */
  function Handled(g: Guid, frames: seq<Frame>): seq<Message>
    requires forall f :: f in frames ==> |f| <= INT32_MAX
  {
    if frames == [] then []
    else
      match Receive(g, frames[0])
      case Quit => []
      case Ignored => Handled(g, frames[1..])
      case Delivered(m) => [m] + Handled(g, frames[1..])
  }

  /** module_worker on the frames nn_recv returns; the end of the sequence is a receive error. */
  method ModuleWorker(g: Guid, frames: seq<Frame>) returns (handled: seq<Message>, consumed: nat)
    requires forall f :: f in frames ==> |f| <= INT32_MAX
    ensures handled == Handled(g, frames)
    ensures consumed <= |frames|
    ensures consumed < |frames| ==> IsQuit(g, frames[consumed])
    ensures forall i :: 0 <= i < consumed ==> !IsQuit(g, frames[i])
  {
    hide Decode, Read, PropertiesOf;
    handled := [];
    consumed := 0;
    while consumed < |frames|
      invariant consumed <= |frames|
      invariant forall i :: 0 <= i < consumed ==> !IsQuit(g, frames[i])
      invariant handled + Handled(g, frames[consumed..]) == Handled(g, frames)
    {
      var frame := frames[consumed];
      if |frame| == BROKER_GUID_SIZE && frame[..BROKER_GUID_SIZE - 1] == g {
        return;
      }
      if |frame| >= HANDLE_SIZE {
        var nbytes := |frame| - HANDLE_SIZE;
        var bytes := new byte[nbytes](i requires 0 <= i < nbytes => frame[HANDLE_SIZE + i]);
        assert bytes[..] == frame[HANDLE_SIZE..];
        var msg := CreateFromByteArray(bytes, |frame| - HANDLE_SIZE);
        CreatedIsDecoded(bytes[..], msg);
        if msg.message.Some? {
          handled := handled + [msg.message.value];
        }
      }
      consumed := consumed + 1;
    }
  }

  lemma CreatedIsDecoded(b: seq<byte>, r: ReadOutcome)
    requires |b| <= INT32_MAX && r != ReadsPastEnd
    requires forall m :: r == Returns(Some(m)) <==> Messages.Valid(m) && Encode(m) == b
    ensures r == Returns(Decode(b))
  {
    hide Encode, Decode, Read;
    if r.message.Some? {
      DecodeIffEncode(b, r.message.value);
    } else if Decode(b).Some? {
      DecodeIffEncode(b, Decode(b).value);
    }
  }

  predicate AllPublishable(source: seq<Handle>, ms: seq<Message>) {
    |source| == |ms| && forall i :: 0 <= i < |ms| ==> Publishable(ms[i])
  }

  /** The frames of a sequence of publications. */
  function DataFrames(sources: seq<Handle>, ms: seq<Message>): (fs: seq<Frame>)
    requires AllPublishable(sources, ms)
    ensures |fs| == |ms| && forall f :: f in fs ==> |f| <= INT32_MAX
  {
    seq(|ms|, i requires 0 <= i < |ms| => DataFrame(sources[i], ms[i]))
  }

  /** A worker hands on every published message it is sent, in order and unchanged. */
  lemma {:induction false} WorkerPreservesMessages(g: Guid, sources: seq<Handle>, ms: seq<Message>)
    requires AllPublishable(sources, ms)
    ensures Handled(g, DataFrames(sources, ms)) == ms
  {
    hide DataFrame, Receive;
    if ms != [] {
      var fs := DataFrames(sources, ms);
      assert fs[1..] == DataFrames(sources[1..], ms[1..]);
      assert fs[0] == DataFrame(sources[0], ms[0]);
      DataFrameDelivered(g, sources[0], ms[0]);
      WorkerPreservesMessages(g, sources[1..], ms[1..]);
    }
  }

  /** A frame goes to the end of the inbox of every socket it passes and is not lost for, and nothing else changes. */
  lemma OfferIs(s: Sockets, frame: Frame, dropped: set<Handle>, t: Handle)
    ensures t in Offer(s, frame, dropped) <==> t in s
    ensures t in s ==>
              var r := Offer(s, frame, dropped)[t];
              && r.guid == s[t].guid && r.subs == s[t].subs
              && r.inbox == s[t].inbox + if t !in dropped && Matches(s[t], frame) then [frame] else []
  {
    hide Matches;
    assert t in s ==> s[t].inbox + [] == s[t].inbox;
  }

  /** What a worker may find in its socket before its own quit frame: publications and foreign quit frames. */
  datatype Sent = Data(source: Handle, message: Message) | Foreign(guid: Guid)

  predicate Sendable(g: Guid, sent: seq<Sent>) {
    forall i :: 0 <= i < |sent| ==> match sent[i] case Data(_, m) => Publishable(m) case Foreign(other) => other != g
  }

  function FrameOf(x: Sent): Frame {
    match x case Data(source, m) => DataFrame(source, m) case Foreign(g) => QuitFrame(g)
  }

  function FramesOf(sent: seq<Sent>): (fs: seq<Frame>)
    ensures |fs| == |sent|
  {
    if sent == [] then [] else [FrameOf(sent[0])] + FramesOf(sent[1..])
  }

  function MessagesOf(sent: seq<Sent>): seq<Message> {
    if sent == [] then []
    else (match sent[0] case Data(_, m) => [m] case Foreign(_) => []) + MessagesOf(sent[1..])
  }

  lemma FrameIsHandled(g: Guid, x: Sent)
    requires Sendable(g, [x])
    ensures |FrameOf(x)| <= INT32_MAX
    ensures Receive(g, FrameOf(x)) == match x case Data(_, m) => Delivered(m) case Foreign(_) => Ignored
  {
    assert [x][0] == x;
    hide Receive, DataFrame, QuitFrame;
    match x {
      case Data(source, m) => DataFrameDelivered(g, source, m);
      case Foreign(other) => QuitFrameReceived(g, other);
    }
    assert |FrameOf(x)| <= INT32_MAX by { FrameLength(g, x); }
  }

  lemma FrameLength(g: Guid, x: Sent)
    requires Sendable(g, [x])
    ensures |FrameOf(x)| <= INT32_MAX
  {
    assert [x][0] == x;
    hide Encode, EncodeProps;
  }

  /**
   * A worker hands on the published messages and nothing else, also after quit frames of other
   * modules, and stops at its own quit frame: what comes after that is not handed on.
   */
  lemma {:induction false} WorkerHandles(g: Guid, sent: seq<Sent>, after: seq<Frame>)
    requires Sendable(g, sent) && forall f :: f in after ==> |f| <= INT32_MAX
    ensures forall f :: f in FramesOf(sent) + [QuitFrame(g)] + after ==> |f| <= INT32_MAX
    ensures Handled(g, FramesOf(sent) + [QuitFrame(g)] + after) == MessagesOf(sent)
  {
    var all := FramesOf(sent) + [QuitFrame(g)] + after;
    if sent == [] {
      QuitFrameReceived(g, g);
      assert all[0] == QuitFrame(g) && |QuitFrame(g)| == 37;
      assert all == [QuitFrame(g)] + after;
      hide QuitFrame, Receive;
    } else {
      var rest := FramesOf(sent[1..]) + [QuitFrame(g)] + after;
      assert Sendable(g, sent[1..]) && Sendable(g, [sent[0]]);
      WorkerHandles(g, sent[1..], after);
      FrameIsHandled(g, sent[0]);
      hide QuitFrame, Receive, FrameOf, Sendable;
      assert all == [FrameOf(sent[0])] + rest;
      assert all[1..] == rest && all[0] == FrameOf(sent[0]);
    }
  }
}
