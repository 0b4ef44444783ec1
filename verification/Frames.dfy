/** What travels on the broker's publish socket: data frames and quit frames (core/src/broker.c). */
module Frames {
  import opened Bytes
  import opened Messages

  /** A MODULE_HANDLE: an 8-byte pointer; 0 is NULL. */
  type Handle = x: int | 0 <= x < 0x1_0000_0000_0000_0000
  const NULL: Handle := 0
  const HANDLE_SIZE := 8

  type Frame = seq<byte>

  /** The text UniqueId_Generate writes: 36 ASCII characters, none of them NUL. */
  type Guid = g: seq<byte> | |g| == 36 && forall i :: 0 <= i < |g| ==> 0 < g[i] < 0x80
    witness seq(36, _ => 0x30)
  const BROKER_GUID_SIZE := 37

  function LittleEndian(n: nat, k: nat): (b: seq<byte>)
    ensures |b| == k
  {
    if k == 0 then [] else [n % 0x100] + LittleEndian(n / 0x100, k - 1)
  }

  function Pow256(k: nat): nat {
    if k == 0 then 1 else 0x100 * Pow256(k - 1)
  }

  lemma {:induction false} LittleEndianInjective(n: nat, m: nat, k: nat)
    requires n < Pow256(k) && m < Pow256(k) && LittleEndian(n, k) == LittleEndian(m, k)
    ensures n == m
  {
    if k > 0 {
      var (bn, bm) := (LittleEndian(n, k), LittleEndian(m, k));
      assert bn[0] == bm[0] && bn[1..] == bm[1..];
      assert LittleEndian(n / 0x100, k - 1) == bn[1..] && LittleEndian(m / 0x100, k - 1) == bm[1..];
      LittleEndianInjective(n / 0x100, m / 0x100, k - 1);
    }
  }

  /** The bytes memcpy copies from a handle. */
  function HandleBytes(h: Handle): (b: seq<byte>)
    ensures |b| == HANDLE_SIZE
  {
    LittleEndian(h, 8)
  }

  lemma HandleBytesInjective(h: Handle, k: Handle)
    requires HandleBytes(h) == HandleBytes(k)
    ensures h == k
  {
    assert Pow256(8) == 0x1_0000_0000_0000_0000;
    LittleEndianInjective(h, k, 8);
  }

  /** Broker_Publish: the source handle, then the serialized message. */
  function DataFrame(source: Handle, m: Message): (frame: Frame)
    ensures |frame| == HANDLE_SIZE + EncodedSize(m)
  {
    HandleBytes(source) + Encode(m)
  }

  /** stop_module: the module's GUID with its terminating NUL. */
  function QuitFrame(g: Guid): Frame {
    g + [0]
  }

  /** The publisher's message fits the 32-bit sizes of the wire format and of nn_allocmsg. */
  predicate Publishable(m: Message) {
    Valid(m) && EncodedSize(m) + HANDLE_SIZE <= INT32_MAX
  }

  /** The worker's test for its own quit message: length, then strncmp over 36 characters. */
  predicate IsQuit(g: Guid, frame: Frame) {
    |frame| == BROKER_GUID_SIZE && frame[..BROKER_GUID_SIZE - 1] == g
  }

  datatype Outcome = Quit | Ignored | Delivered(message: Message)

  /** One turn of the worker loop on a received frame. */
  function Receive(g: Guid, frame: Frame): Outcome
    requires |frame| <= INT32_MAX
  {
    if IsQuit(g, frame) then Quit
    else if |frame| < HANDLE_SIZE then Ignored  // a negative size is refused by the parser
    else
      match Decode(frame[HANDLE_SIZE..])
      case None => Ignored
      case Some(m) => Delivered(m)
  }

  // ----- Data and quit frames cannot be confused -----

  lemma DataFrameByteAfterHandle(source: Handle, m: Message)
    ensures |DataFrame(source, m)| >= HANDLE_SIZE + 14
    ensures DataFrame(source, m)[HANDLE_SIZE] == FIRST_MESSAGE_BYTE
    ensures DataFrame(source, m)[HANDLE_SIZE..] == Encode(m)
    ensures DataFrame(source, m)[..HANDLE_SIZE] == HandleBytes(source)
  {
    hide HandleBytes, Be32, EncodeProps;
    assert Encode(m)[0] == FIRST_MESSAGE_BYTE;
  }

  /** A worker never takes a published message for a quit request, and reads back that message. */
  lemma DataFrameDelivered(g: Guid, source: Handle, m: Message)
    requires Publishable(m)
    ensures !IsQuit(g, DataFrame(source, m))
    ensures Receive(g, DataFrame(source, m)) == Delivered(m)
  {
    hide Encode, Decode, DataFrame;
    var f := DataFrame(source, m);
    DataFrameByteAfterHandle(source, m);
    DecodeOfEncode(m);
    assert |f| >= BROKER_GUID_SIZE - 1 ==> f[..BROKER_GUID_SIZE - 1][HANDLE_SIZE] == f[HANDLE_SIZE];
  }

  /** A quit frame stops the worker it is meant for and is ignored by every other worker it reaches. */
  lemma QuitFrameReceived(g: Guid, other: Guid)
    ensures Receive(g, QuitFrame(other)) == if g == other then Quit else Ignored
  {
    var f := QuitFrame(other);
    assert f[..BROKER_GUID_SIZE - 1] == other;
    var rest := f[HANDLE_SIZE..];
    assert rest[0] == other[HANDLE_SIZE] != FIRST_MESSAGE_BYTE;
    assert Decode(rest) == None by { hide ReadInt32, ParseProps; }
    hide Decode;
  }

  // ----- Subscriptions -----

  /** A module's NN_SUB socket: the GUID topic, the counted handle topics and the frames not yet received. */
  datatype Socket = Socket(guid: Guid, subs: multiset<Handle>, inbox: seq<Frame>)

  /** NN_SUB passes a frame when some subscribed topic is a prefix of it. */
  predicate Matches(s: Socket, frame: Frame) {
    s.guid <= frame || exists h :: h in s.subs && HandleBytes(h) <= frame
  }

  /** A published message passes exactly the sockets subscribed to its source. */
  lemma DataFrameMatches(s: Socket, source: Handle, m: Message)
    ensures Matches(s, DataFrame(source, m)) <==> source in s.subs
  {
    hide Encode, HandleBytes;
    var f := DataFrame(source, m);
    DataFrameByteAfterHandle(source, m);
    assert forall g: Guid :: g <= f ==> g[HANDLE_SIZE] == f[HANDLE_SIZE];
    forall h | HandleBytes(h) <= f ensures h == source {
      assert HandleBytes(h) == f[..HANDLE_SIZE];
      HandleBytesInjective(h, source);
    }
    if source in s.subs {
      assert HandleBytes(source) <= f;
    }
  }

  /** A frame passes a socket exactly when it begins with its GUID or with the bytes of a subscribed handle. */
  lemma MatchesIff(s: Socket, frame: Frame)
    ensures Matches(s, frame) <==>
            || (|frame| >= 36 && forall i :: 0 <= i < 36 ==> frame[i] == s.guid[i])
            || (|frame| >= HANDLE_SIZE && exists h :: h in s.subs && frame[..HANDLE_SIZE] == HandleBytes(h))
  {
    assert s.guid <= frame <==> |frame| >= 36 && s.guid == frame[..36];
  }

  /** A module's quit frame passes its own socket. */
  lemma QuitFrameMatchesOwn(s: Socket)
    ensures Matches(s, QuitFrame(s.guid))
  {
    assert s.guid <= s.guid + [0];
  }
}
