/**
 * What the identity map answers, in terms of its configuration: an address is its digits, in
 * whatever case they are written, and not the upper-case copy that the map searches for.
 */
module IdentityLaws {
  import opened Bytes
  import opened Messages
  import opened PropertyMaps
  import opened IdentityMaps

  // ----- The strings -----

  function Ascii(s: string): seq<int> {
    seq(|s|, i requires 0 <= i < |s| => s[i] as int)
  }

  lemma NamesAre()
    ensures MAC_ADDRESS == Ascii("macAddress") && SOURCE == Ascii("source")
    ensures DEVICE_NAME == Ascii("deviceName") && DEVICE_KEY == Ascii("deviceKey")
    ensures MAPPING == Ascii("mapping") && IOTHUB == Ascii("iothub")
  {
  }

  /** At k the strings differ first, where a has the smaller byte or ends. */
  predicate SmallerAt(a: CString, b: CString, k: nat) {
    k <= |a| && k < |b| && (forall i :: 0 <= i < k ==> a[i] == b[i]) && (k < |a| ==> a[k] < b[k])
  }

  lemma SmallerTail(a: CString, b: CString, k: nat)
    requires a != [] && b != [] && a[0] == b[0]
    ensures SmallerAt(a, b, k + 1) <==> SmallerAt(a[1..], b[1..], k)
  {
    if SmallerAt(a[1..], b[1..], k) {
      forall i | 0 <= i < k + 1 ensures a[i] == b[i] {
        assert i > 0 ==> a[1..][i - 1] == b[1..][i - 1];
      }
    }
  }

  /** strcmp is negative exactly when the first string stands before the second in a dictionary. */
  lemma {:induction false} StrCmpOrders(a: CString, b: CString)
    ensures StrCmp(a, b) < 0 <==> exists k :: SmallerAt(a, b, k)
  {
    if a == [] || b == [] || a[0] != b[0] {
      assert SmallerAt(a, b, 0) <==> b != [] && (a == [] || a[0] < b[0]);
    } else {
      StrCmpOrders(a[1..], b[1..]);
      if k: nat :| SmallerAt(a, b, k) {
        SmallerTail(a, b, k - 1);
      }
      if k: nat :| SmallerAt(a[1..], b[1..], k) {
        SmallerTail(a, b, k);
      }
    }
  }

  // ----- Addresses -----

  /** The value of a hexadecimal digit, or -1. */
  function HexValue(c: byte): int {
    if 0x30 <= c <= 0x39 then c - 0x30
    else if 0x41 <= c <= 0x46 then c - 0x41 + 10
    else if 0x61 <= c <= 0x66 then c - 0x61 + 10
    else -1
  }

  /** Six pairs of hexadecimal digits with colons between them. */
  predicate IsAddress(a: CString) {
    |a| == 17 && forall i :: 0 <= i < 17 ==> if i % 3 == 2 then a[i] == 0x3A else HexValue(a[i]) >= 0
  }

  /** The two are the same but for the case of their letters. */
  predicate SameAddress(a: CString, b: CString) {
    IsAddress(a) && IsAddress(b) && forall i :: 0 <= i < 17 && i % 3 != 2 ==> HexValue(a[i]) == HexValue(b[i])
  }

  predicate NoLowerCase(a: CString) {
    forall i :: 0 <= i < |a| ==> !(0x61 <= a[i] <= 0x7A)
  }

  lemma AddressIsCanonical(a: CString)
    ensures IsAddress(a) <==> Canonical(a)
    ensures IsAddress(a) <==> Canonical(Upper(a))
  {
  }

  /** Two bytes have the same upper case, if they are digits, exactly when they have the same value. */
  lemma DigitFolds(c: byte, d: byte)
    requires HexValue(c) >= 0 && HexValue(d) >= 0
    ensures UpperByte(c) == UpperByte(d) <==> HexValue(c) == HexValue(d)
    ensures HexValue(UpperByte(c)) == HexValue(c)
  {
  }

  /** Two addresses have the same key exactly when their digits have the same values. */
  lemma SameKeyIff(a: CString, b: CString)
    requires IsAddress(a) && IsAddress(b)
    ensures Upper(a) == Upper(b) <==> SameAddress(a, b)
  {
    forall i | 0 <= i < 17
      ensures Upper(a)[i] == Upper(b)[i] <==> (i % 3 == 2 || HexValue(a[i]) == HexValue(b[i])) {
      if i % 3 != 2 { DigitFolds(a[i], b[i]); }
    }
    if SameAddress(a, b) { assert Upper(a) == Upper(b); }
    hide HexValue, UpperByte;
  }

  /** The key is the address itself, written without lower-case letters. */
  lemma KeyIsAddress(a: CString)
    requires IsAddress(a)
    ensures SameAddress(Upper(a), a) && NoLowerCase(Upper(a))
  {
    forall i | 0 <= i < 17 && i % 3 != 2 ensures HexValue(Upper(a)[i]) == HexValue(a[i]) {
      DigitFolds(a[i], a[i]);
    }
    AddressIsCanonical(a);
    AddressIsCanonical(Upper(a));
    hide HexValue;
  }

  lemma SameAddressTransitive(a: CString, b: CString, c: CString)
    requires SameAddress(a, b) && (SameAddress(a, c) || SameAddress(c, a))
    ensures SameAddress(b, c) && SameAddress(c, b)
  {
    hide HexValue;
  }

  // ----- Which messages are answered -----

  /** A message from a device asks for the identity of the address it names, unless it has one already. */
  predicate AsksForIdentity(m: Message, mac: CString) {
    && Get(m.props, SOURCE).Some? && Get(m.props, SOURCE).value != IOTHUB && Get(m.props, SOURCE).value != MAPPING
    && Get(m.props, MAC_ADDRESS) == Some(mac) && IsAddress(mac)
    && (Get(m.props, DEVICE_NAME) == None || Get(m.props, DEVICE_KEY) == None)
  }

  /** A message from the cloud asks for the address of the device it names. */
  predicate AsksForAddress(m: Message, id: CString) {
    Get(m.props, SOURCE) == Some(IOTHUB) && Get(m.props, DEVICE_NAME) == Some(id)
  }

  /** The entry is one that the message asks for. */
  ghost predicate Matches(c: RawConfig, m: Message)
    requires ValidRaw(c)
  {
    || AsksForAddress(m, c.id.value)
    || exists mac :: AsksForIdentity(m, mac) && SameAddress(mac, c.mac.value)
  }

  /** Everything but the four properties is as it was. */
  ghost predicate RestKept(m: Message, r: Message) {
    && r.content == m.content
    && forall k :: k !in {DEVICE_NAME, DEVICE_KEY, SOURCE, MAC_ADDRESS} ==> Get(r.props, k) == Get(m.props, k)
  }

  /** r is the message with the identity of the entry in place of the address. */
  ghost predicate Identified(c: RawConfig, m: Message, r: Message)
    requires ValidRaw(c)
  {
    && Get(r.props, DEVICE_NAME) == c.id && Get(r.props, DEVICE_KEY) == c.key
    && Get(r.props, SOURCE) == Some(MAPPING) && Get(r.props, MAC_ADDRESS) == None && Messages.Valid(r) && RestKept(m, r)
  }

  /** r is the message with the address of the entry, in upper case, in place of the identity. */
  ghost predicate Addressed(c: RawConfig, m: Message, r: Message)
    requires ValidRaw(c)
  {
    && Get(r.props, MAC_ADDRESS).Some?
    && SameAddress(Get(r.props, MAC_ADDRESS).value, c.mac.value) && NoLowerCase(Get(r.props, MAC_ADDRESS).value)
    && Get(r.props, DEVICE_NAME) == None && Get(r.props, DEVICE_KEY) == None
    && Get(r.props, SOURCE) == Some(MAPPING) && Messages.Valid(r) && RestKept(m, r)
  }

  /** The request of a message, without its upper-case copy. */
  lemma RequestIs(m: Message)
    ensures var q := Request(m);
            && (q.Some? && q.value.0 <==> exists mac :: AsksForIdentity(m, mac))
            && (q.Some? && !q.value.0 <==> exists id :: AsksForAddress(m, id))
            && (forall mac :: AsksForIdentity(m, mac) ==> q == Some((true, Upper(mac))))
            && (forall id :: AsksForAddress(m, id) ==> q == Some((false, id)))
  {
    NamesDiffer();
    var (mac, name) := (Get(m.props, MAC_ADDRESS), Get(m.props, DEVICE_NAME));
    if mac.Some? { AddressIsCanonical(mac.value); }
    hide Get, IsAddress, Canonical, Upper;
    if mac.Some? { assert AsksForIdentity(m, mac.value) || !exists a :: AsksForIdentity(m, a); }
    if name.Some? { assert AsksForAddress(m, name.value) || !exists a :: AsksForAddress(m, a); }
  }

  /** An element of the index is the copy of an entry. */
  lemma EntryOf(raw: seq<RawConfig>, e: Config) returns (i: nat)
    requires ValidConfig(raw) && e in Entries(raw)
    ensures i < |raw| && e == CopyOf(raw[i])
  {
    i :| 0 <= i < |raw| && Entries(raw)[i] == e;
  }

  /** The copy of an entry has the key of a request exactly when the message asks for the entry. */
  lemma KeyIffMatches(c: RawConfig, m: Message)
    requires ValidRaw(c) && Request(m).Some?
    ensures KeyOf(CopyOf(c), Request(m).value.0) == Request(m).value.1 <==> Matches(c, m)
  {
    RequestIs(m);
    AddressIsCanonical(c.mac.value);
    hide Get, IsAddress, Canonical, Upper, Request, SameAddress;
    if Request(m).value.0 {
      var mac :| AsksForIdentity(m, mac);
      SameKeyIff(mac, c.mac.value);
      assert forall a :: AsksForIdentity(m, a) ==> a == mac;
    }
  }

  lemma NothingAsked(c: RawConfig, m: Message)
    requires ValidRaw(c) && Request(m) == None
    ensures !Matches(c, m)
  {
    RequestIs(m);
    hide Request;
  }

  /** A message is answered exactly when the configuration has an entry that it asks for. */
  lemma AnsweredIff(raw: seq<RawConfig>, m: Message, r: Option<Message>)
    requires ValidConfig(raw) && IsAnswer(Entries(raw), m, r)
    ensures r.Some? <==> exists i :: 0 <= i < |raw| && Matches(raw[i], m)
  {
    var es := Entries(raw);
    hide Request, KeyOf, CopyOf, Answer, Matches;
    forall i | 0 <= i < |raw| ensures Matches(raw[i], m) ==> r.Some? {
      assert es[i] in es;
      if Request(m) == None { NothingAsked(raw[i], m); } else { KeyIffMatches(raw[i], m); }
    }
    if r.Some? {
      var (byMac, key) := Request(m).value;
      var e :| e in es && KeyOf(e, byMac) == key && r.value == Answer(m, e, byMac);
      var i := EntryOf(raw, e);
      KeyIffMatches(raw[i], m);
    }
  }

  /** The answer comes from an entry that the message asks for: its identity to a device, its address to the cloud. */
  lemma AnswerComesFrom(raw: seq<RawConfig>, m: Message, r: Option<Message>) returns (i: nat)
    requires ValidConfig(raw) && IsAnswer(Entries(raw), m, r) && Messages.Valid(m) && r.Some?
    ensures i < |raw| && Matches(raw[i], m)
    ensures if Get(m.props, SOURCE) == Some(IOTHUB) then Addressed(raw[i], m, r.value)
            else Identified(raw[i], m, r.value)
  {
    var (byMac, key) := Request(m).value;
    var e :| e in Entries(raw) && KeyOf(e, byMac) == key && r.value == Answer(m, e, byMac);
    i := EntryOf(raw, e);
    KeyIffMatches(raw[i], m);
    RequestIs(m);
    AddressIsCanonical(raw[i].mac.value);
    KeyIsAddress(raw[i].mac.value);
    DeviceAnswerSays(m, e);
    CloudAnswerSays(m, e);
    hide Get, Request, DeviceAnswer, CloudAnswer, SameAddress, NoLowerCase, Matches, Upper, Canonical, IsAddress;
  }

  predicate DistinctAddresses(raw: seq<RawConfig>)
    requires ValidConfig(raw)
  {
    forall i, j :: 0 <= i < j < |raw| ==> !SameAddress(raw[i].mac.value, raw[j].mac.value)
  }

  predicate DistinctIds(raw: seq<RawConfig>)
    requires ValidConfig(raw)
  {
    forall i, j :: 0 <= i < j < |raw| ==> raw[i].id.value != raw[j].id.value
  }

  lemma OneAddress(raw: seq<RawConfig>, m: Message, i: nat, j: nat)
    requires ValidConfig(raw) && DistinctAddresses(raw) && i < |raw| && j < |raw|
    requires Get(m.props, SOURCE) != Some(IOTHUB) && Matches(raw[i], m) && Matches(raw[j], m)
    ensures i == j
  {
    hide SameAddress, Get, IsAddress;
    var a :| AsksForIdentity(m, a) && SameAddress(a, raw[i].mac.value);
    var b :| AsksForIdentity(m, b) && SameAddress(b, raw[j].mac.value);
    SameAddressTransitive(a, raw[i].mac.value, raw[j].mac.value);
  }

  lemma OneId(raw: seq<RawConfig>, m: Message, i: nat, j: nat)
    requires ValidConfig(raw) && DistinctIds(raw) && i < |raw| && j < |raw|
    requires Get(m.props, SOURCE) == Some(IOTHUB) && Matches(raw[i], m) && Matches(raw[j], m)
    ensures i == j
  {
    hide SameAddress, Get, IsAddress;
  }

  /**
   * A message from a device is answered with the entry of its address, in whatever case the two
   * are written, if no other entry has that address.
   */
  lemma DeviceIsIdentified(raw: seq<RawConfig>, m: Message, r: Option<Message>, mac: CString, i: nat)
    requires ValidConfig(raw) && IsAnswer(Entries(raw), m, r) && Messages.Valid(m) && DistinctAddresses(raw)
    requires AsksForIdentity(m, mac) && i < |raw| && SameAddress(mac, raw[i].mac.value)
    ensures r.Some? && Identified(raw[i], m, r.value)
  {
    assert Matches(raw[i], m);
    hide IsAnswer, Matches, Get, DistinctAddresses, SameAddress, Identified, Addressed, IsAddress;
    AnsweredIff(raw, m, r);
    var j := AnswerComesFrom(raw, m, r);
    OneAddress(raw, m, i, j);
  }

  /** A message from the cloud is answered with the address of the device it names, if no other entry has that name. */
  lemma CloudIsAddressed(raw: seq<RawConfig>, m: Message, r: Option<Message>, i: nat)
    requires ValidConfig(raw) && IsAnswer(Entries(raw), m, r) && Messages.Valid(m) && DistinctIds(raw)
    requires i < |raw| && AsksForAddress(m, raw[i].id.value)
    ensures r.Some? && Addressed(raw[i], m, r.value)
  {
    assert Matches(raw[i], m);
    hide IsAnswer, Matches, Get, DistinctIds, SameAddress, Identified, Addressed, IsAddress;
    AnsweredIff(raw, m, r);
    var j := AnswerComesFrom(raw, m, r);
    OneId(raw, m, i, j);
  }

  // ----- The two directions are inverse -----

  /** What the cloud sends to the name a message was given goes to the address the message came from. */
  lemma AddressComesBack(raw: seq<RawConfig>, m: Message, mac: CString, up: Message, reply: Message,
                         down: Option<Message>)
    requires ValidConfig(raw) && DistinctIds(raw) && Messages.Valid(m) && Messages.Valid(reply)
    requires AsksForIdentity(m, mac) && IsAnswer(Entries(raw), m, Some(up))
    requires Get(reply.props, SOURCE) == Some(IOTHUB) && Get(reply.props, DEVICE_NAME) == Get(up.props, DEVICE_NAME)
    requires IsAnswer(Entries(raw), reply, down)
    ensures down.Some? && Get(down.value.props, MAC_ADDRESS).Some?
    ensures SameAddress(Get(down.value.props, MAC_ADDRESS).value, mac)
  {
    var i := AnswerComesFrom(raw, m, Some(up));
    hide IsAnswer, Get, SameAddress, IsAddress;
    CloudIsAddressed(raw, reply, down, i);
    var a :| AsksForIdentity(m, a) && SameAddress(a, raw[i].mac.value);
    hide ValidConfig;
    SameAddressTransitive(a, raw[i].mac.value, Get(down.value.props, MAC_ADDRESS).value);
  }

  /** What a device answers from the address it was sent to, in whatever case, carries its name and key again. */
  lemma NameComesBack(raw: seq<RawConfig>, m: Message, i: nat, down: Message, reply: Message, mac: CString,
                      up: Option<Message>)
    requires ValidConfig(raw) && DistinctIds(raw) && DistinctAddresses(raw)
    requires Messages.Valid(m) && Messages.Valid(reply)
    requires i < |raw| && AsksForAddress(m, raw[i].id.value) && IsAnswer(Entries(raw), m, Some(down))
    requires Get(down.props, MAC_ADDRESS).Some? && SameAddress(Get(down.props, MAC_ADDRESS).value, mac)
    requires AsksForIdentity(reply, mac) && IsAnswer(Entries(raw), reply, up)
    ensures up.Some? && Identified(raw[i], reply, up.value)
  {
    hide IsAnswer, Get, SameAddress, IsAddress, DistinctIds, DistinctAddresses, Identified;
    CloudIsAddressed(raw, m, Some(down), i);
    SameAddressTransitive(Get(down.props, MAC_ADDRESS).value, raw[i].mac.value, mac);
    hide ValidConfig;
    DeviceIsIdentified(raw, reply, up, mac, i);
  }
}
